/** The backend's user endpoints over the in-memory user table: `signup`
    inserts a new user with a hashed password and refuses a taken name;
    `login` looks the user up, verifies the password and issues an access and
    a refresh token for that user. Password hashing and verification are the
    parameters `hash` and `verify`. */
module UserApi {
  import opened Common
  import Auth

  datatype UserRecord = UserRecord(username: string, password: string)

  const SeedUsername := "user@example.com"
  /** The stored bcrypt hash of the seed user's password. */
  const SeedPasswordHash := "$2b$12$yQw.vZjIy8Y9OY1jG4bR4eSiZ2qlQfpLFdZKOyAfXx4WiElGzJHae"

  const SignupMessage := "User created successfully"
  const UserExistsError := HttpError(400, "User already exists")
  const InvalidCredentialsError := HttpError(401, "Invalid credentials")

  /** The body of a successful login: exactly these three keys. */
  datatype TokenReply = TokenReply(accessToken: Auth.Token, refreshToken: Auth.Token, tokenType: string)

  /** The claims both login tokens are created from: `{"sub": username}`. */
  function SubjectClaims(username: string): (claims: Auth.Claims)
    ensures claims.Keys == {"sub"} && claims["sub"] == Auth.Text(username)
  {
    map["sub" := Auth.Text(username)]
  }

  class UserTable {
    var users: map<string, UserRecord>

    /** Every record is stored under its own username. */
    ghost predicate Valid()
      reads this
    {
      forall name :: name in users ==> users[name].username == name
    }

    /** `fake_users_db` as the module defines it: the one seed user. */
    constructor ()
      ensures Valid()
      ensures users.Keys == {SeedUsername}
      ensures users[SeedUsername] == UserRecord(SeedUsername, SeedPasswordHash)
    {
      users := map[SeedUsername := UserRecord(SeedUsername, SeedPasswordHash)];
    }

    method Signup(username: string, password: string, hash: string -> string)
      returns (r: Result<string>)
      requires Valid()
      modifies this
      ensures Valid()
      ensures old(username in users) ==> r == Err(UserExistsError) && users == old(users)
      ensures old(username !in users) ==>
                r == Ok(SignupMessage) &&
                users.Keys == old(users).Keys + {username} &&
                users[username] == UserRecord(username, hash(password))
      ensures forall name :: name in old(users) ==> name in users && users[name] == old(users)[name]
      ensures r.Ok? ==> username in users
    {
      if username in users {
        return Err(UserExistsError);
      }
      var hashed := hash(password);
      users := users[username := UserRecord(username, hashed)];
      r := Ok(SignupMessage);
    }

    /** `login` reads the table and never changes it. */
    method Login(username: string, password: string, verify: (string, string) -> bool,
                 cfg: Auth.Config, now: int)
      returns (r: Result<TokenReply>)
      ensures r.Err? <==> username !in users || !verify(password, users[username].password)
      ensures r.Err? ==> r.error == InvalidCredentialsError
      ensures r.Ok? ==> r.value.tokenType == "bearer"
      // in a valid table the submitted name is the stored record's own name
      ensures Valid() && r.Ok? ==> SubjectClaims(username)["sub"] == Auth.Text(users[username].username)
      ensures r.Ok? ==> r.value.accessToken == Auth.CreateAccessToken(SubjectClaims(username), None, now, cfg)
      ensures r.Ok? ==> r.value.refreshToken == Auth.CreateRefreshToken(SubjectClaims(username), None, now, cfg)
    {
      var user := Lookup(users, username);
      if user.None? || !verify(password, user.value.password) {
        return Err(InvalidCredentialsError);
      }
      var claims := SubjectClaims(username);
      var accessToken := Auth.CreateAccessToken(claims, None, now, cfg);
      var refreshToken := Auth.CreateRefreshToken(claims, None, now, cfg);
      r := Ok(TokenReply(accessToken, refreshToken, "bearer"));
    }
  }

  /** Signing up the same name twice: the first succeeds on a free name, the
      second is refused and leaves the table as the first left it. */
  method SignupTwice(table: UserTable, username: string, first: string, second: string,
                     hash: string -> string)
    returns (r1: Result<string>, r2: Result<string>)
    requires table.Valid() && username !in table.users
    modifies table
    ensures r1 == Ok(SignupMessage) && r2 == Err(UserExistsError)
    ensures table.users == old(table.users)[username := UserRecord(username, hash(first))]
  {
    r1 := table.Signup(username, first, hash);
    r2 := table.Signup(username, second, hash);
  }

  /** A user who has just signed up can log in with the same password when
      `verify` accepts the password against its own hash, and the tokens name
      that user as their subject. */
  method SignupThenLogin(table: UserTable, username: string, password: string,
                         hash: string -> string, verify: (string, string) -> bool,
                         cfg: Auth.Config, now: int)
    returns (reply: Result<TokenReply>)
    requires table.Valid() && username !in table.users
    requires verify(password, hash(password))
    modifies table
    ensures reply.Ok?
    ensures var t := reply.value.accessToken; t.Signed? && "sub" in t.claims && t.claims["sub"] == Auth.Text(username)
    ensures var t := reply.value.refreshToken; t.Signed? && "sub" in t.claims && t.claims["sub"] == Auth.Text(username)
  {
    var signedUp := table.Signup(username, password, hash);
    reply := table.Login(username, password, verify, cfg, now);
  }
}
