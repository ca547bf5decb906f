/** The browser-side state the pages share: the global atoms (logged-in flag,
    username, the dashboard's interview list) and the localStorage entries
    that hold the credentials. */
module ClientState {
  import opened Common

  /** One row of the dashboard's interview list. */
  datatype Interview = Interview(id: int, createdAt: string, jobName: string, result: Option<int>)

  const UsernameKey := "username"
  const AccessTokenKey := "access_token"
  const RefreshTokenKey := "refresh_token"

  /** The three localStorage keys a login writes and a logout removes. */
  function CredentialKeys(): (keys: set<string>)
    ensures |keys| == 3
    ensures UsernameKey in keys && AccessTokenKey in keys && RefreshTokenKey in keys
  {
    var keys := {UsernameKey, AccessTokenKey, RefreshTokenKey};
    assert UsernameKey != AccessTokenKey && UsernameKey != RefreshTokenKey && AccessTokenKey != RefreshTokenKey;
    keys
  }

  class Client {
    var isLoggedIn: bool
    var username: string
    var interviewsData: Option<seq<Interview>>
    var storage: map<string, string>

    constructor (loggedIn: bool, name: string, stored: map<string, string>)
      ensures isLoggedIn == loggedIn && username == name && storage == stored
      ensures interviewsData == None
    {
      isLoggedIn := loggedIn;
      username := name;
      storage := stored;
      interviewsData := None;
    }

    /** `localStorage.getItem("access_token")`. */
    function AccessToken(): (t: Option<string>)
      reads this
      ensures t.Some? <==> AccessTokenKey in storage
      ensures t.Some? ==> t.value == storage[AccessTokenKey]
    {
      Lookup(storage, AccessTokenKey)
    }

    /** `setIsLoggedIn(false); setUsername("")`. */
    method ClearLoginAtoms()
      modifies this
      ensures !isLoggedIn && username == ""
      ensures storage == old(storage) && interviewsData == old(interviewsData)
    {
      isLoggedIn := false;
      username := "";
    }

    /** `localStorage.removeItem` of username, access_token and refresh_token. */
    method RemoveCredentials()
      modifies this
      ensures storage.Keys == old(storage).Keys - CredentialKeys()
      ensures forall k :: k in storage ==> storage[k] == old(storage)[k]
      ensures isLoggedIn == old(isLoggedIn) && username == old(username)
      ensures interviewsData == old(interviewsData)
    {
      storage := storage - {UsernameKey};
      storage := storage - {AccessTokenKey};
      storage := storage - {RefreshTokenKey};
    }
  }
}
