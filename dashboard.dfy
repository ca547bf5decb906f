/** The dashboard: the guarded request for the user's interviews, the logout
    that a 401 reply forces, and the label and colour of each interview's
    result. */
module Dashboard {
  import opened Common
  import ClientState

  type Interview = ClientState.Interview

  /** The result label: 1 is "Passed", 2 is "Failed", anything else, null
      included, is "Pending". */
  function ResultLabel(result: Option<int>): (text: string)
    ensures text == "Passed" <==> result == Some(1)
    ensures text == "Failed" <==> result == Some(2)
    ensures text == "Pending" <==> result != Some(1) && result != Some(2)
  {
    if result == Some(1) then "Passed"
    else if result == Some(2) then "Failed"
    else "Pending"
  }

  /** The colour class of the result line, split the same three ways. */
  function ResultColour(result: Option<int>): (colour: string)
    ensures colour == "text-green-500" <==> result == Some(1)
    ensures colour == "text-red-500" <==> result == Some(2)
    ensures colour == "text-yellow-400" <==> result != Some(1) && result != Some(2)
  {
    if result == Some(1) then "text-green-500"
    else if result == Some(2) then "text-red-500"
    else "text-yellow-400"
  }

  /** The two ternaries agree: the colour determines the label and back. */
  lemma LabelFollowsColour(r1: Option<int>, r2: Option<int>)
    ensures ResultColour(r1) == ResultColour(r2) <==> ResultLabel(r1) == ResultLabel(r2)
  {
  }

  const FetchFailedMessage := "Failed to fetch interviews."
  const NetworkErrorMessage := "An error occurred while fetching interviews."

  /** The JSON body of the interviews endpoint's reply. */
  datatype InterviewsBody =
    | Unparsable
    | Listing(interviews: seq<Interview>)
    | ErrorBody(detail: Option<string>)

  datatype InterviewsResponse =
    | Threw
    | Responded(status: int, body: InterviewsBody)

  /** The error shown for a reply that is not ok: the server's `detail` if it
      is a non-empty string, the fixed fallback otherwise; a body that is not
      JSON ends in the catch block's message. */
  function ErrorFor(body: InterviewsBody): (message: string)
    ensures body.Unparsable? ==> message == NetworkErrorMessage
    ensures body.ErrorBody? && Truthy(body.detail) ==> message == body.detail.value
    ensures !body.Unparsable? && !(body.ErrorBody? && Truthy(body.detail)) ==> message == FetchFailedMessage
  {
    match body
    case Unparsable => NetworkErrorMessage
    case Listing(_) => FetchFailedMessage
    case ErrorBody(detail) => if Truthy(detail) then detail.value else FetchFailedMessage
  }

  /** A forced logout happens exactly on a 401 whose body is JSON. */
  predicate ForcesLogout(resp: InterviewsResponse) {
    resp.Responded? && resp.status == 401 && !resp.body.Unparsable?
  }

  class Page {
    var interviews: Option<seq<Interview>>
    var error: Option<string>

    constructor ()
      ensures interviews.None? && error.None?
    {
      interviews := None;
      error := None;
    }

    /** `fetchInterviews`: no token sends the user to /login without a request,
        an empty username does nothing, and otherwise the reply is applied. */
    method FetchInterviews(client: ClientState.Client, resp: InterviewsResponse)
      returns (requested: bool, navigatedTo: Option<string>)
      modifies this, client
      ensures requested <==> Truthy(old(client.AccessToken())) && old(client.username) != ""
      ensures !Truthy(old(client.AccessToken())) ==> navigatedTo == Some("/login")
      ensures Truthy(old(client.AccessToken())) && old(client.username) == "" ==> navigatedTo.None?
      ensures !requested ==>
                interviews == old(interviews) && error == old(error) &&
                client.storage == old(client.storage) && client.isLoggedIn == old(client.isLoggedIn) &&
                client.username == old(client.username) && client.interviewsData == old(client.interviewsData)
      // a JSON reply with an ok status sets the page's list and the shared atom to the same value
      ensures requested && resp.Responded? && IsOk(resp.status) && !resp.body.Unparsable? ==>
                interviews == client.interviewsData &&
                interviews == (if resp.body.Listing? then Some(resp.body.interviews) else None) &&
                error == old(error)
      ensures requested && resp.Responded? && !IsOk(resp.status) ==>
                error == Some(ErrorFor(resp.body)) && interviews == old(interviews)
      ensures requested && (resp.Threw? || (IsOk(resp.status) && resp.body.Unparsable?)) ==>
                error == Some(NetworkErrorMessage) && interviews == old(interviews)
      // the 401 logout removes exactly the three credential keys
      ensures requested && ForcesLogout(resp) ==>
                client.storage == old(client.storage) - ClientState.CredentialKeys() &&
                !client.isLoggedIn && client.username == "" && navigatedTo == Some("/login")
      ensures requested && !ForcesLogout(resp) ==>
                client.storage == old(client.storage) && navigatedTo.None? &&
                client.isLoggedIn == old(client.isLoggedIn) && client.username == old(client.username)
      ensures !(requested && resp.Responded? && IsOk(resp.status) && !resp.body.Unparsable?) ==>
                client.interviewsData == old(client.interviewsData)
    {
      requested := false;
      navigatedTo := None;
      var token := client.AccessToken();
      if !Truthy(token) {
        navigatedTo := Some("/login");
        return;
      }
      if client.username == "" {
        return;
      }
      requested := true;
      if resp.Threw? {
        error := Some(NetworkErrorMessage);
      } else if IsOk(resp.status) {
        if resp.body.Unparsable? {
          error := Some(NetworkErrorMessage);
        } else {
          var listed := if resp.body.Listing? then Some(resp.body.interviews) else None;
          interviews := listed;
          client.interviewsData := listed;
        }
      } else {
        error := Some(ErrorFor(resp.body));
        if ForcesLogout(resp) {
          ghost var before := client.storage;
          client.RemoveCredentials();
          assert client.storage == before - ClientState.CredentialKeys();
          client.ClearLoginAtoms();
          navigatedTo := Some("/login");
        }
      }
    }
  }
}
