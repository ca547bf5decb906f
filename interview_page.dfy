/** The interview page: a guidelines screen, a "Start Interview" action that
    fetches one question, an effect that fetches again when the page holds
    neither a question nor an error, and a prioritised choice of what to show.
    The page's four state hooks are the fields of `Page`; `fetchQuestion` is
    asynchronous, so it is split at its `await` into `BeginFetch` (everything
    before the request) and `FinishFetch` (everything after the reply). */
module InterviewPage {
  import opened Common

  datatype Question = Question(questionNumber: int, text: string)

  /** The message set when the request fails or the reply is not JSON. */
  const FetchErrorMessage := "An error occurred while fetching the question."

  /** The JSON body of the question endpoint's reply. */
  datatype QuestionBody =
    | Unparsable
    | Json(detail: Option<string>, questionNumber: int, question: string)

  /** What one question request produced. */
  datatype FetchOutcome =
    | Threw
    | Responded(status: int, body: QuestionBody)

  /** The outcomes that end in the catch block: a thrown fetch, a status
      outside 200..299, or a body that `response.json()` cannot parse. */
  predicate FetchFailed(outcome: FetchOutcome) {
    outcome.Threw? || !IsOk(outcome.status) || outcome.body.Unparsable?
  }

  /** What the page shows. */
  datatype View =
    | Guidelines
    | Loading
    | ErrorText(message: string)
    | ShowQuestion(question: Question)
    | NoQuestion

  /** The render branch: guidelines first, then the loading text, then the
      error, then the question, and "No question found." otherwise. */
  function Render(showGuidelines: bool, isLoading: bool, error: Option<string>,
                  question: Option<Question>): (v: View)
    ensures v.Guidelines? <==> showGuidelines
    ensures v.Loading? <==> !showGuidelines && isLoading
    ensures v.ErrorText? <==> !showGuidelines && !isLoading && Truthy(error)
    ensures v.ErrorText? ==> Some(v.message) == error
    ensures v.ShowQuestion? <==> !showGuidelines && !isLoading && !Truthy(error) && question.Some?
    ensures v.ShowQuestion? ==> Some(v.question) == question
    ensures v.NoQuestion? <==> !showGuidelines && !isLoading && !Truthy(error) && question.None?
  {
    if showGuidelines then Guidelines
    else if isLoading then Loading
    else if Truthy(error) then ErrorText(error.value)
    else if question.Some? then ShowQuestion(question.value)
    else NoQuestion
  }

  /** The `useEffect` guard: fetch automatically only when the guidelines are
      dismissed, no question is held and the error is falsy. */
  function ShouldAutoFetch(showGuidelines: bool, question: Option<Question>,
                           error: Option<string>): (fire: bool)
    ensures Truthy(error) ==> !fire
    ensures question.Some? ==> !fire
    ensures showGuidelines ==> !fire
    ensures !showGuidelines && question.None? && !Truthy(error) ==> fire
  {
    !showGuidelines && question.None? && !Truthy(error)
  }

  /** While either the guidelines or a loading fetch are on screen, the effect
      guard does not look at `isLoading`: the view can say "Loading" while the
      guard asks for a further request. */
  lemma GuardIgnoresLoading(question: Option<Question>, error: Option<string>)
    requires question.None? && !Truthy(error)
    ensures Render(false, true, error, question) == Loading
    ensures ShouldAutoFetch(false, question, error)
  {
  }

  class Page {
    var showGuidelines: bool
    var question: Option<Question>
    var error: Option<string>
    var isLoading: bool
    /** The number of question requests issued so far. */
    ghost var requests: nat

    /** Every error the page stores is a non-empty string, so `!error` on the
        page is the same as "no error". */
    ghost predicate Valid()
      reads this
    {
      error.Some? ==> error.value != ""
    }

    constructor ()
      ensures Valid()
      ensures showGuidelines && question.None? && error.None? && !isLoading
      ensures requests == 0
    {
      showGuidelines := true;
      question := None;
      error := None;
      isLoading := false;
      requests := 0;
    }

    function CurrentView(): View
      reads this
    {
      Render(showGuidelines, isLoading, error, question)
    }

    predicate AutoFetchDue()
      reads this
    {
      ShouldAutoFetch(showGuidelines, question, error)
    }

    /** The synchronous part of `fetchQuestion`: `setIsLoading(true)` and the
        request going out. */
    method BeginFetch()
      requires Valid()
      modifies this
      ensures Valid()
      ensures isLoading && requests == old(requests) + 1
      ensures showGuidelines == old(showGuidelines)
      ensures question == old(question) && error == old(error)
    {
      isLoading := true;
      requests := requests + 1;
    }

    /** The part of `fetchQuestion` after the reply: a `detail` clears the
        question and shows the detail, any other JSON body stores the question
        and clears the error, a failure sets the fixed message and keeps the
        question; `isLoading` is false on every path. */
    method FinishFetch(outcome: FetchOutcome)
      requires Valid()
      modifies this
      ensures Valid()
      ensures !isLoading
      ensures showGuidelines == old(showGuidelines) && requests == old(requests)
      ensures FetchFailed(outcome) ==>
                error == Some(FetchErrorMessage) && question == old(question)
      ensures !FetchFailed(outcome) && Truthy(outcome.body.detail) ==>
                error == outcome.body.detail && question.None?
      ensures !FetchFailed(outcome) && !Truthy(outcome.body.detail) ==>
                error.None? &&
                question == Some(Question(outcome.body.questionNumber, outcome.body.question))
      // no reply leaves the page in a state where the effect fetches again
      ensures !AutoFetchDue()
    {
      if FetchFailed(outcome) {
        error := Some(FetchErrorMessage);
      } else if Truthy(outcome.body.detail) {
        error := outcome.body.detail;
        question := None;
      } else {
        question := Some(Question(outcome.body.questionNumber, outcome.body.question));
        error := None;
      }
      isLoading := false;
    }

    /** "Start Interview": dismiss the guidelines and fetch a question. */
    method StartInterview()
      requires Valid()
      modifies this
      ensures Valid()
      ensures !showGuidelines && isLoading && requests == old(requests) + 1
      ensures question == old(question) && error == old(error)
      ensures CurrentView() == Loading
      // from a fresh page, the effect that runs after this render fetches a second time
      ensures old(question).None? && old(error).None? ==> AutoFetchDue()
    {
      showGuidelines := false;
      BeginFetch();
    }

    /** The `useEffect` body: fetch when the guard holds, do nothing otherwise. */
    method RunEffect() returns (fired: bool)
      requires Valid()
      modifies this
      ensures Valid()
      ensures fired == old(AutoFetchDue())
      ensures fired ==> isLoading && requests == old(requests) + 1
      ensures !fired ==> isLoading == old(isLoading) && requests == old(requests)
      ensures showGuidelines == old(showGuidelines)
      ensures question == old(question) && error == old(error)
    {
      fired := AutoFetchDue();
      if fired {
        BeginFetch();
      }
    }
  }

  /** Once a reply has been handled after dismissing the guidelines, the effect
      stays quiet from then on: the page issues exactly the requests of the
      start action and of the effect that follows it. */
  method StartAndSettle(p: Page, first: FetchOutcome, second: FetchOutcome)
    returns (fired: bool)
    requires p.Valid() && p.showGuidelines && p.question.None? && p.error.None?
    modifies p
    ensures p.Valid() && !p.isLoading
    ensures fired && p.requests == old(p.requests) + 2
    ensures !p.AutoFetchDue()
  {
    p.StartInterview();
    fired := p.RunEffect();
    p.FinishFetch(first);
    p.FinishFetch(second);
    var again := p.RunEffect();
    assert !again;
  }
}
