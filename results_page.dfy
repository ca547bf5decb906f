/** The results page: one request for the interview's answer rows, routed by
    status (402 "not completed" back to the interview, 401 "expired" to the
    login page, anything else not ok ignored), a score that is the rounded
    percentage of answered rows, and a three-way status per answer. */
module ResultsPage {
  import opened Common
  import ClientState

  /** One answered (or skipped) question of a finished interview. */
  datatype Row = Row(question: string, answer: Option<string>, review: string)

  datatype AnswerStatus = Skipped | Weak | Strong

  /** `getAnswerStatus`: skipped for a null or empty answer, strong above ten
      characters, weak for one to ten. */
  function StatusOf(answer: Option<string>): (s: AnswerStatus)
    ensures s == Skipped <==> answer.None? || answer.value == ""
    ensures s == Weak <==> answer.Some? && 1 <= |answer.value| <= 10
    ensures s == Strong <==> answer.Some? && |answer.value| > 10
  {
    if !Truthy(answer) then Skipped
    else if |answer.value| > 10 then Strong
    else Weak
  }

  /** The filter predicate `r => r.answer`. */
  predicate Answered(r: Row) {
    Truthy(r.answer)
  }

  /** `data.filter(r => r.answer)`. */
  function AnsweredRows(rows: seq<Row>): (kept: seq<Row>)
    ensures |kept| <= |rows|
    ensures forall i :: 0 <= i < |kept| ==> Answered(kept[i])
    ensures forall i :: 0 <= i < |rows| && Answered(rows[i]) ==> rows[i] in kept
    ensures forall r :: r in kept ==> r in rows
  {
    if rows == [] then []
    else if Answered(rows[0]) then [rows[0]] + AnsweredRows(rows[1..])
    else AnsweredRows(rows[1..])
  }

  /** The filter keeps the order of the rows: filtering a concatenation is
      concatenating the filtered parts. */
  lemma {:induction false} AnsweredRowsAppend(a: seq<Row>, b: seq<Row>)
    ensures AnsweredRows(a + b) == AnsweredRows(a) + AnsweredRows(b)
  {
    if a != [] {
      var ab := a + b;
      assert ab[0] == a[0] && ab[1..] == a[1..] + b;
      AnsweredRowsAppend(a[1..], b);
      var head := if Answered(a[0]) then [a[0]] else [];
      assert AnsweredRows(ab) == head + AnsweredRows(a[1..] + b);
      assert AnsweredRows(a) == head + AnsweredRows(a[1..]);
    } else {
      assert a + b == b;
    }
  }

  /** The filter keeps every answered row as often as it occurs and drops
      every other row. */
  lemma {:induction false} AnsweredRowsMultiset(rows: seq<Row>)
    ensures forall r :: multiset(AnsweredRows(rows))[r] == if Answered(r) then multiset(rows)[r] else 0
  {
    if rows != [] {
      AnsweredRowsMultiset(rows[1..]);
      assert rows == [rows[0]] + rows[1..];
      assert multiset(rows) == multiset([rows[0]]) + multiset(rows[1..]);
    }
  }

  /** The answered positions of a list are those of its front plus, when the
      last row is answered, the last position. */
  lemma AnsweredPositionsSnoc(rows: seq<Row>)
    requires rows != []
    ensures var n := |rows| - 1;
            |set i | 0 <= i < |rows| && Answered(rows[i])|
              == |set i | 0 <= i < n && Answered(rows[..n][i])| + (if Answered(rows[n]) then 1 else 0)
  {
    var n := |rows| - 1;
    var before := set i | 0 <= i < n && Answered(rows[..n][i]);
    var all := set i | 0 <= i < |rows| && Answered(rows[i]);
    assert all == before + (if Answered(rows[n]) then {n} else {});
  }

  /** The number of rows the filter keeps is the number of answered positions. */
  lemma {:induction false} AnsweredCount(rows: seq<Row>)
    ensures |AnsweredRows(rows)| == |set i | 0 <= i < |rows| && Answered(rows[i])|
  {
    if rows != [] {
      var n := |rows| - 1;
      AnsweredCount(rows[..n]);
      AnsweredPositionsSnoc(rows);
      assert rows == rows[..n] + [rows[n]];
      AnsweredRowsAppend(rows[..n], [rows[n]]);
      assert [rows[n]][1..] == [];
    }
  }

  /** A row is counted towards the score exactly when its status is not Skipped. */
  lemma AnsweredIsNotSkipped(r: Row)
    ensures Answered(r) <==> StatusOf(r.answer) != Skipped
  {
  }

  lemma {:induction false} AllAnsweredKeepsAll(rows: seq<Row>)
    ensures (forall i :: 0 <= i < |rows| ==> Answered(rows[i])) <==> |AnsweredRows(rows)| == |rows|
  {
    if rows != [] {
      AllAnsweredKeepsAll(rows[1..]);
      assert forall i :: 1 <= i < |rows| ==> rows[i] == rows[1..][i - 1];
    }
  }

  lemma {:induction false} NoneAnsweredKeepsNone(rows: seq<Row>)
    ensures (forall i :: 0 <= i < |rows| ==> !Answered(rows[i])) <==> AnsweredRows(rows) == []
  {
    if rows != [] {
      NoneAnsweredKeepsNone(rows[1..]);
      assert forall i :: 1 <= i < |rows| ==> rows[i] == rows[1..][i - 1];
    }
  }

  /** `Math.round((answered / total) * 100)` in exact arithmetic: the nearest
      integer to 100 * answered / total, with halves rounded up. */
  function Percentage(answered: nat, total: nat): (p: int)
    requires total > 0
    ensures 2 * total * p <= 200 * answered + total < 2 * total * (p + 1)
  {
    (200 * answered + total) / (2 * total)
  }

  lemma MulStrict(c: int, x: int, y: int)
    requires c > 0 && c * x < c * y
    ensures x < y
  {
  }

  lemma PercentageInRange(answered: nat, total: nat)
    requires 0 < total && answered <= total
    ensures 0 <= Percentage(answered, total) <= 100
  {
    var p := Percentage(answered, total);
    MulStrict(2 * total, -1, p);
    assert 200 * answered <= 200 * total;
    assert 2 * total * p < 2 * total * 101;
    MulStrict(2 * total, p, 101);
  }

  lemma PercentageAllAnswered(total: nat)
    requires 0 < total
    ensures Percentage(total, total) == 100
  {
    var p := Percentage(total, total);
    assert 2 * total * p < 2 * total * 101;
    MulStrict(2 * total, p, 101);
    assert 2 * total * 99 < 2 * total * (p + 1);
    MulStrict(2 * total, 99, p + 1);
  }

  lemma PercentageNoneAnswered(total: nat)
    requires 0 < total
    ensures Percentage(0, total) == 0
  {
    var p := Percentage(0, total);
    MulStrict(2 * total, p, 1);
    MulStrict(2 * total, -1, p + 1);
  }

  /** For a fixed number of rows, answering more never lowers the score. */
  lemma PercentageMonotone(a: nat, b: nat, total: nat)
    requires 0 < total && a <= b
    ensures Percentage(a, total) <= Percentage(b, total)
  {
    var pa, pb := Percentage(a, total), Percentage(b, total);
    assert 2 * total * pa < 2 * total * (pb + 1);
    MulStrict(2 * total, pa, pb + 1);
  }

  /** The score state: `Math.round` of 0/0 is NaN. */
  datatype Score = Percent(p: int) | NaN

  /** The score the page sets for a list of rows. */
  function ScoreOf(rows: seq<Row>): (s: Score)
    ensures s.NaN? <==> rows == []
    ensures s.Percent? ==> 0 <= s.p <= 100
    ensures rows != [] ==>
              s == Percent(Percentage(|set i | 0 <= i < |rows| && Answered(rows[i])|, |rows|))
  {
    if rows == [] then NaN
    else
      PercentageInRange(|AnsweredRows(rows)|, |rows|);
      AnsweredCount(rows);
      Percent(Percentage(|AnsweredRows(rows)|, |rows|))
  }

  lemma ScoreOfExtremes(rows: seq<Row>)
    requires rows != []
    ensures (forall i :: 0 <= i < |rows| ==> Answered(rows[i])) ==> ScoreOf(rows) == Percent(100)
    ensures (forall i :: 0 <= i < |rows| ==> !Answered(rows[i])) ==> ScoreOf(rows) == Percent(0)
  {
    AllAnsweredKeepsAll(rows);
    NoneAnsweredKeepsNone(rows);
    PercentageAllAnswered(|rows|);
    PercentageNoneAnswered(|rows|);
  }

  const NotCompletedDetail := "Interview not completed"
  const ExpiredDetail := "Token has expired"

  /** The JSON body of the results endpoint's reply. */
  datatype ResultsBody =
    | Unparsable
    | ErrorBody(detail: Option<string>)
    | RowList(rows: seq<Row>)

  datatype ResultsResponse =
    | Threw
    | Responded(status: int, body: ResultsBody)

  /** Where a reply leads. */
  datatype Route = NotCompleted | SessionExpired | Loaded(rows: seq<Row>) | Ignored

  /** The status routing of `fetchResults`, in the order its checks run. */
  function RouteOf(resp: ResultsResponse): (r: Route)
    ensures r == NotCompleted <==>
              resp.Responded? && resp.status == 402 && resp.body == ErrorBody(Some(NotCompletedDetail))
    ensures r == SessionExpired <==>
              resp.Responded? && resp.status == 401 && resp.body == ErrorBody(Some(ExpiredDetail))
    ensures r.Loaded? <==> resp.Responded? && IsOk(resp.status) && resp.body.RowList?
    ensures r.Loaded? ==> r.rows == resp.body.rows
  {
    if resp.Threw? then Ignored
    else if resp.status == 402 && resp.body == ErrorBody(Some(NotCompletedDetail)) then NotCompleted
    else if resp.status == 401 && resp.body == ErrorBody(Some(ExpiredDetail)) then SessionExpired
    else if !IsOk(resp.status) then Ignored
    else if resp.body.RowList? then Loaded(resp.body.rows)
    else Ignored
  }

  class Page {
    var results: seq<Row>
    var loading: bool
    var score: Score

    constructor ()
      ensures results == [] && loading && score == Percent(0)
    {
      results := [];
      loading := true;
      score := Percent(0);
    }

    /** `fetchResults` after the request: route the reply, update the rows and
        the score only on success, and clear `loading` on every path. */
    method FetchResults(client: ClientState.Client, id: string, resp: ResultsResponse)
      returns (navigatedTo: Option<string>)
      modifies this, client
      ensures !loading
      ensures RouteOf(resp) == NotCompleted ==> navigatedTo == Some("/interview/" + id)
      ensures RouteOf(resp) == SessionExpired ==>
                navigatedTo == Some("/login") && !client.isLoggedIn && client.username == ""
      ensures RouteOf(resp).Loaded? ==>
                navigatedTo.None? && results == RouteOf(resp).rows && score == ScoreOf(RouteOf(resp).rows)
      ensures !RouteOf(resp).Loaded? ==> results == old(results) && score == old(score)
      ensures RouteOf(resp) != SessionExpired ==>
                client.isLoggedIn == old(client.isLoggedIn) && client.username == old(client.username)
      ensures RouteOf(resp).Ignored? ==> navigatedTo.None?
      ensures client.storage == old(client.storage) && client.interviewsData == old(client.interviewsData)
    {
      navigatedTo := None;
      if resp.Responded? {
        var done := false;
        if resp.status == 402 && resp.body.ErrorBody? && resp.body.detail == Some(NotCompletedDetail) {
          navigatedTo := Some("/interview/" + id);
          done := true;
        }
        if !done && resp.status == 401 && resp.body.ErrorBody? && resp.body.detail == Some(ExpiredDetail) {
          client.ClearLoginAtoms();
          navigatedTo := Some("/login");
          done := true;
        }
        if !done && IsOk(resp.status) && resp.body.RowList? {
          results := resp.body.rows;
          score := ScoreOf(resp.body.rows);
        }
      }
      loading := false;
    }
  }

  /** On a fresh page, a reply that is neither a success nor one of the two
      routed statuses leaves no rows and a score of 0. */
  method LoadIgnoredReply(client: ClientState.Client, id: string, resp: ResultsResponse)
    returns (page: Page)
    requires RouteOf(resp).Ignored?
    modifies client
    ensures page.results == [] && page.score == Percent(0) && !page.loading
  {
    page := new Page();
    var nav := page.FetchResults(client, id, resp);
  }
}
