/** The Employer's pending-requests panel: what it keeps of the list
    route's rows, how it drops a row after a review, the body it sends, its
    relative-time label and the avatar text. */
module BudgetRequestsPanel {
  import opened Wrappers
  import opened Text
  import opened Ledger
  import opened Listing
  import opened BudgetRequests
  import ActivityLog

  predicate IsPendingRow(row: RequestRow) {
    row.request.status == Pending
  }

  /** `data.filter(r => r.status === 'pending')` */
  function PendingOnly(rows: seq<RequestRow>): (r: seq<RequestRow>)
    ensures forall x :: x in r ==> x in rows && x.request.status == Pending
    ensures forall x :: x in rows && x.request.status == Pending ==> x in r
  {
    Filter(rows, IsPendingRow)
  }

  /** Keeping the pending rows splits over concatenation: the kept rows
      stay in the order of the response. */
  lemma PendingOnlyAppend(rows: seq<RequestRow>, rows': seq<RequestRow>)
    ensures PendingOnly(rows + rows') == PendingOnly(rows) + PendingOnly(rows')
  {
    FilterAppend(rows, rows', IsPendingRow);
  }

  /** A list ordered pending first loses only its tail: the kept rows are a
      prefix of it. */
  lemma {:induction false} PendingFirstKeepsPrefix(rows: seq<RequestRow>)
    requires forall i, j :: 0 <= i < j < |rows| && rows[j].request.status == Pending ==> rows[i].request.status == Pending
    ensures |PendingOnly(rows)| <= |rows| && PendingOnly(rows) == rows[..|PendingOnly(rows)|]
  {
    if rows != [] {
      var tail := rows[1..];
      assert rows == [rows[0]] + tail;
      PendingOnlyAppend([rows[0]], tail);
      PendingFirstKeepsPrefix(tail);
      if rows[0].request.status == Pending {
        assert PendingOnly([rows[0]]) == [rows[0]];
      } else {
        assert PendingOnly([rows[0]]) == [];
        forall x | x in tail
          ensures !IsPendingRow(x)
        {
          var j :| 0 <= j < |tail| && tail[j] == x;
          assert rows[j + 1] == x;
        }
        FilterNone(tail, IsPendingRow);
      }
    }
  }

  /** On the Employer's list the panel shows the leading pending rows. */
  lemma PanelShowsListHead(s: State, caller: Caller)
    requires caller.role == Employer
    ensures var rows := ListRequests(s, caller);
            |PendingOnly(rows)| <= |rows| && PendingOnly(rows) == rows[..|PendingOnly(rows)|]
  {
    PendingFirstKeepsPrefix(ListRequests(s, caller));
  }

  /** `prev.filter(r => r.id !== id)` */
  function RemoveId(rows: seq<RequestRow>, id: nat): (r: seq<RequestRow>)
    ensures forall x :: x in r ==> x in rows && x.request.id != id
    ensures forall x :: x in rows && x.request.id != id ==> x in r
  {
    Filter(rows, (x: RequestRow) => x.request.id != id)
  }

  /** Removing an id keeps the other rows in order: it splits over
      concatenation. */
  lemma RemoveIdAppend(rows: seq<RequestRow>, rows': seq<RequestRow>, id: nat)
    ensures RemoveId(rows + rows', id) == RemoveId(rows, id) + RemoveId(rows', id)
  {
    FilterAppend(rows, rows', (x: RequestRow) => x.request.id != id);
  }

  /** Removing an id that is not on the list changes nothing. */
  lemma RemoveAbsentId(rows: seq<RequestRow>, id: nat)
    requires forall x :: x in rows ==> x.request.id != id
    ensures RemoveId(rows, id) == rows
  {
    FilterAll(rows, (x: RequestRow) => x.request.id != id);
  }

  /** The list after a review's reply: the row goes only when the reply is
      ok. */
  function OnReply(rows: seq<RequestRow>, id: nat, ok: bool): (r: seq<RequestRow>)
    ensures !ok ==> r == rows
    ensures ok ==> forall x :: x in r ==> x.request.id != id
    ensures ok ==> forall x :: x in rows && x.request.id != id ==> x in r
    ensures |r| <= |rows|
  {
    if ok then RemoveId(rows, id) else rows
  }

  /** The section is drawn only while some request is pending. */
  predicate Shown(rows: seq<RequestRow>) {
    |rows| > 0
  }

  /** Reviewing the only request shown hides the section. */
  lemma LastReviewHides(row: RequestRow)
    ensures !Shown(OnReply([row], row.request.id, true))
  {
  }

  /** The body of the review call. */
  datatype ReviewBody = ReviewBody(status: string, approvedAmount: Option<real>)

  /** `{ status }` plus `approvedAmount` when a custom amount is given. */
  function RequestBody(status: string, customAmount: Option<real>): (b: ReviewBody)
    ensures b.status == status
    ensures b.approvedAmount.Some? <==> customAmount.Some?
    ensures b.approvedAmount.Some? ==> b.approvedAmount.value == customAmount.value
  {
    ReviewBody(status, customAmount)
  }

  /** The Approve button sends no custom amount, so the review credits the
      owner with exactly the amount requested. */
  lemma ApproveButtonCreditsRequested(s: State, caller: Caller, id: nat)
    requires var b := RequestBody("approved", None);
             Resolve(s, caller, id, b.status, b.approvedAmount).Ok?
    ensures var b := RequestBody("approved", None);
            var q := s.requests[Target(s, id).value];
            && Resolve(s, caller, id, b.status, b.approvedAmount).value.0.users[q.owner].budget
               == s.users[q.owner].budget + q.requestedAmount
            && Resolve(s, caller, id, b.status, b.approvedAmount).value.1.approvedAmount == Some(q.requestedAmount)
  {
  }

  /** The Reject button leaves every budget as it was. */
  lemma RejectButtonKeepsBudgets(s: State, caller: Caller, id: nat)
    requires var b := RequestBody("rejected", None);
             Resolve(s, caller, id, b.status, b.approvedAmount).Ok?
    ensures var b := RequestBody("rejected", None);
            Resolve(s, caller, id, b.status, b.approvedAmount).value.0.users == s.users
  {
  }

  /** The panel's `formatTimeAgo`: like the activity log's, but with no
      calendar-date bucket, so old requests count in days however old. */
  function TimeAgo(d: int): (l: ActivityLog.Label)
    ensures l == ActivityLog.JustNow <==> d < ActivityLog.Minute
    ensures l.MinutesAgo? <==> ActivityLog.Minute <= d < ActivityLog.Hour
    ensures l.HoursAgo? <==> ActivityLog.Hour <= d < ActivityLog.Day
    ensures l.DaysAgo? <==> ActivityLog.Day <= d
    ensures l.DaysAgo? ==> 1 <= l.n && l.n * ActivityLog.Day <= d < (l.n + 1) * ActivityLog.Day
    ensures !l.CalendarDate?
  {
    if d < ActivityLog.Minute then ActivityLog.JustNow
    else if d < ActivityLog.Hour then ActivityLog.MinutesAgo(d / ActivityLog.Minute)
    else if d < ActivityLog.Day then ActivityLog.HoursAgo(d / ActivityLog.Hour)
    else ActivityLog.DaysAgo(d / ActivityLog.Day)
  }

  /** The two panels agree below a week; from a week on the request panel
      still counts days, seven or more, where the activity log shows a
      date. */
  lemma TimeAgoAgreesBelowWeek(d: int)
    ensures d < ActivityLog.Week ==> TimeAgo(d) == ActivityLog.FormatTimeAgo(d)
    ensures d >= ActivityLog.Week ==>
              ActivityLog.FormatTimeAgo(d).CalendarDate? && TimeAgo(d).DaysAgo? && TimeAgo(d).n >= 7
  {
  }

  /** The avatar text: the upper-cased first character of every word of the
      user's name, with no length cap, or "?" when there is none. */
  function Avatar(userName: Option<string>): (r: string)
    ensures userName.Some? ==>
              r == (if WordStarts(userName.value, true) == [] then "?" else ToUpper(WordStarts(userName.value, true)))
    ensures r != []
    ensures userName.None? ==> r == "?"
  {
    if userName.None? then "?"
    else
      var heads := ToUpper(Heads(Split(userName.value)));
      HeadsOfSplit(userName.value);
      if heads == [] then "?" else heads
  }
}
