/** The budget-request routes: creating a pending request, resolving it to
    a terminal state (approval credits the owner's budget), the pending
    summary and the role-scoped list. */
module BudgetRequests {
  import opened Wrappers
  import opened Ledger
  import opened Listing

  /** Create a pending request for the caller: the amount must be present
      and positive, and the caller must not already have a pending request.
      A `budget_requested` entry carrying the amount is logged. */
  function Create(s: State, caller: Caller, amount: Option<real>, reason: string): (r: Result<(State, BudgetRequest), Error>)
    ensures (amount.None? || amount.value <= 0.0) ==> r == Err(InvalidRequestedAmount)
    ensures amount.Some? && amount.value > 0.0 && HasPending(s.requests, caller.id) ==> r == Err(PendingRequestExists)
    ensures r.Ok? <==> amount.Some? && amount.value > 0.0 && !HasPending(s.requests, caller.id)
    ensures r.Ok? ==>
              var s' := r.value.0;
              var q := r.value.1;
              && q.owner == caller.id && q.status == Pending && q.requestedAmount == amount.value
              && q.id == s.nextRequestId && q.reason == NullIfEmpty(reason)
              && ReviewConsistent(q)
              && s'.requests == s.requests + [q]
              && s'.log == s.log + [LogEntry(caller.id, BudgetRequested, "Requested budget increase", caller.name, amount.value)]
              && s'.users == s.users && s'.expenses == s.expenses
    // the duplicate guard keeps at most one pending request per user
    ensures r.Ok? && AtMostOnePending(s.requests) ==> AtMostOnePending(r.value.0.requests)
    ensures r.Ok? && Wf(s) ==> Wf(r.value.0)
  {
    if amount.None? || amount.value <= 0.0 then Err(InvalidRequestedAmount)
    else if HasPending(s.requests, caller.id) then Err(PendingRequestExists)
    else
      var q := BudgetRequest(s.nextRequestId, caller.id, amount.value, NullIfEmpty(reason), Pending, None, None);
      var entry := LogEntry(caller.id, BudgetRequested, "Requested budget increase", caller.name, amount.value);
      var s' := s.(requests := s.requests + [q], log := s.log + [entry], nextRequestId := s.nextRequestId + 1);
      assert forall i :: 0 <= i < |s.requests| ==> s'.requests[i] == s.requests[i];
      Ok((s', q))
  }

  /** The decisions the review body may carry. */
  function ParseDecision(status: string): (d: Option<Status>)
    ensures d.Some? ==> d.value != Pending
    ensures d == Some(Approved) <==> status == "approved"
    ensures d == Some(Rejected) <==> status == "rejected"
    ensures d.None? <==> status != "approved" && status != "rejected"
  {
    if status == "approved" then Some(Approved)
    else if status == "rejected" then Some(Rejected)
    else None
  }

  /** The row the review handler's join selects: the first request with
      that id, provided its owner still exists. */
  function Target(s: State, id: nat): (t: Option<nat>)
    ensures t.Some? ==> t.value < |s.requests| && s.requests[t.value].id == id && s.requests[t.value].owner in s.users
    ensures t.Some? ==> FindRequest(s.requests, id) == t
    ensures t.None? ==> FindRequest(s.requests, id).None? || s.requests[FindRequest(s.requests, id).value].owner !in s.users
  {
    match FindRequest(s.requests, id)
    case None => None
    case Some(i) => if s.requests[i].owner in s.users then Some(i) else None
  }

  /** The amount an approval credits: `approvedAmount || requested_amount`.
      A zero or absent approved amount falls back to the requested one; a
      negative one is taken as given. */
  function FinalAmount(approvedAmount: Option<real>, requested: real): (a: real)
    ensures Truthy(approvedAmount) ==> a == approvedAmount.value
    ensures !Truthy(approvedAmount) ==> a == requested
  {
    if Truthy(approvedAmount) then approvedAmount.value else requested
  }

  /** The JSON reply of a successful review. */
  datatype ResolveReply = ResolveReply(status: Status, approvedAmount: Option<real>)

  /** The request row after a review by `reviewer`: only the status, the
      approved amount and the reviewer change, and a decided row is
      review-consistent. */
  function Reviewed(q: BudgetRequest, d: Status, final: real, reviewer: UserId): (r: BudgetRequest)
    ensures r.id == q.id && r.owner == q.owner && r.requestedAmount == q.requestedAmount && r.reason == q.reason
    ensures r.status == d && r.reviewedBy == Some(reviewer)
    ensures r.approvedAmount.Some? <==> d == Approved
    ensures d == Approved ==> r.approvedAmount.value == final
    ensures d != Pending ==> ReviewConsistent(r)
  {
    q.(status := d,
       approvedAmount := if d == Approved then Some(final) else None,
       reviewedBy := Some(reviewer))
  }

  /** The activity-log entry of a review: made by the reviewer, naming the
      owner, with the credited amount for an approval and the requested
      amount for a rejection. */
  function ReviewEntry(reviewer: UserId, d: Status, owner: User, final: real, requested: real): (e: LogEntry)
    ensures e.actor == reviewer && e.details == FullName(owner)
    ensures d == Approved ==> e.actionType == BudgetApproved && e.amount == final
    ensures d != Approved ==> e.actionType == BudgetRejected && e.amount == requested
  {
    if d == Approved then LogEntry(reviewer, BudgetApproved, "Approved budget request", FullName(owner), final)
    else LogEntry(reviewer, BudgetRejected, "Rejected budget request", FullName(owner), requested)
  }

  /** Review a request (Employer only): the status must be approved or
      rejected, the request must exist and still be pending. Approval
      stores the final amount and credits it to the owner's budget;
      rejection stores a NULL amount. Either way one entry is logged. */
  function Resolve(s: State, caller: Caller, id: nat, status: string, approvedAmount: Option<real>)
    : (r: Result<(State, ResolveReply), Error>)
    ensures caller.role != Employer ==> r == Err(Forbidden)
    ensures caller.role == Employer && ParseDecision(status).None? ==> r == Err(InvalidStatus)
    ensures caller.role == Employer && ParseDecision(status).Some? && Target(s, id).None? ==>
              r == Err(RequestNotFound)
    ensures caller.role == Employer && ParseDecision(status).Some? && Target(s, id).Some? ==>
              (r.Err? <==> s.requests[Target(s, id).value].status != Pending)
    ensures r.Err? && r.error == AlreadyProcessed ==>
              Target(s, id).Some? && s.requests[Target(s, id).value].status != Pending
    ensures r.Ok? ==>
              var s' := r.value.0;
              var i := Target(s, id).value;
              var q := s.requests[i];
              var d := ParseDecision(status).value;
              var final := FinalAmount(approvedAmount, q.requestedAmount);
              && caller.role == Employer && q.status == Pending
              && s'.requests == s.requests[i := Reviewed(q, d, final, caller.id)]
              && s'.users.Keys == s.users.Keys
              && (d == Approved ==> s'.users[q.owner].budget == s.users[q.owner].budget + final)
              && s'.users[q.owner] == s.users[q.owner].(budget := s'.users[q.owner].budget)
              && (d == Rejected ==> s'.users == s.users)
              && (forall k :: k in s.users && k != q.owner ==> s'.users[k] == s.users[k])
              && s'.log == s.log + [ReviewEntry(caller.id, d, s.users[q.owner], final, q.requestedAmount)]
              && s'.expenses == s.expenses
              && r.value.1 == ResolveReply(d, if d == Approved then Some(final) else None)
    ensures r.Ok? && Wf(s) ==> Wf(r.value.0)
  {
    if caller.role != Employer then Err(Forbidden)
    else match ParseDecision(status)
      case None => Err(InvalidStatus)
      case Some(d) =>
        match Target(s, id)
        case None => Err(RequestNotFound)
        case Some(i) =>
          var q := s.requests[i];
          if q.status != Pending then Err(AlreadyProcessed)
          else
            var final := FinalAmount(approvedAmount, q.requestedAmount);
            var owner := s.users[q.owner];
            var users' := if d == Approved then s.users[q.owner := owner.(budget := owner.budget + final)] else s.users;
            var x := Reviewed(q, d, final, caller.id);
            var log' := s.log + [ReviewEntry(caller.id, d, owner, final, q.requestedAmount)];
            var s' := s.(requests := s.requests[i := x], users := users', log := log');
            assert Wf(s) ==> Wf(s') by {
              if Wf(s) {
                ReviewKeepsWf(s, i, x, users', log');
              }
            }
            Ok((s', ResolveReply(d, if d == Approved then Some(final) else None)))
  }

  /** The figures of the pending-count route. */
  datatype PendingSummary = PendingSummary(count: nat, totalAmount: real)

  /** The number of pending requests and the sum of their amounts (0 when
      there are none); Employer only. */
  function GetPendingSummary(s: State, caller: Caller): (r: Result<PendingSummary, Error>)
    ensures r.Err? <==> caller.role != Employer
    ensures r.Err? ==> r.error == Forbidden
    ensures r.Ok? ==> r.value.count <= |s.requests|
    ensures r.Ok? ==> (r.value.count == 0 <==> forall i :: 0 <= i < |s.requests| ==> s.requests[i].status != Pending)
    ensures r.Ok? && r.value.count == 0 ==> r.value.totalAmount == 0.0
    ensures r.Ok? ==> r.value.count == PendingCount(s.requests) && r.value.totalAmount == PendingTotal(s.requests)
    ensures r.Ok? ==> r.value.count == |PendingPositions(s.requests)|
  {
    if caller.role != Employer then Err(Forbidden)
    else
      NoPendingNoTotal(s.requests);
      PendingCountIsCardinality(s.requests);
      Ok(PendingSummary(PendingCount(s.requests), PendingTotal(s.requests)))
  }

  lemma {:induction false} NoPendingNoTotal(reqs: seq<BudgetRequest>)
    ensures PendingCount(reqs) == 0 ==> PendingTotal(reqs) == 0.0
  {
    if reqs != [] {
      NoPendingNoTotal(reqs[..|reqs| - 1]);
    }
  }

  // ---------------------------------------------------------------------
  // The list route

  /** One row of the request list; the owner columns come from the join
      and are null on an Employee's own list. */
  datatype RequestRow = RequestRow(
    request: BudgetRequest,
    userName: Option<string>,
    userEmail: Option<string>,
    currentBudget: Option<real>,
    approvedAmount: Option<real>)

  /** An Employer's join keeps the requests whose owner still exists; an
      Employee's query keeps their own. */
  predicate Listed(q: BudgetRequest, users: map<UserId, User>, caller: Caller) {
    if caller.role == Employer then q.owner in users else q.owner == caller.id
  }

  /** The row of one request. The owner's name, e-mail and budget come
      only with the Employer's join; a name or e-mail that is empty reads
      as null. The budget and the approved amount are DECIMAL columns,
      which arrive as strings, so any stored value (zero included) is
      reported and only NULL reads as null. */
  function RowOf(q: BudgetRequest, users: map<UserId, User>, caller: Caller): (r: RequestRow)
    requires Listed(q, users, caller)
    ensures r.request == q && r.approvedAmount == q.approvedAmount
    ensures caller.role != Employer ==> r.userName.None? && r.userEmail.None? && r.currentBudget.None?
    ensures caller.role == Employer ==>
              && (r.userName.Some? <==> users[q.owner].firstName != [])
              && (r.userName.Some? ==> r.userName.value == FullName(users[q.owner]))
              && (r.userEmail.Some? <==> users[q.owner].email != [])
              && (r.userEmail.Some? ==> r.userEmail.value == users[q.owner].email)
              && r.currentBudget == Some(users[q.owner].budget)
  {
    if caller.role == Employer then
      var u := users[q.owner];
      RequestRow(q,
        if u.firstName != [] then Some(FullName(u)) else None,
        if u.email != [] then Some(u.email) else None,
        Some(u.budget),
        q.approvedAmount)
    else RequestRow(q, None, None, None, q.approvedAmount)
  }

  function RowsOf(kept: seq<BudgetRequest>, users: map<UserId, User>, caller: Caller): (r: seq<RequestRow>)
    requires forall q :: q in kept ==> Listed(q, users, caller)
    ensures |r| == |kept|
    ensures forall i :: 0 <= i < |r| ==> r[i].request == kept[i] && r[i] == RowOf(kept[i], users, caller)
  {
    if kept == [] then []
    else [RowOf(kept[0], users, caller)] + RowsOf(kept[1..], users, caller)
  }

  /** The listed requests in one status group, newest first. */
  function GroupNewestFirst(reqs: seq<BudgetRequest>, users: map<UserId, User>, caller: Caller, pending: bool)
    : (kept: seq<BudgetRequest>)
    ensures forall q :: q in kept ==> q in reqs && Listed(q, users, caller) && (q.status == Pending <==> pending)
    ensures forall q :: q in reqs && Listed(q, users, caller) && (q.status == Pending <==> pending) ==> q in kept
    ensures Ascending(reqs, (q: BudgetRequest) => q.id) ==> Descending(kept, (q: BudgetRequest) => q.id)
  {
    var keep := (q: BudgetRequest) => Listed(q, users, caller) && (q.status == Pending <==> pending);
    KeepMembers(reqs, keep);
    if Ascending(reqs, (q: BudgetRequest) => q.id) then
      KeepOrder(reqs, keep, (q: BudgetRequest) => q.id);
      KeepNewestFirst(reqs, keep)
    else
      KeepNewestFirst(reqs, keep)
  }

  /** The requests an Employee sees: their own, newest first. */
  function OwnNewestFirst(reqs: seq<BudgetRequest>, users: map<UserId, User>, caller: Caller)
    : (kept: seq<BudgetRequest>)
    ensures forall q :: q in kept ==> q in reqs && Listed(q, users, caller)
    ensures forall q :: q in reqs && Listed(q, users, caller) ==> q in kept
    ensures Ascending(reqs, (q: BudgetRequest) => q.id) ==> Descending(kept, (q: BudgetRequest) => q.id)
  {
    var keep := (q: BudgetRequest) => Listed(q, users, caller);
    KeepMembers(reqs, keep);
    if Ascending(reqs, (q: BudgetRequest) => q.id) then
      KeepOrder(reqs, keep, (q: BudgetRequest) => q.id);
      KeepNewestFirst(reqs, keep)
    else
      KeepNewestFirst(reqs, keep)
  }

  /** Pending requests first, then the others, each group in its own
      order. */
  predicate PendingFirst(kept: seq<BudgetRequest>) {
    forall i, j :: 0 <= i < j < |kept| && kept[j].status == Pending ==> kept[i].status == Pending
  }

  /** Within each status group the ids descend. */
  predicate NewestFirstByGroup(kept: seq<BudgetRequest>) {
    forall i, j :: 0 <= i < j < |kept| && (kept[i].status == Pending <==> kept[j].status == Pending)
      ==> kept[i].id > kept[j].id
  }

  /** The pending group followed by the resolved group is ordered pending
      first, and newest first within each group. */
  lemma {:induction false} GroupsConcat(p: seq<BudgetRequest>, d: seq<BudgetRequest>)
    requires forall q :: q in p ==> q.status == Pending
    requires forall q :: q in d ==> q.status != Pending
    ensures PendingFirst(p + d)
    ensures Descending(p, (q: BudgetRequest) => q.id) && Descending(d, (q: BudgetRequest) => q.id)
            ==> NewestFirstByGroup(p + d)
  {
    var kept := p + d;
    assert forall i :: 0 <= i < |p| ==> p[i] in p;
    assert forall i :: 0 <= i < |d| ==> d[i] in d;
    assert forall i :: 0 <= i < |kept| ==> (kept[i].status == Pending <==> i < |p|);
    if Descending(p, (q: BudgetRequest) => q.id) && Descending(d, (q: BudgetRequest) => q.id) {
      forall i, j | 0 <= i < j < |kept| && (kept[i].status == Pending <==> kept[j].status == Pending)
        ensures kept[i].id > kept[j].id
      {
        if j < |p| {
          assert kept[i] == p[i] && kept[j] == p[j];
        } else {
          assert kept[i] == d[i - |p|] && kept[j] == d[j - |p|];
        }
      }
    }
  }

  /** The requests the list route returns, in its order. */
  function ListedInOrder(s: State, caller: Caller): (kept: seq<BudgetRequest>)
    ensures forall q :: q in kept ==> q in s.requests && Listed(q, s.users, caller)
    ensures forall q :: q in s.requests && Listed(q, s.users, caller) ==> q in kept
    ensures caller.role == Employer ==> PendingFirst(kept)
    ensures RequestIdsAscending(s.requests, s.nextRequestId) ==> NewestFirstByGroup(kept)
  {
    assert RequestIdsAscending(s.requests, s.nextRequestId) ==> Ascending(s.requests, (q: BudgetRequest) => q.id);
    if caller.role == Employer then
      var p := GroupNewestFirst(s.requests, s.users, caller, true);
      var d := GroupNewestFirst(s.requests, s.users, caller, false);
      GroupsConcat(p, d);
      p + d
    else
      var own := OwnNewestFirst(s.requests, s.users, caller);
      assert Descending(own, (q: BudgetRequest) => q.id) ==> NewestFirstByGroup(own);
      own
  }

  predicate HasRow(r: seq<RequestRow>, q: BudgetRequest) {
    exists i :: 0 <= i < |r| && r[i].request == q
  }

  /** Every request of the list has its row. */
  lemma RowsCover(kept: seq<BudgetRequest>, r: seq<RequestRow>)
    requires |r| == |kept| && forall i :: 0 <= i < |r| ==> r[i].request == kept[i]
    ensures forall q :: q in kept ==> HasRow(r, q)
  {
    forall q | q in kept ensures HasRow(r, q) {
      var i :| 0 <= i < |kept| && kept[i] == q;
      assert r[i].request == q;
    }
  }

  /** Rows listed in the order of their requests keep that order. */
  lemma RowsKeepOrder(kept: seq<BudgetRequest>, r: seq<RequestRow>)
    requires |r| == |kept| && forall i :: 0 <= i < |r| ==> r[i].request == kept[i]
    ensures PendingFirst(kept) ==>
              forall i, j :: 0 <= i < j < |r| && r[j].request.status == Pending ==> r[i].request.status == Pending
    ensures NewestFirstByGroup(kept) ==>
              forall i, j :: 0 <= i < j < |r| && (r[i].request.status == Pending <==> r[j].request.status == Pending)
                ==> r[i].request.id > r[j].request.id
  {
  }

  /** The list route: an Employer sees every request whose owner still
      exists, pending ones first and newest first within each group; an
      Employee sees their own, newest first. */
  function ListRequests(s: State, caller: Caller): (r: seq<RequestRow>)
    ensures forall i :: 0 <= i < |r| ==> r[i].request in s.requests && Listed(r[i].request, s.users, caller)
    ensures forall i :: 0 <= i < |r| ==> r[i] == RowOf(r[i].request, s.users, caller)
    ensures forall q :: q in s.requests && Listed(q, s.users, caller) ==> HasRow(r, q)
    ensures caller.role == Employer ==>
              forall i, j :: 0 <= i < j < |r| && r[j].request.status == Pending ==> r[i].request.status == Pending
    ensures RequestIdsAscending(s.requests, s.nextRequestId) ==>
              forall i, j :: 0 <= i < j < |r| && (r[i].request.status == Pending <==> r[j].request.status == Pending)
                ==> r[i].request.id > r[j].request.id
  {
    var kept := ListedInOrder(s, caller);
    var r := RowsOf(kept, s.users, caller);
    RowsCover(kept, r);
    RowsKeepOrder(kept, r);
    r
  }

  // ---------------------------------------------------------------------
  // Properties of the lifecycle

  /** Approved and rejected are terminal: once a request has been resolved,
      every further review of it fails with "already processed", so an
      approval credits the budget once only. */
  lemma ResolveIsTerminal(s: State, caller: Caller, id: nat, status: string, amount: Option<real>,
                          caller2: Caller, status2: string, amount2: Option<real>)
    requires Resolve(s, caller, id, status, amount).Ok?
    requires caller2.role == Employer && ParseDecision(status2).Some?
    ensures Resolve(Resolve(s, caller, id, status, amount).value.0, caller2, id, status2, amount2)
            == Err(AlreadyProcessed)
  {
    var s' := Resolve(s, caller, id, status, amount).value.0;
    var i := Target(s, id).value;
    assert s'.requests[i].id == id;
    assert forall j :: 0 <= j < i ==> s'.requests[j] == s.requests[j];
    assert FindRequest(s'.requests, id) == Some(i);
  }

  /** An approval credits exactly the approved amount when one is given
      (the 500-requested, 300-approved scenario credits 300). */
  lemma ApproveCreditsGivenAmount(s: State, caller: Caller, id: nat, amount: real)
    requires amount != 0.0
    requires Resolve(s, caller, id, "approved", Some(amount)).Ok?
    ensures var s' := Resolve(s, caller, id, "approved", Some(amount)).value.0;
            var owner := s.requests[Target(s, id).value].owner;
            && s'.users[owner].budget == s.users[owner].budget + amount
            && s'.requests[Target(s, id).value].approvedAmount == Some(amount)
  {
  }

  /** An approved amount of zero, like an absent one, falls back to the
      requested amount. */
  lemma ApproveZeroCreditsRequested(s: State, caller: Caller, id: nat)
    requires Resolve(s, caller, id, "approved", Some(0.0)).Ok?
    ensures var s' := Resolve(s, caller, id, "approved", Some(0.0)).value.0;
            var q := s.requests[Target(s, id).value];
            s'.users[q.owner].budget == s.users[q.owner].budget + q.requestedAmount
  {
  }

  /** Nothing bounds the approved amount from below: approving with a
      negative amount lowers the owner's budget. */
  lemma NegativeApprovalLowersBudget(s: State, caller: Caller, id: nat, amount: real)
    requires amount < 0.0
    requires Resolve(s, caller, id, "approved", Some(amount)).Ok?
    ensures var s' := Resolve(s, caller, id, "approved", Some(amount)).value.0;
            var owner := s.requests[Target(s, id).value].owner;
            s'.users[owner].budget < s.users[owner].budget
  {
  }

  /** Creating a request adds one to the pending summary and its amount to
      the pending total. */
  lemma CreateMovesPendingSummary(s: State, caller: Caller, amount: Option<real>, reason: string, viewer: Caller)
    requires viewer.role == Employer
    requires Create(s, caller, amount, reason).Ok?
    ensures var before := GetPendingSummary(s, viewer).value;
            var after := GetPendingSummary(Create(s, caller, amount, reason).value.0, viewer).value;
            && after.count == before.count + 1
            && after.totalAmount == before.totalAmount + amount.value
  {
    PendingAppend(s.requests, Create(s, caller, amount, reason).value.1);
  }

  /** Resolving a request, either way, takes one off the pending summary
      and its requested amount off the pending total. */
  lemma ResolveMovesPendingSummary(s: State, caller: Caller, id: nat, status: string, amount: Option<real>)
    requires Resolve(s, caller, id, status, amount).Ok?
    ensures var before := GetPendingSummary(s, caller).value;
            var after := GetPendingSummary(Resolve(s, caller, id, status, amount).value.0, caller).value;
            var q := s.requests[Target(s, id).value];
            && after.count + 1 == before.count
            && after.totalAmount + q.requestedAmount == before.totalAmount
  {
    var i := Target(s, id).value;
    var q := s.requests[i];
    var d := ParseDecision(status).value;
    RequestUpdate(s.requests, i, Reviewed(q, d, FinalAmount(amount, q.requestedAmount), caller.id));
  }
}
