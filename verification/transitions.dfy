/** The handlers that write, taken one at a time as steps of one state
    machine. A request that fails leaves every table as it was. Reading
    routes do not change the state and are not steps. */
module Transitions {
  import opened Wrappers
  import opened Ledger
  import Expenses
  import BudgetRequests
  import Employees

  datatype Op =
    | PostExpense(caller: Caller, expense: Expenses.ExpenseInput)
    | CreateRequest(caller: Caller, amount: Option<real>, reason: string)
    | ResolveRequest(caller: Caller, id: nat, status: string, approvedAmount: Option<real>)
    | AddEmployee(caller: Caller, employee: Employees.EmployeeInput)
    | DeleteEmployee(caller: Caller, userId: UserId)

  /** The handlers that write an activity-log entry when they succeed;
      posting an expense and deleting an employee write none. */
  predicate Logs(op: Op) {
    op.CreateRequest? || op.ResolveRequest? || op.AddEmployee?
  }

  /** Rows of the requests table are never removed; a row keeps its id,
      owner and requested amount, and a resolved row never changes again. */
  predicate RequestsEvolve(reqs: seq<BudgetRequest>, reqs': seq<BudgetRequest>) {
    && |reqs| <= |reqs'|
    && (forall i :: 0 <= i < |reqs| ==>
          && reqs'[i].id == reqs[i].id && reqs'[i].owner == reqs[i].owner
          && reqs'[i].requestedAmount == reqs[i].requestedAmount)
    && (forall i :: 0 <= i < |reqs| && reqs[i].status != Pending ==> reqs'[i] == reqs[i])
  }

  /** The per-user accounting identity: a user's budget moves only by
      approved amounts and their `spent` only by posted expenses. */
  predicate Accounted(s: State, s': State, u: UserId)
    requires u in s.users && u in s'.users
  {
    && s'.users[u].budget - ApprovedTotal(s'.requests, u) == s.users[u].budget - ApprovedTotal(s.requests, u)
    && s'.users[u].spent - ExpenseTotal(s'.expenses, u) == s.users[u].spent - ExpenseTotal(s.expenses, u)
  }

  /** What a step may change, whatever it is. */
  predicate Evolves(s: State, s': State) {
    && s.log <= s'.log
    && RequestsEvolve(s.requests, s'.requests)
    && s.expenses <= s'.expenses
    && s.nextUserId <= s'.nextUserId
    && (forall k :: k in s'.users && k !in s.users ==> s.nextUserId <= k)
  }

  /** Everything a successful write keeps: the invariant, the append-only
      tables, the per-user accounting, and one log entry exactly when the
      handler logs. */
  predicate GoodStep(s: State, s': State, logs: bool) {
    && (Wf(s) ==> Wf(s'))
    && Evolves(s, s')
    && |s'.log| == |s.log| + (if logs then 1 else 0)
    && (Wf(s) ==> forall u :: u in s.users && u in s'.users ==> Accounted(s, s', u))
  }

  /** The outcome of one write: the new state, or the handler's error. */
  function Apply(s: State, op: Op): (r: Result<State, Error>)
    ensures r.Ok? ==> GoodStep(s, r.value, Logs(op))
  {
    match op
    case PostExpense(caller, input) =>
      var p := Expenses.Post(s, caller, input);
      if p.Err? then Err(p.error)
      else
        PostIsGood(s, caller, input);
        Ok(p.value.0)
    case CreateRequest(caller, amount, reason) =>
      var p := BudgetRequests.Create(s, caller, amount, reason);
      if p.Err? then Err(p.error)
      else
        CreateIsGood(s, caller, amount, reason);
        Ok(p.value.0)
    case ResolveRequest(caller, id, status, approvedAmount) =>
      var p := BudgetRequests.Resolve(s, caller, id, status, approvedAmount);
      if p.Err? then Err(p.error)
      else
        ResolveIsGood(s, caller, id, status, approvedAmount);
        Ok(p.value.0)
    case AddEmployee(caller, input) =>
      var p := Employees.Add(s, caller, input);
      if p.Err? then Err(p.error)
      else
        AddIsGood(s, caller, input);
        Ok(p.value.0)
    case DeleteEmployee(caller, id) =>
      var p := Employees.Delete(s, caller, id);
      if p.Ok? then DeleteIsGood(s, caller, id); p else p
  }

  lemma PostIsGood(s: State, caller: Caller, input: Expenses.ExpenseInput)
    requires Expenses.Post(s, caller, input).Ok?
    ensures GoodStep(s, Expenses.Post(s, caller, input).value.0, false)
  {
    ExpenseAppend(s.expenses, Expenses.Post(s, caller, input).value.1);
  }

  lemma CreateIsGood(s: State, caller: Caller, amount: Option<real>, reason: string)
    requires BudgetRequests.Create(s, caller, amount, reason).Ok?
    ensures GoodStep(s, BudgetRequests.Create(s, caller, amount, reason).value.0, true)
  {
    PendingAppend(s.requests, BudgetRequests.Create(s, caller, amount, reason).value.1);
  }

  lemma ResolveIsGood(s: State, caller: Caller, id: nat, status: string, approvedAmount: Option<real>)
    requires BudgetRequests.Resolve(s, caller, id, status, approvedAmount).Ok?
    ensures GoodStep(s, BudgetRequests.Resolve(s, caller, id, status, approvedAmount).value.0, true)
  {
    var s' := BudgetRequests.Resolve(s, caller, id, status, approvedAmount).value.0;
    ResolveEvolves(s, caller, id, status, approvedAmount);
    if Wf(s) {
      forall u | u in s.users && u in s'.users
        ensures Accounted(s, s', u)
      {
        ResolveAccounted(s, caller, id, status, approvedAmount, u);
      }
    }
  }

  lemma ResolveEvolves(s: State, caller: Caller, id: nat, status: string, approvedAmount: Option<real>)
    requires BudgetRequests.Resolve(s, caller, id, status, approvedAmount).Ok?
    ensures Evolves(s, BudgetRequests.Resolve(s, caller, id, status, approvedAmount).value.0)
  {
  }

  /** A review moves the owner's budget by the amount it approves, which is
      also what it adds to their approved total. */
  lemma ResolveAccounted(s: State, caller: Caller, id: nat, status: string, approvedAmount: Option<real>, u: UserId)
    requires BudgetRequests.Resolve(s, caller, id, status, approvedAmount).Ok?
    requires u in s.users
    ensures var s' := BudgetRequests.Resolve(s, caller, id, status, approvedAmount).value.0;
            u in s'.users && Accounted(s, s', u)
  {
    var s' := BudgetRequests.Resolve(s, caller, id, status, approvedAmount).value.0;
    var i := BudgetRequests.Target(s, id).value;
    var q := s.requests[i];
    var d := BudgetRequests.ParseDecision(status).value;
    var x := BudgetRequests.Reviewed(q, d, BudgetRequests.FinalAmount(approvedAmount, q.requestedAmount), caller.id);
    RequestUpdate(s.requests, i, x);
    assert s'.requests == s.requests[i := x];
  }

  lemma AddIsGood(s: State, caller: Caller, input: Employees.EmployeeInput)
    requires Employees.Add(s, caller, input).Ok?
    ensures GoodStep(s, Employees.Add(s, caller, input).value.0, true)
  {
  }

  lemma DeleteIsGood(s: State, caller: Caller, id: UserId)
    requires Employees.Delete(s, caller, id).Ok?
    ensures GoodStep(s, Employees.Delete(s, caller, id).value, false)
  {
  }

  /** One write: the new state on success, the old one on failure. */
  function Step(s: State, op: Op): (s': State)
    ensures GoodStep(s, s', Logs(op) && Apply(s, op).Ok?)
  {
    match Apply(s, op)
    case Ok(s') => s'
    case Err(_) => s
  }

  /** A sequence of writes, applied one after another. */
  function Run(s: State, ops: seq<Op>): (s': State)
    ensures Wf(s) ==> Wf(s')
    ensures Evolves(s, s')
    ensures |s'.log| <= |s.log| + |ops|
    decreases |ops|
  {
    if ops == [] then s
    else
      var t := Step(s, ops[0]);
      var s' := Run(t, ops[1..]);
      assert s.log <= t.log <= s'.log;
      assert s.expenses <= t.expenses <= s'.expenses;
      s'
  }

  /** The accounting identity holds across any run, for every user present
      at both ends: ids are never reused, so such a user was present all
      along. */
  lemma {:induction false} RunAccounted(s: State, ops: seq<Op>, u: UserId)
    requires Wf(s) && u in s.users
    ensures u in Run(s, ops).users ==> Accounted(s, Run(s, ops), u)
    decreases |ops|
  {
    if ops != [] && u in Run(s, ops).users {
      var t := Step(s, ops[0]);
      assert u < s.nextUserId;
      assert u in t.users;
      RunAccounted(t, ops[1..], u);
    }
  }

  /** A failed write changes nothing, not even the activity log. */
  lemma FailedStepChangesNothing(s: State, op: Op)
    requires Apply(s, op).Err?
    ensures Step(s, op) == s
  {
  }

  /** A logging write that succeeds appends exactly one entry and keeps
      every earlier one. */
  lemma LoggedStepAppendsOne(s: State, op: Op)
    requires Logs(op) && Apply(s, op).Ok?
    ensures var s' := Step(s, op);
            |s'.log| == |s.log| + 1 && s'.log[..|s.log|] == s.log
  {
  }
}
