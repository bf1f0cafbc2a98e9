/** The budget ledger's state: the four tables the route handlers read and
    write (users, expenses, budget_requests, activity_log), the caller
    identity the auth middleware attaches, the errors the handlers respond
    with, and the aggregates the read-only routes compute over the tables. */
module Ledger {
  import opened Wrappers
  import opened Text

  type UserId = nat

  /** The closed role tag carried in the token and in the users table. */
  datatype Role = Employer | Employee

  /** A row of the users table (the password hash is not modelled). */
  datatype User = User(
    firstName: string,
    lastName: string,
    email: string,
    role: Role,
    title: string,
    department: string,
    phone: Option<string>,
    budget: real,
    spent: real)

  /** A row of the expenses table. */
  datatype Expense = Expense(
    id: nat,
    owner: UserId,
    description: string,
    amount: real,
    category: string,
    date: string,
    notes: Option<string>)

  datatype Status = Pending | Approved | Rejected

  /** A row of the budget_requests table (timestamps are not modelled). */
  datatype BudgetRequest = BudgetRequest(
    id: nat,
    owner: UserId,
    requestedAmount: real,
    reason: Option<string>,
    status: Status,
    approvedAmount: Option<real>,
    reviewedBy: Option<UserId>)

  /** The `action_type` tags the handlers write. */
  datatype ActionType = EmployeeAdded | BudgetRequested | BudgetApproved | BudgetRejected

  /** A row of the activity_log table. */
  datatype LogEntry = LogEntry(
    actor: UserId,
    actionType: ActionType,
    action: string,
    details: string,
    amount: real)

  /** The whole database. Users are keyed by their auto-increment id;
      expenses and requests are kept in insertion order, and the next
      auto-increment value of each table is explicit. */
  datatype State = State(
    users: map<UserId, User>,
    expenses: seq<Expense>,
    requests: seq<BudgetRequest>,
    log: seq<LogEntry>,
    nextUserId: UserId,
    nextExpenseId: nat,
    nextRequestId: nat)

  /** The decoded token payload the `auth` middleware puts on `req.user`. */
  datatype Caller = Caller(id: UserId, role: Role, name: string)

  /** The 4xx responses of the modelled handlers. */
  datatype Error =
    | RequiredFieldsMissing                         // expenses: 400
    | UserNotFound                                  // expenses: 404
    | InsufficientBalance(balance: real, requested: real)  // expenses: 400
    | InvalidRequestedAmount                        // budget requests: 400
    | PendingRequestExists                          // budget requests: 400
    | InvalidStatus                                 // budget requests: 400
    | RequestNotFound                               // budget requests: 404
    | AlreadyProcessed                              // budget requests: 400
    | FieldsMissing                                 // employees: 400
    | EmailExists                                   // employees: 400
    | EmployeeNotFound                              // employees: 404
    | Forbidden                                     // employerOnly: 403

  /** JavaScript truthiness of a numeric body field: present and non-zero. */
  predicate Truthy(x: Option<real>) {
    x.Some? && x.value != 0.0
  }

  /** `${first_name} ${last_name}` */
  function FullName(u: User): string {
    u.firstName + " " + u.lastName
  }

  /** An empty optional text field is stored as NULL (`notes || null`). */
  function NullIfEmpty(s: string): (r: Option<string>)
    ensures r.None? <==> s == []
    ensures r.Some? ==> r.value == s
  {
    if s == [] then None else Some(s)
  }

  // ---------------------------------------------------------------------
  // Invariants of the tables

  /** The review columns agree with the status: a pending request is
      unreviewed, an approved one carries its amount, a rejected one has a
      NULL amount. */
  predicate ReviewConsistent(r: BudgetRequest) {
    match r.status
    case Pending => r.approvedAmount.None? && r.reviewedBy.None?
    case Approved => r.approvedAmount.Some? && r.reviewedBy.Some?
    case Rejected => r.approvedAmount.None? && r.reviewedBy.Some?
  }

  predicate HasPending(reqs: seq<BudgetRequest>, u: UserId) {
    exists i :: 0 <= i < |reqs| && reqs[i].owner == u && reqs[i].status == Pending
  }

  /** No user owns two pending requests. */
  predicate AtMostOnePending(reqs: seq<BudgetRequest>) {
    forall i, j ::
      (0 <= i < |reqs| && 0 <= j < |reqs| && reqs[i].owner == reqs[j].owner
       && reqs[i].status == Pending && reqs[j].status == Pending) ==> i == j
  }

  /** Stored e-mails are lower-case and pairwise distinct. */
  predicate EmailsUnique(users: map<UserId, User>) {
    && (forall k :: k in users ==> IsLowerCase(users[k].email))
    && (forall a, b :: a in users && b in users && users[a].email == users[b].email ==> a == b)
  }

  predicate ExpenseIdsAscending(exps: seq<Expense>, next: nat) {
    && (forall i :: 0 <= i < |exps| ==> exps[i].id < next)
    && (forall i, j :: 0 <= i < j < |exps| ==> exps[i].id < exps[j].id)
  }

  predicate RequestIdsAscending(reqs: seq<BudgetRequest>, next: nat) {
    && (forall i :: 0 <= i < |reqs| ==> reqs[i].id < next)
    && (forall i, j :: 0 <= i < j < |reqs| ==> reqs[i].id < reqs[j].id)
  }

  /** The invariant every handler preserves (under serialised execution). */
  predicate Wf(s: State) {
    && (forall k :: k in s.users ==> k < s.nextUserId)
    && EmailsUnique(s.users)
    && ExpenseIdsAscending(s.expenses, s.nextExpenseId)
    && RequestIdsAscending(s.requests, s.nextRequestId)
    && AtMostOnePending(s.requests)
    && (forall i :: 0 <= i < |s.requests| ==> ReviewConsistent(s.requests[i]))
  }

  // ---------------------------------------------------------------------
  // Lookups

  /** The row `WHERE id = ?` selects: the first request with that id. */
  function FindRequest(reqs: seq<BudgetRequest>, id: nat): (r: Option<nat>)
    ensures r.Some? ==> r.value < |reqs| && reqs[r.value].id == id
    ensures r.Some? ==> forall j :: 0 <= j < r.value ==> reqs[j].id != id
    ensures r.None? <==> forall j :: 0 <= j < |reqs| ==> reqs[j].id != id
  {
    if reqs == [] then None
    else if reqs[0].id == id then Some(0)
    else match FindRequest(reqs[1..], id)
      case None => None
      case Some(k) => Some(k + 1)
  }

  /** The first pending request of `u`, as `pendingRequest[0]` reads it. */
  function FirstPending(reqs: seq<BudgetRequest>, u: UserId): (r: Option<nat>)
    ensures r.Some? ==> r.value < |reqs| && reqs[r.value].owner == u && reqs[r.value].status == Pending
    ensures r.None? <==> !HasPending(reqs, u)
  {
    if reqs == [] then None
    else if reqs[0].owner == u && reqs[0].status == Pending then Some(0)
    else match FirstPending(reqs[1..], u)
      case None => (assert forall i :: 1 <= i < |reqs| ==> reqs[i] == reqs[1..][i - 1]; None)
      case Some(k) => Some(k + 1)
  }

  /** The e-mails stored in the users table. */
  function StoredEmails(users: map<UserId, User>): set<string> {
    set k | k in users :: users[k].email
  }

  /** Whether some stored user already has exactly this e-mail. */
  function EmailTaken(users: map<UserId, User>, email: string): (taken: bool)
    ensures taken <==> exists k :: k in users && users[k].email == email
  {
    email in StoredEmails(users)
  }

  // ---------------------------------------------------------------------
  // Aggregates over the requests and expenses tables (SQL COUNT / SUM with
  // COALESCE(…, 0)), defined over the rows in insertion order.

  /** `COUNT(*) … WHERE status = 'pending'` */
  function PendingCount(reqs: seq<BudgetRequest>): (n: nat)
    ensures n <= |reqs|
    ensures n == 0 <==> forall i :: 0 <= i < |reqs| ==> reqs[i].status != Pending
  {
    if reqs == [] then 0
    else
      var init := reqs[..|reqs| - 1];
      assert forall i :: 0 <= i < |init| ==> init[i] == reqs[i];
      PendingCount(init) + (if reqs[|reqs| - 1].status == Pending then 1 else 0)
  }

  /** `COALESCE(SUM(requested_amount), 0) … WHERE status = 'pending'` */
  function PendingTotal(reqs: seq<BudgetRequest>): real {
    if reqs == [] then 0.0
    else PendingTotal(reqs[..|reqs| - 1])
         + (if reqs[|reqs| - 1].status == Pending then reqs[|reqs| - 1].requestedAmount else 0.0)
  }

  /** What an approved request of `u` has added to `u`'s budget. */
  function ApprovedShare(r: BudgetRequest, u: UserId): real {
    if r.owner == u && r.status == Approved then r.approvedAmount.GetOr(0.0) else 0.0
  }

  /** Total amount approved on `u`'s requests. */
  function ApprovedTotal(reqs: seq<BudgetRequest>, u: UserId): real {
    if reqs == [] then 0.0
    else ApprovedTotal(reqs[..|reqs| - 1], u) + ApprovedShare(reqs[|reqs| - 1], u)
  }

  /** `COUNT(*) FROM expenses WHERE user_id = ?` */
  function ExpenseCount(exps: seq<Expense>, u: UserId): (n: nat)
    ensures n <= |exps|
  {
    if exps == [] then 0
    else ExpenseCount(exps[..|exps| - 1], u) + (if exps[|exps| - 1].owner == u then 1 else 0)
  }

  /** Total amount of `u`'s expenses. */
  function ExpenseTotal(exps: seq<Expense>, u: UserId): real {
    if exps == [] then 0.0
    else ExpenseTotal(exps[..|exps| - 1], u) + (if exps[|exps| - 1].owner == u then exps[|exps| - 1].amount else 0.0)
  }

  // ---------------------------------------------------------------------
  // Aggregates over the Employee rows of the users table, taken over the
  // ids below `n` (with `n` = nextUserId this is every user).

  datatype Column = BudgetColumn | SpentColumn

  function ColumnOf(u: User, c: Column): real {
    match c
    case BudgetColumn => u.budget
    case SpentColumn => u.spent
  }

  /** `COUNT(*) FROM users WHERE role = "Employee"` */
  function EmployeeCount(users: map<UserId, User>, n: nat): nat {
    if n == 0 then 0
    else EmployeeCount(users, n - 1)
         + (if n - 1 in users && users[n - 1].role == Employee then 1 else 0)
  }

  /** `COALESCE(SUM(column), 0) FROM users WHERE role = "Employee"` */
  function EmployeeSum(users: map<UserId, User>, n: nat, c: Column): real {
    if n == 0 then 0.0
    else EmployeeSum(users, n - 1, c)
         + (if n - 1 in users && users[n - 1].role == Employee then ColumnOf(users[n - 1], c) else 0.0)
  }

  /** The positions of the pending requests. */
  function PendingPositions(reqs: seq<BudgetRequest>): set<int> {
    set i | 0 <= i < |reqs| && reqs[i].status == Pending
  }

  /** The ids of the users with the Employee role among those below `n`. */
  function EmployeeIdsBelow(users: map<UserId, User>, n: nat): set<UserId> {
    set k | k in users && k < n && users[k].role == Employee
  }

  /** The ids of all users with the Employee role. */
  function EmployeeIds(users: map<UserId, User>): set<UserId> {
    set k | k in users && users[k].role == Employee
  }

  /** The pending count counts exactly the pending rows. */
  lemma {:induction false} PendingCountIsCardinality(reqs: seq<BudgetRequest>)
    ensures PendingCount(reqs) == |PendingPositions(reqs)|
  {
    if reqs != [] {
      var n := |reqs|;
      var init := reqs[..n - 1];
      PendingCountIsCardinality(init);
      assert forall i :: 0 <= i < |init| ==> init[i] == reqs[i];
      if reqs[n - 1].status == Pending {
        assert PendingPositions(reqs) == PendingPositions(init) + {n - 1};
      } else {
        assert PendingPositions(reqs) == PendingPositions(init);
      }
    }
  }

  /** The employee count below `n` counts exactly the Employee-role users
      with ids below `n`. */
  lemma {:induction false} EmployeeCountIsCardinality(users: map<UserId, User>, n: nat)
    ensures EmployeeCount(users, n) == |EmployeeIdsBelow(users, n)|
  {
    if n > 0 {
      EmployeeCountIsCardinality(users, n - 1);
      if n - 1 in users && users[n - 1].role == Employee {
        assert EmployeeIdsBelow(users, n) == EmployeeIdsBelow(users, n - 1) + {n - 1};
      } else {
        assert EmployeeIdsBelow(users, n) == EmployeeIdsBelow(users, n - 1);
      }
    }
  }

  /** In a well-formed state every user id is below the next id, so the
      count up to it is the number of all Employee-role users. */
  lemma CountsAllEmployees(s: State)
    requires Wf(s)
    ensures EmployeeCount(s.users, s.nextUserId) == |EmployeeIds(s.users)|
  {
    EmployeeCountIsCardinality(s.users, s.nextUserId);
    assert EmployeeIdsBelow(s.users, s.nextUserId) == EmployeeIds(s.users);
  }

  // ---------------------------------------------------------------------
  // How the aggregates move when one row changes

  lemma {:induction false} PendingAppend(reqs: seq<BudgetRequest>, x: BudgetRequest)
    ensures PendingCount(reqs + [x]) == PendingCount(reqs) + (if x.status == Pending then 1 else 0)
    ensures PendingTotal(reqs + [x]) == PendingTotal(reqs) + (if x.status == Pending then x.requestedAmount else 0.0)
    ensures forall u :: ApprovedTotal(reqs + [x], u) == ApprovedTotal(reqs, u) + ApprovedShare(x, u)
  {
    assert (reqs + [x])[..|reqs|] == reqs;
  }

  /** Replacing one request row shifts each sum by the difference of that
      row's contributions. */
  lemma {:induction false} RequestUpdate(reqs: seq<BudgetRequest>, i: nat, x: BudgetRequest)
    requires i < |reqs|
    ensures PendingCount(reqs[i := x]) + (if reqs[i].status == Pending then 1 else 0)
            == PendingCount(reqs) + (if x.status == Pending then 1 else 0)
    ensures PendingTotal(reqs[i := x]) + (if reqs[i].status == Pending then reqs[i].requestedAmount else 0.0)
            == PendingTotal(reqs) + (if x.status == Pending then x.requestedAmount else 0.0)
    ensures forall u :: ApprovedTotal(reqs[i := x], u) + ApprovedShare(reqs[i], u)
                        == ApprovedTotal(reqs, u) + ApprovedShare(x, u)
    decreases |reqs|
  {
    var last := |reqs| - 1;
    var t := reqs[i := x];
    if i == last {
      assert t[..last] == reqs[..last];
    } else {
      assert t[..last] == reqs[..last][i := x];
      RequestUpdate(reqs[..last], i, x);
    }
  }

  /** Reviewing one pending request and re-pricing budgets keeps the
      invariant: ids, owners and e-mails stay, and a reviewed request is no
      longer pending. */
  lemma ReviewKeepsWf(s: State, i: nat, x: BudgetRequest, users': map<UserId, User>, log': seq<LogEntry>)
    requires Wf(s) && i < |s.requests|
    requires x.id == s.requests[i].id && x.owner == s.requests[i].owner
    requires x.status != Pending && ReviewConsistent(x)
    requires users'.Keys == s.users.Keys
    requires forall k :: k in users' ==> users'[k].email == s.users[k].email
    ensures Wf(s.(requests := s.requests[i := x], users := users', log := log'))
  {
    var reqs' := s.requests[i := x];
    assert forall j :: 0 <= j < |reqs'| && j != i ==> reqs'[j] == s.requests[j];
  }

  lemma {:induction false} ExpenseAppend(exps: seq<Expense>, x: Expense)
    ensures forall u :: ExpenseCount(exps + [x], u) == ExpenseCount(exps, u) + (if x.owner == u then 1 else 0)
    ensures forall u :: ExpenseTotal(exps + [x], u) == ExpenseTotal(exps, u) + (if x.owner == u then x.amount else 0.0)
  {
    assert (exps + [x])[..|exps|] == exps;
  }

  /** Changing one column of an existing user, role kept, shifts the
      Employee sums by the change if that user is an Employee below `n`. */
  lemma {:induction false} EmployeeSumUpdate(users: map<UserId, User>, k: UserId, v: User, n: nat, c: Column)
    requires k in users && v.role == users[k].role
    ensures EmployeeCount(users[k := v], n) == EmployeeCount(users, n)
    ensures EmployeeSum(users[k := v], n, c)
            == EmployeeSum(users, n, c)
               + (if k < n && v.role == Employee then ColumnOf(v, c) - ColumnOf(users[k], c) else 0.0)
  {
    if n > 0 {
      EmployeeSumUpdate(users, k, v, n - 1, c);
    }
  }

  /** Sums over ids below `n` ignore every user at or above `n`. */
  lemma {:induction false} EmployeeSumAbove(users: map<UserId, User>, users': map<UserId, User>, n: nat, c: Column)
    requires forall k :: k < n ==> (k in users <==> k in users')
    requires forall k :: k < n && k in users ==> users[k] == users'[k]
    ensures EmployeeCount(users', n) == EmployeeCount(users, n)
    ensures EmployeeSum(users', n, c) == EmployeeSum(users, n, c)
  {
    if n > 0 {
      EmployeeSumAbove(users, users', n - 1, c);
    }
  }

  /** Removing one user takes that user's contribution out of the sums. */
  lemma {:induction false} EmployeeSumRemove(users: map<UserId, User>, k: UserId, n: nat, c: Column)
    requires k in users
    ensures EmployeeCount(users - {k}, n) + (if k < n && users[k].role == Employee then 1 else 0)
            == EmployeeCount(users, n)
    ensures EmployeeSum(users - {k}, n, c) + (if k < n && users[k].role == Employee then ColumnOf(users[k], c) else 0.0)
            == EmployeeSum(users, n, c)
  {
    if n > 0 {
      EmployeeSumRemove(users, k, n - 1, c);
    }
  }
}
