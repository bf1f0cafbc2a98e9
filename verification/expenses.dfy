/** The expense routes: posting an expense with instant deduction from the
    balance, the balance and stats aggregates, and the role-scoped list. */
module Expenses {
  import opened Wrappers
  import opened Ledger
  import opened Listing

  /** The JSON body of a posted expense. An absent text field reads as "",
      an absent or null amount as None. */
  datatype ExpenseInput = ExpenseInput(
    description: string,
    amount: Option<real>,
    category: string,
    date: string,
    notes: string)

  /** The required-field guard lets the body through: every required text
      field is non-empty and the amount is truthy. Its sign is not checked. */
  predicate FieldsPresent(input: ExpenseInput) {
    input.description != [] && Truthy(input.amount) && input.category != [] && input.date != []
  }

  /** `budget - spent` */
  function Available(u: User): real {
    u.budget - u.spent
  }

  /** Post an expense for the caller: validate, check the amount against the
      balance, then append the expense and add the amount to `spent`. */
  function Post(s: State, caller: Caller, input: ExpenseInput): (r: Result<(State, Expense), Error>)
    ensures !FieldsPresent(input) ==> r == Err(RequiredFieldsMissing)
    ensures FieldsPresent(input) && caller.id !in s.users ==> r == Err(UserNotFound)
    ensures FieldsPresent(input) && caller.id in s.users ==>
              (r.Err? <==> input.amount.value > Available(s.users[caller.id]))
    ensures r.Err? && r.error.InsufficientBalance? ==>
              && caller.id in s.users
              && r.error == InsufficientBalance(Available(s.users[caller.id]), input.amount.value)
    ensures r.Ok? ==>
              var s' := r.value.0;
              var e := r.value.1;
              && caller.id in s.users && caller.id in s'.users
              && e.owner == caller.id && e.amount == input.amount.value
              && e.description == input.description && e.category == input.category
              && e.date == input.date && e.notes == NullIfEmpty(input.notes)
              && s'.expenses == s.expenses + [e]
              && s'.users.Keys == s.users.Keys
              && s'.users[caller.id].spent == s.users[caller.id].spent + e.amount
              && s'.users[caller.id] == s.users[caller.id].(spent := s'.users[caller.id].spent)
              && (forall k :: k in s.users && k != caller.id ==> s'.users[k] == s.users[k])
              && s'.requests == s.requests && s'.log == s.log
    // whatever the sign of the amount, a successful posting never overdraws
    ensures r.Ok? ==> r.value.0.users[caller.id].spent <= r.value.0.users[caller.id].budget
    ensures r.Ok? && Wf(s) ==> Wf(r.value.0)
  {
    if !FieldsPresent(input) then Err(RequiredFieldsMissing)
    else if caller.id !in s.users then Err(UserNotFound)
    else
      var u := s.users[caller.id];
      var balance := u.budget - u.spent;
      var amount := input.amount.value;
      if amount > balance then Err(InsufficientBalance(balance, amount))
      else
        var e := Expense(s.nextExpenseId, caller.id, input.description, amount,
                         input.category, input.date, NullIfEmpty(input.notes));
        var s' := s.(expenses := s.expenses + [e],
                     users := s.users[caller.id := u.(spent := u.spent + amount)],
                     nextExpenseId := s.nextExpenseId + 1);
        Ok((s', e))
  }

  /** The figures of the balance route. */
  datatype BalanceView = BalanceView(budget: real, spent: real, balance: real)

  /** The caller's budget, spent and balance, or not found. */
  function GetBalance(s: State, caller: Caller): (r: Result<BalanceView, Error>)
    ensures r.Err? <==> caller.id !in s.users
    ensures r.Err? ==> r.error == UserNotFound
    ensures r.Ok? ==> r.value.balance == r.value.budget - r.value.spent
    ensures r.Ok? ==> r.value.budget == s.users[caller.id].budget && r.value.spent == s.users[caller.id].spent
  {
    if caller.id !in s.users then Err(UserNotFound)
    else
      var u := s.users[caller.id];
      Ok(BalanceView(u.budget, u.spent, u.budget - u.spent))
  }

  /** The dashboard figures, shaped by the caller's role. */
  datatype Stats =
    | EmployerStats(totalEmployees: nat, totalBudget: real, totalSpent: real, pendingApproval: real)
    | EmployeeStats(totalBudget: real, spent: real, balance: real, pendingRequest: real, totalExpenses: nat)

  /** The stats route. An Employer sees the Employee-role totals and the
      pending total; an Employee sees their own figures, with zeros when
      their row is gone. */
  function GetStats(s: State, caller: Caller): (r: Stats)
    ensures r.EmployerStats? <==> caller.role == Employer
    ensures r.EmployerStats? ==> r.pendingApproval == PendingTotal(s.requests)
    ensures r.EmployerStats? ==>
              && r.totalEmployees == EmployeeCount(s.users, s.nextUserId)
              && r.totalBudget == EmployeeSum(s.users, s.nextUserId, BudgetColumn)
              && r.totalSpent == EmployeeSum(s.users, s.nextUserId, SpentColumn)
    ensures r.EmployerStats? && Wf(s) ==> r.totalEmployees == |EmployeeIds(s.users)|
    ensures r.EmployeeStats? ==> r.balance == r.totalBudget - r.spent
    ensures r.EmployeeStats? && caller.id !in s.users ==> r.totalBudget == 0.0 && r.spent == 0.0
    ensures r.EmployeeStats? && caller.id in s.users ==>
              r.totalBudget == s.users[caller.id].budget && r.spent == s.users[caller.id].spent
    ensures r.EmployeeStats? && !HasPending(s.requests, caller.id) ==> r.pendingRequest == 0.0
    ensures r.EmployeeStats? && AtMostOnePending(s.requests) ==>
              forall i :: (0 <= i < |s.requests| && s.requests[i].owner == caller.id
                           && s.requests[i].status == Pending) ==> r.pendingRequest == s.requests[i].requestedAmount
    ensures r.EmployeeStats? ==> r.totalExpenses == ExpenseCount(s.expenses, caller.id)
  {
    if caller.role == Employer then
      assert Wf(s) ==> EmployeeCount(s.users, s.nextUserId) == |EmployeeIds(s.users)| by {
        if Wf(s) {
          CountsAllEmployees(s);
        }
      }
      EmployerStats(
        EmployeeCount(s.users, s.nextUserId),
        EmployeeSum(s.users, s.nextUserId, BudgetColumn),
        EmployeeSum(s.users, s.nextUserId, SpentColumn),
        PendingTotal(s.requests))
    else
      var budget := if caller.id in s.users then s.users[caller.id].budget else 0.0;
      var spent := if caller.id in s.users then s.users[caller.id].spent else 0.0;
      var pending := match FirstPending(s.requests, caller.id)
        case Some(i) => s.requests[i].requestedAmount
        case None => 0.0;
      EmployeeStats(budget, spent, budget - spent, pending, ExpenseCount(s.expenses, caller.id))
  }

  /** One row of the expense list; the owner columns come from the join
      and are null on an Employee's own list. */
  datatype ExpenseRow = ExpenseRow(expense: Expense, userName: Option<string>, userEmail: Option<string>)

  /** Whether an expense row is selected for the caller: an Employer's join
      keeps the expenses whose owner still exists, an Employee's query keeps
      their own. */
  predicate Visible(e: Expense, users: map<UserId, User>, caller: Caller) {
    if caller.role == Employer then e.owner in users else e.owner == caller.id
  }

  /** The row of one expense. The owner's name and e-mail come only with
      the Employer's join, and an empty one reads as null. */
  function RowOf(e: Expense, users: map<UserId, User>, caller: Caller): (r: ExpenseRow)
    requires Visible(e, users, caller)
    ensures r.expense == e
    ensures caller.role != Employer ==> r.userName.None? && r.userEmail.None?
    ensures caller.role == Employer ==>
              && (r.userName.Some? <==> users[e.owner].firstName != [])
              && (r.userName.Some? ==> r.userName.value == FullName(users[e.owner]))
              && (r.userEmail.Some? <==> users[e.owner].email != [])
              && (r.userEmail.Some? ==> r.userEmail.value == users[e.owner].email)
  {
    if caller.role == Employer then
      var u := users[e.owner];
      ExpenseRow(e, if u.firstName != [] then Some(FullName(u)) else None,
                    if u.email != [] then Some(u.email) else None)
    else ExpenseRow(e, None, None)
  }

  /** The expenses the caller's query selects, newest first. */
  function VisibleNewestFirst(exps: seq<Expense>, users: map<UserId, User>, caller: Caller): (kept: seq<Expense>)
    ensures forall e :: e in kept ==> e in exps && Visible(e, users, caller)
    ensures forall e :: e in exps && Visible(e, users, caller) ==> e in kept
    ensures Ascending(exps, (e: Expense) => e.id) ==> Descending(kept, (e: Expense) => e.id)
  {
    var keep := (e: Expense) => Visible(e, users, caller);
    KeepMembers(exps, keep);
    if Ascending(exps, (e: Expense) => e.id) then
      KeepOrder(exps, keep, (e: Expense) => e.id);
      KeepNewestFirst(exps, keep)
    else
      KeepNewestFirst(exps, keep)
  }

  /** The JSON rows of the selected expenses, in the same order. */
  function RowsOf(kept: seq<Expense>, users: map<UserId, User>, caller: Caller): (r: seq<ExpenseRow>)
    requires forall e :: e in kept ==> Visible(e, users, caller)
    ensures |r| == |kept|
    ensures forall i :: 0 <= i < |r| ==> r[i].expense == kept[i] && r[i] == RowOf(kept[i], users, caller)
  {
    if kept == [] then []
    else [RowOf(kept[0], users, caller)] + RowsOf(kept[1..], users, caller)
  }

  /** The list route: an Employer sees every expense whose owner still
      exists, with the owner's name and e-mail, an Employee their own;
      newest first in both cases. */
  function ListExpenses(s: State, caller: Caller): (r: seq<ExpenseRow>)
    ensures forall i :: 0 <= i < |r| ==> r[i].expense in s.expenses && Visible(r[i].expense, s.users, caller)
    ensures forall i :: 0 <= i < |r| ==> r[i] == RowOf(r[i].expense, s.users, caller)
    ensures forall e :: e in s.expenses && Visible(e, s.users, caller) ==> HasRow(r, e)
    ensures ExpenseIdsAscending(s.expenses, s.nextExpenseId) ==>
              forall i, j :: 0 <= i < j < |r| ==> r[i].expense.id > r[j].expense.id
  {
    var kept := VisibleNewestFirst(s.expenses, s.users, caller);
    var r := RowsOf(kept, s.users, caller);
    ExpenseRowsCover(kept, s.users, caller);
    assert ExpenseIdsAscending(s.expenses, s.nextExpenseId) ==>
             forall i, j :: 0 <= i < j < |kept| ==> kept[i].id > kept[j].id by {
      if ExpenseIdsAscending(s.expenses, s.nextExpenseId) {
        SelectionNewestFirst(s, caller);
      }
    }
    r
  }

  /** Every selected expense has its row. */
  lemma ExpenseRowsCover(kept: seq<Expense>, users: map<UserId, User>, caller: Caller)
    requires forall e :: e in kept ==> Visible(e, users, caller)
    ensures forall e :: e in kept ==> HasRow(RowsOf(kept, users, caller), e)
  {
    var r := RowsOf(kept, users, caller);
    forall e | e in kept ensures HasRow(r, e) {
      var i :| 0 <= i < |kept| && kept[i] == e;
      assert r[i].expense == e;
    }
  }

  predicate HasRow(r: seq<ExpenseRow>, e: Expense) {
    exists i :: 0 <= i < |r| && r[i].expense == e
  }

  /** With ascending ids in the table, the selection is newest first. */
  lemma SelectionNewestFirst(s: State, caller: Caller)
    requires ExpenseIdsAscending(s.expenses, s.nextExpenseId)
    ensures var kept := VisibleNewestFirst(s.expenses, s.users, caller);
            forall i, j :: 0 <= i < j < |kept| ==> kept[i].id > kept[j].id
  {
    assert Ascending(s.expenses, (e: Expense) => e.id);
    var kept := VisibleNewestFirst(s.expenses, s.users, caller);
    assert Descending(kept, (e: Expense) => e.id);
  }

  // ---------------------------------------------------------------------
  // Properties of posting

  /** The balance check is strict: spending exactly the balance succeeds
      and leaves a balance of exactly zero. */
  lemma PostExactBalance(s: State, caller: Caller, input: ExpenseInput)
    requires FieldsPresent(input) && caller.id in s.users
    requires input.amount.value == Available(s.users[caller.id])
    ensures Post(s, caller, input).Ok?
    ensures Available(Post(s, caller, input).value.0.users[caller.id]) == 0.0
  {
  }

  /** Posting and then asking for the balance: spent has risen by the amount
      and the balance has fallen by it, never below zero. */
  lemma PostThenBalance(s: State, caller: Caller, input: ExpenseInput)
    requires Post(s, caller, input).Ok?
    ensures var before := GetBalance(s, caller);
            var after := GetBalance(Post(s, caller, input).value.0, caller);
            && before.Ok? && after.Ok?
            && after.value.spent == before.value.spent + input.amount.value
            && after.value.budget == before.value.budget
            && after.value.balance == before.value.balance - input.amount.value
            && after.value.balance >= 0.0
  {
  }

  /** Posting and then listing: the new expense heads the caller's list and
      the previously listed rows follow unchanged. */
  lemma {:induction false} PostThenList(s: State, caller: Caller, input: ExpenseInput)
    requires Post(s, caller, input).Ok?
    ensures var (s', e) := Post(s, caller, input).value;
            ListExpenses(s', caller) == [RowOf(e, s'.users, caller)] + ListExpenses(s, caller)
  {
    var (s', e) := Post(s, caller, input).value;
    var kept := VisibleNewestFirst(s.expenses, s.users, caller);
    PostKeepsSelection(s, caller, input);
    RowsOfCons(e, kept, s'.users, caller);
    RowsOfSameNames(kept, s.users, s'.users, caller);
  }

  /** After a post the caller's query selects the new expense and then what
      it selected before. */
  lemma PostKeepsSelection(s: State, caller: Caller, input: ExpenseInput)
    requires Post(s, caller, input).Ok?
    ensures var (s', e) := Post(s, caller, input).value;
            VisibleNewestFirst(s'.expenses, s'.users, caller)
            == [e] + VisibleNewestFirst(s.expenses, s.users, caller)
  {
    var (s', e) := Post(s, caller, input).value;
    var keep := (x: Expense) => Visible(x, s.users, caller);
    var keep' := (x: Expense) => Visible(x, s'.users, caller);
    KeepCongruent(s'.expenses, keep', keep);
    KeepAppend(s.expenses, e, keep);
  }

  lemma RowsOfCons(x: Expense, kept: seq<Expense>, users: map<UserId, User>, caller: Caller)
    requires Visible(x, users, caller) && forall e :: e in kept ==> Visible(e, users, caller)
    ensures RowsOf([x] + kept, users, caller) == [RowOf(x, users, caller)] + RowsOf(kept, users, caller)
  {
    assert ([x] + kept)[1..] == kept;
  }

  /** The rows depend on the owners' names and e-mails only, not on their
      budgets or spending. */
  lemma {:induction false} RowsOfSameNames(kept: seq<Expense>, users: map<UserId, User>, users': map<UserId, User>,
                                           caller: Caller)
    requires forall e :: e in kept ==> Visible(e, users, caller)
    requires users'.Keys == users.Keys
    requires forall k :: k in users ==>
               (users'[k].firstName == users[k].firstName && users'[k].lastName == users[k].lastName
                && users'[k].email == users[k].email)
    ensures forall e :: e in kept ==> Visible(e, users', caller)
    ensures RowsOf(kept, users', caller) == RowsOf(kept, users, caller)
  {
    if kept != [] {
      assert kept[0] in kept;
      RowsOfSameNames(kept[1..], users, users', caller);
    }
  }

  /** Posting moves the Employer dashboard's total spent by exactly the
      amount when the poster is an Employee, and leaves every other figure
      of it alone. */
  lemma PostMovesEmployerStats(s: State, caller: Caller, input: ExpenseInput, viewer: Caller)
    requires Wf(s) && viewer.role == Employer
    requires Post(s, caller, input).Ok?
    ensures var before := GetStats(s, viewer);
            var after := GetStats(Post(s, caller, input).value.0, viewer);
            && after.totalEmployees == before.totalEmployees
            && after.totalBudget == before.totalBudget
            && after.pendingApproval == before.pendingApproval
            && after.totalSpent == before.totalSpent
                 + (if s.users[caller.id].role == Employee then input.amount.value else 0.0)
  {
    var s' := Post(s, caller, input).value.0;
    EmployeeSumUpdate(s.users, caller.id, s'.users[caller.id], s.nextUserId, SpentColumn);
    EmployeeSumUpdate(s.users, caller.id, s'.users[caller.id], s.nextUserId, BudgetColumn);
    assert s'.users == s.users[caller.id := s'.users[caller.id]];
  }

  /** Posting adds one to the poster's expense count on their dashboard. */
  lemma PostCountsOneExpense(s: State, caller: Caller, input: ExpenseInput)
    requires caller.role == Employee
    requires Post(s, caller, input).Ok?
    ensures GetStats(Post(s, caller, input).value.0, caller).totalExpenses
            == GetStats(s, caller).totalExpenses + 1
  {
    ExpenseAppend(s.expenses, Post(s, caller, input).value.1);
  }
}
