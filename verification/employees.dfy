/** The employee routes (Employer only): listing the Employee accounts,
    adding one, deleting one. */
module Employees {
  import opened Wrappers
  import opened Text
  import opened Ledger
  import Expenses

  /** The body of an add-employee request. An empty string stands for a
      missing field; `budget` is the number the form sends. The password
      is only checked for presence: hashing is not modelled. */
  datatype EmployeeInput = EmployeeInput(
    firstName: string,
    lastName: string,
    email: string,
    password: string,
    title: string,
    department: string,
    phone: string,
    budget: Option<real>)

  /** Every required field is truthy; the phone is optional. A truthy
      budget is present and non-zero, so a negative one passes. */
  function RequiredPresent(input: EmployeeInput): (ok: bool)
    ensures ok ==> input.budget.Some? && input.budget.value != 0.0
    ensures ok ==> input.email != [] && input.password != []
  {
    && input.firstName != [] && input.lastName != [] && input.email != []
    && input.password != [] && input.title != [] && input.department != []
    && Truthy(input.budget)
  }

  /** The users row the handler inserts: an Employee with nothing spent,
      the e-mail lowered and an empty phone stored as NULL. */
  function NewEmployee(input: EmployeeInput): (u: User)
    requires input.budget.Some?
    ensures u.role == Employee && u.spent == 0.0 && u.budget == input.budget.value
    ensures u.email == ToLower(input.email) && IsLowerCase(u.email) && |u.email| == |input.email|
    ensures u.firstName == input.firstName && u.lastName == input.lastName
    ensures u.title == input.title && u.department == input.department
    ensures u.phone.None? <==> input.phone == []
    ensures u.phone.Some? ==> u.phone.value == input.phone
    ensures FullName(u) == input.firstName + " " + input.lastName
  {
    User(input.firstName, input.lastName, ToLower(input.email), Employee,
         input.title, input.department, NullIfEmpty(input.phone), input.budget.value, 0.0)
  }

  /** Add an employee: every required field must be present and the lowered
      e-mail must be free. The new row takes the next id and an
      `employee_added` entry logs the full name and the budget. */
  function Add(s: State, caller: Caller, input: EmployeeInput): (r: Result<(State, UserId), Error>)
    ensures caller.role != Employer ==> r == Err(Forbidden)
    ensures caller.role == Employer && !RequiredPresent(input) ==> r == Err(FieldsMissing)
    ensures caller.role == Employer && RequiredPresent(input) ==>
              (r.Err? <==> EmailTaken(s.users, ToLower(input.email)))
    ensures r.Err? && r.error == EmailExists ==> EmailTaken(s.users, ToLower(input.email))
    ensures r.Ok? ==>
              var s' := r.value.0;
              var id := r.value.1;
              && id == s.nextUserId && s'.nextUserId == id + 1
              && s'.users == s.users[id := NewEmployee(input)]
              && s'.log == s.log + [LogEntry(caller.id, EmployeeAdded, "Added new employee",
                                             input.firstName + " " + input.lastName, input.budget.value)]
              && s'.expenses == s.expenses && s'.requests == s.requests
    // the duplicate check keeps e-mails unique, and the fresh id keeps
    // every id below the counter
    ensures r.Ok? && Wf(s) ==> Wf(r.value.0) && s.nextUserId !in s.users
  {
    if caller.role != Employer then Err(Forbidden)
    else if !RequiredPresent(input) then Err(FieldsMissing)
    else if EmailTaken(s.users, ToLower(input.email)) then Err(EmailExists)
    else
      var id := s.nextUserId;
      var u := NewEmployee(input);
      var entry := LogEntry(caller.id, EmployeeAdded, "Added new employee",
                            input.firstName + " " + input.lastName, input.budget.value);
      var s' := s.(users := s.users[id := u], log := s.log + [entry], nextUserId := id + 1);
      assert Wf(s) ==> EmailsUnique(s'.users) by {
        if Wf(s) {
          forall a, b | a in s'.users && b in s'.users && s'.users[a].email == s'.users[b].email
            ensures a == b
          {
          }
        }
      }
      Ok((s', id))
  }

  /** Delete a user by id, but only an Employee: an unknown id and an
      Employer's id are both "not found". Other tables and the activity
      log are left as they are. */
  function Delete(s: State, caller: Caller, id: UserId): (r: Result<State, Error>)
    ensures caller.role != Employer ==> r == Err(Forbidden)
    ensures caller.role == Employer ==>
              (r.Ok? <==> id in s.users && s.users[id].role == Employee)
    ensures r.Err? && caller.role == Employer ==> r.error == EmployeeNotFound
    ensures r.Ok? ==>
              && r.value.users == s.users - {id}
              && r.value.log == s.log && r.value.expenses == s.expenses && r.value.requests == s.requests
    ensures r.Ok? && Wf(s) ==> Wf(r.value)
  {
    if caller.role != Employer then Err(Forbidden)
    else if id in s.users && s.users[id].role == Employee then Ok(s.(users := s.users - {id}))
    else Err(EmployeeNotFound)
  }

  /** One entry of the employee list. */
  datatype EmployeeRow = EmployeeRow(id: UserId, user: User, name: string)

  /** The entry of one employee: the stored fields, plus a display name
      that is the first name, one space and the last name. */
  function RowOf(id: UserId, u: User): (r: EmployeeRow)
    ensures r.id == id && r.user == u
    ensures |r.name| == |u.firstName| + 1 + |u.lastName|
    ensures r.name[..|u.firstName|] == u.firstName && r.name[|u.firstName|] == ' '
    ensures r.name[|u.firstName| + 1..] == u.lastName
  {
    EmployeeRow(id, u, FullName(u))
  }

  /** The Employee rows among the ids below `n`, highest id first. */
  function EmployeesBelow(users: map<UserId, User>, n: nat): (r: seq<EmployeeRow>)
    ensures forall i :: 0 <= i < |r| ==>
              r[i].id < n && r[i].id in users && users[r[i].id].role == Employee
              && r[i] == RowOf(r[i].id, users[r[i].id])
    ensures forall i, j :: 0 <= i < j < |r| ==> r[i].id > r[j].id
  {
    if n == 0 then []
    else
      var rest := EmployeesBelow(users, n - 1);
      if n - 1 in users && users[n - 1].role == Employee then
        [RowOf(n - 1, users[n - 1])] + rest
      else rest
  }

  /** `k` has a row on the list. */
  predicate OnList(r: seq<EmployeeRow>, k: UserId) {
    exists i :: 0 <= i < |r| && r[i].id == k
  }

  /** Every Employee below `n` is on the list. */
  lemma {:induction false} EmployeesBelowComplete(users: map<UserId, User>, n: nat, k: UserId)
    requires k < n && k in users && users[k].role == Employee
    ensures OnList(EmployeesBelow(users, n), k)
  {
    if k == n - 1 {
      BelowTop(users, n);
    } else {
      EmployeesBelowComplete(users, n - 1, k);
      BelowStep(users, n, k);
    }
  }

  lemma BelowTop(users: map<UserId, User>, n: nat)
    requires 0 < n && n - 1 in users && users[n - 1].role == Employee
    ensures OnList(EmployeesBelow(users, n), n - 1)
  {
    assert EmployeesBelow(users, n)[0].id == n - 1;
  }

  lemma BelowStep(users: map<UserId, User>, n: nat, k: UserId)
    requires 0 < n && OnList(EmployeesBelow(users, n - 1), k)
    ensures OnList(EmployeesBelow(users, n), k)
  {
    var rest := EmployeesBelow(users, n - 1);
    var i :| 0 <= i < |rest| && rest[i].id == k;
    if n - 1 in users && users[n - 1].role == Employee {
      assert EmployeesBelow(users, n)[i + 1] == rest[i];
    } else {
      assert EmployeesBelow(users, n)[i] == rest[i];
    }
  }

  /** The employee list (Employer only): every Employee account, newest
      first. Employer accounts never appear. */
  function ListEmployees(s: State, caller: Caller): (r: Result<seq<EmployeeRow>, Error>)
    ensures r.Err? <==> caller.role != Employer
    ensures r.Err? ==> r.error == Forbidden
    ensures r.Ok? ==> forall i :: 0 <= i < |r.value| ==>
              r.value[i].id in s.users && s.users[r.value[i].id].role == Employee
              && r.value[i].user == s.users[r.value[i].id]
              && r.value[i].name == FullName(s.users[r.value[i].id])
    ensures r.Ok? ==> forall i, j :: 0 <= i < j < |r.value| ==> r.value[i].id > r.value[j].id
    ensures r.Ok? && Wf(s) ==> forall k :: k in s.users && s.users[k].role == Employee ==> OnList(r.value, k)
  {
    if caller.role != Employer then Err(Forbidden)
    else
      var r := EmployeesBelow(s.users, s.nextUserId);
      assert Wf(s) ==> forall k :: k in s.users && s.users[k].role == Employee ==> OnList(r, k) by {
        if Wf(s) {
          forall k | k in s.users && s.users[k].role == Employee
            ensures OnList(r, k)
          {
            EmployeesBelowComplete(s.users, s.nextUserId, k);
          }
        }
      }
      Ok(r)
  }

  /** The sum of one column over the entries of a list. */
  function RowsTotal(rows: seq<EmployeeRow>, c: Column): real {
    if rows == [] then 0.0 else ColumnOf(rows[0].user, c) + RowsTotal(rows[1..], c)
  }

  /** The aggregates over the ids below `n` are the length of the list of
      those ids and the column sums over its entries. */
  lemma {:induction false} BelowAggregates(users: map<UserId, User>, n: nat, c: Column)
    ensures EmployeeCount(users, n) == |EmployeesBelow(users, n)|
    ensures EmployeeSum(users, n, c) == RowsTotal(EmployeesBelow(users, n), c)
  {
    if n > 0 {
      BelowAggregates(users, n - 1, c);
      var rest := EmployeesBelow(users, n - 1);
      if n - 1 in users && users[n - 1].role == Employee {
        assert ([RowOf(n - 1, users[n - 1])] + rest)[1..] == rest;
      }
    }
  }

  /** The Employer's dashboard counts and sums the very employees the
      employee list shows: the head count is the list's length, and the
      total budget and total spent are the sums over its entries. */
  lemma EmployerStatsMatchList(s: State, caller: Caller)
    requires caller.role == Employer
    ensures var st := Expenses.GetStats(s, caller);
            var list := ListEmployees(s, caller).value;
            && st.totalEmployees == |list|
            && st.totalBudget == RowsTotal(list, BudgetColumn)
            && st.totalSpent == RowsTotal(list, SpentColumn)
  {
    BelowAggregates(s.users, s.nextUserId, BudgetColumn);
    BelowAggregates(s.users, s.nextUserId, SpentColumn);
  }

  // ---------------------------------------------------------------------
  // Properties

  /** E-mails are compared after lowering: once an address is stored, adding
      it again under any capitalisation fails. */
  lemma AddSameEmailFails(s: State, caller: Caller, input: EmployeeInput, input2: EmployeeInput)
    requires Add(s, caller, input).Ok?
    requires RequiredPresent(input2) && ToLower(input2.email) == ToLower(input.email)
    ensures Add(Add(s, caller, input).value.0, caller, input2) == Err(EmailExists)
  {
    var (s', id) := Add(s, caller, input).value;
    assert s'.users[id].email == ToLower(input2.email);
  }

  /** The duplicate check ignores only ASCII case: an address that differs
      from a stored one just in the capitalisation of its letters is
      refused. */
  lemma AddCaseVariantFails(s: State, caller: Caller, input: EmployeeInput, input2: EmployeeInput)
    requires Add(s, caller, input).Ok?
    requires RequiredPresent(input2) && SameUpToCase(input2.email, input.email)
    ensures Add(Add(s, caller, input).value.0, caller, input2) == Err(EmailExists)
  {
    ToLowerEqual(input2.email, input.email);
    AddSameEmailFails(s, caller, input, input2);
  }

  /** The phone plays no part in the presence check. */
  lemma RequiredIgnoresPhone(input: EmployeeInput, phone: string)
    ensures RequiredPresent(input.(phone := phone)) == RequiredPresent(input)
  {
  }

  /** A negative starting budget is truthy and passes the presence check. */
  lemma NegativeBudgetPresent(input: EmployeeInput, b: real)
    requires input.firstName != [] && input.lastName != [] && input.email != []
    requires input.password != [] && input.title != [] && input.department != []
    requires b < 0.0
    ensures RequiredPresent(input.(budget := Some(b)))
  {
  }

  /** A new employee heads the employee list. */
  lemma {:induction false} AddHeadsList(s: State, caller: Caller, input: EmployeeInput)
    requires Add(s, caller, input).Ok?
    ensures var (s', id) := Add(s, caller, input).value;
            ListEmployees(s', caller)
            == Ok([RowOf(id, NewEmployee(input))] + ListEmployees(s, caller).value)
  {
    var (s', id) := Add(s, caller, input).value;
    BelowUnchanged(s.users, s'.users, id);
    assert EmployeesBelow(s'.users, id + 1)
           == [RowOf(id, NewEmployee(input))] + EmployeesBelow(s'.users, id);
  }

  /** The list below `n` reads only the ids below `n`. */
  lemma {:induction false} BelowUnchanged(users: map<UserId, User>, users': map<UserId, User>, n: nat)
    requires forall k :: k < n ==> (k in users <==> k in users')
    requires forall k :: k < n && k in users ==> users[k] == users'[k]
    ensures EmployeesBelow(users', n) == EmployeesBelow(users, n)
  {
    if n > 0 {
      BelowUnchanged(users, users', n - 1);
    }
  }

  /** After a delete the account is gone from the list and a second delete
      of the same id is "not found". */
  lemma DeleteRemoves(s: State, caller: Caller, id: UserId)
    requires Delete(s, caller, id).Ok?
    ensures var s' := Delete(s, caller, id).value;
            && (forall i :: 0 <= i < |ListEmployees(s', caller).value| ==> ListEmployees(s', caller).value[i].id != id)
            && Delete(s', caller, id) == Err(EmployeeNotFound)
  {
  }

  /** An Employer account is never deleted through this route. */
  lemma DeleteSparesEmployers(s: State, caller: Caller, id: UserId)
    requires id in s.users && s.users[id].role == Employer
    ensures Delete(s, caller, id).Err?
  {
  }

  /** Adding an employee adds one to the Employer dashboard's head count and
      its budget to the total budget; nothing has been spent yet. */
  lemma {:induction false} AddMovesEmployerTotals(s: State, caller: Caller, input: EmployeeInput)
    requires Wf(s)
    requires Add(s, caller, input).Ok?
    ensures var s' := Add(s, caller, input).value.0;
            && EmployeeCount(s'.users, s'.nextUserId) == EmployeeCount(s.users, s.nextUserId) + 1
            && EmployeeSum(s'.users, s'.nextUserId, BudgetColumn)
               == EmployeeSum(s.users, s.nextUserId, BudgetColumn) + input.budget.value
            && EmployeeSum(s'.users, s'.nextUserId, SpentColumn) == EmployeeSum(s.users, s.nextUserId, SpentColumn)
  {
    var s' := Add(s, caller, input).value.0;
    var n := s.nextUserId;
    EmployeeSumAbove(s.users, s'.users, n, BudgetColumn);
    EmployeeSumAbove(s.users, s'.users, n, SpentColumn);
  }

  /** Deleting an employee removes their head, budget and spending from the
      Employer dashboard's totals. */
  lemma {:induction false} DeleteMovesEmployerTotals(s: State, caller: Caller, id: UserId)
    requires Wf(s)
    requires Delete(s, caller, id).Ok?
    ensures var s' := Delete(s, caller, id).value;
            && EmployeeCount(s'.users, s'.nextUserId) + 1 == EmployeeCount(s.users, s.nextUserId)
            && EmployeeSum(s'.users, s'.nextUserId, BudgetColumn) + s.users[id].budget
               == EmployeeSum(s.users, s.nextUserId, BudgetColumn)
            && EmployeeSum(s'.users, s'.nextUserId, SpentColumn) + s.users[id].spent
               == EmployeeSum(s.users, s.nextUserId, SpentColumn)
  {
    EmployeeSumRemove(s.users, id, s.nextUserId, BudgetColumn);
    EmployeeSumRemove(s.users, id, s.nextUserId, SpentColumn);
  }
}
