# CorticoExpense budget ledger in Dafny

This project models the budget ledger behind the CorticoExpense expense
tracker. The ledger's state is four tables:
- users, each with a role, a lower-cased e-mail, a budget and a spent amount;
- expenses;
- budget requests, each pending, approved or rejected;
- an append-only activity log.

The Express route handlers are modelled as pure transition functions from a
`State` to a `Result` of a new state or an error:
- posting an expense, with instant deduction from the balance;
- creating a budget request and approving or rejecting it;
- adding and deleting employees.

The read-only routes are modelled as functions of the state: the balance,
the dashboard stats, the pending-request summary, and the role-scoped
expense, request and employee lists. Module `Transitions` puts the writing
handlers together as steps of one state machine and proves what every step
and every run keeps.

The pure helpers of the React components are modelled too:
- both form validators and what the forms submit;
- the usage-colour classifier, the initials and the remaining balance;
- the relative-time labels and the ten-entry cut of the activity panel;
- the pending-only filter, the remove-on-success update and the review body
  of the request panel.

Modules:
- `Wrappers`: `Option` and `Result`.
- `Text`: JavaScript `trim`, ASCII case mapping, `split(' ')` and word heads.
- `Listing`: newest-first selection and the in-order filter.
- `Ledger`: the tables, the invariant `Wf` and the aggregates.
- `Expenses`, `BudgetRequests`, `Employees`: one module per route file.
- `Transitions`: the state machine over the writing handlers.
- `FormInput`, `AddEmployeeModal`, `AddExpenseModal`, `EmployeeManagement`,
  `ActivityLog`, `BudgetRequestsPanel`: the client-side helpers.

Modelling conventions:
- Money is `real`.
- A JSON number in a request body is an `Option<real>`, where `None` means
  absent or null. JavaScript truthiness of a number is `Truthy`: present and
  non-zero.
- A missing text field is the empty string.
- A form's numeric input is a `NumField`: blank, or entered and parsed to a
  number or to nothing when it is not numeric.
- Expenses and requests are kept in insertion order with increasing ids, so
  `created_at DESC` is modelled as id descending.
- The database driver returns DECIMAL columns as strings, and a non-empty
  string is truthy. So a row read back from the database reports the
  owner's budget and the approved amount whenever they are not NULL, zero
  included.
- A string length that JavaScript takes with `.length` is counted in UTF-16
  code units (`Text.Utf16Length`), where a character above U+FFFF counts
  twice.

Where the description of the system and the code disagree, the model follows
the code:
- A negative expense amount passes the server's guard.
- A zero approved amount falls back to the requested amount.
- A negative approved amount or starting budget is accepted.
- Deleting an employee writes no activity-log entry.

So `spent <= budget` holds after each successful posting, not as a global
invariant, and `spent >= 0` does not hold.

## Model

| member | source | states |
|---|---|---|
| Expenses.Post | backend/routes/expenses.js:54-110 | Missing description, category or date, or an absent or zero amount, gives "required fields"; an unknown caller gives "not found"; an amount above budget − spent gives "insufficient balance" carrying that balance and the amount; otherwise exactly one expense owned by the caller is appended, only the caller's `spent` rises and by exactly the amount, requests and log are untouched, the caller ends with spent ≤ budget, and the invariant is kept |
| Expenses.PostExactBalance | backend/routes/expenses.js:73-81 | The balance check is strict: spending exactly the balance succeeds and leaves a balance of exactly 0 |
| Expenses.PostThenBalance | backend/routes/expenses.js:91-94 | After a post the balance route reports spent up by the amount, the same budget, and a balance down by the amount and not negative |
| Expenses.GetBalance | backend/routes/expenses.js:173-196 | Not found exactly when the caller's row is gone; otherwise budget and spent are the caller's and balance = budget − spent |
| Expenses.GetStats | backend/routes/expenses.js:116-167 | Employer figures for an Employer: the number of Employee-role users (all of them in a well-formed state), the sums of their budgets and of their spending, and the pending total; an Employee's own budget and spent (0 when the row is gone), balance = budget − spent, the pending request's amount or 0, and their expense count |
| Employees.EmployerStatsMatchList | backend/routes/expenses.js:120-135 | The Employer's head count is the length of the employee list, and total budget and total spent are the sums of the budget and spent of its entries |
| Employees.BelowAggregates | backend/routes/expenses.js:120-125 | The Employee count and column sums below an id are the length of, and the sums over, the employee list below that id |
| Ledger.EmployeeCountIsCardinality | backend/routes/expenses.js:120-122 | The Employee count below an id is the number of Employee-role users with a smaller id |
| Ledger.CountsAllEmployees | backend/routes/expenses.js:120-122 | In a well-formed state the count is the number of all Employee-role users |
| Expenses.PostMovesEmployerStats | backend/routes/expenses.js:120-135 | A post moves the Employer's total spent by the amount exactly when the poster has the Employee role, and leaves head count, total budget and pending total alone |
| Expenses.PostCountsOneExpense | backend/routes/expenses.js:142-145 | A post adds one to the poster's expense count |
| Expenses.ListExpenses | backend/routes/expenses.js:11-48 | Every row is a selected expense (an Employer's join keeps the expenses whose owner exists, an Employee's query keeps their own), every selected expense has its row, owner columns come from the join, and ids descend |
| Expenses.VisibleNewestFirst | backend/routes/expenses.js:15-24 | The selection holds exactly the visible expenses and is newest first when ids ascend in the table |
| Expenses.SelectionNewestFirst | backend/routes/expenses.js:20 | With ascending ids in the table, the selected expenses come in descending id order |
| Expenses.PostThenList | backend/routes/expenses.js:11-48 | After a post the new expense heads the caller's list and the rows listed before follow unchanged |
| Expenses.PostKeepsSelection | backend/routes/expenses.js:15-24 | After a post the query selects the new expense followed by what it selected before |
| Expenses.RowsOfSameNames | backend/routes/expenses.js:30-41 | The list rows read only the owners' names and e-mails, so a change of budget or spending leaves them as they were |
| Expenses.ExpenseRowsCover | backend/routes/expenses.js:30-41 | Every selected expense has its row |
| Expenses.RowOf | backend/routes/expenses.js:30-41 | The row carries its expense; on an Employee's list the owner columns are null; on the Employer's the name is first + " " + last and the e-mail is given, each null exactly when empty |
| BudgetRequests.Create | backend/routes/budgetRequests.js:55-98 | An absent or non-positive amount gives "valid amount required"; an existing pending request gives "already pending"; otherwise exactly one pending request for the caller is appended and one `budget_requested` entry with the amount is logged; at most one pending request per user and the invariant are kept |
| BudgetRequests.ParseDecision | backend/routes/budgetRequests.js:110-112 | Only "approved" and "rejected" are accepted, and neither is pending |
| BudgetRequests.Target | backend/routes/budgetRequests.js:115-125 | The joined lookup finds the first request with the id, and only while its owner's row exists |
| BudgetRequests.FinalAmount | backend/routes/budgetRequests.js:133 | The approved amount when it is truthy, otherwise the requested amount |
| BudgetRequests.Resolve | backend/routes/budgetRequests.js:105-174 | A non-Employer is refused; an unknown status is invalid; a missing request is not found; a request that is no longer pending is "already processed"; otherwise the request is stored as reviewed, an approval credits the final amount to the owner's budget only, a rejection leaves every user as it was, one approval or rejection entry is logged, and the invariant is kept |
| BudgetRequests.ResolveIsTerminal | backend/routes/budgetRequests.js:129-131 | Once resolved, every further review of the same request fails as already processed, so an approval credits the budget once only |
| BudgetRequests.ApproveCreditsGivenAmount | backend/routes/budgetRequests.js:133-149 | An approval with a non-zero amount credits exactly that amount and stores it |
| BudgetRequests.ApproveZeroCreditsRequested | backend/routes/budgetRequests.js:133 | An approved amount of 0 credits the requested amount |
| BudgetRequests.NegativeApprovalLowersBudget | backend/routes/budgetRequests.js:133-148 | Nothing bounds the approved amount: a negative one lowers the owner's budget |
| BudgetRequests.GetPendingSummary | backend/routes/budgetRequests.js:180-194 | Employer only; the count is the number of pending requests and the total the sum of their amounts; the count is zero exactly when no request is pending, and the total is 0 then |
| Ledger.PendingCountIsCardinality | backend/routes/budgetRequests.js:183-184 | The pending count is the number of positions holding a pending request |
| BudgetRequests.NoPendingNoTotal | backend/routes/budgetRequests.js:183 | With no pending request the pending sum is 0 |
| BudgetRequests.CreateMovesPendingSummary | backend/routes/budgetRequests.js:182-189 | Creating a request adds one to the pending count and its amount to the pending total |
| BudgetRequests.ResolveMovesPendingSummary | backend/routes/budgetRequests.js:182-189 | Resolving a request, either way, takes one off the pending count and its requested amount off the total |
| BudgetRequests.ListRequests | backend/routes/budgetRequests.js:11-49 | Every row is a listed request and every listed request has its row; an Employer sees the requests whose owner exists, pending first; within each status group the ids descend |
| BudgetRequests.ListedInOrder | backend/routes/budgetRequests.js:15-26 | Exactly the listed requests, pending first for an Employer and newest first within each group |
| BudgetRequests.GroupNewestFirst | backend/routes/budgetRequests.js:20 | One status group of the Employer's join, exactly, newest first |
| BudgetRequests.OwnNewestFirst | backend/routes/budgetRequests.js:24 | Exactly the Employee's own requests, newest first |
| BudgetRequests.GroupsConcat | backend/routes/budgetRequests.js:20 | The pending group followed by the others is ordered pending first and newest first in each group |
| BudgetRequests.RowsCover | backend/routes/budgetRequests.js:30-42 | Every listed request has its row |
| BudgetRequests.RowsKeepOrder | backend/routes/budgetRequests.js:30-42 | The rows keep the order of their requests |
| BudgetRequests.RowOf | backend/routes/budgetRequests.js:30-42 | The row carries its request and the stored approved amount, zero included; on an Employee's list the owner columns are null; on the Employer's the name is first + " " + last and the e-mail is given, each null exactly when empty, and the owner's budget is always given |
| BudgetRequests.Reviewed | backend/routes/budgetRequests.js:136-141 | A review changes only status, approved amount and reviewer; the amount is stored exactly for an approval, and the decided row is review-consistent |
| BudgetRequests.ReviewEntry | backend/routes/budgetRequests.js:151-163 | The entry is the reviewer's and names the owner; an approval logs the credited amount, a rejection the requested amount |
| Employees.NewEmployee | backend/routes/employees.js:64-68 | The inserted row is an Employee with spent 0, the given names, title, department and budget, the lowering of the given e-mail, and the given phone, or NULL exactly when none is given |
| Employees.Add | backend/routes/employees.js:45-95 | A non-Employer is refused; a missing required field gives "fields required" (phone optional); a lower-cased e-mail already stored gives "exists"; otherwise the new row takes the next id, one `employee_added` entry with the name and budget is logged, and e-mails stay distinct |
| Employees.AddSameEmailFails | backend/routes/employees.js:55-58 | Adding the same address again, in any capitalisation, fails with "exists" |
| Employees.AddCaseVariantFails | backend/routes/employees.js:55-58 | An address that differs from a stored one only in the case of its ASCII letters is refused as existing |
| Employees.RequiredPresent | backend/routes/employees.js:50 | A passing body has a present, non-zero budget and a non-empty e-mail and password |
| Employees.RequiredIgnoresPhone | backend/routes/employees.js:50 | The phone plays no part in the required-field check |
| Employees.NegativeBudgetPresent | backend/routes/employees.js:50 | A negative budget passes the required-field check |
| Ledger.EmailTaken | backend/routes/employees.js:55-58 | An address is taken exactly when some stored user has it |
| Employees.AddHeadsList | backend/routes/employees.js:14-17 | A new employee heads the employee list and the others follow unchanged |
| Employees.AddMovesEmployerTotals | backend/routes/employees.js:64-68 | Adding an employee adds one head and its budget to the Employer's totals and nothing to total spent |
| Employees.Delete | backend/routes/employees.js:101-116 | A non-Employer is refused; only an Employee's row is deleted; an unknown id or an Employer's id is "not found"; other tables and the log are untouched |
| Employees.DeleteRemoves | backend/routes/employees.js:105-109 | After a delete the account is off the list and a second delete is "not found" |
| Employees.DeleteSparesEmployers | backend/routes/employees.js:105 | An Employer's account is never deleted |
| Employees.DeleteMovesEmployerTotals | backend/routes/employees.js:105 | A delete removes the employee's head, budget and spending from the Employer's totals |
| Employees.ListEmployees | backend/routes/employees.js:12-39 | Employer only; exactly the Employee-role users, name = first + " " + last, newest first |
| Employees.EmployeesBelow | backend/routes/employees.js:14-17 | Only Employee rows, highest id first |
| Employees.RowOf | backend/routes/employees.js:19-33 | The entry carries the id and the stored fields, and its name is the first name, one space and the last name |
| Employees.EmployeesBelowComplete | backend/routes/employees.js:14-17 | Every Employee below the id counter is on the list |
| Employees.BelowUnchanged | backend/routes/employees.js:14-17 | The list below an id reads only the rows below that id |
| Ledger.FindRequest | backend/routes/budgetRequests.js:115-121 | The first request with the id, or none exactly when no request has it |
| Ledger.FirstPending | backend/routes/expenses.js:146-153 | A pending request of the user, or none exactly when there is none |
| Ledger.PendingCount | backend/routes/budgetRequests.js:183-184 | At most the number of requests, and zero exactly when none is pending |
| Ledger.PendingAppend | backend/routes/budgetRequests.js:183-184 | Appending a request moves the pending count and total by that request only |
| Ledger.RequestUpdate | backend/routes/budgetRequests.js:136-141 | Updating one request moves the pending count, the pending total and the approved totals by that row only |
| Ledger.ReviewKeepsWf | backend/routes/budgetRequests.js:136-149 | A review that keeps ids, owners and e-mails and stores a consistent resolved row keeps the invariant |
| Ledger.ExpenseAppend | backend/routes/expenses.js:142-145 | Appending an expense moves only its owner's count and total |
| Ledger.EmployeeSumUpdate | backend/routes/expenses.js:123-125 | Updating a user without changing the role moves the Employee sum by that user's change only |
| Ledger.EmployeeSumAbove | backend/routes/expenses.js:120-125 | The Employee totals below an id read only the rows below that id |
| Ledger.EmployeeSumRemove | backend/routes/expenses.js:120-125 | Removing a user takes exactly their share off the Employee totals |
| Ledger.NullIfEmpty | backend/routes/budgetRequests.js:76 | An empty text field is stored as NULL, any other as given |
| Transitions.Apply | backend/routes/expenses.js:54-110 | Every successful write of the five handlers (posting an expense here; creating, at budgetRequests.js:55-98, and reviewing, at budgetRequests.js:105-174, a request; adding, at employees.js:45-95, and deleting, at employees.js:101-116, an employee) keeps the invariant, only appends to log and expenses, keeps request ids, owners and amounts and never changes a resolved request, keeps each user's budget − approved total and spent − expense total, and logs exactly one entry when its handler logs |
| Transitions.Step | backend/routes/budgetRequests.js:55-174 | A write to any of the five handlers (the two here, expenses.js:54-110 and employees.js:45-116) that fails leaves the state as it was; any write is a good step |
| Transitions.Run | backend/routes/employees.js:45-116 | Any sequence of writes to the five handlers (the two here, expenses.js:54-110 and budgetRequests.js:55-174) keeps the invariant, evolves the tables append-only and logs at most one entry per write |
| Transitions.RunAccounted | backend/routes/budgetRequests.js:143-149 | Across any run, a user's budget moves only by approved amounts and their spent only by posted expenses |
| Transitions.ResolveIsGood | backend/routes/budgetRequests.js:133-163 | A review is a good logging step |
| Transitions.ResolveAccounted | backend/routes/budgetRequests.js:143-149 | A review moves the owner's budget by exactly what it adds to their approved total |
| Transitions.PostIsGood | backend/routes/expenses.js:84-94 | A post is a good step that logs nothing |
| Transitions.CreateIsGood | backend/routes/budgetRequests.js:73-84 | Creating a request is a good logging step |
| Transitions.AddIsGood | backend/routes/employees.js:64-75 | Adding an employee is a good logging step |
| Transitions.DeleteIsGood | backend/routes/employees.js:105-111 | Deleting an employee is a good step that logs nothing |
| Transitions.FailedStepChangesNothing | backend/routes/budgetRequests.js:123-131 | A rejected write changes no table, not even the log |
| Transitions.LoggedStepAppendsOne | backend/routes/budgetRequests.js:152-163 | A logging write appends exactly one entry and keeps the earlier ones |
| AddEmployeeModal.EmailError | src/components/EmployeeManagement/AddEmployeeModal.js:57-61 | "required" exactly for a blank address, "valid email" exactly for a non-blank one not matching `\S+@\S+\.\S+`, so the two never both apply |
| AddEmployeeModal.PasswordError | src/components/EmployeeManagement/AddEmployeeModal.js:63-67 | "required" for an empty password, the length error for 1 to 5 UTF-16 code units, nothing from 6 |
| AddEmployeeModal.ThreeEmojiPassword | src/components/EmployeeManagement/AddEmployeeModal.js:65 | Three emoji are six code units and pass the length rule |
| AddEmployeeModal.Validate | src/components/EmployeeManagement/AddEmployeeModal.js:51-80 | One message per failing field, each field's own condition, and never a phone message |
| AddEmployeeModal.PassesIffValid | src/components/EmployeeManagement/AddEmployeeModal.js:79 | The validator passes exactly when names and title are non-blank, department is set, the e-mail is valid, the password has at least 6 UTF-16 code units and the budget is positive |
| AddEmployeeModal.Submit | src/components/EmployeeManagement/AddEmployeeModal.js:83-100 | A body is sent exactly when the form is valid; its text fields are trimmed, the e-mail trimmed and lower-cased, the budget a number |
| AddEmployeeModal.SubmitPassesServerCheck | src/components/EmployeeManagement/AddEmployeeModal.js:91-100 | A body built from a valid form, with a finite budget, would pass the add-employee route's required-field check |
| AddEmployeeModal.SubmittedEmailLooksLikeEmail | src/components/EmployeeManagement/AddEmployeeModal.js:94 | The trimmed, lower-cased address still matches the e-mail pattern |
| AddEmployeeModal.TrimLowerKeepsMatch | src/components/EmployeeManagement/AddEmployeeModal.js:59-94 | Trimming and lower-casing keep a match of the e-mail pattern |
| AddEmployeeModal.TrimLowerKeepsMatchAt | src/components/EmployeeManagement/AddEmployeeModal.js:59-94 | A given match survives, shifted by the leading spaces dropped |
| AddEmployeeModal.MatchAfterDrop | src/components/EmployeeManagement/AddEmployeeModal.js:59 | A match survives dropping leading whitespace |
| AddEmployeeModal.MatchBeforeCut | src/components/EmployeeManagement/AddEmployeeModal.js:59 | A match survives dropping trailing whitespace |
| AddEmployeeModal.MatchLowered | src/components/EmployeeManagement/AddEmployeeModal.js:94 | Lower-casing keeps a match in place |
| FormInput.NumberError | src/components/ExpenseTransactions/AddExpenseModal.js:52-56 | "required" exactly for a blank field, "valid amount" exactly for an entered non-numeric, zero or negative one, nothing for a positive one; the two never both apply (the budget field of the add-employee form, src/components/EmployeeManagement/AddEmployeeModal.js:72-76, uses the same rule) |
| AddExpenseModal.Validate | src/components/ExpenseTransactions/AddExpenseModal.js:45-68 | One message per failing field, each field's own condition, and never a notes message |
| AddExpenseModal.PassesIffValid | src/components/ExpenseTransactions/AddExpenseModal.js:67 | The validator passes exactly when the description is non-blank, the amount positive, and category and date set |
| AddExpenseModal.Submit | src/components/ExpenseTransactions/AddExpenseModal.js:71-86 | An expense is built exactly when the form is valid, with trimmed description and notes, the amount as a number and status "pending" |
| AddExpenseModal.SubmittedIsNormalised | src/components/ExpenseTransactions/AddExpenseModal.js:75-84 | The built description is non-empty and trim-stable, the notes trim-stable and the amount positive |
| EmployeeManagement.UsageColor | src/components/EmployeeManagement/EmployeeManagement.js:34-40 | Grey with 0 exactly for a zero budget; never above 100; red with exactly 100 from 100 per cent, amber from 75 below 100, indigo below 75, both with the percentage |
| EmployeeManagement.UsageThresholds | src/components/EmployeeManagement/EmployeeManagement.js:36-39 | With a positive budget: red exactly when spent ≥ budget, amber exactly from three quarters up to the budget, indigo below three quarters |
| EmployeeManagement.UsageMonotone | src/components/EmployeeManagement/EmployeeManagement.js:36-39 | Spending more never makes the bar colour less severe |
| EmployeeManagement.Remaining | src/components/EmployeeManagement/EmployeeManagement.js:125 | The figure is at most 0, and so shown in red, exactly when spent has reached the budget; it is positive, and green, exactly when spent is below it |
| EmployeeManagement.RemainingMonotone | src/components/EmployeeManagement/EmployeeManagement.js:86 | Spending more leaves less remaining, by exactly the extra amount |
| EmployeeManagement.RemainingRedIffBarRed | src/components/EmployeeManagement/EmployeeManagement.js:86-125 | With a positive budget the remaining figure is red exactly when the bar is |
| EmployeeManagement.Initials | src/components/EmployeeManagement/EmployeeManagement.js:43-50 | At most two characters, the upper-cased first characters of the space-separated words in order, with no lower-case letter |
| EmployeeManagement.InitialsOfFullName | src/components/EmployeeManagement/EmployeeManagement.js:43-50 | A first and last name give the two upper-cased initials |
| EmployeeManagement.WordStartsOfWord | src/components/EmployeeManagement/EmployeeManagement.js:45-46 | A word without spaces contributes its first character only |
| EmployeeManagement.AddToList | src/components/EmployeeManagement/EmployeeManagement.js:29-31 | The new card goes at the end and the others stay as they were, in order |
| ActivityLog.DiffSeconds | src/components/ActivityLog/ActivityLog.js:42 | The floor of the millisecond difference over 1000, for negative differences too |
| ActivityLog.FormatTimeAgo | src/components/ActivityLog/ActivityLog.js:39-50 | "Just now" exactly below 60 s, negative included; minutes 1..59 below an hour, hours 1..23 below a day, days 1..6 below a week, each the floor of the quotient; the calendar date from a week |
| ActivityLog.FormatMonotone | src/components/ActivityLog/ActivityLog.js:44-49 | An older entry never gets a younger-sounding label |
| ActivityLog.Recent | src/components/ActivityLog/ActivityLog.js:115 | At most the first ten entries, in their order, and all of them when there are ten or fewer |
| BudgetRequestsPanel.PendingOnly | src/components/BudgetRequests/BudgetRequests.js:27 | Exactly the pending rows of the response |
| BudgetRequestsPanel.PendingOnlyAppend | src/components/BudgetRequests/BudgetRequests.js:27 | The pending rows stay in the response's order |
| BudgetRequestsPanel.PendingFirstKeepsPrefix | src/components/BudgetRequests/BudgetRequests.js:27 | On a list ordered pending first, the kept rows are its leading rows |
| BudgetRequestsPanel.PanelShowsListHead | src/components/BudgetRequests/BudgetRequests.js:27 | On the Employer's request list the panel shows exactly the leading pending rows |
| BudgetRequestsPanel.RemoveId | src/components/BudgetRequests/BudgetRequests.js:55 | Exactly the rows with another id |
| BudgetRequestsPanel.RemoveIdAppend | src/components/BudgetRequests/BudgetRequests.js:55 | The other rows stay in order |
| BudgetRequestsPanel.RemoveAbsentId | src/components/BudgetRequests/BudgetRequests.js:55 | Removing an id not on the list changes nothing |
| BudgetRequestsPanel.OnReply | src/components/BudgetRequests/BudgetRequests.js:54-57 | An ok reply removes exactly the acted-on id; any other reply leaves the list unchanged |
| BudgetRequestsPanel.LastReviewHides | src/components/BudgetRequests/BudgetRequests.js:84-86 | Reviewing the only pending request hides the section |
| BudgetRequestsPanel.RequestBody | src/components/BudgetRequests/BudgetRequests.js:40-43 | The body carries the status, and an approved amount exactly when a custom amount is given |
| BudgetRequestsPanel.ApproveButtonCreditsRequested | src/components/BudgetRequests/BudgetRequests.js:134 | The Approve button sends no amount, so the owner is credited exactly the requested amount |
| BudgetRequestsPanel.RejectButtonKeepsBudgets | src/components/BudgetRequests/BudgetRequests.js:144 | The Reject button leaves every budget as it was |
| BudgetRequestsPanel.TimeAgo | src/components/BudgetRequests/BudgetRequests.js:65-74 | Seconds, minutes and hours as in the activity panel, and days from a day on with no upper bucket |
| BudgetRequestsPanel.TimeAgoAgreesBelowWeek | src/components/BudgetRequests/BudgetRequests.js:70-73 | The two panels agree below a week; from a week on this one still counts days, seven or more |
| BudgetRequestsPanel.Avatar | src/components/BudgetRequests/BudgetRequests.js:111 | "?" without a name; otherwise the upper-cased first character of every word, or "?" when that is empty |
| Text.Trim | src/components/EmployeeManagement/AddEmployeeModal.js:54 | The string with a blank prefix and a blank suffix cut off, leaving no whitespace at either end; empty exactly when the string is all whitespace |
| Text.TrimIdempotent | src/components/ExpenseTransactions/AddExpenseModal.js:77 | Trimming twice is trimming once |
| Text.ToLower | backend/routes/employees.js:55 | Same length, no upper-case letter, each capital replaced by its small letter, other characters kept |
| Text.LowerChar | backend/routes/employees.js:55 | A capital ASCII letter becomes the small letter 32 code points on; any other character is kept |
| Text.UpperChar | src/components/EmployeeManagement/EmployeeManagement.js:48 | A small ASCII letter becomes the capital 32 code points back, which lowers to it again; any other character is kept |
| Text.LowerCharEqual | backend/routes/employees.js:55 | Two characters lower alike exactly when they are the same letter in either case |
| Text.ToLowerEqual | backend/routes/employees.js:55 | Two strings lower alike exactly when they differ only in the case of ASCII letters |
| Text.Utf16Length | src/components/EmployeeManagement/AddEmployeeModal.js:65 | The `.length` of a string: between its character count and twice that, zero exactly for the empty string, and the character count when every character is in the Basic Multilingual Plane |
| Text.Utf16LengthOfAstral | src/components/EmployeeManagement/AddEmployeeModal.js:65 | Three characters above U+FFFF have length 6 |
| Text.ToLowerIdempotent | backend/routes/employees.js:67 | Lower-casing a stored e-mail again changes nothing |
| Text.HeadsOfSplit | src/components/EmployeeManagement/EmployeeManagement.js:44-47 | The first characters of the words of `split(' ')` are the characters that follow a space or the start |
| Text.JoinSplit | src/components/EmployeeManagement/EmployeeManagement.js:45 | Joining the words of `split(' ')` with spaces gives the string back |
| Listing.KeepOrder | backend/routes/expenses.js:24 | Newest-first selection from a table with ascending ids descends |
| Listing.FilterAppend | src/components/BudgetRequests/BudgetRequests.js:27 | Filtering splits over concatenation |

## Left out

- Concurrency: each handler is one atomic transition. In the code the check
  and the writes that follow it are separate queries, so the invariants are
  proved only for requests executed one at a time.
- SQL, the connection pool, Express routing and HTTP status codes: tables are
  maps and sequences, and the 4xx responses are the `Error` datatype. A 500
  reply from a failing query is not modelled.
- Authentication: signing and checking the token and password hashing are
  not modelled. The caller is a `Caller` value. The Employer-only gate is the
  `Forbidden` error, and the password is checked only for presence.
- Partial failure: an activity-log insert that fails after the main update
  would leave that update in place. The model takes the log append as
  always succeeding.
- Floating point: money is `real`. `parseFloat` and `toLocaleString`
  formatting, and the rounding of the percentage, are not modelled.
- JavaScript coercion: `Number` and `isNaN` on form inputs are the parsed
  value of a `NumField`. A body number is an `Option<real>`, and a budget sent
  as a string is taken as its number.
- Clock and locale: `Date.now()` and `new Date()` become parameters; a label
  is the bucket and its number, not the rendered text. The calendar date
  shown after a week is a constructor with no text.
- Text.LowerChar: lowers ASCII capitals only, where JavaScript's
  `toLowerCase` maps all of Unicode.
- Text.UpperChar: raises ASCII small letters only, where JavaScript's
  `toUpperCase` maps all of Unicode.
- E-mail collation: the database's case-insensitive collation for the
  e-mail lookup is not modelled. The lookup compares the stored,
  lower-cased addresses exactly.
- Timestamps and `reviewed_at` are not stored. Ordering by creation time is
  ordering by id.
- Deletion cascades: deleting a user removes only the users row. Any
  cascade the database schema defines is not modelled; the schema is not
  part of this model. The joins of the list routes and of the review lookup
  skip the rows of a deleted owner, as modelled.
- The activity route (a plain select of the latest 50 entries), the login
  and current-user routes, and the server setup.
- React state, `fetch`, `localStorage`, loading flags and rendering. The
  placeholder dashboards, the navigation bar, the login form and the thin
  modals (insufficient balance, request budget, add budget) are left out.
- Text.ToLower: lowers ASCII letters only, a weaker mapping than JavaScript's
  Unicode `toLowerCase`.
- EmployeeManagement.Initials: takes the first character of each word,
  where JavaScript's `word[0]` takes the first UTF-16 code unit. For a word
  that starts above U+FFFF that is half a surrogate pair, and
  `slice(0, 2)` then counts code units. The model does not split
  characters into code units, so it is not faithful for such names.
- BudgetRequestsPanel.Avatar: takes the first character of each word, where
  JavaScript's `n[0]` takes the first UTF-16 code unit, for the same reason
  as Initials.
- AddEmployeeModal.SubmitPassesServerCheck: holds only for a finite budget.
  A field such as "Infinity" or "1e999" passes the form's checks, but
  `Number` makes it infinite and the JSON body then carries `null`. The
  route would refuse that body as missing fields. The lemma also does not
  connect the form to the route: the employee list hands the submitted
  body to a local list update (EmployeeManagement.js:29-31 and 153), not
  to the add-employee route.
- FormInput.NumberError: a numeric field parses to a finite number or to
  nothing. The infinite values that `Number` and `parseFloat` produce for
  "Infinity" or "1e999" are not modelled. Such a field passes both forms'
  checks.
