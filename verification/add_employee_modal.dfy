/** The add-employee form: its validator (one message per failing field)
    and the normalised body it submits. */
module AddEmployeeModal {
  import opened Wrappers
  import opened Text
  import opened FormInput
  import Employees

  datatype Form = Form(
    firstName: string,
    lastName: string,
    email: string,
    password: string,
    title: string,
    department: string,
    phone: string,
    budget: NumField)

  datatype Field = FirstName | LastName | Email | Password | Title | Department | Phone | Budget

  /** `/\S+@\S+\.\S+/.test(email)`: somewhere in the string, a run of
      non-space characters, an `@`, another such run, a `.`, and a third
      run. Only the characters next to the `@` and after the `.` need
      checking at the outer ends, since a run of one suffices there. */
  predicate LooksLikeEmail(email: string) {
    exists at: nat, dot: nat :: at < |email| && dot < |email| && MatchesAt(email, at, dot)
  }

  /** The pattern matches with its `@` at `at` and its `.` at `dot`. */
  predicate MatchesAt(email: string, at: nat, dot: nat) {
    0 < at && at + 1 < dot && dot + 1 < |email| && EmailMatchAt(email, at, dot)
  }

  predicate EmailMatchAt(email: string, at: nat, dot: nat)
    requires 0 < at && at + 1 < dot && dot + 1 < |email|
  {
    && email[at] == '@' && email[dot] == '.'
    && !IsSpace(email[at - 1]) && !IsSpace(email[dot + 1])
    && (forall k :: at < k < dot ==> !IsSpace(email[k]))
  }

  /** The form as the validator accepts it, field by field. */
  predicate Valid(form: Form) {
    && !IsBlank(form.firstName) && !IsBlank(form.lastName) && !IsBlank(form.title)
    && !IsBlank(form.email) && LooksLikeEmail(form.email)
    && Utf16Length(form.password) >= 6
    && form.department != []
    && IsPositive(form.budget)
  }

  function EmailError(email: string): (m: Option<string>)
    ensures m == Some("Email is required") <==> IsBlank(email)
    ensures m == Some("Please enter a valid email") <==> !IsBlank(email) && !LooksLikeEmail(email)
    ensures m.None? <==> !IsBlank(email) && LooksLikeEmail(email)
  {
    if Trim(email) == [] then Some("Email is required")
    else if !LooksLikeEmail(email) then Some("Please enter a valid email")
    else None
  }

  /** The password's length is JavaScript's `.length`, in UTF-16 code units. */
  function PasswordError(password: string): (m: Option<string>)
    ensures m == Some("Password is required") <==> password == []
    ensures m == Some("Password must be at least 6 characters") <==> 1 <= Utf16Length(password) < 6
    ensures m.None? <==> Utf16Length(password) >= 6
  {
    if password == [] then Some("Password is required")
    else if Utf16Length(password) < 6 then Some("Password must be at least 6 characters")
    else None
  }

  /** Three emoji are six code units, so they pass the six-character rule. */
  lemma ThreeEmojiPassword()
    ensures PasswordError("\U{1F600}\U{1F600}\U{1F600}").None?
  {
  }

  function BudgetError(budget: NumField): Option<string> {
    NumberError(budget, "Budget is required", "Please enter a valid budget amount")
  }

  const AllFields: set<Field> := {FirstName, LastName, Email, Password, Title, Department, Phone, Budget}

  /** The message `validateForm` sets for one field, if any. */
  function Message(form: Form, f: Field): Option<string> {
    match f
    case FirstName => if Trim(form.firstName) == [] then Some("First name is required") else None
    case LastName => if Trim(form.lastName) == [] then Some("Last name is required") else None
    case Email => EmailError(form.email)
    case Password => PasswordError(form.password)
    case Title => if Trim(form.title) == [] then Some("Job title is required") else None
    case Department => if form.department == [] then Some("Department is required") else None
    case Phone => None
    case Budget => BudgetError(form.budget)
  }

  /** `validateForm`'s error object: one entry per failing field, holding
      that field's message. The phone is never checked. */
  function Validate(form: Form): (errors: map<Field, string>)
    ensures Phone !in errors
    ensures FirstName in errors <==> IsBlank(form.firstName)
    ensures LastName in errors <==> IsBlank(form.lastName)
    ensures Title in errors <==> IsBlank(form.title)
    ensures Department in errors <==> form.department == []
    ensures Email in errors <==> IsBlank(form.email) || !LooksLikeEmail(form.email)
    ensures Email in errors ==> errors[Email] == EmailError(form.email).value
    ensures Password in errors <==> Utf16Length(form.password) < 6
    ensures Password in errors ==> errors[Password] == PasswordError(form.password).value
    ensures Budget in errors <==> !IsPositive(form.budget)
    ensures Budget in errors ==> errors[Budget] == BudgetError(form.budget).value
  {
    map f | f in AllFields && Message(form, f).Some? :: Message(form, f).value
  }

  /** `validateForm` returns true exactly when no field has a message. */
  lemma PassesIffValid(form: Form)
    ensures Validate(form) == map[] <==> Valid(form)
  {
    var errors := Validate(form);
    if Valid(form) {
      forall f: Field
        ensures f !in errors
      {
        match f
        case FirstName =>
        case LastName =>
        case Email =>
        case Password =>
        case Title =>
        case Department =>
        case Phone =>
        case Budget =>
      }
      assert errors == map[];
    } else {
      assert errors != map[] by {
        if !IsBlank(form.firstName) && !IsBlank(form.lastName) && !IsBlank(form.title)
           && form.department != [] && Utf16Length(form.password) >= 6 && IsPositive(form.budget) {
          assert Email in errors;
        }
      }
    }
  }

  /** `handleSubmit`: nothing is sent unless the form is valid; the body has
      its text fields trimmed (department and password as entered), the
      e-mail trimmed and lowered, and the budget as a number. */
  function Submit(form: Form): (body: Option<Employees.EmployeeInput>)
    ensures body.Some? <==> Valid(form)
    ensures body.Some? ==>
              && body.value.firstName == Trim(form.firstName) && body.value.lastName == Trim(form.lastName)
              && body.value.email == ToLower(Trim(form.email)) && body.value.password == form.password
              && body.value.title == Trim(form.title) && body.value.department == form.department
              && body.value.phone == Trim(form.phone)
              && body.value.budget == form.budget.parsed
  {
    PassesIffValid(form);
    if Validate(form) != map[] then None
    else Some(Employees.EmployeeInput(
      Trim(form.firstName), Trim(form.lastName), ToLower(Trim(form.email)), form.password,
      Trim(form.title), form.department, Trim(form.phone), form.budget.parsed))
  }

  /** A body built from a valid form, whose budget parses to a finite
      number, would pass the add-employee route's required-field check. */
  lemma SubmitPassesServerCheck(form: Form)
    requires Valid(form)
    ensures Submit(form).Some? && Employees.RequiredPresent(Submit(form).value)
  {
  }

  /** A match survives dropping leading whitespace: the character before
      the `@` is not a space, so the dropped prefix ends before it. */
  lemma MatchAfterDrop(s: string, t: string, at: nat, dot: nat) returns (at': nat, dot': nat)
    requires MatchesAt(s, at, dot)
    requires |t| <= |s| && t == s[|s| - |t|..]
    requires forall i :: 0 <= i < |s| - |t| ==> IsSpace(s[i])
    ensures MatchesAt(t, at', dot')
  {
    var d := |s| - |t|;
    assert d < at by {
      assert !IsSpace(s[at - 1]);
    }
    forall k | at - d < k < dot - d
      ensures !IsSpace(t[k])
    {
      assert t[k] == s[k + d];
    }
    assert t[at - d - 1] == s[at - 1];
    assert t[dot - d + 1] == s[dot + 1];
    at', dot' := at - d, dot - d;
  }

  /** A match survives dropping trailing whitespace: the character after
      the `.` is not a space, so the dropped suffix starts after it. */
  lemma MatchBeforeCut(s: string, t: string, at: nat, dot: nat)
    requires MatchesAt(s, at, dot)
    requires |t| <= |s| && t == s[..|t|]
    requires forall i :: |t| <= i < |s| ==> IsSpace(s[i])
    ensures MatchesAt(t, at, dot)
  {
    assert dot + 1 < |t| by {
      assert !IsSpace(s[dot + 1]);
    }
  }

  /** Lowering keeps a match in place. */
  lemma MatchLowered(s: string, at: nat, dot: nat)
    requires MatchesAt(s, at, dot)
    ensures MatchesAt(ToLower(s), at, dot)
  {
  }

  /** Trimming and lowering keep a given match, shifted by the number of
      leading spaces trimmed. */
  lemma TrimLowerKeepsMatchAt(email: string, at: nat, dot: nat) returns (at': nat, dot': nat)
    requires MatchesAt(email, at, dot)
    ensures MatchesAt(ToLower(Trim(email)), at', dot')
  {
    var t := TrimStart(email);
    at', dot' := MatchAfterDrop(email, t, at, dot);
    MatchBeforeCut(t, TrimEnd(t), at', dot');
    assert Trim(email) == TrimEnd(t);
    MatchLowered(TrimEnd(t), at', dot');
  }

  /** Trimming and lowering keep a match of the e-mail pattern. */
  lemma TrimLowerKeepsMatch(email: string)
    requires LooksLikeEmail(email)
    ensures LooksLikeEmail(ToLower(Trim(email)))
  {
    var at: nat, dot: nat :| at < |email| && dot < |email| && MatchesAt(email, at, dot);
    var at', dot' := TrimLowerKeepsMatchAt(email, at, dot);
    assert at' < |ToLower(Trim(email))| && dot' < |ToLower(Trim(email))|;
  }

  /** The submitted address still looks like an e-mail. */
  lemma SubmittedEmailLooksLikeEmail(form: Form)
    requires Valid(form)
    ensures Submit(form).Some? && LooksLikeEmail(Submit(form).value.email)
  {
    TrimLowerKeepsMatch(form.email);
  }
}
