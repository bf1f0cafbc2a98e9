/** The add-expense form: its validator (one message per failing field)
    and the expense record it builds for the caller. */
module AddExpenseModal {
  import opened Wrappers
  import opened Text
  import opened FormInput

  datatype Form = Form(
    description: string,
    amount: NumField,
    category: string,
    date: string,
    notes: string)

  datatype Field = Description | Amount | Category | Date | Notes

  /** The form as the validator accepts it, field by field. */
  predicate Valid(form: Form) {
    && !IsBlank(form.description)
    && IsPositive(form.amount)
    && form.category != []
    && form.date != []
  }

  function AmountError(amount: NumField): Option<string> {
    NumberError(amount, "Amount is required", "Please enter a valid amount")
  }

  const AllFields: set<Field> := {Description, Amount, Category, Date, Notes}

  /** The message `validateForm` sets for one field, if any. */
  function Message(form: Form, f: Field): Option<string> {
    match f
    case Description => if Trim(form.description) == [] then Some("Description is required") else None
    case Amount => AmountError(form.amount)
    case Category => if form.category == [] then Some("Category is required") else None
    case Date => if form.date == [] then Some("Date is required") else None
    case Notes => None
  }

  /** `validateForm`'s error object: one entry per failing field, holding
      that field's message. The notes are never checked. */
  function Validate(form: Form): (errors: map<Field, string>)
    ensures Notes !in errors
    ensures Description in errors <==> IsBlank(form.description)
    ensures Description in errors ==> errors[Description] == "Description is required"
    ensures Amount in errors <==> !IsPositive(form.amount)
    ensures Amount in errors ==> errors[Amount] == AmountError(form.amount).value
    ensures Category in errors <==> form.category == []
    ensures Category in errors ==> errors[Category] == "Category is required"
    ensures Date in errors <==> form.date == []
    ensures Date in errors ==> errors[Date] == "Date is required"
  {
    map f | f in AllFields && Message(form, f).Some? :: Message(form, f).value
  }

  /** `validateForm` returns true exactly when no field has a message. */
  lemma PassesIffValid(form: Form)
    ensures Validate(form) == map[] <==> Valid(form)
  {
    var errors := Validate(form);
    if Valid(form) {
      forall f: Field
        ensures f !in errors
      {
        match f
        case Description =>
        case Amount =>
        case Category =>
        case Date =>
        case Notes =>
      }
      assert errors == map[];
    } else {
      assert errors != map[] by {
        if !IsBlank(form.description) && IsPositive(form.amount) && form.category != [] {
          assert Date in errors;
        }
      }
    }
  }

  /** The record `handleSubmit` hands to the list. The id and the creation
      time come from the clock and are parameters here. */
  datatype NewExpense = NewExpense(
    id: int,
    description: string,
    amount: real,
    category: string,
    date: string,
    notes: string,
    status: string,
    createdAt: string)

  /** `handleSubmit`: nothing is built unless the form is valid; the record
      has its description and notes trimmed, the amount as a number and the
      status "pending". */
  function Submit(form: Form, stamp: int, now: string): (e: Option<NewExpense>)
    ensures e.Some? <==> Valid(form)
    ensures e.Some? ==>
              && e.value.id == stamp && e.value.createdAt == now
              && e.value.description == Trim(form.description)
              && e.value.amount == form.amount.parsed.value
              && e.value.category == form.category && e.value.date == form.date
              && e.value.notes == Trim(form.notes)
              && e.value.status == "pending"
  {
    PassesIffValid(form);
    if Validate(form) != map[] then None
    else Some(NewExpense(stamp, Trim(form.description), form.amount.parsed.value, form.category,
                         form.date, Trim(form.notes), "pending", now))
  }

  /** A built expense has a non-empty description with no whitespace at
      either end, a positive amount, and notes that trimming again leaves
      as they are. */
  lemma SubmittedIsNormalised(form: Form, stamp: int, now: string)
    requires Valid(form)
    ensures Submit(form, stamp, now).Some?
    ensures var e := Submit(form, stamp, now).value;
            && e.description != [] && Trim(e.description) == e.description
            && Trim(e.notes) == e.notes
            && e.amount > 0.0
  {
    TrimIdempotent(form.description);
    TrimIdempotent(form.notes);
  }
}
