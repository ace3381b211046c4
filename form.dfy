/** The transaction form's submit check: a submission goes through only when
    description, amount, category and date all hold a value (JavaScript
    truthiness); it then becomes a draft with the amount parsed. */
module TransactionForm {
  import opened Transactions

  /** The amount field's state. Typing stores the input's text; opening the
      form on an existing record stores that record's number, which stays a
      number until the field is edited. */
  datatype AmountField = Typed(text: string) | Prefilled(value: real)

  /** The state of the five inputs when the form is submitted. The type
      select always holds one of its two options. */
  datatype FormFields = FormFields(description: string, amount: AmountField, kind: Kind, category: string, date: string)

  /** The one rejection: the "Please fill out all fields." alert. */
  datatype Rejection = MissingField

  /** `!!amount`: the empty text is falsy and so is the number 0. */
  predicate AmountGiven(a: AmountField) {
    match a
    case Typed(text) => text != ""
    case Prefilled(value) => value != 0.0
  }

  /** `parseFloat(amount)`; on a number that is the number itself. The
      parsing of text is the parameter `parseFloat`. */
  function ParsedAmount(a: AmountField, parseFloat: string -> real): real {
    match a
    case Typed(text) => parseFloat(text)
    case Prefilled(value) => value
  }

  /** Every required field holds a value. */
  predicate Complete(f: FormFields) {
    f.description != "" && AmountGiven(f.amount) && f.category != "" && f.date != ""
  }

  /** `handleSubmit`: reject an incomplete form, otherwise hand over the
      draft `{ description, amount: parseFloat(amount), type, category, date }`. */
  function Validate(f: FormFields, parseFloat: string -> real): (r: Result<Draft, Rejection>)
    ensures r.Ok? <==> Complete(f)
    ensures r.Ok? ==> r.value.description != "" && r.value.category != "" && r.value.date != ""
    ensures r.Ok? ==> r.value.description == f.description && r.value.kind == f.kind
                      && r.value.category == f.category && r.value.date == f.date
                      && r.value.amount == ParsedAmount(f.amount, parseFloat)
  {
    if f.description == "" || !AmountGiven(f.amount) || f.category == "" || f.date == "" then
      Err(MissingField)
    else
      Ok(Draft(f.description, ParsedAmount(f.amount, parseFloat), f.kind, f.category, f.date))
  }

  /** Each of the four required fields alone is enough to reject the form;
      the amount is missing as the empty text and as the number 0. */
  lemma RejectsEachEmptyField(f: FormFields, parseFloat: string -> real)
    ensures f.description == "" ==> Validate(f, parseFloat) == Err(MissingField)
    ensures f.amount == Typed("") ==> Validate(f, parseFloat) == Err(MissingField)
    ensures f.amount == Prefilled(0.0) ==> Validate(f, parseFloat) == Err(MissingField)
    ensures f.category == "" ==> Validate(f, parseFloat) == Err(MissingField)
    ensures f.date == "" ==> Validate(f, parseFloat) == Err(MissingField)
  {
  }

  /** A typed "0" is a value and passes, but a record's own amount of 0,
      left untouched while editing, counts as missing. */
  lemma ZeroAmountDependsOnOrigin(description: string, kind: Kind, category: string, date: string, parseFloat: string -> real)
    requires description != "" && category != "" && date != ""
    ensures Validate(FormFields(description, Typed("0"), kind, category, date), parseFloat).Ok?
    ensures Validate(FormFields(description, Prefilled(0.0), kind, category, date), parseFloat) == Err(MissingField)
  {
  }

  /** The converse: a form whose text fields are non-empty and whose amount
      is a non-empty text or a non-zero number is accepted, and the draft
      carries the parsed text or the number itself. */
  lemma AcceptsFilledForm(f: FormFields, parseFloat: string -> real)
    requires f.description != "" && f.category != "" && f.date != ""
    requires match f.amount
             case Typed(text) => text != ""
             case Prefilled(value) => value != 0.0
    ensures Validate(f, parseFloat) ==
      Ok(Draft(f.description,
               match f.amount
               case Typed(text) => parseFloat(text)
               case Prefilled(value) => value,
               f.kind, f.category, f.date))
  {
  }
}
