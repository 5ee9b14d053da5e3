/** The add-transaction form of src/components/AddTransaction.tsx: its
    validator, which fills an error dictionary field by field, and the submit
    handler, which adds a transaction to the store only when the form is
    valid. What `parseFloat` makes of the amount text is passed in. */
module AddTransactionForm {
  import opened Seqs
  import opened Text
  import opened Dates
  import opened Types
  import opened Store

  /** The form state. The date is the calendar day the date input denotes. */
  datatype FormData = FormData(amount: string, kind: TxType, category: string,
                               description: string, date: CalendarDate, paymentMethod: string)

  /** The keys of the error dictionary. */
  datatype Field = AmountField | DescriptionField | CategoryField | PaymentMethodField

  function Message(f: Field): string
  {
    match f
    case AmountField => "Please enter a valid amount"
    case DescriptionField => "Description is required"
    case CategoryField => "Please select a category"
    case PaymentMethodField => "Please select a payment method"
  }

  /** The form as first shown: empty amount, an expense in the first
      category, empty description, today's date, paid in cash. */
  function InitialForm(cs: seq<Category>, today: CalendarDate): FormData
    requires |cs| > 0
  {
    FormData("", Expense, cs[0].id, "", today, "cash")
  }

  /** The amount check as written: empty text, or a parsed value at most 0.
      NaN compares false with 0, so unparsable text is not rejected. */
  predicate AmountRejected(amount: string, parsed: Parsed)
  {
    amount == "" || (parsed.Num? && parsed.value <= 0)
  }

  /** The set of fields whose check failed, one flag per check. */
  function Failed(amount: bool, description: bool, category: bool, paymentMethod: bool): (r: set<Field>)
    ensures AmountField in r <==> amount
    ensures DescriptionField in r <==> description
    ensures CategoryField in r <==> category
    ensures PaymentMethodField in r <==> paymentMethod
  {
    (if amount then {AmountField} else {}) +
    (if description then {DescriptionField} else {}) +
    (if category then {CategoryField} else {}) +
    (if paymentMethod then {PaymentMethodField} else {})
  }

  /** The fields `validateForm` reports. */
  function ErrorFields(form: FormData, parsed: Parsed): set<Field>
  {
    Failed(AmountRejected(form.amount, parsed), Trim(form.description) == "",
           form.category == "", form.paymentMethod == "")
  }

  /** Each field is checked on its own: a field is reported exactly when its
      own condition fails, and a description counts as missing when it is
      nothing but white space. */
  lemma ErrorFieldsSpec(form: FormData, parsed: Parsed)
    ensures AmountField in ErrorFields(form, parsed) <==>
            form.amount == "" || (parsed.Num? && parsed.value <= 0)
    ensures DescriptionField in ErrorFields(form, parsed) <==>
            forall i :: 0 <= i < |form.description| ==> IsWhiteSpace(form.description[i])
    ensures CategoryField in ErrorFields(form, parsed) <==> form.category == ""
    ensures PaymentMethodField in ErrorFields(form, parsed) <==> form.paymentMethod == ""
  {
    TrimEmptyIffBlank(form.description);
  }

  /** `validateForm`: builds the error dictionary one check at a time; the
      form is valid when no key was set. */
  method ValidateForm(form: FormData, parsed: Parsed) returns (errors: map<Field, string>, valid: bool)
    ensures forall f :: f in errors <==> f in ErrorFields(form, parsed)
    ensures forall f :: f in errors ==> errors[f] == Message(f)
    ensures valid <==> errors == map[]
  {
    var blank := Trim(form.description) == "";
    ghost var expected := ErrorFields(form, parsed);
    assert AmountField in expected <==> AmountRejected(form.amount, parsed);
    assert DescriptionField in expected <==> blank;
    assert CategoryField in expected <==> form.category == "";
    assert PaymentMethodField in expected <==> form.paymentMethod == "";
    errors := map[];
    if AmountRejected(form.amount, parsed) {
      errors := errors[AmountField := Message(AmountField)];
    }
    if blank {
      errors := errors[DescriptionField := Message(DescriptionField)];
    }
    if form.category == "" {
      errors := errors[CategoryField := Message(CategoryField)];
    }
    if form.paymentMethod == "" {
      errors := errors[PaymentMethodField := Message(PaymentMethodField)];
    }
    valid := errors == map[];
  }

  /** A fresh form reports exactly the amount and the description. */
  lemma InitialFormErrors(cs: seq<Category>, today: CalendarDate)
    requires |cs| > 0 && cs[0].id != ""
    ensures ErrorFields(InitialForm(cs, today), NaN) == {AmountField, DescriptionField}
  {
    assert Trim("") == "";
  }

  /** As written, any amount text that does not parse passes validation once
      the other fields are filled in. */
  lemma NaNAmountPasses(form: FormData)
    requires form.amount != "" && form.category != "" && form.paymentMethod != ""
    requires exists i :: 0 <= i < |form.description| && !IsWhiteSpace(form.description[i])
    ensures ErrorFields(form, NaN) == {}
  {
    ErrorFieldsSpec(form, NaN);
  }

  /** The amount text "abc" is accepted. */
  lemma NaNAmountExample(today: CalendarDate)
    ensures ErrorFields(FormData("abc", Expense, "1", "Lunch", today, "cash"), NaN) == {}
  {
    assert !IsWhiteSpace("Lunch"[0]);
    NaNAmountPasses(FormData("abc", Expense, "1", "Lunch", today, "cash"));
  }

  /** The intended amount check: the text must parse to a positive number. */
  function ErrorFieldsStrict(form: FormData, parsed: Parsed): set<Field>
  {
    ErrorFields(form, parsed) + (if parsed.NaN? then {AmountField} else {})
  }

  /** The strict check adds a report only for NaN, and a form that passes it
      has a positive amount, a description and a category. */
  lemma ErrorFieldsStrictSpec(form: FormData, parsed: Parsed)
    ensures parsed.Num? ==> ErrorFieldsStrict(form, parsed) == ErrorFields(form, parsed)
    ensures AmountField in ErrorFieldsStrict(form, parsed) <==>
            form.amount == "" || parsed.NaN? || parsed.value <= 0
    ensures ErrorFieldsStrict(form, parsed) == {} ==>
            parsed.Num? && parsed.value > 0 && Trim(form.description) != "" && form.category != ""
  {
  }

  /** `validateForm` with the NaN case closed. */
  method ValidateFormStrict(form: FormData, parsed: Parsed) returns (errors: map<Field, string>, valid: bool)
    ensures forall f :: f in errors <==> f in ErrorFieldsStrict(form, parsed)
    ensures forall f :: f in errors ==> errors[f] == Message(f)
    ensures valid <==> errors == map[]
  {
    errors, valid := ValidateForm(form, parsed);
    if parsed.NaN? {
      errors := errors[AmountField := Message(AmountField)];
      valid := false;
    }
  }

  /** The transaction a valid form submits: the form fields with the parsed
      amount and no recurrence fields. The spread also carries the payment
      method into the record; that field is not modelled. */
  function Submitted(form: FormData, amount: int): Transaction
  {
    Transaction("", amount, form.kind, form.category, form.description, form.date, None, None, None)
  }

  /** `handleSubmit`: adds the transaction when the form passes the corrected
      amount check and leaves the store alone otherwise. */
  method Submit(store: ExpenseStore, form: FormData, parsed: Parsed, id: string) returns (valid: bool)
    requires id !in TransactionIds(store.transactions)
    modifies store
    ensures valid <==> ErrorFieldsStrict(form, parsed) == {}
    ensures valid ==> parsed.Num? && parsed.value > 0 &&
                      store.transactions == old(store.transactions) + [Stamp(Submitted(form, parsed.value), id)]
    ensures !valid ==> store.transactions == old(store.transactions)
    ensures store.categories == old(store.categories) && store.budgets == old(store.budgets)
    ensures store.theme == old(store.theme)
    ensures old(store.Valid()) ==> store.Valid()
  {
    var errors;
    errors, valid := ValidateFormStrict(form, parsed);
    ErrorFieldsStrictSpec(form, parsed);
    if valid {
      store.AddTransaction(Submitted(form, parsed.value), id);
    }
  }

  /** A submitted transaction is stored with the fresh id and the form's
      fields, and is not recurring, so the sweep never copies it. */
  lemma SubmittedIsPlain(form: FormData, amount: int, id: string, today: CalendarDate)
    ensures var t := Stamp(Submitted(form, amount), id);
      t.id == id && t.amount == amount && t.kind == form.kind && t.category == form.category &&
      t.description == form.description && t.date == form.date && !IsDue(t, today)
  {
  }
}
