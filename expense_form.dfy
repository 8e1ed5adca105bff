/**
 * `validateForm` of the expense form: before an expense is submitted, every field is examined and the
 * message for each field that is wrong is collected in a map; the form is submitted only when the map is
 * empty. All fields are held as the text of their inputs. The map holds each message as a `Message`
 * value; `Text` renders it as the string the form shows.
 */
module ExpenseForm {
  import opened Wrappers
  import opened Strings
  import opened Values
  import opened JsNumbers
  import Validation

  datatype FormData = FormData(amount: string, description: string, date: string, categoryId: string, notes: string)

  datatype FormField = Amount | Description | Date | CategoryId | Notes

  /** The rules of the amount chain, in check order. */
  datatype AmountRule = Missing | NotANumber | NotPositive | TooLarge | TooPrecise

  datatype Message =
    | AmountMessage(rule: AmountRule)
    | DescriptionRequired
    | DescriptionTooLong(length: nat)
    | NotesTooLong(length: nat)
    | DateRequired
    | CategoryRequired

  /** The text of each message; the over-long messages quote the length against the limit. */
  function Text(m: Message): string {
    match m
    case AmountMessage(Missing) => "Amount is required"
    case AmountMessage(NotANumber) => "Amount must be a valid number"
    case AmountMessage(NotPositive) => "Amount must be greater than 0"
    case AmountMessage(TooLarge) => "Amount cannot exceed 99,999,999.99"
    case AmountMessage(TooPrecise) => "Amount can have maximum 2 decimal places"
    case DescriptionRequired => "Description is required"
    case DescriptionTooLong(n) => "Description cannot exceed 255 characters (" + NatToDigits(n) + "/255)"
    case NotesTooLong(n) => "Notes cannot exceed 1000 characters (" + NatToDigits(n) + "/1000)"
    case DateRequired => "Date is required"
    case CategoryRequired => "Please select a category"
  }

  /**
   * The first rule the amount text breaks: given, a number as a whole (`isNaN`, which reads the text with
   * `Number`), above zero and below 100,000,000 (read with `parseFloat`; a NaN compares false), at most
   * two decimals.
   */
  function AmountBroken(amount: string): Option<AmountRule> {
    if amount == "" then Some(Missing)
    else if ToNumber(amount).None? then Some(NotANumber)
    else if ParseFloat(amount).Some? && ParseFloat(amount).value <= 0.0 then Some(NotPositive)
    else if ParseFloat(amount).Some? && ParseFloat(amount).value >= 100000000.0 then Some(TooLarge)
    else if FractionDigits(amount) > 2 then Some(TooPrecise)
    else None
  }

  /** An amount text the form lets through. */
  predicate AmountAcceptable(amount: string) {
    amount != "" && ToNumber(amount).Some? &&
    (ParseFloat(amount).Some? ==> 0.0 < ParseFloat(amount).value < 100000000.0) && FractionDigits(amount) <= 2
  }

  /** Each rule of the amount chain is reported exactly when it fails and every earlier rule passes. */
  lemma AmountChainOrder(amount: string)
    ensures AmountBroken(amount) == Some(Missing) <==> amount == ""
    ensures AmountBroken(amount) == Some(NotANumber) <==> amount != "" && ToNumber(amount).None?
    ensures AmountBroken(amount) == Some(NotPositive) <==>
              amount != "" && ToNumber(amount).Some? && ParseFloat(amount).Some? && ParseFloat(amount).value <= 0.0
    ensures AmountBroken(amount) == Some(TooLarge) <==>
              amount != "" && ToNumber(amount).Some? && ParseFloat(amount).Some? && ParseFloat(amount).value >= 100000000.0
    ensures AmountBroken(amount) == Some(TooPrecise) <==>
              amount != "" && ToNumber(amount).Some? &&
              (ParseFloat(amount).Some? ==> 0.0 < ParseFloat(amount).value < 100000000.0) && FractionDigits(amount) > 2
    ensures AmountBroken(amount).None? <==> AmountAcceptable(amount)
  {
  }

  /** Blank text is missing; otherwise the untrimmed text may have at most 255 characters. */
  function DescriptionProblem(description: string): Option<Message> {
    if Trim(description) == "" then Some(DescriptionRequired)
    else if |description| > 255 then Some(DescriptionTooLong(|description|))
    else None
  }

  /** A description is refused exactly when it is blank or longer than 255 characters; blank is "required". */
  lemma DescriptionMeaning(description: string)
    ensures DescriptionProblem(description).None? <==> !AllSpace(description) && |description| <= 255
    ensures AllSpace(description) ==> DescriptionProblem(description) == Some(DescriptionRequired)
    ensures !AllSpace(description) && |description| > 255 ==>
              DescriptionProblem(description) == Some(DescriptionTooLong(|description|))
  {
  }

  function AmountProblem(amount: string): Option<Message> {
    if AmountBroken(amount).Some? then Some(AmountMessage(AmountBroken(amount).value)) else None
  }

  function NotesProblem(notes: string): Option<Message> {
    if |notes| > 1000 then Some(NotesTooLong(|notes|)) else None
  }

  function DateProblem(date: string): Option<Message> {
    if date == "" then Some(DateRequired) else None
  }

  function CategoryProblem(categoryId: string): Option<Message> {
    if categoryId == "" then Some(CategoryRequired) else None
  }

  /** The message, if any, the form shows for `field`. */
  function Problem(form: FormData, field: FormField): Option<Message> {
    match field
    case Amount => AmountProblem(form.amount)
    case Description => DescriptionProblem(form.description)
    case Notes => NotesProblem(form.notes)
    case Date => DateProblem(form.date)
    case CategoryId => CategoryProblem(form.categoryId)
  }

  /** A form every field of which is acceptable. */
  predicate FormAcceptable(form: FormData) {
    AmountAcceptable(form.amount) && !AllSpace(form.description) && |form.description| <= 255 &&
    |form.notes| <= 1000 && form.date != "" && form.categoryId != ""
  }

  /** The start of `validateForm`: the empty map, then the chain of `formData.amount`. */
  method CheckAmount(amount: string) returns (errors: map<FormField, Message>)
    ensures errors.Keys <= {Amount}
    ensures Amount in errors <==> AmountProblem(amount).Some?
    ensures Amount in errors ==> errors[Amount] == AmountProblem(amount).value
  {
    errors := map[];
    var number := ToNumber(amount);
    var parsed := ParseFloat(amount);
    if amount == "" {
      errors := errors[Amount := AmountMessage(Missing)];
    } else if number.None? {
      errors := errors[Amount := AmountMessage(NotANumber)];
    } else if parsed.Some? && parsed.value <= 0.0 {
      errors := errors[Amount := AmountMessage(NotPositive)];
    } else if parsed.Some? && parsed.value >= 100000000.0 {
      errors := errors[Amount := AmountMessage(TooLarge)];
    } else {
      var decimals := FractionDigits(amount);
      if decimals > 2 {
        errors := errors[Amount := AmountMessage(TooPrecise)];
      }
    }
  }

  /** The rest of `validateForm`: the entries for the description, the notes, the date and the category. */
  method CheckOthers(errors: map<FormField, Message>, description: string, notes: string, date: string,
                     categoryId: string) returns (updated: map<FormField, Message>)
    requires errors.Keys <= {Amount}
    ensures Amount in updated <==> Amount in errors
    ensures Amount in errors ==> updated[Amount] == errors[Amount]
    ensures Description in updated <==> DescriptionProblem(description).Some?
    ensures Description in updated ==> updated[Description] == DescriptionProblem(description).value
    ensures Notes in updated <==> NotesProblem(notes).Some?
    ensures Notes in updated ==> updated[Notes] == NotesProblem(notes).value
    ensures Date in updated <==> DateProblem(date).Some?
    ensures Date in updated ==> updated[Date] == DateProblem(date).value
    ensures CategoryId in updated <==> CategoryProblem(categoryId).Some?
    ensures CategoryId in updated ==> updated[CategoryId] == CategoryProblem(categoryId).value
  {
    updated := errors;
    if Trim(description) == "" {
      updated := updated[Description := DescriptionRequired];
    } else if |description| > 255 {
      updated := updated[Description := DescriptionTooLong(|description|)];
    }
    if notes != "" && |notes| > 1000 {
      updated := updated[Notes := NotesTooLong(|notes|)];
    }
    if date == "" {
      updated := updated[Date := DateRequired];
    }
    if categoryId == "" {
      updated := updated[CategoryId := CategoryRequired];
    }
  }

  /** The amount gets no message exactly when the form lets it through. */
  lemma AmountProblemMeaning(amount: string)
    ensures AmountProblem(amount).None? <==> AmountAcceptable(amount)
  {
    AmountChainOrder(amount);
  }

  /** A form is acceptable exactly when no field gets a message. */
  lemma FieldsAcceptable(form: FormData)
    ensures FormAcceptable(form) <==>
              AmountProblem(form.amount).None? && DescriptionProblem(form.description).None? &&
              NotesProblem(form.notes).None? && DateProblem(form.date).None? && CategoryProblem(form.categoryId).None?
  {
    AmountProblemMeaning(form.amount);
    DescriptionMeaning(form.description);
  }

  /**
   * `validateForm`: an entry for exactly the fields that are wrong, each with that field's message, and
   * `valid` exactly when there is none.
   */
  method ValidateForm(form: FormData) returns (valid: bool, errors: map<FormField, Message>)
    ensures forall field :: field in errors <==> Problem(form, field).Some?
    ensures forall field :: field in errors ==> errors[field] == Problem(form, field).value
    ensures valid <==> errors == map[]
    ensures valid <==> FormAcceptable(form)
  {
    errors := CheckAmount(form.amount);
    errors := CheckOthers(errors, form.description, form.notes, form.date, form.categoryId);
    valid := |errors| == 0;
    forall field
      ensures field in errors <==> Problem(form, field).Some?
      ensures field in errors ==> errors[field] == Problem(form, field).value
    {
      match field
      case Amount =>
      case Description =>
      case Notes =>
      case Date =>
      case CategoryId =>
    }
    FieldsAcceptable(form);
    if errors != map[] {
      var field :| field in errors;
      match field
      case Amount =>
      case Description =>
      case Notes =>
      case Date =>
      case CategoryId =>
    } else {
      assert Amount !in errors && Description !in errors && Notes !in errors;
      assert Date !in errors && CategoryId !in errors;
    }
  }

  /**
   * Whitespace is the one amount text the form lets through that does not parse: `Number` reads it as 0,
   * so it is not NaN, and `parseFloat` gives NaN, which fails no comparison.
   */
  lemma BlankAmountPassesForm()
    ensures AmountBroken(" ") == None
    ensures ParseFloat(" ") == None
  {
    assert AllSpace(" ");
    assert ToNumber(" ") == Some(0.0);
    assert SpaceEnd(" ", 1) == 1;
    assert SpaceEnd(" ", 0) == 1;
    assert DigitsEnd(" ", 1) == 1;
    assert ReadParts(" ") == None;
    assert NextDot(" ", 1) == 1;
    assert NextDot(" ", 0) == 1;
  }

  /**
   * An amount the form accepts and that parses is one the server accepts as a required amount, with the
   * value `parseFloat` reads.
   */
  lemma AcceptedAmountPassesServer(amount: string)
    requires AmountAcceptable(amount) && ParseFloat(amount).Some?
    ensures Validation.ValidateAmount(Str(amount), true).Ok?
    ensures Validation.ValidateAmount(Str(amount), true).value == Validation.Value(ParseFloat(amount).value)
  {
  }

  /** A description and notes the form accepts pass the server's checks, trimmed. */
  lemma AcceptedTextPassesServer(form: FormData)
    requires FormAcceptable(form)
    ensures Validation.ValidateDescription(Str(form.description), true) == Ok(Validation.Value(Trim(form.description)))
    ensures Validation.ValidateNotes(Str(form.notes)).Ok?
  {
  }
}
