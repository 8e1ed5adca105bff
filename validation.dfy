/**
 * The transaction field validators. Each returns a value, `Unset` (the field was not supplied,
 * JavaScript's `undefined`), or for notes `Cleared` (an explicit `null`), or fails on the first broken rule.
 */
module Validation {
  import opened Wrappers
  import opened Strings
  import opened JsNumbers
  import opened Values
  import opened Errors
  import opened Database

  datatype Validated<+T> = Unset | Cleared | Value(value: T)

  /** The three rules an amount's text must meet for its parsed value to be accepted. */
  predicate AmountTextAccepted(t: string) {
    ParseFloat(t).Some? && 0.0 < ParseFloat(t).value < 100000000.0 && FractionDigits(t) <= 2
  }

  function ValidateAmount(amount: Raw, isRequired: bool): (r: Outcome<Validated<real>>)
    ensures isRequired && !Truthy(amount) ==> r == Err(Validation("Amount is required"))
    ensures !isRequired && IsNullish(amount) ==> r == Ok(Unset)
    ensures r.Ok? ==> !r.value.Cleared? && (r.value.Unset? <==> !isRequired && IsNullish(amount))
    ensures r.Ok? && r.value.Value? <==>
              !IsNullish(amount) && (isRequired ==> Truthy(amount)) && AmountTextAccepted(Text(amount))
    ensures r.Ok? && r.value.Value? ==>
              !IsNullish(amount) && r.value.value == ParseFloat(Text(amount)).value && IsHundredths(r.value.value)
    ensures r.Err? ==> r.error.cls == ValidationError
  {
    if isRequired && !Truthy(amount) then Err(Validation("Amount is required"))
    else if IsNullish(amount) then Ok(Unset)
    else
      var text := Text(amount);
      var parsed := ParseFloat(text);
      if parsed.None? then Err(Validation("Amount must be a valid number"))
      else if parsed.value <= 0.0 then Err(Validation("Amount must be greater than zero"))
      else if parsed.value >= 100000000.0 then Err(Validation("Amount cannot exceed 99,999,999.99"))
      else if FractionDigits(text) > 2 then Err(Validation("Amount can have maximum 2 decimal places"))
      else
        TwoDigitsAreCents(text);
        Ok(Value(parsed.value))
  }

  function ValidateDescription(description: Raw, isRequired: bool): (r: Outcome<Validated<string>>)
    ensures isRequired && !Truthy(description) ==> r == Err(Validation("Description is required"))
    ensures !isRequired && IsNullish(description) ==> r == Ok(Unset)
    ensures r.Ok? ==> !r.value.Cleared? && (r.value.Unset? <==> !isRequired && IsNullish(description))
    ensures r.Ok? && r.value.Value? <==>
              description.Str? && |description.s| <= 255 && (isRequired ==> !AllSpace(description.s))
    ensures r.Ok? && r.value.Value? ==> description.Str? && r.value.value == Trim(description.s)
    ensures isRequired && description.Str? && description.s != "" && AllSpace(description.s) ==>
              r == Err(Validation("Description cannot be empty"))
    ensures description.Str? && |description.s| > 255 && (isRequired ==> !AllSpace(description.s)) ==>
              r == Err(Validation("Description cannot exceed 255 characters"))
  {
    if isRequired && !Truthy(description) then Err(Validation("Description is required"))
    else if IsNullish(description) then Ok(Unset)
    else if description.Num? then Err(Plain("TypeError", "description.trim is not a function"))
    else if isRequired && Trim(description.s) == "" then Err(Validation("Description cannot be empty"))
    else if |description.s| > 255 then Err(Validation("Description cannot exceed 255 characters"))
    else Ok(Value(Trim(description.s)))
  }

  /** Notes are optional: absent stays unset, `""` clears them, anything else is kept trimmed. */
  function ValidateNotes(notes: Raw): (r: Outcome<Validated<string>>)
    ensures IsNullish(notes) <==> r == Ok(Unset)
    ensures notes == Str("") || notes == Num("0") ==> r == Ok(Cleared)
    ensures notes.Str? && |notes.s| > 1000 ==> r == Err(Validation("Notes cannot exceed 1000 characters"))
    ensures notes.Str? && notes.s != "" && |notes.s| <= 1000 ==> r == Ok(Value(Trim(notes.s)))
    ensures r.Ok? && r.value.Value? ==> notes.Str? && |r.value.value| <= 1000
  {
    if IsNullish(notes) then Ok(Unset)
    else if notes.Num? then
      if Truthy(notes) then Err(Plain("TypeError", "notes.trim is not a function")) else Ok(Cleared)
    else if notes.s != "" && |notes.s| > 1000 then Err(Validation("Notes cannot exceed 1000 characters"))
    else if notes.s != "" then Ok(Value(Trim(notes.s)))
    else Ok(Cleared)
  }

  /** The message when no category matches: it names the expected type, when there is one. */
  function CategoryNotFoundMessage(categoryType: Option<string>): string {
    if categoryType.Some? && categoryType.value != "" then "Category must be of type \"" + categoryType.value + "\""
    else "Category not found"
  }

  /** `parseInt(categoryId)` for a value that is neither `undefined` nor `null`. */
  function CategoryIdOf(categoryId: Raw): Option<int>
    requires !IsNullish(categoryId)
  {
    ParseInt(Text(categoryId))
  }

  /**
   * A category reference is accepted exactly when a category with that id belongs to the caller and has
   * the expected type; the result is the parsed id. Only `cats` is read.
   */
  function ValidateCategory(categoryId: Raw, userId: int, isRequired: bool, categoryType: Option<string>,
                            cats: seq<Category>): (r: Outcome<Validated<int>>)
    ensures isRequired && !Truthy(categoryId) ==> r == Err(Validation("CategoryId is required"))
    ensures !isRequired && IsNullish(categoryId) ==> r == Ok(Unset)
    ensures r.Ok? ==> !r.value.Cleared? && (r.value.Unset? <==> !isRequired && IsNullish(categoryId))
    ensures r.Ok? && r.value.Value? <==>
              !IsNullish(categoryId) && (isRequired ==> Truthy(categoryId)) && CategoryIdOf(categoryId).Some? &&
              exists c :: c in cats && CategoryMatches(c, CategoryIdOf(categoryId).value, userId, categoryType)
    ensures r.Ok? && r.value.Value? ==> !IsNullish(categoryId) && r.value.value == CategoryIdOf(categoryId).value
    ensures r.Err? && r.error.cls == ValidationError && r.error.message != "CategoryId is required" ==>
              r.error.message == CategoryNotFoundMessage(categoryType)
  {
    if isRequired && !Truthy(categoryId) then Err(Validation("CategoryId is required"))
    else if IsNullish(categoryId) then Ok(Unset)
    else
      var id := CategoryIdOf(categoryId);
      if id.None? then Err(StorageRejected())
      else if FindCategory(cats, id.value, userId, categoryType).None? then
        Err(Validation(CategoryNotFoundMessage(categoryType)))
      else Ok(Value(id.value))
  }

  /** The decimal text of a whole number of cents, with exactly two digits after the dot. */
  function CentsText(c: nat): string {
    NatToDigits(c / 100) + "." + [DigitChar(c / 10 % 10), DigitChar(c % 10)]
  }

  lemma CentsTextValue(c: nat)
    ensures ParseFloat(CentsText(c)).Some? && ParseFloat(CentsText(c)).value == c as real / 100.0
  {
    assert c == 100 * (c / 100) + 10 * (c / 10 % 10) + c % 10;
    DigitsTextValue(c / 100, c / 10 % 10, c % 10);
  }

  lemma CentsTextFraction(c: nat)
    ensures FractionDigits(CentsText(c)) == 2
  {
    FractionDigitsOfDecimal(NatToDigits(c / 100), [DigitChar(c / 10 % 10), DigitChar(c % 10)]);
  }

  /**
   * `String(c / 100)`: the text a JSON number of `c` hundredths arrives as, without trailing zeros
   * after the dot and without the dot when the amount is whole.
   */
  function NumberText(c: nat): string {
    if c % 10 != 0 then CentsText(c)
    else if c / 10 % 10 != 0 then NatToDigits(c / 100) + "." + [DigitChar(c / 10 % 10)]
    else NatToDigits(c / 100)
  }

  /** The number text of `c` hundredths reads back as that amount, with at most two digits after the dot. */
  lemma NumberTextValue(c: nat)
    ensures ParseFloat(NumberText(c)).Some? && ParseFloat(NumberText(c)).value == c as real / 100.0
    ensures FractionDigits(NumberText(c)) <= 2
  {
    if c % 10 != 0 {
      CentsCase(c);
    } else if c / 10 % 10 != 0 {
      TenthsCase(c);
    } else {
      WholeCase(c);
    }
  }

  lemma CentsCase(c: nat)
    requires c % 10 != 0
    ensures ParseFloat(NumberText(c)).Some? && ParseFloat(NumberText(c)).value == c as real / 100.0
    ensures FractionDigits(NumberText(c)) == 2
  {
    CentsTextValue(c);
    CentsTextFraction(c);
  }

  lemma TenthsCase(c: nat)
    requires c % 10 == 0 && c / 10 % 10 != 0
    ensures ParseFloat(NumberText(c)).Some? && ParseFloat(NumberText(c)).value == c as real / 100.0
    ensures FractionDigits(NumberText(c)) == 1
  {
    assert c == 100 * (c / 100) + 10 * (c / 10 % 10) + c % 10;
    TenthsTextValue(c / 100, c / 10 % 10, c);
  }

  lemma WholeCase(c: nat)
    requires c % 10 == 0 && c / 10 % 10 == 0
    ensures ParseFloat(NumberText(c)).Some? && ParseFloat(NumberText(c)).value == c as real / 100.0
    ensures FractionDigits(NumberText(c)) == 0
  {
    assert c == 100 * (c / 100) + 10 * (c / 10 % 10) + c % 10;
    WholeTextValue(c / 100, c);
  }

  lemma WholeTextValue(whole: nat, c: nat)
    requires c == 100 * whole
    ensures ParseFloat(NatToDigits(whole)) == Some(c as real / 100.0)
    ensures FractionDigits(NatToDigits(whole)) == 0
  {
    ParseWhole(NatToDigits(whole));
  }

  lemma TenthsTextValue(whole: nat, tens: nat, c: nat)
    requires tens < 10 && c == 100 * whole + 10 * tens
    ensures ParseFloat(NatToDigits(whole) + "." + [DigitChar(tens)]) == Some(c as real / 100.0)
    ensures FractionDigits(NatToDigits(whole) + "." + [DigitChar(tens)]) == 1
  {
    var fp := [DigitChar(tens)];
    ParseDecimal(NatToDigits(whole), fp);
    assert DigitsValue(fp) == tens by {
      assert fp[..0] == [];
    }
    assert Pow10(1) == 10;
  }

  lemma DigitsTextValue(whole: nat, tens: nat, units: nat)
    requires tens < 10 && units < 10
    ensures ParseFloat(NatToDigits(whole) + "." + [DigitChar(tens), DigitChar(units)]).Some?
    ensures ParseFloat(NatToDigits(whole) + "." + [DigitChar(tens), DigitChar(units)]).value ==
            (100 * whole + 10 * tens + units) as real / 100.0
  {
    var fp := [DigitChar(tens), DigitChar(units)];
    ParseDecimal(NatToDigits(whole), fp);
    CentsValue(whole, tens, units, |NatToDigits(whole)| + 1 + |fp|);
  }

  lemma CentsValue(whole: nat, tens: nat, units: nat, n: nat)
    requires tens < 10 && units < 10
    ensures PartsValue(NumberParts(false, NatToDigits(whole), [DigitChar(tens), DigitChar(units)], n)) ==
            (100 * whole + 10 * tens + units) as real / 100.0
  {
    var fp := [DigitChar(tens), DigitChar(units)];
    assert DigitsValue(fp) == 10 * tens + units by {
      assert fp[..1] == [DigitChar(tens)];
      assert [DigitChar(tens)][..0] == [];
    }
    assert Pow10(2) == 100;
  }

  /** `r` is an accepted amount with exactly the value `v`. */
  predicate AcceptedAs(r: Outcome<Validated<real>>, v: real) {
    r.Ok? && r.value.Value? && r.value.value == v
  }

  /** An amount whose text meets the three rules is accepted with its parsed value. */
  lemma AcceptedAmount(amount: Raw, isRequired: bool, v: real)
    requires amount.Str? || amount.Num?
    requires Truthy(amount) && ParseFloat(Text(amount)).Some? && ParseFloat(Text(amount)).value == v
    requires 0.0 < v < 100000000.0
    requires FractionDigits(Text(amount)) <= 2
    ensures AcceptedAs(ValidateAmount(amount, isRequired), v)
  {
  }

  /** An amount in range with more than two digits after the dot in its text is refused. */
  lemma TooManyDecimals(amount: Raw, isRequired: bool, v: real)
    requires amount.Str? || amount.Num?
    requires Truthy(amount) && ParseFloat(Text(amount)).Some? && ParseFloat(Text(amount)).value == v
    requires 0.0 < v < 100000000.0
    requires FractionDigits(Text(amount)) > 2
    ensures ValidateAmount(amount, isRequired) == Err(Validation("Amount can have maximum 2 decimal places"))
  {
  }

  /**
   * Every amount from 0.01 to 99,999,999.99 is accepted with its exact value, whether it arrives as a
   * string written with two decimals or as a JSON number (whose text has no trailing zeros).
   */
  lemma AmountRoundTrip(c: nat, isRequired: bool)
    requires 0 < c < 10000000000
    ensures AcceptedAs(ValidateAmount(Str(CentsText(c)), isRequired), c as real / 100.0)
    ensures AcceptedAs(ValidateAmount(Num(NumberText(c)), isRequired), c as real / 100.0)
  {
    CentsTextValue(c);
    CentsTextFraction(c);
    NumberTextValue(c);
    AcceptedAmount(Str(CentsText(c)), isRequired, c as real / 100.0);
    AcceptedAmount(Num(NumberText(c)), isRequired, c as real / 100.0);
  }

  /** The value of `<ip>.<fp>` with two fraction digits, in hundredths. */
  function Hundredths(ip: string, fp: string): nat
    requires AllDigits(ip) && AllDigits(fp)
  {
    100 * DigitsValue(ip) + DigitsValue(fp)
  }

  /** `<ip>.<fp>` with two fraction digits parses to its hundredths. */
  lemma TwoDecimalsValue(ip: string, fp: string)
    requires AllDigits(ip) && ip != [] && AllDigits(fp) && |fp| == 2
    ensures ParseFloat(ip + "." + fp).Some?
    ensures ParseFloat(ip + "." + fp).value == Hundredths(ip, fp) as real / 100.0
    ensures FractionDigits(ip + "." + fp) == 2
  {
    ParseDecimal(ip, fp);
    HundredthsValue(ip, fp, fp, 100, |ip| + 1 + |fp|);
  }

  /** A two-decimal text in range is accepted with its value. */
  lemma TwoDecimalsAccepted(ip: string, fp: string, isRequired: bool)
    requires AllDigits(ip) && ip != [] && AllDigits(fp) && |fp| == 2
    requires 0 < Hundredths(ip, fp) < 10000000000
    ensures AcceptedAs(ValidateAmount(Str(ip + "." + fp), isRequired), Hundredths(ip, fp) as real / 100.0)
  {
    TwoDecimalsValue(ip, fp);
    AcceptedAmount(Str(ip + "." + fp), isRequired, Hundredths(ip, fp) as real / 100.0);
  }

  /** Appending a `0` to the two fraction digits of an amount's text keeps its value. */
  lemma TrailingZeroKeepsValue(ip: string, fp: string)
    requires AllDigits(ip) && ip != [] && AllDigits(fp) && |fp| == 2
    ensures ParseFloat(ip + "." + (fp + "0")).Some?
    ensures ParseFloat(ip + "." + (fp + "0")).value == Hundredths(ip, fp) as real / 100.0
    ensures FractionDigits(ip + "." + (fp + "0")) == 3
  {
    var fz := fp + "0";
    AppendZeroValue(fp);
    ParseDecimal(ip, fz);
    HundredthsValue(ip, fp, fz, 1000, |ip| + 1 + |fz|);
  }

  /**
   * The decimal-places rule counts the characters of the text, not the precision of the value: appending
   * a `0` to an accepted two-decimal text keeps its value and gets it refused.
   */
  lemma TrailingZeroRefused(ip: string, fp: string, isRequired: bool)
    requires AllDigits(ip) && ip != [] && AllDigits(fp) && |fp| == 2
    requires 0 < Hundredths(ip, fp) < 10000000000
    ensures ValidateAmount(Str(ip + "." + (fp + "0")), isRequired) ==
            Err(Validation("Amount can have maximum 2 decimal places"))
  {
    TrailingZeroKeepsValue(ip, fp);
    TooManyDecimals(Str(ip + "." + (fp + "0")), isRequired, Hundredths(ip, fp) as real / 100.0);
  }

  lemma AppendZeroValue(d: string)
    requires AllDigits(d)
    ensures AllDigits(d + "0") && DigitsValue(d + "0") == 10 * DigitsValue(d)
  {
    assert (d + "0")[..|d|] == d;
  }

  /** The value of `<ip>.<f>` where the fraction digits `f` are worth `fp` hundredths. */
  lemma HundredthsValue(ip: string, fp: string, f: string, scale: nat, n: nat)
    requires AllDigits(ip) && AllDigits(fp) && AllDigits(f) && |fp| == 2
    requires Pow10(|f|) == scale && (scale == 100 || scale == 1000)
    requires DigitsValue(f) * 100 == DigitsValue(fp) * scale
    ensures PartsValue(NumberParts(false, ip, f, n)) == Hundredths(ip, fp) as real / 100.0
  {
    var i, v, c := DigitsValue(ip), DigitsValue(f), DigitsValue(fp);
    assert PartsValue(NumberParts(false, ip, f, n)) == i as real + v as real / scale as real;
    if scale == 100 {
      assert v == c;
    } else {
      assert v == 10 * c;
      assert v as real / 1000.0 == c as real / 100.0;
    }
    assert i as real + c as real / 100.0 == (100 * i + c) as real / 100.0;
  }
}
