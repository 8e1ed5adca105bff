/**
 * `validateFilters`: the browser's check of the transaction-list filters before a query is sent. It fills
 * a map from field to message; an empty map lets the query go out. Dates are read by an oracle that stands
 * for `new Date(text)` (`None`: an invalid date, whose comparisons are all false).
 */
module FilterValidation {
  import opened Wrappers
  import opened JsNumbers
  import Validation

  /** The filter inputs as the form holds them; an empty string is an empty or absent field. */
  datatype Filters = Filters(minAmount: string, maxAmount: string, search: string, startDate: string, endDate: string)

  datatype Field = MinAmount | MaxAmount | Search | StartDate | EndDate

  const NotANumber: string := "Must be a valid number"
  const Negative: string := "Must be greater than or equal to 0"
  const TooLarge: string := "Cannot exceed 99,999,999.99"
  const TooPrecise: string := "Maximum 2 decimal places"
  const MinAboveMax: string := "Min cannot be greater than Max"
  const MaxBelowMin: string := "Max cannot be less than Min"
  const StartAfterEnd: string := "Start date cannot be after end date"
  const EndBeforeStart: string := "End date cannot be before start date"

  function SearchTooLong(length: nat): string {
    "Maximum 100 characters (" + NatToDigits(length) + "/100)"
  }

  /** An amount bound the query can use: a number from 0 up to (not including) 100,000,000, at most two decimals. */
  predicate AmountAcceptable(text: string) {
    ParseFloat(text).Some? && 0.0 <= ParseFloat(text).value < 100000000.0 && FractionDigits(text) <= 2
  }

  /**
   * The message of the first rule of the amount chain that a non-empty bound breaks: not a number, below
   * zero, too large, too many decimals. A rule is reported only when every earlier one passes.
   */
  function AmountProblem(text: string): (r: Option<string>)
    ensures r.None? <==> AmountAcceptable(text)
    ensures r == Some(NotANumber) <==> ParseFloat(text).None?
    ensures r == Some(Negative) <==> ParseFloat(text).Some? && ParseFloat(text).value < 0.0
    ensures r == Some(TooLarge) <==> ParseFloat(text).Some? && ParseFloat(text).value >= 100000000.0
    ensures r == Some(TooPrecise) <==>
              ParseFloat(text).Some? && 0.0 <= ParseFloat(text).value < 100000000.0 && FractionDigits(text) > 2
  {
    match ParseFloat(text)
    case None => Some(NotANumber)
    case Some(v) =>
      if v < 0.0 then Some(Negative)
      else if v >= 100000000.0 then Some(TooLarge)
      else if FractionDigits(text) > 2 then Some(TooPrecise)
      else None
  }

  /** Both bounds given, both numbers, and the lower one above the upper one. */
  predicate BoundsReversed(f: Filters) {
    f.minAmount != "" && f.maxAmount != "" && ParseFloat(f.minAmount).Some? && ParseFloat(f.maxAmount).Some? &&
    ParseFloat(f.minAmount).value > ParseFloat(f.maxAmount).value
  }

  /** Both dates given, both valid, and the start strictly after the end. */
  predicate DatesReversed(f: Filters, parseDate: string -> Option<int>) {
    f.startDate != "" && f.endDate != "" && parseDate(f.startDate).Some? && parseDate(f.endDate).Some? &&
    parseDate(f.startDate).value > parseDate(f.endDate).value
  }

  /** Filters no rule objects to. */
  predicate FiltersAcceptable(f: Filters, parseDate: string -> Option<int>) {
    BoundsAcceptable(f) && |f.search| <= 100 && !DatesReversed(f, parseDate)
  }

  /** The entry of the amount chains alone, before the ordering check. */
  function ChainEntry(field: Field, text: string): map<Field, string> {
    if text != "" && AmountProblem(text).Some? then map[field := AmountProblem(text).value] else map[]
  }

  /** The chain of one bound, `filters.minAmount` or `filters.maxAmount`: at most one entry, for `field`. */
  method CheckBound(errors: map<Field, string>, field: Field, text: string) returns (updated: map<Field, string>)
    ensures updated == errors + ChainEntry(field, text)
  {
    updated := errors;
    if text != "" {
      var value := ParseFloat(text);
      if value.None? {
        updated := updated[field := NotANumber];
      } else if value.value < 0.0 {
        updated := updated[field := Negative];
      } else if value.value >= 100000000.0 {
        updated := updated[field := TooLarge];
      } else {
        var decimals := FractionDigits(text);
        if decimals > 2 {
          updated := updated[field := TooPrecise];
        }
      }
    }
  }

  /** Neither bound is refused. */
  predicate BoundsAcceptable(f: Filters) {
    (f.minAmount == "" || AmountAcceptable(f.minAmount)) &&
    (f.maxAmount == "" || AmountAcceptable(f.maxAmount)) && !BoundsReversed(f)
  }

  /**
   * The amount part of `validateFilters`: each bound's chain, then reversed bounds replace
   * whatever either bound got with the two ordering messages.
   */
  method CheckBounds(f: Filters) returns (errors: map<Field, string>)
    ensures errors.Keys <= {MinAmount, MaxAmount}
    ensures MinAmount in errors <==> f.minAmount != "" && (AmountProblem(f.minAmount).Some? || BoundsReversed(f))
    ensures MaxAmount in errors <==> f.maxAmount != "" && (AmountProblem(f.maxAmount).Some? || BoundsReversed(f))
    ensures BoundsReversed(f) ==> errors[MinAmount] == MinAboveMax && errors[MaxAmount] == MaxBelowMin
    ensures !BoundsReversed(f) && MinAmount in errors ==> errors[MinAmount] == AmountProblem(f.minAmount).value
    ensures !BoundsReversed(f) && MaxAmount in errors ==> errors[MaxAmount] == AmountProblem(f.maxAmount).value
    ensures errors == map[] <==> BoundsAcceptable(f)
  {
    errors := map[];
    errors := CheckBound(errors, MinAmount, f.minAmount);
    errors := CheckBound(errors, MaxAmount, f.maxAmount);
    if f.minAmount != "" && f.maxAmount != "" {
      var min := ParseFloat(f.minAmount);
      var max := ParseFloat(f.maxAmount);
      if min.Some? && max.Some? && min.value > max.value {
        errors := errors[MinAmount := MinAboveMax][MaxAmount := MaxBelowMin];
      }
    }
    if errors == map[] {
      assert MinAmount !in errors && MaxAmount !in errors;
    }
  }

  /**
   * `validateFilters`: the amount entries as `CheckBounds` leaves them, an entry for an over-long search,
   * and both date entries when the start is after the end; empty fields are skipped by every rule.
   */
  method ValidateFilters(f: Filters, parseDate: string -> Option<int>) returns (errors: map<Field, string>)
    ensures MinAmount in errors <==> f.minAmount != "" && (AmountProblem(f.minAmount).Some? || BoundsReversed(f))
    ensures MaxAmount in errors <==> f.maxAmount != "" && (AmountProblem(f.maxAmount).Some? || BoundsReversed(f))
    ensures BoundsReversed(f) ==> errors[MinAmount] == MinAboveMax && errors[MaxAmount] == MaxBelowMin
    ensures !BoundsReversed(f) && MinAmount in errors ==> errors[MinAmount] == AmountProblem(f.minAmount).value
    ensures !BoundsReversed(f) && MaxAmount in errors ==> errors[MaxAmount] == AmountProblem(f.maxAmount).value
    ensures Search in errors <==> |f.search| > 100
    ensures Search in errors ==> errors[Search] == SearchTooLong(|f.search|)
    ensures StartDate in errors <==> DatesReversed(f, parseDate)
    ensures EndDate in errors <==> DatesReversed(f, parseDate)
    ensures DatesReversed(f, parseDate) ==> errors[StartDate] == StartAfterEnd && errors[EndDate] == EndBeforeStart
    ensures errors == map[] <==> FiltersAcceptable(f, parseDate)
  {
    errors := CheckBounds(f);
    ghost var amounts := errors;
    if f.search != "" && |f.search| > 100 {
      errors := errors[Search := SearchTooLong(|f.search|)];
    }
    ghost var afterSearch := errors;
    if f.startDate != "" && f.endDate != "" {
      var start := parseDate(f.startDate);
      var end := parseDate(f.endDate);
      if start.Some? && end.Some? && start.value > end.value {
        errors := errors[StartDate := StartAfterEnd][EndDate := EndBeforeStart];
      }
    }
    if errors == map[] {
      assert StartDate !in errors && Search !in errors;
      assert afterSearch == amounts;
      assert forall k :: k !in amounts;
    }
  }

  /** Any two-decimal amount from 0.00 to 99,999,999.99, written as `<units>.<cents>`, passes the amount chain. */
  lemma TwoDecimalBoundAccepted(c: nat)
    requires c < 10000000000
    ensures AmountProblem(Validation.CentsText(c)) == None
  {
    Validation.CentsTextValue(c);
    Validation.CentsTextFraction(c);
  }

  /** Reversed bounds are reported even when each bound passes its own chain. */
  lemma ReversedBoundsRejectedAlone(f: Filters, parseDate: string -> Option<int>)
    requires AmountAcceptable(f.minAmount) && AmountAcceptable(f.maxAmount)
    requires ParseFloat(f.minAmount).value > ParseFloat(f.maxAmount).value
    ensures !FiltersAcceptable(f, parseDate)
  {
    assert f.minAmount != "" by {
      assert ParseFloat("") == None;
    }
    assert f.maxAmount != "" by {
      assert ParseFloat("") == None;
    }
  }
}
