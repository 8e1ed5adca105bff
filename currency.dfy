/**
 * `currency.js`: currency symbols, where the symbol goes and how many decimals are shown, the signed
 * variant used for changes, and reading an amount back out of a formatted text. Number formatting itself
 * (`toLocaleString` and `Intl.NumberFormat`) is an oracle passed in.
 */
module Currency {
  import opened Wrappers
  import opened Strings
  import opened JsNumbers

  /** `CURRENCY_SYMBOLS`, keyed by upper-case ISO code. */
  const Symbols: map<string, string> := map[
    "EUR" := "€", "USD" := "$", "GBP" := "£", "JPY" := "¥", "CNY" := "¥", "INR" := "₹",
    "AUD" := "A$", "CAD" := "C$", "CHF" := "CHF", "SEK" := "kr", "NOK" := "kr", "DKK" := "kr",
    "PLN" := "zł", "CZK" := "Kč", "HUF" := "Ft", "RON" := "lei", "BGN" := "лв", "BRL" := "R$",
    "MXN" := "MX$", "ZAR" := "R", "TRY" := "₺", "RUB" := "₽", "KRW" := "₩", "SGD" := "S$",
    "HKD" := "HK$", "NZD" := "NZ$", "THB" := "฿", "MYR" := "RM", "IDR" := "Rp", "PHP" := "₱",
    "VND" := "₫", "AED" := "د.إ", "SAR" := "SR", "EGP" := "E£"]

  /** `SYMBOL_AFTER_AMOUNT`. */
  const SymbolAfter: seq<string> := ["SEK", "NOK", "DKK", "PLN", "CZK", "HUF", "RON", "BGN"]

  /** `NO_DECIMAL_CURRENCIES`. */
  const NoDecimal: seq<string> := ["JPY", "KRW", "VND", "IDR"]

  /** Every symbol is a non-empty string, so the `|| currencyCode` fallback only serves unknown codes. */
  lemma SymbolsNonEmpty()
    ensures forall code :: code in Symbols ==> Symbols[code] != ""
  {
  }

  /** `getCurrencySymbol`: the symbol of the upper-cased code, or the code itself, in its own case. */
  function GetCurrencySymbol(code: string): (r: string)
    ensures Upper(code) in Symbols ==> r == Symbols[Upper(code)]
    ensures Upper(code) !in Symbols ==> r == code
  {
    SymbolsNonEmpty();
    if Upper(code) in Symbols && Symbols[Upper(code)] != "" then Symbols[Upper(code)] else code
  }

  /** An amount as the callers pass it: a text, read with `parseFloat`, or a number (`None`: NaN). */
  datatype Amount = AmountText(text: string) | AmountNumber(value: Option<real>)

  /** `typeof amount === 'string' ? parseFloat(amount) : amount`; `None` is NaN. */
  function NumAmount(amount: Amount): Option<real> {
    match amount
    case AmountText(s) => ParseFloat(s)
    case AmountNumber(v) => v
  }

  datatype FormatOptions = FormatOptions(showDecimals: bool, locale: string, useNativeFormat: bool)

  /** The defaults `formatCurrency` takes when no options are given. */
  const Defaults: FormatOptions := FormatOptions(true, "en-GB", false)

  /** The fraction digits of the manual path: none for the no-decimal currencies or when decimals are off. */
  function Decimals(currency: string, showDecimals: bool): nat {
    if currency in NoDecimal || !showDecimals then 0 else 2
  }

  /**
   * The manual path: the amount formatted for the locale with the fraction digits, and the symbol after
   * it with a space for the symbol-after currencies, before it with none otherwise.
   */
  function Manual(v: real, currency: string, options: FormatOptions, localeFormat: (string, real, nat) -> string): string {
    var formatted := localeFormat(options.locale, v, Decimals(currency, options.showDecimals));
    var symbol := GetCurrencySymbol(currency);
    if currency in SymbolAfter then formatted + " " + symbol else symbol + formatted
  }

  /**
   * `formatCurrency`. `native(locale, currency, digits, value)` stands for `Intl.NumberFormat`, `None`
   * when it throws; `localeFormat(locale, value, digits)` stands for `toLocaleString`.
   */
  function FormatCurrency(amount: Amount, code: string, options: FormatOptions,
                          native: (string, string, nat, real) -> Option<string>,
                          localeFormat: (string, real, nat) -> string): string {
    match NumAmount(amount)
    case None => "0"
    case Some(v) =>
      var currency := Upper(code);
      var viaIntl := if options.useNativeFormat then native(options.locale, currency, if currency in NoDecimal then 0 else 2, v)
                     else None;
      if viaIntl.Some? then viaIntl.value else Manual(v, currency, options, localeFormat)
  }

  /** NaN, including a text `parseFloat` cannot read, is shown as `0`. */
  lemma NaNFormatsAsZero(amount: Amount, code: string, options: FormatOptions,
                         native: (string, string, nat, real) -> Option<string>, localeFormat: (string, real, nat) -> string)
    requires NumAmount(amount).None?
    ensures FormatCurrency(amount, code, options, native, localeFormat) == "0"
  {
  }

  /**
   * Without a result from `Intl`, a number is the locale's text with zero fraction digits for the
   * no-decimal currencies or when decimals are off and two otherwise, and the symbol of the upper-cased
   * code follows it after a space for the eight symbol-after currencies and precedes it directly otherwise.
   */
  lemma ManualLayout(v: real, code: string, options: FormatOptions,
                     native: (string, string, nat, real) -> Option<string>, localeFormat: (string, real, nat) -> string)
    requires !options.useNativeFormat || native(options.locale, Upper(code), if Upper(code) in NoDecimal then 0 else 2, v).None?
    ensures var digits := if Upper(code) in NoDecimal || !options.showDecimals then 0 else 2;
            var formatted := localeFormat(options.locale, v, digits);
            var symbol := GetCurrencySymbol(Upper(code));
            FormatCurrency(AmountNumber(Some(v)), code, options, native, localeFormat) ==
              if Upper(code) in SymbolAfter then formatted + " " + symbol else symbol + formatted
  {
  }

  /** With `useNativeFormat` and a result from `Intl`, that result is shown as it is. */
  lemma NativeResultShown(v: real, code: string, options: FormatOptions,
                          native: (string, string, nat, real) -> Option<string>, localeFormat: (string, real, nat) -> string)
    requires options.useNativeFormat
    requires native(options.locale, Upper(code), if Upper(code) in NoDecimal then 0 else 2, v).Some?
    ensures FormatCurrency(AmountNumber(Some(v)), code, options, native, localeFormat) ==
              native(options.locale, Upper(code), if Upper(code) in NoDecimal then 0 else 2, v).value
  {
  }

  lemma UpperIdempotent(s: string)
    ensures Upper(Upper(s)) == Upper(s)
  {
    assert forall i :: 0 <= i < |s| ==> UpperChar(UpperChar(s[i])) == UpperChar(s[i]);
  }

  /** The code's case does not matter to `formatCurrency`. */
  lemma FormatIgnoresCase(amount: Amount, code: string, options: FormatOptions,
                          native: (string, string, nat, real) -> Option<string>, localeFormat: (string, real, nat) -> string)
    ensures FormatCurrency(amount, code, options, native, localeFormat) ==
            FormatCurrency(amount, Upper(code), options, native, localeFormat)
  {
    UpperIdempotent(code);
  }

  /**
   * An unknown code is returned by `getCurrencySymbol` in the case it was given, while `formatCurrency`,
   * which looks it up already upper-cased, shows it upper-cased.
   */
  lemma UnknownCodeCase(v: real, localeFormat: (string, real, nat) -> string)
    ensures GetCurrencySymbol("abc") == "abc"
    ensures FormatCurrency(AmountNumber(Some(v)), "abc", Defaults, (l, c, d, x) => None, localeFormat) ==
            "ABC" + localeFormat("en-GB", v, 2)
  {
    assert Upper("abc") == "ABC";
    assert Upper("ABC") == "ABC";
  }

  /**
   * `formatCurrencyChange`: the default format of the magnitude, with `+` for an amount at or above zero
   * and `-` otherwise (NaN compares false, so it gets `-`); no sign when `showSign` is off.
   */
  function FormatCurrencyChange(amount: Amount, code: string, showSign: bool,
                                localeFormat: (string, real, nat) -> string): string {
    var num := NumAmount(amount);
    var magnitude := if num.Some? then Some(if num.value < 0.0 then -num.value else num.value) else None;
    var formatted := FormatCurrency(AmountNumber(magnitude), code, Defaults, (l, c, d, x) => None, localeFormat);
    if !showSign then formatted
    else if num.Some? && num.value >= 0.0 then "+" + formatted
    else "-" + formatted
  }

  /** An amount and its negation are shown with the same digits and opposite signs. */
  lemma ChangeSymmetric(v: real, code: string, localeFormat: (string, real, nat) -> string)
    requires v > 0.0
    ensures var shown := FormatCurrency(AmountNumber(Some(v)), code, Defaults, (l, c, d, x) => None, localeFormat);
            FormatCurrencyChange(AmountNumber(Some(v)), code, true, localeFormat) == "+" + shown &&
            FormatCurrencyChange(AmountNumber(Some(-v)), code, true, localeFormat) == "-" + shown
  {
  }

  /** Zero counts as a gain. */
  lemma ZeroChangeIsPlus(code: string, localeFormat: (string, real, nat) -> string)
    ensures FormatCurrencyChange(AmountNumber(Some(0.0)), code, true, localeFormat) ==
            "+" + FormatCurrency(AmountNumber(Some(0.0)), code, Defaults, (l, c, d, x) => None, localeFormat)
  {
  }

  /** NaN is shown as `-0` with the sign, `0` without. */
  lemma NaNChange(code: string, localeFormat: (string, real, nat) -> string)
    ensures FormatCurrencyChange(AmountNumber(None), code, true, localeFormat) == "-0"
    ensures FormatCurrencyChange(AmountNumber(None), code, false, localeFormat) == "0"
  {
  }

  /** The class `[\d.,-]`. */
  predicate NumericChar(c: char) {
    '0' <= c <= '9' || c == '.' || c == ',' || c == '-'
  }

  /** `replace(/[^\d.,-]/g, '')`. */
  function KeepNumeric(s: string): (r: string)
    ensures forall c :: c in r ==> NumericChar(c)
  {
    if s == [] then [] else (if NumericChar(s[0]) then [s[0]] else []) + KeepNumeric(s[1..])
  }

  /** `replace(/,/g, '')`. */
  function DropCommas(s: string): (r: string)
    ensures ',' !in r
  {
    if s == [] then [] else (if s[0] == ',' then [] else [s[0]]) + DropCommas(s[1..])
  }

  lemma {:induction false} KeepNumericAppend(a: string, b: string)
    ensures KeepNumeric(a + b) == KeepNumeric(a) + KeepNumeric(b)
  {
    if a != [] {
      assert (a + b)[0] == a[0];
      assert (a + b)[1..] == a[1..] + b;
      KeepNumericAppend(a[1..], b);
    } else {
      assert a + b == b;
    }
  }

  /** Text free of the numeric class disappears. */
  lemma {:induction false} KeepNumericNone(s: string)
    requires forall i :: 0 <= i < |s| ==> !NumericChar(s[i])
    ensures KeepNumeric(s) == []
  {
    if s != [] {
      KeepNumericNone(s[1..]);
    }
  }

  /**
   * `parseCurrency`: a number is returned as it is; a text is cut down to digits, dots and minus signs and
   * read with `parseFloat`, NaN and zero both giving 0.
   */
  function ParseCurrency(input: Amount): (r: Option<real>)
    ensures input.AmountNumber? ==> r == input.value
    ensures input.AmountText? ==> r.Some?
  {
    match input
    case AmountNumber(v) => v
    case AmountText(s) =>
      var read := ParseFloat(DropCommas(KeepNumeric(s)));
      Some(if read.Some? && read.value != 0.0 then read.value else 0.0)
  }

  /** Text around the number that holds no digit, dot, comma or minus does not change what is read. */
  lemma SurroundingTextIgnored(before: string, f: string, after: string)
    requires forall i :: 0 <= i < |before| ==> !NumericChar(before[i])
    requires forall i :: 0 <= i < |after| ==> !NumericChar(after[i])
    ensures ParseCurrency(AmountText(before + f + after)) == ParseCurrency(AmountText(f))
  {
    KeepNumericAppend(before + f, after);
    KeepNumericAppend(before, f);
    KeepNumericNone(before);
    KeepNumericNone(after);
    assert KeepNumeric(before + f + after) == KeepNumeric(f);
  }

  /** The dirham's symbol holds a dot, which the reading keeps in front of the formatted digits. */
  lemma DirhamSymbolKeepsDot(f: string)
    ensures ParseCurrency(AmountText(Symbols["AED"] + f)) == ParseCurrency(AmountText("." + f))
  {
    KeepNumericAppend(Symbols["AED"], f);
    KeepNumericAppend(".", f);
    assert KeepNumeric(Symbols["AED"]) == ".";
  }

  /** No symbol but the dirham's holds a digit, dot, comma or minus. */
  lemma SymbolsNonNumeric(code: string)
    requires code in Symbols && code != "AED"
    ensures forall i :: 0 <= i < |Symbols[code]| ==> !NumericChar(Symbols[code][i])
  {
  }

  /** A symbol without digits, dots, commas or minus signs, before or after the digits, is ignored. */
  lemma SymbolIgnored(f: string, symbol: string, after: bool)
    requires forall i :: 0 <= i < |symbol| ==> !NumericChar(symbol[i])
    ensures ParseCurrency(AmountText(if after then f + " " + symbol else symbol + f)) == ParseCurrency(AmountText(f))
  {
    if after {
      forall i | 0 <= i < |" " + symbol| ensures !NumericChar((" " + symbol)[i]) {
        if i > 0 {
          assert (" " + symbol)[i] == symbol[i - 1];
        }
      }
      SurroundingTextIgnored("", f, " " + symbol);
      assert "" + f + (" " + symbol) == f + " " + symbol;
    } else {
      SurroundingTextIgnored(symbol, f, "");
      assert symbol + f + "" == symbol + f;
    }
  }

  /** Reading back what the manual path wrote gives what reading the locale's digits gives. */
  lemma ManualReadBack(v: real, currency: string, options: FormatOptions, localeFormat: (string, real, nat) -> string)
    requires Upper(currency) in Symbols && Upper(currency) != "AED"
    ensures ParseCurrency(AmountText(Manual(v, currency, options, localeFormat))) ==
            ParseCurrency(AmountText(localeFormat(options.locale, v, Decimals(currency, options.showDecimals))))
  {
    var f := localeFormat(options.locale, v, Decimals(currency, options.showDecimals));
    var symbol := GetCurrencySymbol(currency);
    var after := currency in SymbolAfter;
    assert Manual(v, currency, options, localeFormat) == if after then f + " " + symbol else symbol + f;
    SymbolsNonNumeric(Upper(currency));
    SymbolIgnored(f, symbol, after);
  }

  /**
   * Reading back what `formatCurrency` wrote without `Intl` gives what reading the locale's digits alone
   * gives, for every known currency except the dirham.
   */
  lemma FormattedAmountReadBack(v: real, code: string, options: FormatOptions,
                                native: (string, string, nat, real) -> Option<string>,
                                localeFormat: (string, real, nat) -> string)
    requires Upper(code) in Symbols && Upper(code) != "AED"
    requires !options.useNativeFormat
    ensures ParseCurrency(AmountText(FormatCurrency(AmountNumber(Some(v)), code, options, native, localeFormat))) ==
            ParseCurrency(AmountText(localeFormat(options.locale, v, Decimals(Upper(code), options.showDecimals))))
  {
    UpperIdempotent(code);
    ManualReadBack(v, Upper(code), options, localeFormat);
  }
}
