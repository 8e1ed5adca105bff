/**
 * JavaScript's string-to-number conversions on exact decimals: `parseFloat` and `parseInt` (which read the
 * longest numeric prefix), `Number(...)` (which accepts only a whole numeric literal), and the
 * "digits after the dot" count that the validators take from `value.toString().split('.')[1]`.
 * Exponent notation, `Infinity` and radix prefixes are not modelled.
 */
module JsNumbers {
  import opened Wrappers
  import opened Strings

  function Pow10(k: nat): (r: nat)
    ensures r >= 1
  {
    if k == 0 then 1 else 10 * Pow10(k - 1)
  }

  predicate AllDigits(s: string) {
    forall i :: 0 <= i < |s| ==> IsDigit(s[i])
  }

  /** The value of a run of decimal digits, most significant first. */
  function DigitsValue(d: string): (v: nat)
    requires AllDigits(d)
    ensures v < Pow10(|d|)
  {
    if d == [] then 0 else 10 * DigitsValue(d[..|d| - 1]) + (d[|d| - 1] as int - '0' as int)
  }

  /** The end of the run of digits in `s` that starts at index `i`. */
  function DigitsEnd(s: string, i: nat): (j: nat)
    requires i <= |s|
    ensures i <= j <= |s| && (j < |s| ==> !IsDigit(s[j]))
    ensures forall k :: i <= k < j ==> IsDigit(s[k])
    decreases |s| - i
  {
    if i < |s| && IsDigit(s[i]) then DigitsEnd(s, i + 1) else i
  }

  /** A run of digits from `i` that stops at `j` is the one `DigitsEnd` finds. */
  lemma {:induction false} DigitsEndAt(s: string, i: nat, j: nat)
    requires i <= j <= |s| && (j < |s| ==> !IsDigit(s[j]))
    requires forall k :: i <= k < j ==> IsDigit(s[k])
    ensures DigitsEnd(s, i) == j
    decreases j - i
  {
    if i < j {
      DigitsEndAt(s, i + 1, j);
    }
  }

  /**
   * The numeric prefix that `parseFloat` reads: after leading whitespace, an optional sign, the integer
   * digits, and the fraction digits after a `.`; `consumed` is how many characters of `s` that prefix spans.
   */
  datatype NumberParts = NumberParts(negative: bool, intDigits: string, fracDigits: string, consumed: nat)

  /** The end of the run of whitespace in `s` that starts at index `i`. */
  function SpaceEnd(s: string, i: nat): (j: nat)
    requires i <= |s|
    ensures i <= j <= |s| && (j < |s| ==> !IsSpace(s[j]))
    ensures forall k :: i <= k < j ==> IsSpace(s[k])
    decreases |s| - i
  {
    if i < |s| && IsSpace(s[i]) then SpaceEnd(s, i + 1) else i
  }

  predicate IsSign(c: char) {
    c == '-' || c == '+'
  }

  /** Where the digits start: after the leading whitespace and the optional sign. */
  function BodyStart(s: string): (k: nat)
    ensures k <= |s|
    ensures forall j :: 0 <= j < k ==> s[j] != '.'
  {
    var w := SpaceEnd(s, 0);
    if w < |s| && IsSign(s[w]) then w + 1 else w
  }

  /** Whether the optional sign is a minus. */
  function IsNegative(s: string): bool {
    var w := SpaceEnd(s, 0);
    w < |s| && s[w] == '-'
  }

  function ReadParts(s: string): (r: Option<NumberParts>)
    ensures r.Some? ==> |r.value.intDigits| + |r.value.fracDigits| >= 1 && r.value.consumed <= |s|
    ensures r.Some? ==> AllDigits(r.value.intDigits) && AllDigits(r.value.fracDigits)
  {
    var k := BodyStart(s);
    var e := DigitsEnd(s, k);
    var hasDot := e < |s| && s[e] == '.';
    var start := if hasDot then e + 1 else e;
    var f := if hasDot then DigitsEnd(s, e + 1) else e;
    if e == k && f == start then None
    else Some(NumberParts(IsNegative(s), s[k..e], s[start..f], f))
  }

  function PartsValue(p: NumberParts): real
    requires AllDigits(p.intDigits) && AllDigits(p.fracDigits)
  {
    var magnitude := (DigitsValue(p.intDigits) as real) +
                     (DigitsValue(p.fracDigits) as real) / (Pow10(|p.fracDigits|) as real);
    if p.negative then -magnitude else magnitude
  }

  /** `parseFloat(s)`; `None` is NaN. */
  function ParseFloat(s: string): Option<real> {
    match ReadParts(s)
    case None => None
    case Some(p) => Some(PartsValue(p))
  }

  /** `parseInt(s)` in base 10; `None` is NaN. */
  function ParseInt(s: string): Option<int> {
    var k := BodyStart(s);
    var e := DigitsEnd(s, k);
    var v: int := DigitsValue(s[k..e]);
    if e == k then None
    else if IsNegative(s) then Some(-v)
    else Some(v)
  }

  /** `Number(s)` for a string: blank text is 0, otherwise the whole trimmed text must be a decimal literal. */
  function ToNumber(s: string): Option<real> {
    var t := Trim(s);
    if t == [] then Some(0.0)
    else match ReadParts(t)
      case Some(p) => if p.consumed == |t| then Some(PartsValue(p)) else None
      case None => None
  }

  /** `Math.trunc(x)`. */
  function Trunc(x: real): int {
    if x >= 0.0 then x.Floor else -((-x).Floor)
  }

  /** The index of the first `.` in `s` at or after `i`, or `|s|` when there is none. */
  function NextDot(s: string, i: nat): (j: nat)
    requires i <= |s|
    ensures i <= j <= |s| && (j < |s| ==> s[j] == '.')
    ensures forall k :: i <= k < j ==> s[k] != '.'
    decreases |s| - i
  {
    if i == |s| || s[i] == '.' then i else NextDot(s, i + 1)
  }

  /** `(s.split('.')[1] || '').length`: the length of the piece between the first and the second `.`. */
  function FractionDigits(s: string): nat {
    var d := NextDot(s, 0);
    if d == |s| then 0 else NextDot(s, d + 1) - (d + 1)
  }

  /** A stretch without `.` from `i` to `j` lies before the next `.`. */
  lemma {:induction false} NextDotBeyond(s: string, i: nat, j: nat)
    requires i <= j <= |s|
    requires forall k :: i <= k < j ==> s[k] != '.'
    ensures NextDot(s, i) >= j
    decreases j - i
  {
    if i < j {
      NextDotBeyond(s, i + 1, j);
    }
  }

  /**
   * The fraction digits `parseFloat` reads are never more than the digits-after-the-dot count taken from
   * the text: the `.` that `parseFloat` stops at is the first one in `s`.
   */
  lemma ReadFractionWithinCount(s: string)
    requires ReadParts(s).Some?
    ensures |ReadParts(s).value.fracDigits| <= FractionDigits(s)
  {
    var k := BodyStart(s);
    var e := DigitsEnd(s, k);
    if e < |s| && s[e] == '.' {
      NextDotBeyond(s, 0, e);
      assert NextDot(s, 0) == e;
      NextDotBeyond(s, e + 1, DigitsEnd(s, e + 1));
    }
  }

  /** `x` is a whole number of hundredths. */
  predicate IsHundredths(x: real) {
    (x * 100.0).Floor as real == x * 100.0
  }

  /** A parsed value with at most two digits after the dot is a whole number of hundredths. */
  lemma TwoDigitsAreCents(s: string)
    requires ParseFloat(s).Some? && FractionDigits(s) <= 2
    ensures IsHundredths(ParseFloat(s).value)
  {
    ReadFractionWithinCount(s);
    PartsHundredths(ReadParts(s).value);
  }

  lemma PartsHundredths(p: NumberParts)
    requires AllDigits(p.intDigits) && AllDigits(p.fracDigits) && |p.fracDigits| <= 2
    ensures IsHundredths(PartsValue(p))
  {
    var k := |p.fracDigits|;
    var iv := DigitsValue(p.intDigits) as real;
    var fv := DigitsValue(p.fracDigits) as real;
    var m: real;
    if k == 0 {
      assert Pow10(0) == 1;
      m := 100.0 * iv + 100.0 * fv;
    } else if k == 1 {
      assert Pow10(1) == 10;
      m := 100.0 * iv + 10.0 * fv;
    } else {
      assert Pow10(2) == 100;
      m := 100.0 * iv + fv;
    }
    assert (iv + fv / (Pow10(k) as real)) * 100.0 == m;
    var n := DigitsValue(p.intDigits) * 100 + DigitsValue(p.fracDigits) * (if k == 0 then 100 else if k == 1 then 10 else 1);
    assert m == n as real;
    assert PartsValue(p) * 100.0 == if p.negative then (-n) as real else n as real;
  }

  function DigitChar(d: nat): (c: char)
    requires d < 10
    ensures IsDigit(c) && c as int - '0' as int == d
  {
    ('0' as int + d) as char
  }

  /** The decimal digits of `n` without leading zeros (`"0"` for zero): `String(n)`. */
  function NatToDigits(n: nat): (d: string)
    ensures AllDigits(d) && |d| >= 1 && DigitsValue(d) == n
  {
    if n < 10 then [DigitChar(n)]
    else
      var d := NatToDigits(n / 10) + [DigitChar(n % 10)];
      assert d[..|d| - 1] == NatToDigits(n / 10);
      d
  }

  /** Text that starts with a digit has no leading whitespace or sign to skip. */
  lemma BodyStartAtDigit(s: string)
    requires s != [] && IsDigit(s[0])
    ensures BodyStart(s) == 0 && !IsNegative(s)
  {
  }

  /** How `parseFloat` reads `<digits>.<digits>`: all of it, as a non-negative number. */
  lemma ReadDecimal(ip: string, fp: string)
    requires AllDigits(ip) && ip != [] && AllDigits(fp)
    ensures ReadParts(ip + "." + fp) == Some(NumberParts(false, ip, fp, |ip| + 1 + |fp|))
  {
    var s := ip + "." + fp;
    var n := |ip|;
    assert forall k :: 0 <= k < n ==> s[k] == ip[k];
    assert forall k :: n + 1 <= k < |s| ==> s[k] == fp[k - n - 1];
    assert s[n] == '.';
    BodyStartAtDigit(s);
    DigitsEndAt(s, 0, n);
    DigitsEndAt(s, n + 1, |s|);
    assert s[0..n] == ip && s[n + 1..|s|] == fp;
  }

  /** How `parseFloat` reads a run of digits alone: all of it, with no fraction and no dot. */
  lemma ParseWhole(ip: string)
    requires AllDigits(ip) && ip != []
    ensures ParseFloat(ip) == Some(DigitsValue(ip) as real)
    ensures FractionDigits(ip) == 0
  {
    BodyStartAtDigit(ip);
    DigitsEndAt(ip, 0, |ip|);
    assert ip[0..|ip|] == ip && ip[|ip|..|ip|] == [];
    NextDotBeyond(ip, 0, |ip|);
  }

  /** The digits-after-the-dot count of `<digits>.<digits>` is the length of the second run. */
  lemma FractionDigitsOfDecimal(ip: string, fp: string)
    requires AllDigits(ip) && AllDigits(fp)
    ensures FractionDigits(ip + "." + fp) == |fp|
  {
    var s := ip + "." + fp;
    var n := |ip|;
    assert forall k :: 0 <= k < n ==> s[k] == ip[k];
    assert forall k :: n + 1 <= k < |s| ==> s[k] == fp[k - n - 1];
    assert s[n] == '.';
    NextDotBeyond(s, 0, n);
    NextDotBeyond(s, n + 1, |s|);
  }

  /** `parseFloat` of `<digits>.<digits>` and its digits-after-the-dot count. */
  lemma ParseDecimal(ip: string, fp: string)
    requires AllDigits(ip) && ip != [] && AllDigits(fp)
    ensures ParseFloat(ip + "." + fp).Some?
    ensures ParseFloat(ip + "." + fp).value == PartsValue(NumberParts(false, ip, fp, |ip| + 1 + |fp|))
    ensures FractionDigits(ip + "." + fp) == |fp|
  {
    ReadDecimal(ip, fp);
    FractionDigitsOfDecimal(ip, fp);
  }
}
