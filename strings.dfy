/** String helpers with JavaScript's semantics: trim, case mapping, substring search, split and join. */
module Strings {

  /** The characters JavaScript's `trim()` removes and `\s` matches (WhiteSpace and LineTerminator). */
  predicate IsSpace(c: char) {
    c == '\t' || c == '\n' || c == '\U{000B}' || c == '\U{000C}' || c == '\r' || c == ' ' ||
    c == '\U{00A0}' || c == '\U{1680}' || ('\U{2000}' <= c <= '\U{200A}') ||
    c == '\U{2028}' || c == '\U{2029}' || c == '\U{202F}' || c == '\U{205F}' ||
    c == '\U{3000}' || c == '\U{FEFF}'
  }

  predicate AllSpace(s: string) {
    forall i :: 0 <= i < |s| ==> IsSpace(s[i])
  }

  predicate NoSpace(s: string) {
    forall i :: 0 <= i < |s| ==> !IsSpace(s[i])
  }

  predicate IsDigit(c: char) {
    '0' <= c <= '9'
  }

  /** `s.trimStart()`: the longest suffix of `s` that does not start with whitespace. */
  function TrimStart(s: string): (r: string)
    ensures |r| <= |s| && r == s[|s| - |r|..]
    ensures AllSpace(s[..|s| - |r|])
    ensures r == [] || !IsSpace(r[0])
    ensures r == [] <==> AllSpace(s)
  {
    if s != [] && IsSpace(s[0]) then TrimStart(s[1..]) else s
  }

  /** `s.trimEnd()`: the longest prefix of `s` that does not end with whitespace. */
  function TrimEnd(s: string): (r: string)
    ensures |r| <= |s| && r == s[..|r|]
    ensures AllSpace(s[|r|..])
    ensures r == [] || !IsSpace(r[|r| - 1])
    ensures r == [] <==> AllSpace(s)
  {
    if s != [] && IsSpace(s[|s| - 1]) then TrimEnd(s[..|s| - 1]) else s
  }

  /** `s.trim()`: neither end of the result is whitespace, and it is empty exactly when `s` is blank. */
  function Trim(s: string): (r: string)
    ensures |r| <= |s|
    ensures r == [] || (!IsSpace(r[0]) && !IsSpace(r[|r| - 1]))
    ensures r == [] <==> AllSpace(s)
  {
    var t := TrimStart(s);
    var r := TrimEnd(t);
    assert r != [] ==> r[0] == t[0];
    r
  }

  /** Trimming removes whitespace and nothing else. */
  lemma TrimKeepsText(s: string)
    ensures Squeeze(Trim(s)) == Squeeze(s)
  {
    TrimStartKeepsText(s);
    TrimEndKeepsText(TrimStart(s));
  }

  lemma TrimEndKeepsText(s: string)
    ensures Squeeze(TrimEnd(s)) == Squeeze(s)
  {
    var r := TrimEnd(s);
    assert s == r + s[|r|..];
    SqueezeAppend(r, s[|r|..]);
    SqueezeAllSpace(s[|r|..]);
  }

  function LowerChar(c: char): char {
    if 'A' <= c <= 'Z' then (c as int + 32) as char else c
  }

  function UpperChar(c: char): char {
    if 'a' <= c <= 'z' then (c as int - 32) as char else c
  }

  /** `s.toLowerCase()` restricted to ASCII letters. */
  function Lower(s: string): (r: string)
    ensures |r| == |s| && forall i :: 0 <= i < |s| ==> r[i] == LowerChar(s[i])
  {
    seq(|s|, i requires 0 <= i < |s| => LowerChar(s[i]))
  }

  /** `s.toUpperCase()` restricted to ASCII letters. */
  function Upper(s: string): (r: string)
    ensures |r| == |s| && forall i :: 0 <= i < |s| ==> r[i] == UpperChar(s[i])
  {
    seq(|s|, i requires 0 <= i < |s| => UpperChar(s[i]))
  }

  /** `h.includes(n)`: `n` occurs contiguously in `h`. */
  predicate Contains(h: string, n: string) {
    exists i | 0 <= i <= |h| - |n| :: OccursAt(h, n, i)
  }

  predicate OccursAt(h: string, n: string, i: int) {
    0 <= i <= |h| - |n| && h[i..i + |n|] == n
  }

  /** A `contains` filter with `mode: 'insensitive'`. */
  predicate ContainsInsensitive(h: string, n: string) {
    Contains(Lower(h), Lower(n))
  }

  lemma EmptyContained(h: string)
    ensures Contains(h, "")
  {
    assert OccursAt(h, "", 0);
  }

  /** Every string contains itself, in any letter case. */
  lemma ContainsSelfInsensitive(h: string, n: string)
    requires Lower(h) == Lower(n)
    ensures ContainsInsensitive(h, n)
  {
    assert OccursAt(Lower(h), Lower(n), 0);
  }

  /** `s.split(/\s+/)`: the pieces between maximal runs of whitespace. */
  function SplitWs(s: string): (r: seq<string>)
    ensures |r| >= 1
    ensures forall k :: 0 <= k < |r| ==> NoSpace(r[k])
    decreases |s|
  {
    var w := WordPrefix(s);
    var rest := s[|w|..];
    if rest == [] then [w] else [w] + SplitWs(TrimStart(rest))
  }

  /** The longest prefix of `s` without whitespace. */
  function WordPrefix(s: string): (w: string)
    ensures |w| <= |s| && w == s[..|w|] && NoSpace(w)
    ensures |w| < |s| ==> IsSpace(s[|w|])
  {
    if s == [] || IsSpace(s[0]) then [] else [s[0]] + WordPrefix(s[1..])
  }

  /** The concatenation of the parts, with `sep` between neighbours: `parts.join(sep)`. */
  function Join(parts: seq<string>, sep: string): string {
    if |parts| == 0 then ""
    else if |parts| == 1 then parts[0]
    else parts[0] + sep + Join(parts[1..], sep)
  }

  /** `s` with its whitespace removed. */
  function Squeeze(s: string): string {
    if s == [] then [] else (if IsSpace(s[0]) then [] else [s[0]]) + Squeeze(s[1..])
  }

  lemma {:induction false} SqueezeAppend(a: string, b: string)
    ensures Squeeze(a + b) == Squeeze(a) + Squeeze(b)
  {
    if a != [] {
      assert (a + b)[1..] == a[1..] + b;
      SqueezeAppend(a[1..], b);
    } else {
      assert a + b == b;
    }
  }

  lemma {:induction false} SqueezeNoSpace(s: string)
    requires NoSpace(s)
    ensures Squeeze(s) == s
  {
    if s != [] {
      SqueezeNoSpace(s[1..]);
    }
  }

  lemma {:induction false} SqueezeAllSpace(s: string)
    requires AllSpace(s)
    ensures Squeeze(s) == []
  {
    if s != [] {
      SqueezeAllSpace(s[1..]);
    }
  }

  /** Splitting on whitespace loses only the whitespace: the pieces, glued together, are `s` without it. */
  lemma {:induction false} SplitWsKeepsText(s: string)
    ensures Join(SplitWs(s), "") == Squeeze(s)
    decreases |s|
  {
    var w := WordPrefix(s);
    var rest := s[|w|..];
    assert s == w + rest;
    SqueezeAppend(w, rest);
    SqueezeNoSpace(w);
    if rest == [] {
      assert SplitWs(s) == [w];
    } else {
      var t := TrimStart(rest);
      SplitWsKeepsText(t);
      TrimStartKeepsText(rest);
      assert SplitWs(s) == [w] + SplitWs(t);
      JoinConsEmpty(w, SplitWs(t));
    }
  }

  lemma TrimStartKeepsText(s: string)
    ensures Squeeze(TrimStart(s)) == Squeeze(s)
  {
    var t := TrimStart(s);
    assert s == s[..|s| - |t|] + t;
    SqueezeAppend(s[..|s| - |t|], t);
    SqueezeAllSpace(s[..|s| - |t|]);
  }

  lemma JoinConsEmpty(w: string, tail: seq<string>)
    requires |tail| >= 1
    ensures Join([w] + tail, "") == w + Join(tail, "")
  {
    var parts := [w] + tail;
    assert parts[0] == w && parts[1..] == tail;
    assert w + "" == w;
  }

  /** On text that neither starts nor ends with whitespace, and is not empty, no piece is empty. */
  lemma {:induction false} SplitWsPiecesNonEmpty(s: string)
    requires s != [] && !IsSpace(s[0]) && !IsSpace(s[|s| - 1])
    ensures forall k :: 0 <= k < |SplitWs(s)| ==> SplitWs(s)[k] != []
    decreases |s|
  {
    var w := WordPrefix(s);
    var rest := s[|w|..];
    assert w != [];
    if rest != [] {
      var t := TrimStart(rest);
      assert !AllSpace(rest) by { assert rest[|rest| - 1] == s[|s| - 1]; }
      assert t[|t| - 1] == s[|s| - 1];
      SplitWsPiecesNonEmpty(t);
    }
  }

  /** Code-point lexicographic order on strings (`a` sorts before or equal to `b`). */
  predicate LexLe(a: string, b: string) {
    if a == [] then true
    else if b == [] then false
    else if a[0] != b[0] then a[0] < b[0]
    else LexLe(a[1..], b[1..])
  }

  lemma {:induction false} LexLeTotal(a: string, b: string)
    ensures LexLe(a, b) || LexLe(b, a)
  {
    if a != [] && b != [] && a[0] == b[0] {
      LexLeTotal(a[1..], b[1..]);
    }
  }

  lemma {:induction false} LexLeTransitive(a: string, b: string, c: string)
    requires LexLe(a, b) && LexLe(b, c)
    ensures LexLe(a, c)
  {
    if a != [] && b != [] && c != [] && a[0] == b[0] && b[0] == c[0] {
      LexLeTransitive(a[1..], b[1..], c[1..]);
    }
  }

  /** Distinct names are strictly ordered, so a list sorted by name has one order of its distinct names. */
  lemma {:induction false} LexLeAntisymmetric(a: string, b: string)
    requires LexLe(a, b) && LexLe(b, a)
    ensures a == b
  {
    if a != [] {
      LexLeAntisymmetric(a[1..], b[1..]);
      assert a == [a[0]] + a[1..] && b == [b[0]] + b[1..];
    }
  }
}
