/**
 * String primitives of JavaScript that the core relies on: what `trim()` and
 * the regular-expression class `\s` count as white space, `indexOf("\n\n")`,
 * `startsWith`, `slice(0, n)` and the decimal rendering of a status code.
 * Strings are sequences of characters; UTF-16 code units are not modelled.
 */
module Text {
  import opened Wrappers

  /** WhiteSpace and LineTerminator code points of ECMAScript (the set used by trim and by \s). */
  predicate IsJsSpace(c: char) {
    || c == '\t' || c == '\n' || c == '\U{B}' || c == '\U{C}' || c == '\r' || c == ' '
    || c == '\U{A0}' || c == '\U{1680}' || ('\U{2000}' <= c <= '\U{200A}')
    || c == '\U{2028}' || c == '\U{2029}' || c == '\U{202F}' || c == '\U{205F}'
    || c == '\U{3000}' || c == '\U{FEFF}'
  }

  predicate AllSpace(s: string) {
    forall i :: 0 <= i < |s| ==> IsJsSpace(s[i])
  }

  /** Leading white space removed (what a leading `\s*` pattern deletes). */
  function TrimStart(s: string): string {
    if s != [] && IsJsSpace(s[0]) then TrimStart(s[1..]) else s
  }

  function TrimEnd(s: string): string {
    if s != [] && IsJsSpace(s[|s| - 1]) then TrimEnd(s[..|s| - 1]) else s
  }

  /** `String.prototype.trim`. */
  function Trim(s: string): string {
    TrimStart(TrimEnd(s))
  }

  /** TrimStart removes a maximal run of white space, and nothing else, from the front. */
  lemma {:induction false} TrimStartShape(s: string)
    ensures |TrimStart(s)| <= |s| && TrimStart(s) == s[|s| - |TrimStart(s)|..]
    ensures AllSpace(s[..|s| - |TrimStart(s)|])
    ensures TrimStart(s) == [] || !IsJsSpace(TrimStart(s)[0])
  {
    if s != [] && IsJsSpace(s[0]) {
      var s' := s[1..];
      TrimStartShape(s');
      var r := TrimStart(s);
      assert r == TrimStart(s');
      var k := |s| - |r|;
      assert s[k..] == s'[k - 1..];
      forall i | 0 <= i < k ensures IsJsSpace(s[..k][i]) {
        if i > 0 {
          assert s[..k][i] == s'[..k - 1][i - 1];
        }
      }
    }
  }

  /** TrimEnd removes a maximal run of white space, and nothing else, from the back. */
  lemma {:induction false} TrimEndShape(s: string)
    ensures |TrimEnd(s)| <= |s| && TrimEnd(s) == s[..|TrimEnd(s)|]
    ensures AllSpace(s[|TrimEnd(s)|..])
    ensures TrimEnd(s) == [] || !IsJsSpace(TrimEnd(s)[|TrimEnd(s)| - 1])
  {
    if s != [] && IsJsSpace(s[|s| - 1]) {
      var s' := s[..|s| - 1];
      TrimEndShape(s');
      var r := TrimEnd(s);
      assert s[..|r|] == s'[..|r|];
      assert s[|r|..] == s'[|r|..] + [s[|s| - 1]];
    }
  }

  /** `s.trim()` is the empty string exactly when every character of `s` is white space. */
  lemma TrimEmptyIffAllSpace(s: string)
    ensures Trim(s) == [] <==> AllSpace(s)
  {
    var e := TrimEnd(s);
    TrimEndShape(s);
    TrimStartShape(e);
    if Trim(s) == [] {
      assert |e| == 0;
      assert s[|e|..] == s;
    } else {
      var t := Trim(s);
      assert t[0] == e[|e| - |t|];
      assert e[|e| - |t|] == s[|e| - |t|];
    }
  }

  /** A trimmed string neither starts nor ends with white space. */
  lemma TrimBorders(s: string)
    ensures var t := Trim(s); t == [] || (!IsJsSpace(t[0]) && !IsJsSpace(t[|t| - 1]))
  {
    var e := TrimEnd(s);
    TrimEndShape(s);
    TrimStartShape(e);
    var t := TrimStart(e);
    if t != [] {
      assert t[|t| - 1] == e[|e| - 1];
    }
  }

  /** Trimming a string with no white space at either end changes nothing. */
  lemma TrimOfTrimmed(s: string)
    requires s == [] || (!IsJsSpace(s[0]) && !IsJsSpace(s[|s| - 1]))
    ensures Trim(s) == s
  {
  }

  predicate StartsWith(s: string, prefix: string) {
    |prefix| <= |s| && s[..|prefix|] == prefix
  }

  /** `s.slice(0, n)`. */
  function SliceTo(s: string, n: nat): (r: string)
    ensures |r| == if |s| < n then |s| else n
    ensures StartsWith(s, r)
  {
    if |s| <= n then s else s[..n]
  }

  /** A record boundary `"\n\n"` starts at position p of s. */
  predicate BoundaryAt(s: string, p: int) {
    0 <= p && p + 1 < |s| && s[p] == '\n' && s[p + 1] == '\n'
  }

  predicate NoBoundary(s: string) {
    forall p :: 0 <= p < |s| ==> !BoundaryAt(s, p)
  }

  /** `s.indexOf("\n\n")`, with None for -1: the FIRST boundary. */
  function IndexOfBoundary(s: string): (r: Option<nat>)
    ensures r.Some? ==> BoundaryAt(s, r.value)
    ensures r.Some? ==> forall p :: 0 <= p < r.value ==> !BoundaryAt(s, p)
    ensures r.None? <==> NoBoundary(s)
  {
    if |s| < 2 then None
    else if s[0] == '\n' && s[1] == '\n' then assert BoundaryAt(s, 0); Some(0)
    else
      match IndexOfBoundary(s[1..])
      case None =>
        assert NoBoundary(s) by {
          forall p | 0 <= p < |s| ensures !BoundaryAt(s, p) {
            if p > 0 {
              assert BoundaryAt(s, p) == BoundaryAt(s[1..], p - 1);
            }
          }
        }
        None
      case Some(k) =>
        assert forall p :: 1 <= p < |s| ==> BoundaryAt(s, p) == BoundaryAt(s[1..], p - 1);
        assert BoundaryAt(s, k + 1);
        Some(k + 1)
  }

  function DigitChar(d: nat): (c: char)
    requires d < 10
  {
    ['0', '1', '2', '3', '4', '5', '6', '7', '8', '9'][d]
  }

  predicate IsDigit(c: char) {
    '0' <= c <= '9'
  }

  /** The value a string of decimal digits denotes, most significant digit first. */
  function DigitsValue(s: string): nat
    requires forall i :: 0 <= i < |s| ==> IsDigit(s[i])
  {
    if s == [] then 0
    else
      assert IsDigit(s[|s| - 1]);
      DigitsValue(s[..|s| - 1]) * 10 + ((s[|s| - 1] as int) - ('0' as int))
  }

  /** The decimal rendering of a non-negative integer, as a template literal prints it: digits
      that denote n, with no leading zero unless n is 0. */
  function DecimalString(n: nat): (r: string)
    ensures |r| >= 1
    ensures forall i :: 0 <= i < |r| ==> IsDigit(r[i])
    ensures DigitsValue(r) == n
    ensures r[0] == '0' <==> n == 0
    ensures n == 0 ==> r == "0"
    decreases n
  {
    if n < 10 then [DigitChar(n)]
    else
      var r := DecimalString(n / 10) + [DigitChar(n % 10)];
      assert r[..|r| - 1] == DecimalString(n / 10);
      r
  }

  /** The rendering is the only digit string without a leading zero that denotes its value. */
  lemma {:induction false} DecimalStringUnique(s: string)
    requires |s| >= 1 && forall i :: 0 <= i < |s| ==> IsDigit(s[i])
    requires s[0] == '0' ==> |s| == 1
    ensures DecimalString(DigitsValue(s)) == s
  {
    var n := DigitsValue(s);
    var last := s[|s| - 1];
    assert IsDigit(last);
    assert n == DigitsValue(s[..|s| - 1]) * 10 + ((last as int) - ('0' as int));
    if |s| == 1 {
      assert s[..|s| - 1] == [];
    } else {
      var init := s[..|s| - 1];
      DecimalStringUnique(init);
      assert init[0] == s[0];
      assert DigitsValue(init) >= 1;
      assert n / 10 == DigitsValue(init) && n % 10 == (last as int) - ('0' as int);
      assert s == init + [last];
    }
  }
}
