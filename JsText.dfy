/** JavaScript strings as the component sees them: sequences of UTF-16 code
    units (what `String.prototype.length` counts), together with the
    code-unit classes used by its regular expressions and by
    `String.prototype.trim`, and the two library string operations the
    component relies on: `trim()` and `replace(/[class]/g, '')`. */
module JsText {

  /** One UTF-16 code unit. */
  type CodeUnit = u: int | 0 <= u < 0x1_0000

  /** A JavaScript string value. */
  type JsString = seq<CodeUnit>

  /** The code units of an ASCII literal of the source. */
  function Ascii(s: string): (r: JsString)
    requires forall k :: 0 <= k < |s| ==> s[k] as int < 0x80
    ensures |r| == |s|
    ensures forall k :: 0 <= k < |s| ==> r[k] == s[k] as int
  {
    seq(|s|, k requires 0 <= k < |s| => s[k] as int)
  }

  /** ECMAScript WhiteSpace and LineTerminator code units: the set that
      `trim()` removes and that `\s` matches. */
  predicate IsJsSpace(u: CodeUnit) {
    || u == 0x09 || u == 0x0A || u == 0x0B || u == 0x0C || u == 0x0D
    || u == 0x20 || u == 0xA0 || u == 0x1680
    || (0x2000 <= u <= 0x200A)
    || u == 0x2028 || u == 0x2029 || u == 0x202F || u == 0x205F
    || u == 0x3000 || u == 0xFEFF
  }

  /** `\w` without the `u` flag: `[A-Za-z0-9_]`. */
  predicate IsWordUnit(u: CodeUnit) {
    (0x30 <= u <= 0x39) || (0x41 <= u <= 0x5A) || (0x61 <= u <= 0x7A) || u == 0x5F
  }

  predicate IsDigitUnit(u: CodeUnit) {
    0x30 <= u <= 0x39
  }

  /** Maps `A`-`Z` to `a`-`z` and leaves every other code unit alone. Under
      the `i` flag without `u`, a non-ASCII code unit never matches an ASCII
      one, so for ASCII patterns this is exactly the regex's case folding. */
  function LowerAscii(u: CodeUnit): (r: CodeUnit)
    ensures r < 0x80 <==> u < 0x80
    ensures !(0x41 <= r <= 0x5A)
    ensures r == u || r == u + 0x20
  {
    if 0x41 <= u <= 0x5A then u + 0x20 else u
  }

  ghost predicate AllSpace(s: JsString) {
    forall k :: 0 <= k < |s| ==> IsJsSpace(s[k])
  }

  /** The number of white-space code units at the front of s. */
  function LeadingSpaces(s: JsString): (n: nat)
    ensures n <= |s|
    ensures forall k :: 0 <= k < n ==> IsJsSpace(s[k])
    ensures n < |s| ==> !IsJsSpace(s[n])
  {
    if s == [] || !IsJsSpace(s[0]) then 0 else 1 + LeadingSpaces(s[1..])
  }

  /** The number of white-space code units at the back of s. */
  function TrailingSpaces(s: JsString): (n: nat)
    ensures n <= |s|
    ensures forall k :: |s| - n <= k < |s| ==> IsJsSpace(s[k])
    ensures n < |s| ==> !IsJsSpace(s[|s| - 1 - n])
  {
    if s == [] || !IsJsSpace(s[|s| - 1]) then 0 else 1 + TrailingSpaces(s[..|s| - 1])
  }

  /** `String.prototype.trim`: the infix of s left once the white space at
      both ends is removed. Every code unit outside the infix is white space,
      the infix neither starts nor ends with white space, it is empty exactly
      when s is all white space, and a string that is already trimmed is its
      own trim. */
  function Trim(s: JsString): (r: JsString)
    ensures LeadingSpaces(s) + |r| <= |s|
    ensures r == s[LeadingSpaces(s)..LeadingSpaces(s) + |r|]
    ensures forall k :: 0 <= k < LeadingSpaces(s) || LeadingSpaces(s) + |r| <= k < |s| ==> IsJsSpace(s[k])
    ensures r == [] || (!IsJsSpace(r[0]) && !IsJsSpace(r[|r| - 1]))
    ensures r == [] <==> AllSpace(s)
    ensures s == [] || (!IsJsSpace(s[0]) && !IsJsSpace(s[|s| - 1])) ==> r == s
  {
    var i := LeadingSpaces(s);
    var t := s[i..];
    var r := t[..|t| - TrailingSpaces(t)];
    assert AllSpace(s) ==> i == |s|;
    r
  }

  /** `s.replace(/[class]/g, '')`: s with every code unit of the class
      deleted. The result holds no code unit of the class, is never longer,
      and has the same length exactly when nothing was deleted, in which case
      it is s itself. */
  function RemoveAll(s: JsString, drop: CodeUnit -> bool): (r: JsString)
    ensures |r| <= |s|
    ensures forall k :: 0 <= k < |r| ==> !drop(r[k])
    ensures |r| == |s| <==> (forall k :: 0 <= k < |s| ==> !drop(s[k]))
    ensures |r| == |s| ==> r == s
  {
    if s == [] then []
    else
      var rest := RemoveAll(s[1..], drop);
      assert forall k :: 1 <= k < |s| ==> s[k] == s[1..][k - 1];
      if drop(s[0]) then rest else [s[0]] + rest
  }

  /** With the singleton case, this pins RemoveAll down: it keeps the
      surviving code units in their original order. */
  lemma {:induction false} RemoveAllConcat(a: JsString, b: JsString, drop: CodeUnit -> bool)
    ensures RemoveAll(a + b, drop) == RemoveAll(a, drop) + RemoveAll(b, drop)
  {
    if a == [] {
      assert a + b == b;
    } else {
      assert (a + b)[1..] == a[1..] + b;
      RemoveAllConcat(a[1..], b, drop);
    }
  }
}
