/** The string setters the schemas apply on assignment: `trim` (JavaScript
    `String.prototype.trim`) and `lowercase`. */
module Text {

  /** The characters JavaScript counts as white space or line terminators. */
  predicate IsWhitespace(c: char) {
    var n := c as int;
    || (9 <= n <= 13) || n == 32 || n == 0xA0 || n == 0x1680
    || (0x2000 <= n <= 0x200A) || n == 0x2028 || n == 0x2029
    || n == 0x202F || n == 0x205F || n == 0x3000 || n == 0xFEFF
  }

  /** Every character of s from position lo up to (not including) hi is white space. */
  ghost predicate WhitespaceBetween(s: string, lo: int, hi: int) {
    forall k :: lo <= k < hi && 0 <= k < |s| ==> IsWhitespace(s[k])
  }

  /** The first position at or after i that does not hold white space (|s| if none). */
  function LeadingEnd(s: string, i: nat): (j: nat)
    requires i <= |s|
    ensures i <= j <= |s| && WhitespaceBetween(s, i, j)
    ensures j == |s| || !IsWhitespace(s[j])
    decreases |s| - i
  {
    if i < |s| && IsWhitespace(s[i]) then LeadingEnd(s, i + 1) else i
  }

  /** The position after the last character before j, and at or after lo, that is not white
      space (lo if none). */
  function TrailingStart(s: string, j: nat, lo: nat): (k: nat)
    requires lo <= j <= |s|
    ensures lo <= k <= j && WhitespaceBetween(s, k, j)
    ensures k == lo || !IsWhitespace(s[k - 1])
  {
    if lo < j && IsWhitespace(s[j - 1]) then TrailingStart(s, j - 1, lo) else j
  }

  /** s without leading and trailing white space: the slice of s between the first and after
      the last character that is not white space; everything cut away is white space, and
      neither end of the result is. */
  function Trim(s: string): (r: string)
    ensures exists i, j :: 0 <= i <= j <= |s| && r == s[i..j]
                           && WhitespaceBetween(s, 0, i) && WhitespaceBetween(s, j, |s|)
    ensures r == [] || (!IsWhitespace(r[0]) && !IsWhitespace(r[|r| - 1]))
  {
    var i := LeadingEnd(s, 0);
    var j := TrailingStart(s, |s|, i);
    s[i..j]
  }

  /** Trimming twice is trimming once. */
  lemma TrimIdempotent(s: string)
    ensures Trim(Trim(s)) == Trim(s)
  {
    var r := Trim(s);
    assert LeadingEnd(r, 0) == 0;
    assert TrailingStart(r, |r|, 0) == |r|;
    assert r[0..|r|] == r;
  }

  function ToLowerChar(c: char): (d: char)
    ensures 'A' <= c <= 'Z' ==> 'a' <= d <= 'z'
    ensures !('A' <= c <= 'Z') ==> d == c
  {
    if 'A' <= c <= 'Z' then (c as int + 32) as char else c
  }

  /** s with every upper-case ASCII letter replaced by its lower-case letter. */
  function ToLower(s: string): (r: string)
    ensures |r| == |s|
    ensures forall i :: 0 <= i < |s| ==> r[i] == ToLowerChar(s[i])
  {
    if s == [] then [] else [ToLowerChar(s[0])] + ToLower(s[1..])
  }

  /** Lower-casing twice is lower-casing once, and leaves no upper-case ASCII letter. */
  lemma ToLowerIdempotent(s: string)
    ensures ToLower(ToLower(s)) == ToLower(s)
    ensures forall i :: 0 <= i < |s| ==> !('A' <= ToLower(s)[i] <= 'Z')
  {
  }

  /** JavaScript's `.length`: the number of UTF-16 code units, two for a character outside
      the Basic Multilingual Plane and one for any other. */
  function Utf16Length(s: string): (n: nat)
    ensures |s| <= n <= 2 * |s|
    ensures n == |s| <==> forall i :: 0 <= i < |s| ==> (s[i] as int) < 0x10000
  {
    if s == [] then 0
    else
      var rest := Utf16Length(s[1..]);
      assert forall i :: 1 <= i < |s| ==> s[i] == s[1..][i - 1];
      (if (s[0] as int) < 0x10000 then 1 else 2) + rest
  }

  /** A character outside the Basic Multilingual Plane counts twice. */
  lemma Utf16LengthOfAstral(s: string)
    ensures Utf16Length("\U{1F600}" + s) == 2 + Utf16Length(s)
    ensures Utf16Length("\U{1F600}\U{1F600}\U{1F600}\U{1F600}") == 8
  {
    assert ("\U{1F600}" + s)[1..] == s;
  }
}
