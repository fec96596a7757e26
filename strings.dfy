/** `unicode.IsSpace` and `strings.TrimSpace` from Go's standard library, on
    strings taken as sequences of Unicode code points. */
module Strings {

  /** The Latin-1 spaces ('\t', '\n', '\v', '\f', '\r', ' ', U+0085, U+00A0)
      and the other code points with the Unicode White_Space property. */
  predicate IsSpace(c: char)
    ensures c as int < 0x80 ==> (IsSpace(c) <==> c as int in {0x09, 0x0A, 0x0B, 0x0C, 0x0D, 0x20})
    ensures IsSpace(c) ==> !('0' <= c <= '9') && c != '+' && c != '-'
  {
    var n := c as int;
    || 0x09 <= n <= 0x0D
    || n == 0x20 || n == 0x85 || n == 0xA0 || n == 0x1680
    || 0x2000 <= n <= 0x200A
    || n == 0x2028 || n == 0x2029 || n == 0x202F || n == 0x205F || n == 0x3000
  }

  /** Empty, or made of white space only. */
  predicate Blank(s: string) {
    forall i | 0 <= i < |s| :: IsSpace(s[i])
  }

  /** The length of the white-space run that starts `s`. */
  function LeadingSpaces(s: string): (k: nat)
    ensures k <= |s|
    ensures Blank(s[..k])
    ensures k < |s| ==> !IsSpace(s[k])
  {
    if s == [] || !IsSpace(s[0]) then 0 else 1 + LeadingSpaces(s[1..])
  }

  /** The length of the white-space run that ends `s`. */
  function TrailingSpaces(s: string): (k: nat)
    ensures k <= |s|
    ensures Blank(s[|s| - k..])
    ensures k < |s| ==> !IsSpace(s[|s| - 1 - k])
  {
    if s == [] || !IsSpace(s[|s| - 1]) then 0 else 1 + TrailingSpaces(s[..|s| - 1])
  }

  /** `strings.TrimSpace`: `s` without its leading and trailing white space. */
  function TrimSpace(s: string): (r: string)
    ensures exists i, j | 0 <= i <= j <= |s| :: r == s[i..j] && Blank(s[..i]) && Blank(s[j..])
    ensures r == [] || (!IsSpace(r[0]) && !IsSpace(r[|r| - 1]))
  {
    var i := LeadingSpaces(s);
    var t := s[i..];
    var j := i + |t| - TrailingSpaces(t);
    assert t[..|t| - TrailingSpaces(t)] == s[i..j];
    assert t[|t| - TrailingSpaces(t)..] == s[j..];
    s[i..j]
  }

  /** White space followed by white space is white space. */
  lemma BlankAppend(a: string, b: string)
    requires Blank(a) && Blank(b)
    ensures Blank(a + b)
  {
    forall k | 0 <= k < |a + b| ensures IsSpace((a + b)[k]) {
      if k >= |a| {
        assert (a + b)[k] == b[k - |a|];
      }
    }
  }

  /** Trimming leaves nothing exactly when the string is blank. */
  lemma TrimSpaceEmptyIff(s: string)
    ensures TrimSpace(s) == [] <==> Blank(s)
  {
    var i := LeadingSpaces(s);
    var t := s[i..];
    var k := TrailingSpaces(t);
    assert TrimSpace(s) == s[i..i + |t| - k];
    if Blank(s) {
      assert i == |s|;
    }
    if TrimSpace(s) == [] {
      assert k == |t| && t[|t| - k..] == t;
      assert s == s[..i] + t;
      BlankAppend(s[..i], t);
    }
  }

  /** Trimming twice is trimming once. */
  lemma TrimSpaceIdempotent(s: string)
    ensures TrimSpace(TrimSpace(s)) == TrimSpace(s)
  {
    var r := TrimSpace(s);
    var i := LeadingSpaces(r);
    if r != [] {
      assert i == 0;
      var t := r[i..];
      assert t == r;
      assert TrailingSpaces(t) == 0;
    }
  }
}
