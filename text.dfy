/**
 * String trimming as done by ECMAScript's String.prototype.trim: white space
 * and line terminators are removed from both ends, nothing else changes.
 */
module Text {

  /** ECMAScript WhiteSpace (TAB, VT, FF, ZWNBSP and the Space_Separator
      characters) and LineTerminator (LF, CR, LS, PS). */
  predicate IsSpace(c: char) {
    var n := c as int;
    n == 0x09 || n == 0x0A || n == 0x0B || n == 0x0C || n == 0x0D || n == 0x20 ||
    n == 0xA0 || n == 0x1680 || (0x2000 <= n <= 0x200A) || n == 0x2028 || n == 0x2029 ||
    n == 0x202F || n == 0x205F || n == 0x3000 || n == 0xFEFF
  }

  predicate AllSpace(s: string) {
    forall k :: 0 <= k < |s| ==> IsSpace(s[k])
  }

  /** No white space at either end (the empty string qualifies). */
  predicate Trimmed(s: string) {
    s != [] ==> !IsSpace(s[0]) && !IsSpace(s[|s| - 1])
  }

  /** The number of white-space characters s starts with. */
  function LeadingSpaces(s: string): (n: nat)
    ensures n <= |s|
    ensures forall k :: 0 <= k < n ==> IsSpace(s[k])
    ensures n < |s| ==> !IsSpace(s[n])
  {
    if s != [] && IsSpace(s[0]) then 1 + LeadingSpaces(s[1..]) else 0
  }

  /** The number of white-space characters s ends with. */
  function TrailingSpaces(s: string): (n: nat)
    ensures n <= |s|
    ensures forall k :: |s| - n <= k < |s| ==> IsSpace(s[k])
    ensures n < |s| ==> !IsSpace(s[|s| - 1 - n])
  {
    if s != [] && IsSpace(s[|s| - 1]) then 1 + TrailingSpaces(s[..|s| - 1]) else 0
  }

  /** String.prototype.trim: the part of s between its leading and its
      trailing white space. */
  function Trim(s: string): (r: string)
    ensures Trimmed(r)
    ensures r == [] <==> AllSpace(s)
    ensures r != [] ==> r == s[LeadingSpaces(s)..|s| - TrailingSpaces(s)]
  {
    var i := LeadingSpaces(s);
    if i == |s| then [] else s[i..|s| - TrailingSpaces(s)]
  }

  lemma {:induction false} LeadingOfSpaces(a: string, m: string)
    requires AllSpace(a)
    requires m != [] ==> !IsSpace(m[0])
    ensures LeadingSpaces(a + m) == |a|
    decreases |a|
  {
    if a == [] {
      assert a + m == m;
    } else {
      assert (a + m)[1..] == a[1..] + m;
      assert (a + m)[0] == a[0];
      LeadingOfSpaces(a[1..], m);
    }
  }

  lemma {:induction false} TrailingOfSpaces(m: string, b: string)
    requires AllSpace(b)
    requires m != [] ==> !IsSpace(m[|m| - 1])
    ensures TrailingSpaces(m + b) == |b|
    decreases |b|
  {
    if b == [] {
      assert m + b == m;
    } else {
      var b' := b[..|b| - 1];
      assert (m + b)[..|m + b| - 1] == m + b';
      assert (m + b)[|m + b| - 1] == b[|b| - 1];
      TrailingOfSpaces(m, b');
    }
  }

  /** Trim is characterised by its result: whatever white space surrounds a
      non-empty string that has none at its ends, trimming gives back exactly
      that string. */
  lemma TrimSurrounded(a: string, m: string, b: string)
    requires AllSpace(a) && AllSpace(b) && m != [] && Trimmed(m)
    ensures Trim(a + m + b) == m
  {
    var s := a + m + b;
    assert s == a + (m + b);
    LeadingOfSpaces(a, m + b);
    TrailingOfSpaces(a + m, b);
    assert s[|a|..|s| - |b|] == m;
  }

  /** Trimming twice is trimming once. */
  lemma TrimIdempotent(s: string)
    ensures Trim(Trim(s)) == Trim(s)
  {
    var r := Trim(s);
    if r != [] {
      TrimSurrounded([], r, []);
      assert [] + r + [] == r;
    }
  }
}
