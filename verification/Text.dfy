/** strings.TrimSpace. */
module Text {

  /** unicode.IsSpace. */
  predicate IsUnicodeSpace(c: char) {
    || c == ' ' || c == '\t' || c == '\n' || c == '\U{0B}' || c == '\U{0C}' || c == '\r'
    || c == '\U{85}' || c == '\U{A0}' || c == '\U{1680}' || '\U{2000}' <= c <= '\U{200A}'
    || c == '\U{2028}' || c == '\U{2029}' || c == '\U{202F}' || c == '\U{205F}' || c == '\U{3000}'
  }

  /** Everything outside a..b is white space, and a..b neither begins nor ends with any. */
  predicate TrimsTo(s: string, a: nat, b: nat) {
    && a <= b <= |s|
    && (forall i :: 0 <= i < a ==> IsUnicodeSpace(s[i]))
    && (forall i :: b <= i < |s| ==> IsUnicodeSpace(s[i]))
    && (a < b ==> !IsUnicodeSpace(s[a]) && !IsUnicodeSpace(s[b - 1]))
  }

  ghost predicate IsTrimmed(s: string, r: string) {
    exists a: nat, b: nat :: TrimsTo(s, a, b) && r == s[a..b]
  }

  function FirstSolid(s: string, a: nat): (i: nat)
    requires a <= |s|
    ensures a <= i <= |s| && (forall j :: a <= j < i ==> IsUnicodeSpace(s[j])) && (i < |s| ==> !IsUnicodeSpace(s[i]))
    decreases |s| - a
  {
    if a == |s| || !IsUnicodeSpace(s[a]) then a else FirstSolid(s, a + 1)
  }

  function PastSolid(s: string, a: nat, b: nat): (i: nat)
    requires a <= b <= |s|
    ensures a <= i <= b && (forall j :: i <= j < b ==> IsUnicodeSpace(s[j])) && (a < i ==> !IsUnicodeSpace(s[i - 1]))
    decreases b
  {
    if a == b || !IsUnicodeSpace(s[b - 1]) then b else PastSolid(s, a, b - 1)
  }

  /** All white space at both ends is taken off, and nothing else. */
  function TrimSpace(s: string): (r: string)
    ensures IsTrimmed(s, r)
  {
    var a := FirstSolid(s, 0);
    var b := PastSolid(s, a, |s|);
    assert TrimsTo(s, a, b);
    s[a..b]
  }

  /** There is only one such text. */
  lemma TrimmedIsUnique(s: string, r: string, r': string)
    requires IsTrimmed(s, r) && IsTrimmed(s, r')
    ensures r == r'
  {
    var a: nat, b: nat :| TrimsTo(s, a, b) && r == s[a..b];
    var a': nat, b': nat :| TrimsTo(s, a', b') && r' == s[a'..b'];
    SolidInside(s, a, b, a', b');
    SolidInside(s, a', b', a, b);
  }

  lemma SolidInside(s: string, a: nat, b: nat, a': nat, b': nat)
    requires TrimsTo(s, a, b) && TrimsTo(s, a', b')
    ensures a < b ==> a' <= a && b <= b'
  {
  }
}
