/** Whitespace, as `str::trim` sees it, and the order of texts. */
module Text {

  /** `char::is_whitespace`. */
  predicate IsSpace(c: char) {
    var n := c as int;
    || 0x09 <= n <= 0x0D || n == 0x20 || n == 0x85 || n == 0xA0 || n == 0x1680
    || 0x2000 <= n <= 0x200A || n == 0x2028 || n == 0x2029 || n == 0x202F || n == 0x205F || n == 0x3000
  }

  predicate Blank(s: string) {
    forall i :: 0 <= i < |s| ==> IsSpace(s[i])
  }

  function Trim(s: string): string {
    if s != [] && IsSpace(s[0]) then Trim(s[1..])
    else if s != [] && IsSpace(s[|s| - 1]) then Trim(s[..|s| - 1])
    else s
  }

  // ----- what trimming leaves

  ghost predicate Around(s: string, before: string, middle: string, after: string) {
    s == before + middle + after && Blank(before) && Blank(after)
  }

  lemma SpaceBefore(s: string, before: string, middle: string, after: string)
    requires s != [] && IsSpace(s[0]) && Around(s[1..], before, middle, after)
    ensures Around(s, [s[0]] + before, middle, after)
  {
    hide IsSpace;
    assert s == [s[0]] + s[1..];
  }

  lemma SpaceAfter(s: string, before: string, middle: string, after: string)
    requires s != [] && IsSpace(s[|s| - 1]) && Around(s[..|s| - 1], before, middle, after)
    ensures Around(s, before, middle, after + [s[|s| - 1]])
  {
    hide IsSpace;
    assert s == s[..|s| - 1] + [s[|s| - 1]];
  }

  /** Trimming takes whitespace off both ends, and all of it. */
  lemma {:induction false} TrimMeans(s: string) returns (before: string, after: string)
    ensures Around(s, before, Trim(s), after)
    ensures Trim(s) != [] ==> !IsSpace(Trim(s)[0]) && !IsSpace(Trim(s)[|Trim(s)| - 1])
  {
    hide IsSpace;
    if s != [] && IsSpace(s[0]) {
      before, after := TrimMeans(s[1..]);
      hide Around;
      SpaceBefore(s, before, Trim(s[1..]), after);
      before := [s[0]] + before;
    } else if s != [] && IsSpace(s[|s| - 1]) {
      before, after := TrimMeans(s[..|s| - 1]);
      hide Around;
      SpaceAfter(s, before, Trim(s[..|s| - 1]), after);
      after := after + [s[|s| - 1]];
    } else {
      before, after := [], [];
      assert s == [] + s + [];
    }
  }

  /** The characters with the Unicode property White_Space. */
  const WHITE_SPACE: string := [
    '\t', '\n', '\U{0B}', '\U{0C}', '\r', ' ', '\U{85}', '\U{A0}', '\U{1680}', '\U{2000}', '\U{2001}', '\U{2002}',
    '\U{2003}', '\U{2004}', '\U{2005}', '\U{2006}', '\U{2007}', '\U{2008}', '\U{2009}', '\U{200A}', '\U{2028}',
    '\U{2029}', '\U{202F}', '\U{205F}', '\U{3000}']

  lemma SpacesMean(c: char)
    ensures IsSpace(c) <==> c in WHITE_SPACE
  {}

  // ----- the order of texts

  /** `a` and `b` part at `k`: there `a` ends, or has the smaller character. */
  ghost predicate PartAt(a: string, b: string, k: nat) {
    && k <= |a| && k < |b| && a[..k] == b[..k]
    && (k == |a| || a[k] < b[k])
  }

  /** One text stands before another. */
  ghost predicate Before(a: string, b: string) {
    exists k: nat :: PartAt(a, b, k)
  }

  lemma BeforeTail(a: string, b: string)
    requires a != [] && b != [] && a[0] == b[0]
    ensures Before(a, b) <==> Before(a[1..], b[1..])
  {
    if k: nat :| PartAt(a, b, k) {
      assert k > 0 && a[..k][1..] == a[1..][..k - 1] && b[..k][1..] == b[1..][..k - 1];
      assert PartAt(a[1..], b[1..], k - 1);
    }
    if k: nat :| PartAt(a[1..], b[1..], k) {
      assert a[..k + 1] == [a[0]] + a[1..][..k] && b[..k + 1] == [b[0]] + b[1..][..k];
      assert PartAt(a, b, k + 1);
    }
  }

  lemma SameHead(a: string, b: string, k: nat)
    requires PartAt(a, b, k) && k > 0
    ensures a != [] && b != [] && a[0] == b[0]
  {
    assert a[..k][0] == a[0] && b[..k][0] == b[0];
  }

  lemma BeforeHead(a: string, b: string)
    requires a == [] || b == [] || a[0] != b[0]
    ensures Before(a, b) <==> b != [] && (a == [] || a[0] < b[0])
  {
    if k: nat :| PartAt(a, b, k) {
      if k > 0 {
        SameHead(a, b, k);
      }
    }
    if b != [] && (a == [] || a[0] < b[0]) {
      assert PartAt(a, b, 0);
    }
  }
}
