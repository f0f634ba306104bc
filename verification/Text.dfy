/** Strings as the Python sources treat them: whitespace, stripping, the order of
    code points, and searching from the right. */
module Text {

  /** The characters for which Python's `str.isspace` holds; `str.strip` and the
      pattern `\s` both use this class. */
  predicate IsSpace(c: char) {
    '\U{0009}' <= c <= '\U{000D}' || '\U{001C}' <= c <= '\U{0020}' || c == '\U{0085}' || c == '\U{00A0}' ||
    c == '\U{1680}' || '\U{2000}' <= c <= '\U{200A}' || c == '\U{2028}' || c == '\U{2029}' ||
    c == '\U{202F}' || c == '\U{205F}' || c == '\U{3000}'
  }

  predicate Blank(s: string) {
    forall i :: 0 <= i < |s| ==> IsSpace(s[i])
  }

  /** Where the ink begins, looking from `i` on. */
  function FirstInk(s: string, i: nat): (k: nat)
    requires i <= |s|
    ensures i <= k <= |s|
    ensures forall m :: i <= m < k ==> IsSpace(s[m])
    ensures k < |s| ==> !IsSpace(s[k])
    decreases |s| - i
  {
    if i < |s| && IsSpace(s[i]) then FirstInk(s, i + 1) else i
  }

  /** Where the ink ends, looking from `n` back. */
  function LastInk(s: string, n: nat): (k: nat)
    requires n <= |s|
    ensures k <= n
    ensures forall m :: k <= m < n ==> IsSpace(s[m])
    ensures k > 0 ==> !IsSpace(s[k - 1])
  {
    if n > 0 && IsSpace(s[n - 1]) then LastInk(s, n - 1) else n
  }

  function LStrip(s: string): string {
    s[FirstInk(s, 0)..]
  }

  function RStrip(s: string): string {
    s[..LastInk(s, |s|)]
  }

  function Strip(s: string): string {
    RStrip(LStrip(s))
  }

  lemma FirstInkAt(s: string, k: nat)
    requires k <= |s| && (forall i :: 0 <= i < k ==> IsSpace(s[i])) && (k < |s| ==> !IsSpace(s[k]))
    ensures FirstInk(s, 0) == k && LStrip(s) == s[k..]
  {
    hide IsSpace;
    assert k < |s| ==> !IsSpace(s[k]);
  }

  lemma LastInkAt(s: string, k: nat)
    requires k <= |s| && (forall i :: k <= i < |s| ==> IsSpace(s[i])) && (k > 0 ==> !IsSpace(s[k - 1]))
    ensures LastInk(s, |s|) == k && RStrip(s) == s[..k]
  {
    hide IsSpace;
    var k' := LastInk(s, |s|);
    assert k > 0 ==> !IsSpace(s[k - 1]);
    assert k' > 0 ==> !IsSpace(s[k' - 1]);
  }

  lemma LStripIs(s: string)
    ensures |LStrip(s)| <= |s| && (LStrip(s) != "" ==> !IsSpace(LStrip(s)[0]))
    ensures LStrip(s) == "" <==> Blank(s)
  {
    hide IsSpace;
    var k := FirstInk(s, 0);
    assert k < |s| ==> LStrip(s)[0] == s[k];
  }

  lemma RStripIs(s: string)
    ensures |RStrip(s)| <= |s| && (RStrip(s) != "" ==> !IsSpace(RStrip(s)[|RStrip(s)| - 1]) && RStrip(s)[0] == s[0])
    ensures RStrip(s) == "" <==> Blank(s)
  {
    hide IsSpace;
    var k := LastInk(s, |s|);
    assert k > 0 ==> RStrip(s)[k - 1] == s[k - 1];
  }

  lemma StripIs(s: string)
    ensures |Strip(s)| <= |s|
    ensures Strip(s) != "" ==> !IsSpace(Strip(s)[0]) && !IsSpace(Strip(s)[|Strip(s)| - 1])
    ensures Strip(s) == "" <==> Blank(s)
  {
    hide IsSpace;
    LStripIs(s);
    RStripIs(LStrip(s));
  }

  /** Stripping takes blanks off both ends, and nothing else. */
  lemma StripCuts(s: string)
    ensures exists i, j :: 0 <= i <= j <= |s| && Strip(s) == s[i..j] && Blank(s[..i]) && Blank(s[j..])
  {
    hide IsSpace;
    var i := FirstInk(s, 0);
    var k := LastInk(s[i..], |s[i..]|);
    assert forall m :: k <= m < |s[i..]| ==> s[i..][m] == s[i + m];
    assert s[i..][..k] == s[i..i + k];
  }

  /** Among the ASCII characters, the blanks are the space, 9 to 13 and 28 to 31. */
  lemma AsciiBlanks(c: char)
    requires c as int < 128
    ensures IsSpace(c) <==> c as int in {9, 10, 11, 12, 13, 28, 29, 30, 31, 32}
  {
  }

  /** A text that begins and ends with ink is its own strip. */
  lemma StripFixed(s: string)
    requires s != "" ==> !IsSpace(s[0]) && !IsSpace(s[|s| - 1])
    ensures Strip(s) == s
  {
    hide IsSpace;
  }

  /** The characters of `s` that are not whitespace, in order. */
  function Ink(s: string): string {
    if s == "" then "" else (if IsSpace(s[0]) then "" else [s[0]]) + Ink(s[1..])
  }

  lemma InkNil()
    ensures Ink("") == "" && InkAll([]) == ""
  {
  }

  lemma InkConcat(a: string, b: string)
    ensures Ink(a + b) == Ink(a) + Ink(b)
  {
    hide IsSpace;
    if a == "" {
      assert a + b == b;
    } else {
      assert (a + b)[1..] == a[1..] + b;
      InkConcat(a[1..], b);
    }
  }

  lemma InkBlank(s: string)
    ensures Ink(s) == "" <==> Blank(s)
  {
    hide IsSpace;
    if s != "" {
      InkBlank(s[1..]);
      assert s == [s[0]] + s[1..];
    }
  }

  lemma InkStrip(s: string)
    ensures Ink(LStrip(s)) == Ink(RStrip(s)) == Ink(Strip(s)) == Ink(s)
  {
    InkLStrip(s);
    InkRStrip(s);
    InkRStrip(LStrip(s));
  }

  lemma InkLStrip(s: string)
    ensures Ink(LStrip(s)) == Ink(s)
  {
    hide IsSpace, Ink;
    var k := FirstInk(s, 0);
    InkBlank(s[..k]);
    InkConcat(s[..k], s[k..]);
    assert s == s[..k] + s[k..];
  }

  lemma InkRStrip(s: string)
    ensures Ink(RStrip(s)) == Ink(s)
  {
    hide IsSpace, Ink;
    var k := LastInk(s, |s|);
    InkBlank(s[k..]);
    InkConcat(s[..k], s[k..]);
    assert s == s[..k] + s[k..];
  }

  /** All the strings of a list, one after the other. */
  function Concat(ss: seq<string>): string {
    if ss == [] then "" else ss[0] + Concat(ss[1..])
  }

  lemma ConcatAppend(a: seq<string>, b: seq<string>)
    ensures Concat(a + b) == Concat(a) + Concat(b)
  {
    if a == [] {
      assert a + b == b;
    } else {
      assert (a + b)[1..] == a[1..] + b;
      ConcatAppend(a[1..], b);
    }
  }

  /** The ink of a list of strings. */
  function InkAll(ss: seq<string>): string {
    if ss == [] then "" else Ink(ss[0]) + InkAll(ss[1..])
  }

  lemma InkAllConcat(ss: seq<string>)
    ensures InkAll(ss) == Ink(Concat(ss))
  {
    if ss != [] {
      InkAllConcat(ss[1..]);
      InkConcat(ss[0], Concat(ss[1..]));
    }
  }

  lemma InkAllCons(s: string, ss: seq<string>)
    ensures InkAll([s] + ss) == Ink(s) + InkAll(ss)
  {
    assert ([s] + ss)[1..] == ss;
  }

  lemma InkAllOne(s: string)
    ensures InkAll([s]) == Ink(s)
  {
    assert InkAll([s][1..]) == "";
  }

  lemma InkAllAppend(a: seq<string>, b: seq<string>)
    ensures InkAll(a + b) == InkAll(a) + InkAll(b)
  {
    if a == [] {
      assert a + b == b;
    } else {
      assert (a + b)[1..] == a[1..] + b;
      InkAllAppend(a[1..], b);
    }
  }

  /** Python's order on strings: by code point at the first difference. */
  predicate Less(a: string, b: string) {
    b != "" && (a == "" || a[0] < b[0] || (a[0] == b[0] && Less(a[1..], b[1..])))
  }

  lemma {:induction false} LessTrans(a: string, b: string, c: string)
    requires Less(a, b) && Less(b, c)
    ensures Less(a, c)
  {
    if a != "" && a[0] == b[0] == c[0] {
      LessTrans(a[1..], b[1..], c[1..]);
    }
  }

  lemma LessIrreflexive(a: string)
    ensures !Less(a, a)
  {
    if a != "" {
      LessIrreflexive(a[1..]);
    }
  }

  lemma {:induction false} LessTotal(a: string, b: string)
    ensures a == b || Less(a, b) || Less(b, a)
    ensures !(Less(a, b) && Less(b, a)) && !Less(a, a)
    decreases |a| + |b|
  {
    if a != "" {
      LessIrreflexive(a);
      if b != "" && a[0] == b[0] {
        LessTotal(a[1..], b[1..]);
        assert a == [a[0]] + a[1..] && b == [b[0]] + b[1..];
      }
    }
  }

  /** `str.rfind` of one character: its last index, or -1. */
  function RFind(s: string, c: char): (i: int)
    ensures -1 <= i < |s|
    ensures i >= 0 ==> s[i] == c
    ensures forall k :: i < k < |s| ==> s[k] != c
  {
    if s == "" then -1 else if s[|s| - 1] == c then |s| - 1 else RFind(s[..|s| - 1], c)
  }
}
