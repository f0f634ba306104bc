/** Finding a quote in a document: the same words in the same order, with any separators between
    them, in any case. */
module Locate {
  import opened Wrappers
  import opened Text

  /** How a regular expression compares characters when it ignores case. */
  type Fold = char -> char

  predicate Sep(c: char) {
    IsSpace(c) || c in "|*_`>#-:"
  }

  /** The separators: blanks, and the marks of tables, lists, headings and emphasis. */
  lemma SepIs(c: char)
    ensures Sep(c) <==>
              IsSpace(c) || c == '|' || c == '*' || c == '_' || c == '`' || c == '>' || c == '#' || c == '-' || c == ':'
  {
    var seps := "|*_`>#-:";
    assert seps[0] == '|' && seps[1] == '*' && seps[2] == '_' && seps[3] == '`';
    assert seps[4] == '>' && seps[5] == '#' && seps[6] == '-' && seps[7] == ':';
  }

  /** Case has nothing to do with separators. */
  ghost predicate KeepsSeparators(fold: Fold) {
    forall c, d :: fold(c) == fold(d) ==> Sep(c) == Sep(d)
  }

  /** How many separators, and how many other characters, a string starts with. */
  function SepLen(s: string): (n: nat)
    ensures n <= |s| && (n < |s| ==> !Sep(s[n]))
    ensures forall i :: 0 <= i < n ==> Sep(s[i])
  {
    if s != "" && Sep(s[0]) then 1 + SepLen(s[1..]) else 0
  }

  function WordLen(s: string): (n: nat)
    ensures n <= |s| && (n < |s| ==> Sep(s[n]))
    ensures forall i :: 0 <= i < n ==> !Sep(s[i])
    ensures s != "" && !Sep(s[0]) ==> n > 0
  {
    if s != "" && !Sep(s[0]) then 1 + WordLen(s[1..]) else 0
  }

  /** `re.split` on separators, less the empty pieces. */
  function Words(s: string): (ws: seq<string>)
    ensures forall w :: w in ws ==> IsWord(w)
    decreases |s|
  {
    var t := s[SepLen(s)..];
    if t == "" then [] else [t[..WordLen(t)]] + Words(t[WordLen(t)..])
  }

  predicate IsWord(w: string) {
    w != "" && forall i :: 0 <= i < |w| ==> !Sep(w[i])
  }

  predicate Same(fold: Fold, a: string, b: string) {
    |a| == |b| && forall i :: 0 <= i < |a| ==> fold(a[i]) == fold(b[i])
  }

  predicate SameWords(fold: Fold, a: seq<string>, b: seq<string>) {
    |a| == |b| && forall i :: 0 <= i < |a| ==> Same(fold, a[i], b[i])
  }

  /** What the pattern matches: the words, with one separator or more between each two. */
  ghost predicate Fits(fold: Fold, ws: seq<string>, s: string)
    decreases |ws|
  {
    if ws == [] then s == ""
    else if |ws| == 1 then Same(fold, ws[0], s)
    else exists k :: |ws[0]| < k <= |s| && FitsAfter(fold, ws, s, k)
  }

  ghost predicate FitsAfter(fold: Fold, ws: seq<string>, s: string, k: nat)
    requires ws != [] && |ws[0]| < k <= |s|
    decreases |ws|, 0
  {
    Same(fold, ws[0], s[..|ws[0]|]) && (forall i :: |ws[0]| <= i < k ==> Sep(s[i])) && Fits(fold, ws[1..], s[k..])
  }

  /** How far a word and the separators after it reach, if there are any. */
  function PastWord(fold: Fold, w: string, s: string): (r: Option<nat>)
    ensures r.Some? ==> |w| < r.value <= |s|
  {
    if |w| > |s| || !Same(fold, w, s[..|w|]) || SepLen(s[|w|..]) == 0 then None else Some(|w| + SepLen(s[|w|..]))
  }

  /** How much of the start of `s` the pattern matches. */
  function Match(fold: Fold, ws: seq<string>, s: string): (r: Option<nat>)
    ensures r.Some? ==> r.value <= |s|
    decreases |ws|
  {
    if ws == [] then Some(0)
    else if |ws| == 1 then (if |ws[0]| > |s| || !Same(fold, ws[0], s[..|ws[0]|]) then None else Some(|ws[0]|))
    else
      var k := PastWord(fold, ws[0], s);
      if k.None? then None
      else
        var rest := Match(fold, ws[1..], s[k.value..]);
        if rest.None? then None else Some(k.value + rest.value)
  }

  /** `re.search`: the first place, from `i` on, where the pattern matches. */
  function Search(fold: Fold, ws: seq<string>, text: string, i: nat): (r: Option<nat>)
    requires i <= |text|
    ensures r.Some? ==> i <= r.value <= |text|
    decreases |text| - i
  {
    if Match(fold, ws, text[i..]).Some? then Some(i)
    else if i == |text| then None
    else Search(fold, ws, text, i + 1)
  }

  predicate MatchesAt(fold: Fold, ws: seq<string>, text: string, i: nat) {
    i <= |text| && Match(fold, ws, text[i..]).Some?
  }

  lemma {:induction false} SearchFindsFirst(fold: Fold, ws: seq<string>, text: string, i: nat)
    requires i <= |text|
    ensures var r := Search(fold, ws, text, i);
            && (r.Some? ==> MatchesAt(fold, ws, text, r.value))
            && (forall j: nat :: i <= j && MatchesAt(fold, ws, text, j) ==> r.Some? && r.value <= j)
    decreases |text| - i
  {
    hide Match;
    if Match(fold, ws, text[i..]).None? && i < |text| {
      SearchFindsFirst(fold, ws, text, i + 1);
      assert !MatchesAt(fold, ws, text, i);
    }
  }

  /** `locate`. */
  function Locate(fold: Fold, quote: string, text: string): Option<nat> {
    var ws := Words(quote);
    if ws == [] || |Concat(ws)| < 2 then None else Search(fold, ws, text, 0)
  }

  // ---------------------------------------------------------------- what the pattern means

  /** The stretch holds exactly these words, up to case, and begins and ends with a word. */
  predicate Holds(fold: Fold, ws: seq<string>, s: string) {
    s != "" && !Sep(s[0]) && !Sep(s[|s| - 1]) && SameWords(fold, ws, Words(s))
  }

  lemma WordsLead(s: string)
    requires s != "" && Sep(s[0])
    ensures Words(s) == Words(s[1..])
  {
    hide Sep;
    assert s[SepLen(s)..] == s[1..][SepLen(s[1..])..];
  }

  lemma SkipSeparators(s: string, k: nat)
    requires k <= |s| && forall i :: 0 <= i < k ==> Sep(s[i])
    ensures Words(s) == Words(s[k..])
    decreases k
  {
    hide Sep, Words;
    if k == 0 {
      assert s[0..] == s;
    } else {
      WordsLead(s);
      SkipSeparators(s[1..], k - 1);
      assert s[1..][k - 1..] == s[k..];
    }
  }

  /** A word, then whatever comes after it. */
  lemma WordsHead(s: string)
    requires s != "" && !Sep(s[0])
    ensures Words(s) == [s[..WordLen(s)]] + Words(s[WordLen(s)..])
  {
    hide Sep;
    assert SepLen(s) == 0 && s[0..] == s;
  }

  lemma WordLenIs(s: string, n: nat)
    requires n <= |s| && (forall i :: 0 <= i < n ==> !Sep(s[i])) && (n < |s| ==> Sep(s[n]))
    ensures WordLen(s) == n
  {
    hide Sep;
    hide WordLen;
  }

  lemma OneWord(s: string)
    requires IsWord(s)
    ensures Words(s) == [s]
  {
    hide Sep;
    WordLenIs(s, |s|);
    WordsHead(s);
    assert s[..|s|] == s && s[|s|..] == "";
    assert Words("") == [];
  }

  lemma PrefixWordLen(s: string, n: nat)
    requires 0 < n < |s| && IsWord(s[..n]) && Sep(s[n])
    ensures !Sep(s[0]) && WordLen(s) == n
  {
    hide Sep, WordLen;
    forall i | 0 <= i < n ensures !Sep(s[i]) {
      assert s[..n][i] == s[i];
    }
    WordLenIs(s, n);
  }

  lemma SepsFrom(s: string, n: nat, k: nat)
    requires n <= k <= |s| && forall i :: n <= i < k ==> Sep(s[i])
    ensures Words(s[n..]) == Words(s[k..])
  {
    hide Sep, Words;
    var t := s[n..];
    forall i | 0 <= i < k - n ensures Sep(t[i]) {
      assert t[i] == s[n + i];
    }
    SkipSeparators(t, k - n);
    assert t[k - n..] == s[k..];
  }

  lemma WordsSplit(s: string, n: nat, k: nat)
    requires 0 < n < k <= |s| && IsWord(s[..n]) && forall i :: n <= i < k ==> Sep(s[i])
    ensures Words(s) == [s[..n]] + Words(s[k..])
  {
    hide Sep, Words, WordLen, SepLen, IsWord;
    PrefixWordLen(s, n);
    WordsHead(s);
    SepsFrom(s, n, k);
  }

  /** The string is separators, a word up to the next separator or the end, and so on. */
  ghost predicate Spells(s: string, ws: seq<string>)
    decreases |ws|
  {
    if ws == [] then forall i :: 0 <= i < |s| ==> Sep(s[i])
    else exists i, j :: 0 <= i < j <= |s| && SpellsFirst(s, ws, i, j)
  }

  ghost predicate SpellsFirst(s: string, ws: seq<string>, i: nat, j: nat)
    requires ws != [] && i < j <= |s|
    decreases |ws|, 0
  {
    && (forall k :: 0 <= k < i ==> Sep(s[k])) && (forall k :: i <= k < j ==> !Sep(s[k])) && (j < |s| ==> Sep(s[j]))
    && ws[0] == s[i..j] && Spells(s[j..], ws[1..])
  }

  lemma NothingSpelled(s: string, ws: seq<string>)
    requires ws != [] && forall i :: 0 <= i < |s| ==> Sep(s[i])
    ensures !Spells(s, ws)
  {
    hide Sep;
    forall i, j | 0 <= i < j <= |s| ensures !SpellsFirst(s, ws, i, j) {
      assert Sep(s[i]);
    }
  }

  lemma FirstWordIs(s: string, ws: seq<string>, i: nat, j: nat)
    requires ws != [] && i < j <= |s| && SpellsFirst(s, ws, i, j)
    ensures i == SepLen(s) && j == i + WordLen(s[i..])
  {
    hide Sep, SepLen, WordLen, Spells;
    SepLenIs(s, i);
    var t := s[i..];
    assert forall k :: 0 <= k < |t| ==> t[k] == s[i + k];
    WordLenIs(t, j - i);
  }

  lemma WordsFrom(s: string, i: nat, j: nat)
    requires i == SepLen(s) < |s| && j == i + WordLen(s[i..])
    ensures i < j <= |s| && Words(s) == [s[i..j]] + Words(s[j..])
    ensures (forall k :: 0 <= k < i ==> Sep(s[k])) && (forall k :: i <= k < j ==> !Sep(s[k])) && (j < |s| ==> Sep(s[j]))
  {
    hide Sep, Words, WordLen, SepLen;
    var t := s[i..];
    assert t[0] == s[i];
    SkipSeparators(s, i);
    WordsHead(t);
    assert forall k :: i <= k < |s| ==> s[k] == t[k - i];
    assert t[..j - i] == s[i..j] && t[j - i..] == s[j..];
  }

  /** The words of a string are the longest stretches without separators, all of them, in order. */
  lemma {:induction false} WordsIff(s: string, ws: seq<string>)
    ensures Words(s) == ws <==> Spells(s, ws)
    decreases |s|, |ws|
  {
    hide Sep, Words, SepLen, WordLen, SpellsFirst;
    var i := SepLen(s);
    if i == |s| {
      SkipSeparators(s, i);
      NoWords(s[i..]);
      if ws != [] {
        NothingSpelled(s, ws);
      }
    } else {
      var j := i + WordLen(s[i..]);
      WordsFrom(s, i, j);
      if ws != [] {
        WordsIff(s[j..], ws[1..]);
        SpellsAt(s, ws, i, j);
        forall a, b | 0 <= a < b <= |s| && SpellsFirst(s, ws, a, b) ensures a == i && b == j {
          FirstWordIs(s, ws, a, b);
        }
      } else {
        assert !Sep(s[i]);
      }
    }
  }

  lemma SpellsAt(s: string, ws: seq<string>, i: nat, j: nat)
    requires ws != [] && i < j <= |s|
    requires (forall k :: 0 <= k < i ==> Sep(s[k])) && (forall k :: i <= k < j ==> !Sep(s[k])) && (j < |s| ==> Sep(s[j]))
    ensures SpellsFirst(s, ws, i, j) <==> ws[0] == s[i..j] && Spells(s[j..], ws[1..])
    ensures ws == [s[i..j]] + Words(s[j..]) <==> ws[0] == s[i..j] && ws[1..] == Words(s[j..])
  {
    hide Sep, Words, Spells;
    assert ws == [ws[0]] + ws[1..];
  }

  lemma NoWords(s: string)
    requires s == ""
    ensures Words(s) == []
  {
  }

  lemma SameSeparators(fold: Fold, a: string, b: string)
    requires KeepsSeparators(fold) && Same(fold, a, b)
    ensures forall i :: 0 <= i < |a| ==> Sep(a[i]) == Sep(b[i])
    ensures IsWord(a) ==> IsWord(b)
  {
    hide Sep;
  }

  /** What the pattern matches is exactly what holds the words. */
  lemma {:induction false} FitsIsHolds(fold: Fold, ws: seq<string>, s: string)
    requires KeepsSeparators(fold) && ws != [] && forall w :: w in ws ==> IsWord(w)
    ensures Fits(fold, ws, s) <==> Holds(fold, ws, s)
    decreases |ws|
  {
    hide Sep, Words, IsWord, Same;
    if Fits(fold, ws, s) {
      FitsHolds(fold, ws, s);
    }
    if Holds(fold, ws, s) {
      HoldsFits(fold, ws, s);
    }
  }

  lemma {:induction false} FitsHolds(fold: Fold, ws: seq<string>, s: string)
    requires KeepsSeparators(fold) && ws != [] && (forall w :: w in ws ==> IsWord(w)) && Fits(fold, ws, s)
    ensures Holds(fold, ws, s)
    decreases |ws|
  {
    hide Sep, Words;
    var n := |ws[0]|;
    if |ws| == 1 {
      SameSeparators(fold, ws[0], s);
      OneWord(s);
    } else {
      var k :| n < k <= |s| && FitsAfter(fold, ws, s, k);
      FitsHolds(fold, ws[1..], s[k..]);
      SameSeparators(fold, ws[0], s[..n]);
      WordsSplit(s, n, k);
      assert s[|s| - 1] == s[k..][|s| - k - 1] && s[0] == s[..n][0];
    }
  }

  lemma {:induction false} HoldsFits(fold: Fold, ws: seq<string>, s: string)
    requires KeepsSeparators(fold) && ws != [] && (forall w :: w in ws ==> IsWord(w)) && Holds(fold, ws, s)
    ensures Fits(fold, ws, s)
    decreases |ws|
  {
    hide Sep, Words;
    var n := WordLen(s);
    WordsHead(s);
    assert Same(fold, ws[0], s[..n]);
    if n == |s| {
      NoWords(s[n..]);
      assert s[..n] == s;
    } else {
      var k := n + SepLen(s[n..]);
      SkipSeparators(s[n..], k - n);
      assert s[n..][k - n..] == s[k..];
      var rest := Words(s[k..]);
      assert Words(s) == [s[..n]] + rest;
      assert s[n..][|s| - n - 1] == s[|s| - 1];
      assert k < |s| && s[k..][0] == s[n..][k - n] && s[k..][|s| - k - 1] == s[|s| - 1];
      assert SameWords(fold, ws[1..], rest) by {
        assert forall i :: 0 <= i < |rest| ==> rest[i] == Words(s)[i + 1] && ws[1..][i] == ws[i + 1];
      }
      WordsHead(s[k..]);
      HoldsFits(fold, ws[1..], s[k..]);
      assert FitsAfter(fold, ws, s, k);
    }
  }

  // ---------------------------------------------------------------- the match is that one

  /** The greedy match finds a match at the start of `s` exactly when there is one, and it is the only one. */
  lemma {:induction false} MatchIsFits(fold: Fold, ws: seq<string>, s: string, m: nat)
    requires KeepsSeparators(fold) && ws != [] && (forall w :: w in ws ==> IsWord(w)) && m <= |s|
    ensures Fits(fold, ws, s[..m]) ==> Match(fold, ws, s) == Some(m)
    ensures Match(fold, ws, s) == Some(m) ==> Fits(fold, ws, s[..m])
    decreases |ws|
  {
    hide Sep;
    if Fits(fold, ws, s[..m]) {
      FitsMatches(fold, ws, s, m);
    }
    if Match(fold, ws, s) == Some(m) {
      MatchFits(fold, ws, s, m);
    }
  }

  lemma PastWordIs(fold: Fold, w: string, s: string, k: nat)
    requires |w| < k <= |s|
    ensures PastWord(fold, w, s) == Some(k) <==> Same(fold, w, s[..|w|]) && SepLen(s[|w|..]) == k - |w|
  {
    hide Sep, SepLen, Same;
  }

  lemma {:induction false} FitsMatches(fold: Fold, ws: seq<string>, s: string, m: nat)
    requires KeepsSeparators(fold) && ws != [] && (forall w :: w in ws ==> IsWord(w)) && m <= |s|
    requires Fits(fold, ws, s[..m])
    ensures Match(fold, ws, s) == Some(m)
    decreases |ws|
  {
    hide Sep, IsWord, Same;
    if |ws| == 1 {
      SameLength(fold, ws[0], s[..m]);
    } else {
      hide SepLen, PastWord;
      var n := |ws[0]|;
      var k :| n < k <= m && FitsAfter(fold, ws, s[..m], k);
      FitsMoves(fold, ws, s, m, k);
      FitsMatches(fold, ws[1..], s[k..], m - k);
      PastWordIs(fold, ws[0], s, k);
    }
  }

  lemma SameLength(fold: Fold, a: string, b: string)
    requires Same(fold, a, b)
    ensures |a| == |b|
  {
  }

  lemma FitsMoves(fold: Fold, ws: seq<string>, s: string, m: nat, k: nat)
    requires KeepsSeparators(fold) && |ws| > 1 && (forall w :: w in ws ==> IsWord(w)) && m <= |s|
    requires |ws[0]| < k <= m && FitsAfter(fold, ws, s[..m], k)
    ensures m - k <= |s[k..]| && Fits(fold, ws[1..], s[k..][..m - k])
    ensures Same(fold, ws[0], s[..|ws[0]|]) && SepLen(s[|ws[0]|..]) == k - |ws[0]|
  {
    hide Sep, IsWord, Same, SepLen, Fits;
    var n := |ws[0]|;
    assert s[..m][..n] == s[..n] && s[..m][k..] == s[k..][..m - k];
    FitsStartsWithWord(fold, ws[1..], s[k..][..m - k]);
    var t := s[n..];
    forall i | 0 <= i < k - n ensures Sep(t[i]) {
      assert Sep(s[..m][n + i]) && s[..m][n + i] == t[i];
    }
    assert k - n < |t| ==> t[k - n] == s[k..][..m - k][0];
    SepLenIs(t, k - n);
  }

  lemma FitsStartsWithWord(fold: Fold, ws: seq<string>, s: string)
    requires KeepsSeparators(fold) && ws != [] && (forall w :: w in ws ==> IsWord(w)) && Fits(fold, ws, s)
    ensures s != "" && !Sep(s[0])
  {
    hide Sep, Words, SameWords;
    FitsHolds(fold, ws, s);
  }

  lemma SepLenIs(s: string, n: nat)
    requires n <= |s| && (forall i :: 0 <= i < n ==> Sep(s[i])) && (n < |s| ==> !Sep(s[n]))
    ensures SepLen(s) == n
  {
    hide Sep, SepLen;
  }

  lemma {:induction false} MatchFits(fold: Fold, ws: seq<string>, s: string, m: nat)
    requires KeepsSeparators(fold) && ws != [] && (forall w :: w in ws ==> IsWord(w)) && m <= |s|
    requires Match(fold, ws, s) == Some(m)
    ensures Fits(fold, ws, s[..m])
    decreases |ws|
  {
    hide Sep, IsWord, Same, SepLen, Fits, PastWord;
    if |ws| == 1 {
      FitsOne(fold, ws, s[..|ws[0]|]);
    } else {
      var k := PastWord(fold, ws[0], s).value;
      MatchFits(fold, ws[1..], s[k..], m - k);
      PastWordIs(fold, ws[0], s, k);
      FitsBack(fold, ws, s, m, k);
    }
  }

  lemma FitsOne(fold: Fold, ws: seq<string>, s: string)
    requires |ws| == 1 && Same(fold, ws[0], s)
    ensures Fits(fold, ws, s)
  {
  }

  lemma FitsBack(fold: Fold, ws: seq<string>, s: string, m: nat, k: nat)
    requires |ws| > 1 && |ws[0]| < k <= m <= |s| && Fits(fold, ws[1..], s[k..][..m - k])
    requires Same(fold, ws[0], s[..|ws[0]|]) && SepLen(s[|ws[0]|..]) == k - |ws[0]|
    ensures Fits(fold, ws, s[..m])
  {
    hide Sep, Same;
    var n := |ws[0]|;
    assert s[..m][..n] == s[..n] && s[..m][k..] == s[k..][..m - k];
    forall i | n <= i < k ensures Sep(s[..m][i]) {
      assert s[..m][i] == s[n..][i - n];
    }
    assert FitsAfter(fold, ws, s[..m], k);
  }

  // ---------------------------------------------------------------- the main results

  /** The stretch of the text that begins at `i` and holds the words of the quote. */
  ghost predicate HeldAt(fold: Fold, quote: string, text: string, i: nat) {
    exists m :: i <= m <= |text| && Holds(fold, Words(quote), text[i..m])
  }

  /** Exactly when a quote is located, and where: at the first stretch of the text whose words are the
      quote's words in order, up to case; unless the quote has fewer than two characters to go by. */
  lemma LocateIff(fold: Fold, quote: string, text: string)
    requires KeepsSeparators(fold)
    ensures var r := Locate(fold, quote, text);
            && (r.Some? ==> r.value <= |text| && |Concat(Words(quote))| >= 2 && HeldAt(fold, quote, text, r.value))
            && (forall i: nat :: |Concat(Words(quote))| >= 2 && i <= |text| && HeldAt(fold, quote, text, i) ==> r.Some? && r.value <= i)
  {
    hide Sep, Holds, Match, Search, HeldAt;
    var ws := Words(quote);
    NoConcat();
    if ws != [] {
      SearchFindsFirst(fold, ws, text, 0);
      forall i: nat | i <= |text| ensures HeldAt(fold, quote, text, i) <==> MatchesAt(fold, ws, text, i) {
        HeldIsMatch(fold, quote, text, i);
      }
    }
  }

  lemma NoConcat()
    ensures Concat([]) == ""
  {
  }

  lemma HeldIsMatch(fold: Fold, quote: string, text: string, i: nat)
    requires KeepsSeparators(fold) && Words(quote) != [] && i <= |text|
    ensures HeldAt(fold, quote, text, i) <==> Match(fold, Words(quote), text[i..]).Some?
  {
    hide Sep, Holds, Match, Fits, Words;
    var ws := Words(quote);
    var s := text[i..];
    if HeldAt(fold, quote, text, i) {
      var m :| i <= m <= |text| && Holds(fold, ws, text[i..m]);
      assert s[..m - i] == text[i..m];
      FitsIsHolds(fold, ws, s[..m - i]);
      MatchIsFits(fold, ws, s, m - i);
    }
    var r := Match(fold, ws, s);
    if r.Some? {
      MatchIsFits(fold, ws, s, r.value);
      FitsIsHolds(fold, ws, s[..r.value]);
      assert s[..r.value] == text[i..i + r.value];
    }
  }

  /** A quote copied literally from the text, with two characters or more to go by, is always located. */
  lemma LiteralIsLocated(fold: Fold, text: string, a: nat, b: nat)
    requires KeepsSeparators(fold) && a <= b <= |text| && |Concat(Words(text[a..b]))| >= 2
    ensures Locate(fold, text[a..b], text).Some? && Locate(fold, text[a..b], text).value <= b
  {
    hide Sep, Words, Holds, Locate;
    var quote := text[a..b];
    var i, j := Trim(quote);
    LocateIff(fold, quote, text);
    SliceOfSlice(text, a, b, i, j);
    SameAsItself(fold, quote[i..j]);
    assert HeldAt(fold, quote, text, a + i) by {
      assert Holds(fold, Words(quote), text[a + i..a + j]);
    }
  }

  lemma SliceOfSlice(text: string, a: nat, b: nat, i: nat, j: nat)
    requires a <= b <= |text| && i <= j <= b - a
    ensures text[a..b][i..j] == text[a + i..a + j]
  {
    forall k | 0 <= k < j - i ensures text[a..b][i..j][k] == text[a + i..a + j][k] {
    }
  }

  lemma SameAsItself(fold: Fold, s: string)
    requires s != "" && !Sep(s[0]) && !Sep(s[|s| - 1])
    ensures Holds(fold, Words(s), s)
  {
  }

  /** A string without the separators around it has the same words. */
  lemma Trim(s: string) returns (i: nat, j: nat)
    requires |Concat(Words(s))| >= 2
    ensures i < j <= |s| && !Sep(s[i]) && !Sep(s[j - 1]) && Words(s[i..j]) == Words(s)
  {
    hide Sep, Words, Concat;
    i := SepLen(s);
    SkipSeparators(s, i);
    if i == |s| {
      NoWords(s[i..]);
      NoConcat();
    }
    j := LastWord(s[i..]);
    TrimEnd(s[i..], j);
    assert s[i..][..j] == s[i..i + j] && s[i..][0] == s[i] && s[i..][j - 1] == s[i + j - 1];
    j := i + j;
  }

  function LastWord(s: string): (n: nat)
    requires s != "" && !Sep(s[0])
    ensures 0 < n <= |s| && !Sep(s[n - 1]) && forall i :: n <= i < |s| ==> Sep(s[i])
  {
    if !Sep(s[|s| - 1]) then |s| else LastWord(s[..|s| - 1])
  }

  lemma {:induction false} TrimEnd(s: string, n: nat)
    requires n <= |s| && forall i :: n <= i < |s| ==> Sep(s[i])
    ensures Words(s[..n]) == Words(s)
    decreases |s|
  {
    hide Sep, Words;
    if n == |s| {
      assert s[..n] == s;
    } else if n == 0 {
      SkipSeparators(s, |s|);
      assert s[|s|..] == s[..n];
    } else if Sep(s[0]) {
      WordsLead(s);
      WordsLead(s[..n]);
      assert s[..n][1..] == s[1..][..n - 1];
      TrimEnd(s[1..], n - 1);
    } else {
      var k := WordLen(s);
      assert Sep(s[n]) && k <= n;
      WordsHead(s);
      WordsHead(s[..n]);
      WordLenIs(s[..n], k);
      assert s[..n][..k] == s[..k] && s[..n][k..] == s[k..][..n - k];
      TrimEnd(s[k..], n - k);
    }
  }
}
