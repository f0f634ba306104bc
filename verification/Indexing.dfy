/** Indexing a document: chunk it, fit each chunk to whatever the embedder accepts, store the
    texts with their vectors. */
module Indexing {
  import opened Wrappers
  import opened Text
  import Packing
  import ChunkBounds

  type Vec = seq<real>

  /** What one embeddings request comes back with: vectors, a refusal because a text is too long,
      a refusal because the request holds too many texts, or any other failure. */
  datatype Reply = Vectors(vs: seq<Vec>) | TooLong | TooMany | Broken

  /** The provider may answer the same texts differently at each call. */
  type Embedder = (nat, seq<string>) -> Reply

  /** One vector for each text of a request that succeeds. */
  ghost predicate Faithful(e: Embedder) {
    forall n, ts :: e(n, ts).Vectors? ==> |e(n, ts).vs| == |ts|
  }

  const MAX_SPLIT_DEPTH: nat := 6
  const TRUNCATE_CHARS: nat := 400

  /** A stretch of a chunk: stored with its vector, or given up. */
  datatype Frag = Kept(text: string, vec: Vec) | Lost(text: string)

  /** The fragments of each text of a batch, or an error the caller sees; and the number of
      requests made so far. */
  datatype Fitted = Done(groups: seq<seq<Frag>>, calls: nat) | Raised(calls: nat)

  function Fit(e: Embedder, texts: seq<string>, depth: nat, n: nat): Fitted
    requires Faithful(e) && depth <= MAX_SPLIT_DEPTH
    decreases |texts|, MAX_SPLIT_DEPTH - depth
  {
    if texts == [] then Done([], n)
    else
      var reply := e(n, texts);
      if reply.Vectors? then Done(seq(|texts|, i requires 0 <= i < |texts| => [Kept(texts[i], reply.vs[i])]), n + 1)
      else if reply.Broken? then Raised(n + 1)
      else if |texts| > 1 then
        var mid := |texts| / 2;
        var left := Fit(e, texts[..mid], depth, n + 1);
        if left.Raised? then left else
        var right := Fit(e, texts[mid..], depth, left.calls);
        if right.Raised? then right else Done(left.groups + right.groups, right.calls)
      else if reply.TooMany? then Raised(n + 1)
      else if depth >= MAX_SPLIT_DEPTH || |texts[0]| < 2 then Truncate(e, texts[0], n + 1)
      else
        var text, mid := texts[0], |texts[0]| / 2;
        var left := Fit(e, [text[..mid]], depth + 1, n + 1);
        if left.Raised? then left else
        var right := Fit(e, [text[mid..]], depth + 1, left.calls);
        if right.Raised? then right else Done([Flat(left.groups) + Flat(right.groups)], right.calls)
  }

  /** The last resort for one text: its first characters, or nothing. */
  function Truncate(e: Embedder, text: string, n: nat): Fitted
    requires Faithful(e)
  {
    var k := if |text| <= TRUNCATE_CHARS then |text| else TRUNCATE_CHARS;
    var reply := e(n, [text[..k]]);
    if reply.Vectors? then Done([[Kept(text[..k], reply.vs[0])] + (if k < |text| then [Lost(text[k..])] else [])], n + 1)
    else if reply.Broken? then Raised(n + 1)
    else Done([[Lost(text)]], n + 1)
  }

  function Flat(groups: seq<seq<Frag>>): seq<Frag> {
    if groups == [] then [] else groups[0] + Flat(groups[1..])
  }

  /** The text a list of fragments covers. */
  function Covered(fs: seq<Frag>): string {
    if fs == [] then "" else fs[0].text + Covered(fs[1..])
  }

  /** The fragments that are stored. */
  function Stored(fs: seq<Frag>): (r: seq<Frag>)
    ensures forall f :: f in r <==> f in fs && f.Kept?
    ensures |r| <= |fs|
  {
    if fs == [] then [] else if fs[0].Kept? then [fs[0]] + Stored(fs[1..]) else Stored(fs[1..])
  }

  // ---------------------------------------------------------------- what fitting does

  /** The vector is the provider's answer for that very text. */
  ghost predicate Answered(e: Embedder, f: Frag)
    requires f.Kept?
  {
    exists n, ts, i :: e(n, ts).Vectors? && 0 <= i < |ts| && i < |e(n, ts).vs| && ts[i] == f.text && e(n, ts).vs[i] == f.vec
  }

  /** The text alone was refused for its length. */
  ghost predicate RefusedAlone(e: Embedder, text: string) {
    exists n :: e(n, [text]).TooLong? || e(n, [text]).TooMany?
  }

  /** How long a text can still be after `k` halvings. */
  function Halved(len: nat, k: nat): (h: nat)
    decreases k
  {
    if k == 0 then len else Halved((len + 1) / 2, k - 1)
  }

  lemma HalvedMono(a: nat, b: nat, k: nat)
    requires a <= b
    ensures Halved(a, k) <= Halved(b, k) && (a <= 1 ==> a <= Halved(b, k))
    decreases k
  {
    if k > 0 {
      HalvedMono((a + 1) / 2, (b + 1) / 2, k - 1);
    }
  }

  function Pow2(k: nat): (p: nat)
    ensures p >= 1
  {
    if k == 0 then 1 else 2 * Pow2(k - 1)
  }

  /** One text's fragments: they cover it in order, at most 2^k of them are stored, each with its
      own vector; a stretch is given up only beyond the truncation, or when the provider refused it
      alone after every halving. */
  ghost predicate GroupOf(e: Embedder, text: string, k: nat, g: seq<Frag>) {
    && Covered(g) == text
    && |Stored(g)| <= Pow2(k)
    && (forall f :: f in g && f.Kept? ==> Answered(e, f))
    && (Halved(|text|, k) <= TRUNCATE_CHARS ==>
          forall f :: f in g && f.Lost? ==> |f.text| <= Halved(|text|, k) && RefusedAlone(e, f.text))
  }

  lemma CoveredAppend(a: seq<Frag>, b: seq<Frag>)
    ensures Covered(a + b) == Covered(a) + Covered(b)
  {
    if a == [] {
      assert a + b == b;
    } else {
      assert (a + b)[1..] == a[1..] + b;
      CoveredAppend(a[1..], b);
    }
  }

  lemma StoredAppend(a: seq<Frag>, b: seq<Frag>)
    ensures Stored(a + b) == Stored(a) + Stored(b)
  {
    if a == [] {
      assert a + b == b;
    } else {
      assert (a + b)[1..] == a[1..] + b;
      StoredAppend(a[1..], b);
    }
  }

  lemma FlatOne(gs: seq<seq<Frag>>)
    requires |gs| == 1
    ensures Flat(gs) == gs[0]
  {
    assert gs[1..] == [];
    assert gs[0] + [] == gs[0];
  }

  /** What a request settles at once: accepted texts are stored whole, each with its own vector; an outright failure is
      raised. */
  lemma FitAtOnce(e: Embedder, texts: seq<string>, depth: nat, n: nat)
    requires Faithful(e) && depth <= MAX_SPLIT_DEPTH
    ensures texts == [] ==> Fit(e, texts, depth, n) == Done([], n)
    ensures texts != [] && e(n, texts).Vectors? ==>
              var r := Fit(e, texts, depth, n);
              r.Done? && r.calls == n + 1 && |r.groups| == |texts| &&
              forall i :: 0 <= i < |texts| ==> r.groups[i] == [Kept(texts[i], e(n, texts).vs[i])]
    ensures texts != [] && e(n, texts).Broken? ==> Fit(e, texts, depth, n) == Raised(n + 1)
    ensures |texts| == 1 && e(n, texts).TooMany? ==> Fit(e, texts, depth, n) == Raised(n + 1)
  {
  }

  /** The last resort embeds the first 400 characters and gives up the rest; refused even so, it gives up the text. */
  lemma TruncateAt400(e: Embedder, text: string, n: nat)
    requires Faithful(e)
    ensures var first := if |text| <= 400 then text else text[..400];
            var reply, r := e(n, [first]), Truncate(e, text, n);
            && (reply.Vectors? ==> r == Done([[Kept(first, reply.vs[0])] + if |text| > 400 then [Lost(text[400..])] else []], n + 1))
            && (reply.Broken? ==> r == Raised(n + 1))
            && (reply.TooLong? || reply.TooMany? ==> r == Done([[Lost(text)]], n + 1))
  {
    assert text[..|text|] == text;
  }

  lemma FitSplitsBatch(e: Embedder, texts: seq<string>, depth: nat, n: nat)
    requires Faithful(e) && depth <= MAX_SPLIT_DEPTH && |texts| > 1 && !e(n, texts).Vectors?
    requires Fit(e, texts, depth, n).Done?
    ensures var mid := |texts| / 2;
            var left := Fit(e, texts[..mid], depth, n + 1);
            left.Done? &&
            var right := Fit(e, texts[mid..], depth, left.calls);
            right.Done? && Fit(e, texts, depth, n).groups == left.groups + right.groups
  {
    hide Truncate, Flat;
  }

  lemma FitSplitsText(e: Embedder, text: string, depth: nat, n: nat)
    requires Faithful(e) && depth < MAX_SPLIT_DEPTH && |text| >= 2 && !e(n, [text]).Vectors?
    requires Fit(e, [text], depth, n).Done?
    ensures var mid := |text| / 2;
            var left := Fit(e, [text[..mid]], depth + 1, n + 1);
            left.Done? &&
            var right := Fit(e, [text[mid..]], depth + 1, left.calls);
            right.Done? && Fit(e, [text], depth, n).groups == [Flat(left.groups) + Flat(right.groups)]
  {
    hide Truncate, Flat;
  }

  lemma FitTruncates(e: Embedder, text: string, depth: nat, n: nat)
    requires Faithful(e) && depth <= MAX_SPLIT_DEPTH && !e(n, [text]).Vectors? && (depth == MAX_SPLIT_DEPTH || |text| < 2)
    requires Fit(e, [text], depth, n).Done?
    ensures e(n, [text]).TooLong? && Fit(e, [text], depth, n) == Truncate(e, text, n + 1)
  {
    hide Truncate, Flat;
  }

  lemma {:induction false} FitGroups(e: Embedder, texts: seq<string>, depth: nat, n: nat)
    requires Faithful(e) && depth <= MAX_SPLIT_DEPTH && Fit(e, texts, depth, n).Done?
    ensures var gs := Fit(e, texts, depth, n).groups;
            |gs| == |texts| && forall i :: 0 <= i < |gs| ==> GroupOf(e, texts[i], MAX_SPLIT_DEPTH - depth, gs[i])
    decreases |texts|, MAX_SPLIT_DEPTH - depth
  {
    hide GroupOf, Truncate, Flat;
    if texts != [] {
      if e(n, texts).Vectors? {
        forall i | 0 <= i < |texts| {
          AcceptedGroup(e, texts, n, i, MAX_SPLIT_DEPTH - depth);
        }
      } else if |texts| > 1 {
        FitSplitGroups(e, texts, depth, n);
      } else {
        assert texts == [texts[0]];
        FitTextGroups(e, texts[0], depth, n);
      }
    }
  }

  lemma {:induction false} FitSplitGroups(e: Embedder, texts: seq<string>, depth: nat, n: nat)
    requires Faithful(e) && depth <= MAX_SPLIT_DEPTH && |texts| > 1 && !e(n, texts).Vectors?
    requires Fit(e, texts, depth, n).Done?
    ensures var gs := Fit(e, texts, depth, n).groups;
            |gs| == |texts| && forall i :: 0 <= i < |gs| ==> GroupOf(e, texts[i], MAX_SPLIT_DEPTH - depth, gs[i])
    decreases |texts|, MAX_SPLIT_DEPTH - depth, 0
  {
    hide GroupOf, Fit, Flat;
    var mid := |texts| / 2;
    FitSplitsBatch(e, texts, depth, n);
    FitGroups(e, texts[..mid], depth, n + 1);
    FitGroups(e, texts[mid..], depth, Fit(e, texts[..mid], depth, n + 1).calls);
  }

  lemma {:induction false} FitTextGroups(e: Embedder, text: string, depth: nat, n: nat)
    requires Faithful(e) && depth <= MAX_SPLIT_DEPTH && !e(n, [text]).Vectors? && Fit(e, [text], depth, n).Done?
    ensures var gs := Fit(e, [text], depth, n).groups;
            |gs| == 1 && GroupOf(e, text, MAX_SPLIT_DEPTH - depth, gs[0])
    decreases 1, MAX_SPLIT_DEPTH - depth, 0
  {
    hide GroupOf, Fit, Truncate, Flat;
    if depth == MAX_SPLIT_DEPTH || |text| < 2 {
      FitTruncates(e, text, depth, n);
      TruncateGroup(e, text, n, MAX_SPLIT_DEPTH - depth);
    } else {
      var mid := |text| / 2;
      var left := Fit(e, [text[..mid]], depth + 1, n + 1);
      FitSplitsText(e, text, depth, n);
      FitGroups(e, [text[..mid]], depth + 1, n + 1);
      FitGroups(e, [text[mid..]], depth + 1, left.calls);
      var right := Fit(e, [text[mid..]], depth + 1, left.calls);
      FlatOne(left.groups);
      FlatOne(right.groups);
      HalvesGroup(e, text, mid, MAX_SPLIT_DEPTH - depth, left.groups[0], right.groups[0]);
    }
  }

  lemma AcceptedGroup(e: Embedder, texts: seq<string>, n: nat, i: nat, k: nat)
    requires Faithful(e) && i < |texts| && e(n, texts).Vectors?
    ensures GroupOf(e, texts[i], k, [Kept(texts[i], e(n, texts).vs[i])])
  {
    var f := Kept(texts[i], e(n, texts).vs[i]);
    assert Answered(e, f);
    assert [f][1..] == [];
    assert Covered([f]) == texts[i] + Covered([f][1..]);
    assert Stored([f]) == [f] + Stored([f][1..]);
  }

  lemma TruncateGroup(e: Embedder, text: string, n: nat, k: nat)
    requires Faithful(e) && e(n, [text]).TooLong? && (k == 0 || |text| < 2) && Truncate(e, text, n + 1).Done?
    ensures |Truncate(e, text, n + 1).groups| == 1 && GroupOf(e, text, k, Truncate(e, text, n + 1).groups[0])
  {
    HalvedMono(|text|, |text|, k);
    var m := if |text| <= TRUNCATE_CHARS then |text| else TRUNCATE_CHARS;
    var g := Truncate(e, text, n + 1).groups[0];
    assert RefusedAlone(e, text);
    if e(n + 1, [text[..m]]).Vectors? {
      var f := Kept(text[..m], e(n + 1, [text[..m]]).vs[0]);
      assert [text[..m]][0] == f.text;
      assert Answered(e, f);
      var tail := if m < |text| then [Lost(text[m..])] else [];
      assert g == [f] + tail && g[1..] == tail;
      assert Stored(tail) == [] by {
        if tail != [] {
          assert tail[1..] == [];
        }
      }
      assert Covered(tail) == text[m..] by {
        if tail != [] {
          assert tail[1..] == [] && text[m..] + "" == text[m..];
        }
      }
      assert text[..m] + text[m..] == text;
      assert Stored(g) == [f] + Stored(tail);
      assert Halved(|text|, k) <= TRUNCATE_CHARS ==> tail == [];
    } else {
      assert g == [Lost(text)] && g[1..] == [];
      assert Covered(g) == text + Covered([]) && Stored(g) == Stored(g[1..]) == [];
    }
  }

  lemma HalvesGroup(e: Embedder, text: string, mid: nat, k: nat, a: seq<Frag>, b: seq<Frag>)
    requires k >= 1 && mid == |text| / 2 && |text| >= 2
    requires GroupOf(e, text[..mid], k - 1, a) && GroupOf(e, text[mid..], k - 1, b)
    ensures GroupOf(e, text, k, a + b)
  {
    hide Covered, Stored, Answered, RefusedAlone;
    CoveredAppend(a, b);
    StoredAppend(a, b);
    HalvedMono(mid, (|text| + 1) / 2, k - 1);
    assert text[..mid] + text[mid..] == text;
    assert Halved(|text|, k) == Halved((|text| + 1) / 2, k - 1);
  }

  /** Fitting fails only when the provider failed outright, or refused a single text as too many. */
  ghost predicate Failing(e: Embedder) {
    exists n, ts :: e(n, ts).Broken? || (|ts| == 1 && e(n, ts).TooMany?)
  }

  lemma {:induction false} FitRaises(e: Embedder, texts: seq<string>, depth: nat, n: nat)
    requires Faithful(e) && depth <= MAX_SPLIT_DEPTH && Fit(e, texts, depth, n).Raised?
    ensures Failing(e)
    decreases |texts|, MAX_SPLIT_DEPTH - depth
  {
    var reply := e(n, texts);
    if !reply.Broken? {
      if |texts| > 1 {
        var mid := |texts| / 2;
        var left := Fit(e, texts[..mid], depth, n + 1);
        if left.Raised? {
          FitRaises(e, texts[..mid], depth, n + 1);
        } else {
          FitRaises(e, texts[mid..], depth, left.calls);
        }
      } else if reply.TooLong? && depth < MAX_SPLIT_DEPTH && |texts[0]| >= 2 {
        var text, mid := texts[0], |texts[0]| / 2;
        var left := Fit(e, [text[..mid]], depth + 1, n + 1);
        if left.Raised? {
          FitRaises(e, [text[..mid]], depth + 1, n + 1);
        } else {
          FitRaises(e, [text[mid..]], depth + 1, left.calls);
        }
      }
    }
  }

  // ---------------------------------------------------------------- a whole document

  const DEGENERATE_MIN_CHARS: nat := 200
  const DEGENERATE_MAX_DISTINCT: nat := 4

  /** A long chunk of at most four distinct characters besides blanks. */
  predicate Degenerate(text: string) {
    |text| >= DEGENERATE_MIN_CHARS && |set c | c in text && c !in " \t\r\n"| <= DEGENERATE_MAX_DISTINCT
  }

  function Worthwhile(chunks: seq<string>): (r: seq<string>)
    ensures forall c :: c in r <==> c in chunks && !Degenerate(c)
  {
    if chunks == [] then []
    else if Degenerate(chunks[0]) then Worthwhile(chunks[1..])
    else [chunks[0]] + Worthwhile(chunks[1..])
  }

  /** The chunks worth, and allowed, an embedding; a cap of 0 is no cap. */
  function Bounded(chunks: seq<string>, cap: nat): (r: seq<string>)
    ensures r <= Worthwhile(chunks)
    ensures cap > 0 ==> |r| <= cap
    ensures |r| < |Worthwhile(chunks)| ==> |r| == cap > 0
  {
    var kept := Worthwhile(chunks);
    if cap > 0 && |kept| > cap then kept[..cap] else kept
  }

  /** The places of the non-degenerate chunks from `i` on. */
  function Places(chunks: seq<string>, i: nat): seq<nat>
    requires i <= |chunks|
    decreases |chunks| - i
  {
    if i == |chunks| then []
    else if Degenerate(chunks[i]) then Places(chunks, i + 1)
    else [i] + Places(chunks, i + 1)
  }

  ghost predicate Rising(at: seq<nat>, low: nat, high: nat) {
    && (forall k :: 0 <= k < |at| ==> low <= at[k] < high)
    && forall k, m :: 0 <= k < m < |at| ==> at[k] < at[m]
  }

  lemma {:induction false} PlacesRise(chunks: seq<string>, i: nat)
    requires i <= |chunks|
    ensures Rising(Places(chunks, i), i, |chunks|)
    decreases |chunks| - i
  {
    hide Degenerate;
    if i < |chunks| {
      PlacesRise(chunks, i + 1);
    }
  }

  lemma {:induction false} PlacesHold(chunks: seq<string>, i: nat, j: nat)
    requires i <= j < |chunks| && !Degenerate(chunks[j])
    ensures j in Places(chunks, i)
    decreases |chunks| - i
  {
    hide Degenerate;
    if i < j {
      PlacesHold(chunks, i + 1, j);
    }
  }

  lemma {:induction false} PlaceSpells(chunks: seq<string>, i: nat, k: nat)
    requires i <= |chunks|
    ensures |Places(chunks, i)| == |Worthwhile(chunks[i..])|
    ensures k < |Places(chunks, i)| ==>
              (var j := Places(chunks, i)[k]; j < |chunks| && !Degenerate(chunks[j]) && Worthwhile(chunks[i..])[k] == chunks[j])
    decreases |chunks| - i
  {
    hide Degenerate;
    if i < |chunks| {
      assert chunks[i..][0] == chunks[i] && chunks[i..][1..] == chunks[i + 1..];
      PlaceSpells(chunks, i + 1, if Degenerate(chunks[i]) || k == 0 then k else k - 1);
    }
  }

  lemma RisingCut(all: seq<nat>, n: nat, high: nat)
    requires Rising(all, 0, high) && n <= |all|
    ensures Rising(all[..n], 0, high)
    ensures forall i :: i in all && i !in all[..n] ==> Rising(all[..n], 0, i)
  {
    forall i | i in all && i !in all[..n] ensures Rising(all[..n], 0, i) {
      var m :| 0 <= m < |all| && all[m] == i;
      assert forall k :: 0 <= k < n ==> all[k] in all[..n];
    }
  }

  /** Bounding keeps chunks of the document, each once and in their order, and never a degenerate one; it leaves out
      another only when the cap is reached, and then one that comes after all it keeps. */
  lemma BoundedKeepsFirst(chunks: seq<string>, cap: nat) returns (at: seq<nat>)
    ensures Rising(at, 0, |chunks|) && |at| == |Bounded(chunks, cap)|
    ensures forall k :: 0 <= k < |at| ==> !Degenerate(chunks[at[k]]) && Bounded(chunks, cap)[k] == chunks[at[k]]
    ensures forall i: nat :: i < |chunks| && !Degenerate(chunks[i]) && i !in at ==>
              |at| == cap > 0 && Rising(at, 0, i)
  {
    hide Degenerate, Worthwhile, Places, Bounded;
    var all := Places(chunks, 0);
    assert chunks[0..] == chunks;
    PlacesRise(chunks, 0);
    PlaceSpells(chunks, 0, 0);
    var n := |Bounded(chunks, cap)|;
    RisingCut(all, n, |chunks|);
    at := all[..n];
    forall k | 0 <= k < n ensures !Degenerate(chunks[at[k]]) && Bounded(chunks, cap)[k] == chunks[at[k]] {
      PlaceSpells(chunks, 0, k);
    }
    hide Rising;
    forall i: nat | i < |chunks| && !Degenerate(chunks[i]) && i !in at ensures |at| == cap > 0 && Rising(at, 0, i) {
      PlacesHold(chunks, 0, i);
      assert n == |all| ==> at == all;
    }
  }

  /** Five different characters, none of them a blank. */
  ghost predicate Varied(text: string) {
    exists cs: seq<char> :: |cs| == 5 && (forall i, j :: 0 <= i < j < 5 ==> cs[i] != cs[j]) &&
      forall c :: c in cs ==> c in text && c != ' ' && c != '\t' && c != '\r' && c != '\n'
  }

  function Letters(text: string): set<char> {
    set c | c in text && c !in " \t\r\n"
  }

  lemma FiveInASet(cs: seq<char>, s: set<char>)
    requires |cs| == 5 && (forall i, j :: 0 <= i < j < 5 ==> cs[i] != cs[j]) && forall c :: c in cs ==> c in s
    ensures |s| >= 5
  {
    var five := {cs[0], cs[1], cs[2], cs[3], cs[4]};
    assert |five| == 5;
    assert five <= s;
    Smaller(five, s);
  }

  lemma Smaller(a: set<char>, b: set<char>)
    requires a <= b
    ensures |a| <= |b|
  {
    assert |b - a| == |b| - |a|;
  }

  lemma VariedIsNotDegenerate(text: string)
    requires |text| < 200 || Varied(text)
    ensures !Degenerate(text)
  {
    if |text| >= 200 {
      var cs: seq<char> :| |cs| == 5 && (forall i, j :: 0 <= i < j < 5 ==> cs[i] != cs[j]) &&
        forall c :: c in cs ==> c in text && c != ' ' && c != '\t' && c != '\r' && c != '\n';
      FiveInASet(cs, Letters(text));
    }
  }

  /** A chunk of fewer than 200 characters, or with five different characters that are no blanks, is embedded unless the
      cap is reached. */
  lemma OrdinaryIsKept(chunks: seq<string>, cap: nat, i: nat)
    requires i < |chunks| && (|chunks[i]| < 200 || Varied(chunks[i]))
    ensures chunks[i] in Bounded(chunks, cap) || |Bounded(chunks, cap)| == cap > 0
  {
    VariedIsNotDegenerate(chunks[i]);
    hide Degenerate, Varied;
    assert chunks[i] in Worthwhile(chunks);
  }

  /** One of 200 characters or more that has at most four besides blanks is not. */
  lemma MonotonousIsDropped(chunks: seq<string>, cap: nat, text: string, few: set<char>)
    requires |text| >= 200 && |few| <= 4
    requires forall c :: c in text ==> c in few || c == ' ' || c == '\t' || c == '\r' || c == '\n'
    ensures text !in Bounded(chunks, cap)
  {
    var there := set c | c in text && c !in " \t\r\n";
    assert there <= few;
    Smaller(there, few);
    assert Degenerate(text);
    hide Degenerate;
    assert text !in Worthwhile(chunks);
  }

  lemma {:induction false} AllWorthwhile(chunks: seq<string>)
    requires forall c :: c in chunks ==> !Degenerate(c)
    ensures Worthwhile(chunks) == chunks
  {
    hide Degenerate;
    if chunks != [] {
      AllWorthwhile(chunks[1..]);
    }
  }

  /** Ordinary chunks within the cap are embedded, all of them. */
  lemma OrdinaryAllKept(chunks: seq<string>, cap: nat)
    requires forall c :: c in chunks ==> |c| < 200 || Varied(c)
    requires cap == 0 || |chunks| <= cap
    ensures Bounded(chunks, cap) == chunks
  {
    forall c | c in chunks ensures !Degenerate(c) {
      VariedIsNotDegenerate(c);
    }
    AllWorthwhile(chunks);
  }

  function FitBatches(e: Embedder, chunks: seq<string>, size: nat, n: nat): Fitted
    requires Faithful(e) && size >= 1
    decreases |chunks|
  {
    if chunks == [] then Done([], n)
    else
      var k := if |chunks| < size then |chunks| else size;
      var first := Fit(e, chunks[..k], 0, n);
      if first.Raised? then first else
      var rest := FitBatches(e, chunks[k..], size, first.calls);
      if rest.Raised? then rest else Done(first.groups + rest.groups, rest.calls)
  }

  datatype Item = Item(ordinal: nat, text: string, vec: Vec)

  function Items(fs: seq<Frag>): seq<Item>
    requires forall f :: f in fs ==> f.Kept?
  {
    seq(|fs|, i requires 0 <= i < |fs| => Item(i, fs[i].text, fs[i].vec))
  }

  class Indexer {
    const embedder: Embedder
    const batchSize: nat
    const maxChunks: nat
    var calls: nat
    var rows: map<string, seq<Item>>

    constructor (embedder: Embedder, batchSize: nat, maxChunks: nat)
      ensures this.embedder == embedder && this.batchSize == batchSize && this.maxChunks == maxChunks
      ensures rows == map[] && calls == 0
    {
      this.embedder, this.batchSize, this.maxChunks := embedder, batchSize, maxChunks;
      calls, rows := 0, map[];
    }

    /** Replace a file's stored chunks by those of its text; an error leaves them as they were. */
    method Index(file: string, md: string) returns (count: Option<nat>)
      requires Faithful(embedder) && batchSize >= 1
      modifies this
      ensures var chunks := Bounded(Packing.Chunks(md, 1200, 150), maxChunks);
              var fitted := FitBatches(embedder, chunks, batchSize, old(calls));
              calls == fitted.calls &&
              if fitted.Raised? then count == None && rows == old(rows)
              else if chunks == [] then count == Some(0) && rows == old(rows) - {file}
              else var items := Items(Stored(Flat(fitted.groups))); count == Some(|items|) && rows == old(rows)[file := items]
    {
      var all := Packing.ChunkMarkdown(md, 1200, 150);
      var chunks := Bounded(all, maxChunks);
      hide Fit, FitBatches, Stored, Flat, Packing.Chunks;
      ghost var spec := FitBatches(embedder, chunks, batchSize, calls);
      if chunks == [] {
        NoMoreBatches(embedder, chunks, batchSize, calls, []);
        rows := rows - {file};
        return Some(0);
      }
      var texts: seq<string>, vectors: seq<Vec> := [], [];
      ghost var done := [];
      NothingYet(spec);
      var start := 0;
      while start < |chunks|
        invariant 0 <= start <= |chunks| && rows == old(rows)
        invariant Joins(done, FitBatches(embedder, chunks[start..], batchSize, calls)) == spec
        invariant texts == TextsOf(Stored(Flat(done))) && vectors == VecsOf(Stored(Flat(done)))
      {
        var end := if |chunks| - start < batchSize then |chunks| else start + batchSize;
        NextBatch(embedder, chunks, start, batchSize, calls);
        var fitted := Fit(embedder, chunks[start..end], 0, calls);
        calls := fitted.calls;
        if fitted.Raised? {
          return None;
        }
        var kept := Stored(Flat(fitted.groups));
        texts := texts + TextsOf(kept);
        vectors := vectors + VecsOf(kept);
        JoinsMore(done, fitted.groups, FitBatches(embedder, chunks[end..], batchSize, calls));
        KeptAppend(done, fitted.groups);
        done := done + fitted.groups;
        start := end;
      }
      NoMoreBatches(embedder, chunks[start..], batchSize, calls, done);
      var items := seq(|texts|, i requires 0 <= i < |texts| => Item(i, texts[i], vectors[i]));
      assert items == Items(Stored(Flat(done)));
      rows := rows[file := items];
      return Some(|items|);
    }
  }

  function TextsOf(fs: seq<Frag>): seq<string> {
    seq(|fs|, i requires 0 <= i < |fs| => fs[i].text)
  }

  function VecsOf(fs: seq<Frag>): seq<Vec>
    requires forall f :: f in fs ==> f.Kept?
  {
    seq(|fs|, i requires 0 <= i < |fs| => fs[i].vec)
  }

  ghost function Joins(done: seq<seq<Frag>>, rest: Fitted): Fitted {
    if rest.Raised? then rest else Done(done + rest.groups, rest.calls)
  }

  lemma JoinsMore(done: seq<seq<Frag>>, gs: seq<seq<Frag>>, rest: Fitted)
    ensures Joins(done, Joins(gs, rest)) == Joins(done + gs, rest)
  {
    if rest.Done? {
      assert done + (gs + rest.groups) == (done + gs) + rest.groups;
    }
  }

  lemma FlatAppend(a: seq<seq<Frag>>, b: seq<seq<Frag>>)
    ensures Flat(a + b) == Flat(a) + Flat(b)
  {
    if a == [] {
      assert a + b == b;
    } else {
      assert (a + b)[1..] == a[1..] + b;
      FlatAppend(a[1..], b);
    }
  }

  lemma NothingYet(spec: Fitted)
    ensures Joins([], spec) == spec && Stored(Flat([])) == []
  {
    if spec.Done? {
      assert [] + spec.groups == spec.groups;
    }
  }

  lemma NextBatch(e: Embedder, chunks: seq<string>, start: nat, size: nat, n: nat)
    requires Faithful(e) && size >= 1 && start < |chunks|
    ensures var end := if |chunks| - start < size then |chunks| else start + size;
            var first := Fit(e, chunks[start..end], 0, n);
            FitBatches(e, chunks[start..], size, n) ==
            if first.Raised? then first else Joins(first.groups, FitBatches(e, chunks[end..], size, first.calls))
  {
    hide Fit;
    var end := if |chunks| - start < size then |chunks| else start + size;
    assert chunks[start..][..end - start] == chunks[start..end] && chunks[start..][end - start..] == chunks[end..];
  }

  lemma NoMoreBatches(e: Embedder, chunks: seq<string>, size: nat, n: nat, done: seq<seq<Frag>>)
    requires Faithful(e) && size >= 1 && chunks == []
    ensures Joins(done, FitBatches(e, chunks, size, n)) == Done(done, n)
  {
    assert done + [] == done;
  }

  lemma KeptAppend(done: seq<seq<Frag>>, gs: seq<seq<Frag>>)
    ensures Stored(Flat(done + gs)) == Stored(Flat(done)) + Stored(Flat(gs))
  {
    FlatAppend(done, gs);
    StoredAppend(Flat(done), Flat(gs));
  }

  lemma {:induction false} BatchGroups(e: Embedder, chunks: seq<string>, size: nat, n: nat)
    requires Faithful(e) && size >= 1
    ensures var r := FitBatches(e, chunks, size, n);
            if r.Raised? then Failing(e)
            else |r.groups| == |chunks| && forall i :: 0 <= i < |chunks| ==> GroupOf(e, chunks[i], MAX_SPLIT_DEPTH, r.groups[i])
    decreases |chunks|
  {
    hide GroupOf, Failing, Fit;
    if chunks != [] {
      var k := if |chunks| < size then |chunks| else size;
      var first := Fit(e, chunks[..k], 0, n);
      if first.Raised? {
        FitRaises(e, chunks[..k], 0, n);
      } else {
        FitGroups(e, chunks[..k], 0, n);
        BatchGroups(e, chunks[k..], size, first.calls);
      }
    }
  }

  lemma FlatCovers(groups: seq<seq<Frag>>, texts: seq<string>)
    requires |groups| == |texts| && forall i :: 0 <= i < |texts| ==> Covered(groups[i]) == texts[i]
    ensures Covered(Flat(groups)) == Concat(texts)
  {
    if groups != [] {
      FlatCovers(groups[1..], texts[1..]);
      CoveredAppend(groups[0], Flat(groups[1..]));
    }
  }

  lemma InFlat(groups: seq<seq<Frag>>, f: Frag) returns (i: nat)
    requires f in Flat(groups)
    ensures i < |groups| && f in groups[i]
  {
    if f in groups[0] {
      i := 0;
    } else {
      i := InFlat(groups[1..], f);
      i := i + 1;
    }
  }

  lemma HalvedDefault(len: nat)
    requires len <= 1200
    ensures Halved(len, 6) <= 19
  {
    HalvedMono(len, 1200, 6);
    assert Halved(1200, 6) == Halved(600, 5) == Halved(300, 4) == Halved(150, 3);
    assert Halved(150, 3) == Halved(75, 2) == Halved(38, 1) == Halved(19, 0) == 19;
  }

  /** Whatever the provider answers: indexing a document fails only if the provider failed or refused a
      single text as too many; otherwise the fragments cover the kept chunks in order, each chunk in at
      most 64 stored pieces, each piece with the vector the provider gave for it; and what is given up is
      at most 19 characters at a time, each stretch refused alone. */
  lemma IndexCovers(e: Embedder, md: string, cap: nat, size: nat, n: nat)
    requires Faithful(e) && size >= 1
    ensures var chunks := Bounded(Packing.Chunks(md, 1200, 150), cap);
            var r := FitBatches(e, chunks, size, n);
            if r.Raised? then Failing(e)
            else && |r.groups| == |chunks|
                 && Covered(Flat(r.groups)) == Concat(chunks)
                 && (forall i :: 0 <= i < |chunks| ==> Covered(r.groups[i]) == chunks[i] && |Stored(r.groups[i])| <= 64)
                 && (forall f :: f in Flat(r.groups) ==>
                       if f.Kept? then Answered(e, f) else |f.text| <= 19 && RefusedAlone(e, f.text))
  {
    hide Covered, Stored, Answered, RefusedAlone, Halved, Packing.Chunks, FitBatches, Failing;
    var chunks := Bounded(Packing.Chunks(md, 1200, 150), cap);
    var r := FitBatches(e, chunks, size, n);
    ChunkBounds.DefaultChunksFit(md);
    BatchGroups(e, chunks, size, n);
    if r.Done? {
      FlatCovers(r.groups, chunks);
      assert Pow2(6) == 64;
      forall i | 0 <= i < |chunks| ensures Halved(|chunks[i]|, 6) <= 19 {
        HalvedDefault(|chunks[i]|);
      }
      forall f | f in Flat(r.groups) ensures if f.Kept? then Answered(e, f) else |f.text| <= 19 && RefusedAlone(e, f.text) {
        var i := InFlat(r.groups, f);
        assert GroupOf(e, chunks[i], 6, r.groups[i]);
      }
    }
  }

  /** The provider takes any single text of at most 19 characters, at any time. */
  ghost predicate TakesShort(e: Embedder) {
    forall n, t :: |t| <= 19 ==> e(n, [t]).Vectors?
  }

  lemma StoredAll(fs: seq<Frag>)
    requires forall f :: f in fs ==> f.Kept?
    ensures Stored(fs) == fs
  {
  }

  lemma ItemsText(fs: seq<Frag>, texts: seq<string>)
    requires |texts| == |fs| && forall i :: 0 <= i < |fs| ==> texts[i] == fs[i].text
    ensures Concat(texts) == Covered(fs)
  {
    if fs != [] {
      ItemsText(fs[1..], texts[1..]);
    }
  }

  /** With a provider that takes short texts, indexing loses nothing: the stored texts, in order of their
      ordinals 0, 1, 2, ..., spell out exactly the kept chunks. */
  lemma IndexLosesNothing(e: Embedder, md: string, cap: nat, size: nat, n: nat)
    requires Faithful(e) && size >= 1 && TakesShort(e)
    ensures var chunks := Bounded(Packing.Chunks(md, 1200, 150), cap);
            var r := FitBatches(e, chunks, size, n);
            r.Raised? ==> Failing(e)
    ensures var chunks := Bounded(Packing.Chunks(md, 1200, 150), cap);
            var r := FitBatches(e, chunks, size, n);
            r.Done? ==>
              (var items := Items(Stored(Flat(r.groups)));
               Concat(seq(|items|, i requires 0 <= i < |items| => items[i].text)) == Concat(chunks) &&
               (forall i :: 0 <= i < |items| ==> items[i].ordinal == i && Answered(e, Kept(items[i].text, items[i].vec))))
  {
    hide Covered, Answered, Packing.Chunks, FitBatches, Failing;
    IndexCovers(e, md, cap, size, n);
    var r := FitBatches(e, Bounded(Packing.Chunks(md, 1200, 150), cap), size, n);
    if r.Done? {
      var fs := Flat(r.groups);
      StoredAll(fs);
      var items := Items(fs);
      ItemsText(fs, seq(|items|, i requires 0 <= i < |items| => items[i].text));
    }
  }

  /** A document of ordinary chunks, each of fewer than 200 characters or with five different ones besides blanks, no
      more of them than the cap: what is stored spells out all of its chunks. */
  lemma OrdinaryDocumentIsIndexed(e: Embedder, md: string, cap: nat, size: nat, n: nat)
    requires Faithful(e) && size >= 1 && TakesShort(e)
    requires forall c :: c in Packing.Chunks(md, 1200, 150) ==> |c| < 200 || Varied(c)
    requires cap == 0 || |Packing.Chunks(md, 1200, 150)| <= cap
    ensures var chunks := Packing.Chunks(md, 1200, 150);
            var r := FitBatches(e, Bounded(chunks, cap), size, n);
            if r.Raised? then Failing(e)
            else
              var items := Items(Stored(Flat(r.groups)));
              Concat(seq(|items|, i requires 0 <= i < |items| => items[i].text)) == Concat(chunks)
  {
    hide Packing.Chunks, FitBatches, Failing, Varied, Bounded, Items, Stored, Flat;
    OrdinaryAllKept(Packing.Chunks(md, 1200, 150), cap);
    IndexLosesNothing(e, md, cap, size, n);
  }

  /** A provider that takes every request of a batch's size. */
  ghost predicate TakesBatches(e: Embedder, size: nat) {
    forall n, ts :: 0 < |ts| <= size ==> e(n, ts).Vectors?
  }

  /** Then every kept chunk is stored whole, in its place, and one request is made for each batch. */
  lemma {:induction false} BatchesTakenWhole(e: Embedder, chunks: seq<string>, size: nat, n: nat)
    requires Faithful(e) && size >= 1 && TakesBatches(e, size)
    ensures var r := FitBatches(e, chunks, size, n);
            && r.Done? && |r.groups| == |chunks| && r.calls >= n
            && (r.calls - n) * size >= |chunks| && (chunks != [] ==> (r.calls - n - 1) * size < |chunks|)
            && forall i :: 0 <= i < |chunks| ==> |r.groups[i]| == 1 && r.groups[i][0].Kept? && r.groups[i][0].text == chunks[i]
    decreases |chunks|
  {
    hide Fit;
    if chunks != [] {
      var k := if |chunks| < size then |chunks| else size;
      FitAtOnce(e, chunks[..k], 0, n);
      BatchesTakenWhole(e, chunks[k..], size, n + 1);
      var more := FitBatches(e, chunks[k..], size, n + 1).calls - n - 1;
      assert (more + 1) * size == more * size + size;
      assert chunks[k..] != [] ==> (more - 1) * size + size == more * size;
    }
  }
}
