/** What the chunks of a document are: the document itself cut up with overlaps, and exactly when
    the target length is respected. */
module ChunkBounds {
  import opened Text
  import opened Chunking
  import opened Packing

  // ---------------------------------------------------------------- conservation

  /** `q` begins with the end of `p`, at most `overlap` characters of it. */
  predicate Carries(p: Piece, q: Piece, overlap: int) {
    var t, c := TextOf(p), q.carried;
    |c| <= |t| && c == t[|t| - |c|..] && (c != "" ==> |c| <= overlap)
  }

  lemma BeginCarries(p: Piece, b: string, overlap: int)
    ensures Carries(p, Begin(TextOf(p), b, overlap), overlap)
  {
    hide IsSpace, Blank, Strip, RStrip, TextOf;
    var t := TextOf(p);
    var tail := Tail(t, overlap);
    SuffixOfSuffix(t, tail, FirstInk(tail, 0));
  }

  lemma SuffixOfSuffix(t: string, tail: string, k: nat)
    requires |tail| <= |t| && tail == t[|t| - |tail|..] && k <= |tail|
    ensures tail[k..] == t[|t| - |tail[k..]|..]
  {
  }

  lemma {:induction false} PackChain(cur: Piece, blocks: seq<string>, target: int, overlap: int)
    requires Sound(cur) && forall b :: b in blocks ==> !Blank(b)
    ensures var ps := Pack(cur, blocks, target, overlap);
            && (ps != [] ==> ps[0].carried == cur.carried)
            && (forall i :: 0 < i < |ps| ==> Carries(ps[i - 1], ps[i], overlap))
            && (forall p :: p in ps ==> !Blank(p.added))
            && InkAll(Added(ps)) == Ink(cur.added) + InkAll(blocks)
    decreases |blocks|
  {
    hide IsSpace, Blank, Begin, Grown, Closed, TextOf, Carries, Ink, InkAll, Pack;
    InkNil();
    if blocks == [] {
      PackEnd(cur, target, overlap);
      PackLast(cur);
    } else {
      var b, rest := blocks[0], blocks[1..];
      assert blocks == [b] + rest;
      PackStep(cur, b, rest, target, overlap);
      GrownIs(cur, b);
      InkAllCons(b, rest);
      if TextOf(cur) != "" && |TextOf(Grown(cur, b))| > target {
        BeginIs(TextOf(cur), b, overlap);
        BeginCarries(cur, b, overlap);
        var next := Begin(TextOf(cur), b, overlap);
        PackChain(next, rest, target, overlap);
        var ps := Pack(next, rest, target, overlap);
        InkAllCons(cur.added, Added(ps));
        AddedCons(cur, ps);
        SoundHasInk(cur);
        CarriesSame(cur, next, if ps == [] then next else ps[0], overlap);
      } else {
        PackChain(Grown(cur, b), rest, target, overlap);
        GrownCarries(cur, b);
      }
    }
  }

  lemma CarriesSame(p: Piece, q: Piece, q': Piece, overlap: int)
    requires Carries(p, q, overlap) && q'.carried == q.carried
    ensures Carries(p, q', overlap)
  {
  }

  lemma AddedCons(p: Piece, ps: seq<Piece>)
    ensures Added([p] + ps) == [p.added] + Added(ps)
  {
    assert ([p] + ps)[1..] == ps;
  }

  lemma SoundHasInk(cur: Piece)
    requires Sound(cur) && TextOf(cur) != ""
    ensures !Blank(cur.added)
  {
  }

  lemma GrownCarries(cur: Piece, b: string)
    requires Sound(cur)
    ensures Grown(cur, b).carried == cur.carried
  {
  }

  lemma PackLast(cur: Piece)
    requires Sound(cur)
    ensures var ps := if Blank(TextOf(cur)) then [] else [Closed(cur)];
            && (ps != [] ==> ps[0].carried == cur.carried && !Blank(ps[0].added))
            && InkAll(Added(ps)) == Ink(cur.added)
  {
    hide IsSpace, Ink, InkAll;
    InkNil();
    InkBlank(cur.added);
    if cur == NOTHING {
      SoundNothing();
    } else if !Blank(TextOf(cur)) {
      ClosedIs(cur);
      InkBlank(Closed(cur).added);
      InkAllOne(Closed(cur).added);
      AddedCons(Closed(cur), []);
      assert [Closed(cur)] == [Closed(cur)] + [] && [Closed(cur).added] == [Closed(cur).added] + Added([]);
    } else {
      assert forall i :: 0 <= i < |cur.added| ==> TextOf(cur)[|cur.carried| + i] == cur.added[i];
    }
  }

  /** Every chunk is a tail of the one before it (none for the first), then new text; and the new
      texts hold exactly the document's characters other than whitespace, in order. */
  lemma ChunksConserve(md: string, target: int, overlap: int)
    ensures var ps := Pieces(md, target, overlap);
            && |Chunks(md, target, overlap)| == |ps|
            && (forall i :: 0 <= i < |ps| ==> Chunks(md, target, overlap)[i] == ps[i].carried + ps[i].added)
            && (ps != [] ==> ps[0].carried == "")
            && (forall i :: 0 < i < |ps| ==> Carries(ps[i - 1], ps[i], overlap))
            && (forall p :: p in ps ==> !Blank(p.added))
            && InkAll(Added(ps)) == Ink(md)
  {
    hide Blank, Pack, Carries, IsSpace, Blocks;
    BlocksAre(md, target, overlap);
    SoundNothing();
    InkNil();
    PackChain(NOTHING, Blocks(md, target, overlap), target, overlap);
    TextsAre(Pieces(md, target, overlap));
  }

  lemma TextsAre(ps: seq<Piece>)
    ensures |Texts(ps)| == |ps| && forall i :: 0 <= i < |ps| ==> Texts(ps)[i] == TextOf(ps[i])
  {
  }

  // ---------------------------------------------------------------- the length bound

  predicate Within(ps: seq<Piece>, target: int) {
    forall p :: p in ps ==> |TextOf(p)| <= target
  }

  lemma BeginLength(buf: string, b: string, overlap: int)
    requires !Blank(b)
    ensures |TextOf(Begin(buf, b, overlap))| <= if overlap > 0 then overlap + 2 + |b| else |b|
  {
    hide IsSpace, Begin, Strip;
    BeginIs(buf, b, overlap);
    StripIs(Tail(buf, overlap) + "\n\n" + b);
  }

  /** Room for a tail, a separator and a whole block. */
  lemma {:induction false} PackWithin(cur: Piece, blocks: seq<string>, target: int, overlap: int)
    requires Sound(cur) && |TextOf(cur)| <= target
    requires forall b :: b in blocks ==> !Blank(b) && |b| <= target && (overlap > 0 ==> |b| + overlap + 2 <= target)
    ensures Within(Pack(cur, blocks, target, overlap), target)
    decreases |blocks|
  {
    hide IsSpace, Blank, Begin, Grown, Closed, TextOf, Pack;
    if blocks == [] {
      PackEnd(cur, target, overlap);
      SoundNothing();
      if cur != NOTHING {
        ClosedIs(cur);
      }
    } else {
      var b, rest := blocks[0], blocks[1..];
      assert blocks == [b] + rest;
      PackStep(cur, b, rest, target, overlap);
      GrownIs(cur, b);
      if TextOf(cur) != "" && |TextOf(Grown(cur, b))| > target {
        BeginIs(TextOf(cur), b, overlap);
        BeginLength(TextOf(cur), b, overlap);
        PackWithin(Begin(TextOf(cur), b, overlap), rest, target, overlap);
      } else {
        PackWithin(Grown(cur, b), rest, target, overlap);
      }
    }
  }

  /** Single characters with empty lines between them: what a buffer is when blocks are cut to one character. */
  predicate Spaced(s: string) {
    |s| % 3 == 1 && forall i :: 0 <= i < |s| ==> if i % 3 == 0 then !IsSpace(s[i]) else s[i] == '\n'
  }

  lemma SpacedTail(s: string, overlap: int, target: int)
    requires Spaced(s) && 4 <= |s| <= target <= overlap + 2
    ensures Tail(s, overlap) == if |s| < overlap + 2 then s[2..] else s[3..]
  {
    var start := if |s| <= overlap then 0 else |s| - overlap;
    var raw := s[start..];
    NewlineIsSpace();
    hide IsSpace;
    assert s[0] != '\n' && s[1] == '\n' && s[2] == '\n';
    var cut := if start <= 1 then 2 else 3;
    assert raw[cut - 1 - start] == '\n';
    AfterFirst(raw, cut - 1 - start);
    assert raw[cut - start..] == s[cut..];
  }

  lemma NewlineIsSpace()
    ensures IsSpace('\n')
  {
  }

  lemma SpacedBegin(s: string, b: string, overlap: int, target: int)
    requires Spaced(s) && |b| == 1 && !IsSpace(b[0])
    requires 4 <= |s| <= target <= overlap + 2
    ensures BeginText(s, b, overlap) == s[3..] + "\n\n" + b
  {
    NewlineIsSpace();
    hide IsSpace, Tail, Strip;
    SpacedTail(s, overlap, target);
    var tail := Tail(s, overlap);
    LastInkAt(b, 1);
    assert b[..1] == b;
    var cut := |s| - |tail|;
    assert tail == s[cut..] && (cut == 2 || cut == 3) && s[2] == '\n' && !IsSpace(s[3]);
    assert tail[3 - cut] == s[3];
    assert !Blank(tail);
    StripBothEnds(tail, "\n\n", b);
    FirstInkAt(tail, 3 - cut);
    assert tail[3 - cut..] == s[3..];
    assert s[3..] + ("\n\n" + b) == s[3..] + "\n\n" + b;
  }

  lemma AfterFirst(s: string, k: nat)
    requires k < |s| && s[k] == '\n' && forall i :: 0 <= i < k ==> s[i] != '\n'
    ensures AfterNewline(s) == s[k + 1..]
  {
    if k > 0 {
      AfterFirst(s[1..], k - 1);
      assert s[1..][k..] == s[k + 1..];
    }
  }

  lemma SpacedGrows(s: string, b: string)
    requires Spaced(s) && |b| == 1 && !IsSpace(b[0])
    ensures Spaced(s + "\n\n" + b) && (|s| >= 4 ==> Spaced(s[3..]))
  {
  }

  lemma SpacedOne(b: string)
    requires |b| == 1 && !Blank(b)
    ensures Spaced(b) && !IsSpace(b[0])
  {
  }

  /** With no room for a tail and a block, blocks are single characters, and a chunk of them still fits. */
  lemma {:induction false} PackSpaced(cur: Piece, blocks: seq<string>, target: int, overlap: int)
    requires Sound(cur) && (cur == NOTHING || Spaced(TextOf(cur))) && |TextOf(cur)| <= target
    requires 4 <= target <= overlap + 2
    requires forall b :: b in blocks ==> !Blank(b) && |b| <= 1
    ensures Within(Pack(cur, blocks, target, overlap), target)
    decreases |blocks|
  {
    hide IsSpace, Blank, Begin, Grown, Closed, TextOf, Pack, Spaced, BeginText;
    SoundNothing();
    if blocks == [] {
      PackEnd(cur, target, overlap);
      if cur != NOTHING {
        ClosedIs(cur);
      }
    } else {
      var b, rest := blocks[0], blocks[1..];
      assert blocks == [b] + rest;
      assert |b| == 1 by { SoundNothing(); }
      PackStep(cur, b, rest, target, overlap);
      GrownIs(cur, b);
      SpacedOne(b);
      var s := TextOf(cur);
      if s == "" {
        PackSpaced(Grown(cur, b), rest, target, overlap);
      } else {
        SpacedGrows(s, b);
        if |TextOf(Grown(cur, b))| > target {
          BeginIs(s, b, overlap);
          SpacedLength(s);
          SpacedBegin(s, b, overlap, target);
          SpacedGrows(s[3..], b);
          PackSpaced(Begin(s, b, overlap), rest, target, overlap);
        } else {
          PackSpaced(Grown(cur, b), rest, target, overlap);
        }
      }
    }
  }

  lemma SpacedLength(s: string)
    requires Spaced(s)
    ensures |s| == 1 || |s| >= 4
  {
  }

  /** The settings for which no document yields a chunk over the target. */
  predicate Fits(target: int, overlap: int) {
    target >= 1 && overlap >= -2 && (overlap <= 0 || target >= 4)
  }

  lemma FitsIsEnough(md: string, target: int, overlap: int)
    requires Fits(target, overlap)
    ensures Within(Pieces(md, target, overlap), target)
  {
    hide Blank, Pack, Blocks, TextOf;
    BlocksAre(md, target, overlap);
    SoundNothing();
    if overlap <= 0 || target >= overlap + 3 {
      PackWithin(NOTHING, Blocks(md, target, overlap), target, overlap);
    } else {
      PackSpaced(NOTHING, Blocks(md, target, overlap), target, overlap);
    }
  }

  /** The default settings: 1200 characters, of which at most 150 are carried over. */
  lemma DefaultChunksFit(md: string)
    ensures forall c :: c in Chunks(md, 1200, 150) ==> |c| <= 1200
  {
    hide Pack, Pieces;
    FitsIsEnough(md, 1200, 150);
    TextsAre(Pieces(md, 1200, 150));
  }

  // ---------------------------------------------------------------- and only then

  lemma LetterIsInk()
    ensures !IsSpace('a')
  {
  }

  function Run(n: nat): (s: string)
    ensures |s| == n && forall i :: 0 <= i < n ==> s[i] == 'a'
  {
    seq(n, i => 'a')
  }

  lemma SplitBlanksNoNewline(s: string, block: string)
    requires '\n' !in s
    ensures SplitBlanks(s, block) == [block + s]
    decreases |s|
  {
    hide IsSpace;
    if s == "" {
      assert block + s == block;
    } else {
      SplitBlanksNoNewline(s[1..], block + [s[0]]);
      assert block + [s[0]] + s[1..] == block + s;
    }
  }

  /** Ink alone, within one block, is one chunk. */
  lemma InkIsOneChunk(s: string, target: int, overlap: int)
    requires 1 <= |s| <= BlockLimit(target, overlap) && forall i :: 0 <= i < |s| ==> !IsSpace(s[i])
    ensures Pieces(s, target, overlap) == [Piece("", s)]
  {
    NewlineIsSpace();
    hide IsSpace, Strip, SplitBlanks, Pack, SplitAll, Stripped;
    StripFixed(s);
    SplitBlanksNoNewline(s, "");
    assert "" + s == s && !Blank(s);
    OneBlock(s, BlockLimit(target, overlap));
    assert Blocks(s, target, overlap) == [s] == [s] + [];
    PackStep(NOTHING, s, [], target, overlap);
    PackEnd(Piece("", s), target, overlap);
    assert TextOf(Piece("", s)) == s;
  }

  lemma OneBlock(s: string, limit: nat)
    requires 1 <= |s| <= limit && Strip(s) == s
    ensures SplitAll(Stripped([s]), limit) == [s]
  {
    hide Strip;
    var one: seq<string> := [s];
    assert one[0] == s && one[1..] == [];
    assert Stripped(one) == one;
  }

  /** Two letters on either side of a blank line, when every block is one character and there is
      no room for a letter, a separator and a letter. */
  lemma TwoLettersOverflow(target: int, overlap: int)
    requires 1 <= target <= 3 && overlap > 0
    ensures !Within(Pieces("a\n\na", target, overlap), target)
  {
    var s := "a\n\na";
    LetterIsInk();
    TwoLetterBlocks(BlockLimit(target, overlap));
    StripFixed(s);
    PackTwoLetters("a", target, overlap);
  }

  lemma PackTwoLetters(a: string, target: int, overlap: int)
    requires |a| == 1 && !IsSpace(a[0]) && 1 <= target <= 3 && overlap > 0
    ensures !Within(Pack(NOTHING, [a, a], target, overlap), target)
  {
    hide IsSpace, Begin, Closed, Pack, Blank;
    var first, next := Piece("", a), Begin(a, a, overlap);
    assert [a, a] == [a] + [a] && [a] == [a] + [];
    PackStep(NOTHING, a, [a], target, overlap);
    assert TextOf(first) == a;
    PackStep(first, a, [], target, overlap);
    assert |TextOf(Grown(first, a))| == 4;
    PackEnd(next, target, overlap);
    TwoLetterText(a, overlap);
    var ps := [first] + [Closed(next)];
    assert Pack(NOTHING, [a, a], target, overlap) == ps;
    assert ps[1] in ps && |TextOf(ps[1])| == 4;
  }

  lemma TailOfLetter(a: string, overlap: int)
    requires |a| == 1 && !IsSpace(a[0]) && overlap > 0
    ensures Tail(a, overlap) == a
  {
    NewlineIsSpace();
    hide IsSpace;
    assert '\n' !in a;
  }

  lemma TwoLetterText(a: string, overlap: int)
    requires |a| == 1 && !IsSpace(a[0]) && overlap > 0
    ensures !Blank(TextOf(Begin(a, a, overlap))) && |TextOf(Closed(Begin(a, a, overlap)))| == 4
  {
    TailOfLetter(a, overlap);
    hide IsSpace, Strip, Begin, Closed, Tail;
    var next := Begin(a, a, overlap);
    BeginIs(a, a, overlap);
    var t := a + "\n\n" + a;
    assert t[0] == a[0] && t[3] == a[0] && |t| == 4;
    StripFixed(t);
    assert TextOf(next) == t && next != NOTHING;
    ClosedIs(next);
  }

  lemma TwoLetterBlocks(limit: nat)
    requires limit >= 1
    ensures SplitAll(Stripped(SplitBlanks("a\n\na", "")), limit) == ["a", "a"]
  {
    var s := "a\n\na";
    assert s[1..] == "\n\na" && s[1..][1..] == "\na" && "\na"[1..] == "a" && "a"[1..] == "";
    assert Lead("a") == "" && Lead("\na") == "\n" + Lead("a") == "\n";
    assert RFind("\n", '\n') == 0;
    assert BlankLine("\n\na") == 2;
    assert BlankLine(s) == 0 && BlankLine("a") == 0;
    assert SplitBlanks("a", "") == SplitBlanks("", "" + ['a']) == ["a"] by { assert "" + ['a'] == "a"; }
    assert "\n\na"[2..] == "a";
    assert SplitBlanks("\n\na", "a") == ["a"] + SplitBlanks("a", "");
    assert SplitBlanks(s, "") == SplitBlanks("\n\na", "" + ['a']) by { assert s[1..] == "\n\na"; }
    assert SplitBlanks(s, "") == ["a", "a"];
    StripFixed("a");
    assert ["a", "a"][1..] == ["a"] && ["a"][1..] == [];
    assert Stripped(["a"]) == ["a"] && Stripped(["a", "a"]) == ["a", "a"];
    assert SplitAll(["a"], limit) == ["a"];
  }

  /** Every chunk of every document respects the target exactly for the settings in `Fits`. */
  lemma ChunkBoundIff(target: int, overlap: int)
    ensures (forall md :: Within(Pieces(md, target, overlap), target)) <==> Fits(target, overlap)
  {
    hide Pieces, IsSpace;
    if Fits(target, overlap) {
      forall md ensures Within(Pieces(md, target, overlap), target) {
        FitsIsEnough(md, target, overlap);
      }
    } else if target >= 1 && overlap >= -2 {
      TwoLettersOverflow(target, overlap);
    } else {
      var n := if target <= 0 then 1 else target + 1;
      LetterIsInk();
      InkIsOneChunk(Run(n), target, overlap);
      var p := Piece("", Run(n));
      assert p in Pieces(Run(n), target, overlap) && |TextOf(p)| > target;
    }
  }
}
