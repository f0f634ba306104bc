/** Packing blocks into chunks: each chunk is a tail carried over from the one before and added
    text, and the added parts together are the document. */
module Packing {
  import opened Text
  import opened Chunking

  /** A chunk: what it carries over from the previous one, and what is new in it. */
  datatype Piece = Piece(carried: string, added: string)

  function TextOf(p: Piece): string {
    p.carried + p.added
  }

  function Texts(ps: seq<Piece>): seq<string> {
    if ps == [] then [] else [TextOf(ps[0])] + Texts(ps[1..])
  }

  function Added(ps: seq<Piece>): seq<string> {
    if ps == [] then [] else [ps[0].added] + Added(ps[1..])
  }

  function AfterNewline(s: string): (r: string)
    ensures |r| <= |s| && r == s[|s| - |r|..]
  {
    if s == "" then "" else if s[0] == '\n' then s[1..] else AfterNewline(s[1..])
  }

  /** The last `overlap` characters of a chunk, from the next line on if they hold a line break. */
  function Tail(buf: string, overlap: int): (t: string)
    ensures |t| <= |buf| && t == buf[|buf| - |t|..] && (overlap >= 0 ==> |t| <= overlap) && (overlap < 0 ==> t == "")
  {
    var raw := if overlap <= 0 then "" else if |buf| <= overlap then buf else buf[|buf| - overlap..];
    if '\n' in raw then AfterNewline(raw) else raw
  }

  /** The chunk begun after `buf` went out. */
  function Begin(buf: string, b: string, overlap: int): Piece {
    var tail := Tail(buf, overlap);
    if tail == "" then Piece("", b)
    else if Blank(tail) then Piece("", Strip(b))
    else Piece(LStrip(tail), "\n\n" + RStrip(b))
  }

  function Grown(cur: Piece, b: string): Piece {
    if TextOf(cur) == "" then Piece("", b) else Piece(cur.carried, cur.added + "\n\n" + b)
  }

  function Closed(cur: Piece): Piece {
    if cur.carried == "" then Piece("", Strip(cur.added)) else Piece(cur.carried, RStrip(cur.added))
  }

  function Pack(cur: Piece, blocks: seq<string>, target: int, overlap: int): seq<Piece>
    decreases |blocks|
  {
    if blocks == [] then (if Blank(TextOf(cur)) then [] else [Closed(cur)])
    else if TextOf(cur) != "" && |TextOf(Grown(cur, blocks[0]))| > target then
      [cur] + Pack(Begin(TextOf(cur), blocks[0], overlap), blocks[1..], target, overlap)
    else Pack(Grown(cur, blocks[0]), blocks[1..], target, overlap)
  }

  const NOTHING := Piece("", "")

  function Pieces(md: string, target: int, overlap: int): seq<Piece> {
    Pack(NOTHING, Blocks(md, target, overlap), target, overlap)
  }

  /** The texts of `chunk_markdown`; a chunk's ordinal is its index. */
  function Chunks(md: string, target: int, overlap: int): seq<string> {
    Texts(Pieces(md, target, overlap))
  }

  // ---------------------------------------------------------------- the loop

  /** A buffer as the loop meets it: nothing yet, or ink at both ends of what was carried and ink in what is new. */
  predicate Sound(p: Piece) {
    p == NOTHING || ((p.carried != "" ==> !IsSpace(p.carried[0])) && !Blank(p.added))
  }

  lemma BeginIs(buf: string, b: string, overlap: int)
    requires !Blank(b)
    ensures Sound(Begin(buf, b, overlap)) && TextOf(Begin(buf, b, overlap)) != ""
    ensures TextOf(Begin(buf, b, overlap)) == BeginText(buf, b, overlap)
    ensures Ink(Begin(buf, b, overlap).added) == Ink(b)
  {
    hide IsSpace, Ink, Strip, LStrip, RStrip, Tail;
    var tail := Tail(buf, overlap);
    StripIs(b);
    StripIs(Strip(b));
    InkStrip(b);
    InkBlank(b);
    InkBlank(Strip(b));
    InkNil();
    if tail != "" && Blank(tail) {
      StripBlankHead(tail, b);
      assert "" + Strip(b) == Strip(b);
    } else if tail != "" {
      StripBothEnds(tail, "\n\n", b);
      LStripIs(tail);
      NewlinesAreBlank();
      InkConcat("\n\n", RStrip(b));
      InkBlank("\n\n");
      InkBlank("\n\n" + RStrip(b));
    } else {
      assert "" + b == b;
    }
  }

  lemma NewlinesAreBlank()
    ensures Blank("\n\n")
  {
  }

  lemma StripBlankHead(head: string, b: string)
    requires Blank(head)
    ensures Strip(head + "\n\n" + b) == Strip(b)
  {
    NewlinesAreBlank();
    LStripPast(head + "\n\n", b);
  }

  lemma LStripPast(head: string, b: string)
    requires Blank(head)
    ensures LStrip(head + b) == LStrip(b)
  {
    hide IsSpace;
    var s, m := head + b, FirstInk(b, 0);
    assert forall i :: |head| <= i < |s| ==> s[i] == b[i - |head|];
    FirstInkAt(s, |head| + m);
    assert s[|head| + m..] == b[m..];
  }

  lemma RStripPast(a: string, b: string)
    requires !Blank(b)
    ensures RStrip(a + b) == a + RStrip(b)
  {
    hide IsSpace;
    RStripIs(b);
    var s, n := a + b, LastInk(b, |b|);
    assert forall i :: |a| <= i < |s| ==> s[i] == b[i - |a|];
    LastInkAt(s, |a| + n);
    assert s[..|a| + n] == a + b[..n];
  }

  lemma LStripWithin(a: string, b: string)
    requires !Blank(a)
    ensures LStrip(a + b) == LStrip(a) + b
  {
    hide IsSpace;
    LStripIs(a);
    var s, k := a + b, FirstInk(a, 0);
    assert forall i :: 0 <= i < |a| ==> s[i] == a[i];
    FirstInkAt(s, k);
    assert s[k..] == a[k..] + b;
  }

  /** Stripping around a middle touches only the outer ends. */
  lemma StripBothEnds(a: string, mid: string, b: string)
    requires !Blank(a) && !Blank(b)
    ensures Strip(a + mid + b) == LStrip(a) + (mid + RStrip(b))
  {
    hide IsSpace, LStrip, RStrip, Blank;
    assert a + mid + b == a + (mid + b);
    LStripWithin(a, mid + b);
    assert LStrip(a) + (mid + b) == (LStrip(a) + mid) + b;
    RStripPast(LStrip(a) + mid, b);
    assert (LStrip(a) + mid) + RStrip(b) == LStrip(a) + (mid + RStrip(b));
  }

  lemma ClosedIs(cur: Piece)
    requires Sound(cur) && cur != NOTHING
    ensures TextOf(Closed(cur)) == Strip(TextOf(cur)) && Ink(Closed(cur).added) == Ink(cur.added)
    ensures Closed(cur).carried == cur.carried && |TextOf(Closed(cur))| <= |TextOf(cur)|
  {
    hide IsSpace, Ink, Strip, RStrip, LStrip;
    InkStrip(cur.added);
    StripIs(cur.added);
    RStripIs(cur.added);
    if cur.carried == "" {
      assert TextOf(cur) == cur.added;
      assert TextOf(Closed(cur)) == Strip(cur.added);
    } else {
      assert !IsSpace(cur.carried[0]);
      StripBothEnds(cur.carried, "", cur.added);
      assert cur.carried + "" + cur.added == TextOf(cur) && "" + RStrip(cur.added) == RStrip(cur.added);
      LStripInk(cur.carried);
    }
  }

  lemma LStripInk(s: string)
    requires s != "" && !IsSpace(s[0])
    ensures LStrip(s) == s
  {
    FirstInkAt(s, 0);
  }

  lemma GrownIs(cur: Piece, b: string)
    requires Sound(cur) && !Blank(b)
    ensures Sound(Grown(cur, b)) && Grown(cur, b) != NOTHING
    ensures TextOf(Grown(cur, b)) == if TextOf(cur) != "" then TextOf(cur) + "\n\n" + b else b
    ensures Ink(Grown(cur, b).added) == Ink(cur.added) + Ink(b)
    ensures TextOf(cur) == "" <==> cur == NOTHING
  {
    hide IsSpace, Ink;
    InkNil();
    if TextOf(cur) != "" {
      NewlinesAreBlank();
      InkConcat(cur.added + "\n\n", b);
      InkConcat(cur.added, "\n\n");
      InkBlank("\n\n");
      InkBlank(b);
      InkBlank(cur.added + "\n\n" + b);
      assert cur.carried + (cur.added + "\n\n" + b) == TextOf(cur) + "\n\n" + b;
    }
  }

  lemma TextsSnoc(ps: seq<Piece>, p: Piece)
    ensures Texts(ps + [p]) == Texts(ps) + [TextOf(p)]
  {
    if ps != [] {
      assert (ps + [p])[1..] == ps[1..] + [p];
      TextsSnoc(ps[1..], p);
    }
  }

  lemma PackStep(cur: Piece, b: string, rest: seq<string>, target: int, overlap: int)
    ensures Pack(cur, [b] + rest, target, overlap) ==
            if TextOf(cur) != "" && |TextOf(Grown(cur, b))| > target
            then [cur] + Pack(Begin(TextOf(cur), b, overlap), rest, target, overlap)
            else Pack(Grown(cur, b), rest, target, overlap)
  {
    hide Blank, TextOf, Grown, Begin, Closed;
    assert ([b] + rest)[0] == b && ([b] + rest)[1..] == rest;
  }

  lemma PackEnd(cur: Piece, target: int, overlap: int)
    ensures Pack(cur, [], target, overlap) == if Blank(TextOf(cur)) then [] else [Closed(cur)]
  {
  }

  /** The text the next chunk begins with, as the loop writes it. */
  function BeginText(buf: string, b: string, overlap: int): string {
    var tail := Tail(buf, overlap);
    if tail != "" then Strip(tail + "\n\n" + b) else b
  }

  method SplitBlocks(md: string, target: int, overlap: int) returns (blocks: seq<string>)
    ensures blocks == Blocks(md, target, overlap)
  {
    hide IsSpace, Blank, Strip, SplitOversized, SplitBlanks;
    var parts := Stripped(SplitBlanks(Strip(md), ""));
    var limit := BlockLimit(target, overlap);
    blocks := [];
    var i := 0;
    while i < |parts|
      invariant 0 <= i <= |parts|
      invariant blocks + SplitAll(parts[i..], limit) == SplitAll(parts, limit)
    {
      var pieces := SplitOversizedLoop(parts[i], limit);
      assert parts[i..][0] == parts[i] && parts[i..][1..] == parts[i + 1..];
      blocks := blocks + pieces;
      i := i + 1;
    }
  }

  method ChunkMarkdown(md: string, target: int, overlap: int) returns (chunks: seq<string>)
    ensures chunks == Chunks(md, target, overlap)
  {
    hide IsSpace, Blank, Strip, Begin, Grown, Closed, Blocks, Tail, TextOf, Sound, Pack, Texts;
    TextsNil();
    var blocks := SplitBlocks(md, target, overlap);
    BlocksAre(md, target, overlap);
    chunks := [];
    var buf := "";
    ghost var done, cur := [], NOTHING;
    SoundNothing();
    var i := 0;
    while i < |blocks|
      invariant 0 <= i <= |blocks|
      invariant chunks == Texts(done) && buf == TextOf(cur) && Sound(cur)
      invariant done + Pack(cur, blocks[i..], target, overlap) == Pieces(md, target, overlap)
    {
      var b := blocks[i];
      assert blocks[i..] == [b] + blocks[i + 1..];
      PackStep(cur, b, blocks[i + 1..], target, overlap);
      GrownIs(cur, b);
      BeginIs(buf, b, overlap);
      var candidate := if buf != "" then buf + "\n\n" + b else b;
      if buf != "" && |candidate| > target {
        chunks := chunks + [buf];
        TextsSnoc(done, cur);
        ghost var rest := Pack(Begin(buf, b, overlap), blocks[i + 1..], target, overlap);
        assert done + ([cur] + rest) == (done + [cur]) + rest;
        done, cur := done + [cur], Begin(buf, b, overlap);
        buf := BeginText(buf, b, overlap);
      } else {
        cur := Grown(cur, b);
        buf := candidate;
      }
      i := i + 1;
    }
    assert blocks[i..] == [];
    PackEnd(cur, target, overlap);
    if !Blank(buf) {
      ClosedIs(cur);
      TextsSnoc(done, Closed(cur));
      chunks := chunks + [Strip(buf)];
    } else {
      assert done + [] == done;
    }
  }

  lemma TextsNil()
    ensures Texts([]) == []
  {
  }

  lemma SoundNothing()
    ensures Sound(NOTHING) && TextOf(NOTHING) == "" && Blank("")
  {
  }
}
