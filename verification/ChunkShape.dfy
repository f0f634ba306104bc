/** Where a document is cut: at blank lines, an oversized block at line breaks as late as they allow, and a chunk
    only where the next block no longer fits. */
module ChunkShape {
  import opened Text
  import opened Chunking
  import opened Packing
  import ChunkBounds

  // ---------------------------------------------------------------- lines

  function JoinLines(ls: seq<string>): string {
    if ls == [] then "" else if |ls| == 1 then ls[0] else ls[0] + "\n" + JoinLines(ls[1..])
  }

  lemma LinesNonEmpty(s: string, line: string)
    ensures Lines(s, line) != []
  {
  }

  /** Joined by line breaks, the lines of a text are the text, and none holds a line break. */
  lemma {:induction false} LinesAre(s: string, line: string)
    requires '\n' !in line
    ensures JoinLines(Lines(s, line)) == line + s
    ensures forall l :: l in Lines(s, line) ==> '\n' !in l
  {
    if s == "" {
      assert line + s == line;
    } else if s[0] == '\n' {
      LinesAre(s[1..], "");
      LinesNonEmpty(s[1..], "");
      var rest := Lines(s[1..], "");
      assert ([line] + rest)[1..] == rest;
      assert line + "\n" + ("" + s[1..]) == line + s;
    } else {
      LinesAre(s[1..], line + [s[0]]);
      assert (line + [s[0]]) + s[1..] == line + s;
    }
  }

  lemma {:induction false} LinesOfJoin(a: string, b: string, line: string)
    ensures Lines(a + "\n" + b, line) == Lines(a, line) + Lines(b, "")
    decreases |a|
  {
    var s := a + "\n" + b;
    if a == "" {
      assert s[0] == '\n' && s[1..] == b;
    } else {
      assert s[0] == a[0] && s[1..] == a[1..] + "\n" + b;
      if a[0] == '\n' {
        LinesOfJoin(a[1..], b, "");
      } else {
        LinesOfJoin(a[1..], b, line + [a[0]]);
      }
    }
  }

  lemma {:induction false} OneLine(s: string, line: string)
    requires '\n' !in s
    ensures Lines(s, line) == [line + s]
  {
    if s == "" {
      assert line + s == line;
    } else {
      OneLine(s[1..], line + [s[0]]);
      assert (line + [s[0]]) + s[1..] == line + s;
    }
  }

  lemma JoinedLines(buf: string, line: string)
    requires '\n' !in line
    ensures Lines(Joined(buf, line), "") == if buf == "" then [line] else Lines(buf, "") + [line]
  {
    OneLine(line, "");
    assert "" + line == line;
    if buf != "" {
      LinesOfJoin(buf, line, "");
    }
  }

  // ---------------------------------------------------------------- an oversized block

  ghost predicate InOneOf(l: string, ps: seq<string>) {
    exists p :: p in ps && l in Lines(p, "")
  }

  lemma InMore(l: string, first: seq<string>, rest: seq<string>)
    ensures InOneOf(l, first) || InOneOf(l, rest) ==> InOneOf(l, first + rest)
  {
    if InOneOf(l, first) {
      var p :| p in first && l in Lines(p, "");
      assert p in first + rest;
    }
    if InOneOf(l, rest) {
      var p :| p in rest && l in Lines(p, "");
      assert p in first + rest;
    }
  }

  lemma InThis(l: string, p: string)
    requires l in Lines(p, "")
    ensures InOneOf(l, [p])
  {
    assert p in [p];
  }

  lemma {:induction false} FeedKeepsLines(buf: string, lines: seq<string>, limit: nat, l: string)
    requires limit >= 1 && !Blank(l) && (forall m :: m in lines ==> '\n' !in m)
    requires (buf != "" && l in Lines(buf, "")) || (l in lines && |l| <= limit)
    ensures InOneOf(l, Feed(buf, lines, limit))
    decreases |lines|, if lines == [] then 0 else |lines[0]|, |buf|
  {
    hide Blank, Feed, Lines, InOneOf, Joined;
    if lines == [] {
      InThis(l, buf);
      BlankLines(buf, l);
      EndStep(buf, limit);
    } else {
      var line, rest := lines[0], lines[1..];
      assert lines == [line] + rest;
      if |line| > limit {
        CutStep(buf, line, rest, limit);
        var out := Feed("", [line[limit..]] + rest, limit);
        NoBreakWithin(line, limit);
        if buf != "" && l in Lines(buf, "") {
          InThis(l, buf);
          InMore(l, [buf], [line[..limit]]);
          InMore(l, [buf] + [line[..limit]], out);
        } else {
          FeedKeepsLines("", [line[limit..]] + rest, limit, l);
          InMore(l, (if buf != "" then [buf] else []) + [line[..limit]], out);
        }
      } else {
        LineStep(buf, line, rest, limit);
        JoinedLines(buf, line);
        JoinedEmpty(buf, line);
        OneLine(line, "");
        assert "" + line == line;
        if buf != "" && |Joined(buf, line)| > limit {
          if l in Lines(buf, "") {
            InThis(l, buf);
          } else {
            NotEmpty(l);
            FeedKeepsLines(line, rest, limit, l);
          }
          InMore(l, [buf], Feed(line, rest, limit));
        } else {
          NotEmpty(l);
          FeedKeepsLines(Joined(buf, line), rest, limit, l);
        }
      }
    }
  }

  lemma NoBreakWithin(line: string, k: nat)
    requires '\n' !in line && k <= |line|
    ensures '\n' !in line[..k] && '\n' !in line[k..]
  {
  }

  lemma NotEmpty(l: string)
    requires !Blank(l)
    ensures l != ""
  {
  }

  lemma JoinedEmpty(buf: string, line: string)
    ensures Joined(buf, line) == "" <==> buf == "" && line == ""
  {
  }

  lemma BlankLines(s: string, l: string)
    requires l in Lines(s, "") && !Blank(l)
    ensures !Blank(s)
  {
    if Blank(s) {
      BlankHasBlankLines(s, "", l);
    }
  }

  lemma {:induction false} BlankHasBlankLines(s: string, line: string, l: string)
    requires Blank(s) && Blank(line) && l in Lines(s, line)
    ensures Blank(l)
  {
    hide IsSpace;
    if s != "" {
      if s[0] == '\n' {
        if l != line {
          BlankHasBlankLines(s[1..], "", l);
        }
      } else {
        BlankHasBlankLines(s[1..], line + [s[0]], l);
      }
    }
  }

  /** A line that fits stays whole: it is a line of one of the pieces. */
  lemma LinesStayWhole(block: string, limit: nat, l: string)
    requires limit >= 1 && l in Lines(block, "") && |l| <= limit && !Blank(l)
    ensures exists p :: p in SplitOversized(block, limit) && l in Lines(p, "")
  {
    hide Blank, Feed, Lines;
    if |block| <= limit {
      assert block in SplitOversized(block, limit);
    } else {
      LinesAre(block, "");
      FeedKeepsLines("", Lines(block, ""), limit, l);
      var p :| p in Feed("", Lines(block, ""), limit) && l in Lines(p, "");
      BlankLines(p, l);
      NonBlankHolds(Feed("", Lines(block, ""), limit), p);
    }
  }

  lemma {:induction false} NonBlankHolds(ss: seq<string>, s: string)
    requires s in ss && !Blank(s)
    ensures s in NonBlank(ss)
  {
    hide Blank;
    if ss[0] != s {
      NonBlankHolds(ss[1..], s);
    }
  }

  /** How long the first line of a piece is. */
  function FirstLine(p: string): nat {
    LinesNonEmpty(p, "");
    |Lines(p, "")[0]|
  }

  /** No piece could have taken the first line of the next. */
  ghost predicate CutLate(ps: seq<string>, limit: nat) {
    forall i :: 0 <= i < |ps| - 1 ==> |ps[i]| + 1 + FirstLine(ps[i + 1]) > limit
  }

  lemma CutLateMore(p: string, ps: seq<string>, limit: nat)
    requires CutLate(ps, limit) && (ps != [] ==> |p| + 1 + FirstLine(ps[0]) > limit)
    ensures CutLate([p] + ps, limit)
  {
    hide FirstLine;
    var all := [p] + ps;
    forall i | 0 <= i < |all| - 1 ensures |all[i]| + 1 + FirstLine(all[i + 1]) > limit {
      assert all[i + 1] == ps[i] && (i > 0 ==> all[i] == ps[i - 1]);
    }
  }

  lemma {:induction false} FeedCutsLate(buf: string, lines: seq<string>, limit: nat)
    requires limit >= 1 && |buf| <= limit && (forall m :: m in lines ==> '\n' !in m)
    ensures CutLate(Feed(buf, lines, limit), limit)
    ensures buf != "" && Feed(buf, lines, limit) != [] ==> FirstLine(Feed(buf, lines, limit)[0]) == FirstLine(buf)
    decreases |lines|, if lines == [] then 0 else |lines[0]|, |buf|
  {
    hide Blank, Feed, FirstLine, Joined;
    if lines == [] {
      EndStep(buf, limit);
    } else {
      var line, rest := lines[0], lines[1..];
      assert lines == [line] + rest;
      if |line| > limit {
        CutStep(buf, line, rest, limit);
        var out := Feed("", [line[limit..]] + rest, limit);
        NoBreakWithin(line, limit);
        FeedCutsLate("", [line[limit..]] + rest, limit);
        CutLateMore(line[..limit], out, limit);
        if buf != "" {
          OneLine(line[..limit], "");
          assert FirstLine(line[..limit]) == limit by {
            FirstOfOne(line[..limit]);
          }
          CutLateMore(buf, [line[..limit]] + out, limit);
          assert [buf] + ([line[..limit]] + out) == [buf] + [line[..limit]] + out;
        } else {
          assert [] + [line[..limit]] + out == [line[..limit]] + out;
        }
      } else {
        LineStep(buf, line, rest, limit);
        JoinedLength(buf, line);
        if buf != "" && |Joined(buf, line)| > limit {
          FeedCutsLate(line, rest, limit);
          FirstOfOne(line);
          CutLateMore(buf, Feed(line, rest, limit), limit);
        } else {
          FeedCutsLate(Joined(buf, line), rest, limit);
          if buf != "" {
            FirstOfJoined(buf, line);
          }
        }
      }
    }
  }

  lemma FirstOfOne(line: string)
    requires '\n' !in line
    ensures FirstLine(line) == |line|
  {
    OneLine(line, "");
    assert "" + line == line;
  }

  lemma JoinedLength(buf: string, line: string)
    ensures buf != "" ==> |Joined(buf, line)| == |buf| + 1 + |line|
    ensures buf == "" ==> Joined(buf, line) == line
    ensures buf != "" ==> Joined(buf, line) != ""
  {
  }

  lemma FirstOfJoined(buf: string, line: string)
    requires buf != "" && '\n' !in line
    ensures FirstLine(Joined(buf, line)) == FirstLine(buf)
  {
    JoinedLines(buf, line);
    LinesNonEmpty(buf, "");
  }

  /** An oversized block becomes pieces that each take as many of its lines as fit, less the pieces that are blank. */
  lemma PiecesAreFull(block: string, limit: nat) returns (pieces: seq<string>)
    requires limit >= 1
    ensures SplitOversized(block, limit) == if |block| <= limit then [block] else NonBlank(pieces)
    ensures CutLate(pieces, limit) && forall p :: p in pieces ==> |p| <= limit
  {
    hide Feed, FirstLine;
    pieces := Feed("", Lines(block, ""), limit);
    LinesAre(block, "");
    FeedCutsLate("", Lines(block, ""), limit);
    FeedPieces("", Lines(block, ""), limit);
  }

  // ---------------------------------------------------------------- blank lines

  function Interleaved(parts: seq<string>, seps: seq<string>): string
    requires |parts| == |seps| + 1
  {
    if seps == [] then parts[0] else parts[0] + seps[0] + Interleaved(parts[1..], seps[1..])
  }

  /** A line break, blanks, and a line break. */
  predicate Separates(s: string) {
    |s| >= 2 && s[0] == '\n' && s[|s| - 1] == '\n' && Blank(s)
  }

  predicate BlankLineAt(s: string, i: nat, j: nat) {
    i < j < |s| && s[i] == '\n' && s[j] == '\n' && forall k :: i <= k <= j ==> IsSpace(s[k])
  }

  ghost predicate HasBlankLine(s: string) {
    exists i: nat, j: nat :: BlankLineAt(s, i, j)
  }

  lemma {:induction false} LeadHolds(s: string, j: nat)
    requires j < |s| && forall k :: 0 <= k <= j ==> IsSpace(s[k])
    ensures j < |Lead(s)| && Lead(s)[j] == s[j]
  {
    hide IsSpace;
    if j > 0 {
      LeadHolds(s[1..], j - 1);
    }
  }

  lemma MatchesBlankLine(s: string, j: nat)
    requires BlankLineAt(s, 0, j)
    ensures 0 < BlankLine(s)
  {
    hide IsSpace;
    forall k | 0 <= k <= j - 1 ensures IsSpace(s[1..][k]) {
      assert s[1..][k] == s[k + 1];
    }
    LeadHolds(s[1..], j - 1);
  }

  lemma MatchSeparates(s: string)
    requires 0 < BlankLine(s)
    ensures BlankLine(s) <= |s| && Separates(s[..BlankLine(s)])
  {
    hide IsSpace;
    BlankLineIsBlank(s);
    LeadIs(s[1..]);
    var nl := RFind(Lead(s[1..]), '\n');
    assert s[nl + 1] == s[1..][nl] == Lead(s[1..])[nl];
  }

  /** No blank line begins in the block, whatever comes after it. */
  ghost predicate NoneBegins(block: string, s: string) {
    forall i: nat, j: nat :: i < |block| ==> !BlankLineAt(block + s, i, j)
  }

  lemma NoneInside(block: string, s: string)
    requires NoneBegins(block, s)
    ensures !HasBlankLine(block)
  {
    forall i: nat, j: nat ensures !BlankLineAt(block, i, j) {
      BlankLineExtends(block, s, i, j);
    }
  }

  lemma BlankLineExtends(block: string, s: string, i: nat, j: nat)
    ensures BlankLineAt(block, i, j) ==> BlankLineAt(block + s, i, j) && i < |block|
  {
    hide IsSpace;
    assert forall k :: 0 <= k < |block| ==> (block + s)[k] == block[k];
  }

  lemma OneCharOn(block: string, s: string)
    requires s != "" && NoneBegins(block, s) && BlankLine(s) == 0
    ensures NoneBegins(block + [s[0]], s[1..])
  {
    hide IsSpace;
    assert (block + [s[0]]) + s[1..] == block + s;
    forall i: nat, j: nat | i < |block| + 1 ensures !BlankLineAt(block + s, i, j) {
      if i == |block| && BlankLineAt(block + s, i, j) {
        assert forall k :: 0 <= k <= j - i ==> s[k] == (block + s)[i + k];
        MatchesBlankLine(s, j - i);
        assert false;
      }
    }
  }

  lemma {:induction false} SplitsAtBlankLines(s: string, block: string) returns (seps: seq<string>)
    requires NoneBegins(block, s)
    ensures |SplitBlanks(s, block)| == |seps| + 1
    ensures Interleaved(SplitBlanks(s, block), seps) == block + s
    ensures forall sep :: sep in seps ==> Separates(sep)
    ensures forall p :: p in SplitBlanks(s, block) ==> !HasBlankLine(p)
    decreases |s|
  {
    hide IsSpace, BlankLine, HasBlankLine, NoneBegins, Blank;
    NoneInside(block, s);
    if s == "" {
      seps := [];
      assert block + s == block;
    } else if 0 < BlankLine(s) {
      MatchSeparates(s);
      var m := BlankLine(s);
      NothingBegins(s[m..]);
      var more := SplitsAtBlankLines(s[m..], "");
      seps := [s[..m]] + more;
      var parts := [block] + SplitBlanks(s[m..], "");
      assert parts[1..] == SplitBlanks(s[m..], "") && seps[1..] == more;
      assert block + s[..m] + ("" + s[m..]) == block + s;
    } else {
      OneCharOn(block, s);
      seps := SplitsAtBlankLines(s[1..], block + [s[0]]);
      assert (block + [s[0]]) + s[1..] == block + s;
    }
  }

  lemma NothingBegins(s: string)
    ensures NoneBegins("", s)
  {
  }

  /** The paragraphs of a document are what stands between its blank lines: they and the blank lines between them
      spell it out, and none of them holds one. */
  lemma ParagraphsAre(md: string) returns (seps: seq<string>)
    ensures |SplitBlanks(Strip(md), "")| == |seps| + 1
    ensures Interleaved(SplitBlanks(Strip(md), ""), seps) == Strip(md)
    ensures forall sep :: sep in seps ==> Separates(sep)
    ensures forall p :: p in SplitBlanks(Strip(md), "") ==> !HasBlankLine(p)
  {
    hide Strip, HasBlankLine, Separates;
    NothingBegins(Strip(md));
    seps := SplitsAtBlankLines(Strip(md), "");
    assert "" + Strip(md) == Strip(md);
  }

  lemma {:induction false} StrippedHolds(ss: seq<string>, s: string)
    requires s in ss && !Blank(s)
    ensures Strip(s) in Stripped(ss)
  {
    hide IsSpace, Strip, Blank;
    StripIs(ss[0]);
    if ss[0] != s {
      StrippedHolds(ss[1..], s);
    }
  }

  lemma {:induction false} SplitAllHolds(blocks: seq<string>, limit: nat, b: string)
    requires limit >= 1 && b in blocks && |b| <= limit
    ensures b in SplitAll(blocks, limit)
  {
    hide Feed;
    if blocks[0] == b {
      assert b in SplitOversized(b, limit);
    } else {
      SplitAllHolds(blocks[1..], limit, b);
    }
  }

  /** A paragraph that fits beside the overlap is packed as one block. */
  lemma ParagraphIsOneBlock(md: string, target: int, overlap: int, p: string)
    requires p in SplitBlanks(Strip(md), "") && !Blank(p) && |Strip(p)| <= target - overlap - 2
    ensures Strip(p) in Blocks(md, target, overlap)
  {
    hide Strip, Blank, SplitOversized;
    StrippedHolds(SplitBlanks(Strip(md), ""), p);
    StripIs(p);
    SplitAllHolds(Stripped(SplitBlanks(Strip(md), "")), BlockLimit(target, overlap), Strip(p));
  }

  // ---------------------------------------------------------------- what is carried over

  lemma {:induction false} FirstBreak(s: string) returns (k: nat)
    requires '\n' in s
    ensures k < |s| && s[k] == '\n' && '\n' !in s[..k]
  {
    if s[0] == '\n' {
      k := 0;
    } else {
      k := FirstBreak(s[1..]);
      assert s[..k + 1] == [s[0]] + s[1..][..k];
      k := k + 1;
    }
  }

  lemma AfterFirstBreak(s: string) returns (h: string)
    requires '\n' in s
    ensures s == h + "\n" + AfterNewline(s) && '\n' !in h
  {
    hide AfterNewline;
    var k := FirstBreak(s);
    h := s[..k];
    assert forall i :: 0 <= i < k ==> s[i] == h[i];
    ChunkBounds.AfterFirst(s, k);
    assert s == s[..k] + [s[k]] + s[k + 1..];
  }

  /** The tail of a chunk: nothing without an overlap; else its last `overlap` characters, or all of it if it is no
      longer; of these, if they hold a line break, what follows the first. */
  lemma TailIs(buf: string, overlap: int)
    ensures overlap <= 0 ==> Tail(buf, overlap) == ""
    ensures overlap > 0 ==>
              var last := if |buf| <= overlap then buf else buf[|buf| - overlap..];
              if '\n' !in last then Tail(buf, overlap) == last
              else exists h :: last == h + "\n" + Tail(buf, overlap) && '\n' !in h
  {
    hide AfterNewline, Tail;
    TailCases(buf, overlap);
    var last := if overlap <= 0 then "" else if |buf| <= overlap then buf else buf[|buf| - overlap..];
    if '\n' in last {
      var h := AfterFirstBreak(last);
      assert last == h + "\n" + Tail(buf, overlap);
    }
  }

  lemma TailCases(buf: string, overlap: int)
    ensures overlap <= 0 ==> Tail(buf, overlap) == ""
    ensures overlap > 0 ==>
              var last := if |buf| <= overlap then buf else buf[|buf| - overlap..];
              Tail(buf, overlap) == if '\n' in last then AfterNewline(last) else last
  {
    hide AfterNewline;
  }

  // ---------------------------------------------------------------- packing

  function Appended(bs: seq<string>): string {
    if bs == [] then "" else "\n\n" + bs[0] + Appended(bs[1..])
  }

  /** What a chunk says that begins with `text` and takes these blocks. */
  function Filled(text: string, bs: seq<string>): string {
    if bs == [] then text else if text == "" then bs[0] + Appended(bs[1..]) else text + Appended(bs)
  }

  /** How a chunk begins: with the tail of the one before and a block, or with the block alone. */
  function Opening(before: string, b: string, overlap: int): string {
    if Tail(before, overlap) == "" then b else Strip(Tail(before, overlap) + "\n\n" + b)
  }

  function Flat(groups: seq<seq<string>>): seq<string> {
    if groups == [] then [] else groups[0] + Flat(groups[1..])
  }

  /** A chunk that says `text` takes the blocks `took`, and the later chunks take theirs, each the blocks of one group: a
      chunk ends only where the next block would take it past the target; one that took a block to what it had is within
      it; and the last is stripped. */
  ghost predicate Packed(text: string, took: seq<string>, later: seq<seq<string>>, target: int, overlap: int, chunks: seq<string>)
    decreases |later|
  {
    var full := Filled(text, took);
    && (took != [] && (text != "" || |took| > 1) ==> |full| <= target)
    && if later == [] then chunks == [Strip(full)]
       else && later[0] != [] && chunks != [] && chunks[0] == full && |full| + 2 + |later[0][0]| > target
            && Packed(Opening(full, later[0][0], overlap), later[0][1..], later[1..], target, overlap, chunks[1..])
  }

  lemma FilledOneMore(text: string, b: string, rest: seq<string>)
    requires text == "" ==> b != ""
    ensures Filled(text, [b] + rest) == Filled(if text == "" then b else text + "\n\n" + b, rest)
  {
    assert ([b] + rest)[1..] == rest && ([b] + rest)[0] == b;
    if text != "" {
      assert text + ("\n\n" + b + Appended(rest)) == (text + "\n\n" + b) + Appended(rest);
    } else {
      assert Appended([]) == "" && b + "" == b;
    }
  }

  lemma PackedGrown(text: string, b: string, took: seq<string>, later: seq<seq<string>>, target: int, overlap: int,
      chunks: seq<string>)
    requires b != "" && (text != "" ==> |text| + 2 + |b| <= target)
    requires Packed(if text == "" then b else text + "\n\n" + b, took, later, target, overlap, chunks)
    ensures Packed(text, [b] + took, later, target, overlap, chunks)
  {
    hide Opening, Filled, Strip;
    FilledOneMore(text, b, took);
    if took == [] {
      FilledNone(text + "\n\n" + b);
    }
  }

  lemma FilledNone(text: string)
    ensures Filled(text, []) == text
  {
  }

  lemma PackedClosed(text: string, b: string, took: seq<string>, later: seq<seq<string>>, target: int, overlap: int,
      chunks: seq<string>)
    requires |text| + 2 + |b| > target && Packed(Opening(text, b, overlap), took, later, target, overlap, chunks)
    ensures Packed(text, [], [[b] + took] + later, target, overlap, [text] + chunks)
  {
    hide Opening, Filled, Strip;
    FilledNone(text);
    var all, out := [[b] + took] + later, [text] + chunks;
    assert all[1..] == later && all[0][1..] == took && out[1..] == chunks;
  }

  /** One block more in the loop: it opens another chunk, or goes into this one. */
  lemma PackOne(cur: Piece, b: string, rest: seq<string>, target: int, overlap: int)
    requires Sound(cur) && !Blank(b)
    ensures b != ""
    ensures cur != NOTHING && |TextOf(cur)| + 2 + |b| > target ==>
              var next := Begin(TextOf(cur), b, overlap);
              && Sound(next) && next != NOTHING && TextOf(next) == Opening(TextOf(cur), b, overlap)
              && Texts(Pack(cur, [b] + rest, target, overlap)) == [TextOf(cur)] + Texts(Pack(next, rest, target, overlap))
    ensures cur == NOTHING || |TextOf(cur)| + 2 + |b| <= target ==>
              && Sound(Grown(cur, b)) && Grown(cur, b) != NOTHING
              && TextOf(Grown(cur, b)) == (if TextOf(cur) == "" then b else TextOf(cur) + "\n\n" + b)
              && Pack(cur, [b] + rest, target, overlap) == Pack(Grown(cur, b), rest, target, overlap)
    ensures TextOf(cur) == "" <==> cur == NOTHING
  {
    hide IsSpace, Blank, Begin, Grown, Closed, TextOf, Pack, Sound, Opening, Tail, Texts, BeginText;
    NotEmpty(b);
    PackStep(cur, b, rest, target, overlap);
    GrownIs(cur, b);
    BeginIs(TextOf(cur), b, overlap);
    OpeningIs(TextOf(cur), b, overlap);
    NextIsSomething(Begin(TextOf(cur), b, overlap));
    TextsCons(cur, Pack(Begin(TextOf(cur), b, overlap), rest, target, overlap));
    assert cur != NOTHING ==> |TextOf(Grown(cur, b))| == |TextOf(cur)| + 2 + |b|;
  }

  lemma {:induction false} PackIsPacked(cur: Piece, blocks: seq<string>, target: int, overlap: int)
    returns (took: seq<string>, later: seq<seq<string>>)
    requires Sound(cur) && (cur != NOTHING || blocks != []) && forall b :: b in blocks ==> !Blank(b)
    ensures blocks == took + Flat(later) && (cur == NOTHING ==> took != [])
    ensures Packed(TextOf(cur), took, later, target, overlap, Texts(Pack(cur, blocks, target, overlap)))
    decreases |blocks|
  {
    hide IsSpace, Blank, Begin, Grown, Closed, TextOf, Pack, Sound, Opening, Packed, Filled, Tail, Texts, Flat;
    if blocks == [] {
      took, later := [], [];
      LastOnes(cur, target, overlap);
    } else {
      var b, rest := blocks[0], blocks[1..];
      assert blocks == [b] + rest;
      PackOne(cur, b, rest, target, overlap);
      if cur != NOTHING && |TextOf(cur)| + 2 + |b| > target {
        var next := Begin(TextOf(cur), b, overlap);
        took, later := PackIsPacked(next, rest, target, overlap);
        PackedClosed(TextOf(cur), b, took, later, target, overlap, Texts(Pack(next, rest, target, overlap)));
        FlatMore([b] + took, later);
        assert blocks == [] + (([b] + took) + Flat(later));
        took, later := [], [[b] + took] + later;
      } else {
        took, later := PackIsPacked(Grown(cur, b), rest, target, overlap);
        PackedGrown(TextOf(cur), b, took, later, target, overlap, Texts(Pack(cur, blocks, target, overlap)));
        assert blocks == ([b] + took) + Flat(later);
        took := [b] + took;
      }
    }
  }

  lemma LastOnes(cur: Piece, target: int, overlap: int)
    requires Sound(cur) && cur != NOTHING
    ensures Flat([]) == [] && Packed(TextOf(cur), [], [], target, overlap, Texts(Pack(cur, [], target, overlap)))
  {
    hide IsSpace, Blank, Closed, TextOf, Pack, Sound, Packed;
    PackEnd(cur, target, overlap);
    ClosedIs(cur);
    SoundText(cur);
    LastChunk(TextOf(cur), target, overlap);
    assert Texts([Closed(cur)]) == [TextOf(Closed(cur))];
  }

  lemma FlatMore(g: seq<string>, gs: seq<seq<string>>)
    ensures Flat([g] + gs) == g + Flat(gs)
  {
    assert ([g] + gs)[1..] == gs;
  }

  lemma NextIsSomething(p: Piece)
    requires TextOf(p) != ""
    ensures p != NOTHING
  {
  }

  lemma SoundText(cur: Piece)
    requires Sound(cur) && cur != NOTHING
    ensures !Blank(TextOf(cur))
  {
    hide IsSpace;
    var k :| 0 <= k < |cur.added| && !IsSpace(cur.added[k]);
    assert TextOf(cur)[|cur.carried| + k] == cur.added[k];
  }

  lemma TextsCons(p: Piece, ps: seq<Piece>)
    ensures Texts([p] + ps) == [TextOf(p)] + Texts(ps)
  {
    assert ([p] + ps)[1..] == ps;
  }

  lemma OpeningIs(buf: string, b: string, overlap: int)
    ensures Opening(buf, b, overlap) == BeginText(buf, b, overlap)
  {
  }

  lemma LastChunk(text: string, target: int, overlap: int)
    ensures Packed(text, [], [], target, overlap, [Strip(text)])
  {
    hide Strip;
    FilledNone(text);
  }

  /** How a document with anything in it is packed: all its blocks in order, each in one chunk, block after block into
      the same chunk as long as they fit. */
  lemma ChunksArePacked(md: string, target: int, overlap: int) returns (took: seq<string>, later: seq<seq<string>>)
    requires !Blank(md)
    ensures Blocks(md, target, overlap) == took + Flat(later) && took != []
    ensures Packed("", took, later, target, overlap, Chunks(md, target, overlap))
  {
    hide Blocks, Pack, Blank, Packed, Pieces;
    BlocksAre(md, target, overlap);
    SoundNothing();
    InkBlank(md);
    InkNil();
    var blocks := Blocks(md, target, overlap);
    NoBlocksNoInk(blocks, md);
    took, later := PackIsPacked(NOTHING, blocks, target, overlap);
    PiecesArePack(md, target, overlap);
  }

  lemma NoBlocksNoInk(blocks: seq<string>, md: string)
    requires InkAll(blocks) == Ink(md) && Ink(md) != ""
    ensures blocks != []
  {
    InkNil();
  }

  lemma PiecesArePack(md: string, target: int, overlap: int)
    ensures Chunks(md, target, overlap) == Texts(Pack(NOTHING, Blocks(md, target, overlap), target, overlap))
  {
  }
}
