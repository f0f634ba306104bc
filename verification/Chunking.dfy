/** Markdown into chunks: blocks between blank lines, oversized blocks split, blocks packed up to
    a target length with a carried-over tail. */
module Chunking {
  import opened Text

  // ---------------------------------------------------------------- one oversized block

  /** `str.split("\n")`. */
  function Lines(s: string, line: string): seq<string> {
    if s == "" then [line]
    else if s[0] == '\n' then [line] + Lines(s[1..], "")
    else Lines(s[1..], line + [s[0]])
  }

  /** The pieces made of the lines still to come, `buf` being filled. */
  function Feed(buf: string, lines: seq<string>, limit: nat): seq<string>
    requires limit >= 1
    decreases |lines|, if lines == [] then 0 else |lines[0]|, |buf|
  {
    if lines == [] then (if Blank(buf) then [] else [buf])
    else
      var line := lines[0];
      if |line| > limit then
        if buf != "" then [buf] + Feed("", lines, limit)
        else [line[..limit]] + Feed("", [line[limit..]] + lines[1..], limit)
      else if buf != "" && |Joined(buf, line)| > limit then [buf] + Feed(line, lines[1..], limit)
      else Feed(Joined(buf, line), lines[1..], limit)
  }

  function Joined(buf: string, line: string): string {
    if buf == "" then line else buf + "\n" + line
  }

  function NonBlank(ss: seq<string>): (r: seq<string>)
    ensures forall s :: s in r ==> s in ss && !Blank(s)
  {
    if ss == [] then [] else if Blank(ss[0]) then NonBlank(ss[1..]) else [ss[0]] + NonBlank(ss[1..])
  }

  function SplitOversized(block: string, limit: nat): seq<string>
    requires limit >= 1
  {
    if |block| <= limit then [block] else NonBlank(Feed("", Lines(block, ""), limit))
  }

  method SplitOversizedLoop(block: string, limit: nat) returns (pieces: seq<string>)
    requires limit >= 1
    ensures pieces == SplitOversized(block, limit)
  {
    hide Blank, Feed;
    if |block| <= limit {
      return [block];
    }
    pieces := [];
    var buf := "";
    var lines := Lines(block, "");
    ghost var all := Feed("", lines, limit);
    var i := 0;
    while i < |lines|
      invariant 0 <= i <= |lines|
      invariant pieces + Feed(buf, lines[i..], limit) == all
    {
      var line := lines[i];
      ghost var rest := lines[i + 1..];
      assert lines[i..] == [line] + rest;
      while |line| > limit
        invariant pieces + Feed(buf, [line] + rest, limit) == all
        decreases |line|
      {
        CutStep(buf, line, rest, limit);
        if buf != "" {
          pieces := pieces + [buf];
          buf := "";
        }
        pieces := pieces + [line[..limit]];
        line := line[limit..];
      }
      LineStep(buf, line, rest, limit);
      var candidate := if buf != "" then buf + "\n" + line else line;
      if buf != "" && |candidate| > limit {
        pieces := pieces + [buf];
        buf := line;
      } else {
        buf := candidate;
      }
      i := i + 1;
    }
    assert lines[i..] == [];
    EndStep(buf, limit);
    if !Blank(buf) {
      pieces := pieces + [buf];
    }
    assert pieces == all;
    pieces := NonBlank(pieces);
  }

  lemma CutStep(buf: string, line: string, rest: seq<string>, limit: nat)
    requires limit >= 1 && |line| > limit
    ensures Feed(buf, [line] + rest, limit) ==
            (if buf != "" then [buf] else []) + [line[..limit]] + Feed("", [line[limit..]] + rest, limit)
  {
    hide Blank;
    assert ([line] + rest)[0] == line && ([line] + rest)[1..] == rest;
  }

  lemma LineStep(buf: string, line: string, rest: seq<string>, limit: nat)
    requires limit >= 1 && |line| <= limit
    ensures Feed(buf, [line] + rest, limit) ==
            if buf != "" && |Joined(buf, line)| > limit then [buf] + Feed(line, rest, limit)
            else Feed(Joined(buf, line), rest, limit)
  {
    hide Blank;
    assert ([line] + rest)[0] == line && ([line] + rest)[1..] == rest;
  }

  lemma EndStep(buf: string, limit: nat)
    requires limit >= 1
    ensures Feed(buf, [], limit) == if Blank(buf) then [] else [buf]
  {
  }

  lemma LinesKeepInk(s: string, line: string)
    ensures InkAll(Lines(s, line)) == Ink(line) + Ink(s)
  {
    hide IsSpace, Ink, InkAll;
    InkNil();
    if s == "" {
      InkAllOne(line);
    } else {
      InkConcat([s[0]], s[1..]);
      assert [s[0]] + s[1..] == s;
      if s[0] == '\n' {
        LinesKeepInk(s[1..], "");
        InkAllCons(line, Lines(s[1..], ""));
        InkNewline(s[0]);
      } else {
        LinesKeepInk(s[1..], line + [s[0]]);
        InkConcat(line, [s[0]]);
      }
    }
  }

  lemma InkNewline(c: char)
    requires c == '\n'
    ensures IsSpace(c) && Ink([c]) == ""
  {
  }

  lemma JoinedInk(buf: string, line: string)
    ensures Ink(Joined(buf, line)) == Ink(buf) + Ink(line)
  {
    hide IsSpace;
    if buf != "" {
      InkConcat(buf + "\n", line);
      InkConcat(buf, "\n");
      InkNewline('\n');
    }
  }

  /** Every piece is within the limit, and the pieces hold the ink of the lines in order. */
  lemma {:induction false} FeedPieces(buf: string, lines: seq<string>, limit: nat)
    requires limit >= 1 && |buf| <= limit
    ensures forall p :: p in Feed(buf, lines, limit) ==> |p| <= limit
    ensures InkAll(Feed(buf, lines, limit)) == Ink(buf) + InkAll(lines)
    decreases |lines|, if lines == [] then 0 else |lines[0]|, |buf|
  {
    hide IsSpace, Blank, Feed, Ink, InkAll;
    InkNil();
    if lines == [] {
      EndStep(buf, limit);
      InkBlank(buf);
      InkAllOne(buf);
    } else {
      var line, rest := lines[0], lines[1..];
      assert lines == [line] + rest;
      InkAllCons(line, rest);
      if |line| > limit {
        CutStep(buf, line, rest, limit);
        CutStep("", line, rest, limit);
        var out := Feed("", [line[limit..]] + rest, limit);
        FeedPieces("", [line[limit..]] + rest, limit);
        InkAllCons(line[..limit], out);
        InkAllCons(line[limit..], rest);
        InkConcat(line[..limit], line[limit..]);
        assert line == line[..limit] + line[limit..];
        assert [buf] + [line[..limit]] + out == [buf] + ([line[..limit]] + out);
        assert [] + [line[..limit]] + out == [line[..limit]] + out;
        InkAllCons(buf, [line[..limit]] + out);
      } else {
        LineStep(buf, line, rest, limit);
        if buf != "" && |Joined(buf, line)| > limit {
          FeedPieces(line, rest, limit);
          InkAllCons(buf, Feed(line, rest, limit));
        } else {
          FeedPieces(Joined(buf, line), rest, limit);
          JoinedInk(buf, line);
        }
      }
    }
  }

  lemma NonBlankKeepsInk(ss: seq<string>)
    ensures InkAll(NonBlank(ss)) == InkAll(ss)
  {
    hide IsSpace;
    if ss != [] {
      NonBlankKeepsInk(ss[1..]);
      InkBlank(ss[0]);
      InkAllCons(ss[0], NonBlank(ss[1..]));
    }
  }

  /** Splitting a block: pieces of at most `limit` characters, none of them blank, that hold the
      block's ink in order. */
  lemma SplitOversizedIs(block: string, limit: nat)
    requires limit >= 1 && !Blank(block)
    ensures forall p :: p in SplitOversized(block, limit) ==> |p| <= limit && !Blank(p)
    ensures InkAll(SplitOversized(block, limit)) == Ink(block)
  {
    hide IsSpace, Feed, Blank;
    if |block| <= limit {
      InkAllOne(block);
    } else {
      LinesKeepInk(block, "");
      FeedPieces("", Lines(block, ""), limit);
      NonBlankKeepsInk(Feed("", Lines(block, ""), limit));
    }
  }

  // ---------------------------------------------------------------- blocks

  /** The whitespace a text begins with. */
  function Lead(s: string): string {
    if s != "" && IsSpace(s[0]) then [s[0]] + Lead(s[1..]) else ""
  }

  /** How much of `s` the pattern `\n\s*\n` matches at its start, greedily; 0 for no match. */
  function BlankLine(s: string): nat {
    if s != "" && s[0] == '\n' then
      var nl := RFind(Lead(s[1..]), '\n');
      if nl < 0 then 0 else nl + 2
    else 0
  }

  lemma BlankLineIsBlank(s: string)
    ensures BlankLine(s) <= |s| && Blank(s[..BlankLine(s)])
  {
    LeadIs(if s == "" then "" else s[1..]);
    if BlankLine(s) > 0 {
      assert s[..BlankLine(s)] == ['\n'] + s[1..][..BlankLine(s) - 1];
    }
  }

  lemma LeadIs(s: string)
    ensures |Lead(s)| <= |s| && Lead(s) == s[..|Lead(s)|] && Blank(Lead(s))
  {
    if s != "" && IsSpace(s[0]) {
      LeadIs(s[1..]);
      assert s == [s[0]] + s[1..];
    }
  }

  /** Splitting at blank lines, `block` being the text since the last one. */
  function SplitBlanks(s: string, block: string): seq<string>
    decreases |s|
  {
    if s == "" then [block]
    else if 0 < BlankLine(s) <= |s| then [block] + SplitBlanks(s[BlankLine(s)..], "")
    else SplitBlanks(s[1..], block + [s[0]])
  }

  lemma SplitBlanksKeepInk(s: string, block: string)
    ensures InkAll(SplitBlanks(s, block)) == Ink(block) + Ink(s)
    decreases |s|
  {
    hide IsSpace, BlankLine, Ink, InkAll;
    InkNil();
    BlankLineIsBlank(s);
    if s == "" {
      InkAllOne(block);
    } else if 0 < BlankLine(s) {
      var m := BlankLine(s);
      SplitBlanksKeepInk(s[m..], "");
      InkAllCons(block, SplitBlanks(s[m..], ""));
      InkConcat(s[..m], s[m..]);
      InkBlank(s[..m]);
      assert s == s[..m] + s[m..];
    } else {
      SplitBlanksKeepInk(s[1..], block + [s[0]]);
      InkConcat(block, [s[0]]);
      InkConcat([s[0]], s[1..]);
      assert [s[0]] + s[1..] == s;
    }
  }

  function Stripped(ss: seq<string>): (r: seq<string>)
    ensures forall s :: s in r ==> !Blank(s)
  {
    if ss == [] then []
    else
      StripIs(ss[0]);
      StripIs(Strip(ss[0]));
      if Strip(ss[0]) == "" then Stripped(ss[1..]) else [Strip(ss[0])] + Stripped(ss[1..])
  }

  lemma StrippedKeepsInk(ss: seq<string>)
    ensures InkAll(Stripped(ss)) == InkAll(ss)
  {
    hide IsSpace, Strip;
    if ss != [] {
      StrippedKeepsInk(ss[1..]);
      InkStrip(ss[0]);
      InkAllCons(Strip(ss[0]), Stripped(ss[1..]));
    }
  }

  function SplitAll(blocks: seq<string>, limit: nat): seq<string>
    requires limit >= 1
  {
    if blocks == [] then [] else SplitOversized(blocks[0], limit) + SplitAll(blocks[1..], limit)
  }

  lemma SplitAllIs(blocks: seq<string>, limit: nat)
    requires limit >= 1 && forall b :: b in blocks ==> !Blank(b)
    ensures forall p :: p in SplitAll(blocks, limit) ==> |p| <= limit && !Blank(p)
    ensures InkAll(SplitAll(blocks, limit)) == InkAll(blocks)
  {
    if blocks != [] {
      var first, rest := SplitOversized(blocks[0], limit), SplitAll(blocks[1..], limit);
      SplitOversizedIs(blocks[0], limit);
      SplitAllIs(blocks[1..], limit);
      InkAllAppend(first, rest);
    }
  }

  function BlockLimit(target: int, overlap: int): (limit: nat)
    ensures limit >= 1
  {
    if target - overlap - 2 >= 1 then target - overlap - 2 else 1
  }

  function Blocks(md: string, target: int, overlap: int): seq<string> {
    SplitAll(Stripped(SplitBlanks(Strip(md), "")), BlockLimit(target, overlap))
  }

  lemma BlocksAre(md: string, target: int, overlap: int)
    ensures forall b :: b in Blocks(md, target, overlap) ==> |b| <= BlockLimit(target, overlap) && !Blank(b)
    ensures InkAll(Blocks(md, target, overlap)) == Ink(md)
  {
    var parts := SplitBlanks(Strip(md), "");
    InkStrip(md);
    SplitBlanksKeepInk(Strip(md), "");
    StrippedKeepsInk(parts);
    SplitAllIs(Stripped(parts), BlockLimit(target, overlap));
  }
}
