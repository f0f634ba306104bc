/** An extraction run: every target is read, asked about window by window, cached, and counted. */
module ExtractRun {
  import opened Wrappers
  import opened Text
  import opened JsonTree
  import opened ExtractCheck
  import L = Locate
  import Windows

  datatype Row = Row(status: string, version: string, content: string)
  datatype Target = Target(uid: string, version: string, skipped: string)
  datatype Question = Question(fields: seq<Field>, instructions: string, model: string)
  datatype Request = Request(question: Question, useCache: bool, writeCache: bool)
  datatype Key = Key(uid: string, version: string, question: Question)

  /** What answers from outside: the stored text rows, at each reading; whether text can be re-indexed; the
      model's replies, in order; the usage meter and the cancel switch, at each target. */
  datatype World = World(o: Oracle, row: (nat, string) -> Option<Row>, converts: bool, replies: nat -> Reply,
                         window: int, exhausted: nat -> bool, cancelled: nat -> bool)

  /** The text stored for a version of a file is always the same. */
  ghost predicate Steady(w: World, textOf: (string, string) -> string) {
    forall n, uid :: w.row(n, uid).Some? ==> w.row(n, uid).value.content == textOf(uid, w.row(n, uid).value.version)
  }

  datatype Item = Skipped(reason: string) | Failed | Extracted(data: Data, valid: bool, cached: bool)

  datatype Summary = Summary(files: nat, extracted: nat, cached: nat, skipped: nat, failed: nat,
                             found: nat, notFound: nat, dropped: nat, cancelled: bool)

  /** What a text row gives: the text of this version, or why not. */
  function Readable(row: Option<Row>, version: string): Result<string, string> {
    if row.None? || row.value.version != version then Err("text not yet indexed for this version")
    else if row.value.status == "unsupported" || row.value.status == "error" || Blank(row.value.content) then Err("no text")
    else Ok(row.value.content)
  }

  predicate Stale(row: Option<Row>, version: string) {
    row.None? || row.value.status == "pending" || row.value.status == "converting" || row.value.version != version
  }

  /** The text of a target, re-indexed once when it is stale and can be. */
  function TextFor(w: World, t: Target, n: nat): Result<string, string> {
    var first := w.row(n, t.uid);
    Readable(if Stale(first, t.version) && w.converts then w.row(n + 1, t.uid) else first, t.version)
  }

  /** How often that reads the row. */
  function ReadsFor(w: World, t: Target, n: nat): nat {
    if Stale(w.row(n, t.uid), t.version) && w.converts then 2 else 1
  }

  /** Where a run stands: what is cached, how many replies the model has given, how many rows have been read. */
  datatype Moment = Moment(cache: map<Key, Data>, asked: nat, rows: nat)

  /** `_tally`. */
  function Tally(s: Summary, item: Item): Summary {
    match item
    case Failed => s.(failed := s.failed + 1)
    case Skipped(_) => s.(skipped := s.skipped + 1)
    case Extracted(data, _, cached) =>
      var c := Count(data);
      s.(extracted := s.extracted + 1, cached := s.cached + (if cached then 1 else 0),
         found := s.found + c.found, notFound := s.notFound + c.notFound, dropped := s.dropped + c.dropped)
  }

  /** The askings for `k` windows, from the n-th reply on, up to the first failure. */
  ghost function AskAll(w: World, fields: seq<Field>, text: string, n: nat, k: nat): seq<Asked>
    decreases k
  {
    if k == 0 then []
    else
      var r := AskOf(w.o, fields, text, w.replies(n), w.replies(n + 1));
      if r.Failed? then [r] else [r] + AskAll(w, fields, text, n + r.calls, k - 1)
  }

  ghost function Calls(rs: seq<Asked>): nat {
    if rs == [] then 0 else Calls(rs[..|rs| - 1]) + rs[|rs| - 1].calls
  }

  ghost predicate AnyFailed(rs: seq<Asked>) {
    exists i :: 0 <= i < |rs| && rs[i].Failed?
  }

  ghost predicate NoProblems(rs: seq<Asked>) {
    forall i :: 0 <= i < |rs| ==> rs[i].Asked? && rs[i].problems == []
  }

  ghost function DataOf(rs: seq<Asked>): seq<Data> {
    if AnyFailed(rs) then [] else seq(|rs|, i requires 0 <= i < |rs| && rs[i].Asked? => rs[i].data)
  }

  lemma AskedMore(rs: seq<Asked>, r: Asked)
    ensures Calls(rs + [r]) == Calls(rs) + r.calls
    ensures AnyFailed(rs + [r]) <==> AnyFailed(rs) || r.Failed?
    ensures NoProblems(rs + [r]) <==> NoProblems(rs) && r.Asked? && r.problems == []
    ensures !AnyFailed(rs) && r.Asked? ==> DataOf(rs + [r]) == DataOf(rs) + [r.data]
  {
    var more := rs + [r];
    assert more[..|rs|] == rs && more[|rs|] == r;
    assert forall i :: 0 <= i < |rs| ==> more[i] == rs[i];
    if AnyFailed(rs) {
      var i :| 0 <= i < |rs| && rs[i].Failed?;
      assert more[i].Failed?;
    }
    if NoProblems(more) {
      forall i | 0 <= i < |rs| ensures rs[i].Asked? && rs[i].problems == [] {
        assert more[i] == rs[i];
      }
    }
  }

  lemma NoneAsked()
    ensures Calls([]) == 0 && !AnyFailed([]) && NoProblems([]) && DataOf([]) == []
  {
  }

  lemma Reassociate(rs: seq<Asked>, r: Asked, rest: seq<Asked>)
    ensures rs + ([r] + rest) == (rs + [r]) + rest
  {
  }

  lemma AskStep(w: World, fields: seq<Field>, text: string, n: nat, k: nat)
    requires k > 0
    ensures var r := AskOf(w.o, fields, text, w.replies(n), w.replies(n + 1));
            AskAll(w, fields, text, n, k) == [r] + if r.Failed? then [] else AskAll(w, fields, text, n + r.calls, k - 1)
  {
    hide AskOf;
  }

  lemma NothingLeft(w: World, fields: seq<Field>, text: string, n: nat)
    ensures AskAll(w, fields, text, n, 0) == []
  {
  }

  lemma WindowsAre(text: string, size: int)
    ensures forall s :: s in Windows.Spans(text, size) ==> s.from <= s.to <= |text|
    ensures |Windows.Slices(text, Windows.Spans(text, size))| == |Windows.Spans(text, size)|
  {
    hide Windows.Spans;
    Windows.WindowsHoldEverything(text, size);
  }

  lemma {:induction false} AllSound(w: World, fields: seq<Field>, text: string, n: nat, k: nat)
    requires Distinct(fields) && !AnyFailed(AskAll(w, fields, text, n, k))
    ensures forall i :: 0 <= i < |DataOf(AskAll(w, fields, text, n, k))| ==> Sound(w.o, fields, text, DataOf(AskAll(w, fields, text, n, k))[i])
    decreases k
  {
    hide Sound, AskOf;
    if k > 0 {
      var r := AskOf(w.o, fields, text, w.replies(n), w.replies(n + 1));
      AskedIsSound(w.o, fields, text, w.replies(n), w.replies(n + 1));
      var rs := AskAll(w, fields, text, n, k);
      assert rs[0] == r && !r.Failed?;
      var rest := AskAll(w, fields, text, n + r.calls, k - 1);
      assert forall i :: 0 <= i < |rest| ==> rs[i + 1] == rest[i];
      AllSound(w, fields, text, n + r.calls, k - 1);
      forall i | 0 <= i < |rs| ensures Sound(w.o, fields, text, rs[i].data) {
        if i > 0 {
          assert DataOf(rest)[i - 1] == rest[i - 1].data;
        }
      }
    }
  }

  /** An entry that claims a value, of its schema, with a quote that stands in the text. */
  predicate GoodEntry(o: Oracle, f: Field, raw: map<string, Json>, text: string) {
    f.name in raw && raw[f.name].Obj? &&
    var e := raw[f.name].members;
    "found" in e && e["found"] == Bool(true) && "value" in e && e["value"] != Null && o.errors(f.schema, e["value"]) == [] &&
    "evidence" in e && e["evidence"].Obj? && "quote" in e["evidence"].members && e["evidence"].members["quote"].Str? &&
    L.Locate(o.fold, e["evidence"].members["quote"].s, text).Some?
  }

  predicate GoodAnswer(o: Oracle, raw: map<string, Json>, f: Field, text: string, a: Answer) {
    f.name in raw && raw[f.name].Obj? &&
    var e := raw[f.name].members;
    a.Found? && "value" in e && a.value == e["value"] && Quotes(e, a.quote) && SaysUnit(e, a.unit) &&
    L.Locate(o.fold, a.quote, text) == Some(a.offset)
  }

  lemma GoodHasValue(o: Oracle, f: Field, raw: map<string, Json>, text: string)
    requires GoodEntry(o, f, raw, text)
    ensures f.name in raw && raw[f.name].Obj? && "value" in raw[f.name].members
  {
  }

  lemma GoodIsFound(o: Oracle, raw: map<string, Json>, fields: seq<Field>, text: string, i: nat)
    requires Distinct(fields) && i < |fields| && GoodEntry(o, fields[i], raw, text)
    ensures fields[i].name in Answers(o, raw, fields, text)
    ensures GoodAnswer(o, raw, fields[i], text, Answers(o, raw, fields, text)[fields[i].name])
  {
    hide L.Locate, Answers;
    AnswerSays(o, raw, fields, text, i);
    var e := raw[fields[i].name].members;
    assert Quotes(e, e["evidence"].members["quote"].s);
  }

  lemma NoneWrong(o: Oracle, raw: map<string, Json>, fields: seq<Field>, text: string)
    requires Distinct(fields) && raw.Keys == Names(fields) && forall i :: 0 <= i < |fields| ==> GoodEntry(o, fields[i], raw, text)
    ensures Problems(o, raw, fields, text) == []
  {
    hide L.Locate, Problems;
    var ps := Problems(o, raw, fields, text);
    forall p: Problem ensures p !in ps {
      ProblemsAre(o, raw, fields, text, p);
    }
    SomeElement(ps);
  }

  lemma SomeElement(ps: seq<Problem>)
    ensures ps == [] || exists p :: p in ps
  {
    assert ps == [] || ps[0] in ps;
  }

  lemma GoodAsking(o: Oracle, fields: seq<Field>, text: string, first: Reply, second: Reply, raw: map<string, Json>)
    requires Problems(o, raw, fields, text) == []
    requires first == Object(raw) || (first.Unusable? && second == Object(raw))
    ensures AskOf(o, fields, text, first, second) == Asked(Answers(o, raw, fields, text), [], if first.Object? then 1 else 2)
  {
    hide Problems, Answers;
  }

  lemma OneWindow(data: Data, n: string, a: Answer)
    requires n in data && data[n].Found? && MergedFrom([data], n, a)
    ensures a == data[n]
  {
    assert FoundIn([data], 0, n);
  }

  class Extractor {
    const w: World
    ghost const textOf: (string, string) -> string
    var cache: map<Key, Data>
    var asked: nat
    var rowReads: nat

    constructor (w: World, ghost textOf: (string, string) -> string)
      requires Steady(w, textOf)
      ensures Valid() && cache == map[] && this.w == w && this.textOf == textOf
    {
      this.w, this.textOf, cache, asked, rowReads := w, textOf, map[], 0, 0;
    }

    /** Whatever is cached was proven against the text it was extracted from. */
    ghost predicate Valid()
      reads this
    {
      Steady(w, textOf) && forall k :: k in cache ==> Sound(w.o, k.question.fields, textOf(k.uid, k.version), cache[k])
    }

    method ReadText(t: Target) returns (r: Result<string, string>)
      requires Valid()
      modifies this`rowReads
      ensures Valid() && (r.Ok? ==> r.value == textOf(t.uid, t.version) && !Blank(r.value))
      ensures r == TextFor(w, t, old(rowReads)) && rowReads == old(rowReads) + ReadsFor(w, t, old(rowReads))
      ensures var first := w.row(old(rowReads), t.uid);
              var again := w.converts && (first.None? || first.value.status in ["pending", "converting"] || first.value.version != t.version);
              var row := if again then w.row(old(rowReads) + 1, t.uid) else first;
              && rowReads == old(rowReads) + (if again then 2 else 1)
              && (row.None? || row.value.version != t.version ==> r == Err("text not yet indexed for this version"))
              && (row.Some? && row.value.version == t.version ==>
                    r == if row.value.status in ["unsupported", "error"] || Blank(row.value.content) then Err("no text")
                         else Ok(row.value.content))
    {
      var row := w.row(rowReads, t.uid);
      rowReads := rowReads + 1;
      if Stale(row, t.version) && w.converts {
        row := w.row(rowReads, t.uid);
        rowReads := rowReads + 1;
      }
      return Readable(row, t.version);
    }

    /** Ask about each window of a text and merge the answers. */
    method ExtractText(fields: seq<Field>, text: string) returns (item: Item)
      requires Valid() && Distinct(fields)
      modifies this`asked
      ensures Valid() && !item.Skipped?
      ensures var rs := AskAll(w, fields, text, old(asked), |Windows.Spans(text, w.window)|);
              && asked == old(asked) + Calls(rs)
              && (item.Failed? <==> AnyFailed(rs))
              && (item.Extracted? ==> !item.cached && item.valid == NoProblems(rs) && item.data.Keys == Names(fields) &&
                                      forall n :: n in item.data ==> MergedFrom(DataOf(rs), n, item.data[n]))
    {
      hide Sound, MergedFrom, Names, Windows.Spans, Windows.Slices, AskOf, AskAll, Calls, DataOf, NoProblems, AnyFailed;
      NoneAsked();
      var chunks := Windows.Windows(text, w.window);
      WindowsAre(text, w.window);
      var parts: seq<Data>, left: seq<Problem> := [], [];
      ghost var rs: seq<Asked> := [];
      var n := 0;
      ghost var all := AskAll(w, fields, text, asked, |chunks|);
      assert [] + all == all;
      while n < |chunks|
        invariant Valid() && n <= |chunks| && asked == old(asked) + Calls(rs)
        invariant rs + AskAll(w, fields, text, asked, |chunks| - n) == all
        invariant !AnyFailed(rs) && parts == DataOf(rs) && (left == [] <==> NoProblems(rs))
      {
        AskStep(w, fields, text, asked, |chunks| - n);
        var r := Ask(w.o, fields, text, w.replies, asked);
        AskedMore(rs, r);
        Reassociate(rs, r, if r.Failed? then [] else AskAll(w, fields, text, asked + r.calls, |chunks| - n - 1));
        asked := asked + r.calls;
        rs := rs + [r];
        if r.Failed? {
          assert rs + [] == rs;
          return Item.Failed;
        }
        parts := parts + [r.data];
        left := left + r.problems;
        n := n + 1;
      }
      NothingLeft(w, fields, text, asked);
      assert rs + [] == rs;
      var data := Merge(parts, fields);
      return Extracted(data, left == [], false);
    }

    ghost function Now(): Moment
      reads this
    {
      Moment(cache, asked, rowReads)
    }

    /** What a target comes to, from one moment to the next: skipped, for the reason given; or what was cached; or, asked
        window by window, failed when an asking did, and else what the askings say of each field, valid when none left a
        problem, and then cached. */
    ghost predicate Handled(req: Request, t: Target, m: Moment, item: Item, m': Moment) {
      if t.skipped != "" then item == Skipped(t.skipped) && m' == m
      else
        var text, key := TextFor(w, t, m.rows), Key(t.uid, t.version, req.question);
        && m'.rows == m.rows + ReadsFor(w, t, m.rows)
        && if text.Err? then item == Skipped(text.error) && m'.asked == m.asked && m'.cache == m.cache
           else if req.useCache && req.writeCache && key in m.cache then
             item == Extracted(m.cache[key], true, true) && m'.asked == m.asked && m'.cache == m.cache
           else Answered(req, text.value, m.asked, item) && m'.asked == m.asked + Calls(Askings(req, text.value, m.asked))
                && m'.cache == if item.Extracted? && item.valid && req.writeCache then m.cache[key := item.data] else m.cache
    }

    /** The askings about each window of a text, up to the first that fails. */
    ghost function Askings(req: Request, text: string, n: nat): seq<Asked> {
      AskAll(w, req.question.fields, text, n, |Windows.Spans(text, w.window)|)
    }

    ghost predicate Answered(req: Request, text: string, n: nat, item: Item) {
      var rs := Askings(req, text, n);
      if AnyFailed(rs) then item == Item.Failed
      else item.Extracted? && !item.cached && item.valid == NoProblems(rs) && item.data.Keys == Names(req.question.fields) &&
           forall f :: f in item.data ==> MergedFrom(DataOf(rs), f, item.data[f])
    }

    lemma AnsweredIsSound(req: Request, text: string, n: nat, item: Item)
      requires Distinct(req.question.fields) && Answered(req, text, n, item) && item.Extracted?
      ensures Sound(w.o, req.question.fields, text, item.data)
    {
      hide Sound, AskAll, AnyFailed, MergedFrom;
      AllSound(w, req.question.fields, text, n, |Windows.Spans(text, w.window)|);
      MergedIsSound(w.o, req.question.fields, text, DataOf(Askings(req, text, n)), item.data);
    }

    /** A model that answers well, at once or when asked again after a reply nobody could read, is heard: with a text
        read in one piece and nothing cached, the item says of every field exactly what the reply says of it. */
    lemma GoodReplyIsReported(req: Request, t: Target, m: Moment, item: Item, m': Moment, raw: map<string, Json>)
      requires Distinct(req.question.fields) && Handled(req, t, m, item, m') && t.skipped == ""
      requires TextFor(w, t, m.rows).Ok? && (w.window <= 0 || |TextFor(w, t, m.rows).value| <= w.window)
      requires !(req.useCache && req.writeCache && Key(t.uid, t.version, req.question) in m.cache)
      requires w.replies(m.asked) == Object(raw) || (w.replies(m.asked).Unusable? && w.replies(m.asked + 1) == Object(raw))
      requires raw.Keys == Names(req.question.fields)
      requires forall i :: 0 <= i < |req.question.fields| ==> GoodEntry(w.o, req.question.fields[i], raw, TextFor(w, t, m.rows).value)
      ensures item.Extracted? && item.valid && !item.cached && item.data.Keys == Names(req.question.fields)
      ensures m'.asked == m.asked + if w.replies(m.asked).Object? then 1 else 2
      ensures forall i :: 0 <= i < |req.question.fields| ==>
                var n := req.question.fields[i].name;
                n in item.data && n in raw && raw[n].Obj? &&
                var e, a := raw[n].members, item.data[n];
                a.Found? && "value" in e && a.value == e["value"] && Quotes(e, a.quote) && SaysUnit(e, a.unit) &&
                L.Locate(w.o.fold, a.quote, TextFor(w, t, m.rows).value) == Some(a.offset)
    {
      var fields, text := req.question.fields, TextFor(w, t, m.rows).value;
      var first, second := w.replies(m.asked), w.replies(m.asked + 1);
      NoneWrong(w.o, raw, fields, text);
      hide AskOf, Answers, Problems, MergedFrom, Names, GoodEntry, Sound, L.Locate;
      assert |Windows.Spans(text, w.window)| == 1;
      var r := AskOf(w.o, fields, text, first, second);
      GoodAsking(w.o, fields, text, first, second, raw);
      AskStep(w, fields, text, m.asked, 1);
      NothingLeft(w, fields, text, m.asked + r.calls);
      assert Askings(req, text, m.asked) == [r];
      NoneAsked();
      AskedMore([], r);
      assert [] + [r] == [r] && [] + [r.data] == [r.data];
      forall i | 0 <= i < |fields|
        ensures var n := fields[i].name;
                n in item.data && item.data[n] == Answers(w.o, raw, fields, text)[n] && GoodAnswer(w.o, raw, fields[i], text, item.data[n])
      {
        GoodIsFound(w.o, raw, fields, text, i);
        OneWindow(r.data, fields[i].name, item.data[fields[i].name]);
      }
      forall i | 0 <= i < |fields| ensures fields[i].name in raw && raw[fields[i].name].Obj? && "value" in raw[fields[i].name].members {
        GoodHasValue(w.o, fields[i], raw, text);
      }
    }

    /** `extract_one`. */
    method ExtractOne(req: Request, t: Target) returns (item: Item)
      requires Valid() && Distinct(req.question.fields)
      modifies this`cache, this`asked, this`rowReads
      ensures Valid() && Handled(req, t, old(Now()), item, Now())
      ensures item.Extracted? ==> Sound(w.o, req.question.fields, textOf(t.uid, t.version), item.data)
    {
      hide Sound, AskAll, AnyFailed, NoProblems, DataOf, Calls, MergedFrom, Names, Windows.Spans;
      if t.skipped != "" {
        return Skipped(t.skipped);
      }
      var text := ReadText(t);
      if text.Err? {
        return Skipped(text.error);
      }
      var key := Key(t.uid, t.version, req.question);
      if req.useCache && req.writeCache && key in cache {
        return Extracted(cache[key], true, true);
      }
      ghost var n := asked;
      item := ExtractText(req.question.fields, text.value);
      if item.Extracted? {
        AnsweredIsSound(req, text.value, n, item);
      }
      if item.Extracted? && item.valid && req.writeCache {
        cache := cache[key := item.data];
      }
    }

    /** `run`: one item for each target, in order, until cancelled, each what its target comes to. What the summary says
        adds up, and every value reported, fresh or cached, is proven against the text of its file's version. */
    method Run(req: Request, targets: seq<Target>) returns (s: Summary, items: seq<Item>, ghost trace: seq<Moment>)
      requires Valid() && Distinct(req.question.fields)
      modifies this`cache, this`asked, this`rowReads
      ensures Valid()
      ensures |items| <= |targets| && s == Summed(|targets|, items, |items| < |targets|)
      ensures (forall i :: 0 <= i < |items| ==> !w.cancelled(i)) && (s.cancelled ==> w.cancelled(|items|))
      ensures |trace| == |items| + 1 && trace[0] == old(Now()) && trace[|items|] == Now()
      ensures forall i :: 0 <= i < |items| ==> ItemFor(req, targets, i, trace[i], items[i], trace[i + 1])
      ensures s.extracted + s.skipped + s.failed == |items|
      ensures s.found + s.notFound + s.dropped == |req.question.fields| * s.extracted
    {
      hide Sound, Count, ItemFor, HowMany, SumOf, Handled, Spent;
      s, items := Summary(|targets|, 0, 0, 0, 0, 0, 0, 0, false), [];
      trace := [Now()];
      NothingSummed(|targets|);
      NothingSpent(targets);
      var out := false;
      var i := 0;
      while i < |targets|
        invariant Valid() && |items| == i <= |targets| && s == Summed(|targets|, items, false)
        invariant forall j :: 0 <= j < i ==> !w.cancelled(j)
        invariant out == Spent(targets, i)
        invariant |trace| == i + 1 && trace[0] == old(Now()) && trace[i] == Now()
        invariant forall j :: 0 <= j < i ==> ItemFor(req, targets, j, trace[j], items[j], trace[j + 1])
      {
        if w.cancelled(i) {
          Cancelled(|targets|, items);
          s := s.(cancelled := true);
          break;
        }
        var t, item := targets[i], Item.Failed;
        SpentMore(targets, i);
        if t.skipped == "" && (out || w.exhausted(i)) {
          out, item := true, Skipped("budget");
        } else {
          item := ExtractOne(req, t);
        }
        ItemIs(req, targets, i, trace[i], item, Now());
        SummedMore(|targets|, items, item);
        s := Tally(s, item);
        items, trace := items + [item], trace + [Now()];
        i := i + 1;
      }
      forall j | 0 <= j < |items| && items[j].Extracted? ensures items[j].data.Keys == Names(req.question.fields) {
        ItemKeys(req, targets, j, trace[j], items[j], trace[j + 1]);
      }
      SummaryAddsUp(|targets|, items, |items| < |targets|, req.question.fields);
    }

    /** The token budget ran out at one of the first `i` targets that were to be read. */
    predicate Spent(targets: seq<Target>, i: nat) {
      exists j :: 0 <= j < i && j < |targets| && targets[j].skipped == "" && w.exhausted(j)
    }

    lemma SpentMore(targets: seq<Target>, i: nat)
      requires i < |targets|
      ensures Spent(targets, i + 1) <==> Spent(targets, i) || (targets[i].skipped == "" && w.exhausted(i))
    {
    }

    lemma NothingSpent(targets: seq<Target>)
      ensures !Spent(targets, 0)
    {
    }

    /** The budget's word comes before the target's: once it is out, whatever was to be read is skipped for it. */
    ghost predicate ItemFor(req: Request, targets: seq<Target>, i: nat, m: Moment, item: Item, m': Moment)
      requires i < |targets|
    {
      var t := targets[i];
      && (item.Extracted? ==> Sound(w.o, req.question.fields, textOf(t.uid, t.version), item.data))
      && if t.skipped == "" && Spent(targets, i + 1) then item == Skipped("budget") && m' == m
         else Handled(req, t, m, item, m')
    }

    lemma ItemIs(req: Request, targets: seq<Target>, i: nat, m: Moment, item: Item, m': Moment)
      requires i < |targets|
      requires item.Extracted? ==> Sound(w.o, req.question.fields, textOf(targets[i].uid, targets[i].version), item.data)
      requires if targets[i].skipped == "" && Spent(targets, i + 1) then item == Skipped("budget") && m' == m
               else Handled(req, targets[i], m, item, m')
      ensures ItemFor(req, targets, i, m, item, m')
    {
      hide Sound, Spent, Handled;
    }

    lemma ItemKeys(req: Request, targets: seq<Target>, i: nat, m: Moment, item: Item, m': Moment)
      requires i < |targets| && ItemFor(req, targets, i, m, item, m') && item.Extracted?
      ensures item.data.Keys == Names(req.question.fields)
    {
      SoundKeys(w.o, req.question.fields, textOf(targets[i].uid, targets[i].version), item.data);
    }
  }

  // ---------------------------------------------------------------- what a summary says

  ghost function HowMany(items: seq<Item>, p: Item -> bool): nat {
    |set i | 0 <= i < |items| && p(items[i])|
  }

  ghost function SumOf(items: seq<Item>, f: Counts -> nat): nat {
    if items == [] then 0
    else
      var last := items[|items| - 1];
      SumOf(items[..|items| - 1], f) + if last.Extracted? then f(Count(last.data)) else 0
  }

  /** The summary of these items. */
  ghost function Summed(files: nat, items: seq<Item>, cancelled: bool): Summary {
    Summary(files, HowMany(items, (x: Item) => x.Extracted?), HowMany(items, (x: Item) => x.Extracted? && x.cached),
            HowMany(items, (x: Item) => x.Skipped?), HowMany(items, (x: Item) => x.Failed?),
            SumOf(items, (c: Counts) => c.found), SumOf(items, (c: Counts) => c.notFound),
            SumOf(items, (c: Counts) => c.dropped), cancelled)
  }

  lemma NoItems(p: Item -> bool)
    ensures HowMany([], p) == 0
  {
    var items: seq<Item> := [];
    assert (set i | 0 <= i < |items| && p(items[i])) == {};
  }

  lemma NothingSummed(files: nat)
    ensures Summed(files, [], false) == Summary(files, 0, 0, 0, 0, 0, 0, 0, false)
  {
    hide HowMany;
    NoItems((x: Item) => x.Extracted?);
    NoItems((x: Item) => x.Extracted? && x.cached);
    NoItems((x: Item) => x.Skipped?);
    NoItems((x: Item) => x.Failed?);
  }

  lemma Cancelled(files: nat, items: seq<Item>)
    ensures Summed(files, items, true) == Summed(files, items, false).(cancelled := true)
  {
  }

  lemma OneMoreItem(items: seq<Item>, item: Item, p: Item -> bool)
    ensures HowMany(items + [item], p) == HowMany(items, p) + if p(item) then 1 else 0
  {
    var more := items + [item];
    var a, b := set i | 0 <= i < |items| && p(items[i]), set i | 0 <= i < |more| && p(more[i]);
    assert b == if p(item) then a + {|items|} else a;
  }

  lemma SumMore(items: seq<Item>, item: Item, f: Counts -> nat)
    ensures SumOf(items + [item], f) == SumOf(items, f) + if item.Extracted? then f(Count(item.data)) else 0
  {
    assert (items + [item])[..|items|] == items;
  }

  lemma SummedMore(files: nat, items: seq<Item>, item: Item)
    ensures Summed(files, items + [item], false) == Tally(Summed(files, items, false), item)
  {
    hide HowMany, SumOf, Count;
    OneMoreItem(items, item, (x: Item) => x.Extracted?);
    OneMoreItem(items, item, (x: Item) => x.Extracted? && x.cached);
    OneMoreItem(items, item, (x: Item) => x.Skipped?);
    OneMoreItem(items, item, (x: Item) => x.Failed?);
    SumMore(items, item, (c: Counts) => c.found);
    SumMore(items, item, (c: Counts) => c.notFound);
    SumMore(items, item, (c: Counts) => c.dropped);
  }

  /** Files are extracted, skipped or failed; each field of each extracted file is found, not found or dropped. */
  lemma {:induction false} SummaryAddsUp(files: nat, items: seq<Item>, cancelled: bool, fields: seq<Field>)
    requires Distinct(fields) && forall i :: 0 <= i < |items| && items[i].Extracted? ==> items[i].data.Keys == Names(fields)
    ensures var s := Summed(files, items, cancelled);
            s.extracted + s.skipped + s.failed == |items| && s.found + s.notFound + s.dropped == |fields| * s.extracted
    decreases |items|
  {
    hide Count, Names;
    if items == [] {
      NothingSummed(files);
    } else {
      var k := |items| - 1;
      SummaryAddsUp(files, items[..k], false, fields);
      SummedMore(files, items[..k], items[k]);
      assert items == items[..k] + [items[k]];
      if items[k].Extracted? {
        CountsAddUp(fields, items[k].data);
        OneMore(|fields|, Summed(files, items[..k], false).extracted);
      }
    }
  }

  lemma OneMore(n: nat, k: nat)
    ensures n * (k + 1) == n * k + n
  {
  }

  lemma SoundKeys(o: Oracle, fields: seq<Field>, text: string, data: Data)
    requires Sound(o, fields, text, data)
    ensures data.Keys == Names(fields)
  {
  }

  /** A value that is reported was never made up: it meets its schema, and the words of its quote stand in
      the document, in order, from its offset on, and nowhere earlier. */
  lemma NothingInvented(o: Oracle, fields: seq<Field>, text: string, data: Data, i: nat)
    requires Sound(o, fields, text, data) && L.KeepsSeparators(o.fold) && i < |fields|
    requires fields[i].name in data && data[fields[i].name].Found?
    ensures var a := data[fields[i].name];
            && o.errors(fields[i].schema, a.value) == [] && a.value != Null
            && a.offset <= |text| && L.HeldAt(o.fold, a.quote, text, a.offset)
            && forall k: nat :: k < a.offset ==> !L.HeldAt(o.fold, a.quote, text, k)
  {
    hide L.HeldAt, L.Locate;
    var a := data[fields[i].name];
    assert Proven(o, fields[i], text, a);
    L.LocateIff(o.fold, a.quote, text);
  }
}
