/** Checking a model's reply against the document, field by field; asking once more when it cannot be
    used; and combining the answers of a document's windows. */
module ExtractCheck {
  import opened Wrappers
  import opened Text
  import opened JsonTree
  import L = Locate

  datatype Field = Field(name: string, schema: Json)

  /** What is decided elsewhere: the messages of a JSON Schema validator for a schema and a value, the text
      of a value that is no string, and the comparison of characters without regard to case. */
  datatype Oracle = Oracle(errors: (Json, Json) -> seq<string>, show: Json -> string, fold: L.Fold)

  datatype Answer = NotFound | Dropped | Found(value: Json, unit: Option<string>, quote: string, offset: nat)

  type Data = map<string, Answer>

  datatype Problem =
    | Missing(name: string)
    | NotObject(name: string)
    | Invalid(name: string, message: string)
    | Unexpected(names: set<string>)
    | Unreadable(message: string)

  /** A reply: the object in it, or why there is none, or a provider that failed. */
  datatype Reply = Object(raw: map<string, Json>) | Unusable(message: string) | Raises

  function Quote(o: Oracle, entry: map<string, Json>): string {
    var ev := Get(entry, "evidence");
    var q := if ev.Obj? then Get(ev.members, "quote") else Null;
    if !Truthy(q) then "" else if q.Str? then q.s else o.show(q)
  }

  function Unit(entry: map<string, Json>): Option<string> {
    var u := Get(entry, "unit");
    if u.Str? && !Blank(u.s) then Some(u.s) else None
  }

  /** One field of a reply: what is kept of it, and what is wrong with it. */
  function Judge(o: Oracle, raw: map<string, Json>, f: Field, text: string): (Answer, Option<Problem>) {
    var entry := Get(raw, f.name);
    if entry.Null? then (NotFound, Some(Missing(f.name)))
    else if !entry.Obj? then (NotFound, Some(NotObject(f.name)))
    else
      var value := Get(entry.members, "value");
      if !Truthy(Get(entry.members, "found")) || value.Null? then (NotFound, None)
      else
        var errors := o.errors(f.schema, value);
        if errors != [] then (NotFound, Some(Invalid(f.name, errors[0])))
        else
          var quote := Quote(o, entry.members);
          var at := L.Locate(o.fold, quote, text);
          if at.None? then (Dropped, None) else (Found(value, Unit(entry.members), quote, at.value), None)
  }

  function Names(fields: seq<Field>): set<string> {
    set i | 0 <= i < |fields| :: fields[i].name
  }

  predicate Distinct(fields: seq<Field>) {
    forall i, j :: 0 <= i < j < |fields| ==> fields[i].name != fields[j].name
  }

  function FieldProblems(o: Oracle, raw: map<string, Json>, fields: seq<Field>, text: string): seq<Problem> {
    if fields == [] then []
    else
      var rest := FieldProblems(o, raw, fields[..|fields| - 1], text);
      var p := Judge(o, raw, fields[|fields| - 1], text).1;
      if p.Some? then rest + [p.value] else rest
  }

  /** All that is wrong with a reply. */
  function Problems(o: Oracle, raw: map<string, Json>, fields: seq<Field>, text: string): seq<Problem> {
    var unknown := set k | k in raw && k !in Names(fields);
    FieldProblems(o, raw, fields, text) + if unknown == {} then [] else [Unexpected(unknown)]
  }

  ghost function FieldNamed(fields: seq<Field>, n: string): (f: Field)
    requires n in Names(fields)
    ensures f in fields && f.name == n
  {
    var i :| 0 <= i < |fields| && fields[i].name == n;
    fields[i]
  }

  /** What is kept of a reply: of each field, what its entry deserves. */
  ghost function Answers(o: Oracle, raw: map<string, Json>, fields: seq<Field>, text: string): Data {
    map n | n in Names(fields) :: Judge(o, raw, FieldNamed(fields, n), text).0
  }

  lemma AnswerOf(o: Oracle, raw: map<string, Json>, fields: seq<Field>, text: string, i: nat)
    requires Distinct(fields) && i < |fields|
    ensures fields[i].name in Answers(o, raw, fields, text) && Answers(o, raw, fields, text)[fields[i].name] == Judge(o, raw, fields[i], text).0
  {
    hide Judge;
    assert fields[i].name in Names(fields);
    var f := FieldNamed(fields, fields[i].name);
    var j :| 0 <= j < |fields| && fields[j] == f;
    assert i == j;
  }

  lemma AnswersAre(o: Oracle, raw: map<string, Json>, fields: seq<Field>, text: string, data: Data)
    requires Distinct(fields) && data.Keys == Names(fields)
    requires forall i :: 0 <= i < |fields| ==> data[fields[i].name] == Judge(o, raw, fields[i], text).0
    ensures data == Answers(o, raw, fields, text)
  {
    hide Judge;
    forall n | n in data ensures data[n] == Answers(o, raw, fields, text)[n] {
      var i :| 0 <= i < |fields| && fields[i].name == n;
      AnswerOf(o, raw, fields, text, i);
    }
  }

  lemma NamesMore(fields: seq<Field>, i: nat)
    requires i < |fields|
    ensures Names(fields[..i + 1]) == Names(fields[..i]) + {fields[i].name}
    ensures fields[..i + 1][..i] == fields[..i]
  {
    assert fields[..i + 1] == fields[..i] + [fields[i]];
    forall n | n in Names(fields[..i + 1]) ensures n in Names(fields[..i]) + {fields[i].name} {
      var j :| 0 <= j < i + 1 && fields[..i + 1][j].name == n;
      assert j < i ==> fields[..i][j].name == n;
    }
    forall n | n in Names(fields[..i]) + {fields[i].name} ensures n in Names(fields[..i + 1]) {
      if n in Names(fields[..i]) {
        var j :| 0 <= j < i && fields[..i][j].name == n;
        assert fields[..i + 1][j].name == n;
      } else {
        assert fields[..i + 1][i].name == n;
      }
    }
  }

  /** `check`. */
  method Check(o: Oracle, raw: map<string, Json>, fields: seq<Field>, text: string)
    returns (data: Data, dropped: seq<string>, problems: seq<Problem>)
    requires Distinct(fields)
    ensures data == Answers(o, raw, fields, text) && problems == Problems(o, raw, fields, text)
    ensures forall n :: n in dropped <==> n in data && data[n] == Dropped
  {
    hide Judge, Names;
    data, dropped, problems := map[], [], [];
    var i := 0;
    NoNames(fields);
    while i < |fields|
      invariant i <= |fields| && data.Keys == Names(fields[..i])
      invariant forall j :: 0 <= j < i ==> fields[j].name in data && data[fields[j].name] == Judge(o, raw, fields[j], text).0
      invariant problems == FieldProblems(o, raw, fields[..i], text)
      invariant forall n :: n in dropped <==> n in data && data[n] == Dropped
    {
      var f := fields[i];
      var (answer, problem) := Judge(o, raw, f, text);
      NamesMore(fields, i);
      NewName(fields, i);
      data := data[f.name := answer];
      if answer.Dropped? {
        dropped := dropped + [f.name];
      }
      if problem.Some? {
        problems := problems + [problem.value];
      }
      i := i + 1;
    }
    assert fields[..i] == fields;
    AnswersAre(o, raw, fields, text, data);
    var unknown := set k | k in raw && k !in data;
    assert unknown == set k | k in raw && k !in Names(fields);
    if unknown != {} {
      problems := problems + [Unexpected(unknown)];
    }
  }

  lemma NoNames(fields: seq<Field>)
    ensures Names(fields[..0]) == {}
  {
  }

  lemma NewName(fields: seq<Field>, i: nat)
    requires Distinct(fields) && i < |fields|
    ensures fields[i].name !in Names(fields[..i])
  {
  }

  // ---------------------------------------------------------------- what a reply is worth, entry by entry

  /** The entry says that the field was found, and gives a value. */
  predicate Claims(e: map<string, Json>) {
    "found" in e && Truthy(e["found"]) && "value" in e && e["value"] != Null
  }

  /** The entry backs it up with this quote. */
  predicate Quotes(e: map<string, Json>, q: string) {
    "evidence" in e && e["evidence"].Obj? && "quote" in e["evidence"].members && e["evidence"].members["quote"] == Str(q)
  }

  /** A unit is kept when it is text with something in it. */
  predicate SaysUnit(e: map<string, Json>, unit: Option<string>) {
    if "unit" in e && e["unit"].Str? && !Blank(e["unit"].s) then unit == Some(e["unit"].s) else unit == None
  }

  /** What is kept of each field of a reply: a claimed value that meets the schema with a quote that is in the document,
      just as it is said; dropped without such a quote; and nothing otherwise. */
  lemma AnswerSays(o: Oracle, raw: map<string, Json>, fields: seq<Field>, text: string, i: nat)
    requires Distinct(fields) && i < |fields|
    ensures fields[i].name in Answers(o, raw, fields, text)
    ensures var n := fields[i].name;
            var a := Answers(o, raw, fields, text)[n];
            && (n !in raw || !raw[n].Obj? ==> a == NotFound)
            && (n in raw && raw[n].Obj? ==>
                  var e := raw[n].members;
                  && (!Claims(e) || o.errors(fields[i].schema, e["value"]) != [] ==> a == NotFound)
                  && (Claims(e) && o.errors(fields[i].schema, e["value"]) == [] ==>
                        && (forall q :: Quotes(e, q) ==>
                              var at := L.Locate(o.fold, q, text);
                              if at.None? then a == Dropped
                              else a.Found? && a.value == e["value"] && a.quote == q && a.offset == at.value && SaysUnit(e, a.unit))
                        && ("evidence" !in e || !e["evidence"].Obj? || "quote" !in e["evidence"].members ==> a == Dropped)))
  {
    hide L.Locate, L.Words, L.Search;
    AnswerOf(o, raw, fields, text, i);
    NoQuote(o.fold, text);
    var n := fields[i].name;
    if n in raw && raw[n].Obj? {
      var e := raw[n].members;
      forall q | Quotes(e, q) ensures Quote(o, e) == q {}
    }
  }

  lemma NoQuote(fold: L.Fold, text: string)
    ensures L.Locate(fold, "", text) == None
  {
    L.NoWords("");
  }

  /** What is wrong with a reply: fields that are left out, entries that are no objects, values that break their schema,
      each with the validator's first message, and names nobody asked for. */
  lemma {:induction false} ProblemsAre(o: Oracle, raw: map<string, Json>, fields: seq<Field>, text: string, p: Problem)
    ensures p in Problems(o, raw, fields, text) <==>
      match p
      case Missing(n) => exists i :: 0 <= i < |fields| && fields[i].name == n && (n !in raw || raw[n] == Null)
      case NotObject(n) => exists i :: 0 <= i < |fields| && fields[i].name == n && n in raw && raw[n] != Null && !raw[n].Obj?
      case Invalid(n, message) =>
        exists i :: 0 <= i < |fields| && fields[i].name == n && n in raw && raw[n].Obj? && Claims(raw[n].members) &&
                    var errors := o.errors(fields[i].schema, raw[n].members["value"]); errors != [] && message == errors[0]
      case Unexpected(names) => names != {} && forall k :: k in names <==> k in raw && k !in Names(fields)
      case Unreadable(_) => false
  {
    hide Judge, Names;
    FieldProblemsAre(o, raw, fields, text, p);
    var unknown := set k | k in raw && k !in Names(fields);
    assert p in Problems(o, raw, fields, text) <==> p in FieldProblems(o, raw, fields, text) || (unknown != {} && p == Unexpected(unknown));
    if p.Unexpected? && (forall k :: k in p.names <==> k in raw && k !in Names(fields)) {
      assert p.names == unknown;
    }
    if !p.Unexpected? {
      forall i | 0 <= i < |fields| ensures Judge(o, raw, fields[i], text).1 == Some(p) <==> ProblemOf(o, raw, fields[i], p) {
        JudgeProblem(o, raw, fields[i], text, p);
      }
    } else {
      forall i | 0 <= i < |fields| ensures Judge(o, raw, fields[i], text).1 != Some(p) {
        JudgeProblem(o, raw, fields[i], text, p);
      }
    }
  }

  predicate ProblemOf(o: Oracle, raw: map<string, Json>, f: Field, p: Problem) {
    match p
    case Missing(n) => f.name == n && (n !in raw || raw[n] == Null)
    case NotObject(n) => f.name == n && n in raw && raw[n] != Null && !raw[n].Obj?
    case Invalid(n, message) =>
      f.name == n && n in raw && raw[n].Obj? && Claims(raw[n].members) &&
      var errors := o.errors(f.schema, raw[n].members["value"]); errors != [] && message == errors[0]
    case _ => false
  }

  lemma JudgeProblem(o: Oracle, raw: map<string, Json>, f: Field, text: string, p: Problem)
    ensures Judge(o, raw, f, text).1 == Some(p) <==> ProblemOf(o, raw, f, p)
  {
    hide L.Locate;
  }

  lemma {:induction false} FieldProblemsAre(o: Oracle, raw: map<string, Json>, fields: seq<Field>, text: string, p: Problem)
    ensures p in FieldProblems(o, raw, fields, text) <==> exists i :: 0 <= i < |fields| && Judge(o, raw, fields[i], text).1 == Some(p)
  {
    hide Judge;
    if fields != [] {
      var k := |fields| - 1;
      FieldProblemsAre(o, raw, fields[..k], text, p);
      if exists i :: 0 <= i < k && Judge(o, raw, fields[..k][i], text).1 == Some(p) {
        var i :| 0 <= i < k && Judge(o, raw, fields[..k][i], text).1 == Some(p);
        assert fields[i] == fields[..k][i];
      }
      if exists i :: 0 <= i < |fields| && Judge(o, raw, fields[i], text).1 == Some(p) {
        var i :| 0 <= i < |fields| && Judge(o, raw, fields[i], text).1 == Some(p);
        assert i < k ==> fields[..k][i] == fields[i];
      }
    }
  }

  // ---------------------------------------------------------------- soundness

  /** A value that may be reported: it is a value, it meets its field's schema, and its quote stands in the
      document at that offset. */
  predicate Proven(o: Oracle, f: Field, text: string, a: Answer) {
    a.Found? ==> a.value != Null && o.errors(f.schema, a.value) == [] && L.Locate(o.fold, a.quote, text) == Some(a.offset)
  }

  /** One answer for each field, each found value proven. */
  ghost predicate Sound(o: Oracle, fields: seq<Field>, text: string, data: Data) {
    data.Keys == Names(fields) && forall i :: 0 <= i < |fields| ==> Proven(o, fields[i], text, data[fields[i].name])
  }

  lemma AnswersAreSound(o: Oracle, raw: map<string, Json>, fields: seq<Field>, text: string)
    requires Distinct(fields)
    ensures Sound(o, fields, text, Answers(o, raw, fields, text))
  {
    hide L.Locate, Judge;
    forall i | 0 <= i < |fields| ensures Proven(o, fields[i], text, Answers(o, raw, fields, text)[fields[i].name]) {
      AnswerOf(o, raw, fields, text, i);
      JudgedIsProven(o, raw, fields[i], text);
    }
  }

  lemma JudgedIsProven(o: Oracle, raw: map<string, Json>, f: Field, text: string)
    ensures Proven(o, f, text, Judge(o, raw, f, text).0)
  {
    hide L.Locate;
  }

  // ---------------------------------------------------------------- ask, and repair once

  function NothingFound(fields: seq<Field>): Data {
    map n | n in Names(fields) :: NotFound
  }

  datatype Asked = Asked(data: Data, problems: seq<Problem>, calls: nat) | Failed(calls: nat)

  function Serious(ps: seq<Problem>): (r: seq<Problem>)
    ensures forall p :: p in r <==> p in ps && !p.Missing?
  {
    if ps == [] then [] else if ps[0].Missing? then Serious(ps[1..]) else [ps[0]] + Serious(ps[1..])
  }

  /** What two replies come to: the second is asked for only if something is wrong with the first, and then a
      field it still leaves out counts as not found. */
  ghost function AskOf(o: Oracle, fields: seq<Field>, text: string, first: Reply, second: Reply): Asked {
    if first.Raises? then Failed(1)
    else
      var data := if first.Object? then Answers(o, first.raw, fields, text) else NothingFound(fields);
      if first.Object? && Problems(o, first.raw, fields, text) == [] then Asked(data, [], 1)
      else if second.Raises? then Failed(2)
      else if second.Unusable? then Asked(data, [Unreadable(second.message)], 2)
      else Asked(Answers(o, second.raw, fields, text), Serious(Problems(o, second.raw, fields, text)), 2)
  }

  /** `_ask`. */
  method Ask(o: Oracle, fields: seq<Field>, text: string, replies: nat -> Reply, n: nat) returns (r: Asked)
    requires Distinct(fields)
    ensures r == AskOf(o, fields, text, replies(n), replies(n + 1))
  {
    hide Problems, Answers, Names;
    var first := replies(n);
    if first.Raises? {
      return Failed(1);
    }
    var data, problems := NothingFound(fields), [];
    if first.Object? {
      var dropped;
      data, dropped, problems := Check(o, first.raw, fields, text);
    } else {
      problems := [Unreadable(first.message)];
    }
    if problems == [] {
      return Asked(data, [], 1);
    }
    var second := replies(n + 1);
    if second.Raises? {
      return Failed(2);
    }
    if second.Unusable? {
      return Asked(data, [Unreadable(second.message)], 2);
    }
    var data2, dropped2, problems2 := Check(o, second.raw, fields, text);
    return Asked(data2, Serious(problems2), 2);
  }

  /** However the model replies: what an asking returns is sound, an answer without problems is what a reply
      without serious faults says, and a reply that cannot be used leaves a problem. */
  lemma AskedIsSound(o: Oracle, fields: seq<Field>, text: string, first: Reply, second: Reply)
    requires Distinct(fields)
    ensures var r := AskOf(o, fields, text, first, second);
            && (r.Asked? ==> Sound(o, fields, text, r.data) && forall p :: p in r.problems ==> !p.Missing?)
            && (r.Asked? && r.problems == [] ==>
                  exists reply :: reply in [first, second] && reply.Object? && r.data == Answers(o, reply.raw, fields, text))
  {
    hide Problems, Answers, Sound;
    if first.Object? {
      AnswersAreSound(o, first.raw, fields, text);
    }
    NothingIsSound(o, fields, text);
    if second.Object? {
      AnswersAreSound(o, second.raw, fields, text);
    }
    assert first in [first, second] && second in [first, second];
  }

  lemma NothingIsSound(o: Oracle, fields: seq<Field>, text: string)
    ensures Sound(o, fields, text, NothingFound(fields))
  {
    forall i | 0 <= i < |fields| ensures NothingFound(fields)[fields[i].name] == NotFound {
      assert fields[i].name in Names(fields);
    }
  }

  // ---------------------------------------------------------------- several windows, one answer

  predicate FoundIn(parts: seq<Data>, i: nat, n: string) {
    i < |parts| && n in parts[i] && parts[i][n].Found?
  }

  predicate DroppedIn(parts: seq<Data>, i: nat, n: string) {
    i < |parts| && n in parts[i] && parts[i][n].Dropped?
  }

  /** The answer of the first window that found a value; dropped if none did and one dropped it; else not
      found. */
  ghost predicate MergedFrom(parts: seq<Data>, n: string, a: Answer) {
    match a
    case Found(_, _, _, _) => exists i: nat :: FoundIn(parts, i, n) && parts[i][n] == a && forall j: nat :: j < i ==> !FoundIn(parts, j, n)
    case Dropped => (forall i: nat :: !FoundIn(parts, i, n)) && exists i: nat :: DroppedIn(parts, i, n)
    case NotFound => forall i: nat :: !FoundIn(parts, i, n) && !DroppedIn(parts, i, n)
  }

  method MergeOne(parts: seq<Data>, n: string) returns (a: Answer)
    ensures MergedFrom(parts, n, a)
  {
    var i := 0;
    a := NotFound;
    while i < |parts|
      invariant i <= |parts| && !a.Found?
      invariant forall j: nat :: j < i ==> !FoundIn(parts, j, n)
      invariant a.Dropped? ==> exists j: nat :: DroppedIn(parts, j, n)
      invariant a.NotFound? ==> forall j: nat :: j < i ==> !DroppedIn(parts, j, n)
    {
      if FoundIn(parts, i, n) {
        return parts[i][n];
      }
      if DroppedIn(parts, i, n) {
        a := Dropped;
      }
      i := i + 1;
    }
  }

  /** `merge`. */
  method Merge(parts: seq<Data>, fields: seq<Field>) returns (out: Data)
    ensures out.Keys == Names(fields) && forall n :: n in out ==> MergedFrom(parts, n, out[n])
  {
    hide Names, MergedFrom;
    out := map[];
    NoNames(fields);
    var i := 0;
    while i < |fields|
      invariant i <= |fields| && out.Keys == Names(fields[..i])
      invariant forall n :: n in out ==> MergedFrom(parts, n, out[n])
    {
      var a := MergeOne(parts, fields[i].name);
      NamesMore(fields, i);
      out := out[fields[i].name := a];
      i := i + 1;
    }
    assert fields[..i] == fields;
  }

  lemma MergedIsSound(o: Oracle, fields: seq<Field>, text: string, parts: seq<Data>, out: Data)
    requires out.Keys == Names(fields) && forall n :: n in out ==> MergedFrom(parts, n, out[n])
    requires forall i :: 0 <= i < |parts| ==> Sound(o, fields, text, parts[i])
    ensures Sound(o, fields, text, out)
  {
    hide Proven, L.Locate;
    forall k | 0 <= k < |fields| ensures Proven(o, fields[k], text, out[fields[k].name]) {
      var n := fields[k].name;
      assert n in Names(fields);
      if out[n].Found? {
        var i: nat :| FoundIn(parts, i, n) && parts[i][n] == out[n];
        assert Sound(o, fields, text, parts[i]);
      } else {
        UnfoundIsProven(o, fields[k], text, out[n]);
      }
    }
  }

  lemma UnfoundIsProven(o: Oracle, f: Field, text: string, a: Answer)
    requires !a.Found?
    ensures Proven(o, f, text, a)
  {
  }

  // ---------------------------------------------------------------- counting

  datatype Counts = Counts(found: nat, notFound: nat, dropped: nat)

  /** What is counted: the fields with a value, those with none, and those whose value was dropped. */
  lemma CountsAre(data: Data)
    ensures Count(data).found == |set n | n in data && data[n].Found?|
    ensures Count(data).notFound == |set n | n in data && data[n] == NotFound|
    ensures Count(data).dropped == |set n | n in data && data[n] == Dropped|
  {
    assert Which(data, (a: Answer) => a.Found?) == set n | n in data && data[n].Found?;
    assert Which(data, (a: Answer) => a.NotFound?) == set n | n in data && data[n] == NotFound;
    assert Which(data, (a: Answer) => a.Dropped?) == set n | n in data && data[n] == Dropped;
  }

  function Which(data: Data, p: Answer -> bool): set<string> {
    set n | n in data && p(data[n])
  }

  function Count(data: Data): Counts {
    Counts(|Which(data, (a: Answer) => a.Found?)|, |Which(data, (a: Answer) => a.NotFound?)|,
           |Which(data, (a: Answer) => a.Dropped?)|)
  }

  lemma NamesCount(fields: seq<Field>)
    requires Distinct(fields)
    ensures |Names(fields)| == |fields|
  {
    if fields != [] {
      var k := |fields| - 1;
      NamesMore(fields, k);
      NewName(fields, k);
      assert fields[..k + 1] == fields;
      NamesCount(fields[..k]);
    } else {
      assert Names(fields) == {};
    }
  }

  /** Each field is counted once. */
  lemma CountsAddUp(fields: seq<Field>, data: Data)
    requires Distinct(fields) && data.Keys == Names(fields)
    ensures var c := Count(data); c.found + c.notFound + c.dropped == |fields|
  {
    NamesCount(fields);
    var a, b, c := Which(data, (a: Answer) => a.Found?), Which(data, (a: Answer) => a.NotFound?), Which(data, (a: Answer) => a.Dropped?);
    assert a + b + c == data.Keys;
    assert a !! b && (a + b) !! c;
  }
}
