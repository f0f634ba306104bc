/** What definitions a store of prompt sets holds after any calls, and which of them come back from a file. */
module PromptSetBodies {
  import opened Wrappers
  import opened Text
  import opened JsonTree
  import opened PromptSets
  import opened PromptSetStore
  import opened PromptSetService

  /** The definition that an import stores beside a set that has its name or slug, when the name is one character
      short of the limit: the new name is cut right after a blank. */
  predicate Squeezed(b: Body, from: Body) {
    |from.name| == MAX_NAME - 1 && b == from.(name := from.name + " ", slug := b.slug) && (b.slug == from.slug || b.slug == "")
  }

  /** A definition of a file that this call imported, making new sets. */
  ghost predicate ImportedBy(c: Config, call: Call, from: Body) {
    call.CallImport? && !call.revise &&
    var bodies := Bodies(c, call.who, call.bytes, call.data);
    bodies.Ok? && from in bodies.value
  }

  ghost predicate SqueezedBy(c: Config, calls: seq<Call>, b: Body) {
    exists call, from :: call in calls && ImportedBy(c, call, from) && Canonical(c.limits, from) && Squeezed(b, from)
  }

  /** Every definition of the store was there before, or satisfies `ok`. */
  ghost predicate Grown(st: Store, t: Store, ok: Body -> bool) {
    forall k :: k in t.revs ==> (k in st.revs && t.revs[k].body == st.revs[k].body) || ok(t.revs[k].body)
  }

  lemma GrownTwice(st: Store, t: Store, u: Store, ok: Body -> bool)
    requires Grown(st, t, ok) && Grown(t, u, ok)
    ensures Grown(st, u, ok)
  {
  }

  lemma DraftedBodies(c: Config, st: Store, id: SetId, body: Body, client: Option<string>, user: string, now: Time, ok: Body -> bool)
    requires id in st.sets && ok(body)
    ensures Grown(st, Drafted(c, st, id, body, client, user, now).0, ok)
  {
    hide Last;
  }

  lemma MadeBodies(c: Config, st: Store, id: SetId, body: Body, user: string, now: Time, ok: Body -> bool)
    requires ok(body)
    ensures Grown(st, Made(c, st, id, body, user, now), ok)
  {
    hide Last;
  }

  lemma AppWriteBodies(c: Config, st: Store, who: Who, id: SetId, body: Body, publish: bool, status: nat, now: Time, ok: Body -> bool)
    requires id in st.sets && ok(body)
    ensures Grown(st, AppWrite(c, st, who, id, body, publish, status, now).0, ok)
  {
    hide Last;
  }

  /** A renamed definition is canonical exactly when its old name was not one character short of the limit. */
  lemma RenamedForm(l: Limits, st: Store, b: Body)
    requires Canonical(l, b)
    ensures Canonical(l, Renamed(st, b)) <==> |b.name| != MAX_NAME - 1
    ensures Canonical(l, Renamed(st, b)) || Squeezed(Renamed(st, b), b)
  {
    hide CanonicalField, FieldNames, Colour, Lower, Slug, HasSlug;
    ImportedNameTrimmed(b.name);
    if |b.name| == MAX_NAME - 1 {
      assert (b.name + " (imported)")[..MAX_NAME] == b.name + " ";
    }
  }

  lemma SqueezedIsNotCanonical(l: Limits, b: Body, from: Body)
    requires Squeezed(b, from)
    ensures !Canonical(l, b) && b.name != "" && IsSpace(b.name[|b.name| - 1])
  {
    assert b.name[|b.name| - 1] == ' ';
  }

  lemma {:induction false} PreparedAreCanonical(l: Limits, imports: seq<Import>)
    requires Prepared(l, imports).Ok?
    ensures |Prepared(l, imports).value| == |imports|
    ensures forall i :: 0 <= i < |imports| ==> Normalise(l, imports[i].raw) == Ok(Prepared(l, imports).value[i])
    ensures forall b :: b in Prepared(l, imports).value ==> Canonical(l, b)
  {
    hide Normalise, Canonical;
    if imports != [] {
      var k := |imports| - 1;
      PreparedAreCanonical(l, imports[..k]);
      NormaliseIsCanonical(l, imports[k].raw);
    }
  }

  lemma BodiesAreCanonical(c: Config, who: Who, bytes: nat, data: Option<Json>)
    requires Bodies(c, who, bytes, data).Ok?
    ensures forall b :: b in Bodies(c, who, bytes, data).value ==> Canonical(c.limits, b)
  {
    hide Normalise, Canonical, ParseImport, Prepared, Editor;
    PreparedAreCanonical(c.limits, ParseImport(bytes, data).value);
  }

  /** What one call may store. */
  ghost predicate Fits(c: Config, call: Call, b: Body) {
    Canonical(c.limits, b) || exists from :: ImportedBy(c, call, from) && Canonical(c.limits, from) && Squeezed(b, from)
  }

  lemma {:induction false} ImportedBodies(c: Config, call: Call, st: Store, bodies: seq<Body>, ids: seq<SetId>)
    requires Inv(st) && call.CallImport? && |ids| == |bodies| && Fresh(st, ids) && forall n :: n in call.named ==> call.named[n] in st.sets
    requires forall b :: b in bodies ==> Canonical(c.limits, b) && (!call.revise ==> ImportedBy(c, call, b))
    ensures Grown(st, ImportAll(c, st, call.who, bodies, call.named, call.revise, ids, call.now), (b: Body) => Fits(c, call, b))
    decreases |bodies|
  {
    hide Inv, Extends, Made, Drafted, Renamed, Canonical, Squeezed, ImportedBy, HasSlug;
    if bodies != [] {
      var k := |bodies| - 1;
      var ok := (b: Body) => Fits(c, call, b);
      ImportedBodies(c, call, st, bodies[..k], ids[..k]);
      ImportAllKeeps(c, st, call.who, bodies[..k], call.named, call.revise, ids[..k], call.now);
      var t := ImportAll(c, st, call.who, bodies[..k], call.named, call.revise, ids[..k], call.now);
      var existing := Existing(t, call.named, bodies[k]);
      if existing.Some? && call.revise {
        DraftedBodies(c, t, existing.value, bodies[k], None, call.who.user, call.now, ok);
      } else {
        RenamedForm(c.limits, t, bodies[k]);
        MadeBodies(c, t, ids[k], if existing.Some? then Renamed(t, bodies[k]) else bodies[k], call.who.user, call.now, ok);
      }
      GrownTwice(st, t, ImportAll(c, st, call.who, bodies, call.named, call.revise, ids, call.now), ok);
    }
  }

  lemma AppPublishBodies(c: Config, st: Store, call: Call)
    requires Inv(st) && call.CallAppPublish? && Legal(c, st, call)
    ensures Grown(st, Step(c, st, call), (b: Body) => Fits(c, call, b))
  {
    hide Inv, Normalise, Sent, Editor, AppSets, Unchanged, AppRefused, AppWrite, BySlug, Canonical;
    var ok := (b: Body) => Fits(c, call, b);
    var normal := Normalise(c.limits, Sent(call.raw, call.slug));
    if normal.Ok? {
      NormaliseIsCanonical(c.limits, Sent(call.raw, call.slug));
      var s := BySlug(st, call.slug);
      if s.Some? {
        AppWriteBodies(c, st, call.who, s.value, normal.value, call.publish, 200, call.now, ok);
      } else {
        var st1 := st.(sets := st.sets[call.id := NewRow(call.slug, normal.value.name, normal.value.description, Application, call.who.user)]);
        AppWriteBodies(c, st1, call.who, call.id, normal.value, call.publish, 201, call.now, ok);
      }
    }
  }

  lemma StepBodies(c: Config, st: Store, call: Call)
    requires Inv(st) && Legal(c, st, call)
    ensures Grown(st, Step(c, st, call), (b: Body) => Fits(c, call, b))
  {
    hide Inv, Normalise, HasSlug, TakenByOther, Made, Drafted, ImportAll, Bodies, Controlled, Editor, Canonical, AfterAppPublish,
      Squeezed, Last;
    var ok := (b: Body) => Fits(c, call, b);
    match call
    case CallCreate(who, raw, id, now) =>
      var body := Normalise(c.limits, raw);
      if body.Ok? {
        NormaliseIsCanonical(c.limits, raw);
        MadeBodies(c, st, id, body.value, who.user, now, ok);
      }
    case CallSaveDraft(who, id, raw, now) =>
      var body := Normalise(c.limits, raw);
      if body.Ok? && id in st.sets {
        NormaliseIsCanonical(c.limits, raw);
        DraftedBodies(c, st, id, body.value, None, who.user, now, ok);
      }
    case CallImport(who, bytes, data, named, revise, ids, now) =>
      var bodies := Bodies(c, who, bytes, data);
      if bodies.Ok? {
        BodiesAreCanonical(c, who, bytes, data);
        ImportedBodies(c, call, st, bodies.value, ids);
      }
    case CallAppPublish(_, _, _, _, _, _, _, _) =>
      AppPublishBodies(c, st, call);
    case _ =>
  }

  lemma {:induction false} RunBodies(c: Config, st: Store, calls: seq<Call>, k: RevKey)
    requires Inv(st) && Possible(c, st, calls) && k in After(c, st, calls).revs
    ensures var b := After(c, st, calls).revs[k].body;
            (k in st.revs && b == st.revs[k].body) || Canonical(c.limits, b) || SqueezedBy(c, calls, b)
    decreases |calls|
  {
    hide Inv, Step, Legal, Canonical, Squeezed, ImportedBy;
    if calls != [] {
      StepKeeps(c, st, calls[0]);
      StepBodies(c, st, calls[0]);
      RunBodies(c, Step(c, st, calls[0]), calls[1..], k);
    }
  }

  /** After any calls from a store without revisions: a stored definition is canonical, unless a call imported it beside a set
      of its name or slug and its own name was one character short of the limit; and then it is not. Whoever reads
      it can tell by the last character of its name. */
  lemma StoredCanonicalIff(c: Config, start: Store, calls: seq<Call>, k: RevKey)
    requires Inv(start) && start.revs == map[] && Possible(c, start, calls) && k in After(c, start, calls).revs
    ensures var b := After(c, start, calls).revs[k].body;
            && (Canonical(c.limits, b) <==> !SqueezedBy(c, calls, b))
            && b.name != "" && (Canonical(c.limits, b) <==> !IsSpace(b.name[|b.name| - 1]))
  {
    hide ImportedBy;
    RunBodies(c, start, calls, k);
    var b := After(c, start, calls).revs[k].body;
    if SqueezedBy(c, calls, b) {
      var call, from :| call in calls && ImportedBy(c, call, from) && Canonical(c.limits, from) && Squeezed(b, from);
      SqueezedIsNotCanonical(c.limits, b, from);
    }
  }

  /** A file of definitions imports as those very definitions exactly when all of them are canonical. */
  lemma FileImportsIff(c: Config, who: Who, bs: seq<Body>, notes: seq<Note>, bytes: nat)
    requires MayBuild(who) && |bs| == |notes| && 1 <= |bs| <= MAX_SETS_PER_FILE && bytes <= MAX_FILE_BYTES
    ensures Bodies(c, who, bytes, Some(Dump(Exports(bs, notes)))) == Ok(bs) <==> forall b :: b in bs ==> Canonical(c.limits, b)
  {
    hide Canonical, Normalise, Dump, Exports, ParseImport, Editor;
    if forall b :: b in bs ==> Canonical(c.limits, b) {
      ExportedFileImports(c, who, bs, notes, bytes);
    } else if Bodies(c, who, bytes, Some(Dump(Exports(bs, notes)))) == Ok(bs) {
      BodiesAreCanonical(c, who, bytes, Some(Dump(Exports(bs, notes))));
    }
  }

  /** So a file exported from the store, after any calls, comes back as it was exactly when no name in it ends in
      a blank. */
  lemma StoredFileImportsIff(c: Config, start: Store, calls: seq<Call>, who: Who, ks: seq<RevKey>, notes: seq<Note>,
      bytes: nat)
    requires Inv(start) && start.revs == map[] && Possible(c, start, calls)
    requires forall i :: 0 <= i < |ks| ==> ks[i] in After(c, start, calls).revs
    requires MayBuild(who) && |ks| == |notes| && 1 <= |ks| <= MAX_SETS_PER_FILE && bytes <= MAX_FILE_BYTES
    ensures var st := After(c, start, calls);
            var bs := seq(|ks|, i requires 0 <= i < |ks| => st.revs[ks[i]].body);
            Bodies(c, who, bytes, Some(Dump(Exports(bs, notes)))) == Ok(bs) <==>
            forall i :: 0 <= i < |ks| ==> bs[i].name != "" && !IsSpace(bs[i].name[|bs[i].name| - 1])
  {
    hide Canonical, Bodies, Dump, Exports, Inv, SqueezedBy, Editor;
    var st := After(c, start, calls);
    var bs := seq(|ks|, i requires 0 <= i < |ks| => st.revs[ks[i]].body);
    FileImportsIff(c, who, bs, notes, bytes);
    forall i | 0 <= i < |ks|
      ensures bs[i].name != "" && (Canonical(c.limits, bs[i]) <==> !IsSpace(bs[i].name[|bs[i].name| - 1]))
    {
      StoredCanonicalIff(c, start, calls, ks[i]);
    }
    assert (forall b :: b in bs ==> Canonical(c.limits, b)) <==> forall i :: 0 <= i < |ks| ==> Canonical(c.limits, bs[i]);
  }

  // ---------------------------------------------------------------- a run with such a name

  /** A set is created, and a file with its definition imported beside it. */
  function CreateAndImport(who: Who, b: Body, id: SetId, id2: SetId, note: Note, bytes: nat, now: Time): seq<Call> {
    [CallCreate(who, Tree(b), id, now),
     CallImport(who, bytes, Some(Dump(Exports([b], [note]))), map[b.name := id], false, [id2], now)]
  }

  lemma Created(c: Config, who: Who, b: Body, id: SetId, now: Time)
    requires MayBuild(who) && Canonical(c.limits, b) && Inv(EMPTY)
    ensures var call := CallCreate(who, Tree(b), id, now);
            Legal(c, EMPTY, call) && Step(c, EMPTY, call).sets == map[id := NewRow(b.slug, b.name, b.description, Builder, who.user)]
  {
    hide Canonical, Normalise, Tree, Editor, Last;
    CanonicalIffFixed(c.limits, b);
  }

  lemma ImportedBeside(c: Config, who: Who, st: Store, b: Body, id: SetId, id2: SetId, note: Note, bytes: nat, now: Time)
    requires MayBuild(who) && Canonical(c.limits, b) && bytes <= MAX_FILE_BYTES && id != id2 && Inv(st)
    requires st.sets == map[id := NewRow(b.slug, b.name, b.description, Builder, who.user)]
    ensures var call := CallImport(who, bytes, Some(Dump(Exports([b], [note]))), map[b.name := id], false, [id2], now);
            Legal(c, st, call) && exists k :: k in Step(c, st, call).revs && Step(c, st, call).revs[k].body == Renamed(st, b)
  {
    hide Canonical, Dump, Exports, Editor, Last, Bodies, Renamed, Inv;
    assert [b][0] == b && [b][..0] == [] && [id2][..0] == [];
    ExportedFileImports(c, who, [b], [note], bytes);
    var named := map[b.name := id];
    assert Lists(st, named);
    assert Existing(st, named, b).Some?;
    assert ImportAll(c, st, who, [], named, false, [], now) == st;
    var t := Made(c, st, id2, Renamed(st, b), who.user, now);
    assert ImportAll(c, st, who, [b], named, false, [id2], now) == t;
    assert Step(c, st, CallImport(who, bytes, Some(Dump(Exports([b], [note]))), named, false, [id2], now)) == t;
    var made := Renamed(st, b);
    var row := NewRow(made.slug, made.name, made.description, Builder, who.user);
    var k := RevKey(id2, Last(st.(sets := st.sets[id2 := row]), id2) + 1);
    assert k in t.revs && t.revs[k].body == Renamed(st, b);
  }

  lemma TwoCalls(c: Config, st: Store, a: Call, b: Call)
    requires Inv(st) && Legal(c, st, a) && Inv(Step(c, st, a)) && Legal(c, Step(c, st, a), b)
    ensures Possible(c, st, [a, b]) && After(c, st, [a, b]) == Step(c, Step(c, st, a), b)
  {
    hide Inv, Step, Legal;
    var t := Step(c, st, a);
    StepKeeps(c, t, b);
    var u := Step(c, t, b);
    assert [a, b][1..] == [b] && [b][1..] == [];
    assert Possible(c, u, []) && After(c, u, []) == u;
    assert Possible(c, t, [b]) && After(c, t, [b]) == u;
  }

  /** From the empty store, with any definition whose name is one character short of the limit: the definition
      stored beside it is not canonical, so no export of it comes back as it was. */
  lemma SqueezedHappens(c: Config, who: Who, b: Body, id: SetId, id2: SetId, note: Note, bytes: nat, now: Time)
    requires MayBuild(who) && Canonical(c.limits, b) && |b.name| == MAX_NAME - 1 && id != id2 && bytes <= MAX_FILE_BYTES && Inv(EMPTY)
    ensures var calls := CreateAndImport(who, b, id, id2, note, bytes, now);
            Possible(c, EMPTY, calls) &&
            exists k :: k in After(c, EMPTY, calls).revs && !Canonical(c.limits, After(c, EMPTY, calls).revs[k].body)
  {
    hide Canonical, Inv, Editor, Step, Legal, Renamed, Dump, Exports, Tree;
    var calls := CreateAndImport(who, b, id, id2, note, bytes, now);
    Created(c, who, b, id, now);
    StepKeeps(c, EMPTY, calls[0]);
    var st := Step(c, EMPTY, calls[0]);
    ImportedBeside(c, who, st, b, id, id2, note, bytes, now);
    RenamedForm(c.limits, st, b);
    TwoCalls(c, EMPTY, calls[0], calls[1]);
  }
}
