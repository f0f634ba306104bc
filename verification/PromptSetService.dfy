/** Who may change which prompt set, and how: editors through drafts, applications by publishing
    their own definitions. */
module PromptSetService {
  import opened Wrappers
  import opened Text
  import opened JsonTree
  import opened PromptSets
  import opened PromptSetStore

  /** A caller; an application's session has a client key. */
  datatype Who = Who(user: string, client: string, roles: set<string>)

  /** A deployment: its limits on definitions and on applications, and the hash of a definition. */
  datatype Config = Config(limits: Limits, appMaxSets: int, appRevisionsPerDay: int, hash: Body -> string)

  datatype Reply = Refused(status: nat, kind: string) | Done(status: nat, id: SetId, revision: nat, changed: bool)

  const DAY: Time := 86400

  predicate Editor(who: Who) {
    exists r :: r in who.roles && r in ["administrators", "tenant_admin", "system_admin", "extraction_editors"]
  }

  predicate MayBuild(who: Who) {
    Editor(who) && who.client == ""
  }

  const FORBIDDEN := Refused(403, "forbidden")
  const NOT_FOUND := Refused(404, "not_found")

  // ---------------------------------------------------------------- what each call does

  ghost function BySlug(st: Store, slug: string): (id: Option<SetId>)
    ensures id.Some? ==> id.value in st.sets && st.sets[id.value].slug == Some(slug)
    ensures id.None? <==> !HasSlug(st, slug)
  {
    if HasSlug(st, slug) then
      var id :| id in st.sets && st.sets[id].slug == Some(slug);
      Some(id)
    else None
  }

  lemma SlugOnce(st: Store, id: SetId, slug: string)
    requires SlugsUnique(st) && id in st.sets && st.sets[id].slug == Some(slug)
    ensures BySlug(st, slug) == Some(id)
  {
  }

  /** Another set has this slug. */
  ghost predicate TakenByOther(st: Store, id: SetId, slug: string) {
    slug != "" && BySlug(st, slug).Some? && BySlug(st, slug).value != id
  }

  function NewRev(c: Config, body: Body, state: RevState, client: Option<string>, user: string, now: Time): Rev {
    Rev(body, c.hash(body), state, client, user, now, if state.Published? then Some(now) else None)
  }

  /** Into the open draft, or a new one. */
  ghost function Drafted(c: Config, st: Store, id: SetId, body: Body, client: Option<string>, user: string,
      now: Time): (Store, nat)
    requires id in st.sets
  {
    var n := Last(st, id);
    if IsDraft(st, id, n) then (UpdateDraft(st, id, n, body, c.hash(body), user, now), n)
    else (AddRevision(st, id, NewRev(c, body, Draft, client, user, now)), n + 1)
  }

  ghost function Made(c: Config, st: Store, id: SetId, body: Body, user: string, now: Time): Store {
    var st1 := st.(sets := st.sets[id := NewRow(body.slug, body.name, body.description, Builder, user)]);
    AddRevision(st1, id, NewRev(c, body, Draft, None, user, now))
  }

  ghost function AfterCreate(c: Config, st: Store, who: Who, raw: Json, id: SetId, now: Time): (Store, Reply) {
    if !MayBuild(who) then (st, FORBIDDEN)
    else
      var body := Normalise(c.limits, raw);
      if body.Err? then (st, Refused(400, "invalid_definition"))
      else if body.value.slug != "" && HasSlug(st, body.value.slug) then (st, Refused(409, "slug_taken"))
      else (Made(c, st, id, body.value, who.user, now), Done(200, id, 1, true))
  }

  ghost function AfterSaveDraft(c: Config, st: Store, who: Who, id: SetId, raw: Json, now: Time): (Store, Reply) {
    if !MayBuild(who) then (st, FORBIDDEN)
    else if id !in st.sets then (st, NOT_FOUND)
    else
      var body := Normalise(c.limits, raw);
      if body.Err? then (st, Refused(400, "invalid_definition"))
      else if TakenByOther(st, id, body.value.slug) then (st, Refused(409, "slug_taken"))
      else var (st1, n) := Drafted(c, st, id, body.value, None, who.user, now); (st1, Done(200, id, n, true))
  }

  ghost function AfterPublish(st: Store, who: Who, id: SetId, now: Time): (Store, Reply)
    requires Inv(st)
  {
    var n := Last(st, id);
    if !MayBuild(who) then (st, FORBIDDEN)
    else if !IsDraft(st, id, n) then (st, Refused(409, "no_draft"))
    else if TakenByOther(st, id, st.revs[RevKey(id, n)].body.slug) then (st, Refused(409, "slug_taken"))
    else (PublishRevision(st, id, n, now), Done(200, id, n, true))
  }

  ghost function Retired(st: Store, id: SetId, replacedBy: string): (Store, Reply) {
    if id !in st.sets then (st, NOT_FOUND)
    else if replacedBy != "" && replacedBy !in st.sets then (st, Refused(400, "bad_request"))
    else (st.(sets := st.sets[id := Controlled(st.sets[id], Some(replacedBy), None, None)]), Done(200, id, 0, true))
  }

  ghost function AfterRetire(st: Store, who: Who, id: SetId, replacedBy: string): (Store, Reply) {
    if !MayBuild(who) then (st, FORBIDDEN) else Retired(st, id, replacedBy)
  }

  ghost function AfterSetControl(st: Store, who: Who, id: SetId, takeOver: Option<bool>, locked: Option<bool>): (Store, Reply) {
    if !MayBuild(who) then (st, FORBIDDEN)
    else if id !in st.sets then (st, NOT_FOUND)
    else
      var managed := if takeOver.None? then None else Some(if takeOver.value then Builder else Application);
      (st.(sets := st.sets[id := Controlled(st.sets[id], None, managed, locked)]), Done(200, id, 0, true))
  }

  function AppSets(st: Store): nat {
    |set id | id in st.sets && st.sets[id].managed.Application?|
  }

  function RevisionsSince(st: Store, id: SetId, since: Time): nat {
    |set k | k in st.revs && k.id == id && st.revs[k].created >= since|
  }

  /** The definition an application sends, under the slug it publishes to. */
  function Sent(raw: Json, slug: string): Json {
    if raw.Obj? then Obj((raw.members - DROPPED)["slug" := Str(slug)]) else raw
  }

  /** Why an application may not write to a set that is there already; `None` when it may. */
  function AppRefused(c: Config, st: Store, who: Who, id: SetId, base: Option<nat>, force: bool,
      now: Time): (r: Option<Reply>)
    requires id in st.sets
    ensures r.Some? ==> r.value.Refused?
  {
    var row := st.sets[id];
    if row.managed.Builder? && !Editor(who) then Some(Refused(409, "managed_in_builder"))
    else if row.locked then Some(Refused(409, "locked"))
    else if base.Some? && !force && base.value != (if row.current.Some? then row.current.value else 0)
    then Some(Refused(409, "revision_conflict"))
    else if RevisionsSince(st, id, now - DAY) >= c.appRevisionsPerDay then Some(Refused(429, "revision_limit"))
    else None
  }

  /** The set's current revision has this hash. */
  predicate Unchanged(c: Config, st: Store, id: SetId, body: Body)
    requires id in st.sets
  {
    var row := st.sets[id];
    row.current.Some? && row.current.value != 0 && RevKey(id, row.current.value) in st.revs &&
    st.revs[RevKey(id, row.current.value)].hash == c.hash(body)
  }

  ghost function AppWrite(c: Config, st: Store, who: Who, id: SetId, body: Body, publish: bool, status: nat,
      now: Time): (Store, Reply)
    requires id in st.sets
  {
    if publish then
      (AddRevision(st, id, NewRev(c, body, Published, Some(who.client), who.user, now)), Done(status, id, Last(st, id) + 1, true))
    else var (st1, n) := Drafted(c, st, id, body, Some(who.client), who.user, now); (st1, Done(status, id, n, true))
  }

  ghost function AfterAppPublish(c: Config, st: Store, who: Who, slug: string, raw: Json, base: Option<nat>,
      force: bool, publish: bool,
                            id: SetId, now: Time): (Store, Reply)
  {
    if who.client == "" && !Editor(who) then (st, FORBIDDEN)
    else
      var normal := Normalise(c.limits, Sent(raw, slug));
      if normal.Err? then (st, Refused(400, "invalid_definition"))
      else
        var body, s := normal.value, BySlug(st, slug);
        if s.None? then
          if AppSets(st) >= c.appMaxSets then (st, Refused(429, "app_set_limit"))
          else
            var st1 := st.(sets := st.sets[id := NewRow(slug, body.name, body.description, Application, who.user)]);
            AppWrite(c, st1, who, id, body, publish, 201, now)
        else if st.sets[s.value].retired then (st, Refused(410, "prompt_set_retired"))
        else if publish && Unchanged(c, st, s.value, body) then (st, Done(200, s.value, st.sets[s.value].current.value, false))
        else
          var refused := AppRefused(c, st, who, s.value, base, force, now);
          if refused.Some? then (st, refused.value) else AppWrite(c, st, who, s.value, body, publish, 200, now)
  }

  ghost function AfterAppRetire(st: Store, who: Who, slug: string, replacedBy: string): (Store, Reply) {
    var s := BySlug(st, slug);
    if s.None? then (st, NOT_FOUND)
    else if who.client == "" && !Editor(who) then (st, FORBIDDEN)
    else if st.sets[s.value].managed.Builder? && !Editor(who) then (st, Refused(409, "managed_in_builder"))
    else if st.sets[s.value].locked then (st, Refused(409, "locked"))
    else Retired(st, s.value, replacedBy)
  }

  // ---------------------------------------------------------------- importing a file

  function Cut(s: string, n: nat): string {
    if |s| <= n then s else s[..n]
  }

  /** Which sets were there, by name, when the import began. */
  ghost predicate Lists(st: Store, named: map<string, SetId>) {
    && (forall n :: n in named ==> named[n] in st.sets && st.sets[named[n]].name == n)
    && (forall id :: id in st.sets ==> st.sets[id].name in named)
  }

  ghost function Existing(st: Store, named: map<string, SetId>, body: Body): Option<SetId> {
    var s := if body.slug == "" then None else BySlug(st, body.slug);
    if s.Some? then s else if body.name in named then Some(named[body.name]) else None
  }

  /** The name and slug a new set gets when one by that name or slug is there. */
  ghost function Renamed(st: Store, body: Body): Body {
    body.(name := Cut(body.name + " (imported)", MAX_NAME), slug := if body.slug != "" && HasSlug(st, body.slug) then "" else body.slug)
  }

  ghost function ImportOne(c: Config, st: Store, who: Who, body: Body, named: map<string, SetId>, revise: bool,
      id: SetId, now: Time): Store
    requires forall n :: n in named ==> named[n] in st.sets
  {
    var existing := Existing(st, named, body);
    if existing.Some? && revise then Drafted(c, st, existing.value, body, None, who.user, now).0
    else Made(c, st, id, if existing.Some? then Renamed(st, body) else body, who.user, now)
  }

  ghost function ImportAll(c: Config, st: Store, who: Who, bodies: seq<Body>, named: map<string, SetId>, revise: bool,
      ids: seq<SetId>, now: Time): (t: Store)
    requires |ids| == |bodies| && forall n :: n in named ==> named[n] in st.sets
    ensures st.sets.Keys <= t.sets.Keys
    decreases |bodies|
  {
    if bodies == [] then st
    else
      var k := |bodies| - 1;
      ImportOne(c, ImportAll(c, st, who, bodies[..k], named, revise, ids[..k], now), who, bodies[k], named, revise, ids[k], now)
  }

  /** Every definition of the file, or the first error. */
  function Prepared(l: Limits, imports: seq<Import>): Result<seq<Body>, string> {
    if imports == [] then Ok([])
    else
      var some :- Prepared(l, imports[..|imports| - 1]);
      var body :- Normalise(l, imports[|imports| - 1].raw);
      Ok(some + [body])
  }

  /** The definitions a call would import, or why none. */
  function Bodies(c: Config, who: Who, bytes: nat, data: Option<Json>): Result<seq<Body>, Reply> {
    if !MayBuild(who) then Err(FORBIDDEN)
    else
      var parsed := ParseImport(bytes, data);
      if parsed.Err? then Err(Refused(400, "invalid_file"))
      else
        var bodies := Prepared(c.limits, parsed.value);
        if bodies.Err? then Err(Refused(400, "invalid_definition")) else Ok(bodies.value)
  }

  // ---------------------------------------------------------------- one call keeps the history

  ghost predicate Keeps(st: Store, t: Store) {
    Inv(t) && Extends(st, t)
  }

  lemma SelfExtends(st: Store)
    ensures Extends(st, st)
  {
    hide Frozen;
  }

  lemma DraftedKeeps(c: Config, st: Store, id: SetId, body: Body, client: Option<string>, user: string, now: Time)
    requires Inv(st) && id in st.sets
    ensures Keeps(st, Drafted(c, st, id, body, client, user, now).0)
  {
    hide Inv, Extends, Last, UpdateDraft, AddRevision, IsDraft;
    DraftKeeps(st, id, Last(st, id), body, c.hash(body), user, now);
    AddKeeps(st, id, NewRev(c, body, Draft, client, user, now));
  }

  lemma MadeKeeps(c: Config, st: Store, id: SetId, body: Body, user: string, now: Time)
    requires Inv(st) && id !in st.sets && (body.slug == "" || !HasSlug(st, body.slug))
    ensures Keeps(st, Made(c, st, id, body, user, now)) && st.sets.Keys <= Made(c, st, id, body, user, now).sets.Keys
  {
    hide Inv, Extends, Last, AddRevision, HasSlug;
    var st1 := st.(sets := st.sets[id := NewRow(body.slug, body.name, body.description, Builder, user)]);
    CreateKeeps(st, id, body.slug, body.name, body.description, Builder, user);
    AddKeeps(st1, id, NewRev(c, body, Draft, None, user, now));
    ExtendsTrans(st, st1, Made(c, st, id, body, user, now));
    KeysGrow(st, Made(c, st, id, body, user, now));
  }

  lemma KeysGrow(st: Store, t: Store)
    requires Extends(st, t)
    ensures st.sets.Keys <= t.sets.Keys
  {
  }

  lemma FreeUnlessTaken(st: Store, id: SetId, slug: string)
    requires Inv(st) && !TakenByOther(st, id, slug)
    ensures SlugFree(st, id, slug)
  {
    hide Numbered, Mirrors;
    if slug != "" {
      forall j | j in st.sets && j != id ensures st.sets[j].slug != Some(slug) {
        if st.sets[j].slug == Some(slug) {
          SlugOnce(st, j, slug);
        }
      }
    }
  }

  lemma DraftHasSet(st: Store, id: SetId, n: nat)
    requires Inv(st) && IsDraft(st, id, n)
    ensures id in st.sets
  {
    hide Numbered, Mirrors, SlugsUnique;
  }

  lemma PublishOpKeeps(st: Store, who: Who, id: SetId, now: Time)
    requires Inv(st)
    ensures Keeps(st, AfterPublish(st, who, id, now).0)
  {
    hide Inv, Extends, Last, TakenByOther, PublishRevision;
    SelfExtends(st);
    var n := Last(st, id);
    if IsDraft(st, id, n) {
      DraftHasSet(st, id, n);
      if !TakenByOther(st, id, st.revs[RevKey(id, n)].body.slug) {
        FreeUnlessTaken(st, id, st.revs[RevKey(id, n)].body.slug);
        PublishKeeps(st, id, n, now);
      }
    }
  }

  lemma AppWriteKeeps(c: Config, st: Store, who: Who, id: SetId, body: Body, publish: bool, status: nat, now: Time)
    requires Inv(st) && id in st.sets && SlugFree(st, id, body.slug)
    ensures Keeps(st, AppWrite(c, st, who, id, body, publish, status, now).0)
  {
    hide Inv, Extends, Last, AddRevision, SlugFree, Drafted;
    if publish {
      AddKeeps(st, id, NewRev(c, body, Published, Some(who.client), who.user, now));
    } else {
      DraftedKeeps(c, st, id, body, Some(who.client), who.user, now);
    }
  }

  /** A definition that normalises carries the slug it was sent to. */
  lemma SentSlug(l: Limits, raw: Json, slug: string)
    requires Normalise(l, Sent(raw, slug)).Ok?
    ensures Normalise(l, Sent(raw, slug)).value.slug == slug
  {
    hide TextOf, NormaliseFields, FieldsOf, ColoursOf, LabelSet, Sorted, Slug;
    assert raw.Obj? ==> Get(Sent(raw, slug).members, "slug") == Str(slug);
  }

  lemma OwnSlugFree(st: Store, id: SetId, slug: string)
    requires SlugsUnique(st) && id in st.sets && (slug == "" || st.sets[id].slug == Some(slug))
    ensures SlugFree(st, id, slug)
  {
  }

  lemma AppPublishKeeps(c: Config, st: Store, who: Who, slug: string, raw: Json, base: Option<nat>, force: bool,
      publish: bool, id: SetId, now: Time)
    requires Inv(st) && id !in st.sets
    ensures Keeps(st, AfterAppPublish(c, st, who, slug, raw, base, force, publish, id, now).0)
  {
    hide Extends, Normalise, Sent, Editor, AppSets, Unchanged, AppRefused, AppWrite, Numbered, Mirrors, BySlug, Last;
    SelfExtends(st);
    var normal := Normalise(c.limits, Sent(raw, slug));
    if normal.Ok? {
      var body, s := normal.value, BySlug(st, slug);
      SentSlug(c.limits, raw, slug);
      if s.None? {
        var st1 := st.(sets := st.sets[id := NewRow(slug, body.name, body.description, Application, who.user)]);
        CreateKeeps(st, id, slug, body.name, body.description, Application, who.user);
        OwnSlugFree(st1, id, slug);
        AppWriteKeeps(c, st1, who, id, body, publish, 201, now);
        ExtendsTrans(st, st1, AppWrite(c, st1, who, id, body, publish, 201, now).0);
      } else {
        OwnSlugFree(st, s.value, slug);
        AppWriteKeeps(c, st, who, s.value, body, publish, 200, now);
      }
    }
  }

  lemma ImportOneKeeps(c: Config, st: Store, who: Who, body: Body, named: map<string, SetId>, revise: bool, id: SetId,
      now: Time)
    requires Inv(st) && id !in st.sets && forall n :: n in named ==> named[n] in st.sets
    ensures Keeps(st, ImportOne(c, st, who, body, named, revise, id, now)) &&
            ImportOne(c, st, who, body, named, revise, id, now).sets.Keys <= st.sets.Keys + {id}
  {
    hide Inv, Extends, Last, HasSlug;
    var existing := Existing(st, named, body);
    if existing.Some? && revise {
      DraftedKeeps(c, st, existing.value, body, None, who.user, now);
    } else {
      MadeKeeps(c, st, id, if existing.Some? then Renamed(st, body) else body, who.user, now);
    }
  }

  /** Ids nobody has. */
  predicate Fresh(st: Store, ids: seq<SetId>) {
    (forall i :: 0 <= i < |ids| ==> ids[i] !in st.sets) && forall i, j :: 0 <= i < j < |ids| ==> ids[i] != ids[j]
  }

  lemma {:induction false} ImportAllKeeps(c: Config, st: Store, who: Who, bodies: seq<Body>,
      named: map<string, SetId>, revise: bool, ids: seq<SetId>, now: Time)
    requires Inv(st) && |ids| == |bodies| && Fresh(st, ids) && forall n :: n in named ==> named[n] in st.sets
    ensures var t := ImportAll(c, st, who, bodies, named, revise, ids, now);
            Keeps(st, t) && forall q :: q in t.sets ==> q in st.sets || q in ids
    decreases |bodies|
  {
    hide Inv, Extends, ImportOne;
    SelfExtends(st);
    if bodies != [] {
      var k := |bodies| - 1;
      ImportAllKeeps(c, st, who, bodies[..k], named, revise, ids[..k], now);
      var t := ImportAll(c, st, who, bodies[..k], named, revise, ids[..k], now);
      ImportOneKeeps(c, t, who, bodies[k], named, revise, ids[k], now);
      ExtendsTrans(st, t, ImportOne(c, t, who, bodies[k], named, revise, ids[k], now));
    }
  }

  // ---------------------------------------------------------------- the service

  class PromptSetService {
    const store: MemoryPromptSetStore
    const c: Config

    constructor (store: MemoryPromptSetStore, c: Config)
      ensures this.store == store && this.c == c
    {
      this.store, this.c := store, c;
    }

    /** The number of the open draft, if the last revision is one. */
    method OpenDraft(id: SetId) returns (n: nat, open: bool)
      ensures n == Last(store.Contents(), id) && open == IsDraft(store.Contents(), id, n)
    {
      n := store.LastRevision(id);
      open := RevKey(id, n) in store.revs && store.revs[RevKey(id, n)].state.Draft?;
    }

    method WriteDraft(id: SetId, body: Body, client: Option<string>, user: string, now: Time) returns (n: nat)
      requires id in store.sets
      modifies store
      ensures (store.Contents(), n) == Drafted(c, old(store.Contents()), id, body, client, user, now)
    {
      hide Last;
      var last, open := OpenDraft(id);
      if open {
        var ok := store.Rewrite(id, last, body, c.hash(body), user, now);
        return last;
      }
      n := store.Append(id, NewRev(c, body, Draft, client, user, now));
    }

    method MakeSet(id: SetId, body: Body, user: string, now: Time)
      requires Inv(store.Contents()) && id !in store.sets && (body.slug == "" || !HasSlug(store.Contents(), body.slug))
      modifies store
      ensures store.Contents() == Made(c, old(store.Contents()), id, body, user, now)
    {
      hide Last, Inv;
      var ok := store.CreateSet(id, body.slug, body.name, body.description, Builder, user);
      var n := store.Append(id, NewRev(c, body, Draft, None, user, now));
    }

    method Create(who: Who, raw: Json, id: SetId, now: Time) returns (r: Reply)
      requires Inv(store.Contents()) && id !in store.sets
      modifies store
      ensures (store.Contents(), r) == AfterCreate(c, old(store.Contents()), who, raw, id, now)
    {
      hide Last, Inv, Normalise, Made, Editor;
      if !MayBuild(who) {
        return FORBIDDEN;
      }
      var body := Normalise(c.limits, raw);
      if body.Err? {
        return Refused(400, "invalid_definition");
      }
      if body.value.slug != "" {
        var other := store.BySlug(body.value.slug);
        if other.Some? {
          return Refused(409, "slug_taken");
        }
      }
      MakeSet(id, body.value, who.user, now);
      return Done(200, id, 1, true);
    }

    /** Another set has this slug. */
    method Taken(id: SetId, slug: string) returns (taken: bool)
      requires SlugsUnique(store.Contents())
      ensures taken == TakenByOther(store.Contents(), id, slug)
    {
      if slug == "" {
        return false;
      }
      var other := store.BySlug(slug);
      if other.Some? {
        SlugOnce(store.Contents(), other.value, slug);
      }
      return other.Some? && other.value != id;
    }

    method SaveDraft(who: Who, id: SetId, raw: Json, now: Time) returns (r: Reply)
      requires Inv(store.Contents())
      modifies store
      ensures (store.Contents(), r) == AfterSaveDraft(c, old(store.Contents()), who, id, raw, now)
    {
      hide Last, Numbered, Mirrors, Normalise, Drafted, Editor, TakenByOther;
      if !MayBuild(who) {
        return FORBIDDEN;
      }
      if id !in store.sets {
        return NOT_FOUND;
      }
      var body := Normalise(c.limits, raw);
      if body.Err? {
        return Refused(400, "invalid_definition");
      }
      var taken := Taken(id, body.value.slug);
      if taken {
        return Refused(409, "slug_taken");
      }
      var n := WriteDraft(id, body.value, None, who.user, now);
      return Done(200, id, n, true);
    }

    method Publish(who: Who, id: SetId, now: Time) returns (r: Reply)
      requires Inv(store.Contents())
      modifies store
      ensures (store.Contents(), r) == AfterPublish(old(store.Contents()), who, id, now)
    {
      hide Last, Numbered, Mirrors, Editor, TakenByOther, PublishRevision;
      if !MayBuild(who) {
        return FORBIDDEN;
      }
      var n, open := OpenDraft(id);
      if !open {
        return Refused(409, "no_draft");
      }
      var taken := Taken(id, store.revs[RevKey(id, n)].body.slug);
      if taken {
        return Refused(409, "slug_taken");
      }
      DraftHasSet(store.Contents(), id, n);
      var ok := store.Release(id, n, now);
      return Done(200, id, n, true);
    }

    method RetireSet(id: SetId, replacedBy: string) returns (r: Reply)
      modifies store
      ensures (store.Contents(), r) == Retired(old(store.Contents()), id, replacedBy)
    {
      if id !in store.sets {
        return NOT_FOUND;
      }
      if replacedBy != "" && replacedBy !in store.sets {
        return Refused(400, "bad_request");
      }
      var ok := store.UpdateSet(id, Some(replacedBy), None, None);
      return Done(200, id, 0, true);
    }

    method Retire(who: Who, id: SetId, replacedBy: string) returns (r: Reply)
      modifies store
      ensures (store.Contents(), r) == AfterRetire(old(store.Contents()), who, id, replacedBy)
    {
      hide Editor, Retired;
      if !MayBuild(who) {
        return FORBIDDEN;
      }
      r := RetireSet(id, replacedBy);
    }

    method SetControl(who: Who, id: SetId, takeOver: Option<bool>, locked: Option<bool>) returns (r: Reply)
      modifies store
      ensures (store.Contents(), r) == AfterSetControl(old(store.Contents()), who, id, takeOver, locked)
    {
      hide Editor;
      if !MayBuild(who) {
        return FORBIDDEN;
      }
      if id !in store.sets {
        return NOT_FOUND;
      }
      var ok := store.UpdateSet(id, None, if takeOver.None? then None else Some(if takeOver.value then Builder else Application), locked);
      return Done(200, id, 0, true);
    }

    method WriteFromApp(who: Who, id: SetId, body: Body, publish: bool, status: nat, now: Time) returns (r: Reply)
      requires id in store.sets
      modifies store
      ensures (store.Contents(), r) == AppWrite(c, old(store.Contents()), who, id, body, publish, status, now)
    {
      hide Last, Drafted;
      var n;
      if publish {
        n := store.Append(id, NewRev(c, body, Published, Some(who.client), who.user, now));
      } else {
        n := WriteDraft(id, body, Some(who.client), who.user, now);
      }
      return Done(status, id, n, true);
    }

    method AppPublish(who: Who, slug: string, raw: Json, base: Option<nat>, force: bool, publish: bool, id: SetId,
        now: Time) returns (r: Reply)
      requires Inv(store.Contents()) && id !in store.sets
      modifies store
      ensures (store.Contents(), r) == AfterAppPublish(c, old(store.Contents()), who, slug, raw, base, force, publish, id, now)
    {
      hide Last, Numbered, Mirrors, Normalise, Sent, Editor, AppWrite, Unchanged, AppRefused, AppSets;
      if who.client == "" && !Editor(who) {
        return FORBIDDEN;
      }
      var body := Normalise(c.limits, Sent(raw, slug));
      if body.Err? {
        return Refused(400, "invalid_definition");
      }
      var s := store.BySlug(slug);
      var st := Store(store.sets, store.revs);
      if s.None? {
        if AppSets(st) >= c.appMaxSets {
          return Refused(429, "app_set_limit");
        }
        var ok := store.CreateSet(id, slug, body.value.name, body.value.description, Application, who.user);
        r := WriteFromApp(who, id, body.value, publish, 201, now);
        return;
      }
      SlugOnce(st, s.value, slug);
      if st.sets[s.value].retired {
        return Refused(410, "prompt_set_retired");
      }
      UnchangedHasCurrent(c, st, s.value, body.value);
      if publish && Unchanged(c, st, s.value, body.value) {
        return Done(200, s.value, st.sets[s.value].current.value, false);
      }
      var refused := AppRefused(c, st, who, s.value, base, force, now);
      if refused.Some? {
        return refused.value;
      }
      r := WriteFromApp(who, s.value, body.value, publish, 200, now);
    }

    method AppRetire(who: Who, slug: string, replacedBy: string) returns (r: Reply)
      requires SlugsUnique(store.Contents())
      modifies store
      ensures (store.Contents(), r) == AfterAppRetire(old(store.Contents()), who, slug, replacedBy)
    {
      hide Editor, Retired;
      var s := store.BySlug(slug);
      if s.None? {
        return NOT_FOUND;
      }
      SlugOnce(store.Contents(), s.value, slug);
      if who.client == "" && !Editor(who) {
        return FORBIDDEN;
      }
      if store.sets[s.value].managed.Builder? && !Editor(who) {
        return Refused(409, "managed_in_builder");
      }
      if store.sets[s.value].locked {
        return Refused(409, "locked");
      }
      r := RetireSet(s.value, replacedBy);
    }

    /** Every definition of the file is normalised before any is stored. */
    method Prepare(imports: seq<Import>) returns (r: Result<seq<Body>, string>)
      ensures r == Prepared(c.limits, imports)
    {
      hide Normalise;
      var bodies: seq<Body> := [];
      var i := 0;
      while i < |imports|
        invariant i <= |imports| && Prepared(c.limits, imports[..i]) == Ok(bodies)
      {
        assert imports[..i + 1][..i] == imports[..i];
        var body := Normalise(c.limits, imports[i].raw);
        if body.Err? {
          PrepareFails(c.limits, imports, i + 1);
          return Err(body.error);
        }
        bodies := bodies + [body.value];
        i := i + 1;
      }
      assert imports[..i] == imports;
      return Ok(bodies);
    }

    method ImportSet(who: Who, body: Body, named: map<string, SetId>, revise: bool, id: SetId, now: Time)
      requires Inv(store.Contents()) && id !in store.sets && forall n :: n in named ==> named[n] in store.sets
      modifies store
      ensures store.Contents() == ImportOne(c, old(store.Contents()), who, body, named, revise, id, now)
    {
      hide Last, Numbered, Mirrors, Drafted, Made;
      var existing: Option<SetId> := None;
      if body.slug != "" {
        existing := store.BySlug(body.slug);
        if existing.Some? {
          SlugOnce(store.Contents(), existing.value, body.slug);
        }
      }
      if existing.None? && body.name in named {
        existing := Some(named[body.name]);
      }
      if existing.Some? && revise {
        var n := WriteDraft(existing.value, body, None, who.user, now);
        return;
      }
      var made := body;
      if existing.Some? {
        made := made.(name := Cut(body.name + " (imported)", MAX_NAME));
        if body.slug != "" {
          var other := store.BySlug(body.slug);
          if other.Some? {
            made := made.(slug := "");
          }
        }
      }
      MakeSet(id, made, who.user, now);
    }

    /** `import_yaml`: all of a file's definitions, or none. */
    method ImportYaml(who: Who, bytes: nat, data: Option<Json>, named: map<string, SetId>, revise: bool,
        ids: seq<SetId>, now: Time)
      returns (r: Result<nat, Reply>)
      requires Inv(store.Contents()) && Fresh(store.Contents(), ids) && Lists(store.Contents(), named)
      requires var bodies := Bodies(c, who, bytes, data); bodies.Ok? ==> |ids| == |bodies.value|
      modifies store
      ensures var bodies := Bodies(c, who, bytes, data);
              if bodies.Err? then r == Err(bodies.error) && store.Contents() == old(store.Contents())
              else && r == Ok(|bodies.value|)
                   && store.Contents() == ImportAll(c, old(store.Contents()), who, bodies.value, named, revise, ids, now)
    {
      hide Inv, Extends, ImportOne, ParseImport, Prepared, Editor;
      if !MayBuild(who) {
        return Err(FORBIDDEN);
      }
      var parsed := ParseImport(bytes, data);
      if parsed.Err? {
        return Err(Refused(400, "invalid_file"));
      }
      var prepared := Prepare(parsed.value);
      if prepared.Err? {
        return Err(Refused(400, "invalid_definition"));
      }
      var bodies := prepared.value;
      ghost var st := store.Contents();
      var i := 0;
      while i < |bodies|
        invariant i <= |bodies| && store.Contents() == ImportAll(c, st, who, bodies[..i], named, revise, ids[..i], now)
      {
        assert bodies[..i + 1][..i] == bodies[..i] && ids[..i + 1][..i] == ids[..i];
        ImportAllKeeps(c, st, who, bodies[..i], named, revise, ids[..i], now);
        FreshAt(st, ids, i);
        ImportSet(who, bodies[i], named, revise, ids[i], now);
        i := i + 1;
      }
      assert bodies[..i] == bodies && ids[..i] == ids;
      return Ok(|bodies|);
    }
  }

  /** A file that this service exported from canonical definitions imports as those very definitions. */
  lemma ExportedFileImports(c: Config, who: Who, bs: seq<Body>, notes: seq<Note>, bytes: nat)
    requires MayBuild(who) && |bs| == |notes| && 1 <= |bs| <= MAX_SETS_PER_FILE && bytes <= MAX_FILE_BYTES
    requires forall i :: 0 <= i < |bs| ==> Canonical(c.limits, bs[i])
    ensures Bodies(c, who, bytes, Some(Dump(Exports(bs, notes)))) == Ok(bs)
  {
    hide Canonical, Normalise, Dump, Exports, ParseImport, Editor;
    ExportImport(c.limits, bs, notes, bytes);
    PreparedIs(c.limits, ParseImport(bytes, Some(Dump(Exports(bs, notes)))).value, bs);
  }

  lemma {:induction false} PreparedIs(l: Limits, imports: seq<Import>, bs: seq<Body>)
    requires |imports| == |bs| && forall i :: 0 <= i < |bs| ==> Normalise(l, imports[i].raw) == Ok(bs[i])
    ensures Prepared(l, imports) == Ok(bs)
    decreases |bs|
  {
    hide Normalise;
    if bs != [] {
      var k := |bs| - 1;
      PreparedIs(l, imports[..k], bs[..k]);
      assert bs == bs[..k] + [bs[k]];
    }
  }

  lemma FreshAt(st: Store, ids: seq<SetId>, i: nat)
    requires Fresh(st, ids) && i < |ids|
    ensures Fresh(st, ids[..i]) && ids[i] !in st.sets && ids[i] !in ids[..i]
  {
  }

  lemma {:induction false} PrepareFails(l: Limits, imports: seq<Import>, i: nat)
    requires i <= |imports| && Prepared(l, imports[..i]).Err?
    ensures Prepared(l, imports) == Prepared(l, imports[..i])
    decreases |imports| - i
  {
    hide Normalise;
    if i == |imports| {
      assert imports[..i] == imports;
    } else {
      assert imports[..i + 1][..i] == imports[..i];
      PrepareFails(l, imports, i + 1);
    }
  }

  // ---------------------------------------------------------------- histories

  datatype Call =
    | CallCreate(who: Who, raw: Json, id: SetId, now: Time)
    | CallSaveDraft(who: Who, id: SetId, raw: Json, now: Time)
    | CallPublish(who: Who, id: SetId, now: Time)
    | CallRetire(who: Who, id: SetId, replacedBy: string)
    | CallSetControl(who: Who, id: SetId, takeOver: Option<bool>, locked: Option<bool>)
    | CallImport(who: Who, bytes: nat, data: Option<Json>, named: map<string, SetId>, revise: bool, ids: seq<SetId>, now: Time)
    | CallAppPublish(who: Who, slug: string, raw: Json, base: Option<nat>, force: bool, publish: bool, id: SetId, now: Time)
    | CallAppRetire(who: Who, slug: string, replacedBy: string)

  /** New ids are new, and a set is found by a name it has. */
  ghost predicate Legal(c: Config, st: Store, call: Call) {
    match call
    case CallCreate(_, _, id, _) => id !in st.sets
    case CallAppPublish(_, _, _, _, _, _, id, _) => id !in st.sets
    case CallImport(who, bytes, data, named, _, ids, _) =>
      var bodies := Bodies(c, who, bytes, data);
      Fresh(st, ids) && Lists(st, named) && (bodies.Ok? ==> |ids| == |bodies.value|)
    case _ => true
  }

  ghost function Step(c: Config, st: Store, call: Call): Store
    requires Inv(st) && Legal(c, st, call)
  {
    match call
    case CallCreate(who, raw, id, now) => AfterCreate(c, st, who, raw, id, now).0
    case CallSaveDraft(who, id, raw, now) => AfterSaveDraft(c, st, who, id, raw, now).0
    case CallPublish(who, id, now) => AfterPublish(st, who, id, now).0
    case CallRetire(who, id, replacedBy) => AfterRetire(st, who, id, replacedBy).0
    case CallSetControl(who, id, takeOver, locked) => AfterSetControl(st, who, id, takeOver, locked).0
    case CallImport(who, bytes, data, named, revise, ids, now) =>
      var bodies := Bodies(c, who, bytes, data);
      if bodies.Err? then st else ImportAll(c, st, who, bodies.value, named, revise, ids, now)
    case CallAppPublish(who, slug, raw, base, force, publish, id, now) =>
      AfterAppPublish(c, st, who, slug, raw, base, force, publish, id, now).0
    case CallAppRetire(who, slug, replacedBy) => AfterAppRetire(st, who, slug, replacedBy).0
  }

  lemma RetiredKeeps(st: Store, id: SetId, replacedBy: string)
    requires Inv(st)
    ensures Keeps(st, Retired(st, id, replacedBy).0)
  {
    hide Inv, Extends;
    SelfExtends(st);
    if id in st.sets {
      ControlKeeps(st, id, Some(replacedBy), None, None);
    }
  }

  lemma StepKeeps(c: Config, st: Store, call: Call)
    requires Inv(st) && Legal(c, st, call)
    ensures Keeps(st, Step(c, st, call))
  {
    hide Inv, Extends, Normalise, HasSlug, TakenByOther, Made, Drafted, AfterPublish, AfterAppPublish, ImportAll,
      Bodies, Controlled, Editor;
    SelfExtends(st);
    match call
    case CallCreate(who, raw, id, now) =>
      var body := Normalise(c.limits, raw);
      if body.Ok? && (body.value.slug == "" || !HasSlug(st, body.value.slug)) {
        MadeKeeps(c, st, id, body.value, who.user, now);
      }
    case CallSaveDraft(who, id, raw, now) =>
      var body := Normalise(c.limits, raw);
      if body.Ok? && id in st.sets {
        DraftedKeeps(c, st, id, body.value, None, who.user, now);
      }
    case CallPublish(who, id, now) =>
      PublishOpKeeps(st, who, id, now);
    case CallRetire(who, id, replacedBy) =>
      RetiredKeeps(st, id, replacedBy);
    case CallSetControl(who, id, takeOver, locked) =>
      if id in st.sets {
        ControlKeeps(st, id, None, if takeOver.None? then None else Some(if takeOver.value then Builder else Application), locked);
      }
    case CallImport(who, bytes, data, named, revise, ids, now) =>
      var bodies := Bodies(c, who, bytes, data);
      if bodies.Ok? {
        ImportAllKeeps(c, st, who, bodies.value, named, revise, ids, now);
      }
    case CallAppPublish(who, slug, raw, base, force, publish, id, now) =>
      AppPublishKeeps(c, st, who, slug, raw, base, force, publish, id, now);
    case CallAppRetire(who, slug, replacedBy) =>
      var s := BySlug(st, slug);
      if s.Some? {
        RetiredKeeps(st, s.value, replacedBy);
      }
  }

  ghost predicate Possible(c: Config, st: Store, calls: seq<Call>)
    requires Inv(st)
    decreases |calls|
  {
    calls == [] || (Legal(c, st, calls[0]) && (StepKeeps(c, st, calls[0]); Possible(c, Step(c, st, calls[0]), calls[1..])))
  }

  ghost function After(c: Config, st: Store, calls: seq<Call>): (t: Store)
    requires Inv(st) && Possible(c, st, calls)
    ensures Inv(t)
    decreases |calls|
  {
    if calls == [] then st else (StepKeeps(c, st, calls[0]); After(c, Step(c, st, calls[0]), calls[1..]))
  }

  const EMPTY := Store(map[], map[])

  lemma EmptyInv()
    ensures Inv(EMPTY)
  {
  }

  lemma {:induction false} RunExtends(c: Config, st: Store, calls: seq<Call>)
    requires Inv(st) && Possible(c, st, calls)
    ensures Extends(st, After(c, st, calls))
    decreases |calls|
  {
    hide Inv, Extends, Step, Legal;
    SelfExtends(st);
    if calls != [] {
      StepKeeps(c, st, calls[0]);
      RunExtends(c, Step(c, st, calls[0]), calls[1..]);
      ExtendsTrans(st, Step(c, st, calls[0]), After(c, st, calls));
    }
  }

  // ---------------------------------------------------------------- the main results

  /** After any calls, by anyone, from an empty store or any other sound one: the revisions of each set are
      numbered 1, 2, ..., n; the current one is the highest published, and the row has its name, description
      and slug; and no two sets share a slug. */
  lemma HistoryIsSound(c: Config, start: Store, calls: seq<Call>)
    requires Inv(start) && Possible(c, start, calls)
    ensures var st := After(c, start, calls);
            && (forall id, n: nat :: id in st.sets ==> (RevKey(id, n) in st.revs <==> 1 <= n <= Last(st, id)))
            && (forall id :: id in st.sets ==> Mirrors(st, id))
            && (forall i, j :: i in st.sets && j in st.sets && i != j && st.sets[i].slug.Some? ==> st.sets[i].slug != st.sets[j].slug)
    ensures Inv(EMPTY)
  {
    hide Mirrors, Last;
    var st := After(c, start, calls);
    forall id, n: nat | id in st.sets ensures RevKey(id, n) in st.revs <==> 1 <= n <= Last(st, id) {
      assert Numbered(st, id);
    }
    EmptyInv();
  }

  /** A published revision, and any that another has followed, is never changed again. */
  lemma FrozenForever(c: Config, st: Store, calls: seq<Call>, k: RevKey)
    requires Inv(st) && Possible(c, st, calls) && Frozen(st, k)
    ensures k in After(c, st, calls).revs && After(c, st, calls).revs[k] == st.revs[k]
  {
    hide Inv, Possible, After, Last;
    RunExtends(c, st, calls);
  }

  /** The rules on who changes what: builders' calls take an editor in the web application; an application
      leaves alone what is retired, locked, managed by editors (unless it acts for one), or has moved on from
      the revision it builds on. */
  ghost predicate MayWrite(st: Store, call: Call) {
    match call
    case CallAppPublish(who, slug, _, base, force, _, _, _) =>
      var s := BySlug(st, slug);
      && (who.client != "" || Editor(who))
      && (s.Some? ==> !st.sets[s.value].retired && AppAllowed(st, who, s.value) && UpToDate(st.sets[s.value], base, force))
    case CallAppRetire(who, slug, _) =>
      var s := BySlug(st, slug);
      (who.client != "" || Editor(who)) && s.Some? && AppAllowed(st, who, s.value)
    case _ => MayBuild(call.who)
  }

  ghost predicate AppAllowed(st: Store, who: Who, id: SetId)
    requires id in st.sets
  {
    !st.sets[id].locked && (st.sets[id].managed.Builder? ==> Editor(who))
  }

  predicate UpToDate(row: Row, base: Option<nat>, force: bool) {
    base.None? || force || row.current == base || (base == Some(0) && row.current.None?)
  }

  lemma OnlyTheAllowedWrite(c: Config, st: Store, call: Call)
    requires Inv(st) && Legal(c, st, call) && Step(c, st, call) != st
    ensures MayWrite(st, call)
  {
    hide Inv, Normalise, HasSlug, TakenByOther, Made, Drafted, ImportAll, ParseImport, Prepared, Controlled, Editor,
      BySlug, AppWrite, Sent, AppSets,
      Unchanged, RevisionsSince, PublishRevision, Last;
  }

  lemma DraftedRows(c: Config, st: Store, q: SetId, body: Body, client: Option<string>, user: string, now: Time)
    requires q in st.sets
    ensures Drafted(c, st, q, body, client, user, now).0.sets == st.sets
  {
    hide Last;
  }

  lemma MadeRows(c: Config, st: Store, q: SetId, body: Body, user: string, now: Time)
    requires q !in st.sets
    ensures forall id :: id in st.sets ==> id in Made(c, st, q, body, user, now).sets && Made(c, st, q, body, user, now).sets[id] == st.sets[id]
  {
    hide Last;
  }

  lemma ImportedRow(c: Config, st: Store, who: Who, body: Body, named: map<string, SetId>, revise: bool, q: SetId, now: Time)
    requires q !in st.sets && forall n :: n in named ==> named[n] in st.sets
    ensures var t := ImportOne(c, st, who, body, named, revise, q, now);
            forall id :: id in st.sets ==> id in t.sets && t.sets[id] == st.sets[id]
  {
    hide Made, Drafted, Renamed;
    var existing := Existing(st, named, body);
    if existing.Some? && revise {
      DraftedRows(c, st, existing.value, body, None, who.user, now);
    } else {
      MadeRows(c, st, q, if existing.Some? then Renamed(st, body) else body, who.user, now);
    }
  }

  lemma {:induction false} ImportedRows(c: Config, st: Store, who: Who, bodies: seq<Body>, named: map<string, SetId>,
      revise: bool, ids: seq<SetId>, now: Time)
    requires Inv(st) && |ids| == |bodies| && Fresh(st, ids) && forall n :: n in named ==> named[n] in st.sets
    ensures var t := ImportAll(c, st, who, bodies, named, revise, ids, now);
            forall id :: id in st.sets ==> id in t.sets && t.sets[id] == st.sets[id]
    decreases |bodies|
  {
    hide Inv, Extends, ImportOne;
    if bodies != [] {
      var k := |bodies| - 1;
      ImportedRows(c, st, who, bodies[..k], named, revise, ids[..k], now);
      ImportAllKeeps(c, st, who, bodies[..k], named, revise, ids[..k], now);
      FreshAt(st, ids, k);
      ImportedRow(c, ImportAll(c, st, who, bodies[..k], named, revise, ids[..k], now), who, bodies[k], named, revise, ids[k], now);
    }
  }

  /** Only publishing makes another revision current: drafts, imports and controls never do. */
  lemma OnlyPublishingMovesCurrent(c: Config, st: Store, call: Call, id: SetId)
    requires Inv(st) && Legal(c, st, call) && id in st.sets && id in Step(c, st, call).sets
    requires Step(c, st, call).sets[id].current != st.sets[id].current
    ensures call.CallPublish? || (call.CallAppPublish? && call.publish)
    ensures if call.CallPublish? then call.id == id else st.sets[id].slug == Some(call.slug)
  {
    hide Inv, Normalise, HasSlug, TakenByOther, Made, Drafted, ImportAll, Bodies, Editor, Sent, AppSets, Unchanged,
      AppRefused, Last, AddRevision;
    match call
    case CallCreate(who, raw, q, now) =>
      var body := Normalise(c.limits, raw);
      if body.Ok? {
        MadeRows(c, st, q, body.value, who.user, now);
      }
    case CallSaveDraft(who, q, raw, now) =>
      var body := Normalise(c.limits, raw);
      if body.Ok? && q in st.sets {
        DraftedRows(c, st, q, body.value, None, who.user, now);
      }
    case CallImport(who, bytes, data, named, revise, ids, now) =>
      var bodies := Bodies(c, who, bytes, data);
      if bodies.Ok? {
        ImportedRows(c, st, who, bodies.value, named, revise, ids, now);
      }
    case CallAppPublish(who, slug, raw, base, force, publish, q, now) =>
      AppPublishRows(c, st, call, id);
    case _ =>
  }

  lemma AppPublishRows(c: Config, st: Store, call: Call, id: SetId)
    requires Inv(st) && call.CallAppPublish? && Legal(c, st, call) && id in st.sets && id in Step(c, st, call).sets
    requires Step(c, st, call).sets[id].current != st.sets[id].current
    ensures call.publish && st.sets[id].slug == Some(call.slug)
  {
    hide Inv, Normalise, HasSlug, Drafted, Editor, Sent, AppSets, Unchanged, AppRefused, Last;
    var normal := Normalise(c.limits, Sent(call.raw, call.slug));
    if normal.Ok? && !call.publish {
      var body, s := normal.value, BySlug(st, call.slug);
      if s.Some? {
        DraftedRows(c, st, s.value, body, Some(call.who.client), call.who.user, call.now);
      } else {
        var st1 := st.(sets := st.sets[call.id := NewRow(call.slug, body.name, body.description, Application, call.who.user)]);
        DraftedRows(c, st1, call.id, body, Some(call.who.client), call.who.user, call.now);
      }
    }
  }

  lemma AtMostOneMore<T>(a: set<T>, b: set<T>, x: T)
    requires b <= a + {x}
    ensures |b| <= |a| + 1
  {
    assert b - {x} <= a;
    SubsetSize(b - {x}, a);
    assert |b - {x}| >= |b| - 1;
  }

  lemma SubsetSize<T>(a: set<T>, b: set<T>)
    requires a <= b
    ensures |a| <= |b|
  {
    assert |b - a| == |b| - |a|;
  }

  /** A write adds at most one recent revision to a set. */
  lemma WriteAddsOne(c: Config, st: Store, who: Who, id: SetId, body: Body, publish: bool, status: nat, now: Time,
      since: Time)
    requires id in st.sets
    ensures var t := AppWrite(c, st, who, id, body, publish, status, now).0;
            RevisionsSince(t, id, since) <= RevisionsSince(st, id, since) + 1 && AppSets(t) == AppSets(st)
  {
    hide Last, AppWrite;
    WriteTouchesOne(c, st, who, id, body, publish, status, now);
    var t := AppWrite(c, st, who, id, body, publish, status, now).0;
    var n := Last(st, id);
    var k := if !publish && IsDraft(st, id, n) then RevKey(id, n) else RevKey(id, n + 1);
    var before, later := set q | q in st.revs && q.id == id && st.revs[q].created >= since, set q | q in t.revs && q.id == id && t.revs[q].created >= since;
    assert later <= before + {k};
    AtMostOneMore(before, later, k);
    WriteKeepsManaged(c, st, who, id, body, publish, status, now);
    assert (set q | q in t.sets && t.sets[q].managed.Application?) == (set q | q in st.sets && st.sets[q].managed.Application?);
  }

  lemma WriteKeepsManaged(c: Config, st: Store, who: Who, id: SetId, body: Body, publish: bool, status: nat, now: Time)
    requires id in st.sets
    ensures var t := AppWrite(c, st, who, id, body, publish, status, now).0;
            t.sets.Keys == st.sets.Keys && forall q :: q in t.sets ==> t.sets[q].managed == st.sets[q].managed
  {
    hide Last;
  }

  lemma WriteTouchesOne(c: Config, st: Store, who: Who, id: SetId, body: Body, publish: bool, status: nat, now: Time)
    requires id in st.sets
    ensures var t, n := AppWrite(c, st, who, id, body, publish, status, now).0, Last(st, id);
            var k := if !publish && IsDraft(st, id, n) then RevKey(id, n) else RevKey(id, n + 1);
            forall q :: q in t.revs && q != k ==> q in st.revs && t.revs[q] == st.revs[q]
  {
    hide Last;
  }

  /** What applications can add is limited: a new set only while there are fewer than the cap, a write to a
      set only while it has had fewer revisions than the limit in the last day. */
  lemma ApplicationsAreLimited(c: Config, st: Store, who: Who, slug: string, raw: Json, base: Option<nat>,
      force: bool, publish: bool, id: SetId, now: Time)
    requires id !in st.sets
    ensures var t := AfterAppPublish(c, st, who, slug, raw, base, force, publish, id, now).0;
            t != st ==>
              if BySlug(st, slug).None? then AppSets(t) <= c.appMaxSets && AppSets(t) == AppSets(st) + 1
              else AppSets(t) == AppSets(st) && RevisionsSince(t, BySlug(st, slug).value, now - DAY) <= c.appRevisionsPerDay
  {
    hide Normalise, Sent, Editor, AppWrite, AppSets, RevisionsSince, Unchanged, BySlug;
    var normal := Normalise(c.limits, Sent(raw, slug));
    if normal.Ok? {
      var body, s := normal.value, BySlug(st, slug);
      if s.Some? {
        WriteAddsOne(c, st, who, s.value, body, publish, 200, now, now - DAY);
      } else {
        var st1 := st.(sets := st.sets[id := NewRow(slug, body.name, body.description, Application, who.user)]);
        WriteAddsOne(c, st1, who, id, body, publish, 201, now, now - DAY);
        NewAppSet(st, id, slug, body.name, body.description, who.user);
      }
    }
  }

  lemma NewAppSet(st: Store, id: SetId, slug: string, name: string, description: string, user: string)
    requires id !in st.sets
    ensures AppSets(st.(sets := st.sets[id := NewRow(slug, name, description, Application, user)])) == AppSets(st) + 1
  {
    var t := st.(sets := st.sets[id := NewRow(slug, name, description, Application, user)]);
    assert (set q | q in t.sets && t.sets[q].managed.Application?) == (set q | q in st.sets && st.sets[q].managed.Application?) + {id};
  }

  /** `resolve_for_run`: the revision and definition a run uses. */
  function ResolveForRun(st: Store, id: SetId, revision: Option<nat>): Result<(nat, Body), Reply> {
    if id !in st.sets || st.sets[id].current.None? then Err(NOT_FOUND)
    else if st.sets[id].retired then Err(Refused(410, "prompt_set_retired"))
    else
      var n := if revision.Some? then revision.value else st.sets[id].current.value;
      var k := RevKey(id, n);
      if k !in st.revs || !st.revs[k].state.Published? then Err(NOT_FOUND) else Ok((n, st.revs[k].body))
  }

  /** A pinned revision that resolved once resolves to the same definition ever after, until its set is
      retired; and without a pin, a run gets the highest published revision. */
  lemma PinnedStaysPut(c: Config, st: Store, calls: seq<Call>, id: SetId, n: nat)
    requires Inv(st) && Possible(c, st, calls) && ResolveForRun(st, id, Some(n)).Ok?
    ensures var t := After(c, st, calls);
            id in t.sets && ResolveForRun(t, id, Some(n)) ==
                            if t.sets[id].retired then Err(Refused(410, "prompt_set_retired")) else ResolveForRun(st, id, Some(n))
    ensures var r := ResolveForRun(st, id, None);
            r.Ok? && forall m: nat :: m > r.value.0 && RevKey(id, m) in st.revs ==> IsDraft(st, id, m)
  {
    hide Possible, After, Last, Numbered;
    var t := After(c, st, calls);
    RunExtends(c, st, calls);
    assert Frozen(st, RevKey(id, n));
    assert Mirrors(st, id) && Mirrors(t, id);
    assert t.sets[id].current.None? ==> IsDraft(t, id, n);
  }

  /** An application that publishes what is current already writes nothing, whoever manages the set and
      whatever revision it thinks it builds on. */
  lemma IdenticalPublishWritesNothing(c: Config, st: Store, who: Who, slug: string, raw: Json, base: Option<nat>,
      force: bool, id: SetId, now: Time)
    requires (who.client != "" || Editor(who)) && Normalise(c.limits, Sent(raw, slug)).Ok?
    requires BySlug(st, slug).Some? && !st.sets[BySlug(st, slug).value].retired
    requires Unchanged(c, st, BySlug(st, slug).value, Normalise(c.limits, Sent(raw, slug)).value)
    ensures AfterAppPublish(c, st, who, slug, raw, base, force, true, id, now) ==
            (st, Done(200, BySlug(st, slug).value, st.sets[BySlug(st, slug).value].current.value, false))
  {
    hide Normalise, Sent, BySlug, Unchanged;
  }

  /** What a write by an application leaves: its definition, current. */
  lemma WrittenIsCurrent(c: Config, st: Store, who: Who, id: SetId, body: Body, status: nat, now: Time)
    requires id in st.sets && (body.slug == "" || st.sets[id].slug == Some(body.slug))
    ensures var (t, r) := AppWrite(c, st, who, id, body, true, status, now);
            r == Done(status, id, Last(st, id) + 1, true) && id in t.sets && t.sets[id].slug == st.sets[id].slug && !t.sets[id].retired &&
            t.sets[id].current == Some(r.revision) && Unchanged(c, t, id, body)
  {
    hide Last;
  }

  lemma PublishedIsCurrent(c: Config, st: Store, who: Who, slug: string, raw: Json, base: Option<nat>, force: bool,
      id: SetId, now: Time)
    requires slug != "" && AfterAppPublish(c, st, who, slug, raw, base, force, true, id, now).1.Done?
    ensures var (t, r) := AfterAppPublish(c, st, who, slug, raw, base, force, true, id, now);
            && Normalise(c.limits, Sent(raw, slug)).Ok?
            && r.id in t.sets && t.sets[r.id].slug == Some(slug) && !t.sets[r.id].retired && t.sets[r.id].current == Some(r.revision)
            && Unchanged(c, t, r.id, Normalise(c.limits, Sent(raw, slug)).value)
  {
    hide Normalise, Sent, Unchanged, AppRefused, AppWrite, Editor, AppSets, HasSlug;
    SentSlug(c.limits, raw, slug);
    var body, s := Normalise(c.limits, Sent(raw, slug)).value, BySlug(st, slug);
    if s.None? {
      WrittenIsCurrent(c, st.(sets := st.sets[id := NewRow(slug, body.name, body.description, Application, who.user)]), who, id, body, 201, now);
    } else {
      WrittenIsCurrent(c, st, who, s.value, body, 200, now);
      UnchangedHasCurrent(c, st, s.value, body);
    }
  }

  lemma UnchangedHasCurrent(c: Config, st: Store, id: SetId, body: Body)
    requires id in st.sets
    ensures Unchanged(c, st, id, body) ==> st.sets[id].current.Some?
  {
  }

  /** So publishing twice is publishing once: the second call, by any application, answers with the revision
      the first one wrote. */
  lemma PublishTwice(c: Config, st: Store, who: Who, other: Who, slug: string, raw: Json, base: Option<nat>,
      force: bool,
                     base2: Option<nat>, force2: bool, id: SetId, id2: SetId, now: Time, later: Time)
    requires Inv(st) && id !in st.sets && slug != "" && (other.client != "" || Editor(other))
    requires var r := AfterAppPublish(c, st, who, slug, raw, base, force, true, id, now).1; r.Done?
    ensures var (t, r) := AfterAppPublish(c, st, who, slug, raw, base, force, true, id, now);
            AfterAppPublish(c, t, other, slug, raw, base2, force2, true, id2, later) == (t, Done(200, r.id, r.revision, false))
  {
    hide Normalise, Sent, BySlug, Numbered, Mirrors, Last, HasSlug, SlugsUnique, Unchanged, AfterAppPublish;
    var (t, r) := AfterAppPublish(c, st, who, slug, raw, base, force, true, id, now);
    AppPublishKeeps(c, st, who, slug, raw, base, force, true, id, now);
    PublishedIsCurrent(c, st, who, slug, raw, base, force, id, now);
    SlugOnce(t, r.id, slug);
    IdenticalPublishWritesNothing(c, t, other, slug, raw, base2, force2, id2, later);
  }

  /** A definition imported beside one of the same name is renamed; the new name is in canonical form unless
      the old one is exactly one character short of the limit: it then ends in the blank before "(imported)". */
  lemma ImportedNameTrimmed(name: string)
    requires Trimmed(name, MAX_NAME) && name != ""
    ensures Trimmed(Cut(name + " (imported)", MAX_NAME), MAX_NAME) <==> |name| != MAX_NAME - 1
  {
    var cut := Cut(name + " (imported)", MAX_NAME);
    assert cut[0] == name[0];
    var last := |cut| - 1;
    if last >= |name| {
      assert cut[last] == " (imported)"[last - |name|];
      assert forall i :: 1 <= i < 11 ==> !IsSpace(" (imported)"[i]);
    } else {
      assert cut[last] == name[last];
    }
  }
}
