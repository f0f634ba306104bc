/** Calls on prompt sets that overlap. A call reads the open draft in one transaction and writes in another;
    each write is atomic, with a lock on the set's row and a unique index on slugs. */
module PromptSetRaces {
  import opened Wrappers
  import opened PromptSets
  import opened PromptSetStore
  import S = PromptSetService

  type Caller = nat

  /** What a caller has read: the set's open draft, if it had one. */
  datatype Seen = Seen(id: SetId, draft: Option<nat>)

  datatype State = State(st: Store, seen: map<Caller, Seen>)

  datatype Action =
    | See(g: Caller, id: SetId)
    | Fill(g: Caller, rev: Rev)                      // into the draft seen, or a new one
    | Release(g: Caller, now: Time)                  // publish the draft seen
    | Leave(g: Caller)
    | Append(id: SetId, rev: Rev)
    | NewSet(id: SetId, slug: string, name: string, description: string, managed: Managed, user: string)
    | Control(id: SetId, retire: Option<string>, takeOver: Option<Managed>, locked: Option<bool>)

  predicate Enabled(s: State, a: Action) {
    match a
    case See(g, id) => g !in s.seen && id in s.st.sets
    case Fill(g, rev) => g in s.seen && s.seen[g].id in s.st.sets && rev.state.Draft?
    case Release(g, _) => g in s.seen && s.seen[g].id in s.st.sets && s.seen[g].draft.Some?
    case Leave(g) => g in s.seen
    case Append(id, _) => id in s.st.sets
    case NewSet(id, _, _, _, _, _) => id !in s.st.sets
    case Control(id, _, _, _) => id in s.st.sets
  }

  ghost function Drafts(st: Store, id: SetId): Option<nat> {
    if IsDraft(st, id, Last(st, id)) then Some(Last(st, id)) else None
  }

  function Gone(s: State, g: Caller): State {
    s.(seen := s.seen - {g})
  }

  /** A publication whose slug another set has is rolled back. */
  ghost function Appended(st: Store, id: SetId, rev: Rev): Store
    requires id in st.sets
  {
    if rev.state.Published? && !SlugFree(st, id, rev.body.slug) then st else AddRevision(st, id, rev)
  }

  ghost function Released(st: Store, id: SetId, n: nat, now: Time): Store
    requires id in st.sets
  {
    if IsDraft(st, id, n) && !SlugFree(st, id, st.revs[RevKey(id, n)].body.slug) then st else PublishRevision(st, id, n, now)
  }

  ghost function Filled(st: Store, seen: Seen, rev: Rev): Store
    requires seen.id in st.sets
  {
    if seen.draft.Some? then UpdateDraft(st, seen.id, seen.draft.value, rev.body, rev.hash, rev.author, rev.created)
    else AddRevision(st, seen.id, rev)
  }

  ghost function Do(s: State, a: Action): State
    requires Enabled(s, a)
  {
    match a
    case See(g, id) => s.(seen := s.seen[g := Seen(id, Drafts(s.st, id))])
    case Fill(g, rev) => Gone(s, g).(st := Filled(s.st, s.seen[g], rev))
    case Release(g, now) => Gone(s, g).(st := Released(s.st, s.seen[g].id, s.seen[g].draft.value, now))
    case Leave(g) => Gone(s, g)
    case Append(id, rev) => s.(st := Appended(s.st, id, rev))
    case NewSet(id, slug, name, description, managed, user) =>
      if slug != "" && HasSlug(s.st, slug) then s
      else s.(st := s.st.(sets := s.st.sets[id := NewRow(slug, name, description, managed, user)]))
    case Control(id, retire, managed, locked) =>
      s.(st := s.st.(sets := s.st.sets[id := Controlled(s.st.sets[id], retire, managed, locked)]))
  }

  ghost predicate Possible(s: State, run: seq<Action>)
    decreases |run|
  {
    run == [] || (Enabled(s, run[0]) && Possible(Do(s, run[0]), run[1..]))
  }

  ghost function After(s: State, run: seq<Action>): State
    requires Possible(s, run)
    decreases |run|
  {
    if run == [] then s else After(Do(s, run[0]), run[1..])
  }

  // ---------------------------------------------------------------- a call by itself is two steps

  /** Saving a draft undisturbed is reading the open draft and filling it. */
  lemma SaveIsTwoSteps(c: S.Config, s: State, g: Caller, id: SetId, body: Body, client: Option<string>, user: string, now: Time)
    requires Enabled(s, See(g, id))
    ensures var rev := S.NewRev(c, body, Draft, client, user, now);
            Possible(s, [See(g, id), Fill(g, rev)]) &&
            After(s, [See(g, id), Fill(g, rev)]) == s.(st := S.Drafted(c, s.st, id, body, client, user, now).0)
  {
    hide Last;
    var rev := S.NewRev(c, body, Draft, client, user, now);
    var t := Do(s, See(g, id));
    assert t.seen - {g} == s.seen;
    TwoSteps(s, See(g, id), Fill(g, rev));
  }

  /** And so is publishing. */
  lemma PublishIsTwoSteps(s: State, who: S.Who, g: Caller, id: SetId, now: Time)
    requires Inv(s.st) && Enabled(s, See(g, id)) && S.AfterPublish(s.st, who, id, now).1.Done?
    ensures Possible(s, [See(g, id), Release(g, now)]) &&
            After(s, [See(g, id), Release(g, now)]) == s.(st := S.AfterPublish(s.st, who, id, now).0)
  {
    hide Last, Inv, PublishRevision, S.TakenByOther;
    var t := Do(s, See(g, id));
    assert t.seen - {g} == s.seen;
    S.FreeUnlessTaken(s.st, id, s.st.revs[RevKey(id, Last(s.st, id))].body.slug);
    TwoSteps(s, See(g, id), Release(g, now));
  }

  lemma TwoSteps(s: State, a: Action, b: Action)
    requires Enabled(s, a) && Enabled(Do(s, a), b)
    ensures Possible(s, [a, b]) && After(s, [a, b]) == Do(Do(s, a), b)
  {
    hide Enabled, Do;
    assert [a, b][1..] == [b] && [b][1..] == [];
    var t := Do(s, a);
    assert Possible(Do(t, b), []) && After(Do(t, b), []) == Do(t, b);
    assert Possible(t, [b]) && After(t, [b]) == Do(t, b);
  }

  // ---------------------------------------------------------------- when the history survives a step

  /** A write into a draft that is no longer the set's last revision, and that changes it. */
  ghost predicate Stale(s: State, a: Action)
    requires Enabled(s, a)
  {
    (a.Fill? || a.Release?) && s.seen[a.g].draft.Some? && s.seen[a.g].draft.value != Last(s.st, s.seen[a.g].id) && Do(s, a).st != s.st
  }

  /** A publication of a draft after a later revision was published. */
  ghost predicate Overtaken(s: State, a: Action)
    requires Enabled(s, a)
  {
    a.Release? && Do(s, a).st != s.st &&
    exists m: nat :: m > s.seen[a.g].draft.value && PublishedAt(s.st, s.seen[a.g].id, m)
  }

  predicate PublishedAt(st: Store, id: SetId, n: nat) {
    RevKey(id, n) in st.revs && st.revs[RevKey(id, n)].state.Published?
  }

  lemma FilledKeeps(st: Store, id: SetId, n: nat, rev: Rev)
    requires Inv(st) && id in st.sets
    ensures Inv(UpdateDraft(st, id, n, rev.body, rev.hash, rev.author, rev.created))
  {
    hide Last, Numbered, Mirrors, SlugsUnique;
    var t := UpdateDraft(st, id, n, rev.body, rev.hash, rev.author, rev.created);
    SameKeysKeep(st, t);
    forall q | q in t.sets ensures Mirrors(t, q) {
      if q == id {
        DraftMirrors(st, id, n, rev.body, rev.hash, rev.author, rev.created);
      } else {
        OthersMirror(st, t, id, q);
      }
    }
    SameSlugs(st, t);
  }

  /** Publishing a draft keeps the history sound exactly when no later revision of its set is published. */
  lemma ReleaseSoundIff(st: Store, id: SetId, n: nat, now: Time)
    requires Inv(st) && id in st.sets && IsDraft(st, id, n) && SlugFree(st, id, st.revs[RevKey(id, n)].body.slug)
    ensures Inv(PublishRevision(st, id, n, now)) <==> forall m: nat :: m > n ==> !PublishedAt(st, id, m)
  {
    hide Last, Numbered, Mirrors;
    var t := PublishRevision(st, id, n, now);
    assert t.revs.Keys == st.revs.Keys;
    SameKeysKeep(st, t);
    MirrorsIff(st, id, n, now);
    forall q | q in t.sets && q != id ensures Mirrors(t, q) {
      OthersMirror(st, t, id, q);
    }
    assert SlugsUnique(t);
  }

  lemma MirrorsIff(st: Store, id: SetId, n: nat, now: Time)
    requires id in st.sets && IsDraft(st, id, n)
    ensures Mirrors(PublishRevision(st, id, n, now), id) <==> forall m: nat :: m > n ==> !PublishedAt(st, id, m)
  {
    var t := PublishRevision(st, id, n, now);
    forall m: nat | m > n ensures PublishedAt(st, id, m) <==> RevKey(id, m) in t.revs && !IsDraft(t, id, m) {}
  }

  /** Whatever else goes on, a step leaves the history sound exactly when it does not publish a draft that a
      published revision has overtaken. */
  lemma SoundIff(s: State, a: Action)
    requires Inv(s.st) && Enabled(s, a)
    ensures Inv(Do(s, a).st) <==> !Overtaken(s, a)
  {
    hide Inv, Last, UpdateDraft, AddRevision, PublishRevision, SlugFree;
    match a
    case Fill(g, rev) =>
      if s.seen[g].draft.Some? {
        FilledKeeps(s.st, s.seen[g].id, s.seen[g].draft.value, rev);
      } else {
        AddKeeps(s.st, s.seen[g].id, rev);
      }
    case Release(g, now) =>
      ReleaseStep(s, g, now);
    case _ =>
      OthersSurvive(s, a);
  }

  lemma ReleaseStep(s: State, g: Caller, now: Time)
    requires Inv(s.st) && Enabled(s, Release(g, now))
    ensures Inv(Do(s, Release(g, now)).st) <==> !Overtaken(s, Release(g, now))
  {
    hide Inv, Last, PublishRevision, SlugFree;
    var id, n := s.seen[g].id, s.seen[g].draft.value;
    if IsDraft(s.st, id, n) && SlugFree(s.st, id, s.st.revs[RevKey(id, n)].body.slug) {
      ReleaseSoundIff(s.st, id, n, now);
      ReleaseChanges(s.st, id, n, now);
    } else {
      NoRelease(s.st, id, n, now);
    }
  }

  lemma ReleaseChanges(st: Store, id: SetId, n: nat, now: Time)
    requires IsDraft(st, id, n) && id in st.sets
    ensures PublishRevision(st, id, n, now) != st && PublishRevision(st, id, n, now).revs[RevKey(id, n)] != st.revs[RevKey(id, n)]
  {
    assert PublishRevision(st, id, n, now).revs[RevKey(id, n)].state.Published?;
  }

  lemma NoRelease(st: Store, id: SetId, n: nat, now: Time)
    requires id in st.sets
    ensures !IsDraft(st, id, n) ==> PublishRevision(st, id, n, now) == st
  {
  }

  /** Steps that write into no draft seen before keep everything. */
  lemma OthersSurvive(s: State, a: Action)
    requires Inv(s.st) && Enabled(s, a) && !a.Fill? && !a.Release?
    ensures Inv(Do(s, a).st) && Extends(s.st, Do(s, a).st)
  {
    hide Inv, Extends, Last, AddRevision, SlugFree, HasSlug;
    S.SelfExtends(s.st);
    match a
    case Append(id, rev) =>
      if rev.state.Draft? || SlugFree(s.st, id, rev.body.slug) {
        AddKeeps(s.st, id, rev);
      }
    case NewSet(id, slug, name, description, managed, user) =>
      if slug == "" || !HasSlug(s.st, slug) {
        CreateKeeps(s.st, id, slug, name, description, managed, user);
      }
    case Control(id, retire, managed, locked) =>
      ControlKeeps(s.st, id, retire, managed, locked);
    case _ =>
  }

  /** A change to a draft that another revision has followed is a change to something frozen. */
  lemma FrozenChange(st: Store, t: Store, id: SetId, n: nat)
    requires Inv(st) && id in st.sets && RevKey(id, n) in st.revs && n != Last(st, id)
    requires RevKey(id, n) in t.revs ==> t.revs[RevKey(id, n)] != st.revs[RevKey(id, n)]
    ensures !Extends(st, t)
  {
    hide Mirrors, SlugsUnique, Last;
    assert Numbered(st, id);
    assert Frozen(st, RevKey(id, n));
  }

  /** A step keeps the history sound and everything frozen as it was exactly when it is not stale. */
  lemma SurvivesStepIff(s: State, a: Action)
    requires Inv(s.st) && Enabled(s, a)
    ensures Inv(Do(s, a).st) && Extends(s.st, Do(s, a).st) <==> !Stale(s, a)
  {
    hide Inv, Extends, Last, AddRevision, SlugFree, HasSlug;
    if a.Fill? || a.Release? {
      if a.Fill? && s.seen[a.g].draft.None? {
        AddKeeps(s.st, s.seen[a.g].id, a.rev);
      } else {
        DraftStep(s, a);
      }
    } else {
      OthersSurvive(s, a);
    }
  }

  lemma DraftStep(s: State, a: Action)
    requires Inv(s.st) && Enabled(s, a) && (a.Fill? || a.Release?) && s.seen[a.g].draft.Some?
    ensures Inv(Do(s, a).st) && Extends(s.st, Do(s, a).st) <==> !Stale(s, a)
  {
    hide Inv, Extends, Last, SlugFree, PublishRevision, UpdateDraft;
    var id, n := s.seen[a.g].id, s.seen[a.g].draft.value;
    var t := Do(s, a).st;
    if t == s.st {
      S.SelfExtends(s.st);
    } else {
      Changed(s, a);
      if n != Last(s.st, id) {
        FrozenChange(s.st, t, id, n);
      } else if a.Fill? {
        DraftKeeps(s.st, id, n, a.rev.body, a.rev.hash, a.rev.author, a.rev.created);
      } else {
        PublishKeeps(s.st, id, n, a.now);
      }
    }
  }

  /** A write that changes anything found its revision still a draft, and changed that revision. */
  lemma Changed(s: State, a: Action)
    requires Enabled(s, a) && (a.Fill? || a.Release?) && s.seen[a.g].draft.Some? && Do(s, a).st != s.st
    ensures var id, n := s.seen[a.g].id, s.seen[a.g].draft.value;
            && IsDraft(s.st, id, n) && RevKey(id, n) in Do(s, a).st.revs
            && Do(s, a).st.revs[RevKey(id, n)] != s.st.revs[RevKey(id, n)]
            && (a.Release? ==> SlugFree(s.st, id, s.st.revs[RevKey(id, n)].body.slug) && Do(s, a).st == PublishRevision(s.st, id, n, a.now))
  {
    hide SlugFree, Last;
    var id, n := s.seen[a.g].id, s.seen[a.g].draft.value;
    var k, t := RevKey(id, n), Do(s, a).st;
    if a.Release? {
      assert t.revs[k].state.Published?;
    } else {
      assert t.revs[k] == s.st.revs[k] ==> t.revs == s.st.revs;
    }
  }

  // ---------------------------------------------------------------- and a whole run

  /** The history is sound after every step, and no step changes anything frozen. */
  ghost predicate Survives(s: State, run: seq<Action>)
    requires Possible(s, run)
    decreases |run|
  {
    Inv(s.st) && (run == [] || (Extends(s.st, Do(s, run[0]).st) && Survives(Do(s, run[0]), run[1..])))
  }

  ghost predicate NeverStale(s: State, run: seq<Action>)
    requires Possible(s, run)
    decreases |run|
  {
    run == [] || (!Stale(s, run[0]) && NeverStale(Do(s, run[0]), run[1..]))
  }

  ghost predicate NeverOvertaken(s: State, run: seq<Action>)
    requires Possible(s, run)
    decreases |run|
  {
    run == [] || (!Overtaken(s, run[0]) && NeverOvertaken(Do(s, run[0]), run[1..]))
  }

  ghost predicate SoundThroughout(s: State, run: seq<Action>)
    requires Possible(s, run)
    decreases |run|
  {
    Inv(s.st) && (run == [] || SoundThroughout(Do(s, run[0]), run[1..]))
  }

  /** However calls overlap, the history survives exactly when no caller writes into a draft that another
      revision has followed since the caller read it; and it stays sound exactly when no caller publishes a draft
      that a published revision has overtaken. */
  lemma {:induction false} HistorySurvivesIff(s: State, run: seq<Action>)
    requires Inv(s.st) && Possible(s, run)
    ensures Survives(s, run) <==> NeverStale(s, run)
    ensures SoundThroughout(s, run) <==> NeverOvertaken(s, run)
    decreases |run|
  {
    hide Inv, Extends, Enabled, Do, Stale, Overtaken;
    if run != [] {
      SurvivesStepIff(s, run[0]);
      SoundIff(s, run[0]);
      var t := Do(s, run[0]);
      if Inv(t.st) {
        HistorySurvivesIff(t, run[1..]);
      } else {
        Unsound(t, run[1..]);
      }
    }
  }

  lemma Unsound(s: State, run: seq<Action>)
    requires !Inv(s.st) && Possible(s, run)
    ensures !Survives(s, run) && !SoundThroughout(s, run)
  {
  }

  /** What survives is what each call promises alone: whatever was frozen at the start is as it was. */
  lemma {:induction false} SurvivorsKeepFrozen(s: State, run: seq<Action>)
    requires Inv(s.st) && Possible(s, run) && NeverStale(s, run)
    ensures Inv(After(s, run).st) && Extends(s.st, After(s, run).st)
    decreases |run|
  {
    hide Inv, Extends, Enabled, Do, Stale;
    S.SelfExtends(s.st);
    if run != [] {
      var t := Do(s, run[0]);
      SurvivesStepIff(s, run[0]);
      SurvivorsKeepFrozen(t, run[1..]);
      ExtendsTrans(s.st, t.st, After(s, run).st);
    }
  }

  // ---------------------------------------------------------------- what makes a caller's draft stale

  /** Whether a step adds a revision to the set. */
  ghost predicate Adds(s: State, a: Action, id: SetId)
    requires Enabled(s, a)
  {
    match a
    case Append(q, rev) => q == id && (rev.state.Published? ==> SlugFree(s.st, id, rev.body.slug))
    case Fill(g, _) => s.seen[g].id == id && s.seen[g].draft.None?
    case _ => false
  }

  ghost function Additions(s: State, run: seq<Action>, id: SetId): nat
    requires Possible(s, run)
    decreases |run|
  {
    if run == [] then 0 else (if Adds(s, run[0], id) then 1 else 0) + Additions(Do(s, run[0]), run[1..], id)
  }

  lemma LastAfterStep(s: State, a: Action, id: SetId)
    requires Enabled(s, a)
    ensures Last(Do(s, a).st, id) == Last(s.st, id) + if Adds(s, a, id) then 1 else 0
  {
    hide Last, SlugFree, HasSlug;
    match a
    case Append(q, rev) => LastAfterAdd(s.st, q, rev, id);
    case Fill(g, rev) =>
      if s.seen[g].draft.None? {
        LastAfterAdd(s.st, s.seen[g].id, rev, id);
      } else {
        LastAfterChange(s.st, Do(s, a).st, id);
      }
    case _ =>
      assert Do(s, a).st.revs.Keys == s.st.revs.Keys;
      LastAfterChange(s.st, Do(s, a).st, id);
  }

  lemma {:induction false} LastAfterRun(s: State, run: seq<Action>, id: SetId)
    requires Possible(s, run)
    ensures Last(After(s, run).st, id) == Last(s.st, id) + Additions(s, run, id)
    decreases |run|
  {
    hide Last, Enabled, Do, Adds;
    if run != [] {
      LastAfterStep(s, run[0], id);
      LastAfterRun(Do(s, run[0]), run[1..], id);
    }
  }

  /** A draft that a caller has read stops being the set's last revision exactly when somebody adds a revision to
      the set before the caller writes. */
  lemma PassedIffAdded(s: State, g: Caller, id: SetId, between: seq<Action>)
    requires Enabled(s, See(g, id)) && Possible(Do(s, See(g, id)), between) && Drafts(s.st, id).Some?
    ensures var t := Do(s, See(g, id));
            t.seen[g] == Seen(id, Some(Last(s.st, id))) &&
            (Last(After(t, between).st, id) != t.seen[g].draft.value <==> Additions(t, between, id) > 0)
  {
    hide Last, Possible, After;
    LastAfterRun(Do(s, See(g, id)), between, id);
  }

  // ---------------------------------------------------------------- runs that break it

  /** An application keeps a draft in a set of its own; an editor reads it, to publish it or to save over it; and
      before the editor writes, the application publishes. */
  function Overlap(id: SetId, slug: string, d: Rev, p: Rev): seq<Action> {
    [NewSet(id, slug, d.body.name, d.body.description, Application, d.author), Append(id, d), See(0, id), Append(id, p)]
  }

  ghost function AfterOverlap(id: SetId, slug: string, d: Rev, p: Rev): State {
    var row := NewRow(slug, d.body.name, d.body.description, Application, d.author);
    State(Store(map[id := Sync(row, 2, p.body)], map[RevKey(id, 1) := d, RevKey(id, 2) := p]), map[0 := Seen(id, Some(1))])
  }

  lemma LastIs(st: Store, id: SetId, n: nat)
    requires IsMax(Numbers(st.revs, id), n)
    ensures Last(st, id) == n
  {
    MaxOnce(Numbers(st.revs, id), Last(st, id), n);
  }

  lemma Prepend(s: State, a: Action, rest: seq<Action>, run: seq<Action>)
    requires Enabled(s, a) && Possible(Do(s, a), rest) && run == [a] + rest
    ensures Possible(s, run) && After(s, run) == After(Do(s, a), rest)
  {
    hide Enabled, Do;
    assert run[1..] == rest;
  }

  lemma NoSteps(s: State)
    ensures Possible(s, []) && After(s, []) == s
  {
  }

  lemma AddedAs(st: Store, id: SetId, rev: Rev, n: nat)
    requires id in st.sets && IsMax(Numbers(st.revs, id), n)
    ensures AddRevision(st, id, rev) ==
            Store(if rev.state.Published? then st.sets[id := Sync(st.sets[id], n + 1, rev.body)] else st.sets, st.revs[RevKey(id, n + 1) := rev])
  {
    LastIs(st, id, n);
  }

  /** A set with one draft, which a caller may have read. */
  function OneDraft(id: SetId, slug: string, d: Rev, seen: map<Caller, Seen>): State {
    State(Store(map[id := NewRow(slug, d.body.name, d.body.description, Application, d.author)], map[RevKey(id, 1) := d]), seen)
  }

  lemma OneNumber(id: SetId, slug: string, d: Rev, seen: map<Caller, Seen>)
    ensures IsMax(Numbers(OneDraft(id, slug, d, seen).st.revs, id), 1)
  {
    NumbersAfter(map[], RevKey(id, 1), d, id);
    assert OneDraft(id, slug, d, seen).st.revs == map[][RevKey(id, 1) := d];
  }

  lemma DraftMade(id: SetId, slug: string, d: Rev)
    requires d.state.Draft?
    ensures var s, a, b := State(S.EMPTY, map[]), NewSet(id, slug, d.body.name, d.body.description, Application, d.author), Append(id, d);
            Enabled(s, a) && Enabled(Do(s, a), b) && Do(Do(s, a), b) == OneDraft(id, slug, d, map[])
  {
    var s, a := State(S.EMPTY, map[]), NewSet(id, slug, d.body.name, d.body.description, Application, d.author);
    var s1 := Do(s, a);
    assert s1.st.revs == map[] && Numbers(s1.st.revs, id) == {};
    hide Last;
    AddedAs(s1.st, id, d, 0);
    assert Do(s1, Append(id, d)).st.revs == map[RevKey(id, 1) := d];
  }

  lemma DraftPassed(id: SetId, slug: string, d: Rev, p: Rev)
    requires d.state.Draft? && p.state.Published?
    ensures var s := OneDraft(id, slug, d, map[]);
            Enabled(s, See(0, id)) && Enabled(Do(s, See(0, id)), Append(id, p)) &&
            Do(Do(s, See(0, id)), Append(id, p)) == AfterOverlap(id, slug, d, p)
  {
    hide Last;
    var s, t := OneDraft(id, slug, d, map[]), OneDraft(id, slug, d, map[0 := Seen(id, Some(1))]);
    OneNumber(id, slug, d, map[]);
    LastIs(s.st, id, 1);
    assert Do(s, See(0, id)) == t;
    AddedAs(t.st, id, p, 1);
    assert SlugFree(t.st, id, p.body.slug);
    assert Do(t, Append(id, p)).st.revs == AfterOverlap(id, slug, d, p).st.revs;
  }

  lemma ReachOverlap(id: SetId, slug: string, d: Rev, p: Rev, rest: seq<Action>)
    requires d.state.Draft? && p.state.Published? && Possible(AfterOverlap(id, slug, d, p), rest)
    ensures var s := State(S.EMPTY, map[]);
            Possible(s, Overlap(id, slug, d, p) + rest) &&
            After(s, Overlap(id, slug, d, p) + rest) == After(AfterOverlap(id, slug, d, p), rest)
  {
    hide Possible, After, Do, Enabled, OneDraft, AfterOverlap;
    DraftMade(id, slug, d);
    DraftPassed(id, slug, d, p);
    var a0, a1, a2, a3 := NewSet(id, slug, d.body.name, d.body.description, Application, d.author), Append(id, d), See(0, id), Append(id, p);
    var s0, s2 := State(S.EMPTY, map[]), OneDraft(id, slug, d, map[]);
    var r3, r2, r1 := [a3] + rest, [a2] + ([a3] + rest), [a1] + ([a2] + ([a3] + rest));
    Prepend(Do(s2, a2), a3, rest, r3);
    Prepend(s2, a2, r3, r2);
    Prepend(Do(s0, a0), a1, r2, r1);
    assert Overlap(id, slug, d, p) + rest == [a0] + r1;
    Prepend(s0, a0, r1, Overlap(id, slug, d, p) + rest);
  }

  /** The editor publishes: the older definition is current again, below a published revision. */
  lemma OvertakenRun(id: SetId, slug: string, d: Rev, p: Rev, now: Time)
    requires d.state.Draft? && p.state.Published?
    ensures var s, run := State(S.EMPTY, map[]), Overlap(id, slug, d, p) + [Release(0, now)];
            && Possible(s, run)
            && var t := After(s, run).st;
               id in t.sets && t.sets[id].current == Some(1) && PublishedAt(t, id, 1) && PublishedAt(t, id, 2) && !Mirrors(t, id)
  {
    var s4 := AfterOverlap(id, slug, d, p);
    var t := Do(s4, Release(0, now));
    assert SlugFree(s4.st, id, d.body.slug);
    assert t.st.revs[RevKey(id, 2)].state.Published? && t.st.sets[id].current == Some(1);
    NoSteps(t);
    Prepend(s4, Release(0, now), [], [Release(0, now)]);
    hide Possible, After, Do;
    ReachOverlap(id, slug, d, p, [Release(0, now)]);
  }

  /** The editor saves: a revision that another has followed is rewritten. */
  lemma RewrittenRun(id: SetId, slug: string, d: Rev, p: Rev, rev: Rev)
    requires d.state.Draft? && p.state.Published? && rev.state.Draft? && rev.body != d.body
    ensures var s, run := State(S.EMPTY, map[]), Overlap(id, slug, d, p) + [Fill(0, rev)];
            && Possible(s, Overlap(id, slug, d, p)) && Possible(s, run)
            && Frozen(After(s, Overlap(id, slug, d, p)).st, RevKey(id, 1))
            && !Extends(After(s, Overlap(id, slug, d, p)).st, After(s, run).st)
  {
    var s4 := AfterOverlap(id, slug, d, p);
    var t := Do(s4, Fill(0, rev));
    assert t.st.revs[RevKey(id, 1)].body == rev.body;
    assert Numbers(s4.st.revs, id) == {1, 2} by {
      NumbersAfter(map[RevKey(id, 1) := d], RevKey(id, 2), p, id);
      NumbersAfter(map[], RevKey(id, 1), d, id);
      assert s4.st.revs == map[RevKey(id, 1) := d][RevKey(id, 2) := p];
      assert map[RevKey(id, 1) := d] == map[][RevKey(id, 1) := d];
    }
    LastIs(s4.st, id, 2);
    assert Frozen(s4.st, RevKey(id, 1));
    NoSteps(t);
    NoSteps(s4);
    Prepend(s4, Fill(0, rev), [], [Fill(0, rev)]);
    hide Possible, After, Do;
    ReachOverlap(id, slug, d, p, [Fill(0, rev)]);
    ReachOverlap(id, slug, d, p, []);
    assert Overlap(id, slug, d, p) + [] == Overlap(id, slug, d, p);
  }
}
