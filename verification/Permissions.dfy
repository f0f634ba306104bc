/** The permission gate: the core's answers, cached for a while, dropped early on news, with checks in
    flight all the time. */
module Permissions {
  import opened Wrappers

  type Time = int

  datatype Key = Key(tenant: string, user: string, file: string)
  datatype Decision = Decision(allowed: bool, expiry: Time)
  type Cache = map<Key, Decision>

  /** What news makes void. */
  datatype News =
    | Resource(tenant: string, file: string)
    | Member(tenant: string, user: string)
    | Tenant(tenant: string)
    | Everything

  predicate Concerns(n: News, k: Key) {
    match n
    case Resource(tenant, file) => k.tenant == tenant && k.file == file
    case Member(tenant, user) => k.tenant == tenant && k.user == user
    case Tenant(tenant) => k.tenant == tenant
    case Everything => true
  }

  function Hit(c: Cache, k: Key, now: Time): Option<bool> {
    if k in c && c[k].expiry > now then Some(c[k].allowed) else None
  }

  function Without(c: Cache, n: News): Cache {
    map k | k in c && !Concerns(n, k) :: c[k]
  }

  /** The core's answers to one question: yes, no, or an error. */
  datatype Answer = Yes | No | Error

  class PermissionGate {
    const ttl: Time
    var cache: Cache

    constructor (ttl: Time)
      ensures this.ttl == ttl && cache == map[]
    {
      this.ttl, cache := ttl, map[];
    }

    method Lookup(k: Key, now: Time) returns (hit: Option<bool>)
      ensures hit == Hit(cache, k, now)
      ensures hit == if k in cache && cache[k].expiry > now then Some(cache[k].allowed) else None
    {
      if k in cache && cache[k].expiry > now {
        return Some(cache[k].allowed);
      }
      return None;
    }

    method Store(k: Key, allowed: bool, now: Time)
      modifies this
      ensures cache == old(cache)[k := Decision(allowed, now + ttl)]
    {
      cache := cache[k := Decision(allowed, now + ttl)];
    }

    /** `can_read` undisturbed: a live decision, or else permission and existence, both asked and both yes. */
    method CanRead(k: Key, now: Time, permission: Answer, existence: Answer) returns (allowed: bool)
      modifies this
      ensures k in old(cache) && old(cache)[k].expiry > now ==> allowed == old(cache)[k].allowed && cache == old(cache)
      ensures !(k in old(cache) && old(cache)[k].expiry > now) ==>
                allowed == (permission == Yes && existence == Yes) && cache == old(cache)[k := Decision(allowed, now + ttl)]
    {
      var hit := Lookup(k, now);
      if hit.Some? {
        return hit.value;
      }
      allowed := permission.Yes? && existence.Yes?;
      Store(k, allowed, now);
    }

    /** `invalidate_resource`, `invalidate_member`, `invalidate_tenant` and `clear`. */
    method Invalidate(n: News)
      modifies this
      ensures cache == Without(old(cache), n)
      ensures forall k :: k in cache ==> k in old(cache) && cache[k] == old(cache)[k]
      ensures forall k :: k in old(cache) ==>
                (k !in cache <==>
                   || n == Resource(k.tenant, k.file) || n == Member(k.tenant, k.user) || n == Tenant(k.tenant) || n == Everything)
    {
      var todo := set k | k in cache && Concerns(n, k);
      while todo != {}
        invariant todo <= cache.Keys <= old(cache).Keys
        invariant forall k :: k in cache ==> cache[k] == old(cache)[k]
        invariant forall k :: k in old(cache) ==> (k in cache <==> !Concerns(n, k) || k in todo)
      {
        var k :| k in todo;
        cache := cache - {k};
        todo := todo - {k};
      }
    }
  }

  // ---------------------------------------------------------------- every interleaving

  /** What the core would answer at each instant. */
  datatype Core = Core(permits: (Key, Time) -> bool, has: (Key, Time) -> bool)

  /** Where a request stands; `now` is the clock it read when it came. */
  datatype Pc =
    | Came(k: Key, now: Time)
    | Missed(k: Key, now: Time)
    | Permitted(k: Key, now: Time)
    | Checked(k: Key, now: Time, allowed: bool)
    | Returned(k: Key, now: Time, allowed: bool)

  datatype State = State(clock: Time, cache: Cache, requests: map<nat, Pc>)

  datatype Action =
    | Tick(d: nat)
    | Come(g: nat, k: Key)
    | Look(g: nat)
    | AskPermission(g: nat, fails: bool)
    | AskExistence(g: nat, fails: bool)
    | Keep(g: nat)
    | Hear(n: News)

  predicate Enabled(s: State, a: Action) {
    match a
    case Tick(_) => true
    case Come(g, _) => g !in s.requests
    case Look(g) => g in s.requests && s.requests[g].Came?
    case AskPermission(g, _) => g in s.requests && s.requests[g].Missed?
    case AskExistence(g, _) => g in s.requests && s.requests[g].Permitted?
    case Keep(g) => g in s.requests && s.requests[g].Checked?
    case Hear(_) => true
  }

  function Move(s: State, g: nat, pc: Pc): State {
    s.(requests := s.requests[g := pc])
  }

  function Do(core: Core, ttl: Time, s: State, a: Action): State
    requires Enabled(s, a)
  {
    match a
    case Tick(d) => s.(clock := s.clock + d)
    case Come(g, k) => Move(s, g, Came(k, s.clock))
    case Look(g) =>
      var pc := s.requests[g];
      var hit := Hit(s.cache, pc.k, pc.now);
      Move(s, g, if hit.Some? then Returned(pc.k, pc.now, hit.value) else Missed(pc.k, pc.now))
    case AskPermission(g, fails) =>
      var pc := s.requests[g];
      Move(s, g, if !fails && core.permits(pc.k, s.clock) then Permitted(pc.k, pc.now) else Checked(pc.k, pc.now, false))
    case AskExistence(g, fails) =>
      var pc := s.requests[g];
      Move(s, g, Checked(pc.k, pc.now, !fails && core.has(pc.k, s.clock)))
    case Keep(g) =>
      var pc := s.requests[g];
      Move(s, g, Returned(pc.k, pc.now, pc.allowed)).(cache := s.cache[pc.k := Decision(pc.allowed, pc.now + ttl)])
    case Hear(n) => s.(cache := Without(s.cache, n))
  }

  /** A check that finds a live decision answers with it, and asks nothing. */
  lemma LookAnswers(core: Core, ttl: Time, s: State, g: nat)
    requires Enabled(s, Look(g))
    ensures var k, now, t := s.requests[g].k, s.requests[g].now, Do(core, ttl, s, Look(g));
            && t.cache == s.cache && t.clock == s.clock
            && t.requests == s.requests[g := if k in s.cache && s.cache[k].expiry > now then Returned(k, now, s.cache[k].allowed)
                                             else Missed(k, now)]
  {
  }

  /** News drops the decisions about its file or its member or its tenant, or all, and no others. */
  lemma NewsDrops(core: Core, ttl: Time, s: State, n: News, k: Key)
    requires k in s.cache
    ensures var t := Do(core, ttl, s, Hear(n));
            && t.requests == s.requests && t.clock == s.clock
            && (k !in t.cache <==> n == Resource(k.tenant, k.file) || n == Member(k.tenant, k.user) || n == Tenant(k.tenant) || n == Everything)
            && (k in t.cache ==> t.cache[k] == s.cache[k])
  {
  }

  /** A check that finds no live decision and that nothing disturbs: with the permission refused, or not to be had, it
      says no without asking on. */
  lemma DeniedAlone(core: Core, ttl: Time, s: State, g: nat, fails: bool)
    requires g in s.requests && s.requests[g].Missed? && (fails || !core.permits(s.requests[g].k, s.clock))
    ensures Enabled(s, AskPermission(g, fails)) && Enabled(Do(core, ttl, s, AskPermission(g, fails)), Keep(g))
    ensures var k, now, t := s.requests[g].k, s.requests[g].now, Do(core, ttl, Do(core, ttl, s, AskPermission(g, fails)), Keep(g));
            t.clock == s.clock && g in t.requests && t.requests[g] == Returned(k, now, false) &&
            t.cache == s.cache[k := Decision(false, now + ttl)]
  {
  }

  /** With the permission given it asks whether the file is there, and says that. */
  lemma PermittedAlone(core: Core, ttl: Time, s: State, g: nat, d: nat, fails: bool)
    requires g in s.requests && s.requests[g].Missed? && core.permits(s.requests[g].k, s.clock)
    ensures Enabled(s, AskPermission(g, false))
    ensures var s1 := Do(core, ttl, Do(core, ttl, s, AskPermission(g, false)), Tick(d));
            Enabled(s1, AskExistence(g, fails)) && Enabled(Do(core, ttl, s1, AskExistence(g, fails)), Keep(g))
    ensures var s1 := Do(core, ttl, Do(core, ttl, s, AskPermission(g, false)), Tick(d));
            var k, now, t := s.requests[g].k, s.requests[g].now, Do(core, ttl, Do(core, ttl, s1, AskExistence(g, fails)), Keep(g));
            var there := !fails && core.has(k, s.clock + d);
            t.clock == s.clock + d && g in t.requests && t.requests[g] == Returned(k, now, there) &&
            t.cache == s.cache[k := Decision(there, now + ttl)]
  {
  }

  predicate Possible(core: Core, ttl: Time, s: State, run: seq<Action>)
    decreases |run|
  {
    run == [] || (Enabled(s, run[0]) && Possible(core, ttl, Do(core, ttl, s, run[0]), run[1..]))
  }

  function After(core: Core, ttl: Time, s: State, run: seq<Action>): State
    requires Possible(core, ttl, s, run)
    decreases |run|
  {
    if run == [] then s else After(core, ttl, Do(core, ttl, s, run[0]), run[1..])
  }

  /** Between `from` and `to`, the core permitted the key and then had the file. */
  ghost predicate SaidYes(core: Core, k: Key, from: Time, to: Time) {
    exists p, e :: PermittedThen(core, k, from, to, p, e)
  }

  predicate PermittedThen(core: Core, k: Key, from: Time, to: Time, p: Time, e: Time) {
    from <= p <= e <= to && core.permits(k, p) && core.has(k, e)
  }

  ghost predicate PermittedSince(core: Core, k: Key, from: Time, to: Time) {
    exists p :: from <= p <= to && core.permits(k, p)
  }

  /** The core's word behind every yes but those already `answered` is no older than `floor`. */
  ghost predicate Backed(core: Core, ttl: Time, s: State, k: Key, floor: Time, answered: set<nat>) {
    && (forall g :: g in answered ==> g in s.requests && s.requests[g].Returned?)
    && (k in s.cache && s.cache[k].allowed ==> SaidYes(core, k, Max(floor, s.cache[k].expiry - ttl), s.clock))
    && forall g :: g in s.requests && g !in answered && s.requests[g].k == k ==> BackedPc(core, ttl, s.requests[g], floor, s.clock)
  }

  function Max(a: Time, b: Time): Time {
    if a < b then b else a
  }

  ghost predicate BackedPc(core: Core, ttl: Time, pc: Pc, floor: Time, clock: Time) {
    && pc.now <= clock
    && (pc.Permitted? ==> PermittedSince(core, pc.k, Max(floor, pc.now), clock))
    && (pc.Checked? && pc.allowed ==> SaidYes(core, pc.k, Max(floor, pc.now), clock))
    && (pc.Returned? && pc.allowed ==> YesSince(core, ttl, pc.k, pc.now, floor, clock))
  }

  /** The core said yes when asked, or less than `ttl` before; in any case not before `floor`. */
  ghost predicate YesSince(core: Core, ttl: Time, k: Key, now: Time, floor: Time, clock: Time) {
    exists p, e :: PermittedThen(core, k, floor, clock, p, e) && (p >= now || p > now - ttl)
  }

  lemma TimePasses(core: Core, ttl: Time, clock: Time, later: Time, floor: Time)
    requires clock <= later
    ensures forall k: Key, from: Time :: SaidYes(core, k, from, clock) ==> SaidYes(core, k, from, later)
    ensures forall k: Key, from: Time :: PermittedSince(core, k, from, clock) ==> PermittedSince(core, k, from, later)
    ensures forall pc: Pc :: BackedPc(core, ttl, pc, floor, clock) ==> BackedPc(core, ttl, pc, floor, later)
  {
    forall k: Key, from: Time | SaidYes(core, k, from, clock) ensures SaidYes(core, k, from, later) {
      var p, e :| PermittedThen(core, k, from, clock, p, e);
      assert PermittedThen(core, k, from, later, p, e);
    }
    forall pc: Pc | BackedPc(core, ttl, pc, floor, clock) ensures BackedPc(core, ttl, pc, floor, later) {
      if pc.Returned? && pc.allowed {
        var p, e :| PermittedThen(core, pc.k, floor, clock, p, e) && (p >= pc.now || p > pc.now - ttl);
        assert PermittedThen(core, pc.k, floor, later, p, e);
      }
    }
  }

  /** A live decision that allows was the core's word less than `ttl` ago; a fresh one, since the request came. */
  lemma AnswerBacked(core: Core, ttl: Time, k: Key, from: Time, now: Time, floor: Time, clock: Time)
    requires SaidYes(core, k, Max(floor, from), clock) && (from >= now || from > now - ttl)
    ensures YesSince(core, ttl, k, now, floor, clock)
  {
    var p, e :| PermittedThen(core, k, Max(floor, from), clock, p, e);
    assert PermittedThen(core, k, floor, clock, p, e);
  }

  lemma ExistenceAnswered(core: Core, k: Key, from: Time, clock: Time)
    requires PermittedSince(core, k, from, clock) && core.has(k, clock)
    ensures SaidYes(core, k, from, clock)
  {
    var p :| from <= p <= clock && core.permits(k, p);
    assert PermittedThen(core, k, from, clock, p, clock);
  }

  lemma KeepsBacked(core: Core, ttl: Time, s: State, a: Action, k: Key, floor: Time, answered: set<nat>)
    requires Enabled(s, a) && Backed(core, ttl, s, k, floor, answered) && floor <= s.clock
    ensures Backed(core, ttl, Do(core, ttl, s, a), k, floor, answered) && floor <= Do(core, ttl, s, a).clock
  {
    hide SaidYes, PermittedSince, YesSince;
    var t := Do(core, ttl, s, a);
    TimePasses(core, ttl, s.clock, t.clock, floor);
    if !a.Tick? && !a.Come? && !a.Hear? && s.requests[a.g].k == k {
      var pc := s.requests[a.g];
      assert BackedPc(core, ttl, pc, floor, s.clock);
      match a
      case Look(g) =>
        var hit := Hit(s.cache, k, pc.now);
        if hit == Some(true) {
          AnswerBacked(core, ttl, k, s.cache[k].expiry - ttl, pc.now, floor, s.clock);
        }
      case AskPermission(g, fails) =>
        assert core.permits(k, s.clock) ==> PermittedSince(core, k, Max(floor, pc.now), s.clock) by {
          PermittedNow(core, k, Max(floor, pc.now), s.clock);
        }
      case AskExistence(g, fails) =>
        if core.has(k, s.clock) {
          ExistenceAnswered(core, k, Max(floor, pc.now), s.clock);
        }
      case Keep(g) =>
        if pc.allowed {
          AnswerBacked(core, ttl, k, pc.now, pc.now, floor, s.clock);
        }
    }
  }

  lemma PermittedNow(core: Core, k: Key, from: Time, clock: Time)
    requires from <= clock
    ensures core.permits(k, clock) ==> PermittedSince(core, k, from, clock)
  {
  }

  lemma {:induction false} RunKeepsBacked(core: Core, ttl: Time, s: State, run: seq<Action>, k: Key, floor: Time,
      answered: set<nat>)
    requires Possible(core, ttl, s, run) && Backed(core, ttl, s, k, floor, answered) && floor <= s.clock
    ensures Backed(core, ttl, After(core, ttl, s, run), k, floor, answered)
    decreases |run|
  {
    hide Backed, Enabled, Do;
    if run != [] {
      KeepsBacked(core, ttl, s, run[0], k, floor, answered);
      RunKeepsBacked(core, ttl, Do(core, ttl, s, run[0]), run[1..], k, floor, answered);
    }
  }

  // ---------------------------------------------------------------- the main results

  /** However checks, stores and invalidations interleave: a yes means the core permitted the key, and then
      had the file, at instants after `now - ttl`, or not before the request came. */
  lemma YesIsRecent(core: Core, ttl: Time, start: Time, run: seq<Action>, g: nat)
    requires Possible(core, ttl, State(start, map[], map[]), run)
    requires var s := After(core, ttl, State(start, map[], map[]), run);
             g in s.requests && s.requests[g].Returned? && s.requests[g].allowed
    ensures var s := After(core, ttl, State(start, map[], map[]), run);
            YesSince(core, ttl, s.requests[g].k, s.requests[g].now, start, s.clock)
  {
    hide YesSince;
    var s0 := State(start, map[], map[]);
    var s := After(core, ttl, s0, run);
    RunKeepsBacked(core, ttl, s0, run, s.requests[g].k, start, {});
    assert BackedPc(core, ttl, s.requests[g], start, s.clock);
  }

  /** No check that was told yes is under way for the key. */
  predicate Quiet(s: State, k: Key) {
    forall g :: g in s.requests && s.requests[g].k == k ==>
      !s.requests[g].Permitted? && !(s.requests[g].Checked? && s.requests[g].allowed)
  }

  /** News about a key makes every later yes newer than the news, provided no check that was told yes is
      under way when it is heard. */
  lemma NewsHolds(core: Core, ttl: Time, s: State, n: News, k: Key, run: seq<Action>, g: nat)
    requires Concerns(n, k) && Quiet(s, k) && forall h :: h in s.requests ==> s.requests[h].now <= s.clock
    requires Possible(core, ttl, Do(core, ttl, s, Hear(n)), run) && !Answered(s, g)
    requires var t := After(core, ttl, Do(core, ttl, s, Hear(n)), run);
             g in t.requests && t.requests[g].k == k && t.requests[g].Returned? && t.requests[g].allowed
    ensures var t := After(core, ttl, Do(core, ttl, s, Hear(n)), run);
            SaidYes(core, k, s.clock, t.clock)
  {
    hide SaidYes, PermittedSince, YesSince, PermittedThen;
    var s0 := Do(core, ttl, s, Hear(n));
    var t := After(core, ttl, s0, run);
    var answered := set h | h in s.requests && s.requests[h].Returned?;
    assert Backed(core, ttl, s0, k, s.clock, answered);
    RunKeepsBacked(core, ttl, s0, run, k, s.clock, answered);
    assert BackedPc(core, ttl, t.requests[g], s.clock, t.clock);
    YesSaid(core, ttl, k, t.requests[g].now, s.clock, t.clock);
  }

  predicate Answered(s: State, g: nat) {
    g in s.requests && s.requests[g].Returned?
  }

  lemma YesSaid(core: Core, ttl: Time, k: Key, now: Time, floor: Time, clock: Time)
    requires YesSince(core, ttl, k, now, floor, clock)
    ensures SaidYes(core, k, floor, clock)
  {
  }

  /** After the news is heard, a run that ends with a yes to a request that was not answered before. */
  predicate LateYes(core: Core, ttl: Time, s: State, n: News, k: Key, run: seq<Action>, g: nat) {
    && Possible(core, ttl, Do(core, ttl, s, Hear(n)), run) && !Answered(s, g)
    && var t := After(core, ttl, Do(core, ttl, s, Hear(n)), run);
       g in t.requests && t.requests[g].k == k && t.requests[g].Returned? && t.requests[g].allowed
  }

  /** That yes rests on what the core said once the news was out. */
  ghost predicate NewerThanNews(core: Core, ttl: Time, s: State, n: News, k: Key, run: seq<Action>) {
    Possible(core, ttl, Do(core, ttl, s, Hear(n)), run) &&
    SaidYes(core, k, s.clock, After(core, ttl, Do(core, ttl, s, Hear(n)), run).clock)
  }

  /** The two cores answer alike before `t`. */
  ghost predicate AlikeBefore(a: Core, b: Core, t: Time) {
    forall k, u :: u < t ==> a.permits(k, u) == b.permits(k, u) && a.has(k, u) == b.has(k, u)
  }

  /** The core that takes the permission back as the news comes, and keeps the file. */
  function TakenBack(past: Core, k: Key, t: Time): Core {
    Core((q: Key, u: Time) => past.permits(q, u) && !(q == k && u >= t), (q: Key, u: Time) => past.has(q, u) || (q == k && u >= t))
  }

  /** A check that was told yes and is under way when the news is heard goes on to say yes, whatever the core has
      said since. */
  lemma CheckUnderWayIsStale(past: Core, ttl: Time, s: State, n: News, k: Key, g: nat) returns (core: Core, run: seq<Action>)
    requires g in s.requests && s.requests[g].k == k
    requires s.requests[g].Permitted? || (s.requests[g].Checked? && s.requests[g].allowed)
    ensures AlikeBefore(core, past, s.clock)
    ensures LateYes(core, ttl, s, n, k, run, g) && !NewerThanNews(core, ttl, s, n, k, run)
  {
    hide Possible, After, SaidYes;
    core := TakenBack(past, k, s.clock);
    var s1 := Do(core, ttl, s, Hear(n));
    if s.requests[g].Permitted? {
      var s2 := Do(core, ttl, s1, AskExistence(g, false));
      var s3 := Do(core, ttl, s2, Keep(g));
      run := [AskExistence(g, false), Keep(g)];
      NoSteps(core, ttl, s3);
      Prepend(core, ttl, s2, Keep(g), [], [Keep(g)]);
      Prepend(core, ttl, s1, AskExistence(g, false), [Keep(g)], run);
    } else {
      var s2 := Do(core, ttl, s1, Keep(g));
      run := [Keep(g)];
      NoSteps(core, ttl, s2);
      Prepend(core, ttl, s1, Keep(g), [], run);
    }
    NotPermittedSince(core, k, s.clock, After(core, ttl, s1, run).clock);
  }

  lemma NotPermittedSince(core: Core, k: Key, from: Time, to: Time)
    requires forall u :: u >= from ==> !core.permits(k, u)
    ensures !SaidYes(core, k, from, to)
  {
  }

  /** Exactly when news about a key makes every later yes newer than the news, whatever the core says from then
      on: when no check that was told yes is under way as it is heard. */
  lemma NewsHoldsIffQuiet(past: Core, ttl: Time, s: State, n: News, k: Key)
    requires Concerns(n, k) && forall h :: h in s.requests ==> s.requests[h].now <= s.clock
    ensures (forall core: Core, run: seq<Action>, g: nat :: AlikeBefore(core, past, s.clock) && LateYes(core, ttl, s, n, k, run, g) ==>
               NewerThanNews(core, ttl, s, n, k, run))
            <==> Quiet(s, k)
  {
    hide LateYes, NewerThanNews, AlikeBefore;
    if Quiet(s, k) {
      forall core: Core, run: seq<Action>, g: nat | LateYes(core, ttl, s, n, k, run, g) ensures NewerThanNews(core, ttl, s, n, k, run) {
        LateYesIsNewer(core, ttl, s, n, k, run, g);
      }
    } else {
      var g :| g in s.requests && s.requests[g].k == k &&
               (s.requests[g].Permitted? || (s.requests[g].Checked? && s.requests[g].allowed));
      var core, run := CheckUnderWayIsStale(past, ttl, s, n, k, g);
      assert LateYes(core, ttl, s, n, k, run, g);
    }
  }

  lemma LateYesIsNewer(core: Core, ttl: Time, s: State, n: News, k: Key, run: seq<Action>, g: nat)
    requires Concerns(n, k) && Quiet(s, k) && forall h :: h in s.requests ==> s.requests[h].now <= s.clock
    requires LateYes(core, ttl, s, n, k, run, g)
    ensures NewerThanNews(core, ttl, s, n, k, run)
  {
    hide Possible, After, SaidYes;
    NewsHolds(core, ttl, s, n, k, run, g);
  }

  /** Permits until the clock strikes 1, and always has the file. */
  const UNTIL_ONE := Core((k: Key, t: Time) => t < 1, (k: Key, t: Time) => true)

  /** One request permitted, not checked further, as the clock strikes 1. */
  function UnderWay(k: Key): State {
    State(1, map[], map[0 := Permitted(k, 0)])
  }

  lemma ReachUnderWay(k: Key, ttl: Time)
    ensures var run := [Come(0, k), Look(0), AskPermission(0, false), Tick(1)];
            Possible(UNTIL_ONE, ttl, State(0, map[], map[]), run) && After(UNTIL_ONE, ttl, State(0, map[], map[]), run) == UnderWay(k)
  {
    hide Possible, After;
    var s0 := State(0, map[], map[]);
    var s1 := Do(UNTIL_ONE, ttl, s0, Come(0, k));
    assert s1.requests == map[0 := Came(k, 0)];
    var s2 := Do(UNTIL_ONE, ttl, s1, Look(0));
    assert s2.requests == map[0 := Missed(k, 0)];
    var s3 := Do(UNTIL_ONE, ttl, s2, AskPermission(0, false));
    assert s3.requests == map[0 := Permitted(k, 0)];
    assert Do(UNTIL_ONE, ttl, s3, Tick(1)) == UnderWay(k);
    NoSteps(UNTIL_ONE, ttl, UnderWay(k));
    Prepend(UNTIL_ONE, ttl, s3, Tick(1), [], [Tick(1)]);
    Prepend(UNTIL_ONE, ttl, s2, AskPermission(0, false), [Tick(1)], [AskPermission(0, false), Tick(1)]);
    Prepend(UNTIL_ONE, ttl, s1, Look(0), [AskPermission(0, false), Tick(1)], [Look(0), AskPermission(0, false), Tick(1)]);
    Prepend(UNTIL_ONE, ttl, s0, Come(0, k), [Look(0), AskPermission(0, false), Tick(1)],
            [Come(0, k), Look(0), AskPermission(0, false), Tick(1)]);
  }

  /** A whole run: a request is told yes by the core at 0; at 1 the permission goes and the news of it is heard;
      the check goes on and says yes, and the next request takes that yes from the cache. */
  lemma StaleYes(k: Key, ttl: Time)
    requires ttl > 1
    ensures var run := [Come(0, k), Look(0), AskPermission(0, false), Tick(1)];
            Possible(UNTIL_ONE, ttl, State(0, map[], map[]), run) && After(UNTIL_ONE, ttl, State(0, map[], map[]), run) == UnderWay(k)
    ensures var run := [Hear(Everything), AskExistence(0, false), Keep(0), Come(1, k), Look(1)];
            && Possible(UNTIL_ONE, ttl, UnderWay(k), run)
            && var t := After(UNTIL_ONE, ttl, UnderWay(k), run);
               t.clock == 1 && t.requests == map[0 := Returned(k, 0, true), 1 := Returned(k, 1, true)]
    ensures !SaidYes(UNTIL_ONE, k, 1, 1)
  {
    hide Possible, After;
    ReachUnderWay(k, ttl);
    var s4 := UnderWay(k);
    var s5 := Do(UNTIL_ONE, ttl, s4, Hear(Everything));
    assert s5 == s4;
    var s6 := Do(UNTIL_ONE, ttl, s5, AskExistence(0, false));
    assert s6.requests == map[0 := Checked(k, 0, true)];
    var s7 := Do(UNTIL_ONE, ttl, s6, Keep(0));
    assert s7.requests == map[0 := Returned(k, 0, true)] && s7.cache == map[k := Decision(true, ttl)];
    var s8 := Do(UNTIL_ONE, ttl, s7, Come(1, k));
    var s9 := Do(UNTIL_ONE, ttl, s8, Look(1));
    assert s9.requests == map[0 := Returned(k, 0, true), 1 := Returned(k, 1, true)];
    NoSteps(UNTIL_ONE, ttl, s9);
    Prepend(UNTIL_ONE, ttl, s8, Look(1), [], [Look(1)]);
    Prepend(UNTIL_ONE, ttl, s7, Come(1, k), [Look(1)], [Come(1, k), Look(1)]);
    Prepend(UNTIL_ONE, ttl, s6, Keep(0), [Come(1, k), Look(1)], [Keep(0), Come(1, k), Look(1)]);
    Prepend(UNTIL_ONE, ttl, s5, AskExistence(0, false), [Keep(0), Come(1, k), Look(1)],
            [AskExistence(0, false), Keep(0), Come(1, k), Look(1)]);
    Prepend(UNTIL_ONE, ttl, s4, Hear(Everything), [AskExistence(0, false), Keep(0), Come(1, k), Look(1)],
            [Hear(Everything), AskExistence(0, false), Keep(0), Come(1, k), Look(1)]);
    NotPermittedSince(UNTIL_ONE, k, 1, 1);
  }

  lemma Prepend(core: Core, ttl: Time, s: State, a: Action, rest: seq<Action>, run: seq<Action>)
    requires Enabled(s, a) && Possible(core, ttl, Do(core, ttl, s, a), rest) && run == [a] + rest
    ensures Possible(core, ttl, s, run) && After(core, ttl, s, run) == After(core, ttl, Do(core, ttl, s, a), rest)
  {
    assert run[1..] == rest;
  }

  lemma NoSteps(core: Core, ttl: Time, s: State)
    ensures Possible(core, ttl, s, []) && After(core, ttl, s, []) == s
  {
  }
}
