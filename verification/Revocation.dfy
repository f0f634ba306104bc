/** Checking whether a token was signed out: the denylist's answers, cached for a few seconds in a
    bounded cache. */
module Revocation {
  import opened Wrappers

  type Time = int

  datatype Entry = Entry(revoked: bool, expiry: Time)
  type Cache = map<string, Entry>

  datatype Verdict = Permit | Revoked | Unavailable

  datatype Policy = Policy(enabled: bool, ttl: Time, failOpen: bool, maxEntries: int)

  function Hit(p: Policy, c: Cache, jti: string, now: Time): Option<bool> {
    if p.ttl > 0 && jti in c && c[jti].expiry > now then Some(c[jti].revoked) else None
  }

  /** What pruning leaves: the live entries, or nothing when these alone fill the cache. */
  function Pruned(p: Policy, c: Cache, now: Time): Cache {
    var live := map k | k in c && c[k].expiry > now :: c[k];
    if |live| >= p.maxEntries then map[] else live
  }

  /** Remember an answer, unless it is none. */
  function Remembered(p: Policy, c: Cache, jti: string, revoked: Option<bool>, now: Time): Cache {
    if revoked.None? || p.ttl <= 0 then c
    else (if |c| >= p.maxEntries then Pruned(p, c, now) else c)[jti := Entry(revoked.value, now + p.ttl)]
  }

  /** What the policy makes of an answer; `None` is "could not be established". */
  function Judge(p: Policy, revoked: Option<bool>): Verdict {
    if revoked.None? then (if p.failOpen then Permit else Unavailable) else if revoked.value then Revoked else Permit
  }

  class RevocationChecker {
    const policy: Policy
    var cache: Cache

    constructor (policy: Policy)
      ensures this.policy == policy && cache == map[]
    {
      this.policy, cache := policy, map[];
    }

    method Prune(now: Time)
      modifies this
      ensures cache == Pruned(policy, old(cache), now)
      ensures var live := map k | k in old(cache) && old(cache)[k].expiry > now :: old(cache)[k];
              cache == if |live| >= policy.maxEntries then map[] else live
    {
      var dead := set k | k in cache && cache[k].expiry <= now;
      while dead != {}
        invariant dead <= cache.Keys <= old(cache).Keys
        invariant forall k :: k in cache ==> cache[k] == old(cache)[k]
        invariant forall k :: k in old(cache) ==> (k in cache <==> old(cache)[k].expiry > now || k in dead)
      {
        var k :| k in dead;
        cache := cache - {k};
        dead := dead - {k};
      }
      assert cache == map k | k in old(cache) && old(cache)[k].expiry > now :: old(cache)[k];
      if |cache| >= policy.maxEntries {
        cache := map[];
      }
    }

    /** `_check` with the denylist's answer at hand, should it be asked. */
    method Check(jti: string, now: Time, answer: Option<bool>) returns (revoked: Option<bool>)
      modifies this
      ensures policy.ttl > 0 && jti in old(cache) && old(cache)[jti].expiry > now ==>
                revoked == Some(old(cache)[jti].revoked) && cache == old(cache)
      ensures !(policy.ttl > 0 && jti in old(cache) && old(cache)[jti].expiry > now) ==>
                && revoked == answer && cache == Remembered(policy, old(cache), jti, answer, now)
                && (answer == None || policy.ttl <= 0 ==> cache == old(cache))
                && (answer != None && policy.ttl > 0 ==> jti in cache && cache[jti] == Entry(answer.value, now + policy.ttl))
                && (answer != None && policy.ttl > 0 && |old(cache)| < policy.maxEntries ==>
                      cache == old(cache)[jti := Entry(answer.value, now + policy.ttl)])
    {
      if policy.ttl > 0 && jti in cache && cache[jti].expiry > now {
        return Some(cache[jti].revoked);
      }
      if answer.Some? && policy.ttl > 0 {
        if |cache| >= policy.maxEntries {
          Prune(now);
        }
        cache := cache[jti := Entry(answer.value, now + policy.ttl)];
      }
      return answer;
    }

    method VerdictOn(jti: string, now: Time, answer: Option<bool>) returns (v: Verdict)
      modifies this
      ensures !policy.enabled || jti == "" ==> v == Permit && cache == old(cache)
      ensures policy.enabled && jti != "" ==>
                var known := if policy.ttl > 0 && jti in old(cache) && old(cache)[jti].expiry > now then Some(old(cache)[jti].revoked)
                             else answer;
                && (known == Some(true) <==> v == Revoked)
                && (known == Some(false) || (known == None && policy.failOpen) <==> v == Permit)
                && (known == None && !policy.failOpen <==> v == Unavailable)
                && cache == if Hit(policy, old(cache), jti, now).Some? then old(cache)
                            else Remembered(policy, old(cache), jti, answer, now)
    {
      if !policy.enabled || jti == "" {
        return Permit;
      }
      var revoked := Check(jti, now, answer);
      return Judge(policy, revoked);
    }
  }

  // ---------------------------------------------------------------- every interleaving

  /** When each token was signed out, if it was; it stays so for as long as anybody asks. */
  type Denylist = string -> Option<Time>

  predicate RevokedAt(d: Denylist, jti: string, t: Time) {
    d(jti).Some? && d(jti).value <= t
  }

  datatype Pc =
    | Came(jti: string, now: Time)
    | Missed(jti: string, now: Time)
    | Told(jti: string, now: Time, answer: Option<bool>)
    | Judged(jti: string, now: Time, v: Verdict)

  datatype State = State(clock: Time, cache: Cache, requests: map<nat, Pc>)

  datatype Action =
    | Tick(d: nat)
    | Come(g: nat, jti: string)
    | Look(g: nat)
    | Ask(g: nat, fails: bool)
    | Keep(g: nat)

  predicate Enabled(s: State, a: Action) {
    match a
    case Tick(_) => true
    case Come(g, _) => g !in s.requests
    case Look(g) => g in s.requests && s.requests[g].Came?
    case Ask(g, _) => g in s.requests && s.requests[g].Missed?
    case Keep(g) => g in s.requests && s.requests[g].Told?
  }

  function Move(s: State, g: nat, pc: Pc): State {
    s.(requests := s.requests[g := pc])
  }

  function Do(d: Denylist, p: Policy, s: State, a: Action): State
    requires Enabled(s, a)
  {
    match a
    case Tick(n) => s.(clock := s.clock + n)
    case Come(g, jti) => Move(s, g, if !p.enabled || jti == "" then Judged(jti, s.clock, Permit) else Came(jti, s.clock))
    case Look(g) =>
      var pc := s.requests[g];
      var hit := Hit(p, s.cache, pc.jti, pc.now);
      Move(s, g, if hit.Some? then Judged(pc.jti, pc.now, Judge(p, hit)) else Missed(pc.jti, pc.now))
    case Ask(g, fails) =>
      var pc := s.requests[g];
      Move(s, g, Told(pc.jti, pc.now, if fails then None else Some(RevokedAt(d, pc.jti, s.clock))))
    case Keep(g) =>
      var pc := s.requests[g];
      Move(s, g, Judged(pc.jti, pc.now, Judge(p, pc.answer))).(cache := Remembered(p, s.cache, pc.jti, pc.answer, pc.now))
  }

  predicate Possible(d: Denylist, p: Policy, s: State, run: seq<Action>)
    decreases |run|
  {
    run == [] || (Enabled(s, run[0]) && Possible(d, p, Do(d, p, s, run[0]), run[1..]))
  }

  function After(d: Denylist, p: Policy, s: State, run: seq<Action>): State
    requires Possible(d, p, s, run)
    decreases |run|
  {
    if run == [] then s else After(d, p, Do(d, p, s, run[0]), run[1..])
  }

  /** Honoured: the token was not signed out at the instant `at`. */
  predicate Honoured(d: Denylist, jti: string, at: Time) {
    !RevokedAt(d, jti, at)
  }

  /** The check applies to this token, and an unknown answer refuses it. */
  predicate Strict(p: Policy, jti: string) {
    p.enabled && jti != "" && !p.failOpen
  }

  /** How long a sign-out may go unnoticed. */
  function Lapse(p: Policy): Time {
    if p.ttl > 0 then p.ttl else 0
  }

  ghost predicate EntryInv(d: Denylist, p: Policy, clock: Time, jti: string, e: Entry) {
    && (!e.revoked ==> Honoured(d, jti, e.expiry - p.ttl))
    && (e.revoked ==> RevokedAt(d, jti, clock))
  }

  ghost predicate PcInv(d: Denylist, p: Policy, clock: Time, pc: Pc) {
    && pc.now <= clock
    && (!pc.Judged? ==> p.enabled && pc.jti != "")
    && (pc.Told? && pc.answer == Some(false) ==> Honoured(d, pc.jti, pc.now))
    && (pc.Told? && pc.answer == Some(true) ==> RevokedAt(d, pc.jti, clock))
    && (pc.Judged? ==> Fair(d, p, clock, pc))
  }

  /** A permit was given to a token not signed out `ttl` before, or under a policy that does not ask; a
      refusal as revoked, to a token that is. */
  ghost predicate Fair(d: Denylist, p: Policy, clock: Time, pc: Pc)
    requires pc.Judged?
  {
    && (pc.v.Permit? && Strict(p, pc.jti) ==> forall r :: d(pc.jti) == Some(r) ==> pc.now < r + Lapse(p))
    && (pc.v.Revoked? ==> RevokedAt(d, pc.jti, clock))
    && (pc.v.Unavailable? ==> !p.failOpen)
  }

  ghost predicate Inv(d: Denylist, p: Policy, s: State) {
    && (forall jti :: jti in s.cache ==> EntryInv(d, p, s.clock, jti, s.cache[jti]))
    && (forall g :: g in s.requests ==> PcInv(d, p, s.clock, s.requests[g]))
    && |s.cache| <= Bound(p)
  }

  /** The cache holds at most its maximum, when that is any size at all. */
  function Bound(p: Policy): nat {
    if p.maxEntries >= 1 then p.maxEntries else 1
  }

  lemma RememberedFits(p: Policy, c: Cache, jti: string, revoked: Option<bool>, now: Time)
    requires |c| <= Bound(p)
    ensures |Remembered(p, c, jti, revoked, now)| <= Bound(p)
  {
    var room := if |c| >= p.maxEntries then Pruned(p, c, now) else c;
    GrowsByOne(room, jti, Entry(if revoked.Some? then revoked.value else false, now + p.ttl));
  }

  lemma GrowsByOne(c: Cache, jti: string, e: Entry)
    ensures |c[jti := e]| <= |c| + 1
  {
    assert c[jti := e].Keys == c.Keys + {jti};
    assert |c[jti := e]| == |c[jti := e].Keys| && |c| == |c.Keys|;
  }

  lemma KeepsInv(d: Denylist, p: Policy, s: State, a: Action)
    requires Inv(d, p, s) && Enabled(s, a)
    ensures Inv(d, p, Do(d, p, s, a))
  {
    if a.Keep? {
      RememberedFits(p, s.cache, s.requests[a.g].jti, s.requests[a.g].answer, s.requests[a.g].now);
    }
  }

  lemma {:induction false} RunKeepsInv(d: Denylist, p: Policy, s: State, run: seq<Action>)
    requires Inv(d, p, s) && Possible(d, p, s, run)
    ensures Inv(d, p, After(d, p, s, run))
    decreases |run|
  {
    hide Inv, Enabled, Do;
    if run != [] {
      KeepsInv(d, p, s, run[0]);
      RunKeepsInv(d, p, Do(d, p, s, run[0]), run[1..]);
    }
  }

  // ---------------------------------------------------------------- the main results

  /** However requests interleave: a token signed out at `r` gets no permit from `r` plus the cache's lifetime
      on, when checking is on and fail-closed; a refusal as revoked is never wrong. */
  lemma SignedOutIsRefused(d: Denylist, p: Policy, start: Time, run: seq<Action>, g: nat)
    requires Possible(d, p, State(start, map[], map[]), run)
    requires var s := After(d, p, State(start, map[], map[]), run); g in s.requests && s.requests[g].Judged?
    ensures var pc := After(d, p, State(start, map[], map[]), run).requests[g];
            Strict(p, pc.jti) && d(pc.jti).Some? && pc.now >= d(pc.jti).value + Lapse(p) ==> !pc.v.Permit?
    ensures var s := After(d, p, State(start, map[], map[]), run);
            s.requests[g].v.Revoked? ==> RevokedAt(d, s.requests[g].jti, s.clock)
  {
    RunKeepsInv(d, p, State(start, map[], map[]), run);
    var s := After(d, p, State(start, map[], map[]), run);
    assert PcInv(d, p, s.clock, s.requests[g]);
  }

  /** Nobody fails to reach the denylist for this request. */
  predicate Reaches(run: seq<Action>, g: nat) {
    forall i :: 0 <= i < |run| ==> run[i] != Ask(g, true)
  }

  ghost predicate InGoodStanding(d: Denylist, p: Policy, s: State, jti: string, g: nat) {
    && (jti in s.cache ==> !s.cache[jti].revoked)
    && (g in s.requests && s.requests[g].jti == jti ==>
          && (s.requests[g].Told? ==> s.requests[g].answer == Some(false))
          && (s.requests[g].Judged? ==> s.requests[g].v == Permit))
  }

  lemma {:induction false} StandingKept(d: Denylist, p: Policy, s: State, run: seq<Action>, jti: string, g: nat)
    requires d(jti) == None && Inv(d, p, s) && Possible(d, p, s, run) && Reaches(run, g) && InGoodStanding(d, p, s, jti, g)
    ensures InGoodStanding(d, p, After(d, p, s, run), jti, g)
    decreases |run|
  {
    hide Inv, Do, Enabled, InGoodStanding;
    if run != [] {
      StandingStep(d, p, s, run[0], jti, g);
      KeepsInv(d, p, s, run[0]);
      assert forall i :: 0 <= i < |run[1..]| ==> run[1..][i] == run[i + 1];
      StandingKept(d, p, Do(d, p, s, run[0]), run[1..], jti, g);
    }
  }

  lemma StandingStep(d: Denylist, p: Policy, s: State, a: Action, jti: string, g: nat)
    requires d(jti) == None && Inv(d, p, s) && Enabled(s, a) && a != Ask(g, true) && InGoodStanding(d, p, s, jti, g)
    ensures InGoodStanding(d, p, Do(d, p, s, a), jti, g)
  {
    if a.Keep? {
      assert PcInv(d, p, s.clock, s.requests[a.g]);
    }
  }

  /** However requests interleave: a token that was never signed out is let through, every time its check can reach the
      denylist when it asks. */
  lemma GoodStandingIsPermitted(d: Denylist, p: Policy, start: Time, run: seq<Action>, g: nat)
    requires Possible(d, p, State(start, map[], map[]), run) && Reaches(run, g)
    requires var s := After(d, p, State(start, map[], map[]), run);
             g in s.requests && s.requests[g].Judged? && d(s.requests[g].jti) == None
    ensures After(d, p, State(start, map[], map[]), run).requests[g].v == Permit
  {
    hide Reaches;
    StandingKept(d, p, State(start, map[], map[]), run, After(d, p, State(start, map[], map[]), run).requests[g].jti, g);
  }

  /** A request alone, from the start: let through, refused as revoked, or, with the denylist out of reach, answered by the
      policy. */
  lemma AloneIsTold(d: Denylist, p: Policy, start: Time, jti: string, fails: bool)
    requires p.enabled && jti != ""
    ensures var s, run := State(start, map[], map[]), [Come(0, jti), Look(0), Ask(0, fails), Keep(0)];
            && Possible(d, p, s, run)
            && After(d, p, s, run).requests ==
               map[0 := Judged(jti, start, if fails then (if p.failOpen then Permit else Unavailable)
                                           else if d(jti).Some? && d(jti).value <= start then Revoked else Permit)]
  {
    hide Possible, After, Remembered;
    var s := State(start, map[], map[]);
    var s1 := Do(d, p, s, Come(0, jti));
    var s2 := Do(d, p, s1, Look(0));
    var s3 := Do(d, p, s2, Ask(0, fails));
    var s4 := Do(d, p, s3, Keep(0));
    Done(d, p, s4);
    Prepend(d, p, s3, Keep(0), []);
    Prepend(d, p, s2, Ask(0, fails), [Keep(0)]);
    Prepend(d, p, s1, Look(0), [Ask(0, fails), Keep(0)]);
    Prepend(d, p, s, Come(0, jti), [Look(0), Ask(0, fails), Keep(0)]);
    assert [Come(0, jti)] + ([Look(0)] + ([Ask(0, fails)] + ([Keep(0)] + []))) == [Come(0, jti), Look(0), Ask(0, fails), Keep(0)];
  }

  /** The lapse is used up: a token that asks just before it is signed out, at r, is still let through at r + ttl - 2, from
      the cache. */
  lemma LapseIsTight(d: Denylist, p: Policy, jti: string, r: Time)
    requires p.enabled && jti != "" && p.ttl >= 1 && d(jti) == Some(r)
    ensures var s := State(r - 1, map[], map[]);
            var run := [Come(0, jti), Look(0), Ask(0, false), Keep(0), Tick(p.ttl - 1), Come(1, jti), Look(1)];
            && Possible(d, p, s, run)
            && After(d, p, s, run).requests == map[0 := Judged(jti, r - 1, Permit), 1 := Judged(jti, r + p.ttl - 2, Permit)]
  {
    hide Possible, After, Do, Enabled;
    var s := State(r - 1, map[], map[]);
    FirstAnswer(d, p, jti, r - 1);
    var s1 := Do(d, p, s, Come(0, jti));
    var s2 := Do(d, p, s1, Look(0));
    var s3 := Do(d, p, s2, Ask(0, false));
    var s4 := Do(d, p, s3, Keep(0));
    FromTheCache(d, p, s4, jti);
    var rest := [Tick(p.ttl - 1), Come(1, jti), Look(1)];
    Prepend(d, p, s3, Keep(0), rest);
    Prepend(d, p, s2, Ask(0, false), [Keep(0)] + rest);
    Prepend(d, p, s1, Look(0), [Ask(0, false)] + ([Keep(0)] + rest));
    Prepend(d, p, s, Come(0, jti), [Look(0)] + ([Ask(0, false)] + ([Keep(0)] + rest)));
    assert [Come(0, jti)] + ([Look(0)] + ([Ask(0, false)] + ([Keep(0)] + rest))) ==
           [Come(0, jti), Look(0), Ask(0, false), Keep(0), Tick(p.ttl - 1), Come(1, jti), Look(1)];
  }

  lemma FirstAnswer(d: Denylist, p: Policy, jti: string, start: Time)
    requires p.enabled && jti != "" && p.ttl >= 1 && !RevokedAt(d, jti, start)
    ensures var s := State(start, map[], map[]);
            && Enabled(s, Come(0, jti)) && var s1 := Do(d, p, s, Come(0, jti));
            && Enabled(s1, Look(0)) && var s2 := Do(d, p, s1, Look(0));
            && Enabled(s2, Ask(0, false)) && var s3 := Do(d, p, s2, Ask(0, false));
            && Enabled(s3, Keep(0)) && Do(d, p, s3, Keep(0)) ==
                 State(start, map[jti := Entry(false, start + p.ttl)], map[0 := Judged(jti, start, Permit)])
  {
  }

  lemma FromTheCache(d: Denylist, p: Policy, s: State, jti: string)
    requires p.enabled && jti != "" && p.ttl >= 1
    requires s == State(s.clock, map[jti := Entry(false, s.clock + p.ttl)], map[0 := Judged(jti, s.clock, Permit)])
    ensures var run := [Tick(p.ttl - 1), Come(1, jti), Look(1)];
            && Possible(d, p, s, run)
            && After(d, p, s, run).requests ==
               map[0 := Judged(jti, s.clock, Permit), 1 := Judged(jti, s.clock + p.ttl - 1, Permit)]
  {
    hide Possible, After, Do, Enabled;
    SecondAnswer(d, p, s, jti);
    var s1 := Do(d, p, s, Tick(p.ttl - 1));
    var s2 := Do(d, p, s1, Come(1, jti));
    Done(d, p, Do(d, p, s2, Look(1)));
    Prepend(d, p, s2, Look(1), []);
    Prepend(d, p, s1, Come(1, jti), [Look(1)]);
    Prepend(d, p, s, Tick(p.ttl - 1), [Come(1, jti), Look(1)]);
  }

  lemma SecondAnswer(d: Denylist, p: Policy, s: State, jti: string)
    requires p.enabled && jti != "" && p.ttl >= 1
    requires s == State(s.clock, map[jti := Entry(false, s.clock + p.ttl)], map[0 := Judged(jti, s.clock, Permit)])
    ensures Enabled(s, Tick(p.ttl - 1)) && var s1 := Do(d, p, s, Tick(p.ttl - 1));
            && Enabled(s1, Come(1, jti)) && var s2 := Do(d, p, s1, Come(1, jti));
            && Enabled(s2, Look(1)) && Do(d, p, s2, Look(1)).requests ==
                 map[0 := Judged(jti, s.clock, Permit), 1 := Judged(jti, s.clock + p.ttl - 1, Permit)]
  {
  }

  lemma Done(d: Denylist, p: Policy, s: State)
    ensures Possible(d, p, s, []) && After(d, p, s, []) == s
  {
  }

  lemma Prepend(d: Denylist, p: Policy, s: State, a: Action, rest: seq<Action>)
    requires Enabled(s, a) && Possible(d, p, Do(d, p, s, a), rest)
    ensures forall run :: run == [a] + rest ==> Possible(d, p, s, run) && After(d, p, s, run) == After(d, p, Do(d, p, s, a), rest)
  {
    hide Do;
    assert ([a] + rest)[1..] == rest;
  }

  /** The cache holds answers only, each true when it was given, and never more than its maximum; than one,
      when the maximum is below one. */
  lemma CacheIsBounded(d: Denylist, p: Policy, start: Time, run: seq<Action>)
    requires Possible(d, p, State(start, map[], map[]), run)
    ensures var s := After(d, p, State(start, map[], map[]), run);
            && |s.cache| <= (if p.maxEntries >= 1 then p.maxEntries else 1)
            && forall jti :: jti in s.cache && !s.cache[jti].revoked ==> Honoured(d, jti, s.cache[jti].expiry - p.ttl)
  {
    RunKeepsInv(d, p, State(start, map[], map[]), run);
  }

  /** A maximum below one is exceeded by the first answer remembered. */
  lemma NoRoomIsExceeded(p: Policy, c: Cache, jti: string, revoked: bool, now: Time)
    requires p.maxEntries <= 0 && p.ttl > 0
    ensures |Remembered(p, c, jti, Some(revoked), now)| == 1
  {
    assert Pruned(p, c, now) == map[];
    assert Remembered(p, c, jti, Some(revoked), now) == map[jti := Entry(revoked, now + p.ttl)];
  }
}
