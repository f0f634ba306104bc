/** When a publish succeeds with nothing behind the name it reports, and the runs of the code that get there. */
module MediaPublishHollow {
  import opened Wrappers
  import opened Text
  import opened Renditions
  import opened MediaJobs
  import opened MediaPublish
  import opened MediaPublishRuns
  import MediaJobRuns

  /** A success whose named child has no content. */
  ghost predicate HollowSuccess(s: State, u: Uid, name: string) {
    u in s.jobs && s.jobs[u].status.Succeeded? && s.jobs[u].facts.renditionName == Some(name) &&
    !Stored(s.children, s.jobs[u].key.file, name)
  }

  function ReportName(name: string): Report {
    NO_REPORT.(renditionName := Given(Some(name)))
  }

  /** The name is taken, and every child that takes it is empty. */
  ghost predicate TakenByEmpty(ch: map<ChildUid, Child>, file: string, name: string) {
    Same(ch, file, name) != {} && forall c :: c in Same(ch, file, name) ==> ch[c].size == 0
  }

  /** A worker that has cleared its name ends in a hollow success without writing anything exactly when the
      name is taken, by empty children alone. */
  lemma HollowIff(s: State, w: WorkerId, max: nat, now: Time)
    requires At(s, w) && s.workers[w].pc.Cleared? && s.jobs[s.workers[w].job].uid == s.workers[w].job
    requires s.jobs[s.workers[w].job].status.Running?
    ensures var u, name := s.workers[w].job, s.workers[w].pc.name;
            var steps := [ListNames(w), Succeed(w, ReportName(name), now)];
            (CanRun(s, steps, max) && HollowSuccess(After(s, steps, max), u, name)) <==>
            TakenByEmpty(s.children, s.jobs[u].key.file, name)
  {
    hide CanRun, After, Allowed, Do, End, Same, Stored, TakenByEmpty;
    var u, name := s.workers[w].job, s.workers[w].pc.name;
    var file, succeed := s.jobs[u].key.file, Succeed(w, ReportName(name), now);
    Listing(s, w, max);
    SameIsStored(s.children, file, name);
    var s1 := Do(s, ListNames(w), max);
    if Same(s.children, file, name) != {} {
      Succeeding(s1, w, name, now, max);
      One(s1, succeed, max);
      assert Do(s1, succeed, max).children == s.children && Do(s1, succeed, max).jobs[u].key.file == file;
      assert HollowSuccess(Do(s1, succeed, max), u, name) <==> !Stored(s.children, file, name);
      Prepend(s, ListNames(w), [succeed], [ListNames(w), succeed], max);
    } else {
      NotWritten(s, s1, w, name, now, max);
    }
  }

  lemma Listing(s: State, w: WorkerId, max: nat)
    requires At(s, w) && s.workers[w].pc.Cleared?
    ensures Allowed(s, ListNames(w))
    ensures var name := s.workers[w].pc.name;
            Do(s, ListNames(w), max) ==
            Move(s, w, if Same(s.children, s.jobs[s.workers[w].job].key.file, name) == {} then Free(name) else Written(name))
  {
  }

  lemma Succeeding(s: State, w: WorkerId, name: string, now: Time, max: nat)
    requires At(s, w) && s.workers[w].pc == Written(name) && s.jobs[s.workers[w].job].uid == s.workers[w].job
    requires s.jobs[s.workers[w].job].status.Running?
    ensures Allowed(s, Succeed(w, ReportName(name), now))
    ensures var s' := Do(s, Succeed(w, ReportName(name), now), max);
            var u := s.workers[w].job;
            s'.children == s.children && u in s'.jobs && s'.jobs[u].key == s.jobs[u].key && s'.jobs[u].status.Succeeded? &&
            s'.jobs[u].facts.renditionName == Some(name) &&
            forall v :: v in s'.jobs && v != u && v in s.jobs && s.jobs[v].uid == v ==> s'.jobs[v] == s.jobs[v]
  {
  }

  lemma NotWritten(s: State, s1: State, w: WorkerId, name: string, now: Time, max: nat)
    requires Allowed(s, ListNames(w)) && s1 == Do(s, ListNames(w), max) && w in s1.workers && s1.workers[w].pc.Free?
    ensures !CanRun(s, [ListNames(w), Succeed(w, ReportName(name), now)], max)
  {
    hide Do;
    var succeed := Succeed(w, ReportName(name), now);
    assert [ListNames(w), succeed][1..] == [succeed];
    assert !Allowed(s1, succeed);
    assert !CanRun(s1, [succeed], max);
  }

  lemma SameIsStored(ch: map<ChildUid, Child>, file: string, name: string)
    ensures TakenByEmpty(ch, file, name) <==> Same(ch, file, name) != {} && !Stored(ch, file, name)
  {
    assert Stored(ch, file, name) <==> exists c :: c in Same(ch, file, name) && ch[c].size > 0;
  }

  // ---------------------------------------------------------------- runs, end to end

  ghost predicate Reaches(s: State, steps: seq<Action>, t: State, max: nat) {
    CanRun(s, steps, max) && After(s, steps, max) == t
  }

  lemma Then(s: State, first: seq<Action>, t: State, second: seq<Action>, t': State, max: nat)
    requires Reaches(s, first, t, max) && Reaches(t, second, t', max)
    ensures Reaches(s, first + second, t', max)
  {
    Join(s, first, second, max);
  }

  lemma Step(s: State, a: Action, t: State, max: nat)
    requires Allowed(s, a) && Do(s, a, max) == t
    ensures Reaches(s, [a], t, max)
  {
    hide Allowed, Do;
    One(s, a, max);
  }

  /** The name a worker publishes its job under. */
  function NameOf(key: Key, ext: string): string
    requires Fmt(key.profile).Some?
  {
    RenditionName(key.version, Fmt(key.profile).value, ext)
  }

  /** A worker with a fresh claim, made at `now`. */
  ghost predicate JustClaimed(s: State, w: WorkerId, ext: string, now: Time) {
    && At(s, w) && s.workers[w].pc.Encoding?
    && (forall u :: u in s.jobs ==> s.jobs[u].uid == u)
    && (var j := s.jobs[s.workers[w].job];
        j.status.Running? && j.heartbeatAt == Some(now) && j.progress == 0 && Fmt(j.key.profile).Some?)
    && ext != "" && '.' !in ext
  }

  lemma MoveTwice(s: State, w: WorkerId, p: Pc, q: Pc)
    requires w in s.workers
    ensures Move(Move(s, w, p), w, q) == Move(s, w, q)
  {
    assert Move(Move(s, w, p), w, q).workers == Move(s, w, q).workers;
  }

  function ToListed(w: WorkerId, ext: string, now: Time): seq<Action> {
    [Beat(w, ext, 0, now)] + [ListSame(w)]
  }

  lemma Lists(s: State, w: WorkerId, ext: string, now: Time, max: nat)
    requires JustClaimed(s, w, ext, now)
    ensures var key := s.jobs[s.workers[w].job].key;
            var name := NameOf(key, ext);
            Reaches(s, ToListed(w, ext, now), Move(s, w, Clearing(name, Same(s.children, key.file, name))), max)
  {
    hide CanRun, After, RenditionName, Fmt, Reaches;
    var key := s.jobs[s.workers[w].job].key;
    var name := NameOf(key, ext);
    var s1 := Move(s, w, Encoded(name));
    assert SqlHeartbeat(s.jobs, s.workers[w].job, 0, now) == s.jobs;
    Step(s, Beat(w, ext, 0, now), s1, max);
    var s2 := Move(s, w, Clearing(name, Same(s.children, key.file, name)));
    MoveTwice(s, w, Encoded(name), Clearing(name, Same(s.children, key.file, name)));
    Step(s1, ListSame(w), s2, max);
    Then(s, [Beat(w, ext, 0, now)], s1, [ListSame(w)], s2, max);
  }

  /** Encoded, and no child of the name found to clear. */
  lemma Clears(s: State, w: WorkerId, ext: string, now: Time, max: nat)
    requires JustClaimed(s, w, ext, now)
    requires Same(s.children, s.jobs[s.workers[w].job].key.file, NameOf(s.jobs[s.workers[w].job].key, ext)) == {}
    ensures Reaches(s, ToListed(w, ext, now) + [ClearDone(w)],
                    Move(s, w, Cleared(NameOf(s.jobs[s.workers[w].job].key, ext))), max)
  {
    hide CanRun, After, RenditionName, Fmt, Reaches;
    var name := NameOf(s.jobs[s.workers[w].job].key, ext);
    Lists(s, w, ext, now, max);
    var s1 := Move(s, w, Clearing(name, {}));
    var s2 := Move(s, w, Cleared(name));
    MoveTwice(s, w, Clearing(name, {}), Cleared(name));
    Step(s1, ClearDone(w), s2, max);
    Then(s, ToListed(w, ext, now), s1, [ClearDone(w)], s2, max);
  }

  /** Encoded, and the one child of the name found could not be sized up. */
  lemma PassesOver(s: State, w: WorkerId, ext: string, c: ChildUid, now: Time, max: nat)
    requires JustClaimed(s, w, ext, now)
    requires Same(s.children, s.jobs[s.workers[w].job].key.file, NameOf(s.jobs[s.workers[w].job].key, ext)) == {c}
    ensures Reaches(s, ToListed(w, ext, now) + [PassOver(w, c)] + [ClearDone(w)],
                    Move(s, w, Cleared(NameOf(s.jobs[s.workers[w].job].key, ext))), max)
  {
    hide CanRun, After, RenditionName, Fmt, Reaches;
    var name := NameOf(s.jobs[s.workers[w].job].key, ext);
    Lists(s, w, ext, now, max);
    var s1 := Move(s, w, Clearing(name, {c}));
    var s2 := Move(s, w, Clearing(name, {}));
    var s3 := Move(s, w, Cleared(name));
    assert {c} - {c} == {};
    MoveTwice(s, w, Clearing(name, {c}), Clearing(name, {}));
    MoveTwice(s, w, Clearing(name, {}), Cleared(name));
    Step(s1, PassOver(w, c), s2, max);
    Step(s2, ClearDone(w), s3, max);
    Then(s, ToListed(w, ext, now), s1, [PassOver(w, c)], s2, max);
    Then(s, ToListed(w, ext, now) + [PassOver(w, c)], s2, [ClearDone(w)], s3, max);
  }

  function TouchAndDie(w: WorkerId, c: ChildUid): seq<Action> {
    [ListNames(w)] + [Touch(w, c)] + [Stop(w)]
  }

  /** A worker dies between creating the child and writing it. */
  lemma Dies(s: State, w: WorkerId, c: ChildUid, max: nat)
    requires At(s, w) && s.workers[w].pc.Cleared? && c !in s.issued
    requires Same(s.children, s.jobs[s.workers[w].job].key.file, s.workers[w].pc.name) == {}
    ensures var child := Child(s.jobs[s.workers[w].job].key.file, s.workers[w].pc.name, 0);
            Reaches(s, TouchAndDie(w, c), State(s.jobs, s.children[c := child], s.issued + {c}, s.workers - {w}), max)
  {
    hide CanRun, After, Same, Reaches;
    var name := s.workers[w].pc.name;
    var child := Child(s.jobs[s.workers[w].job].key.file, name, 0);
    var s1 := Move(s, w, Free(name));
    Step(s, ListNames(w), s1, max);
    var s2 := Move(s1, w, Touched(name, c)).(children := s.children[c := child], issued := s.issued + {c});
    Step(s1, Touch(w, c), s2, max);
    var s3 := State(s.jobs, s.children[c := child], s.issued + {c}, s.workers - {w});
    assert s2.workers - {w} == s.workers - {w};
    Step(s2, Stop(w), s3, max);
    Then(s, [ListNames(w)], s1, [Touch(w, c)], s2, max);
    Then(s, [ListNames(w)] + [Touch(w, c)], s2, [Stop(w)], s3, max);
  }

  function ToSuccess(w: WorkerId, name: string, now: Time): seq<Action> {
    [ListNames(w), Succeed(w, ReportName(name), now)]
  }

  /** The run ends in a hollow success that nothing supersedes, with nobody left to fill the child but `w`,
      whose work is over. */
  ghost predicate EndsHollow(run: seq<Action>, max: nat, u: Uid, name: string, w: WorkerId) {
    && CanRun(START, run, max)
    && (var t := After(START, run, max);
        HollowSuccess(t, u, name) && !Superseded(t.jobs, t.jobs[u].key) && t.workers == map[w := Worker(u, Ended)])
  }

  /** What is left to do for the second worker, once the first has died. */
  lemma Finishes(run: seq<Action>, s: State, w: WorkerId, name: string, now: Time, max: nat)
    requires Reaches(START, run, s, max) && At(s, w) && s.workers == map[w := Worker(s.workers[w].job, Cleared(name))]
    requires forall v :: v in s.jobs ==> s.jobs[v].uid == v && s.jobs[v].status.Running?
    requires TakenByEmpty(s.children, s.jobs[s.workers[w].job].key.file, name)
    ensures EndsHollow(run + ToSuccess(w, name, now), max, s.workers[w].job, name, w)
  {
    hide CanRun, After, Allowed, Do, Less, Same, SafeVersion, Stored;
    var u, steps := s.workers[w].job, ToSuccess(w, name, now);
    HollowIff(s, w, max, now);
    Join(START, run, steps, max);
    var t := After(s, steps, max);
    OnlyOneSucceeded(s, w, name, now, max);
  }

  lemma OnlyOneSucceeded(s: State, w: WorkerId, name: string, now: Time, max: nat)
    requires At(s, w) && s.workers == map[w := Worker(s.workers[w].job, Cleared(name))]
    requires forall v :: v in s.jobs ==> s.jobs[v].uid == v && s.jobs[v].status.Running?
    requires Same(s.children, s.jobs[s.workers[w].job].key.file, name) != {}
    ensures var steps, u := ToSuccess(w, name, now), s.workers[w].job;
            CanRun(s, steps, max) && u in After(s, steps, max).jobs &&
            !Superseded(After(s, steps, max).jobs, After(s, steps, max).jobs[u].key) &&
            After(s, steps, max).workers == map[w := Worker(u, Ended)]
  {
    hide CanRun, After, Same, Less, SafeVersion, Reaches;
    var u, succeed := s.workers[w].job, Succeed(w, ReportName(name), now);
    var s1 := Move(s, w, Written(name));
    Step(s, ListNames(w), s1, max);
    var t := Do(s1, succeed, max);
    Step(s1, succeed, t, max);
    Then(s, [ListNames(w)], s1, [succeed], t, max);
    assert [ListNames(w)] + [succeed] == ToSuccess(w, name, now);
    LessIrreflexive(SafeVersion(s.jobs[u].key.version));
    assert forall v :: v in t.jobs && t.jobs[v].status.Succeeded? ==> v == u;
    assert Reaches(s, ToSuccess(w, name, now), t, max) ==> After(s, ToSuccess(w, name, now), max) == t by {
      ReachesIs(s, ToSuccess(w, name, now), t, max);
    }
  }

  lemma ReachesIs(s: State, steps: seq<Action>, t: State, max: nat)
    requires Reaches(s, steps, t, max)
    ensures CanRun(s, steps, max) && After(s, steps, max) == t
  {
  }

  // ---------------------------------------------------------------- the three causes

  predicate CanEncode(key: Key, ext: string) {
    Fmt(key.profile).Some? && ext != "" && '.' !in ext
  }

  function ToClaimed(key: Key, u: Uid, who: string, now: Time): seq<Action> {
    [Store(MediaJobRuns.Request(u, key, who, now))] + [ClaimBy(0, u, now)]
  }

  /** The state of one job, and the workers at it. */
  function With(job: Job, children: map<ChildUid, Child>, workers: map<WorkerId, Worker>): State {
    State(map[job.uid := job], children, children.Keys, workers)
  }

  lemma Claims(key: Key, u: Uid, who: string, now: Time, max: nat)
    ensures Reaches(START, ToClaimed(key, u, who, now),
                    With(Claimed(NewJob(u, key, who, now), now), map[], map[0 := Worker(u, Encoding)]), max)
  {
    hide CanRun, After, Reaches, SafeVersion, Fmt;
    var request := Store(MediaJobRuns.Request(u, key, who, now));
    var s1 := With(NewJob(u, key, who, now), map[], map[]);
    assert Do(START, request, max).jobs == s1.jobs;
    Step(START, request, s1, max);
    var s2 := With(Claimed(NewJob(u, key, who, now), now), map[], map[0 := Worker(u, Encoding)]);
    assert OldestQueued(s1.jobs, u);
    assert Do(s1, ClaimBy(0, u, now), max).jobs == s2.jobs;
    Step(s1, ClaimBy(0, u, now), s2, max);
    Then(START, [request], s1, [ClaimBy(0, u, now)], s2, max);
  }

  /** More than `stale` seconds after the last heartbeat the job is found stale and goes back to the queue, and a
      second worker takes it. */
  function ToReclaimed(u: Uid, stale: nat, later: Time): seq<Action> {
    [Store(MediaJobRuns.RequeueStale(later - stale, later))] + [ClaimBy(1, u, later)]
  }

  lemma Reclaims(job: Job, children: map<ChildUid, Child>, workers: map<WorkerId, Worker>, now: Time, stale: nat,
      later: Time, max: nat)
    requires job.status.Running? && job.heartbeatAt == Some(now) && job.attempts < max && 1 !in workers && now + stale < later
    ensures Reaches(With(job, children, workers), ToReclaimed(job.uid, stale, later),
                    With(Claimed(Requeued(job), later), children, workers[1 := Worker(job.uid, Encoding)]), max)
  {
    hide CanRun, After, Reaches, SafeVersion, Fmt;
    var s := With(job, children, workers);
    var requeue := Store(MediaJobRuns.RequeueStale(later - stale, later));
    var s1 := With(Requeued(job), children, workers);
    assert Do(s, requeue, max).jobs == s1.jobs;
    Step(s, requeue, s1, max);
    var s2 := With(Claimed(Requeued(job), later), children, workers[1 := Worker(job.uid, Encoding)]);
    assert OldestQueued(s1.jobs, job.uid);
    assert Do(s1, ClaimBy(1, job.uid, later), max).jobs == s2.jobs;
    Step(s1, ClaimBy(1, job.uid, later), s2, max);
    Then(s, [requeue], s1, [ClaimBy(1, job.uid, later)], s2, max);
  }

  /** A worker slow enough to be taken for dead, and the one that takes its job over: both have cleared the name
      when the first touches the child and dies, and the second reports it. */
  function TwoWorkersOneJob(key: Key, u: Uid, who: string, ext: string, now: Time, stale: nat, later: Time): seq<Action>
    requires CanEncode(key, ext)
  {
    ToClaimed(key, u, who, now) + (ToListed(0, ext, now) + [ClearDone(0)]) + ToReclaimed(u, stale, later) +
    (ToListed(1, ext, later) + [ClearDone(1)]) + TouchAndDie(0, 0) + ToSuccess(1, NameOf(key, ext), later)
  }

  lemma TwoWorkersHollow(key: Key, u: Uid, who: string, ext: string, now: Time, stale: nat,
      later: Time, max: nat)
    requires CanEncode(key, ext) && max >= 2 && now + stale < later
    ensures EndsHollow(TwoWorkersOneJob(key, u, who, ext, now, stale, later), max, u, NameOf(key, ext), 1)
  {
    hide CanRun, After, Reaches, EndsHollow, SafeVersion, Fmt, RenditionName;
    var name := NameOf(key, ext);
    var job := Claimed(NewJob(u, key, who, now), now);
    var again := Claimed(Requeued(job), later);
    var w0, w0', w1, w1' := Worker(u, Encoding), Worker(u, Cleared(name)), Worker(u, Encoding), Worker(u, Cleared(name));
    var s1 := With(job, map[], map[0 := w0]);
    Claims(key, u, who, now, max);
    var r1 := ToClaimed(key, u, who, now);
    var s2 := With(job, map[], map[0 := w0']);
    Clears(s1, 0, ext, now, max);
    assert Move(s1, 0, Cleared(name)) == s2;
    var r2 := ToListed(0, ext, now) + [ClearDone(0)];
    Then(START, r1, s1, r2, s2, max);
    var s3 := With(again, map[], map[0 := w0', 1 := w1]);
    Reclaims(job, map[], map[0 := w0'], now, stale, later, max);
    Then(START, r1 + r2, s2, ToReclaimed(u, stale, later), s3, max);
    var s4 := With(again, map[], map[0 := w0', 1 := w1']);
    Clears(s3, 1, ext, later, max);
    assert Move(s3, 1, Cleared(name)) == s4;
    var r4 := ToListed(1, ext, later) + [ClearDone(1)];
    Then(START, r1 + r2 + ToReclaimed(u, stale, later), s3, r4, s4, max);
    var s5 := With(again, map[0 := Child(key.file, name, 0)], map[1 := w1']);
    Dies(s4, 0, 0, max);
    assert s4.workers - {0} == s5.workers && s4.issued + {0} == s5.issued;
    Then(START, r1 + r2 + ToReclaimed(u, stale, later) + r4, s4, TouchAndDie(0, 0), s5, max);
    assert 0 in Same(s5.children, key.file, name);
    Finishes(r1 + r2 + ToReclaimed(u, stale, later) + r4 + TouchAndDie(0, 0), s5, 1, name, later, max);
  }

  /** One worker after another on one job: the first dies between creating the child and writing it, and the second
      cannot ask for the size of what it left. */
  function StatFails(key: Key, u: Uid, who: string, ext: string, now: Time, stale: nat, later: Time): seq<Action>
    requires CanEncode(key, ext)
  {
    ToClaimed(key, u, who, now) + (ToListed(0, ext, now) + [ClearDone(0)]) + TouchAndDie(0, 0) + ToReclaimed(u, stale, later) +
    (ToListed(1, ext, later) + [PassOver(1, 0)] + [ClearDone(1)]) + ToSuccess(1, NameOf(key, ext), later)
  }

  lemma StatFailsHollow(key: Key, u: Uid, who: string, ext: string, now: Time, stale: nat,
      later: Time, max: nat)
    requires CanEncode(key, ext) && max >= 2 && now + stale < later
    ensures EndsHollow(StatFails(key, u, who, ext, now, stale, later), max, u, NameOf(key, ext), 1)
  {
    hide CanRun, After, Reaches, EndsHollow, SafeVersion, Fmt, RenditionName;
    var name := NameOf(key, ext);
    var job := Claimed(NewJob(u, key, who, now), now);
    var again := Claimed(Requeued(job), later);
    var left := map[0 := Child(key.file, name, 0)];
    var w0, w0', w1, w1' := Worker(u, Encoding), Worker(u, Cleared(name)), Worker(u, Encoding), Worker(u, Cleared(name));
    var s1 := With(job, map[], map[0 := w0]);
    Claims(key, u, who, now, max);
    var r1 := ToClaimed(key, u, who, now);
    var s2 := With(job, map[], map[0 := w0']);
    Clears(s1, 0, ext, now, max);
    assert Move(s1, 0, Cleared(name)) == s2;
    var r2 := ToListed(0, ext, now) + [ClearDone(0)];
    Then(START, r1, s1, r2, s2, max);
    var s3 := With(job, left, map[]);
    Dies(s2, 0, 0, max);
    assert s2.workers - {0} == s3.workers && s2.issued + {0} == s3.issued;
    Then(START, r1 + r2, s2, TouchAndDie(0, 0), s3, max);
    var s4 := With(again, left, map[1 := w1]);
    Reclaims(job, left, map[], now, stale, later, max);
    Then(START, r1 + r2 + TouchAndDie(0, 0), s3, ToReclaimed(u, stale, later), s4, max);
    assert Same(left, key.file, name) == {0};
    var s5 := With(again, left, map[1 := w1']);
    PassesOver(s4, 1, ext, 0, later, max);
    assert Move(s4, 1, Cleared(name)) == s5;
    var r5 := ToListed(1, ext, later) + [PassOver(1, 0)] + [ClearDone(1)];
    Then(START, r1 + r2 + TouchAndDie(0, 0) + ToReclaimed(u, stale, later), s4, r5, s5, max);
    Finishes(r1 + r2 + TouchAndDie(0, 0) + ToReclaimed(u, stale, later) + r5, s5, 1, name, later, max);
  }

  /** Two versions of one file requested under one profile, and claimed by two workers. */
  function ToBothClaimed(key: Key, u: Uid, key': Key, u': Uid, who: string, now: Time): seq<Action> {
    [Store(MediaJobRuns.Request(u, key, who, now))] + [Store(MediaJobRuns.Request(u', key', who, now))] +
    [ClaimBy(0, u, now)] + [ClaimBy(1, u', now)]
  }

  function Both(job: Job, job': Job, children: map<ChildUid, Child>, workers: map<WorkerId, Worker>): State {
    State(map[job.uid := job, job'.uid := job'], children, children.Keys, workers)
  }

  lemma BothRequested(j: Job, j': Job, who: string, now: Time, max: nat)
    requires j.uid != j'.uid && j.key != j'.key
    requires j == NewJob(j.uid, j.key, who, now) && j' == NewJob(j'.uid, j'.key, who, now)
    ensures Reaches(START,
                    [Store(MediaJobRuns.Request(j.uid, j.key, who, now))] + [Store(MediaJobRuns.Request(j'.uid, j'.key, who, now))],
                    Both(j, j', map[], map[]), max)
  {
    hide CanRun, After, Reaches;
    var a, a' := Store(MediaJobRuns.Request(j.uid, j.key, who, now)), Store(MediaJobRuns.Request(j'.uid, j'.key, who, now));
    var s1, s2 := With(j, map[], map[]), Both(j, j', map[], map[]);
    assert Do(START, a, max).jobs == s1.jobs;
    Step(START, a, s1, max);
    assert Do(s1, a', max).jobs == s2.jobs;
    Step(s1, a', s2, max);
    Then(START, [a], s1, [a'], s2, max);
  }

  lemma ClaimOne(j: Job, j': Job, w: WorkerId, workers: map<WorkerId, Worker>, now: Time, max: nat)
    requires j.uid != j'.uid && j.status.Queued? && w !in workers
    requires j'.status.Queued? ==> j.requestedAt <= j'.requestedAt
    ensures Reaches(Both(j, j', map[], workers), [ClaimBy(w, j.uid, now)],
                    Both(Claimed(j, now), j', map[], workers[w := Worker(j.uid, Encoding)]), max)
  {
    hide Reaches;
    var s, s' := Both(j, j', map[], workers), Both(Claimed(j, now), j', map[], workers[w := Worker(j.uid, Encoding)]);
    assert OldestQueued(s.jobs, j.uid) && Do(s, ClaimBy(w, j.uid, now), max).jobs == s'.jobs;
    Step(s, ClaimBy(w, j.uid, now), s', max);
  }

  lemma BothClaimed(key: Key, u: Uid, key': Key, u': Uid, who: string, now: Time, max: nat)
    requires u != u' && key != key'
    ensures Reaches(START, ToBothClaimed(key, u, key', u', who, now),
                    Both(Claimed(NewJob(u, key, who, now), now), Claimed(NewJob(u', key', who, now), now), map[],
                         map[0 := Worker(u, Encoding), 1 := Worker(u', Encoding)]), max)
  {
    hide Reaches;
    var j, j' := NewJob(u, key, who, now), NewJob(u', key', who, now);
    var a1, a2 := Store(MediaJobRuns.Request(u, key, who, now)), Store(MediaJobRuns.Request(u', key', who, now));
    var w0 := map[0 := Worker(u, Encoding)];
    BothRequested(j, j', who, now, max);
    var s2, s3 := Both(j, j', map[], map[]), Both(Claimed(j, now), j', map[], w0);
    ClaimOne(j, j', 0, map[], now, max);
    Then(START, [a1] + [a2], s2, [ClaimBy(0, u, now)], s3, max);
    var s4 := Both(Claimed(j, now), Claimed(j', now), map[], w0[1 := Worker(u', Encoding)]);
    ClaimOne(j', Claimed(j, now), 1, w0, now, max);
    Swap(j', now, Claimed(j, now), w0);
    Then(START, [a1] + [a2] + [ClaimBy(0, u, now)], s3, [ClaimBy(1, u', now)], s4, max);
  }

  lemma Swap(j: Job, now: Time, j': Job, workers: map<WorkerId, Worker>)
    requires j.uid != j'.uid
    ensures Both(j, j', map[], workers) == Both(j', j, map[], workers)
    ensures forall more :: Both(Claimed(j, now), j', map[], more) == Both(j', Claimed(j, now), map[], more)
  {
    assert Both(j, j', map[], workers).jobs == Both(j', j, map[], workers).jobs;
    assert map[j.uid := Claimed(j, now), j'.uid := j'] == map[j'.uid := j', j.uid := Claimed(j, now)];
  }

  /** Two versions that sanitise to one name: both workers have cleared it when the first touches the child and dies,
      and the second reports it as its own. */
  function VersionsCollide(key: Key, u: Uid, key': Key, u': Uid, who: string, ext: string, now: Time): seq<Action>
    requires CanEncode(key', ext)
  {
    ToBothClaimed(key, u, key', u', who, now) + (ToListed(0, ext, now) + [ClearDone(0)]) +
    (ToListed(1, ext, now) + [ClearDone(1)]) + TouchAndDie(0, 0) + ToSuccess(1, NameOf(key', ext), now)
  }

  lemma OneName(key: Key, key': Key, ext: string)
    requires Collide(key, key') && key.profile == key'.profile && CanEncode(key', ext)
    ensures NameOf(key, ext) == NameOf(key', ext)
  {
  }

  lemma BothCleared(j: Job, j': Job, ext: string, name: string, now: Time, max: nat)
    requires j.uid != j'.uid && ext != "" && '.' !in ext && Fmt(j.key.profile).Some? && Fmt(j'.key.profile).Some?
    requires j.status.Running? && j.heartbeatAt == Some(now) && j.progress == 0
    requires j'.status.Running? && j'.heartbeatAt == Some(now) && j'.progress == 0
    requires NameOf(j.key, ext) == name == NameOf(j'.key, ext)
    ensures Reaches(Both(j, j', map[], map[0 := Worker(j.uid, Encoding), 1 := Worker(j'.uid, Encoding)]),
                    (ToListed(0, ext, now) + [ClearDone(0)]) + (ToListed(1, ext, now) + [ClearDone(1)]),
                    Both(j, j', map[], map[0 := Worker(j.uid, Cleared(name)), 1 := Worker(j'.uid, Cleared(name))]), max)
  {
    hide Reaches, Fmt, NameOf;
    var w0, w0' := Worker(j.uid, Encoding), Worker(j.uid, Cleared(name));
    var w1, w1' := Worker(j'.uid, Encoding), Worker(j'.uid, Cleared(name));
    var s1, s2 := Both(j, j', map[], map[0 := w0, 1 := w1]), Both(j, j', map[], map[0 := w0', 1 := w1]);
    Clears(s1, 0, ext, now, max);
    assert Move(s1, 0, Cleared(name)) == s2;
    var s3 := Both(j, j', map[], map[0 := w0', 1 := w1']);
    Clears(s2, 1, ext, now, max);
    assert Move(s2, 1, Cleared(name)) == s3;
    Then(s1, ToListed(0, ext, now) + [ClearDone(0)], s2, ToListed(1, ext, now) + [ClearDone(1)], s3, max);
  }

  lemma CollisionHollow(key: Key, u: Uid, key': Key, u': Uid, who: string, ext: string, now: Time, max: nat)
    requires Collide(key, key') && key.profile == key'.profile && u != u' && CanEncode(key', ext)
    ensures EndsHollow(VersionsCollide(key, u, key', u', who, ext, now), max, u', NameOf(key', ext), 1)
  {
    hide Reaches, EndsHollow, Fmt, NameOf, SafeVersion;
    var name := NameOf(key', ext);
    OneName(key, key', ext);
    var j, j' := Claimed(NewJob(u, key, who, now), now), Claimed(NewJob(u', key', who, now), now);
    var w0', w1' := Worker(u, Cleared(name)), Worker(u', Cleared(name));
    var s1 := Both(j, j', map[], map[0 := Worker(u, Encoding), 1 := Worker(u', Encoding)]);
    BothClaimed(key, u, key', u', who, now, max);
    var r1 := ToBothClaimed(key, u, key', u', who, now);
    var s3 := Both(j, j', map[], map[0 := w0', 1 := w1']);
    BothCleared(j, j', ext, name, now, max);
    var r2 := (ToListed(0, ext, now) + [ClearDone(0)]) + (ToListed(1, ext, now) + [ClearDone(1)]);
    Then(START, r1, s1, r2, s3, max);
    var s4 := Both(j, j', map[0 := Child(key.file, name, 0)], map[1 := w1']);
    Dies(s3, 0, 0, max);
    assert s3.workers - {0} == s4.workers && s3.issued + {0} == s4.issued;
    Then(START, r1 + r2, s3, TouchAndDie(0, 0), s4, max);
    assert 0 in Same(s4.children, key'.file, name);
    Finishes(r1 + r2 + TouchAndDie(0, 0), s4, 1, name, now, max);
    assert r1 + r2 + TouchAndDie(0, 0) + ToSuccess(1, name, now) == VersionsCollide(key, u, key', u', who, ext, now);
  }

  /** Such versions exist: a run from the start for every file, with the versions "1 0" and "1_0". */
  lemma CollisionHappens(file: string, u: Uid, u': Uid, who: string, now: Time, max: nat)
    requires u != u'
    ensures var key, key' := Key(file, "1 0", "audio-mp3"), Key(file, "1_0", "audio-mp3");
            EndsHollow(VersionsCollide(key, u, key', u', who, "mp3", now), max, u', RenditionName("1_0", "audio", "mp3"), 1)
  {
    var key, key' := Key(file, "1 0", "audio-mp3"), Key(file, "1_0", "audio-mp3");
    assert Strip("1 0") == "1 0" && Strip("1_0") == "1_0";
    assert Sanitize("1 0") == "1_0" == Sanitize("1_0");
    hide EndsHollow, SafeVersion;
    CollisionHollow(key, u, key', u', who, "mp3", now, max);
  }
}
