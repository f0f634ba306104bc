/** A publish that nothing disturbs: requested, claimed, encoded, written and recorded. */
module MediaPublishAlone {
  import opened Wrappers
  import opened Renditions
  import opened MediaJobs
  import opened MediaPublish
  import opened MediaPublishRuns
  import MediaJobRuns

  /** A worker alone with its job, at `pc`. */
  function With(job: Job, pc: Pc, children: map<ChildUid, Child>): State {
    State(map[job.uid := job], children, children.Keys, map[0 := Worker(job.uid, pc)])
  }

  lemma Claiming(key: Key, u: Uid, who: string, now: Time, max: nat)
    ensures var a, b := Store(MediaJobRuns.Request(u, key, who, now)), ClaimBy(0, u, now);
            Enabled(START, a) && Enabled(Do(START, a, max), b) &&
            Do(Do(START, a, max), b, max) == With(Claimed(NewJob(u, key, who, now), now), Encoding, map[])
  {
    hide SafeVersion, Fmt;
    var s1 := Do(START, Store(MediaJobRuns.Request(u, key, who, now)), max);
    assert s1.jobs == map[u := NewJob(u, key, who, now)];
    assert OldestQueued(s1.jobs, u);
    var s2 := Do(s1, ClaimBy(0, u, now), max);
    assert s2.jobs == map[u := Claimed(NewJob(u, key, who, now), now)];
    assert s2.workers == map[0 := Worker(u, Encoding)];
  }

  lemma Encodes(job: Job, ext: string, now: Time, max: nat)
    requires job.status.Running? && Fmt(job.key.profile).Some? && ext != "" && '.' !in ext
    ensures var s, name := With(job, Encoding, map[]), RenditionName(job.key.version, Fmt(job.key.profile).value, ext);
            Enabled(s, Beat(0, ext, 0, now)) && Do(s, Beat(0, ext, 0, now), max) == With(Beaten(job, 0, now), Encoded(name), map[])
  {
    hide Fmt, RenditionName;
    var t := Do(With(job, Encoding, map[]), Beat(0, ext, 0, now), max);
    assert t.jobs == map[job.uid := Beaten(job, 0, now)];
    assert t.workers == map[0 := Worker(job.uid, Encoded(RenditionName(job.key.version, Fmt(job.key.profile).value, ext)))];
  }

  lemma Clears(job: Job, name: string, max: nat)
    ensures var s := With(job, Encoded(name), map[]);
            Enabled(s, ListSame(0)) && Enabled(Do(s, ListSame(0), max), ClearDone(0)) &&
            Enabled(Do(Do(s, ListSame(0), max), ClearDone(0), max), ListNames(0)) &&
            Do(Do(Do(s, ListSame(0), max), ClearDone(0), max), ListNames(0), max) == With(job, Free(name), map[])
  {
    assert Same(map[], job.key.file, name) == {};
    var s1 := Do(With(job, Encoded(name), map[]), ListSame(0), max);
    assert s1 == With(job, Clearing(name, {}), map[]);
    var s2 := Do(s1, ClearDone(0), max);
    assert s2 == With(job, Cleared(name), map[]);
    assert Same(s2.children, job.key.file, name) == {};
    assert Do(s2, ListNames(0), max) == With(job, Free(name), map[]);
  }

  lemma Writing(job: Job, name: string, size: nat, report: Report, now: Time, max: nat)
    requires job.status.Running? && size > 0 && report.renditionName == Given(Some(name))
    ensures var s := With(job, Free(name), map[]);
            Enabled(s, Touch(0, 0)) && Enabled(Do(s, Touch(0, 0), max), Put(0, size)) &&
            var t := Do(Do(s, Touch(0, 0), max), Put(0, size), max);
            Enabled(t, Succeed(0, report, now)) &&
            Do(t, Succeed(0, report, now), max) ==
            With(Finished(job, Succeeded, report, now), Ended, map[0 := Child(job.key.file, name, size)])
  {
    hide SafeVersion, Fmt, OldestQueued, MediaJobRuns.Legal, Published, Older;
    var s1 := Do(With(job, Free(name), map[]), Touch(0, 0), max);
    assert s1 == With(job, Touched(name, 0), map[0 := Child(job.key.file, name, 0)]);
    var s2 := Do(s1, Put(0, size), max);
    assert s2 == With(job, Written(name), map[0 := Child(job.key.file, name, size)]);
    var s3 := Do(s2, Succeed(0, report, now), max);
    assert s3.jobs == map[job.uid := Finished(job, Succeeded, report, now)];
    assert s3.workers == map[0 := Worker(job.uid, Ended)];
  }

  /** Any publish that is requested under a profile with a rendition, and left alone,
      ends in a success that names a child with the content written. */
  lemma UndisturbedPublishSucceeds(key: Key, u: Uid, who: string, ext: string, size: nat, report: Report, now: Time,
      max: nat)
    returns (run: seq<Action>)
    requires Fmt(key.profile).Some? && ext != "" && '.' !in ext && size > 0
    requires report.renditionName == Given(Some(RenditionName(key.version, Fmt(key.profile).value, ext)))
    ensures Possible(START, run, max)
    ensures var s, name := After(START, run, max), RenditionName(key.version, Fmt(key.profile).value, ext);
            u in s.jobs && s.jobs[u].key == key && s.jobs[u].status.Succeeded? && s.jobs[u].facts.renditionName == Some(name) &&
            s.children == map[0 := Child(key.file, name, size)]
  {
    hide CanRun, Possible, After, Enabled, Allowed, Do, Fmt, RenditionName;
    var name := RenditionName(key.version, Fmt(key.profile).value, ext);
    var claimed := Claimed(NewJob(u, key, who, now), now);
    var job := Beaten(claimed, 0, now);
    Claiming(key, u, who, now, max);
    Encodes(claimed, ext, now, max);
    Clears(job, name, max);
    Writing(job, name, size, report, now, max);
    var s0 := Do(START, Store(MediaJobRuns.Request(u, key, who, now)), max);
    var s1 := Do(s0, ClaimBy(0, u, now), max);
    var s2 := Do(s1, Beat(0, ext, 0, now), max);
    var s3 := Do(s2, ListSame(0), max);
    var s4 := Do(s3, ClearDone(0), max);
    var s5 := Do(s4, ListNames(0), max);
    var s6 := Do(s5, Touch(0, 0), max);
    var s7 := Do(s6, Put(0, size), max);
    var s8 := Do(s7, Succeed(0, report, now), max);
    var r7 := [Succeed(0, report, now)];
    var r6 := [Put(0, size)] + r7;
    var r5 := [Touch(0, 0)] + r6;
    var r4 := [ListNames(0)] + r5;
    var r3 := [ClearDone(0)] + r4;
    var r2 := [ListSame(0)] + r3;
    var r1 := [Beat(0, ext, 0, now)] + r2;
    var r0 := [ClaimBy(0, u, now)] + r1;
    run := [Store(MediaJobRuns.Request(u, key, who, now))] + r0;
    NoSteps(s8, max);
    Prepend(s7, Succeed(0, report, now), [], r7, max);
    Prepend(s6, Put(0, size), r7, r6, max);
    Prepend(s5, Touch(0, 0), r6, r5, max);
    Prepend(s4, ListNames(0), r5, r4, max);
    Prepend(s3, ClearDone(0), r4, r3, max);
    Prepend(s2, ListSame(0), r3, r2, max);
    Prepend(s1, Beat(0, ext, 0, now), r2, r1, max);
    Prepend(s0, ClaimBy(0, u, now), r1, r0, max);
    Prepend(START, Store(MediaJobRuns.Request(u, key, who, now)), r0, run, max);
  }
}
