/** What holds after every run of the publish protocol: a success has its rendition, and a
    link that plays the newest published version never goes dark. */
module MediaPublishRuns {
  import opened Wrappers
  import opened Text
  import opened Renditions
  import opened MediaJobs
  import MediaJobRuns
  import opened MediaPublish

  /** Any run of the code. */
  ghost predicate CanRun(s: State, steps: seq<Action>, max: nat)
    decreases |steps|
  {
    steps == [] || (Allowed(s, steps[0]) && CanRun(Do(s, steps[0], max), steps[1..], max))
  }

  /** A run that meets the protocol's assumptions. */
  ghost predicate Possible(s: State, steps: seq<Action>, max: nat): (r: bool)
    ensures r ==> CanRun(s, steps, max)
    decreases |steps|
  {
    steps == [] || (Enabled(s, steps[0]) && Possible(Do(s, steps[0], max), steps[1..], max))
  }

  ghost function After(s: State, steps: seq<Action>, max: nat): State
    requires CanRun(s, steps, max)
    decreases |steps|
  {
    if steps == [] then s else After(Do(s, steps[0], max), steps[1..], max)
  }

  const START := State(map[], map[], {}, map[])

  lemma StartInv(max: nat)
    requires max >= 1
    ensures Inv(START, max)
  {
  }

  lemma {:induction false} RunKeepsInv(s: State, steps: seq<Action>, max: nat)
    requires Inv(s, max) && Possible(s, steps, max)
    ensures Inv(After(s, steps, max), max)
    decreases |steps|
  {
    hide Inv, Enabled, Allowed, Do;
    if steps != [] {
      DoKeepsInv(s, steps[0], max);
      RunKeepsInv(Do(s, steps[0], max), steps[1..], max);
    }
  }

  /** Whatever crashes, cancellations and retries a run holds: every child of a succeeded job's file under the
      name it reports has content, and there is one, unless a newer version has been published instead; and no
      two children of a file share the name of a published rendition. */
  lemma CrashSafePublish(steps: seq<Action>, max: nat, u: Uid)
    requires max >= 1 && Possible(START, steps, max)
    requires u in After(START, steps, max).jobs && After(START, steps, max).jobs[u].status.Succeeded?
    ensures var s := After(START, steps, max);
            var name := s.jobs[u].facts.renditionName;
            name.Some? && Names(s.jobs[u].key, name.value) &&
            (forall c :: c in s.children && s.children[c].parent == s.jobs[u].key.file && s.children[c].name == name.value ==>
               s.children[c].size > 0) &&
            (Stored(s.children, s.jobs[u].key.file, name.value) || Superseded(s.jobs, s.jobs[u].key))
    ensures ChildrenInv(After(START, steps, max))
  {
    StartInv(max);
    RunKeepsInv(START, steps, max);
    var s := After(START, steps, max);
    assert JobInvariant(s.jobs, s.children, s.jobs[u]);
    var file, name := s.jobs[u].key.file, s.jobs[u].facts.renditionName.value;
    assert forall c :: c in s.children && s.children[c].parent == file && s.children[c].name == name ==> c in Same(s.children, file, name);
  }

  // ---------------------------------------------------------------- never dark

  /** A primary rendition with content, of version `v` or newer. */
  ghost predicate Playable(s: State, file: string, v: string) {
    exists c :: c in s.children && PlaysFrom(s.children[c], file, v)
  }

  predicate PlaysFrom(c: Child, file: string, v: string) {
    var p := ParseRenditionName(c.name);
    c.parent == file && c.size > 0 && p.Some? && p.value.fmt in PRIMARY_FMTS && !Less(p.value.version, v)
  }

  ghost function Ahead(t: Table, file: string, v: string): set<Uid> {
    set u | u in t && PrimaryDone(t[u], file) && Less(v, SafeVersion(t[u].key.version))
  }

  lemma {:induction false} SuccessIsPlayable(s: State, max: nat, u: Uid, v: string)
    requires Inv(s, max) && u in s.jobs && PrimaryDone(s.jobs[u], s.jobs[u].key.file)
    requires !Less(SafeVersion(s.jobs[u].key.version), v)
    ensures Playable(s, s.jobs[u].key.file, v)
    decreases Ahead(s.jobs, s.jobs[u].key.file, SafeVersion(s.jobs[u].key.version))
  {
    var key := s.jobs[u].key;
    assert JobInvariant(s.jobs, s.children, s.jobs[u]);
    var name := s.jobs[u].facts.renditionName.value;
    if Stored(s.children, key.file, name) {
      var c :| c in s.children && s.children[c].parent == key.file && s.children[c].name == name && s.children[c].size > 0;
      assert PlaysFrom(s.children[c], key.file, v);
    } else {
      var u' :| u' in s.jobs && PrimaryDone(s.jobs[u'], key.file) && Before(key, s.jobs[u'].key);
      NewerStill(s.jobs, u, u', v);
      SuccessIsPlayable(s, max, u', v);
    }
  }

  lemma NewerStill(t: Table, u: Uid, u': Uid, v: string)
    requires u in t && u' in t && PrimaryDone(t[u'], t[u].key.file) && Before(t[u].key, t[u'].key)
    requires !Less(SafeVersion(t[u].key.version), v)
    ensures !Less(SafeVersion(t[u'].key.version), v)
    ensures Ahead(t, t[u].key.file, SafeVersion(t[u'].key.version)) < Ahead(t, t[u].key.file, SafeVersion(t[u].key.version))
  {
    hide SafeVersion, Less;
    var a, b := SafeVersion(t[u].key.version), SafeVersion(t[u'].key.version);
    if Less(b, v) {
      LessTrans(a, b, v);
    }
    LessTotal(b, b);
    assert u' in Ahead(t, t[u].key.file, a) && u' !in Ahead(t, t[u].key.file, b);
    forall x | x in Ahead(t, t[u].key.file, b) ensures x in Ahead(t, t[u].key.file, a) {
      LessTrans(a, b, SafeVersion(t[x].key.version));
    }
  }

  lemma OpGrows(t: Table, op: MediaJobRuns.Op, max: nat)
    requires MediaJobRuns.TableInv(t, max) && MediaJobRuns.Legal(t, op)
    ensures Grow(t, MediaJobRuns.Apply(t, op, max))
  {
    MediaJobRuns.RowWise(t, op, max);
  }

  lemma GrowsItself(t: Table)
    ensures Grow(t, t)
  {
  }

  /** The operation of the job store that a step performs, if it performs one. */
  ghost function OpOf(s: State, a: Action): Option<MediaJobRuns.Op>
    requires Allowed(s, a)
  {
    match a
    case Store(op) => Some(op)
    case ClaimBy(_, uid, now) => Some(MediaJobRuns.Claim(uid, now))
    case Beat(w, _, pct, now) => Some(MediaJobRuns.Heartbeat(s.jobs[s.workers[w].job].uid, pct, now))
    case Succeed(w, r, now) => Some(MediaJobRuns.Finish(s.workers[w].job, Succeeded, r, now))
    case GiveUp(w, st, r, now) => Some(MediaJobRuns.Finish(s.workers[w].job, st, r, now))
    case _ => None
  }

  lemma DoIsOp(s: State, a: Action, max: nat)
    requires Enabled(s, a)
    ensures var op := OpOf(s, a);
            if op.Some? then MediaJobRuns.Legal(s.jobs, op.value) && Do(s, a, max).jobs == MediaJobRuns.Apply(s.jobs, op.value, max)
            else Do(s, a, max).jobs == s.jobs
  {
    hide NoLiveWorker, MayRetire, Same, Older, Published, SafeVersion, RenditionName, Fmt, Collide;
    hide SqlRequest, SqlClaim, SqlHeartbeat, SqlFinish, SqlRequeueStale, SqlCancel, OldestQueued;
    match a {
      case Store(_) =>
      case _ =>
    }
  }

  lemma DoGrows(s: State, a: Action, max: nat)
    requires Inv(s, max) && Enabled(s, a)
    ensures Grow(s.jobs, Do(s, a, max).jobs)
  {
    hide Grow, JobsInv, ChildrenInv, WorkersInv, Do, Enabled, Allowed;
    DoIsOp(s, a, max);
    if OpOf(s, a).Some? {
      OpGrows(s.jobs, OpOf(s, a).value, max);
    } else {
      GrowsItself(s.jobs);
    }
  }

  lemma {:induction false} RunGrows(s: State, steps: seq<Action>, max: nat, u: Uid)
    requires Inv(s, max) && Possible(s, steps, max) && u in s.jobs
    ensures u in After(s, steps, max).jobs && Later(s.jobs[u], After(s, steps, max).jobs[u])
    decreases |steps|
  {
    hide Inv, Enabled, Allowed, Do;
    if steps != [] {
      DoGrows(s, steps[0], max);
      DoKeepsInv(s, steps[0], max);
      RunGrows(Do(s, steps[0], max), steps[1..], max, u);
    }
  }

  /** Once a primary job of a version has succeeded, every later state of every run offers a
      primary rendition of that version or a newer one: replacing versions never takes a link dark. */
  lemma NeverDark(s: State, steps: seq<Action>, max: nat, u: Uid)
    requires Inv(s, max) && Possible(s, steps, max) && u in s.jobs
    requires s.jobs[u].status.Succeeded? && Primary(s.jobs[u].key.profile)
    ensures Playable(After(s, steps, max), s.jobs[u].key.file, SafeVersion(s.jobs[u].key.version))
  {
    hide SafeVersion;
    RunKeepsInv(s, steps, max);
    RunGrows(s, steps, max, u);
    LessTotal(SafeVersion(s.jobs[u].key.version), SafeVersion(s.jobs[u].key.version));
    SuccessIsPlayable(After(s, steps, max), max, u, SafeVersion(s.jobs[u].key.version));
  }

  // ---------------------------------------------------------------- progress

  /** A step after which a job starts over. */
  predicate StartsOver(a: Action, j: Job) {
    (a.Store? && a.op.Request? && a.op.key == j.key) || (a.ClaimBy? && a.uid == j.uid)
  }

  /** As encoders report 0 to 100 percent, a job's progress stays in that range and never falls, whatever else
      happens, until the job is claimed or requested again. */
  lemma {:induction false} ProgressNeverFalls(s: State, steps: seq<Action>, max: nat, u: Uid)
    requires Inv(s, max) && Possible(s, steps, max) && u in s.jobs
    requires forall i :: 0 <= i < |steps| ==> !StartsOver(steps[i], s.jobs[u])
    ensures u in After(s, steps, max).jobs && s.jobs[u].progress <= After(s, steps, max).jobs[u].progress <= 100
    decreases |steps|
  {
    hide Inv, Enabled, Allowed, Do;
    if steps == [] {
      ProgressInRange(s, max, u);
    } else {
      var t := Do(s, steps[0], max);
      StepProgress(s, steps[0], max, u);
      DoKeepsInv(s, steps[0], max);
      forall i | 0 <= i < |steps[1..]| ensures !StartsOver(steps[1..][i], t.jobs[u]) {
        assert steps[1..][i] == steps[i + 1];
      }
      ProgressNeverFalls(t, steps[1..], max, u);
    }
  }

  lemma ProgressInRange(s: State, max: nat, u: Uid)
    requires Inv(s, max) && u in s.jobs
    ensures 0 <= s.jobs[u].progress <= 100
  {
    assert JobInvariant(s.jobs, s.children, s.jobs[u]);
  }

  lemma StepProgress(s: State, a: Action, max: nat, u: Uid)
    requires Inv(s, max) && Enabled(s, a) && u in s.jobs && !StartsOver(a, s.jobs[u])
    ensures var t := Do(s, a, max).jobs;
            u in t && t[u].uid == s.jobs[u].uid && t[u].key == s.jobs[u].key && s.jobs[u].progress <= t[u].progress
  {
    hide JobsInv, ChildrenInv, WorkersInv, Do, Enabled, Allowed, OpOf, JobInvariant;
    DoIsOp(s, a, max);
    ProgressInRange(s, max, u);
    var op := OpOf(s, a);
    if op.Some? {
      MediaJobRuns.RowWise(s.jobs, op.value, max);
      OpStartsOver(s, a, s.jobs[u]);
    }
  }

  lemma OpStartsOver(s: State, a: Action, j: Job)
    requires Allowed(s, a) && OpOf(s, a).Some? && !StartsOver(a, j)
    ensures var op := OpOf(s, a).value; (op.Request? ==> op.key != j.key) && (op.Claim? ==> op.uid != j.uid)
  {
  }

  // ---------------------------------------------------------------- runs put together

  lemma NoSteps(s: State, max: nat)
    ensures CanRun(s, [], max) && Possible(s, [], max) && After(s, [], max) == s
  {
  }

  lemma Prepend(s: State, a: Action, rest: seq<Action>, run: seq<Action>, max: nat)
    requires Allowed(s, a) && CanRun(Do(s, a, max), rest, max) && run == [a] + rest
    ensures CanRun(s, run, max) && After(s, run, max) == After(Do(s, a, max), rest, max)
    ensures Enabled(s, a) && Possible(Do(s, a, max), rest, max) ==> Possible(s, run, max)
  {
    hide Enabled, Allowed, Do;
    assert run[1..] == rest;
  }

  lemma {:induction false} Join(s: State, first: seq<Action>, second: seq<Action>, max: nat)
    requires CanRun(s, first, max) && CanRun(After(s, first, max), second, max)
    ensures CanRun(s, first + second, max) && After(s, first + second, max) == After(After(s, first, max), second, max)
    decreases |first|
  {
    hide Allowed, Do;
    if first == [] {
      assert first + second == second;
    } else {
      var t := Do(s, first[0], max);
      Join(t, first[1..], second, max);
      Prepend(s, first[0], first[1..] + second, first + second, max);
    }
  }

  lemma One(s: State, a: Action, max: nat)
    requires Allowed(s, a)
    ensures CanRun(s, [a], max) && After(s, [a], max) == Do(s, a, max)
  {
    hide Allowed, Do;
    NoSteps(Do(s, a, max), max);
    Prepend(s, a, [], [a], max);
  }
}
