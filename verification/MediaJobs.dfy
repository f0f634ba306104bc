/** The durable publish job: the table as SQL updates it, the in-memory store that
    replaces rows one by one, and what every run of the store keeps. */
module MediaJobs {
  import opened Wrappers

  type Time = int
  type Uid = string

  datatype Status = Queued | Running | Succeeded | Skipped | Failed | Cancelled

  predicate Terminal(s: Status) {
    s.Succeeded? || s.Skipped? || s.Failed? || s.Cancelled?
  }

  /** States a new request restarts. */
  predicate Restartable(s: Status) {
    s.Failed? || s.Cancelled?
  }

  /** Not yet over: what a cancellation reaches, and what holds a retirement back. */
  predicate Active(s: Status) {
    s.Queued? || s.Running?
  }

  datatype Key = Key(file: string, version: string, profile: string)

  /** What only `finish`, a crash or a cancellation records about a job. */
  datatype Facts = Facts(sourceBytes: Option<int>, outputBytes: Option<int>, durationMs: Option<int>,
                         width: Option<int>, height: Option<int>, encoder: Option<string>,
                         renditionName: Option<string>, detail: Option<string>)

  const NO_FACTS := Facts(None, None, None, None, None, None, None, None)

  datatype Job = Job(uid: Uid, key: Key, status: Status, requestedBy: string, requestedAt: Time,
                     startedAt: Option<Time>, finishedAt: Option<Time>, heartbeatAt: Option<Time>,
                     attempts: nat, progress: int, facts: Facts)

  function NewJob(uid: Uid, key: Key, who: string, now: Time): Job {
    Job(uid, key, Queued, who, now, None, None, None, 0, 0, NO_FACTS)
  }

  function Restarted(j: Job, who: string, now: Time): Job {
    j.(status := Queued, requestedBy := who, requestedAt := now, startedAt := None, finishedAt := None,
       heartbeatAt := None, attempts := 0, progress := 0, facts := j.facts.(detail := None))
  }

  function Claimed(j: Job, now: Time): Job {
    j.(status := Running, startedAt := Some(now), heartbeatAt := Some(now), attempts := j.attempts + 1, progress := 0)
  }

  function Beaten(j: Job, pct: int, now: Time): Job {
    j.(heartbeatAt := Some(now), progress := if j.progress < pct then pct else j.progress)
  }

  /** A keyword argument of `finish`: absent, or a value to store. */
  datatype Given<+T> = Absent | Given(value: Option<T>)

  datatype Report = Report(sourceBytes: Given<int>, outputBytes: Given<int>, durationMs: Given<int>,
                           width: Given<int>, height: Given<int>, encoder: Given<string>,
                           renditionName: Given<string>, detail: Given<string>)

  const NO_REPORT := Report(Absent, Absent, Absent, Absent, Absent, Absent, Absent, Absent)

  function Pick<T>(g: Given<T>, stored: Option<T>): Option<T> {
    if g.Absent? then stored else g.value
  }

  function Merge(f: Facts, r: Report): Facts {
    Facts(Pick(r.sourceBytes, f.sourceBytes), Pick(r.outputBytes, f.outputBytes),
          Pick(r.durationMs, f.durationMs), Pick(r.width, f.width), Pick(r.height, f.height),
          Pick(r.encoder, f.encoder), Pick(r.renditionName, f.renditionName), Pick(r.detail, f.detail))
  }

  function Finished(j: Job, status: Status, report: Report, now: Time): Job {
    j.(status := status, finishedAt := Some(now), progress := if status.Succeeded? then 100 else j.progress,
       facts := Merge(j.facts, report))
  }

  function Abandoned(j: Job, now: Time): Job {
    j.(status := Failed, finishedAt := Some(now), facts := j.facts.(detail := Some("repeatedly crashed")))
  }

  function Requeued(j: Job): Job {
    j.(status := Queued, startedAt := None)
  }

  function CancelledJob(j: Job, now: Time): Job {
    j.(status := Cancelled, finishedAt := Some(now), facts := j.facts.(detail := Some("cancelled")))
  }

  // ---------------------------------------------------------------- the table, as SQL sees it

  /** The rows of `media_jobs`, by primary key. */
  type Table = map<Uid, Job>

  /** `UPDATE media_jobs SET ... WHERE ...` */
  function UpdateWhere(t: Table, cond: Job -> bool, assign: Job -> Job): Table {
    map u | u in t :: if cond(t[u]) then assign(t[u]) else t[u]
  }

  /** The keys an `UPDATE ... RETURNING job_uid` hands back. */
  function Returning(t: Table, cond: Job -> bool): set<Uid> {
    set u | u in t && cond(t[u])
  }

  ghost predicate HasKey(t: Table, k: Key) {
    exists u :: u in t && t[u].key == k
  }

  /** INSERT ... ON CONFLICT DO NOTHING, then the restarting UPDATE. */
  ghost function SqlRequest(t: Table, freshUid: Uid, k: Key, who: string, now: Time): Table {
    if HasKey(t, k)
    then UpdateWhere(t, (j: Job) => j.key == k && Restartable(j.status), (j: Job) => Restarted(j, who, now))
    else t[freshUid := NewJob(freshUid, k, who, now)]
  }

  /** `SELECT ... WHERE status = 'queued' ORDER BY requested_at LIMIT 1` may return `u`. */
  ghost predicate OldestQueued(t: Table, u: Uid) {
    && u in t && t[u].status.Queued?
    && forall v :: v in t && t[v].status.Queued? ==> t[u].requestedAt <= t[v].requestedAt
  }

  function SqlClaim(t: Table, u: Uid, now: Time): Table {
    UpdateWhere(t, (j: Job) => j.uid == u, (j: Job) => Claimed(j, now))
  }

  function SqlHeartbeat(t: Table, u: Uid, pct: int, now: Time): Table {
    UpdateWhere(t, (j: Job) => j.uid == u, (j: Job) => Beaten(j, pct, now))
  }

  function SqlFinish(t: Table, u: Uid, status: Status, report: Report, now: Time): Table {
    UpdateWhere(t, (j: Job) => j.uid == u && j.status.Running?, (j: Job) => Finished(j, status, report, now))
  }

  predicate IsStale(j: Job, cutoff: Time) {
    j.status.Running? && j.heartbeatAt.Some? && j.heartbeatAt.value < cutoff
  }

  /** The first statement fails the jobs out of attempts; the second requeues what is still running. */
  function SqlRequeueStale(t: Table, cutoff: Time, maxAttempts: nat, now: Time): Table {
    var failed := UpdateWhere(t, (j: Job) => IsStale(j, cutoff) && j.attempts >= maxAttempts, (j: Job) => Abandoned(j, now));
    UpdateWhere(failed, (j: Job) => IsStale(j, cutoff), (j: Job) => Requeued(j))
  }

  predicate Cancellable(j: Job, file: string) {
    j.key.file == file && Active(j.status)
  }

  function SqlCancel(t: Table, file: string, now: Time): Table {
    UpdateWhere(t, (j: Job) => Cancellable(j, file), (j: Job) => CancelledJob(j, now))
  }

  // ---------------------------------------------------------------- what each statement sets, column by column

  datatype Column =
    | JobUid | FileVersionProfile | StatusOf | RequestedBy | RequestedAt | StartedAt | FinishedAt | HeartbeatAt | Attempts
    | Progress | SourceBytes | OutputBytes | DurationMs | Width | Height | Encoder | RenditionNameOf | Detail

  const OUTCOME := {SourceBytes, OutputBytes, DurationMs, Width, Height, Encoder, RenditionNameOf, Detail}

  /** Every column but these is as it was. */
  predicate SameBut(j: Job, j': Job, cols: set<Column>) {
    && (JobUid !in cols ==> j'.uid == j.uid)
    && (FileVersionProfile !in cols ==> j'.key == j.key)
    && (StatusOf !in cols ==> j'.status == j.status)
    && (RequestedBy !in cols ==> j'.requestedBy == j.requestedBy)
    && (RequestedAt !in cols ==> j'.requestedAt == j.requestedAt)
    && (StartedAt !in cols ==> j'.startedAt == j.startedAt)
    && (FinishedAt !in cols ==> j'.finishedAt == j.finishedAt)
    && (HeartbeatAt !in cols ==> j'.heartbeatAt == j.heartbeatAt)
    && (Attempts !in cols ==> j'.attempts == j.attempts)
    && (Progress !in cols ==> j'.progress == j.progress)
    && (SourceBytes !in cols ==> j'.facts.sourceBytes == j.facts.sourceBytes)
    && (OutputBytes !in cols ==> j'.facts.outputBytes == j.facts.outputBytes)
    && (DurationMs !in cols ==> j'.facts.durationMs == j.facts.durationMs)
    && (Width !in cols ==> j'.facts.width == j.facts.width)
    && (Height !in cols ==> j'.facts.height == j.facts.height)
    && (Encoder !in cols ==> j'.facts.encoder == j.facts.encoder)
    && (RenditionNameOf !in cols ==> j'.facts.renditionName == j.facts.renditionName)
    && (Detail !in cols ==> j'.facts.detail == j.facts.detail)
  }

  /** No row but `u`'s is touched, and none comes or goes. */
  ghost predicate OnlyRow(t: Table, t': Table, u: Uid) {
    t'.Keys == t.Keys && forall v :: v in t && v != u ==> t'[v] == t[v]
  }

  ghost predicate ByUid(t: Table) {
    forall u :: u in t ==> t[u].uid == u
  }

  /** A request makes a queued row that nobody has tried yet; or restarts a failed or cancelled job as if it were new,
      keeping what its last attempt found out; or leaves everything as it is. */
  lemma RequestSets(t: Table, freshUid: Uid, k: Key, who: string, now: Time, u: Uid)
    requires ByUid(t) && freshUid !in t && (forall v, w :: v in t && w in t && t[v].key == t[w].key ==> v == w)
    ensures var t' := SqlRequest(t, freshUid, k, who, now);
            && ((forall v :: v in t ==> t[v].key != k) ==>
                  && t'.Keys == t.Keys + {freshUid} && (forall v :: v in t ==> t'[v] == t[v])
                  && var j := t'[freshUid];
                     && j.uid == freshUid && j.key == k && j.status == Queued && j.requestedBy == who && j.requestedAt == now
                     && j.startedAt == None && j.finishedAt == None && j.heartbeatAt == None && j.attempts == 0 && j.progress == 0
                     && j.facts == Facts(None, None, None, None, None, None, None, None))
            && (u in t && t[u].key == k && (t[u].status == Failed || t[u].status == Cancelled) ==>
                  && OnlyRow(t, t', u)
                  && var j := t'[u];
                     && j.status == Queued && j.requestedBy == who && j.requestedAt == now
                     && j.startedAt == None && j.finishedAt == None && j.heartbeatAt == None && j.attempts == 0 && j.progress == 0
                     && j.facts.detail == None
                     && SameBut(t[u], j, {StatusOf, RequestedBy, RequestedAt, StartedAt, FinishedAt, HeartbeatAt, Attempts, Progress, Detail}))
            && (u in t && t[u].key == k && t[u].status != Failed && t[u].status != Cancelled ==> t' == t)
  {
    var t' := SqlRequest(t, freshUid, k, who, now);
    if u in t && t[u].key == k && t[u].status != Failed && t[u].status != Cancelled {
      assert t' == t;
    }
  }

  /** A claim starts another attempt of one row. */
  lemma ClaimSets(t: Table, u: Uid, now: Time)
    requires ByUid(t) && u in t
    ensures var t' := SqlClaim(t, u, now);
            && OnlyRow(t, t', u)
            && var j := t'[u];
               && j.status == Running && j.startedAt == Some(now) && j.heartbeatAt == Some(now)
               && j.attempts == t[u].attempts + 1 && j.progress == 0
               && SameBut(t[u], j, {StatusOf, StartedAt, HeartbeatAt, Attempts, Progress})
  {
  }

  /** A heartbeat records that the worker lives, and progress where that is higher. */
  lemma HeartbeatSets(t: Table, u: Uid, pct: int, now: Time)
    requires ByUid(t)
    ensures var t' := SqlHeartbeat(t, u, pct, now);
            && (u !in t ==> t' == t)
            && (u in t ==>
                  && OnlyRow(t, t', u) && t'[u].heartbeatAt == Some(now)
                  && t'[u].progress >= t[u].progress && t'[u].progress >= pct && (t'[u].progress == t[u].progress || t'[u].progress == pct)
                  && SameBut(t[u], t'[u], {HeartbeatAt, Progress}))
  {
    if u !in t {
      assert SqlHeartbeat(t, u, pct, now) == t;
    }
  }

  /** A report's word on one column. */
  predicate Reported<T(==)>(g: Given<T>, before: Option<T>, after: Option<T>) {
    match g
    case Absent => after == before
    case Given(v) => after == v
  }

  /** An outcome is recorded in a running row, with each fact the report gives; any other row keeps its record. */
  lemma FinishSets(t: Table, u: Uid, status: Status, r: Report, now: Time)
    requires ByUid(t)
    ensures var t' := SqlFinish(t, u, status, r, now);
            && (u !in t || t[u].status != Running ==> t' == t)
            && (u in t && t[u].status == Running ==>
                  && OnlyRow(t, t', u)
                  && var j, j' := t[u], t'[u];
                     && j'.status == status && j'.finishedAt == Some(now)
                     && j'.progress == (if status == Succeeded then 100 else j.progress)
                     && Reported(r.sourceBytes, j.facts.sourceBytes, j'.facts.sourceBytes)
                     && Reported(r.outputBytes, j.facts.outputBytes, j'.facts.outputBytes)
                     && Reported(r.durationMs, j.facts.durationMs, j'.facts.durationMs)
                     && Reported(r.width, j.facts.width, j'.facts.width)
                     && Reported(r.height, j.facts.height, j'.facts.height)
                     && Reported(r.encoder, j.facts.encoder, j'.facts.encoder)
                     && Reported(r.renditionName, j.facts.renditionName, j'.facts.renditionName)
                     && Reported(r.detail, j.facts.detail, j'.facts.detail)
                     && SameBut(j, j', {StatusOf, FinishedAt, Progress} + OUTCOME))
  {
    if u !in t || t[u].status != Running {
      assert SqlFinish(t, u, status, r, now) == t;
    }
  }

  /** A sweep fails the running rows whose heartbeat is older than the cutoff and whose attempts are used up, puts the
      others of them back into the queue, and leaves every other row alone. */
  lemma SweepSets(t: Table, cutoff: Time, maxAttempts: nat, now: Time, u: Uid)
    requires u in t
    ensures var t' := SqlRequeueStale(t, cutoff, maxAttempts, now);
            && t'.Keys == t.Keys
            && var j, j' := t[u], t'[u];
               var stale := j.status == Running && j.heartbeatAt.Some? && j.heartbeatAt.value < cutoff;
               && (!stale ==> j' == j)
               && (stale && j.attempts >= maxAttempts ==>
                     && j'.status == Failed && j'.finishedAt == Some(now) && j'.facts.detail == Some("repeatedly crashed")
                     && SameBut(j, j', {StatusOf, FinishedAt, Detail}))
               && (stale && j.attempts < maxAttempts ==>
                     j'.status == Queued && j'.startedAt == None && SameBut(j, j', {StatusOf, StartedAt}))
  {
  }

  /** A cancellation ends every queued or running row of the file, and no other. */
  lemma CancelSets(t: Table, file: string, now: Time, u: Uid)
    requires u in t
    ensures var t' := SqlCancel(t, file, now);
            && t'.Keys == t.Keys
            && var j, j' := t[u], t'[u];
               var hit := j.key.file == file && (j.status == Queued || j.status == Running);
               && (!hit ==> j' == j)
               && (hit ==>
                     && j'.status == Cancelled && j'.finishedAt == Some(now) && j'.facts.detail == Some("cancelled")
                     && SameBut(j, j', {StatusOf, FinishedAt, Detail}))
  {
  }

  // ---------------------------------------------------------------- the in-memory store

  /** The dict of jobs, in insertion order, as a table. */
  function Rows(js: seq<Job>): Table {
    if js == [] then map[] else Rows(js[..|js| - 1])[js[|js| - 1].uid := js[|js| - 1]]
  }

  /** No uid twice, and no (file, version, profile) twice. */
  ghost predicate Distinct(js: seq<Job>) {
    js == [] ||
    (var init, last := js[..|js| - 1], js[|js| - 1];
     Distinct(init) && last.uid !in Rows(init) && !HasKey(Rows(init), last.key))
  }

  /** What the one pass of the in-memory `requeue_stale` does to one job. */
  function Swept(j: Job, cutoff: Time, maxAttempts: nat, now: Time): Job {
    if !IsStale(j, cutoff) then j else if j.attempts >= maxAttempts then Abandoned(j, now) else Requeued(j)
  }

  function CancelOne(j: Job, file: string, now: Time): Job {
    if Cancellable(j, file) then CancelledJob(j, now) else j
  }

  lemma RowsHold(js: seq<Job>, i: nat)
    requires Distinct(js) && i < |js|
    ensures js[i].uid in Rows(js) && Rows(js)[js[i].uid] == js[i]
  {
    if i < |js| - 1 {
      RowsHold(js[..|js| - 1], i);
    }
  }

  lemma RowsFrom(js: seq<Job>, u: Uid) returns (i: nat)
    requires u in Rows(js)
    ensures i < |js| && js[i].uid == u && Rows(js)[u] == js[i]
  {
    if js[|js| - 1].uid == u {
      i := |js| - 1;
    } else {
      i := RowsFrom(js[..|js| - 1], u);
    }
  }

  /** Replacing one job by a version of itself replaces one row. */
  lemma RowsUpdate(js: seq<Job>, i: nat, j: Job)
    requires Distinct(js) && i < |js| && j.uid == js[i].uid && j.key == js[i].key
    ensures Rows(js[i := j]) == Rows(js)[j.uid := j] && Distinct(js[i := j])
  {
    var init, js' := js[..|js| - 1], js[i := j];
    if i == |js| - 1 {
      assert js'[..|js| - 1] == init;
    } else {
      assert js'[..|js| - 1] == init[i := j];
      RowsUpdate(init, i, j);
      RowsHold(init, i);
      SameKeys(Rows(init), Rows(init[i := j]));
    }
  }

  lemma SameKeys(t: Table, t': Table)
    requires t.Keys == t'.Keys && forall u :: u in t ==> t'[u].key == t[u].key
    ensures forall k :: HasKey(t', k) <==> HasKey(t, k)
  {
    forall k ensures HasKey(t', k) <==> HasKey(t, k) {
      if HasKey(t, k) {
        var u :| u in t && t[u].key == k;
        assert t'[u].key == k;
      }
    }
  }

  /** A pass over all the jobs is an update of every row. */
  lemma {:induction false} RowsMap(js: seq<Job>, js': seq<Job>, f: Job -> Job)
    requires Distinct(js) && |js| == |js'|
    requires forall m :: 0 <= m < |js| ==> js'[m] == f(js[m]) && js'[m].uid == js[m].uid && js'[m].key == js[m].key
    ensures Rows(js') == map u | u in Rows(js) :: f(Rows(js)[u])
    ensures Distinct(js') && forall u :: u in Rows(js) ==> f(Rows(js)[u]).key == Rows(js)[u].key
  {
    if js != [] {
      var n := |js| - 1;
      RowsMap(js[..n], js'[..n], f);
      SameKeys(Rows(js[..n]), Rows(js'[..n]));
    }
  }

  lemma RowsAppend(js: seq<Job>, j: Job)
    requires Distinct(js) && j.uid !in Rows(js) && !HasKey(Rows(js), j.key)
    ensures Distinct(js + [j]) && Rows(js + [j]) == Rows(js)[j.uid := j]
  {
    assert (js + [j])[..|js|] == js;
  }

  /** An UPDATE whose condition picks out one row, and one whose condition picks out none. */
  lemma UpdateRow(t: Table, u: Uid, cond: Job -> bool, assign: Job -> Job)
    requires u in t && forall v :: v in t ==> (cond(t[v]) <==> v == u)
    ensures UpdateWhere(t, cond, assign) == t[u := assign(t[u])]
  {
  }

  lemma UpdateNone(t: Table, cond: Job -> bool, assign: Job -> Job)
    requires forall v :: v in t ==> !cond(t[v])
    ensures UpdateWhere(t, cond, assign) == t
  {
  }

  /** The uids of the jobs that satisfy `p`, in insertion order. */
  function UidsWhere(js: seq<Job>, p: Job -> bool): seq<Uid> {
    if js == [] then []
    else UidsWhere(js[..|js| - 1], p) + if p(js[|js| - 1]) then [js[|js| - 1].uid] else []
  }

  lemma UidsMore(js: seq<Job>, i: nat, p: Job -> bool)
    requires i < |js|
    ensures UidsWhere(js[..i + 1], p) == UidsWhere(js[..i], p) + if p(js[i]) then [js[i].uid] else []
  {
    assert js[..i + 1][..i] == js[..i];
  }

  lemma NoUids(js: seq<Job>, p: Job -> bool)
    ensures UidsWhere(js[..0], p) == []
  {
  }

  lemma UidsWhereReturned(js: seq<Job>, p: Job -> bool)
    requires Distinct(js)
    ensures (set u | u in UidsWhere(js, p)) == Returning(Rows(js), p)
  {
    if js != [] {
      var init, last := js[..|js| - 1], js[|js| - 1];
      UidsWhereReturned(init, p);
      assert Returning(Rows(js), p) == Returning(Rows(init), p) + (if p(last) then {last.uid} else {});
    }
  }

  lemma RowKeys(js: seq<Job>)
    requires Distinct(js)
    ensures forall u :: u in Rows(js) ==> Rows(js)[u].uid == u
    ensures forall i :: 0 <= i < |js| ==> js[i].uid in Rows(js) && Rows(js)[js[i].uid] == js[i]
    ensures forall u :: u in Rows(js) ==> exists i :: 0 <= i < |js| && js[i].uid == u
    ensures forall u, v :: u in Rows(js) && v in Rows(js) && Rows(js)[u].key == Rows(js)[v].key ==> u == v
  {
    forall i | 0 <= i < |js| ensures js[i].uid in Rows(js) && Rows(js)[js[i].uid] == js[i] {
      RowsHold(js, i);
    }
    forall u | u in Rows(js) ensures exists i :: 0 <= i < |js| && js[i].uid == u {
      var i := RowsFrom(js, u);
    }
    RowKeysUnique(js);
  }

  lemma RowKeysUnique(js: seq<Job>)
    requires Distinct(js)
    ensures forall u :: u in Rows(js) ==> Rows(js)[u].uid == u
    ensures forall u, v :: u in Rows(js) && v in Rows(js) && Rows(js)[u].key == Rows(js)[v].key ==> u == v
  {
    if js != [] {
      RowKeysUnique(js[..|js| - 1]);
    }
  }

  /** A request that finds its job: the UPDATE restarts that row, or touches nothing. */
  lemma RequestExisting(js: seq<Job>, i: nat, freshUid: Uid, k: Key, who: string, now: Time)
    requires Distinct(js) && i < |js| && js[i].key == k
    ensures SqlRequest(Rows(js), freshUid, k, who, now) ==
            if Restartable(js[i].status) then Rows(js)[js[i].uid := Restarted(js[i], who, now)] else Rows(js)
  {
    var t := Rows(js);
    RowKeys(js);
    assert t[js[i].uid].key == k;
    if Restartable(js[i].status) {
      UpdateRow(t, js[i].uid, (j: Job) => j.key == k && Restartable(j.status), (j: Job) => Restarted(j, who, now));
    } else {
      UpdateNone(t, (j: Job) => j.key == k && Restartable(j.status), (j: Job) => Restarted(j, who, now));
    }
  }

  lemma CancelIsOnePass(t: Table, file: string, now: Time)
    ensures SqlCancel(t, file, now) == map u | u in t :: CancelOne(t[u], file, now)
  {
  }

  /** One instance is one tenant's jobs; each method is one critical section of the lock. */
  class MemoryMediaJobStore {
    var jobs: seq<Job>

    ghost predicate Valid()
      reads this
    {
      Distinct(jobs)
    }

    ghost function Contents(): Table
      requires Valid()
      reads this
    {
      Rows(jobs)
    }

    constructor ()
      ensures Valid() && Contents() == map[]
    {
      jobs := [];
    }

    method Request(freshUid: Uid, k: Key, who: string, now: Time) returns (job: Job, created: bool)
      requires Valid() && freshUid !in Contents()
      modifies this
      ensures Valid() && Contents() == SqlRequest(old(Contents()), freshUid, k, who, now)
      ensures job.uid in Contents() && Contents()[job.uid] == job && job.key == k
      ensures created <==> !(job.uid in old(Contents()) && old(Contents())[job.uid] == job)
    {
      ghost var t := Contents();
      RowKeys(jobs);
      var i := 0;
      while i < |jobs|
        invariant 0 <= i <= |jobs| && jobs == old(jobs)
        invariant forall m :: 0 <= m < i ==> jobs[m].key != k
      {
        var j := jobs[i];
        if j.key == k {
          RequestExisting(jobs, i, freshUid, k, who, now);
          if Restartable(j.status) {
            job, created := Restarted(j, who, now), true;
            RowsUpdate(jobs, i, job);
            jobs := jobs[i := job];
            assert Contents() == t[job.uid := job];
          } else {
            job, created := j, false;
          }
          return;
        }
        i := i + 1;
      }
      job, created := NewJob(freshUid, k, who, now), true;
      assert !HasKey(t, k);
      RowsAppend(jobs, job);
      jobs := jobs + [job];
    }

    method Claim(now: Time) returns (claimed: Option<Job>)
      requires Valid()
      modifies this
      ensures Valid()
      ensures claimed.None? ==> Contents() == old(Contents()) && forall u :: u in Contents() ==> Contents()[u].status != Queued
      ensures claimed.Some? ==>
                var u := claimed.value.uid;
                u in old(Contents()) && old(Contents())[u].status == Queued &&
                forall v :: v in old(Contents()) && old(Contents())[v].status == Queued ==>
                  old(Contents())[u].requestedAt <= old(Contents())[v].requestedAt
      ensures claimed.Some? ==> OldestQueued(old(Contents()), claimed.value.uid) &&
                                Contents() == SqlClaim(old(Contents()), claimed.value.uid, now) &&
                                claimed.value == Claimed(old(Contents())[claimed.value.uid], now)
    {
      ghost var t := Contents();
      RowKeys(jobs);
      var i, best := 0, None;
      while i < |jobs|
        invariant 0 <= i <= |jobs|
        invariant best.None? ==> forall m :: 0 <= m < i ==> !jobs[m].status.Queued?
        invariant best.Some? ==> 0 <= best.value < i && jobs[best.value].status.Queued?
        invariant best.Some? ==> forall m :: 0 <= m < i && jobs[m].status.Queued? ==>
                                   jobs[best.value].requestedAt <= jobs[m].requestedAt
      {
        if jobs[i].status.Queued? && (best.None? || jobs[i].requestedAt < jobs[best.value].requestedAt) {
          best := Some(i);
        }
        i := i + 1;
      }
      if best.None? {
        return None;
      }
      var b := best.value;
      var j := Claimed(jobs[b], now);
      assert t[j.uid] == jobs[b];
      UpdateRow(t, j.uid, (r: Job) => r.uid == j.uid, (r: Job) => Claimed(r, now));
      RowsUpdate(jobs, b, j);
      jobs := jobs[b := j];
      return Some(j);
    }

    method Heartbeat(u: Uid, pct: int, now: Time) returns (status: Status)
      requires Valid()
      modifies this
      ensures Valid() && Contents() == SqlHeartbeat(old(Contents()), u, pct, now)
      ensures status == if u in old(Contents()) then old(Contents())[u].status else Cancelled
      ensures u !in old(Contents()) ==> Contents() == old(Contents())
      ensures u in old(Contents()) ==>
        var j, j' := old(Contents())[u], Contents()[u];
        && OnlyRow(old(Contents()), Contents(), u) && SameBut(j, j', {HeartbeatAt, Progress})
        && j'.heartbeatAt == Some(now) && j'.progress == (if pct > j.progress then pct else j.progress)
    {
      hide SameBut, OnlyRow;
      var at := Find(u);
      RowKeys(jobs);
      HeartbeatSets(Contents(), u, pct, now);
      if at.None? {
        UpdateNone(Contents(), (r: Job) => r.uid == u, (r: Job) => Beaten(r, pct, now));
        return Cancelled;
      }
      var j := Beaten(jobs[at.value], pct, now);
      status := j.status;
      UpdateRow(Contents(), u, (r: Job) => r.uid == u, (r: Job) => Beaten(r, pct, now));
      RowsUpdate(jobs, at.value, j);
      jobs := jobs[at.value := j];
    }

    method Finish(u: Uid, status: Status, report: Report, now: Time) returns (r: Result<Option<Job>, string>)
      requires Valid()
      modifies this
      ensures Valid()
      ensures r.Err? <==> status == Queued || status == Running
      ensures r.Err? ==> jobs == old(jobs)
      ensures r.Ok? ==> Contents() == SqlFinish(old(Contents()), u, status, report, now)
      ensures r.Ok? ==> (r.value.Some? <==> u in old(Contents()) && old(Contents())[u].status.Running?)
      ensures r.Ok? && r.value.Some? ==> u in Contents() && Contents()[u] == r.value.value
    {
      if !Terminal(status) {
        return Err("not a terminal status");
      }
      var at := Find(u);
      RowKeys(jobs);
      if at.None? || !jobs[at.value].status.Running? {
        UpdateNone(Contents(), (j: Job) => j.uid == u && j.status.Running?, (j: Job) => Finished(j, status, report, now));
        return Ok(None);
      }
      var j := Finished(jobs[at.value], status, report, now);
      UpdateRow(Contents(), u, (j: Job) => j.uid == u && j.status.Running?, (j: Job) => Finished(j, status, report, now));
      RowsUpdate(jobs, at.value, j);
      jobs := jobs[at.value := j];
      return Ok(Some(j));
    }

    method RequeueStale(cutoff: Time, maxAttempts: nat, now: Time) returns (requeued: seq<Uid>, failed: seq<Uid>)
      requires Valid()
      modifies this
      ensures Valid() && Contents() == SqlRequeueStale(old(Contents()), cutoff, maxAttempts, now)
      ensures (set u | u in failed) == Returning(old(Contents()), (j: Job) => IsStale(j, cutoff) && j.attempts >= maxAttempts)
      ensures (set u | u in requeued) == Returning(old(Contents()), (j: Job) => IsStale(j, cutoff) && j.attempts < maxAttempts)
    {
      hide Rows, Distinct, SqlRequeueStale, UidsWhere, Returning;
      requeued, failed := [], [];
      ghost var before := jobs;
      ghost var spent := (j: Job) => IsStale(j, cutoff) && j.attempts >= maxAttempts;
      ghost var again := (j: Job) => IsStale(j, cutoff) && j.attempts < maxAttempts;
      NoUids(before, spent);
      NoUids(before, again);
      var i := 0;
      while i < |jobs|
        invariant 0 <= i <= |jobs| == |before|
        invariant forall m :: 0 <= m < i ==> jobs[m] == Swept(before[m], cutoff, maxAttempts, now)
        invariant forall m :: i <= m < |jobs| ==> jobs[m] == before[m]
        invariant failed == UidsWhere(before[..i], spent)
        invariant requeued == UidsWhere(before[..i], again)
      {
        var j := jobs[i];
        UidsMore(before, i, spent);
        UidsMore(before, i, again);
        if IsStale(j, cutoff) {
          if j.attempts >= maxAttempts {
            jobs := jobs[i := Abandoned(j, now)];
            failed := failed + [j.uid];
          } else {
            jobs := jobs[i := Requeued(j)];
            requeued := requeued + [j.uid];
          }
        }
        i := i + 1;
      }
      assert before[..i] == before;
      RowsMap(before, jobs, (j: Job) => Swept(j, cutoff, maxAttempts, now));
      SweepIsTwoStatements(Rows(before), cutoff, maxAttempts, now);
      UidsWhereReturned(before, spent);
      UidsWhereReturned(before, again);
    }

    method Cancel(file: string, now: Time) returns (gone: seq<Uid>)
      requires Valid()
      modifies this
      ensures Valid() && Contents() == SqlCancel(old(Contents()), file, now)
      ensures (set u | u in gone) == Returning(old(Contents()), (j: Job) => Cancellable(j, file))
    {
      hide Rows, Distinct, SqlCancel, UidsWhere, Returning;
      gone := [];
      ghost var before := jobs;
      ghost var hit := (j: Job) => Cancellable(j, file);
      NoUids(before, hit);
      var i := 0;
      while i < |jobs|
        invariant 0 <= i <= |jobs| == |before|
        invariant forall m :: 0 <= m < i ==> jobs[m] == CancelOne(before[m], file, now)
        invariant forall m :: i <= m < |jobs| ==> jobs[m] == before[m]
        invariant gone == UidsWhere(before[..i], hit)
      {
        var j := jobs[i];
        UidsMore(before, i, hit);
        if Cancellable(j, file) {
          jobs := jobs[i := CancelledJob(j, now)];
          gone := gone + [j.uid];
        }
        i := i + 1;
      }
      assert before[..i] == before;
      RowsMap(before, jobs, (j: Job) => CancelOne(j, file, now));
      CancelIsOnePass(Rows(before), file, now);
      UidsWhereReturned(before, hit);
    }

    /** `dict.get`: where the job sits, if it is there. */
    method Find(u: Uid) returns (at: Option<nat>)
      requires Valid()
      ensures at.None? ==> u !in Contents()
      ensures at.Some? ==> at.value < |jobs| && jobs[at.value].uid == u
    {
      RowKeys(jobs);
      var i := 0;
      while i < |jobs|
        invariant 0 <= i <= |jobs|
        invariant forall m :: 0 <= m < i ==> jobs[m].uid != u
      {
        if jobs[i].uid == u {
          return Some(i);
        }
        i := i + 1;
      }
      return None;
    }
  }

  /** Failing first and requeueing second touches no row twice: one pass does the same. */
  lemma SweepIsTwoStatements(t: Table, cutoff: Time, maxAttempts: nat, now: Time)
    ensures SqlRequeueStale(t, cutoff, maxAttempts, now) == map u | u in t :: Swept(t[u], cutoff, maxAttempts, now)
  {
  }
}
