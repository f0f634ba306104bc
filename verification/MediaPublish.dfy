/** Publishing a rendition, one atomic step at a time: several workers, a crash between any two
    steps, cancellations, new requests, and the ingest worker writing and pruning beside them. */
module MediaPublish {
  import opened Wrappers
  import opened Text
  import opened Renditions
  import opened MediaJobs
  import opened MediaJobRuns

  type ChildUid = nat
  type WorkerId = nat

  /** A hidden child of a file. `touch` makes one of size 0; only `put` gives it content. */
  datatype Child = Child(parent: string, name: string, size: nat)

  /** Where a worker stands in one job. */
  datatype Pc =
    | Encoding                                       // claimed; nothing written yet
    | Encoded(name: string)                          // the last check for a cancellation passed
    | Clearing(name: string, todo: set<ChildUid>)    // same-named children listed, some not looked at yet
    | Cleared(name: string)
    | Free(name: string)                             // the writer listed the names: this one is free
    | Touched(name: string, child: ChildUid)
    | Written(name: string)                          // `write` returned, having written or skipped
    | Ended                                          // the outcome is recorded
    | Approved(current: string)                      // older versions may go
    | Retiring(current: string, todo: set<ChildUid>)

  datatype Worker = Worker(job: Uid, pc: Pc)

  /** `issued` remembers every child uid ever given out: the core never reuses one. */
  datatype State = State(jobs: Table, children: map<ChildUid, Child>, issued: set<ChildUid>,
                         workers: map<WorkerId, Worker>)

  function Fmt(profile: string): Option<string> {
    if profile == "video-720p-vp9" then Some("media")
    else if profile == "video-480p-vp9" then Some("media_sd")
    else if profile == "audio-mp3" then Some("audio")
    else if profile == "audio-opus" then Some("audio_opus")
    else if profile == "video-emailposter" then Some("emailposter")
    else None
  }

  /** The profiles there are, the format each is published as, and those that links wait for. */
  lemma Profiles(profile: string)
    ensures Fmt("video-720p-vp9") == Some("media") && Fmt("video-480p-vp9") == Some("media_sd") && Fmt("audio-mp3") == Some("audio")
    ensures Fmt("audio-opus") == Some("audio_opus") && Fmt("video-emailposter") == Some("emailposter")
    ensures Fmt(profile).Some? ==>
              profile in ["video-720p-vp9", "video-480p-vp9", "audio-mp3", "audio-opus", "video-emailposter"] &&
              Fmt(profile).value in PUBLISHED_FMTS && (Primary(profile) <==> Fmt(profile).value in PRIMARY_FMTS)
  {
  }

  predicate Primary(profile: string) {
    profile == "video-720p-vp9" || profile == "audio-mp3"
  }

  /** A worker whose outcome is still open, and which may yet write. */
  predicate Live(pc: Pc) {
    !pc.Ended? && !pc.Approved? && !pc.Retiring?
  }

  predicate Published(name: string) {
    var p := ParseRenditionName(name);
    p.Some? && p.value.fmt in PUBLISHED_FMTS
  }

  /** Two versions of one file whose children would share their names. */
  predicate Collide(k: Key, k': Key) {
    k.file == k'.file && k.version != k'.version && SafeVersion(k.version) == SafeVersion(k'.version)
  }

  ghost predicate Apart(t: Table) {
    forall u, v :: u in t && v in t ==> !Collide(t[u].key, t[v].key)
  }

  function Same(ch: map<ChildUid, Child>, file: string, name: string): set<ChildUid> {
    set c | c in ch && ch[c].parent == file && ch[c].name == name
  }

  /** What a retirement of the versions before `current` lists. */
  function Older(ch: map<ChildUid, Child>, file: string, current: string): set<ChildUid> {
    set c | c in ch && ch[c].parent == file && Published(ch[c].name) &&
            Less(ParseRenditionName(ch[c].name).value.version, current)
  }

  datatype Action =
    | Store(op: Op)
    | ClaimBy(w: WorkerId, uid: Uid, now: Time)
    | Beat(w: WorkerId, ext: string, pct: int, now: Time)
    | ListSame(w: WorkerId)
    | ClearOne(w: WorkerId, c: ChildUid)
    | PassOver(w: WorkerId, c: ChildUid)        // the child's size could not be asked for
    | ClearDone(w: WorkerId)
    | ListNames(w: WorkerId)
    | Touch(w: WorkerId, c: ChildUid)
    | Put(w: WorkerId, size: nat)
    | Succeed(w: WorkerId, report: Report, now: Time)
    | GiveUp(w: WorkerId, status: Status, report: Report, now: Time)
    | CheckRetire(w: WorkerId)
    | ListOlder(w: WorkerId)
    | RetireOne(w: WorkerId, c: ChildUid)
    | Stop(w: WorkerId)
    | OtherWrite(c: ChildUid, child: Child)
    | OtherPrune(c: ChildUid)

  ghost predicate NoLiveWorker(s: State, u: Uid) {
    forall w :: w in s.workers && s.workers[w].job == u ==> !Live(s.workers[w].pc)
  }

  ghost predicate At(s: State, w: WorkerId) {
    w in s.workers && s.workers[w].job in s.jobs
  }

  /** What the code can do. The encoder reports 0 to 100 percent; what counts as stale lies in the past. */
  ghost predicate Allowed(s: State, a: Action) {
    match a
    case Store(op) =>
      Legal(s.jobs, op) && !op.Claim? && !op.Finish? && (op.Heartbeat? ==> 0 <= op.pct <= 100) &&
      (op.RequeueStale? ==> op.cutoff <= op.now)
    case ClaimBy(w, uid, _) => w !in s.workers && OldestQueued(s.jobs, uid)
    case Beat(w, ext, pct, _) =>
      At(s, w) && s.workers[w].pc.Encoding? && ext != "" && '.' !in ext && Fmt(s.jobs[s.workers[w].job].key.profile).Some? &&
      0 <= pct <= 100
    case ListSame(w) => At(s, w) && s.workers[w].pc.Encoded?
    case ClearOne(w, c) => At(s, w) && s.workers[w].pc.Clearing? && c in s.workers[w].pc.todo
    case PassOver(w, c) => At(s, w) && s.workers[w].pc.Clearing? && c in s.workers[w].pc.todo
    case ClearDone(w) => At(s, w) && s.workers[w].pc.Clearing? && s.workers[w].pc.todo == {}
    case ListNames(w) => At(s, w) && s.workers[w].pc.Cleared?
    case Touch(w, c) => At(s, w) && s.workers[w].pc.Free? && c !in s.issued
    case Put(w, _) => At(s, w) && s.workers[w].pc.Touched? && s.workers[w].pc.child in s.children
    case Succeed(w, report, _) =>
      At(s, w) && s.workers[w].pc.Written? && report.renditionName == Given(Some(s.workers[w].pc.name))
    case GiveUp(w, status, _, _) =>
      At(s, w) && Live(s.workers[w].pc) && Terminal(status) && !status.Succeeded?
    case CheckRetire(w) => At(s, w) && s.workers[w].pc.Ended?
    case ListOlder(w) => At(s, w) && s.workers[w].pc.Approved?
    case RetireOne(w, c) => At(s, w) && s.workers[w].pc.Retiring? && c in s.workers[w].pc.todo
    case Stop(w) => w in s.workers
    case OtherWrite(c, _) => c !in s.issued
    case OtherPrune(c) => c in s.children
  }

  /** What the protocol assumes besides: a requested version collides with none requested before, a job
      goes back to the queue or to a worker only when no live worker holds it, the size of an empty child can be
      asked for, encoders produce content, and the other writers of a file's children write and remove
      no published media. */
  ghost predicate Assumed(s: State, a: Action) {
    match a
    case Store(op) =>
      && (op.Request? ==> forall u :: u in s.jobs ==> !Collide(s.jobs[u].key, op.key))
      && (op.RequeueStale? ==> forall u :: u in s.jobs && IsStale(s.jobs[u], op.cutoff) ==> NoLiveWorker(s, u))
    case ClaimBy(_, uid, _) => NoLiveWorker(s, uid)
    case PassOver(_, c) => c in s.children ==> s.children[c].size > 0
    case Put(_, size) => size > 0
    case OtherWrite(_, child) => !Published(child.name)
    case OtherPrune(c) => c in s.children ==> !Published(s.children[c].name)
    case _ => true
  }

  ghost predicate Enabled(s: State, a: Action): (r: bool)
    ensures r ==> Allowed(s, a)
  {
    Allowed(s, a) && Assumed(s, a)
  }

  function Move(s: State, w: WorkerId, pc: Pc): State
    requires w in s.workers
  {
    s.(workers := s.workers[w := s.workers[w].(pc := pc)])
  }

  function Leave(s: State, w: WorkerId): State {
    s.(workers := s.workers - {w})
  }

  /** `_end`: record the outcome if the job is still running; otherwise its record stands. */
  function End(s: State, w: WorkerId, status: Status, report: Report, now: Time): State
    requires w in s.workers && s.workers[w].job in s.jobs
  {
    var u := s.workers[w].job;
    var s' := s.(jobs := SqlFinish(s.jobs, u, status, report, now));
    if s.jobs[u].status.Running? then Move(s', w, Ended) else Leave(s', w)
  }

  /** Every job of this version is over and its primary rendition succeeded. */
  ghost predicate MayRetire(t: Table, key: Key) {
    && (forall u :: u in t && t[u].key.file == key.file && t[u].key.version == key.version ==> !Active(t[u].status))
    && exists u :: u in t && t[u].key.file == key.file && t[u].key.version == key.version &&
                   Primary(t[u].key.profile) && t[u].status.Succeeded?
  }

  ghost function Do(s: State, a: Action, max: nat): State
    requires Allowed(s, a)
  {
    match a
    case Store(op) => s.(jobs := Apply(s.jobs, op, max))
    case ClaimBy(w, uid, now) =>
      s.(jobs := SqlClaim(s.jobs, uid, now), workers := s.workers[w := Worker(uid, Encoding)])
    case Beat(w, ext, pct, now) =>
      var j := s.jobs[s.workers[w].job];
      var s' := s.(jobs := SqlHeartbeat(s.jobs, j.uid, pct, now));
      if j.status.Cancelled? then Leave(s', w)
      else Move(s', w, Encoded(RenditionName(j.key.version, Fmt(j.key.profile).value, ext)))
    case ListSame(w) =>
      var name := s.workers[w].pc.name;
      Move(s, w, Clearing(name, Same(s.children, s.jobs[s.workers[w].job].key.file, name)))
    case ClearOne(w, c) =>
      var pc := s.workers[w].pc;
      var s' := Move(s, w, Clearing(pc.name, pc.todo - {c}));
      if c in s.children && s.children[c].size == 0 then s'.(children := s.children - {c}) else s'
    case PassOver(w, c) => Move(s, w, Clearing(s.workers[w].pc.name, s.workers[w].pc.todo - {c}))
    case ClearDone(w) => Move(s, w, Cleared(s.workers[w].pc.name))
    case ListNames(w) =>
      var name := s.workers[w].pc.name;
      if Same(s.children, s.jobs[s.workers[w].job].key.file, name) == {} then Move(s, w, Free(name))
      else Move(s, w, Written(name))
    case Touch(w, c) =>
      var name := s.workers[w].pc.name;
      Move(s, w, Touched(name, c)).(children := s.children[c := Child(s.jobs[s.workers[w].job].key.file, name, 0)],
                                    issued := s.issued + {c})
    case Put(w, size) =>
      var c := s.workers[w].pc.child;
      Move(s, w, Written(s.workers[w].pc.name)).(children := s.children[c := s.children[c].(size := size)])
    case Succeed(w, report, now) => End(s, w, Succeeded, report, now)
    case GiveUp(w, status, report, now) => End(s, w, status, report, now)
    case CheckRetire(w) =>
      var key := s.jobs[s.workers[w].job].key;
      if MayRetire(s.jobs, key) then Move(s, w, Approved(SafeVersion(key.version))) else Leave(s, w)
    case ListOlder(w) =>
      var current := s.workers[w].pc.current;
      Move(s, w, Retiring(current, Older(s.children, s.jobs[s.workers[w].job].key.file, current)))
    case RetireOne(w, c) =>
      var pc := s.workers[w].pc;
      Move(s, w, Retiring(pc.current, pc.todo - {c})).(children := s.children - {c})
    case Stop(w) => Leave(s, w)
    case OtherWrite(c, child) => s.(children := s.children[c := child], issued := s.issued + {c})
    case OtherPrune(c) => s.(children := s.children - {c})
  }

  // ---------------------------------------------------------------- the invariant

  /** `name` is a name this job publishes under. */
  predicate Names(key: Key, name: string) {
    var p := ParseRenditionName(name);
    p.Some? && p.value.version == SafeVersion(key.version) && Fmt(key.profile) == Some(p.value.fmt)
  }

  /** The child is there with content. */
  ghost predicate Stored(ch: map<ChildUid, Child>, file: string, name: string) {
    exists c :: c in ch && ch[c].parent == file && ch[c].name == name && ch[c].size > 0
  }

  /** A newer version of the same file has its primary rendition published. */
  ghost predicate Superseded(t: Table, key: Key) {
    exists u :: u in t && PrimaryDone(t[u], key.file) && Before(key, t[u].key)
  }

  /** The order in which versions replace each other. */
  predicate Before(k: Key, k': Key) {
    Less(SafeVersion(k.version), SafeVersion(k'.version))
  }

  predicate PrimaryDone(j: Job, file: string) {
    j.key.file == file && j.status.Succeeded? && Primary(j.key.profile)
  }

  /** Every child of the name has content. */
  ghost predicate NoneEmpty(ch: map<ChildUid, Child>, file: string, name: string) {
    forall c :: c in Same(ch, file, name) ==> ch[c].size > 0
  }

  ghost predicate Kept(t: Table, ch: map<ChildUid, Child>, key: Key, name: string) {
    NoneEmpty(ch, key.file, name) && (Stored(ch, key.file, name) || Superseded(t, key))
  }

  ghost predicate PrimaryAt(t: Table, file: string, version: string) {
    exists u :: u in t && PrimaryDone(t[u], file) && SafeVersion(t[u].key.version) == version
  }

  ghost predicate PcInv(t: Table, ch: map<ChildUid, Child>, issued: set<ChildUid>, key: Key, pc: Pc) {
    match pc
    case Encoding => true
    case Encoded(name) => Names(key, name)
    case Clearing(name, todo) =>
      Names(key, name) && todo <= issued &&
      (forall c :: c in Same(ch, key.file, name) && ch[c].size == 0 ==> c in todo) &&
      (forall c :: c in todo && c in ch ==> ch[c].parent == key.file && ch[c].name == name)
    case Cleared(name) => Names(key, name) && forall c :: c in Same(ch, key.file, name) ==> ch[c].size > 0
    case Free(name) => Names(key, name) && Same(ch, key.file, name) == {}
    case Touched(name, c) =>
      Names(key, name) && c in issued && (c in ch ==> ch[c] == Child(key.file, name, 0))
    case Written(name) => Names(key, name) && Kept(t, ch, key, name)
    case Ended => true
    case Approved(current) => PrimaryAt(t, key.file, current)
    case Retiring(current, todo) =>
      PrimaryAt(t, key.file, current) && todo <= issued &&
      forall c :: c in todo && c in ch ==>
        ch[c].parent == key.file && Published(ch[c].name) && Less(ParseRenditionName(ch[c].name).value.version, current)
  }

  ghost predicate JobInvariant(t: Table, ch: map<ChildUid, Child>, j: Job) {
    && 0 <= j.progress <= 100
    && (j.status.Succeeded? ==>
          j.facts.renditionName.Some? && Names(j.key, j.facts.renditionName.value) &&
          Kept(t, ch, j.key, j.facts.renditionName.value))
  }

  ghost predicate JobsInv(s: State) {
    Apart(s.jobs) && forall u :: u in s.jobs ==> JobInvariant(s.jobs, s.children, s.jobs[u])
  }

  ghost predicate Twins(c: Child, d: Child) {
    c.parent == d.parent && c.name == d.name && Published(c.name)
  }

  ghost predicate ChildrenInv(s: State) {
    && s.children.Keys <= s.issued
    && forall c, d :: c in s.children && d in s.children && Twins(s.children[c], s.children[d]) ==> c == d
  }

  ghost predicate Rivals(s: State, v: WorkerId, w: WorkerId)
    requires v in s.workers && w in s.workers
  {
    s.workers[v].job == s.workers[w].job && Live(s.workers[v].pc) && Live(s.workers[w].pc)
  }

  ghost predicate WorkersInv(s: State) {
    && (forall w :: w in s.workers ==> s.workers[w].job in s.jobs && WorkerInv(s, w))
    && (forall v, w :: v in s.workers && w in s.workers && Rivals(s, v, w) ==> v == w)
  }

  ghost predicate WorkerInv(s: State, w: WorkerId)
    requires w in s.workers && s.workers[w].job in s.jobs
  {
    && PcInv(s.jobs, s.children, s.issued, s.jobs[s.workers[w].job].key, s.workers[w].pc)
    && (Live(s.workers[w].pc) ==> !s.jobs[s.workers[w].job].status.Succeeded?)
  }

  ghost predicate Inv(s: State, max: nat) {
    max >= 1 && TableInv(s.jobs, max) && JobsInv(s) && ChildrenInv(s) && WorkersInv(s)
  }

  // ---------------------------------------------------------------- what each kind of change keeps

  predicate Later(j: Job, j': Job) {
    j'.key == j.key && (j.status.Succeeded? ==> j'.status.Succeeded? && j'.facts == j.facts)
  }

  /** Jobs never leave the table, keep their keys, and a success is not taken back. */
  ghost predicate Grow(t: Table, t': Table) {
    forall u :: u in t ==> u in t' && Later(t[u], t'[u])
  }

  lemma GrowKeeps(t: Table, t': Table, ch: map<ChildUid, Child>, issued: set<ChildUid>, key: Key, pc: Pc)
    requires Grow(t, t')
    ensures Superseded(t, key) ==> Superseded(t', key)
    ensures PcInv(t, ch, issued, key, pc) ==> PcInv(t', ch, issued, key, pc)
  {
    if Superseded(t, key) {
      var u :| u in t && PrimaryDone(t[u], key.file) && Before(key, t[u].key);
      assert PrimaryDone(t'[u], key.file) && Before(key, t'[u].key);
    }
    if (pc.Approved? || pc.Retiring?) && PrimaryAt(t, key.file, pc.current) {
      var u :| u in t && PrimaryDone(t[u], key.file) && SafeVersion(t[u].key.version) == pc.current;
      assert PrimaryDone(t'[u], key.file) && SafeVersion(t'[u].key.version) == pc.current;
    }
  }

  /** A success is reported with a name that holds content, or is superseded, and no worker is left at the job;
      progress in percent; a request names a version that collides with none. */
  ghost predicate Honest(s: State, op: Op) {
    && (op.Finish? && op.status.Succeeded? ==> NoLiveWorker(s, op.uid))
    && (op.Heartbeat? ==> 0 <= op.pct <= 100)
    && (op.Request? ==> forall u :: u in s.jobs ==> !Collide(s.jobs[u].key, op.key))
    && HonestEnd(s, op)
  }

  ghost predicate HonestEnd(s: State, op: Op) {
    op.Finish? && op.status.Succeeded? && op.uid in s.jobs && s.jobs[op.uid].status.Running? ==>
      (var j := Finished(s.jobs[op.uid], op.status, op.report, op.now);
       j.facts.renditionName.Some? && Names(j.key, j.facts.renditionName.value) &&
       Kept(s.jobs, s.children, j.key, j.facts.renditionName.value))
  }

  /** Only a reported success makes a job succeed. */
  lemma RowSucceeds(j: Job, op: Op, max: nat)
    ensures RowStep(j, op, max).status.Succeeded? ==> j.status.Succeeded? || (op.Finish? && op.status.Succeeded? && op.uid == j.uid)
  {
  }

  lemma RowGrows(s: State, op: Op, max: nat, u: Uid)
    requires Inv(s, max) && Legal(s.jobs, op) && Honest(s, op) && u in s.jobs
    ensures var j' := RowStep(s.jobs[u], op, max); Later(s.jobs[u], j') && JobInvariant(s.jobs, s.children, j')
  {
    hide Names, Kept;
    assert JobInvariant(s.jobs, s.children, s.jobs[u]);
  }

  lemma RowsGrow(s: State, op: Op, max: nat)
    requires Inv(s, max) && Legal(s.jobs, op) && Honest(s, op)
    ensures Grow(s.jobs, Apply(s.jobs, op, max))
    ensures forall u :: u in Apply(s.jobs, op, max) ==> JobInvariant(s.jobs, s.children, Apply(s.jobs, op, max)[u])
  {
    hide Names, Kept, Apply, Honest, Later, WorkersInv, ChildrenInv, TableInv;
    var t, t' := s.jobs, Apply(s.jobs, op, max);
    RowWise(t, op, max);
    forall u | u in t ensures Later(t[u], t'[u]) && JobInvariant(t, s.children, t'[u]) {
      RowGrows(s, op, max, u);
    }
  }

  lemma StaysApart(s: State, op: Op, max: nat)
    requires Inv(s, max) && Legal(s.jobs, op) && Honest(s, op)
    ensures Apart(Apply(s.jobs, op, max))
  {
    hide Names, Kept, Apply, JobInvariant, WorkersInv, ChildrenInv, SafeVersion;
    var t, t' := s.jobs, Apply(s.jobs, op, max);
    RowWise(t, op, max);
    forall u, v | u in t' && v in t' ensures !Collide(t'[u].key, t'[v].key) {
      assert u in t && v in t ==> !Collide(t[u].key, t[v].key);
    }
  }

  lemma LiveStillOpen(s: State, op: Op, max: nat, w: WorkerId)
    requires Inv(s, max) && Legal(s.jobs, op) && Honest(s, op) && w in s.workers
    ensures var u := s.workers[w].job;
            u in Apply(s.jobs, op, max) && (Live(s.workers[w].pc) ==> !Apply(s.jobs, op, max)[u].status.Succeeded?)
  {
    hide PcInv, JobInvariant, Apply, HonestEnd, Collide, Twins, Rivals;
    assert WorkerInv(s, w);
    RowWise(s.jobs, op, max);
    RowSucceeds(s.jobs[s.workers[w].job], op, max);
  }

  /** An honest operation of the store keeps everything. */
  lemma StoreKeeps(s: State, op: Op, max: nat)
    requires Inv(s, max) && Legal(s.jobs, op) && Honest(s, op)
    ensures Inv(s.(jobs := Apply(s.jobs, op, max)), max)
    ensures Grow(s.jobs, Apply(s.jobs, op, max))
  {
    var t, t' := s.jobs, Apply(s.jobs, op, max);
    ApplyKeepsInv(t, op, max);
    RowsGrow(s, op, max);
    StaysApart(s, op, max);
    hide Apply, Legal, Honest, TableInv, PcInv, Superseded, Later, Apart, Twins;
    forall u | u in t' ensures JobInvariant(t', s.children, t'[u]) {
      GrowKeeps(t, t', s.children, s.issued, t'[u].key, Encoding);
    }
    forall w | w in s.workers ensures WorkerInv(s.(jobs := t'), w) {
      assert WorkerInv(s, w);
      LiveStillOpen(s, op, max, w);
      GrowKeeps(t, t', s.children, s.issued, t[s.workers[w].job].key, s.workers[w].pc);
    }
    forall v, w | v in s.workers && w in s.workers && Rivals(s.(jobs := t'), v, w) ensures v == w {
      assert Rivals(s, v, w);
    }
  }

  lemma MoveKeeps(s: State, w: WorkerId, pc: Pc, max: nat)
    requires Inv(s, max) && w in s.workers && (Live(pc) ==> Live(s.workers[w].pc))
    requires PcInv(s.jobs, s.children, s.issued, s.jobs[s.workers[w].job].key, pc)
    ensures Inv(Move(s, w, pc), max)
  {
    hide PcInv, TableInv, JobInvariant, Twins;
    var s' := Move(s, w, pc);
    forall v | v in s'.workers ensures s'.workers[v].job in s'.jobs && WorkerInv(s', v) {
      assert v != w ==> WorkerInv(s, v);
    }
    forall u, v | u in s'.workers && v in s'.workers && Rivals(s', u, v) ensures u == v {
      assert Rivals(s, u, v);
    }
  }

  lemma LeaveKeeps(s: State, w: WorkerId, max: nat)
    requires Inv(s, max)
    ensures Inv(Leave(s, w), max)
  {
    hide PcInv, TableInv, JobInvariant, Twins;
    var s' := Leave(s, w);
    forall v | v in s'.workers ensures s'.workers[v].job in s'.jobs && WorkerInv(s', v) {
      assert WorkerInv(s, v);
    }
    forall u, v | u in s'.workers && v in s'.workers && Rivals(s', u, v) ensures u == v {
      assert Rivals(s, u, v);
    }
  }

  /** A child may go when it is empty, or when a newer version stands in for whoever named it. */
  ghost predicate Spare(t: Table, c: Child) {
    c.size == 0 || forall key: Key :: key.file == c.parent && Names(key, c.name) ==> Superseded(t, key)
  }

  lemma RemovalKeepsKept(t: Table, ch: map<ChildUid, Child>, c: ChildUid, key: Key, name: string)
    requires c in ch && Spare(t, ch[c]) && Names(key, name) && Kept(t, ch, key, name)
    ensures Kept(t, ch - {c}, key, name)
  {
    if Stored(ch, key.file, name) {
      var d :| d in ch && ch[d].parent == key.file && ch[d].name == name && ch[d].size > 0;
      if d != c {
        assert d in ch - {c};
      }
    }
  }

  lemma RemovalKeeps(s: State, c: ChildUid, max: nat)
    requires Inv(s, max) && c in s.children && Spare(s.jobs, s.children[c])
    ensures Inv(s.(children := s.children - {c}), max)
  {
    hide Names, Superseded, Less, ParseRenditionName, Spare;
    var ch, ch' := s.children, s.children - {c};
    var s' := s.(children := ch');
    forall u | u in s.jobs ensures JobInvariant(s.jobs, ch', s.jobs[u]) {
      var j := s.jobs[u];
      assert JobInvariant(s.jobs, ch, j);
      if j.status.Succeeded? {
        RemovalKeepsKept(s.jobs, ch, c, j.key, j.facts.renditionName.value);
      }
    }
    forall w | w in s.workers ensures WorkerInv(s', w) {
      var key, pc := s.jobs[s.workers[w].job].key, s.workers[w].pc;
      assert WorkerInv(s, w);
      if pc.Written? {
        RemovalKeepsKept(s.jobs, ch, c, key, pc.name);
      } else if !pc.Encoding? && !pc.Ended? && !pc.Approved? && !pc.Retiring? {
        assert Same(ch', key.file, pc.name) <= Same(ch, key.file, pc.name);
      }
    }
    forall d, e | d in ch' && e in ch' && Twins(ch'[d], ch'[e]) ensures d == e {
      assert Twins(ch[d], ch[e]);
    }
    forall v, w | v in s'.workers && w in s'.workers && Rivals(s', v, w) ensures v == w {
      assert Rivals(s, v, w);
    }
  }

  /** No job that succeeded names this child. */
  ghost predicate Unreported(s: State, file: string, name: string) {
    forall u :: u in s.jobs && s.jobs[u].status.Succeeded? && s.jobs[u].key.file == file ==> !Names(s.jobs[u].key, name)
  }

  /** No worker is about to use this name of this file. */
  ghost predicate Unwatched(s: State, file: string, name: string) {
    forall w :: w in s.workers && s.workers[w].job in s.jobs && Live(s.workers[w].pc) && !s.workers[w].pc.Encoding? ==>
      !(s.jobs[s.workers[w].job].key.file == file && Names(s.jobs[s.workers[w].job].key, name))
  }

  /** A new empty child under a free name, or content for a child that had none. */
  ghost predicate Writable(s: State, c: ChildUid, child: Child) {
    || (c !in s.issued && (Published(child.name) ==> Same(s.children, child.parent, child.name) == {}))
    || (c in s.children && s.children[c] == child.(size := 0))
  }

  lemma WorkerOutlivesWrite(s: State, c: ChildUid, child: Child, max: nat, w: WorkerId)
    requires Inv(s, max) && Unwatched(s, child.parent, child.name) && Writable(s, c, child) && w in s.workers
    ensures PcInv(s.jobs, s.children[c := child], s.issued + {c}, s.jobs[s.workers[w].job].key, s.workers[w].pc)
  {
    hide Names, Published, Superseded, PrimaryAt, Less, ParseRenditionName;
    var ch, ch' := s.children, s.children[c := child];
    var key, pc := s.jobs[s.workers[w].job].key, s.workers[w].pc;
    assert WorkerInv(s, w);
    if Live(pc) && !pc.Encoding? {
      assert !(child.parent == key.file && child.name == pc.name);
      assert Same(ch', key.file, pc.name) == Same(ch, key.file, pc.name);
      StoredStays(s, c, child, key.file, pc.name);
    }
  }

  lemma KeptStays(s: State, c: ChildUid, child: Child, key: Key, name: string)
    requires s.children.Keys <= s.issued && Writable(s, c, child) && Kept(s.jobs, s.children, key, name)
    requires child.parent == key.file && child.name == name ==> child.size > 0
    ensures Kept(s.jobs, s.children[c := child], key, name)
  {
    hide Superseded, Published;
    StoredStays(s, c, child, key.file, name);
    var ch := s.children[c := child];
    forall d | d in Same(ch, key.file, name) ensures ch[d].size > 0 {
      assert d != c ==> d in Same(s.children, key.file, name);
    }
  }

  lemma StoredStays(s: State, c: ChildUid, child: Child, file: string, name: string)
    requires s.children.Keys <= s.issued && Writable(s, c, child)
    ensures Stored(s.children, file, name) ==> Stored(s.children[c := child], file, name)
  {
    var ch := s.children;
    if Stored(ch, file, name) {
      var d :| d in ch && ch[d].parent == file && ch[d].name == name && ch[d].size > 0;
      assert ch[c := child][d] == ch[d];
    }
  }

  /** A new child, or new content for a child, harms nobody who is not watching its name. */
  lemma WriteKeeps(s: State, c: ChildUid, child: Child, max: nat)
    requires Inv(s, max) && Unwatched(s, child.parent, child.name) && Writable(s, c, child)
    requires child.size > 0 || Unreported(s, child.parent, child.name)
    ensures Inv(s.(children := s.children[c := child], issued := s.issued + {c}), max)
  {
    hide Names, Kept, Superseded, Less, PrimaryAt, PcInv, Unwatched, TableInv;
    var ch, ch' := s.children, s.children[c := child];
    var s' := s.(children := ch', issued := s.issued + {c});
    forall u | u in s.jobs ensures JobInvariant(s.jobs, ch', s.jobs[u]) {
      var j := s.jobs[u];
      assert JobInvariant(s.jobs, ch, j);
      if j.status.Succeeded? {
        KeptStays(s, c, child, j.key, j.facts.renditionName.value);
      }
    }
    forall w | w in s.workers ensures WorkerInv(s', w) {
      assert WorkerInv(s, w);
      WorkerOutlivesWrite(s, c, child, max, w);
    }
    TwinsOutliveWrite(s, c, child);
    forall v, w | v in s'.workers && w in s'.workers && Rivals(s', v, w) ensures v == w {
      assert Rivals(s, v, w);
    }
  }

  lemma TwinsOutliveWrite(s: State, c: ChildUid, child: Child)
    requires ChildrenInv(s) && Writable(s, c, child)
    ensures ChildrenInv(s.(children := s.children[c := child], issued := s.issued + {c}))
  {
    var ch, ch' := s.children, s.children[c := child];
    assert forall d :: d in ch && Twins(ch[d], child) ==> d in Same(ch, child.parent, child.name);
    forall d, e | d in ch' && e in ch' && Twins(ch'[d], ch'[e]) ensures d == e {
      if d in ch && e in ch {
        assert Twins(ch[d], ch[e]);
      }
    }
  }

  // ---------------------------------------------------------------- every step keeps the invariant

  lemma StoreOpKeeps(s: State, op: Op, max: nat)
    requires Inv(s, max) && Enabled(s, Store(op))
    ensures Inv(Do(s, Store(op), max), max)
  {
    StoreKeeps(s, op, max);
  }

  lemma ClaimKeeps(s: State, w: WorkerId, uid: Uid, now: Time, max: nat)
    requires Inv(s, max) && Enabled(s, ClaimBy(w, uid, now))
    ensures Inv(Do(s, ClaimBy(w, uid, now), max), max)
  {
    hide Names, Kept, Superseded, Less, Published, ParseRenditionName, Collide, SafeVersion, PrimaryAt, Same, JobInvariant,
      TableInv, Twins;
    StoreKeeps(s, Claim(uid, now), max);
    var s1 := s.(jobs := SqlClaim(s.jobs, uid, now));
    var s' := s1.(workers := s.workers[w := Worker(uid, Encoding)]);
    forall v | v in s'.workers ensures s'.workers[v].job in s'.jobs && WorkerInv(s', v) {
      assert v != w ==> WorkerInv(s1, v);
    }
    forall v, x | v in s'.workers && x in s'.workers && Rivals(s', v, x) ensures v == x {
      assert v != w && x != w ==> Rivals(s, v, x);
    }
  }

  lemma BeatKeeps(s: State, w: WorkerId, ext: string, pct: int, now: Time, max: nat)
    requires Inv(s, max) && Enabled(s, Beat(w, ext, pct, now))
    ensures Inv(Do(s, Beat(w, ext, pct, now), max), max)
  {
    hide Names, Kept, Superseded, Less, PrimaryAt, RenditionName, Unwatched;
    var j := s.jobs[s.workers[w].job];
    StoreKeeps(s, Heartbeat(j.uid, pct, now), max);
    var s' := s.(jobs := SqlHeartbeat(s.jobs, j.uid, pct, now));
    if j.status.Cancelled? {
      LeaveKeeps(s', w, max);
    } else {
      var name := RenditionName(j.key.version, Fmt(j.key.profile).value, ext);
      JobNames(s, w, ext);
      MoveKeeps(s', w, Encoded(name), max);
    }
  }

  lemma JobNames(s: State, w: WorkerId, ext: string)
    requires JobsInv(s) && At(s, w) && ext != "" && '.' !in ext
    requires Fmt(s.jobs[s.workers[w].job].key.profile).Some?
    ensures var key := s.jobs[s.workers[w].job].key;
            Names(key, RenditionName(key.version, Fmt(key.profile).value, ext))
  {
    hide Kept, CutName, SafeVersion, RenditionName;
    var key := s.jobs[s.workers[w].job].key;
    assert JobInvariant(s.jobs, s.children, s.jobs[s.workers[w].job]);
    NameRoundTrip(key.version, Fmt(key.profile).value, ext);
  }

  /** Two jobs that name the same child of the same file are the same job. */
  lemma NamesOneJob(k: Key, k': Key, name: string)
    requires k.file == k'.file && Names(k, name) && Names(k', name) && !Collide(k, k')
    ensures k == k'
  {
    hide ParseRenditionName;
  }

  /** While the worker's own step is set aside, nobody else watches its name. */
  lemma OwnName(s: State, w: WorkerId, max: nat)
    requires Inv(s, max) && w in s.workers && Live(s.workers[w].pc) && !s.workers[w].pc.Encoding?
    ensures Names(s.jobs[s.workers[w].job].key, s.workers[w].pc.name)
    ensures Unwatched(Move(s, w, Encoding), s.jobs[s.workers[w].job].key.file, s.workers[w].pc.name)
  {
    hide Kept, Superseded, Less, Names, PrimaryAt;
    assert WorkerInv(s, w);
    var key, name := s.jobs[s.workers[w].job].key, s.workers[w].pc.name;
    assert forall v :: v in s.workers && v != w ==> !Rivals(s, v, w);
    forall v | v in s.workers && v != w && Live(s.workers[v].pc) && s.jobs[s.workers[v].job].key.file == key.file &&
               Names(s.jobs[s.workers[v].job].key, name)
      ensures false
    {
      NamesOneJob(key, s.jobs[s.workers[v].job].key, name);
    }
  }

  lemma NamedIsPublished(key: Key, name: string)
    requires Names(key, name)
    ensures Published(name)
  {
    hide ParseRenditionName;
  }

  lemma ClearOneKeeps(s: State, w: WorkerId, c: ChildUid, max: nat)
    requires Inv(s, max) && Enabled(s, ClearOne(w, c))
    ensures Inv(Do(s, ClearOne(w, c), max), max)
  {
    hide Kept, Superseded, Less, Names, PrimaryAt;
    var pc := s.workers[w].pc;
    assert WorkerInv(s, w);
    if c in s.children && s.children[c].size == 0 {
      RemovalKeeps(s, c, max);
      var s1 := s.(children := s.children - {c});
      assert WorkerInv(s1, w);
      MoveKeeps(s1, w, Clearing(pc.name, pc.todo - {c}), max);
      assert Do(s, ClearOne(w, c), max) == Move(s1, w, Clearing(pc.name, pc.todo - {c}));
    } else {
      MoveKeeps(s, w, Clearing(pc.name, pc.todo - {c}), max);
    }
  }

  lemma PassOverKeeps(s: State, w: WorkerId, c: ChildUid, max: nat)
    requires Inv(s, max) && Enabled(s, PassOver(w, c))
    ensures Inv(Do(s, PassOver(w, c), max), max)
  {
    hide Kept, Superseded, Less, Names, PrimaryAt;
    assert WorkerInv(s, w);
    MoveKeeps(s, w, Clearing(s.workers[w].pc.name, s.workers[w].pc.todo - {c}), max);
  }

  lemma ListsKeep(s: State, a: Action, max: nat)
    requires Inv(s, max) && Enabled(s, a) && (a.ListSame? || a.ClearDone? || a.ListNames?)
    ensures Inv(Do(s, a, max), max)
  {
    hide Superseded, Less, Names, PrimaryAt, Legal, OldestQueued, Published, ParseRenditionName, Collide, SafeVersion, Fmt, Older,
      JobInvariant, TableInv, Twins, Rivals;
    var w := a.w;
    var file, name := s.jobs[s.workers[w].job].key.file, s.workers[w].pc.name;
    assert WorkerInv(s, w);
    var same := Same(s.children, file, name);
    if a.ListSame? {
      MoveKeeps(s, w, Clearing(name, same), max);
    } else if a.ClearDone? {
      MoveKeeps(s, w, Cleared(name), max);
    } else if same == {} {
      MoveKeeps(s, w, Free(name), max);
    } else {
      var c :| c in same;
      assert Stored(s.children, file, name);
      MoveKeeps(s, w, Written(name), max);
    }
  }

  /** A worker's name is no succeeded job's: it would be its own job's, which is open. */
  lemma OwnNameUnreported(s: State, w: WorkerId, max: nat)
    requires Inv(s, max) && w in s.workers && Live(s.workers[w].pc) && !s.workers[w].pc.Encoding?
    ensures Unreported(s, s.jobs[s.workers[w].job].key.file, s.workers[w].pc.name)
  {
    hide Kept, Superseded, Less, Names, PrimaryAt, Twins, Rivals, JobInvariant;
    assert WorkerInv(s, w);
    var key, name := s.jobs[s.workers[w].job].key, s.workers[w].pc.name;
    assert Names(key, name);
    forall u | u in s.jobs && s.jobs[u].status.Succeeded? && s.jobs[u].key.file == key.file ensures !Names(s.jobs[u].key, name) {
      if Names(s.jobs[u].key, name) {
        NamesOneJob(key, s.jobs[u].key, name);
        assert false;
      }
    }
  }

  /** A worker writes a child of its own name; for the moment its own step is set aside. */
  lemma OwnWriteKeeps(s: State, w: WorkerId, c: ChildUid, child: Child, max: nat)
    requires Inv(s, max) && At(s, w) && Live(s.workers[w].pc) && !s.workers[w].pc.Encoding?
    requires child.parent == s.jobs[s.workers[w].job].key.file && child.name == s.workers[w].pc.name && Writable(s, c, child)
    ensures Inv(State(s.jobs, s.children[c := child], s.issued + {c}, Move(s, w, Encoding).workers), max)
  {
    hide Kept, Superseded, Less, Names, PrimaryAt, Unwatched, Unreported, JobInvariant, TableInv, Twins, Rivals, Published,
      Same, WorkerInv;
    OwnName(s, w, max);
    OwnNameUnreported(s, w, max);
    MoveKeeps(s, w, Encoding, max);
    StillUnreported(s, w, child);
    WriteKeeps(Move(s, w, Encoding), c, child, max);
  }

  lemma StillUnreported(s: State, w: WorkerId, child: Child)
    requires w in s.workers
    ensures Unreported(s, child.parent, child.name) ==> Unreported(Move(s, w, Encoding), child.parent, child.name)
  {
    hide Names;
  }

  /** What a worker's position promises. */
  lemma PcHolds(s: State, w: WorkerId, max: nat)
    requires Inv(s, max) && At(s, w)
    ensures PcInv(s.jobs, s.children, s.issued, s.jobs[s.workers[w].job].key, s.workers[w].pc)
  {
    hide PcInv;
    assert WorkerInv(s, w);
  }

  lemma TouchKeeps(s: State, w: WorkerId, c: ChildUid, max: nat)
    requires Inv(s, max) && Enabled(s, Touch(w, c))
    ensures Inv(Do(s, Touch(w, c), max), max)
  {
    hide Inv, Kept, Names, PrimaryAt, Published, Legal, OldestQueued, Collide, Older;
    var name := s.workers[w].pc.name;
    var child := Child(s.jobs[s.workers[w].job].key.file, name, 0);
    PcHolds(s, w, max);
    OwnWriteKeeps(s, w, c, child, max);
    var s2 := State(s.jobs, s.children[c := child], s.issued + {c}, Move(s, w, Encoding).workers);
    MoveKeeps(s2, w, Touched(name, c), max);
    assert Do(s, Touch(w, c), max) == Move(s2, w, Touched(name, c));
  }

  /** The child a worker has made is the only one of its name. */
  lemma OnlyTouched(s: State, w: WorkerId, max: nat)
    requires Inv(s, max) && At(s, w) && s.workers[w].pc.Touched? && s.workers[w].pc.child in s.children
    ensures var name, c := s.workers[w].pc.name, s.workers[w].pc.child;
            s.children[c] == Child(s.jobs[s.workers[w].job].key.file, name, 0) && Same(s.children, s.children[c].parent, name) == {c}
  {
    hide Kept, Names, Published, TableInv, JobInvariant, Rivals, Less, PrimaryAt, Superseded;
    assert WorkerInv(s, w);
    var key, name, c := s.jobs[s.workers[w].job].key, s.workers[w].pc.name, s.workers[w].pc.child;
    NamedIsPublished(key, name);
    forall d | d in Same(s.children, key.file, name) ensures d == c {
      assert Twins(s.children[d], s.children[c]);
    }
  }

  lemma PutKeeps(s: State, w: WorkerId, size: nat, max: nat)
    requires Inv(s, max) && Enabled(s, Put(w, size))
    ensures Inv(Do(s, Put(w, size), max), max)
  {
    hide Inv, Kept, Names, PrimaryAt, Published, Legal, OldestQueued, Collide, Older;
    var name, c := s.workers[w].pc.name, s.workers[w].pc.child;
    var child := s.children[c].(size := size);
    PcHolds(s, w, max);
    OnlyTouched(s, w, max);
    OwnWriteKeeps(s, w, c, child, max);
    var s2 := State(s.jobs, s.children[c := child], s.issued + {c}, Move(s, w, Encoding).workers);
    PutIsKept(s.jobs, s.children, c, child, s.jobs[s.workers[w].job].key);
    MoveKeeps(s2, w, Written(name), max);
    assert s.issued + {c} == s.issued;
    assert Do(s, Put(w, size), max) == Move(s2, w, Written(name));
  }

  lemma PutIsKept(t: Table, ch: map<ChildUid, Child>, c: ChildUid, child: Child, key: Key)
    requires c in ch && child.parent == key.file && child.size > 0 && Same(ch, key.file, child.name) == {c}
    ensures Kept(t, ch[c := child], key, child.name)
  {
    hide Superseded;
    var ch' := ch[c := child];
    assert ch'[c] == child;
    assert Same(ch', key.file, child.name) <= Same(ch, key.file, child.name) + {c};
  }

  lemma EndKeeps(s: State, w: WorkerId, status: Status, report: Report, now: Time, max: nat)
    requires Inv(s, max) && At(s, w) && Terminal(status)
    requires status.Succeeded? ==> s.workers[w].pc.Written? && report.renditionName == Given(Some(s.workers[w].pc.name))
    ensures Inv(End(s, w, status, report, now), max)
  {
    hide Kept, Superseded, Less, Names, PrimaryAt, Published, ParseRenditionName, Collide, SafeVersion, Twins, Same, TableInv;
    var u := s.workers[w].job;
    assert WorkerInv(s, w);
    var op := Finish(u, status, report, now);
    if s.jobs[u].status.Running? {
      MoveKeeps(s, w, Ended, max);
      var s1 := Move(s, w, Ended);
      assert status.Succeeded? ==> Finished(s.jobs[u], status, report, now).facts.renditionName == Some(s.workers[w].pc.name);
      assert status.Succeeded? ==> NoLiveWorker(s1, u) by {
        assert forall v :: v in s.workers && v != w ==> !Rivals(s, v, w);
      }
      StoreKeeps(s1, op, max);
      assert End(s, w, status, report, now) == s1.(jobs := Apply(s1.jobs, op, max));
    } else {
      LeaveKeeps(s, w, max);
      NotRunningStays(s, u, status, report, now, max);
    }
  }

  lemma NotRunningStays(s: State, u: Uid, status: Status, report: Report, now: Time, max: nat)
    requires TableInv(s.jobs, max) && u in s.jobs && !s.jobs[u].status.Running?
    ensures SqlFinish(s.jobs, u, status, report, now) == s.jobs
  {
  }

  lemma CheckRetireKeeps(s: State, w: WorkerId, max: nat)
    requires Inv(s, max) && Enabled(s, CheckRetire(w))
    ensures Inv(Do(s, CheckRetire(w), max), max)
  {
    hide Kept, Superseded, Less, Names, SafeVersion, Primary, TableInv, Twins, Rivals, Published, Collide, Legal,
      OldestQueued, ParseRenditionName, Same, Older, Fmt;
    var key := s.jobs[s.workers[w].job].key;
    if MayRetire(s.jobs, key) {
      assert JobInvariant(s.jobs, s.children, s.jobs[s.workers[w].job]);
      var u :| u in s.jobs && s.jobs[u].key.file == key.file && s.jobs[u].key.version == key.version &&
               Primary(s.jobs[u].key.profile) && s.jobs[u].status.Succeeded?;
      assert PrimaryDone(s.jobs[u], key.file);
      MoveKeeps(s, w, Approved(SafeVersion(key.version)), max);
    } else {
      LeaveKeeps(s, w, max);
    }
  }

  lemma ListOlderKeeps(s: State, w: WorkerId, max: nat)
    requires Inv(s, max) && Enabled(s, ListOlder(w))
    ensures Inv(Do(s, ListOlder(w), max), max)
  {
    hide PrimaryAt, JobInvariant, Less, Published, TableInv, Twins, Rivals, ParseRenditionName;
    assert WorkerInv(s, w);
    var current := s.workers[w].pc.current;
    MoveKeeps(s, w, Retiring(current, Older(s.children, s.jobs[s.workers[w].job].key.file, current)), max);
  }

  /** Whoever names a child older than a published version is superseded by it. */
  lemma OlderIsSpare(t: Table, child: Child, current: string)
    requires PrimaryAt(t, child.parent, current) && Published(child.name)
    requires Less(ParseRenditionName(child.name).value.version, current)
    ensures Spare(t, child)
  {
    hide Less, ParseRenditionName, Fmt, Primary;
    var u :| u in t && PrimaryDone(t[u], child.parent) && SafeVersion(t[u].key.version) == current;
    forall key: Key | key.file == child.parent && Names(key, child.name) ensures Superseded(t, key) {
      assert PrimaryDone(t[u], key.file) && Before(key, t[u].key);
    }
  }

  lemma RetireOneKeeps(s: State, w: WorkerId, c: ChildUid, max: nat)
    requires Inv(s, max) && Enabled(s, RetireOne(w, c))
    ensures Inv(Do(s, RetireOne(w, c), max), max)
  {
    hide Kept, Less, Names, ParseRenditionName, PrimaryAt, Superseded, Spare, Published, JobInvariant,
      TableInv, Twins, Rivals, Do;
    var pc := s.workers[w].pc;
    assert WorkerInv(s, w);
    var s1 := s.(children := s.children - {c});
    if c in s.children {
      OlderIsSpare(s.jobs, s.children[c], pc.current);
      RemovalKeeps(s, c, max);
    } else {
      assert s1 == s;
    }
    assert WorkerInv(s1, w);
    MoveKeeps(s1, w, Retiring(pc.current, pc.todo - {c}), max);
    RetireOneIs(s, w, c, max);
  }

  lemma RetireOneIs(s: State, w: WorkerId, c: ChildUid, max: nat)
    requires Enabled(s, RetireOne(w, c))
    ensures var pc := s.workers[w].pc;
            Do(s, RetireOne(w, c), max) == Move(s.(children := s.children - {c}), w, Retiring(pc.current, pc.todo - {c}))
  {
  }

  /** The ingest worker writes and prunes renditions that are not published media. */
  lemma OthersKeep(s: State, a: Action, max: nat)
    requires Inv(s, max) && Enabled(s, a) && (a.OtherWrite? || a.OtherPrune?)
    ensures Inv(Do(s, a, max), max)
  {
    hide Kept, Superseded, Less, Names, PrimaryAt, Published;
    if a.OtherWrite? {
      forall key | Names(key, a.child.name) ensures false {
        NamedIsPublished(key, a.child.name);
      }
      WriteKeeps(s, a.c, a.child, max);
    } else {
      forall key | Names(key, s.children[a.c].name) ensures false {
        NamedIsPublished(key, s.children[a.c].name);
      }
      RemovalKeeps(s, a.c, max);
    }
  }

  lemma DoKeepsInv(s: State, a: Action, max: nat)
    requires Inv(s, max) && Enabled(s, a)
    ensures Inv(Do(s, a, max), max)
  {
    hide Inv, Do, Enabled, End;
    match a {
      case Store(op) => StoreOpKeeps(s, op, max);
      case ClaimBy(w, uid, now) => ClaimKeeps(s, w, uid, now, max);
      case Beat(w, ext, pct, now) => BeatKeeps(s, w, ext, pct, now, max);
      case ClearOne(w, c) => ClearOneKeeps(s, w, c, max);
      case PassOver(w, c) => PassOverKeeps(s, w, c, max);
      case Touch(w, c) => TouchKeeps(s, w, c, max);
      case Put(w, size) => PutKeeps(s, w, size, max);
      case RetireOne(w, c) => RetireOneKeeps(s, w, c, max);
      case Succeed(_, _, _) => EndsKeep(s, a, max);
      case GiveUp(_, _, _, _) => EndsKeep(s, a, max);
      case Stop(_) => EndsKeep(s, a, max);
      case CheckRetire(w) => CheckRetireKeeps(s, w, max);
      case ListOlder(w) => ListOlderKeeps(s, w, max);
      case OtherWrite(_, _) => OthersKeep(s, a, max);
      case OtherPrune(_) => OthersKeep(s, a, max);
      case _ => ListsKeep(s, a, max);
    }
  }

  lemma EndsKeep(s: State, a: Action, max: nat)
    requires Inv(s, max) && Enabled(s, a) && (a.Succeed? || a.GiveUp? || a.Stop?)
    ensures Inv(Do(s, a, max), max)
  {
    hide Inv;
    match a {
      case Succeed(w, report, now) => EndKeeps(s, w, Succeeded, report, now, max);
      case GiveUp(w, status, report, now) => EndKeeps(s, w, status, report, now, max);
      case Stop(w) => LeaveKeeps(s, w, max);
    }
  }
}
