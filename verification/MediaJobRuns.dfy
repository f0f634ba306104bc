/** The job state machine over whole runs of the store's operations. */
module MediaJobRuns {
  import opened Wrappers
  import opened MediaJobs

  datatype Op =
    | Request(freshUid: Uid, key: Key, who: string, now: Time)
    | Claim(uid: Uid, now: Time)
    | Heartbeat(uid: Uid, pct: int, now: Time)
    | Finish(uid: Uid, status: Status, report: Report, now: Time)
    | RequeueStale(cutoff: Time, now: Time)
    | Cancel(file: string, now: Time)

  /** A request draws an unused uid; a claim takes an oldest queued job; `finish` refuses other states. */
  ghost predicate Legal(t: Table, op: Op) {
    match op
    case Request(freshUid, _, _, _) => freshUid !in t
    case Claim(uid, _) => OldestQueued(t, uid)
    case Finish(_, status, _, _) => Terminal(status)
    case _ => true
  }

  ghost function Apply(t: Table, op: Op, max: nat): Table {
    match op
    case Request(freshUid, key, who, now) => SqlRequest(t, freshUid, key, who, now)
    case Claim(uid, now) => SqlClaim(t, uid, now)
    case Heartbeat(uid, pct, now) => SqlHeartbeat(t, uid, pct, now)
    case Finish(uid, status, report, now) => SqlFinish(t, uid, status, report, now)
    case RequeueStale(cutoff, now) => SqlRequeueStale(t, cutoff, max, now)
    case Cancel(file, now) => SqlCancel(t, file, now)
  }

  ghost predicate LegalRun(t: Table, ops: seq<Op>, max: nat)
    decreases |ops|
  {
    ops == [] || (Legal(t, ops[0]) && LegalRun(Apply(t, ops[0], max), ops[1..], max))
  }

  ghost function Run(t: Table, ops: seq<Op>, max: nat): Table
    decreases |ops|
  {
    if ops == [] then t else Run(Apply(t, ops[0], max), ops[1..], max)
  }

  /** What one operation does to one existing job. */
  function RowStep(j: Job, op: Op, max: nat): Job {
    match op
    case Request(_, key, who, now) => if j.key == key && Restartable(j.status) then Restarted(j, who, now) else j
    case Claim(uid, now) => if j.uid == uid then Claimed(j, now) else j
    case Heartbeat(uid, pct, now) => if j.uid == uid then Beaten(j, pct, now) else j
    case Finish(uid, status, report, now) =>
      if j.uid == uid && j.status.Running? then Finished(j, status, report, now) else j
    case RequeueStale(cutoff, now) => Swept(j, cutoff, max, now)
    case Cancel(file, now) => CancelOne(j, file, now)
  }

  lemma RowWise(t: Table, op: Op, max: nat)
    requires Legal(t, op)
    ensures forall u :: u in t ==> u in Apply(t, op, max) && Apply(t, op, max)[u] == RowStep(t[u], op, max)
    ensures forall u :: u in Apply(t, op, max) && u !in t ==>
              op.Request? && u == op.freshUid && !HasKey(t, op.key) &&
              Apply(t, op, max)[u] == NewJob(u, op.key, op.who, op.now)
  {
  }

  // ---------------------------------------------------------------- what every run keeps

  predicate JobInv(j: Job, max: nat) {
    match j.status
    case Queued => j.attempts < max && j.startedAt.None? && j.finishedAt.None?
    case Running => 1 <= j.attempts <= max && j.startedAt.Some? && j.heartbeatAt.Some? && j.finishedAt.None?
    case _ => j.attempts <= max && j.finishedAt.Some?
  }

  ghost predicate TableInv(t: Table, max: nat) {
    && (forall u :: u in t ==> t[u].uid == u && JobInv(t[u], max))
    && (forall u, v :: u in t && v in t && t[u].key == t[v].key ==> u == v)
  }

  lemma RowKeepsInv(j: Job, op: Op, max: nat)
    requires JobInv(j, max) && max >= 1
    requires op.Claim? && op.uid == j.uid ==> j.status.Queued?
    requires op.Finish? ==> Terminal(op.status)
    ensures var j' := RowStep(j, op, max); j'.uid == j.uid && j'.key == j.key && JobInv(j', max)
  {
  }

  lemma ApplyKeepsInv(t: Table, op: Op, max: nat)
    requires TableInv(t, max) && Legal(t, op) && max >= 1
    ensures TableInv(Apply(t, op, max), max)
  {
    RowWise(t, op, max);
    var t' := Apply(t, op, max);
    forall u | u in t ensures t'[u].uid == u && t'[u].key == t[u].key && JobInv(t'[u], max) {
      RowKeepsInv(t[u], op, max);
    }
    assert forall v :: v in t ==> HasKey(t, t[v].key);
    forall u, v | u in t' && v in t' && t'[u].key == t'[v].key ensures u == v {
    }
  }

  /** One job per (file, version, profile), attempts within the cap, and `finished_at` set
      exactly in the terminal states: after every operation of every run. */
  lemma {:induction false} RunKeepsInv(t: Table, ops: seq<Op>, max: nat)
    requires TableInv(t, max) && LegalRun(t, ops, max) && max >= 1
    ensures TableInv(Run(t, ops, max), max)
    ensures forall u :: u in Run(t, ops, max) ==>
              (Run(t, ops, max)[u].finishedAt.Some? <==> Terminal(Run(t, ops, max)[u].status))
    decreases |ops|
  {
    if ops != [] {
      ApplyKeepsInv(t, ops[0], max);
      RunKeepsInv(Apply(t, ops[0], max), ops[1..], max);
    }
  }

  // ---------------------------------------------------------------- transitions

  predicate Edge(s: Status, s': Status) {
    || s == s'
    || (s.Queued? && (s'.Running? || s'.Cancelled?))
    || (s.Running? && (Terminal(s') || s'.Queued?))
    || (Restartable(s) && s'.Queued?)
  }

  /** The only moves between states, and the operation that makes each of them. */
  lemma StepFollowsEdge(t: Table, op: Op, max: nat, u: Uid)
    requires TableInv(t, max) && Legal(t, op) && u in t
    ensures var j, j' := t[u], Apply(t, op, max)[u];
            && Edge(j.status, j'.status) && j'.uid == j.uid && j'.key == j.key
            && (Restartable(j.status) && j'.status != j.status ==> op.Request? && op.key == j.key)
            && (j.status.Queued? && j'.status.Running? ==> op == Claim(u, op.now))
            && (j'.status.Succeeded? && !j.status.Succeeded? ==> op.Finish? && op.uid == u)
  {
    hide Apply, HasKey, Legal, TableInv, RowStep, JobInv;
    RowWise(t, op, max);
    RowOf(t, op, max, u);
    RowFollows(t[u], op, max);
  }

  ghost predicate Moves(max: nat, s: Status, s': Status) {
    exists t: Table, op, u :: TableInv(t, max) && Legal(t, op) && u in t && t[u].status == s &&
                       u in Apply(t, op, max) && Apply(t, op, max)[u].status == s'
  }

  /** And each of them happens, the way back to the queue only where more than one attempt is allowed. */
  lemma EdgeHappens(s: Status, s': Status, max: nat)
    requires max >= 1 && s != s'
    ensures Moves(max, s, s') <==>
              match s
              case Queued => s' == Running || s' == Cancelled
              case Running => s' != Queued || max >= 2
              case Failed => s' == Queued
              case Cancelled => s' == Queued
              case _ => false
  {
    hide Moves;
    if Moves(max, s, s') {
      MovesFollow(max, s, s');
    }
    if Edge(s, s') && (s == Running && s' == Queued ==> max >= 2) {
      MoveWitness(max, s, s');
    }
  }

  lemma MovesFollow(max: nat, s: Status, s': Status)
    requires max >= 1 && Moves(max, s, s')
    ensures Edge(s, s') && (s == Running && s' == Queued ==> max >= 2)
  {
    hide Apply, Legal, TableInv, HasKey, RowStep, JobInv;
    var t: Table, op, u :| TableInv(t, max) && Legal(t, op) && u in t && t[u].status == s && u in Apply(t, op, max) &&
                           Apply(t, op, max)[u].status == s';
    RowWise(t, op, max);
    RowOf(t, op, max, u);
    RowFollows(t[u], op, max);
  }

  lemma RowOf(t: Table, op: Op, max: nat, u: Uid)
    requires TableInv(t, max) && Legal(t, op) && u in t
    ensures t[u].uid == u && JobInv(t[u], max) && (op.Claim? && op.uid == u ==> t[u].status == Queued)
    ensures op.Finish? ==> Terminal(op.status)
  {
  }

  lemma RowFollows(j: Job, op: Op, max: nat)
    requires JobInv(j, max) && (op.Claim? && op.uid == j.uid ==> j.status == Queued) && (op.Finish? ==> Terminal(op.status))
    ensures var j' := RowStep(j, op, max);
            && Edge(j.status, j'.status) && j'.uid == j.uid && j'.key == j.key
            && (j.status == Running && j'.status == Queued ==> max >= 2)
            && (Restartable(j.status) && j'.status != j.status ==> op.Request? && op.key == j.key)
            && (j.status.Queued? && j'.status.Running? ==> op == Claim(j.uid, op.now))
            && (j'.status.Succeeded? && !j.status.Succeeded? ==> op.Finish? && op.uid == j.uid)
  {
  }

  lemma MoveWitness(max: nat, s: Status, s': Status)
    requires max >= 1 && s != s' && Edge(s, s') && (s == Running && s' == Queued ==> max >= 2)
    ensures Moves(max, s, s')
  {
    hide Apply, Legal, TableInv, HasKey;
    var k := Key("f", "v", "p");
    var j := Job("u", k, s, "", 0, if s == Running then Some(0) else None, if Terminal(s) then Some(0) else None, Some(0),
                 if s == Running then 1 else 0, 0, NO_FACTS);
    var op := if s' == Running then Claim("u", 0)
              else if s' == Queued then (if s == Running then RequeueStale(1, 0) else Request("w", k, "", 0))
              else if s == Queued then Cancel("f", 0) else Finish("u", s', NO_REPORT, 0);
    OneRow(j, op, max);
    RowWise(map["u" := j], op, max);
    assert Apply(map["u" := j], op, max)["u"].status == s';
  }

  lemma OneRow(j: Job, op: Op, max: nat)
    requires j.uid == "u" && JobInv(j, max)
    requires op.Request? ==> op.freshUid == "w"
    requires op.Claim? ==> op.uid == "u" && j.status == Queued
    requires op.Finish? ==> Terminal(op.status)
    ensures TableInv(map["u" := j], max) && Legal(map["u" := j], op)
  {
    assert "u"[0] != "w"[0];
  }

  lemma SameButTrans(a: Job, b: Job, c: Job, cols: set<Column>)
    requires SameBut(a, b, cols) && SameBut(b, c, cols)
    ensures SameBut(a, c, cols)
  {
  }

  lemma RowStays(j: Job, op: Op, max: nat)
    requires JobInv(j, max) && (op.Claim? && op.uid == j.uid ==> j.status == Queued) && Terminal(j.status)
    requires Restartable(j.status) ==> !(op.Request? && op.key == j.key)
    ensures SameBut(j, RowStep(j, op, max), {HeartbeatAt, Progress})
    ensures RowStep(j, op, max).status == j.status && RowStep(j, op, max).key == j.key
  {
  }

  lemma SameAsItself(j: Job, cols: set<Column>)
    ensures SameBut(j, j, cols)
  {
  }

  /** A succeeded or skipped job is never picked up, restarted, failed or rewritten again; a late heartbeat may still
      touch its two columns. */
  lemma {:induction false} SucceededIsForever(t: Table, ops: seq<Op>, max: nat, u: Uid)
    requires TableInv(t, max) && LegalRun(t, ops, max) && max >= 1 && u in t
    requires t[u].status.Succeeded? || t[u].status.Skipped?
    ensures u in Run(t, ops, max) && SameBut(t[u], Run(t, ops, max)[u], {HeartbeatAt, Progress})
    decreases |ops|
  {
    hide Apply, Legal, TableInv, HasKey, SameBut, RowStep, JobInv;
    if ops == [] {
      SameAsItself(t[u], {HeartbeatAt, Progress});
    } else {
      RowWise(t, ops[0], max);
      RowOf(t, ops[0], max, u);
      RowStays(t[u], ops[0], max);
      ApplyKeepsInv(t, ops[0], max);
      SucceededIsForever(Apply(t, ops[0], max), ops[1..], max, u);
      SameButTrans(t[u], Apply(t, ops[0], max)[u], Run(t, ops, max)[u], {HeartbeatAt, Progress});
    }
  }

  /** A failed or cancelled job stays as it is until somebody asks for it again. */
  lemma {:induction false} EndedUntilRequested(t: Table, ops: seq<Op>, max: nat, u: Uid)
    requires TableInv(t, max) && LegalRun(t, ops, max) && max >= 1 && u in t && Restartable(t[u].status)
    requires forall i :: 0 <= i < |ops| ==> !(ops[i].Request? && ops[i].key == t[u].key)
    ensures u in Run(t, ops, max) && SameBut(t[u], Run(t, ops, max)[u], {HeartbeatAt, Progress})
    decreases |ops|
  {
    hide Apply, Legal, TableInv, HasKey, SameBut, RowStep, JobInv;
    if ops == [] {
      SameAsItself(t[u], {HeartbeatAt, Progress});
    } else {
      RowWise(t, ops[0], max);
      RowOf(t, ops[0], max, u);
      RowStays(t[u], ops[0], max);
      ApplyKeepsInv(t, ops[0], max);
      EndedUntilRequested(Apply(t, ops[0], max), ops[1..], max, u);
      SameButTrans(t[u], Apply(t, ops[0], max)[u], Run(t, ops, max)[u], {HeartbeatAt, Progress});
    }
  }

  // ---------------------------------------------------------------- attempts

  function Claims(ops: seq<Op>, u: Uid): nat {
    if ops == [] then 0 else (if ops[0].Claim? && ops[0].uid == u then 1 else 0) + Claims(ops[1..], u)
  }

  lemma RowAttempts(j: Job, op: Op, max: nat)
    requires !(op.Request? && op.key == j.key)
    ensures RowStep(j, op, max).key == j.key
    ensures RowStep(j, op, max).attempts == j.attempts + Claims([op], j.uid)
  {
    assert Claims([op], j.uid) == if op.Claim? && op.uid == j.uid then 1 else 0;
  }

  /** Between two requests for a job every claim counts against its attempts, so a source
      that kills the encoder is tried at most `max` times per request. */
  lemma {:induction false} ClaimsPerRequest(t: Table, ops: seq<Op>, max: nat, u: Uid)
    requires TableInv(t, max) && LegalRun(t, ops, max) && max >= 1 && u in t
    requires forall i :: 0 <= i < |ops| ==> !(ops[i].Request? && ops[i].key == t[u].key)
    ensures u in Run(t, ops, max) && Run(t, ops, max)[u].attempts == t[u].attempts + Claims(ops, u)
    ensures t[u].attempts + Claims(ops, u) <= max
    decreases |ops|
  {
    assert t[u].uid == u;
    hide Apply, Legal, TableInv, HasKey;
    if ops != [] {
      RowWise(t, ops[0], max);
      ApplyKeepsInv(t, ops[0], max);
      RowAttempts(t[u], ops[0], max);
      ClaimsPerRequest(Apply(t, ops[0], max), ops[1..], max, u);
    }
  }

  // ---------------------------------------------------------------- liveness

  /** When the job last gave a sign of life: it was claimed, or its worker reported. */
  function LastSign(ops: seq<Op>, u: Uid, before: Option<Time>): Option<Time> {
    if ops == [] then before
    else
      var op := ops[0];
      LastSign(ops[1..], u, if (op.Claim? || op.Heartbeat?) && op.uid == u then Some(op.now) else before)
  }

  lemma {:induction false} RunningSign(t: Table, ops: seq<Op>, max: nat, u: Uid, before: Option<Time>)
    requires TableInv(t, max) && LegalRun(t, ops, max) && max >= 1
    requires u in t && t[u].status.Running? ==> t[u].heartbeatAt == before
    ensures var t' := Run(t, ops, max);
            u in t' && t'[u].status.Running? ==> t'[u].heartbeatAt == LastSign(ops, u, before) && t'[u].heartbeatAt.Some?
    decreases |ops|
  {
    hide Apply, Legal;
    if ops == [] {
      assert u in t ==> JobInv(t[u], max);
    } else {
      var op := ops[0];
      ApplyKeepsInv(t, op, max);
      SignStep(t, op, max, u, before);
      RunningSign(Apply(t, op, max), ops[1..], max, u, if (op.Claim? || op.Heartbeat?) && op.uid == u then Some(op.now) else before);
    }
  }

  lemma SignStep(t: Table, op: Op, max: nat, u: Uid, before: Option<Time>)
    requires TableInv(t, max) && Legal(t, op)
    requires u in t && t[u].status.Running? ==> t[u].heartbeatAt == before
    ensures var t', sign := Apply(t, op, max), if (op.Claim? || op.Heartbeat?) && op.uid == u then Some(op.now) else before;
            u in t' && t'[u].status.Running? ==> t'[u].heartbeatAt == sign
  {
    hide Apply;
    RowWise(t, op, max);
  }

  /** Over every run of the store: a sweep takes a running job from its worker exactly when the job's last sign of life,
      its claim or a heartbeat since, is older than the cutoff; the job then fails if its attempts are used up, and else
      waits for another. A job with a sign of life at or after the cutoff is left alone, column for column. */
  lemma SweepTakesTheSilent(ops: seq<Op>, max: nat, u: Uid, cutoff: Time, now: Time)
    requires LegalRun(map[], ops, max) && max >= 1
    requires u in Run(map[], ops, max) && Run(map[], ops, max)[u].status == Running
    ensures LastSign(ops, u, None).Some?
    ensures var j, j' := Run(map[], ops, max)[u], Apply(Run(map[], ops, max), RequeueStale(cutoff, now), max)[u];
            && (LastSign(ops, u, None).value >= cutoff ==> j' == j)
            && (LastSign(ops, u, None).value < cutoff ==>
                  j'.status == if j.attempts >= max then Failed else Queued)
  {
    hide Run, LegalRun, LastSign;
    EmptyTableInv(max);
    RunKeepsInv(map[], ops, max);
    RunningSign(map[], ops, max, u, None);
    SweepSets(Run(map[], ops, max), cutoff, max, now, u);
  }

  lemma EmptyTableInv(max: nat)
    ensures TableInv(map[], max)
  {
  }

  // ---------------------------------------------------------------- progress

  /** Progress falls in exactly three ways: a new attempt, a new request, or success after a
      heartbeat that reported more than 100 percent. */
  lemma ProgressFallsIff(t: Table, op: Op, max: nat, u: Uid)
    requires TableInv(t, max) && Legal(t, op) && u in t
    ensures Apply(t, op, max)[u].progress < t[u].progress <==>
            || (op.Claim? && op.uid == u && t[u].progress > 0)
            || (op.Request? && op.key == t[u].key && Restartable(t[u].status) && t[u].progress > 0)
            || (op.Finish? && op.uid == u && t[u].status.Running? && op.status.Succeeded? && t[u].progress > 100)
  {
    RowWise(t, op, max);
  }

  lemma RowProgress(j: Job, op: Op, max: nat)
    requires j.progress <= 100 && (op.Heartbeat? ==> op.pct <= 100)
    requires !(op.Request? && op.key == j.key) && !(op.Claim? && op.uid == j.uid)
    ensures var j' := RowStep(j, op, max); j.progress <= j'.progress <= 100 && j'.uid == j.uid && j'.key == j.key
  {
  }

  /** Reports of at most 100 percent keep progress at most 100, so within an attempt it only rises. */
  lemma {:induction false} ProgressWithinAttempt(t: Table, ops: seq<Op>, max: nat, u: Uid)
    requires TableInv(t, max) && LegalRun(t, ops, max) && max >= 1 && u in t && t[u].progress <= 100
    requires forall i :: 0 <= i < |ops| && ops[i].Heartbeat? ==> ops[i].pct <= 100
    requires forall i :: 0 <= i < |ops| ==> !(ops[i].Request? && ops[i].key == t[u].key) && !(ops[i].Claim? && ops[i].uid == u)
    ensures u in Run(t, ops, max) && t[u].progress <= Run(t, ops, max)[u].progress <= 100
    decreases |ops|
  {
    assert t[u].uid == u;
    hide Apply, Legal, TableInv, HasKey, RowStep;
    if ops != [] {
      RowWise(t, ops[0], max);
      RowProgress(t[u], ops[0], max);
      ApplyKeepsInv(t, ops[0], max);
      ProgressWithinAttempt(Apply(t, ops[0], max), ops[1..], max, u);
    }
  }
}
