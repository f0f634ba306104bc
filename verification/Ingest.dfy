/** Consuming the event stream at least once: a batch is read, each event handled and then
    acknowledged; while the core is read-only, events stay pending and are read again. Any call to
    Redis may time out or fail, before or after the server has done it. */
module Ingest {
  import opened Wrappers

  /** An event is known by its position in the stream. */
  type Id = nat

  datatype Outcome = Handled | ReadOnly | Failed

  datatype Pc =
    | Starting                                       // the process has just started
    | Idle
    | Probed                                         // the pending list came back empty
    | Working(todo: seq<Id>, draining: bool)
    | Acking(todo: seq<Id>, draining: bool)          // the first of `todo` is handled, not acknowledged

  /** `arrived` counts the events in the stream, `next` those delivered; `pending` are the delivered
      ones nobody acknowledged, oldest first. */
  datatype State = State(arrived: nat, next: nat, pending: seq<Id>, degraded: bool, pc: Pc)

  datatype Step =
    | Arrive(n: nat)
    | Read(k: nat)
    | ReadLost(k: nat)                               // given out by the server, and the reply timed out
    | Reread(k: nat)
    | RereadTimesOut
    | Drain(k: nat)
    | DrainTimesOut
    | DrainFails                                     // the drain ends by an exception; the worker goes on
    | Handle(id: Id, outcome: Outcome, draining: bool)
    | Ack(id: Id)
    | Crash

  const START := State(0, 0, [], false, Starting)

  function Range(a: nat, b: nat): seq<Id>
    requires a <= b
  {
    seq(b - a, i requires 0 <= i < b - a => a + i)
  }

  /** What XACK leaves: every other entry, in order. */
  function Without(pending: seq<Id>, id: Id): (r: seq<Id>)
    ensures forall x :: x in r <==> x in pending && x != id
    ensures |r| <= |pending| && (id in pending ==> |r| < |pending|)
  {
    if pending == [] then []
    else if pending[0] == id then Without(pending[1..], id)
    else [pending[0]] + Without(pending[1..], id)
  }

  /** The worker is about to read new events. */
  predicate ReadsNew(s: State) {
    s.pc.Probed? || (s.pc.Idle? && !s.degraded)
  }

  predicate Enabled(s: State, x: Step) {
    match x
    case Arrive(_) => true
    case Read(k) => ReadsNew(s) && s.next + k <= s.arrived
    case ReadLost(k) => ReadsNew(s) && s.next + k <= s.arrived
    case Reread(k) => s.pc.Idle? && s.degraded && k <= |s.pending| && (k == 0 ==> s.pending == [])
    case RereadTimesOut => s.pc.Idle? && s.degraded
    case Drain(k) => s.pc.Starting? && k <= |s.pending| && (k == 0 ==> s.pending == [])
    case DrainTimesOut => s.pc.Starting?
    case DrainFails => s.pc.Starting? || ((s.pc.Working? || s.pc.Acking?) && s.pc.draining)
    case Handle(id, _, draining) => s.pc.Working? && s.pc.todo != [] && s.pc.todo[0] == id && s.pc.draining == draining
    case Ack(id) => s.pc.Acking? && s.pc.todo != [] && s.pc.todo[0] == id
    case Crash => true
  }

  /** Where a worker goes on with what is left of its batch. */
  function Onward(todo: seq<Id>, draining: bool): Pc {
    if todo != [] then Working(todo, draining) else if draining then Starting else Idle
  }

  function Do(s: State, x: Step): State
    requires Enabled(s, x)
  {
    match x
    case Arrive(n) => s.(arrived := s.arrived + n)
    case Read(k) =>
      var given := Range(s.next, s.next + k);
      s.(next := s.next + k, pending := s.pending + given, pc := Onward(given, false))
    case ReadLost(k) => s.(next := s.next + k, pending := s.pending + Range(s.next, s.next + k), pc := Idle)
    case Reread(k) => if k == 0 then s.(degraded := false, pc := Probed) else s.(pc := Working(s.pending[..k], false))
    case RereadTimesOut => s.(degraded := false, pc := Probed)
    case Drain(k) => s.(pc := if k == 0 then Idle else Working(s.pending[..k], true))
    case DrainTimesOut => s.(pc := Idle)
    case DrainFails => s.(pc := Idle)
    case Handle(_, outcome, draining) =>
      if outcome.ReadOnly? && !draining then s.(degraded := true, pc := Idle) else s.(pc := Acking(s.pc.todo, draining))
    case Ack(id) => s.(pending := Without(s.pending, id), pc := Onward(s.pc.todo[1..], s.pc.draining))
    case Crash => s.(degraded := false, pc := Starting)
  }

  predicate Possible(log: seq<Step>)
    decreases |log|, 0
  {
    log == [] || (Possible(log[..|log| - 1]) && Enabled(After(log[..|log| - 1]), log[|log| - 1]))
  }

  function After(log: seq<Step>): State
    requires Possible(log)
    decreases |log|, 1
  {
    if log == [] then START else Do(After(log[..|log| - 1]), log[|log| - 1])
  }

  lemma Extend(log: seq<Step>, x: Step)
    requires Possible(log) && Enabled(After(log), x)
    ensures Possible(log + [x]) && After(log + [x]) == Do(After(log), x)
  {
    assert (log + [x])[..|log|] == log;
  }

  lemma HandleStops(log: seq<Step>, batch: seq<Id>, i: nat)
    requires Possible(log) && i < |batch| && After(log).pc == Working(batch[i..], false)
    ensures var more := log + [Handle(batch[i], ReadOnly, false)];
            Possible(more) && After(more) == After(log).(degraded := true, pc := Idle)
  {
    Extend(log, Handle(batch[i], ReadOnly, false));
  }

  /** What an acknowledgement that fails leads to: the end of the process, or of the drain. */
  function AckFailure(id: Id, outcome: Outcome, draining: bool, served: bool): seq<Step> {
    [Handle(id, outcome, draining)] + (if served then [Ack(id)] else []) + [if draining then DrainFails else Crash]
  }

  lemma HandleFails(log: seq<Step>, batch: seq<Id>, i: nat, outcome: Outcome, draining: bool, served: bool)
    requires Possible(log) && i < |batch| && After(log).pc == Working(batch[i..], draining)
    requires !outcome.ReadOnly? || draining
    ensures var more := log + AckFailure(batch[i], outcome, draining, served);
            Possible(more) &&
            After(more) == After(log).(
              pending := if served then Without(After(log).pending, batch[i]) else After(log).pending,
              degraded := draining && After(log).degraded, pc := if draining then Idle else Starting)
  {
    hide Possible, After;
    var last := if draining then DrainFails else Crash;
    if served {
      HandleAcks(log, batch, i, outcome, draining);
      var more := log + [Handle(batch[i], outcome, draining), Ack(batch[i])];
      Extend(more, last);
      assert more + [last] == log + AckFailure(batch[i], outcome, draining, served);
    } else {
      Extend(log, Handle(batch[i], outcome, draining));
      var more := log + [Handle(batch[i], outcome, draining)];
      Extend(more, last);
      assert more + [last] == log + AckFailure(batch[i], outcome, draining, served);
    }
  }

  lemma HandleAcks(log: seq<Step>, batch: seq<Id>, i: nat, outcome: Outcome, draining: bool)
    requires Possible(log) && i < |batch| && After(log).pc == Working(batch[i..], draining)
    requires !outcome.ReadOnly? || draining
    ensures var more := log + [Handle(batch[i], outcome, draining), Ack(batch[i])];
            Possible(more) &&
            After(more) == After(log).(pending := Without(After(log).pending, batch[i]), pc := Onward(batch[i + 1..], draining))
  {
    var first := log + [Handle(batch[i], outcome, draining)];
    Extend(log, Handle(batch[i], outcome, draining));
    Extend(first, Ack(batch[i]));
    assert first + [Ack(batch[i])] == log + [Handle(batch[i], outcome, draining), Ack(batch[i])];
    assert batch[i..][1..] == batch[i + 1..];
  }

  // ---------------------------------------------------------------- the worker

  /** How a call to Redis ends: its reply arrives; or the client gives up waiting, or fails, when the server may
      have done it or not. */
  datatype Reply = Arrives | TimesOut(served: bool) | Raises(served: bool)

  predicate Served(r: Reply) {
    r.Arrives? || r.served
  }

  /** What became of a batch: how many events were handled and acknowledged, how many of them the server has struck
      off, whether the core refused the next one, or an acknowledgement failed. */
  datatype Batch = Batch(processed: nat, acked: nat, refused: bool, raised: bool)

  function Plus(b: Batch, k: nat): Batch {
    b.(processed := b.processed + k, acked := b.acked + k)
  }

  /** Events are handled up to the first one that the core refuses as read-only, or whose acknowledgement fails;
      `n` counts the handlings made so far. */
  function Take(handle: (nat, Id) -> Outcome, acks: nat -> Reply, n: nat, batch: seq<Id>): (b: Batch)
    ensures b.processed <= b.acked <= |batch| && !(b.refused && b.raised)
    ensures b.acked <= b.processed + (if b.raised then 1 else 0)
    ensures b.processed < |batch| <==> b.refused || b.raised
    decreases |batch|
  {
    if batch == [] then Batch(0, 0, false, false)
    else if handle(n, batch[0]).ReadOnly? then Batch(0, 0, true, false)
    else if !acks(n).Arrives? then Batch(0, if acks(n).served then 1 else 0, false, true)
    else Plus(Take(handle, acks, n + 1, batch[1..]), 1)
  }

  function WithoutAll(pending: seq<Id>, ids: seq<Id>): seq<Id>
    decreases |ids|
  {
    if ids == [] then pending else WithoutAll(Without(pending, ids[0]), ids[1..])
  }

  /** Redis: the stream, what this consumer was given, and what it has not acknowledged. */
  class EventSource {
    var arrived: nat
    var next: nat
    var pending: seq<Id>

    constructor ()
      ensures arrived == 0 && next == 0 && pending == []
    {
      arrived, next, pending := 0, 0, [];
    }

    /** Up to `count` new entries, which become pending even if the reply is lost; `None` when the call fails.
        `more` events arrive meanwhile. */
    method Read(count: nat, more: nat, reply: Reply) returns (batch: Option<seq<Id>>)
      requires next <= arrived
      modifies this
      ensures arrived == old(arrived) + more && old(next) <= next <= arrived
      ensures next - old(next) == if !reply.Arrives? && !reply.served then 0
                                  else if count <= arrived - old(next) then count else arrived - old(next)
      ensures pending == old(pending) + Range(old(next), next)
      ensures batch == if reply.Raises? then None else Some(if reply.TimesOut? then [] else Range(old(next), next))
    {
      arrived := arrived + more;
      var k := if !Served(reply) then 0 else if count <= arrived - next then count else arrived - next;
      var given := Range(next, next + k);
      next := next + k;
      pending := pending + given;
      return if reply.Raises? then None else Some(if reply.TimesOut? then [] else given);
    }

    /** Up to `count` of the entries not acknowledged yet, oldest first; none on a timeout, `None` when it fails. */
    method ReadPending(count: nat, reply: Reply) returns (batch: Option<seq<Id>>)
      ensures batch == if reply.Raises? then None
                       else Some(if reply.TimesOut? then [] else pending[..if count <= |pending| then count else |pending|])
    {
      if reply.Raises? {
        return None;
      }
      if reply.TimesOut? {
        return Some([]);
      }
      return Some(pending[..if count <= |pending| then count else |pending|]);
    }

    /** A timeout is no excuse here: anything but a reply raises. */
    method Acknowledge(id: Id, reply: Reply) returns (raised: bool)
      modifies this`pending
      ensures raised == !reply.Arrives?
      ensures pending == if reply.Arrives? || reply.served then Without(old(pending), id) else old(pending)
    {
      if Served(reply) {
        pending := Without(pending, id);
      }
      return !reply.Arrives?;
    }
  }

  /** A read of new events that the server got: it gives out as many as are there, up to `count`. */
  predicate GivenOut(count: nat, more: nat, reply: Reply, arrived: nat, next: nat, arrived': nat, next': nat) {
    && arrived' == arrived + more
    && next' - next == if !reply.Arrives? && !reply.served then 0
                       else if count <= arrived' - next then count else arrived' - next
  }

  class Ingestor {
    const source: EventSource
    const handle: (nat, Id) -> Outcome     // how the n-th handling ends
    const lists: nat -> Reply              // how the n-th read of the pending list ends
    const acks: nat -> Reply               // how the acknowledgement after the n-th handling ends
    var degraded: bool
    var handlings: nat
    var rereads: nat
    ghost var pc: Pc
    ghost var log: seq<Step>

    constructor (handle: (nat, Id) -> Outcome, lists: nat -> Reply, acks: nat -> Reply)
      ensures Valid() && fresh(source) && pc == Starting && !degraded && source.arrived == 0
      ensures this.handle == handle && this.lists == lists && this.acks == acks
    {
      source := new EventSource();
      this.handle, this.lists, this.acks := handle, lists, acks;
      degraded, handlings, rereads := false, 0, 0;
      pc, log := Starting, [];
    }

    ghost function Contents(): State
      reads this, source
    {
      State(source.arrived, source.next, source.pending, degraded, pc)
    }

    /** The object is where its log of steps leads. */
    ghost predicate Valid()
      reads this, source
    {
      Possible(log) && After(log) == Contents() && source.next <= source.arrived
    }

    /** The exception ends the process; the next one starts without memory of it. */
    method Die()
      requires Valid()
      modifies this`degraded, this`pc, this`log
      ensures Valid() && pc == Starting && !degraded && log == old(log) + [Crash]
    {
      hide Possible, After;
      Extend(log, Crash);
      degraded, pc, log := false, Starting, log + [Crash];
    }

    /** Acknowledge an event after its handling; `n` counts the handlings before it. */
    method Settle(batch: seq<Id>, i: nat, outcome: Outcome, draining: bool, n: nat) returns (raised: bool)
      requires Valid() && i < |batch| && pc == Working(batch[i..], draining) && (!outcome.ReadOnly? || draining)
      modifies this`degraded, this`pc, this`log, source`pending
      ensures Valid() && old(log) <= log && raised == !acks(n).Arrives?
      ensures source.pending == if Served(acks(n)) then Without(old(source.pending), batch[i]) else old(source.pending)
      ensures pc == if !raised then Onward(batch[i + 1..], draining) else if draining then Idle else Starting
      ensures degraded == ((draining || !raised) && old(degraded))
    {
      hide Possible, After, Without;
      raised := source.Acknowledge(batch[i], acks(n));
      if raised {
        HandleFails(log, batch, i, outcome, draining, acks(n).served);
        log := log + AckFailure(batch[i], outcome, draining, acks(n).served);
        degraded, pc := draining && degraded, if draining then Idle else Starting;
        return;
      }
      HandleAcks(log, batch, i, outcome, draining);
      log, pc := log + [Handle(batch[i], outcome, draining), Ack(batch[i])], Onward(batch[i + 1..], draining);
    }

    /** Handle and acknowledge a batch in order; stop at the first event the core refuses as read-only, or at the
        first acknowledgement that fails, which ends the process. */
    method Process(batch: seq<Id>) returns (processed: nat, raised: bool)
      requires Valid() && pc == Onward(batch, false)
      modifies this`degraded, this`handlings, this`pc, this`log, source`pending
      ensures Valid() && old(log) <= log
      ensures var b := Take(handle, acks, old(handlings), batch);
              && processed == b.processed && raised == b.raised
              && source.pending == WithoutAll(old(source.pending), batch[..b.acked])
              && pc == (if raised then Starting else Idle)
              && degraded == (!raised && (b.refused || old(degraded)))
    {
      hide Possible, After, WithoutAll, Without, Take, Onward;
      ghost var prior, all := source.pending, Take(handle, acks, handlings, batch);
      processed := 0;
      assert batch[..0] == [] && batch[0..] == batch;
      NoneWithout(source.pending);
      OnwardIs(batch, false);
      while processed < |batch|
        invariant processed <= |batch| && Valid() && old(log) <= log
        invariant pc == Onward(batch[processed..], false) && degraded == old(degraded)
        invariant Plus(Take(handle, acks, handlings, batch[processed..]), processed) == all
        invariant source.pending == WithoutAll(prior, batch[..processed])
      {
        OnwardIs(batch[processed..], false);
        var n := handlings;
        var outcome := handle(n, batch[processed]);
        TakeStep(handle, acks, n, batch, processed);
        handlings := n + 1;
        if outcome.ReadOnly? {
          HandleStops(log, batch, processed);
          log := log + [Handle(batch[processed], outcome, false)];
          degraded, pc := true, Idle;
          return processed, false;
        }
        WithoutOneMore(prior, batch, processed);
        raised := Settle(batch, processed, outcome, false, n);
        if raised {
          return;
        }
        processed := processed + 1;
      }
      OnwardIs(batch[processed..], false);
      assert batch[processed..] == [];
      TakeNone(handle, acks, handlings);
      assert batch[..processed] == batch;
      raised := false;
    }

    /** Read one batch and process it. While degraded, the pending events come first; once there are none
        left, or reading them times out, back to new ones. `more` events arrive while it waits. */
    method RunOnce(count: nat, more: nat, reply: Reply) returns (processed: nat, raised: bool)
      requires Valid() && pc == Idle && count >= 1
      modifies this`degraded, this`handlings, this`rereads, this`pc, this`log, source
      ensures Valid() && old(log) <= log && source.next >= old(source.next)
      ensures pc == if raised then Starting else Idle
      ensures !old(degraded) || (old(source.pending) == [] && lists(old(rereads)).Arrives?) || lists(old(rereads)).TimesOut? ==>
                GivenOut(count, more, reply, old(source.arrived), old(source.next), source.arrived, source.next)
      ensures var prior, list := old(source.pending), lists(old(rereads));
              var again := if old(degraded) && list.Arrives? then prior[..if count <= |prior| then count else |prior|] else [];
              var news := Range(old(source.next), source.next);
              if (old(degraded) && list.Raises?) || (again == [] && reply.Raises?)
              then processed == 0 && raised && !degraded && source.pending == prior + news &&
                   (old(degraded) && list.Raises? ==> news == [])
              else
                var b := Take(handle, acks, old(handlings), if again != [] then again else if reply.Arrives? then news else []);
                && (again != [] ==> news == [])
                && processed == b.processed && raised == b.raised
                && source.pending == WithoutAll(prior + news, (if again != [] then again else news)[..b.acked])
                && degraded == (!raised && (b.refused || again != []))
    {
      hide Possible, After, WithoutAll, Without, Take, Range;
      assert source.pending + [] == source.pending;
      NoneNew(source.next);
      if degraded {
        var batch := source.ReadPending(count, lists(rereads));
        rereads := rereads + 1;
        if batch.None? {
          Die();
          return 0, true;
        }
        ghost var step := if lists(rereads - 1).TimesOut? then RereadTimesOut else Reread(|batch.value|);
        Extend(log, step);
        log := log + [step];
        if batch.value != [] {
          pc := Working(batch.value, false);
          processed, raised := Process(batch.value);
          return;
        }
        degraded, pc := false, Probed;
      }
      processed, raised := Fetch(count, more, reply);
    }

    /** Read new events and process them. */
    method Fetch(count: nat, more: nat, reply: Reply) returns (processed: nat, raised: bool)
      requires Valid() && (pc == Probed || pc == Idle) && !degraded
      modifies this`degraded, this`handlings, this`pc, this`log, source
      ensures Valid() && old(log) <= log && source.next >= old(source.next)
      ensures pc == if raised then Starting else Idle
      ensures GivenOut(count, more, reply, old(source.arrived), old(source.next), source.arrived, source.next)
      ensures var news := Range(old(source.next), source.next);
              if reply.Raises? then processed == 0 && raised && !degraded && source.pending == old(source.pending) + news
              else
                var b := Take(handle, acks, old(handlings), if reply.Arrives? then news else []);
                && processed == b.processed && raised == b.raised
                && source.pending == WithoutAll(old(source.pending) + news, news[..b.acked])
                && degraded == b.refused
    {
      hide Possible, After, WithoutAll, Without, Take, Range;
      ghost var first := source.next;
      var batch := source.Read(count, more, reply);
      ghost var log1 := log + [Arrive(more)];
      Extend(log, Arrive(more));
      ghost var step := if reply.Arrives? then Read(source.next - first) else ReadLost(source.next - first);
      Extend(log1, step);
      log, pc := log1 + [step], if reply.Arrives? then Onward(Range(first, source.next), false) else Idle;
      if batch.None? {
        Die();
        return 0, true;
      }
      if batch.value == [] {
        NothingTaken(handle, acks, handlings, source.pending);
      }
      processed, raised := Process(batch.value);
    }

    /** Handle again, size-limited, everything still pending, and acknowledge it whatever comes out. The drain stops
        early when a read of the pending list times out, or by an exception, which its caller survives. */
    method DrainPending(count: nat) returns (recovered: nat, raised: bool)
      requires Valid() && pc == Starting && count >= 1
      modifies this`degraded, this`handlings, this`rereads, this`pc, this`log, source`pending
      ensures Valid() && pc == Idle && degraded == old(degraded) && old(log) <= log
      ensures var d := Drained(lists, acks, old(rereads), old(handlings), count, |old(source.pending)|);
              && recovered == d.processed && raised == d.raised
              && source.pending == old(source.pending)[d.acked..]
    {
      hide Valid, Drained, Round;
      ghost var all := Drained(lists, acks, rereads, handlings, count, |source.pending|);
      recovered := 0;
      raised := false;
      var again := true;
      while again
        invariant Valid() && pc == (if again then Starting else Idle) && degraded == old(degraded) && old(log) <= log
        invariant recovered + |source.pending| <= |old(source.pending)|
        invariant again ==> recovered + |source.pending| == |old(source.pending)|
        invariant again ==> source.pending == old(source.pending)[recovered..]
        invariant again ==> Plus(Drained(lists, acks, rereads, handlings, count, |source.pending|), recovered) == all
        invariant !again ==> source.pending == old(source.pending)[all.acked..] && recovered == all.processed && raised == all.raised
        decreases again, |source.pending|
      {
        DrainedStep(lists, acks, rereads, handlings, count, |source.pending|);
        DropMore(old(source.pending), recovered, Round(lists, acks, rereads, handlings, count, |source.pending|).acked);
        var done;
        done, again, raised := DrainRound(count);
        recovered := recovered + done;
      }
    }

    /** One batch of the drain; `again` when there may be more. */
    method DrainRound(count: nat) returns (done: nat, again: bool, raised: bool)
      requires Valid() && pc == Starting && count >= 1
      modifies this`degraded, this`handlings, this`rereads, this`pc, this`log, source`pending
      ensures Valid() && old(log) <= log && degraded == old(degraded) && pc == if again then Starting else Idle
      ensures var left := |old(source.pending)|;
              var b := Round(lists, acks, old(rereads), old(handlings), count, left);
              && done == b.processed && raised == b.raised && source.pending == old(source.pending)[b.acked..]
              && again == More(lists, acks, old(rereads), old(handlings), count, left)
              && (again ==> rereads == old(rereads) + 1 && handlings == old(handlings) + done)
    {
      hide Possible, After, Confirmed;
      PendingRises(log);
      var batch := ListPending(count);
      if batch.None? || batch.value == [] {
        return 0, false, batch.None?;
      }
      done, raised := Replay(batch.value);
      again := !raised;
    }

    method ListPending(count: nat) returns (batch: Option<seq<Id>>)
      requires Valid() && pc == Starting && count >= 1
      modifies this`rereads, this`pc, this`log
      ensures Valid() && old(log) <= log && rereads == old(rereads) + 1
      ensures batch == var reply := lists(old(rereads));
                       var k := if count <= |source.pending| then count else |source.pending|;
                       if reply.Raises? then None else Some(if reply.TimesOut? then [] else source.pending[..k])
      ensures pc == if batch.None? || batch.value == [] then Idle else Working(batch.value, true)
    {
      hide Possible, After;
      batch := source.ReadPending(count, lists(rereads));
      ghost var step := if batch.None? then DrainFails else if lists(rereads).TimesOut? then DrainTimesOut else Drain(|batch.value|);
      Extend(log, step);
      rereads, log := rereads + 1, log + [step];
      pc := if batch.None? || batch.value == [] then Idle else Working(batch.value, true);
    }

    method Replay(batch: seq<Id>) returns (processed: nat, raised: bool)
      requires Valid() && batch != [] && pc == Working(batch, true) && batch <= source.pending && Increasing(source.pending)
      modifies this`degraded, this`handlings, this`pc, this`log, source`pending
      ensures Valid() && old(log) <= log && degraded == old(degraded) && pc == if raised then Idle else Starting
      ensures var b := Confirmed(acks, old(handlings), |batch|);
              && processed == b.processed && raised == b.raised && source.pending == old(source.pending)[b.acked..]
              && (!raised ==> handlings == old(handlings) + |batch|)
    {
      hide Valid, Without, Confirmed, Increasing, Served, Plus, Onward;
      ghost var prior, n, all := source.pending, handlings, Confirmed(acks, handlings, |batch|);
      processed := 0;
      OnwardIs(batch, true);
      PlusNone(all);
      assert batch[0..] == batch && prior[0..] == prior;
      while processed < |batch|
        invariant processed <= |batch| && Valid() && old(log) <= log && pc == Onward(batch[processed..], true)
        invariant handlings == n + processed && degraded == old(degraded)
        invariant Plus(Confirmed(acks, handlings, |batch| - processed), processed) == all
        invariant source.pending == prior[processed..]
      {
        OnwardIs(batch[processed..], true);
        ConfirmedNext(acks, handlings, |batch| - processed, processed);
        GoneFromBatch(prior, batch, processed);
        raised := ReplayOne(batch, processed);
        if raised {
          return;
        }
        processed := processed + 1;
      }
      OnwardIs(batch[processed..], true);
      ConfirmedNone(acks, handlings, processed);
      raised := false;
    }

    method ReplayOne(batch: seq<Id>, i: nat) returns (raised: bool)
      requires Valid() && i < |batch| && pc == Working(batch[i..], true)
      modifies this`degraded, this`handlings, this`pc, this`log, source`pending
      ensures Valid() && old(log) <= log && degraded == old(degraded) && handlings == old(handlings) + 1
      ensures raised == !acks(old(handlings)).Arrives? && pc == if raised then Idle else Onward(batch[i + 1..], true)
      ensures source.pending ==
              if !raised || acks(old(handlings)).served then Without(old(source.pending), batch[i]) else old(source.pending)
    {
      hide Possible, After, Without;
      var n := handlings;
      var outcome := handle(n, batch[i]);
      handlings := n + 1;
      raised := Settle(batch, i, outcome, true, n);
    }
  }

  /** What became of `k` events of a drain, handled whatever comes out: only an acknowledgement can fail. */
  function Confirmed(acks: nat -> Reply, n: nat, k: nat): (b: Batch)
    ensures b.processed <= b.acked <= k && !b.refused && (b.raised <==> b.processed < k)
    ensures b.acked <= b.processed + (if b.raised then 1 else 0)
    ensures !b.raised <==> forall i :: n <= i < n + k ==> acks(i).Arrives?
    decreases k
  {
    if k == 0 then Batch(0, 0, false, false)
    else if !acks(n).Arrives? then Batch(0, if acks(n).served then 1 else 0, false, true)
    else Plus(Confirmed(acks, n + 1, k - 1), 1)
  }

  lemma OnwardIs(todo: seq<Id>, draining: bool)
    ensures Onward(todo, draining) == if todo != [] then Working(todo, draining) else if draining then Starting else Idle
  {
  }

  lemma PlusNone(b: Batch)
    ensures Plus(b, 0) == b
  {
  }

  lemma ConfirmedNext(acks: nat -> Reply, n: nat, k: nat, before: nat)
    requires k > 0
    ensures Plus(Confirmed(acks, n, k), before) ==
            if acks(n).Arrives? then Plus(Confirmed(acks, n + 1, k - 1), before + 1)
            else Batch(before, if acks(n).served then before + 1 else before, false, true)
  {
  }

  lemma ConfirmedNone(acks: nat -> Reply, n: nat, before: nat)
    ensures Plus(Confirmed(acks, n, 0), before) == Batch(before, before, false, false)
  {
  }

  /** One batch of a drain with `left` events pending, from the `r`-th read and the `n`-th handling on. */
  function Round(lists: nat -> Reply, acks: nat -> Reply, r: nat, n: nat, count: nat, left: nat): (b: Batch)
    ensures b.processed <= b.acked <= left && !b.refused
  {
    if lists(r).Arrives? then Confirmed(acks, n, if count <= left then count else left)
    else Batch(0, 0, false, lists(r).Raises?)
  }

  /** A drain goes on after a batch that was not empty, all of it acknowledged. */
  predicate More(lists: nat -> Reply, acks: nat -> Reply, r: nat, n: nat, count: nat, left: nat) {
    lists(r).Arrives? && left > 0 && !Round(lists, acks, r, n, count, left).raised
  }

  /** What a drain does: batch after batch, until the list comes back empty or something fails. */
  function Drained(lists: nat -> Reply, acks: nat -> Reply, r: nat, n: nat, count: nat, left: nat): (b: Batch)
    requires count >= 1
    ensures b.processed <= b.acked <= left && !b.refused
    ensures (forall i :: r <= i ==> lists(i).Arrives?) && (forall i :: n <= i ==> acks(i).Arrives?) ==> b.acked == left && !b.raised
    decreases left
  {
    var b := Round(lists, acks, r, n, count, left);
    if More(lists, acks, r, n, count, left)
    then Plus(Drained(lists, acks, r + 1, n + b.processed, count, left - b.processed), b.processed)
    else b
  }

  lemma DrainedStep(lists: nat -> Reply, acks: nat -> Reply, r: nat, n: nat, count: nat, left: nat)
    requires count >= 1
    ensures var b := Round(lists, acks, r, n, count, left);
            Drained(lists, acks, r, n, count, left) ==
            if More(lists, acks, r, n, count, left)
            then Plus(Drained(lists, acks, r + 1, n + b.processed, count, left - b.processed), b.processed)
            else b
    ensures var b := Round(lists, acks, r, n, count, left);
            More(lists, acks, r, n, count, left) ==> b.processed == b.acked > 0
  {
  }

  lemma NoneNew(n: nat)
    ensures Range(n, n) == []
  {
  }

  lemma DropMore(xs: seq<Id>, i: nat, j: nat)
    requires i + j <= |xs|
    ensures xs[i..][j..] == xs[i + j..]
  {
  }

  lemma PendingRises(log: seq<Step>)
    requires Possible(log)
    ensures Increasing(After(log).pending)
  {
    Reached(log);
  }

  predicate Increasing(ids: seq<Id>) {
    forall i, j :: 0 <= i < j < |ids| ==> ids[i] < ids[j]
  }

  lemma WithoutSame(pending: seq<Id>, id: Id)
    requires id !in pending
    ensures Without(pending, id) == pending
  {
  }

  /** In an increasing list, acknowledging the first leaves the rest. */
  lemma FirstGone(ids: seq<Id>, i: nat)
    requires Increasing(ids) && i < |ids|
    ensures Without(ids[i..], ids[i]) == ids[i + 1..]
  {
    assert ids[i..][1..] == ids[i + 1..];
    WithoutSame(ids[i + 1..], ids[i]);
  }

  lemma GoneFromBatch(ids: seq<Id>, batch: seq<Id>, i: nat)
    requires Increasing(ids) && batch <= ids && i < |batch|
    ensures Without(ids[i..], batch[i]) == ids[i + 1..]
  {
    FirstGone(ids, i);
  }

  lemma WithoutIncreasing(ids: seq<Id>, id: Id)
    requires Increasing(ids)
    ensures Increasing(Without(ids, id))
  {
    if ids != [] {
      WithoutIncreasing(ids[1..], id);
      var rest := Without(ids[1..], id);
      forall j | 0 <= j < |rest| ensures ids[0] < rest[j] {
        assert rest[j] in ids[1..];
      }
    }
  }

  // ---------------------------------------------------------------- what every run keeps

  /** A handling that may be acknowledged: not refused as read-only, unless on a restart. */
  ghost predicate Attempted(log: seq<Step>, id: Id) {
    exists o, d :: Handle(id, o, d) in log && (o.ReadOnly? ==> d)
  }

  ghost predicate Inv(log: seq<Step>, s: State) {
    && Increasing(s.pending) && s.next <= s.arrived && (forall id: Id :: id in s.pending ==> id < s.next)
    && (forall id: Id :: id < s.next ==> (id in s.pending <==> Ack(id) !in log))
    && (forall id: Id :: Ack(id) in log ==> id < s.next && Attempted(log, id))
    && (s.pc.Working? || s.pc.Acking? ==> s.pc.todo != [] && Increasing(s.pc.todo) && forall id: Id :: id in s.pc.todo ==> id in s.pending)
    && (s.pc.Acking? ==> Attempted(log, s.pc.todo[0]))
  }

  lemma AttemptedGrows(log: seq<Step>, x: Step)
    ensures forall id: Id :: Attempted(log, id) ==> Attempted(log + [x], id)
  {
    forall id: Id | Attempted(log, id) ensures Attempted(log + [x], id) {
      var o, d :| Handle(id, o, d) in log && (o.ReadOnly? ==> d);
      assert Handle(id, o, d) in log + [x];
    }
  }

  lemma KeepsInvAck(log: seq<Step>, s: State, id: Id)
    requires Inv(log, s) && Enabled(s, Ack(id))
    ensures Inv(log + [Ack(id)], Do(s, Ack(id)))
  {
    hide Without, Attempted;
    AttemptedGrows(log, Ack(id));
    WithoutIncreasing(s.pending, id);
    var t, more := Do(s, Ack(id)), log + [Ack(id)];
    assert forall i: Id :: Ack(i) in more <==> Ack(i) in log || i == id;
    var rest := s.pc.todo[1..];
    assert id in s.pc.todo;
    forall y | y in rest ensures y in t.pending {
      var i :| 0 <= i < |rest| && rest[i] == y;
      assert s.pc.todo[0] < s.pc.todo[i + 1] && y == s.pc.todo[i + 1];
    }
    assert Increasing(rest);
  }

  lemma KeepsInvRead(log: seq<Step>, s: State, x: Step)
    requires Inv(log, s) && Enabled(s, x) && (x.Read? || x.ReadLost?)
    ensures Inv(log + [x], Do(s, x))
  {
    hide Attempted;
    AttemptedGrows(log, x);
    RangeMembers(s.next, s.next + x.k);
    JoinIncreasing(s.pending, Range(s.next, s.next + x.k));
    assert forall i: Id :: Ack(i) in log + [x] <==> Ack(i) in log;
  }

  lemma KeepsInvHandle(log: seq<Step>, s: State, x: Step)
    requires Inv(log, s) && Enabled(s, x) && x.Handle?
    ensures Inv(log + [x], Do(s, x))
  {
    hide Attempted, Increasing;
    AttemptedGrows(log, x);
    HandledIsAttempted(log + [x], x.id, x.outcome, x.draining);
    assert forall i: Id :: Ack(i) in log + [x] <==> Ack(i) in log;
  }

  lemma KeepsInv(log: seq<Step>, s: State, x: Step)
    requires Inv(log, s) && Enabled(s, x)
    ensures Inv(log + [x], Do(s, x))
  {
    hide Without, Attempted, Range;
    AttemptedGrows(log, x);
    match x
    case Read(_) => KeepsInvRead(log, s, x);
    case ReadLost(_) => KeepsInvRead(log, s, x);
    case Handle(_, _, _) => KeepsInvHandle(log, s, x);
    case Ack(id) => KeepsInvAck(log, s, id);
    case _ =>
      assert forall i: Id :: Ack(i) in log + [x] <==> Ack(i) in log;
  }

  lemma RangeMembers(a: nat, b: nat)
    requires a <= b
    ensures forall id: Id :: id in Range(a, b) <==> a <= id < b
    ensures Increasing(Range(a, b))
  {
    forall id: Id | a <= id < b ensures id in Range(a, b) {
      assert Range(a, b)[id - a] == id;
    }
  }

  lemma JoinIncreasing(xs: seq<Id>, ys: seq<Id>)
    requires Increasing(xs) && Increasing(ys) && forall x, y :: x in xs && y in ys ==> x < y
    ensures Increasing(xs + ys)
  {
    forall i, j | 0 <= i < j < |xs + ys| ensures (xs + ys)[i] < (xs + ys)[j] {
      if i < |xs| <= j {
        assert xs[i] in xs && ys[j - |xs|] in ys;
      }
    }
  }

  lemma HandledIsAttempted(log: seq<Step>, id: Id, o: Outcome, d: bool)
    requires Handle(id, o, d) in log
    ensures (o.ReadOnly? ==> d) ==> Attempted(log, id)
  {
  }

  lemma {:induction false} Reached(log: seq<Step>)
    requires Possible(log)
    ensures Inv(log, After(log))
  {
    hide Inv, Enabled, Do;
    if log == [] {
      StartInv();
    } else {
      var before := log[..|log| - 1];
      Reached(before);
      KeepsInv(before, After(before), log[|log| - 1]);
      assert before + [log[|log| - 1]] == log;
    }
  }

  lemma StartInv()
    ensures Inv([], START)
  {
  }

  lemma NoneWithout(pending: seq<Id>)
    ensures WithoutAll(pending, []) == pending
  {
  }

  lemma TakeStep(handle: (nat, Id) -> Outcome, acks: nat -> Reply, n: nat, batch: seq<Id>, i: nat)
    requires i < |batch|
    ensures Take(handle, acks, n, batch[i..]) ==
            if handle(n, batch[i]).ReadOnly? then Batch(0, 0, true, false)
            else if !acks(n).Arrives? then Batch(0, if acks(n).served then 1 else 0, false, true)
            else Plus(Take(handle, acks, n + 1, batch[i + 1..]), 1)
  {
    assert batch[i..][1..] == batch[i + 1..];
  }

  lemma TakeNone(handle: (nat, Id) -> Outcome, acks: nat -> Reply, n: nat)
    ensures Take(handle, acks, n, []) == Batch(0, 0, false, false)
  {
  }

  lemma NothingTaken(handle: (nat, Id) -> Outcome, acks: nat -> Reply, n: nat, pending: seq<Id>)
    ensures Take(handle, acks, n, []).acked == 0 && WithoutAll(pending, []) == pending
  {
  }

  lemma WithoutOneMore(pending: seq<Id>, ids: seq<Id>, i: nat)
    requires i < |ids|
    ensures WithoutAll(pending, ids[..i + 1]) == Without(WithoutAll(pending, ids[..i]), ids[i])
    decreases i
  {
    if i > 0 {
      assert ids[..i + 1][1..] == ids[1..][..i] && ids[..i][1..] == ids[1..][..i - 1];
      WithoutOneMore(Without(pending, ids[0]), ids[1..], i - 1);
    } else {
      assert ids[..1][1..] == [];
    }
  }

  // ---------------------------------------------------------------- the main results

  /** Through every run, crashes anywhere included: each delivered event is pending or acknowledged, never
      both, and none is acknowledged before it was handled; unless on a restart, before it was handled
      without the core refusing. As a run cut short is a run, the handling comes first. */
  lemma NothingLost(log: seq<Step>, cut: nat)
    requires Possible(log) && cut <= |log|
    ensures Possible(log[..cut])
    ensures var s := After(log[..cut]);
            && (forall id: Id :: id < s.next ==> (id in s.pending <==> Ack(id) !in log[..cut]))
            && (forall id: Id :: Ack(id) in log[..cut] ==> id < s.next && Attempted(log[..cut], id))
  {
    hide Possible, After, Attempted;
    CutIsRun(log, cut);
    Reached(log[..cut]);
  }

  lemma CutIsRun(log: seq<Step>, cut: nat)
    requires Possible(log) && cut <= |log|
    ensures Possible(log[..cut])
    decreases |log|
  {
    if cut < |log| {
      CutIsRun(log[..|log| - 1], cut);
      assert log[..|log| - 1][..cut] == log[..cut];
    } else {
      assert log[..cut] == log;
    }
  }

  /** Acknowledged are a first part of the delivered events; pending is exactly the rest; and a worker at
      rest that is not degraded has nothing pending. */
  predicate InOrder(s: State) {
    && |s.pending| <= s.next && s.pending == Range(s.next - |s.pending|, s.next)
    && ((s.pc.Idle? && !s.degraded) || s.pc.Probed? ==> s.pending == [])
  }

  predicate Orderly(s: State) {
    && InOrder(s) && s.next <= s.arrived
    && (s.pc.Starting? || s.pc.Probed? || ((s.pc.Working? || s.pc.Acking?) && s.pc.draining) ==> !s.degraded)
    && (s.pc.Working? || s.pc.Acking? ==> s.pc.todo != [] && s.pc.todo <= s.pending && (s.degraded || s.pc.draining || s.pc.todo == s.pending))
  }

  /** A step after which the worker goes on to new events without having seen to all that is pending: a read of
      the pending list that times out, a drain that ends by an exception, a read of new events whose reply is lost. */
  predicate GivesUp(x: Step) {
    x.RereadTimesOut? || x.DrainTimesOut? || x.DrainFails? || x.ReadLost?
  }

  /** And leaves something pending. */
  predicate Strands(s: State, x: Step)
    requires Enabled(s, x)
  {
    GivesUp(x) && Do(s, x).pending != []
  }

  predicate NoneStranded(log: seq<Step>)
    requires Possible(log)
  {
    log == [] || (NoneStranded(log[..|log| - 1]) && !Strands(After(log[..|log| - 1]), log[|log| - 1]))
  }

  lemma RangeTail(a: nat, b: nat)
    requires a < b
    ensures Range(a, b)[1..] == Range(a + 1, b) && Range(a, b)[0] == a
  {
  }

  lemma KeepsOrder(s: State, x: Step)
    requires Orderly(s) && Enabled(s, x) && !Strands(s, x)
    ensures Orderly(Do(s, x))
  {
    hide Without;
    if x.Ack? {
      KeepsOrderAck(s, x.id);
    } else if x.Read? {
      assert s.pending == [] && [] + Range(s.next, s.next + x.k) == Range(s.next, s.next + x.k);
    }
  }

  lemma KeepsOrderAck(s: State, id: Id)
    requires Orderly(s) && Enabled(s, Ack(id))
    ensures Orderly(Do(s, Ack(id)))
  {
    hide Without;
    var a := s.next - |s.pending|;
    RangeTail(a, s.next);
    RangeMembers(a, s.next);
    assert s.pc.todo[0] == s.pending[0] && s.pending[0..] == s.pending;
    FirstGone(s.pending, 0);
  }

  /** When no step strands anything, every run keeps the order, through crashes and restarts: at each instant the
      acknowledged events are exactly the first ones, pending are exactly the delivered rest, oldest first, and a
      worker at rest that is not degraded has nothing pending. */
  lemma {:induction false} AlwaysInOrder(log: seq<Step>)
    requires Possible(log) && NoneStranded(log)
    ensures Orderly(After(log))
    ensures var s := After(log);
            forall id: Id :: Ack(id) in log <==> id < s.next - |s.pending|
  {
    hide Orderly, Attempted, Enabled, Do, Strands;
    if log == [] {
      assert Orderly(START) by { StartInOrder(); }
    } else {
      var before := log[..|log| - 1];
      AlwaysInOrder(before);
      KeepsOrder(After(before), log[|log| - 1]);
    }
    Reached(log);
    AckedPrefix(log, After(log));
  }

  predicate OrderlyThroughout(log: seq<Step>)
    requires Possible(log)
  {
    Orderly(After(log)) && (log == [] || OrderlyThroughout(log[..|log| - 1]))
  }

  /** And exactly then: a step that strands something leaves the worker about to read new events, with older ones
      pending. */
  lemma {:induction false} InOrderIff(log: seq<Step>)
    requires Possible(log)
    ensures OrderlyThroughout(log) <==> NoneStranded(log)
  {
    hide Orderly, Enabled, Do, Strands;
    if log == [] {
      StartInOrder();
    } else {
      var before := log[..|log| - 1];
      InOrderIff(before);
      if NoneStranded(before) {
        AlwaysInOrder(before);
        if Strands(After(before), log[|log| - 1]) {
          StrandedIsNoOrder(After(before), log[|log| - 1]);
        } else {
          KeepsOrder(After(before), log[|log| - 1]);
        }
      }
    }
  }

  lemma StrandedIsNoOrder(s: State, x: Step)
    requires Orderly(s) && Enabled(s, x) && Strands(s, x)
    ensures !Orderly(Do(s, x))
  {
    GivenUp(s, x);
  }

  lemma StartInOrder()
    ensures Orderly(START)
  {
  }

  lemma AckedPrefix(log: seq<Step>, s: State)
    requires Inv(log, s) && Orderly(s)
    ensures forall id: Id :: Ack(id) in log <==> id < s.next - |s.pending|
  {
    RangeMembers(s.next - |s.pending|, s.next);
  }

  /** Where a worker stands once it has given up: about to read new events, with the pending ones in order. */
  lemma GivenUp(s: State, x: Step)
    requires Orderly(s) && Enabled(s, x) && GivesUp(x)
    ensures var t := Do(s, x);
            && ReadsNew(t) && !t.degraded && t.next <= t.arrived
            && |t.pending| <= t.next && t.pending == Range(t.next - |t.pending|, t.next)
  {
    if x.ReadLost? {
      assert s.pending == [] && [] + Range(s.next, s.next + x.k) == Range(s.next, s.next + x.k);
    }
  }

  /** What a worker that has given up does next: it reads new events and handles the first, and acknowledges it
      unless the core refuses. */
  function NextEvent(t: State, k: nat, outcome: Outcome): State
    requires ReadsNew(t) && !t.degraded && 1 <= k && t.next + k <= t.arrived
  {
    var u := Do(Do(t, Read(k)), Handle(t.next, outcome, false));
    if outcome.ReadOnly? then u else Do(u, Ack(t.next))
  }

  /** Exactly when the order survives giving up and the next new event: nothing was left pending, or the core
      refuses that event as read-only. */
  lemma StrandingBreaksOrderIff(s: State, x: Step, k: nat, outcome: Outcome)
    requires Orderly(s) && Enabled(s, x) && GivesUp(x) && 1 <= k && Do(s, x).next + k <= s.arrived
    ensures ReadsNew(Do(s, x)) && !Do(s, x).degraded && Do(s, x).arrived == s.arrived
    ensures InOrder(NextEvent(Do(s, x), k, outcome)) <==> !Strands(s, x) || outcome.ReadOnly?
  {
    hide Without, InOrder, Range, Orderly;
    GivenUp(s, x);
    var t := Do(s, x);
    var a, next, pending := t.next - |t.pending|, t.next + k, t.pending + Range(t.next, t.next + k);
    RangeJoin(a, t.next, next);
    var left := NextEvent(t, k, outcome);
    if outcome.ReadOnly? {
      assert left.pending == Range(a, next) && left.next == next && left.pc == Idle && left.degraded;
      RestIsOrder(left, a);
    } else {
      assert left.pending == Without(Range(a, next), t.next) && left.next == next;
      if t.pending == [] {
        FirstOfRange(a, next);
        RangeJoin(a, next, next);
        assert left.pending == Range(a + 1, next);
        assert left.pc == Onward(Range(t.next, next)[1..], false) && Range(t.next, next)[1..] == left.pending;
        RestIsOrder(left, a + 1);
      } else {
        GapIsNoOrder(left, a, t.next);
      }
    }
  }

  lemma RangeJoin(a: nat, b: nat, c: nat)
    requires a <= b <= c
    ensures Range(a, b) + Range(b, c) == Range(a, c) && |Range(a, b)| == b - a
  {
  }

  lemma FirstOfRange(a: nat, b: nat)
    requires a < b
    ensures Without(Range(a, b), a) == Range(a + 1, b) && Range(a, b)[1..] == Range(a + 1, b)
  {
    RangeTail(a, b);
    RangeMembers(a, b);
    assert Range(a, b)[0..] == Range(a, b);
    FirstGone(Range(a, b), 0);
  }

  lemma RestIsOrder(s: State, a: nat)
    requires a <= s.next && s.pending == Range(a, s.next)
    requires (s.pc.Idle? && !s.degraded) || s.pc.Probed? ==> s.pending == []
    ensures InOrder(s)
  {
  }

  /** An older event pending, the next one acknowledged: no first part of the events is. */
  lemma GapIsNoOrder(s: State, a: nat, id: nat)
    requires a < id < s.next && s.pending == Without(Range(a, s.next), id)
    ensures !InOrder(s)
  {
    RangeMembers(a, s.next);
    assert a in s.pending && id !in s.pending;
    if |s.pending| <= s.next {
      RangeMembers(s.next - |s.pending|, s.next);
    }
  }

  /** Whole runs to such points. The worker dies with an event delivered, and the restart's drain cannot read it. */
  const DELIVERED := [Arrive(2), Drain(0), Read(1), Crash]

  /** It can, and handles the event again, but acknowledging it fails. */
  const REPLAYED := DELIVERED + [Drain(1), Handle(0, Handled, true)]

  /** The core refuses an event, and reading it again times out. */
  const REFUSED := [Arrive(2), Drain(0), Read(1), Handle(0, ReadOnly, false)]

  /** The server gives out an event, and the reply is lost. */
  const WAITING := [Arrive(2), Drain(0)]

  /** A run up to a step that strands an event. */
  predicate Before(log: seq<Step>, x: Step) {
    || (log == DELIVERED && (x == DrainTimesOut || x == DrainFails))
    || (log == REPLAYED && x == DrainFails)
    || (log == REFUSED && x == RereadTimesOut)
    || (log == WAITING && x == ReadLost(1))
  }

  /** Each way of giving up is reached from the start, and ends out of order: the second event acknowledged,
      the first pending. */
  lemma StrandingsHappen(log: seq<Step>, x: Step)
    requires Before(log, x)
    ensures Possible(log) && NoneStranded(log) && Enabled(After(log), x) && Strands(After(log), x)
    ensures var run := log + [x, Read(1), Handle(1, Handled, false), Ack(1)];
            Possible(run) && After(run).pending == [0] && !InOrder(After(run))
  {
    ReachStrandings(log, x);
    hide Possible, After, Without, InOrder, Before, NoneStranded, Enabled, Do, Strands, ReadsNew;
    Extend(log, x);
    var run := log + [x] + [Read(1)] + [Handle(1, Handled, false)] + [Ack(1)];
    assert run == log + [x, Read(1), Handle(1, Handled, false), Ack(1)];
    NextIsAcked(log + [x]);
  }

  lemma NextIsAcked(log: seq<Step>)
    requires Possible(log) && ReadsNew(After(log)) && After(log) == State(2, 1, [0], false, After(log).pc)
    ensures var run := log + [Read(1)] + [Handle(1, Handled, false)] + [Ack(1)];
            Possible(run) && After(run).pending == [0] && !InOrder(After(run))
  {
    assert Range(1, 2) == [1];
    hide Possible, After, Without, InOrder, Range;
    Extend(log, Read(1));
    var l1 := log + [Read(1)];
    assert After(l1) == State(2, 2, [0] + [1], false, Working([1], false));
    Extend(l1, Handle(1, Handled, false));
    var l2 := l1 + [Handle(1, Handled, false)];
    assert After(l2) == State(2, 2, [0] + [1], false, Acking([1], false));
    Extend(l2, Ack(1));
    WithoutSecond();
    LoneZeroIsNoOrder(After(l2 + [Ack(1)]));
  }

  lemma LoneZeroIsNoOrder(s: State)
    requires s.pending == [0] && s.next == 2
    ensures !InOrder(s)
  {
    assert Range(1, 2)[0] == 1;
  }

  lemma WithoutSecond()
    ensures Without([0] + [1], 1) == [0]
  {
    var both := [0, 1];
    assert [0] + [1] == both && both[1..] == [1] && [1][1..] == [];
    assert Without([1], 1) == [];
    assert Without(both, 1) == [0] + Without(both[1..], 1);
  }

  lemma ReachStrandings(log: seq<Step>, x: Step)
    requires Before(log, x)
    ensures Possible(log) && NoneStranded(log) && Enabled(After(log), x) && Strands(After(log), x)
    ensures Do(After(log), x) == State(2, 1, [0], false, Do(After(log), x).pc) && ReadsNew(Do(After(log), x))
  {
    assert Range(0, 1) == [0] && [] + [0] == [0];
    hide Possible, After, Range, NoneStranded;
    if log == DELIVERED {
      ReachDelivered();
    } else if log == REPLAYED {
      ReachReplayed();
    } else if log == REFUSED {
      ReachRefused();
    } else {
      ReachRead();
    }
  }

  lemma ReachDelivered()
    ensures Possible(DELIVERED) && NoneStranded(DELIVERED) && After(DELIVERED) == State(2, 1, [0], false, Starting)
  {
    hide Possible, After, Range, NoneStranded;
    ReachRead();
    Grows([Arrive(2), Drain(0), Read(1)], Crash, DELIVERED);
  }

  lemma ReachReplayed()
    ensures Possible(REPLAYED) && NoneStranded(REPLAYED) && After(REPLAYED) == State(2, 1, [0], false, Acking([0], true))
  {
    hide Possible, After, Range, NoneStranded;
    ReachDelivered();
    hide DELIVERED;
    var l1, l2 := DELIVERED + [Drain(1)], DELIVERED + [Drain(1)] + [Handle(0, Handled, true)];
    assert [0][..1] == [0] && l2 == REPLAYED;
    Grows(DELIVERED, Drain(1), l1);
    Grows(l1, Handle(0, Handled, true), l2);
  }

  lemma ReachRefused()
    ensures Possible(REFUSED) && NoneStranded(REFUSED) && After(REFUSED) == State(2, 1, [0], true, Idle)
  {
    hide Possible, After, Range, NoneStranded;
    ReachRead();
    Grows([Arrive(2), Drain(0), Read(1)], Handle(0, ReadOnly, false), REFUSED);
  }

  /** A run goes on by a step that strands nothing. */
  lemma Grows(log: seq<Step>, x: Step, more: seq<Step>)
    requires Possible(log) && NoneStranded(log) && Enabled(After(log), x) && !Strands(After(log), x) && more == log + [x]
    ensures Possible(more) && NoneStranded(more) && After(more) == Do(After(log), x)
  {
    hide Possible, After, Strands;
    Extend(log, x);
    assert more[..|more| - 1] == log;
  }

  lemma ReachRead()
    ensures var log := [Arrive(2), Drain(0)];
            Possible(log) && NoneStranded(log) && After(log) == State(2, 0, [], false, Idle)
    ensures var log := [Arrive(2), Drain(0), Read(1)];
            Possible(log) && NoneStranded(log) && After(log) == State(2, 1, [0], false, Working([0], false))
  {
    assert Range(0, 1) == [0] && [] + [0] == [0];
    NoLog();
    hide Possible, After, Range, NoneStranded;
    Grows([], Arrive(2), [Arrive(2)]);
    Grows([Arrive(2)], Drain(0), [Arrive(2), Drain(0)]);
    Grows([Arrive(2), Drain(0)], Read(1), [Arrive(2), Drain(0), Read(1)]);
  }

  lemma NoLog()
    ensures Possible([]) && After([]) == START && NoneStranded([])
  {
  }
}
