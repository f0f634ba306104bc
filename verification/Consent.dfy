/** Asking the user before a tool runs: the tool's thread blocks on a slot, the user's reply, a
    timeout or a shutdown releases it, one atomic step at a time. */
module Consent {
  import opened Wrappers

  /** One call of `request`; it owns the slot it makes. */
  type Req = nat

  datatype Slot = Slot(decision: bool, remember: bool, ready: bool)

  datatype Broker = Broker(pending: map<string, Req>, slots: map<Req, Slot>, remembered: set<string>, closed: bool)

  function Known(b: Broker, tool: string): bool {
    tool != "" && tool in b.remembered
  }

  /** Make a slot, unless the broker is closed. */
  function Opened(b: Broker, q: Req, rid: string): Broker {
    if b.closed then b
    else b.(slots := b.slots[q := Slot(false, false, false)], pending := b.pending[rid := q])
  }

  function Answered(b: Broker, rid: string, decision: bool, remember: bool): Broker
    requires rid in b.pending ==> b.pending[rid] in b.slots
  {
    if rid !in b.pending then b
    else
      var q := b.pending[rid];
      b.(slots := b.slots[q := b.slots[q].(decision := decision, remember := remember)])
  }

  function Signalled(b: Broker, q: Req): Broker
    requires q in b.slots
  {
    b.(slots := b.slots[q := b.slots[q].(ready := true)])
  }

  function Learned(b: Broker, q: Req, tool: string): Broker
    requires q in b.slots
  {
    if b.slots[q].decision && b.slots[q].remember && tool != "" then b.(remembered := b.remembered + {tool}) else b
  }

  /** Every slot of `qs` signalled, nothing else changed. */
  function Released(b: Broker, qs: set<Req>): Broker {
    b.(slots := map q | q in b.slots :: if q in qs then b.slots[q].(ready := true) else b.slots[q])
  }

  /** The broker object: each method is one critical section, or one step outside the lock. */
  class ConsentBroker {
    var pending: map<string, Req>
    var slots: map<Req, Slot>
    var remembered: set<string>
    var closed: bool

    ghost function Contents(): Broker
      reads this
    {
      Broker(pending, slots, remembered, closed)
    }

    ghost predicate Valid()
      reads this
    {
      pending.Values <= slots.Keys
    }

    constructor (remembered: set<string>)
      ensures Valid() && Contents() == Broker(map[], map[], remembered, false)
    {
      this.remembered := remembered;
      pending, slots, closed := map[], map[], false;
    }

    method Open(q: Req, rid: string) returns (ok: bool)
      requires Valid()
      modifies this
      ensures Valid() && ok == !old(closed) && Contents() == Opened(old(Contents()), q, rid)
      ensures ok ==> slots == old(slots)[q := Slot(false, false, false)] && pending == old(pending)[rid := q] &&
                     remembered == old(remembered) && !closed
      ensures !ok ==> Contents() == old(Contents())
    {
      if closed {
        return false;
      }
      slots := slots[q := Slot(false, false, false)];
      pending := pending[rid := q];
      return true;
    }

    method Withdraw(rid: string)
      requires Valid()
      modifies this
      ensures Valid() && Contents() == old(Contents()).(pending := old(pending) - {rid})
    {
      pending := pending - {rid};
    }

    /** What `request` does with its slot once it has withdrawn it. */
    method Conclude(q: Req, got: bool, tool: string) returns (answer: bool)
      requires Valid() && q in slots
      modifies this
      ensures Valid() && answer == (got && old(slots)[q].decision)
      ensures Contents() == if got then Learned(old(Contents()), q, tool) else old(Contents())
      ensures slots == old(slots) && pending == old(pending) && closed == old(closed)
      ensures remembered == if got && old(slots)[q].decision && old(slots)[q].remember && tool != "" then old(remembered) + {tool}
                            else old(remembered)
    {
      if !got {
        return false;
      }
      if slots[q].decision && slots[q].remember && tool != "" {
        remembered := remembered + {tool};
      }
      return slots[q].decision;
    }

    method Resolve(rid: string, decision: bool, remember: bool)
      requires Valid()
      modifies this
      ensures Valid()
      ensures Contents() == if rid !in old(pending) then old(Contents())
                            else Signalled(Answered(old(Contents()), rid, decision, remember), old(pending)[rid])
      ensures pending == old(pending) && remembered == old(remembered) && closed == old(closed)
      ensures slots == if rid in old(pending) then old(slots)[old(pending)[rid] := Slot(decision, remember, true)] else old(slots)
    {
      if rid !in pending {
        return;
      }
      var q := pending[rid];
      slots := slots[q := slots[q].(decision := decision, remember := remember)];
      slots := slots[q := slots[q].(ready := true)];
    }

    method Shutdown()
      requires Valid()
      modifies this
      ensures Valid() && Contents() == Released(old(Contents()).(closed := true), old(pending).Values)
      ensures closed && pending == old(pending) && remembered == old(remembered) && slots.Keys == old(slots).Keys
      ensures forall q :: q in slots ==>
                slots[q].decision == old(slots)[q].decision && slots[q].remember == old(slots)[q].remember &&
                (slots[q].ready <==> old(slots)[q].ready || exists r :: r in pending && pending[r] == q)
    {
      closed := true;
      var todo := pending.Values;
      while todo != {}
        invariant todo <= old(pending).Values && pending == old(pending) && remembered == old(remembered) && closed
        invariant Valid() && slots == Released(old(Contents()), old(pending).Values - todo).slots
      {
        var q :| q in todo;
        slots := slots[q := slots[q].(ready := true)];
        todo := todo - {q};
      }
    }
  }

  // ---------------------------------------------------------------- every interleaving

  datatype Pc =
    | Asking                            // not remembered; no slot yet
    | Waiting(rid: string)
    | Woken(rid: string, got: bool)     // the wait is over: signalled, or timed out
    | Popped(got: bool)
    | Noted
    | Returned(answer: bool)

  datatype Call = Call(tool: string, pc: Pc)

  datatype Event =
    | Asks(q: Req, known: bool)
    | Opens(q: Req, rid: string)
    | Answers(q: Req, approve: bool, remember: bool)
    | Wakes(q: Req)
    | Withdraws(q: Req)
    | Closes

  /** `answering` holds resolvers between their write and their signal, `releasing` the slots a
      shutdown has still to signal. */
  datatype State = State(b: Broker, calls: map<Req, Call>, answering: map<nat, Req>, releasing: set<Req>, log: seq<Event>)

  datatype Action =
    | Ask(q: Req, tool: string)
    | Open(q: Req, rid: string)
    | Wake(q: Req)
    | Expire(q: Req)
    | Withdraw(q: Req)
    | Note(q: Req)
    | Reply(q: Req)
    | Answer(k: nat, rid: string, approve: bool, remember: bool)
    | Signal(k: nat)
    | Close
    | Release(q: Req)

  predicate Enabled(s: State, a: Action) {
    match a
    case Ask(q, _) => q !in s.calls
    case Open(q, _) => q in s.calls && s.calls[q].pc.Asking?
    case Wake(q) => q in s.calls && s.calls[q].pc.Waiting? && q in s.b.slots && s.b.slots[q].ready
    case Expire(q) => q in s.calls && s.calls[q].pc.Waiting?
    case Withdraw(q) => q in s.calls && s.calls[q].pc.Woken?
    case Note(q) => q in s.calls && s.calls[q].pc.Popped? && q in s.b.slots
    case Reply(q) => q in s.calls && s.calls[q].pc.Noted? && q in s.b.slots
    case Answer(k, rid, _, _) => k !in s.answering && (rid in s.b.pending ==> s.b.pending[rid] in s.b.slots)
    case Signal(k) => k in s.answering && s.answering[k] in s.b.slots
    case Close => true
    case Release(q) => q in s.releasing && q in s.b.slots
  }

  function Move(s: State, q: Req, pc: Pc): State
    requires q in s.calls
  {
    s.(calls := s.calls[q := s.calls[q].(pc := pc)])
  }

  function Do(s: State, a: Action): State
    requires Enabled(s, a)
  {
    match a
    case Ask(q, tool) =>
      var known := Known(s.b, tool);
      s.(calls := s.calls[q := Call(tool, if known then Returned(true) else Asking)], log := s.log + [Asks(q, known)])
    case Open(q, rid) =>
      if s.b.closed then Move(s, q, Returned(false))
      else Move(s, q, Waiting(rid)).(b := Opened(s.b, q, rid), log := s.log + [Opens(q, rid)])
    case Wake(q) => Move(s, q, Woken(s.calls[q].pc.rid, true)).(log := s.log + [Wakes(q)])
    case Expire(q) => Move(s, q, Woken(s.calls[q].pc.rid, false))
    case Withdraw(q) =>
      Move(s, q, Popped(s.calls[q].pc.got)).(b := s.b.(pending := s.b.pending - {s.calls[q].pc.rid}),
                                            log := s.log + [Withdraws(q)])
    case Note(q) =>
      if s.calls[q].pc.got then Move(s, q, Noted).(b := Learned(s.b, q, s.calls[q].tool))
      else Move(s, q, Returned(false))
    case Reply(q) => Move(s, q, Returned(s.b.slots[q].decision))
    case Answer(k, rid, approve, remember) =>
      if rid !in s.b.pending then s
      else s.(b := Answered(s.b, rid, approve, remember), answering := s.answering[k := s.b.pending[rid]],
              log := s.log + [Answers(s.b.pending[rid], approve, remember)])
    case Signal(k) => s.(b := Signalled(s.b, s.answering[k]), answering := s.answering - {k})
    case Close => s.(b := s.b.(closed := true), releasing := s.releasing + s.b.pending.Values, log := s.log + [Closes])
    case Release(q) => s.(b := Signalled(s.b, q), releasing := s.releasing - {q})
  }

  predicate Possible(s: State, steps: seq<Action>)
    decreases |steps|
  {
    steps == [] || (Enabled(s, steps[0]) && Possible(Do(s, steps[0]), steps[1..]))
  }

  function After(s: State, steps: seq<Action>): State
    requires Possible(s, steps)
    decreases |steps|
  {
    if steps == [] then s else After(Do(s, steps[0]), steps[1..])
  }

  function Start(remembered: set<string>): State {
    State(Broker(map[], map[], remembered, false), map[], map[], {}, [])
  }

  // ---------------------------------------------------------------- what the log says

  /** The last answer that reached a call's slot. */
  function LastAnswer(log: seq<Event>, q: Req): (r: Option<Event>)
    ensures r.Some? ==> r.value.Answers? && r.value.q == q && r.value in log
  {
    if log == [] then None
    else
      var e := log[|log| - 1];
      if e.Answers? && e.q == q then Some(e) else LastAnswer(log[..|log| - 1], q)
  }

  predicate Approves(log: seq<Event>, q: Req) {
    LastAnswer(log, q).Some? && LastAnswer(log, q).value.approve
  }

  predicate Remembers(log: seq<Event>, q: Req) {
    LastAnswer(log, q).Some? && LastAnswer(log, q).value.remember
  }

  predicate Concerns(e: Event, q: Req) {
    !e.Closes? && e.q == q
  }

  /** No request id is handed out twice. */
  predicate SingleUse(log: seq<Event>) {
    forall i, j :: 0 <= i < j < |log| && log[i].Opens? && log[j].Opens? ==> log[i].rid != log[j].rid
  }

  /** Answers reach a slot only between its opening and its withdrawal; no slot opens once closed. */
  predicate InOrder(log: seq<Event>) {
    && (forall i, j :: 0 <= i < j < |log| && log[i] == Closes ==> !log[j].Opens?)
    && (forall i, j :: 0 <= i < j < |log| && log[i].Withdraws? && log[j].Answers? ==> log[i].q != log[j].q)
    && (forall j :: 0 <= j < |log| && log[j].Answers? ==> exists i :: 0 <= i < j && log[i].Opens? && log[i].q == log[j].q)
  }

  // ---------------------------------------------------------------- the invariant

  predicate CallInv(s: State, q: Req, c: Call) {
    var asked, woke := Asks(q, true) in s.log, Wakes(q) in s.log;
    match c.pc
    case Asking => !asked && !woke && q !in s.b.slots && forall e :: e in s.log && Concerns(e, q) ==> e.Asks?
    case Waiting(rid) => !asked && !woke && q in s.b.slots && Opens(q, rid) in s.log && Withdraws(q) !in s.log
    case Woken(rid, got) => !asked && got == woke && q in s.b.slots && Opens(q, rid) in s.log && Withdraws(q) !in s.log
    case Popped(got) => !asked && got == woke && q in s.b.slots && Withdraws(q) in s.log
    case Noted => !asked && woke && q in s.b.slots && Withdraws(q) in s.log
    case Returned(answer) => answer == (asked || (woke && Approves(s.log, q)))
  }

  ghost predicate CallsInv(s: State) {
    && (forall q :: q in s.calls ==> CallInv(s, q, s.calls[q]))
    && (forall e :: e in s.log && !e.Closes? ==> e.q in s.calls)
    && s.b.slots.Keys <= s.calls.Keys
  }

  /** A slot holds what the last answer to it said. */
  ghost predicate SlotsInv(s: State) {
    forall q :: q in s.b.slots ==>
      s.b.slots[q].decision == Approves(s.log, q) && s.b.slots[q].remember == Remembers(s.log, q)
  }

  ghost predicate PendingInv(s: State) {
    && (forall r :: r in s.b.pending ==> PendingFor(s, r, s.b.pending[r]))
    && s.answering.Values <= s.b.slots.Keys && s.releasing <= s.b.slots.Keys
  }

  predicate PendingFor(s: State, r: string, q: Req) {
    q in s.b.slots && q in s.calls && (s.calls[q].pc.Waiting? || s.calls[q].pc.Woken?) && s.calls[q].pc.rid == r
  }

  /** A tool is remembered only because an answer approved it and asked so. */
  ghost predicate RememberedInv(s: State, brought: set<string>) {
    && brought <= s.b.remembered
    && (forall tool :: tool in s.b.remembered && tool !in brought ==> exists q :: LearnedFrom(s, tool, q))
    && (forall tool, q :: LearnedFrom(s, tool, q) ==> tool in s.b.remembered)
    && (forall q :: Asks(q, true) in s.log ==> q in s.calls && Known(s.b, s.calls[q].tool))
  }

  predicate LearnedFrom(s: State, tool: string, q: Req) {
    tool != "" && q in s.calls && s.calls[q].tool == tool && (s.calls[q].pc.Noted? || s.calls[q].pc.Returned?) &&
    Wakes(q) in s.log && Withdraws(q) in s.log && Approves(s.log, q) && Remembers(s.log, q)
  }

  /** The slot a request id leads to is signalled, or will be. */
  predicate Freed(s: State, q: Req) {
    q in s.b.slots ==> s.b.slots[q].ready || q in s.releasing
  }

  /** Request ids used once lead to the slots of those who wait. */
  predicate Leads(s: State, q: Req) {
    q in s.calls && (s.calls[q].pc.Waiting? || s.calls[q].pc.Woken?) ==>
      s.calls[q].pc.rid in s.b.pending && s.b.pending[s.calls[q].pc.rid] == q
  }

  ghost predicate CloseInv(s: State) {
    && (s.b.closed <==> Closes in s.log)
    && (s.b.closed ==> forall r :: r in s.b.pending ==> Freed(s, s.b.pending[r]))
    && (SingleUse(s.log) ==> forall q :: q in s.calls ==> Leads(s, q))
  }

  ghost predicate Inv(s: State, brought: set<string>) {
    CallsInv(s) && SlotsInv(s) && PendingInv(s) && RememberedInv(s, brought) && CloseInv(s) && InOrder(s.log)
  }

  lemma Appended(log: seq<Event>, e: Event)
    ensures forall q :: LastAnswer(log + [e], q) == if e.Answers? && e.q == q then Some(e) else LastAnswer(log, q)
    ensures SingleUse(log + [e]) ==> SingleUse(log)
    ensures forall f :: f in log + [e] <==> f in log || f == e
  {
    assert (log + [e])[..|log|] == log;
    if SingleUse(log + [e]) {
      forall i, j | 0 <= i < j < |log| && log[i].Opens? && log[j].Opens? ensures log[i].rid != log[j].rid {
        assert (log + [e])[i] == log[i] && (log + [e])[j] == log[j];
      }
    }
  }

  /** The event a step appends, if any. */
  function EventOf(s: State, a: Action): Option<Event>
    requires Enabled(s, a)
  {
    match a
    case Ask(q, tool) => Some(Asks(q, Known(s.b, tool)))
    case Open(q, rid) => if s.b.closed then None else Some(Opens(q, rid))
    case Wake(q) => Some(Wakes(q))
    case Withdraw(q) => Some(Withdraws(q))
    case Answer(_, rid, approve, remember) =>
      if rid in s.b.pending then Some(Answers(s.b.pending[rid], approve, remember)) else None
    case Close => Some(Closes)
    case _ => None
  }

  lemma DoLogs(s: State, a: Action)
    requires Enabled(s, a)
    ensures var e := EventOf(s, a);
            Do(s, a).log == if e.Some? then s.log + [e.value] else s.log
    ensures var log, e := Do(s, a).log, EventOf(s, a);
            && (forall q :: LastAnswer(log, q) == if e.Some? && e.value.Answers? && e.value.q == q then e else LastAnswer(s.log, q))
            && (SingleUse(log) ==> SingleUse(s.log))
            && (forall f :: f in log <==> f in s.log || e == Some(f))
  {
    hide LastAnswer, SingleUse;
    if EventOf(s, a).Some? {
      Appended(s.log, EventOf(s, a).value);
    }
  }

  /** The steps a call takes itself. */
  predicate Own(a: Action, q: Req) {
    (a.Ask? || a.Open? || a.Wake? || a.Expire? || a.Withdraw? || a.Note? || a.Reply?) && a.q == q
  }

  lemma KeepsOwnCall(s: State, a: Action, brought: set<string>, q: Req)
    requires Inv(s, brought) && Enabled(s, a) && Own(a, q)
    ensures q in Do(s, a).calls && CallInv(Do(s, a), q, Do(s, a).calls[q])
  {
    hide LastAnswer, SingleUse, InOrder, RememberedInv, CloseInv, PendingInv;
    DoLogs(s, a);
    if q in s.calls {
      assert CallInv(s, q, s.calls[q]);
    }
  }

  /** Other steps leave a call's own events alone, save an answer, which finds only those who wait. */
  lemma OthersEvents(s: State, a: Action, brought: set<string>, q: Req)
    requires Inv(s, brought) && Enabled(s, a) && !Own(a, q) && q in s.calls
    ensures q in Do(s, a).calls && Do(s, a).calls[q] == s.calls[q]
    ensures forall e :: e in Do(s, a).log && Concerns(e, q) ==> e in s.log || (e.Answers? && (s.calls[q].pc.Waiting? || s.calls[q].pc.Woken?))
    ensures forall e :: e in s.log ==> e in Do(s, a).log
    ensures !s.calls[q].pc.Waiting? && !s.calls[q].pc.Woken? ==>
              Approves(Do(s, a).log, q) == Approves(s.log, q) && Remembers(Do(s, a).log, q) == Remembers(s.log, q)
    ensures q in s.b.slots <==> q in Do(s, a).b.slots
  {
    hide LastAnswer, SingleUse, InOrder, RememberedInv, CloseInv, CallInv, SlotsInv;
    DoLogs(s, a);
  }

  lemma KeepsCall(s: State, a: Action, brought: set<string>, q: Req)
    requires Inv(s, brought) && Enabled(s, a) && q in Do(s, a).calls
    ensures CallInv(Do(s, a), q, Do(s, a).calls[q])
  {
    hide LastAnswer, SingleUse, InOrder, RememberedInv, CloseInv, SlotsInv, PendingInv, Approves;
    if Own(a, q) {
      KeepsOwnCall(s, a, brought, q);
    } else {
      assert q in s.calls;
      OthersEvents(s, a, brought, q);
      assert CallInv(s, q, s.calls[q]);
      hide Do;
    }
  }

  lemma KeepsCalls(s: State, a: Action, brought: set<string>)
    requires Inv(s, brought) && Enabled(s, a)
    ensures CallsInv(Do(s, a))
  {
    hide LastAnswer, SingleUse, InOrder, RememberedInv, CloseInv, CallInv, SlotsInv;
    DoLogs(s, a);
    forall q | q in Do(s, a).calls ensures CallInv(Do(s, a), q, Do(s, a).calls[q]) {
      KeepsCall(s, a, brought, q);
    }
  }

  lemma KeepsSlots(s: State, a: Action, brought: set<string>)
    requires Inv(s, brought) && Enabled(s, a)
    ensures SlotsInv(Do(s, a))
  {
    hide Inv, Enabled, Do, Approves, Remembers;
    forall q | q in Do(s, a).b.slots ensures SlotKept(Do(s, a), q) {
      KeepsSlot(s, a, brought, q);
    }
  }

  ghost predicate SlotKept(s: State, q: Req) {
    q in s.b.slots ==> s.b.slots[q].decision == Approves(s.log, q) && s.b.slots[q].remember == Remembers(s.log, q)
  }

  lemma KeepsSlot(s: State, a: Action, brought: set<string>, q: Req)
    requires Inv(s, brought) && Enabled(s, a)
    ensures SlotKept(Do(s, a), q)
  {
    hide LastAnswer, SingleUse, InOrder, RememberedInv, CloseInv, PendingFor;
    DoLogs(s, a);
    assert SlotKept(s, q);
  }

  lemma KeepsPendingFor(s: State, a: Action, brought: set<string>, r: string)
    requires Inv(s, brought) && Enabled(s, a) && r in Do(s, a).b.pending
    ensures PendingFor(Do(s, a), r, Do(s, a).b.pending[r])
  {
    hide LastAnswer, SingleUse, InOrder, RememberedInv, CloseInv, SlotsInv, CallsInv, Approves;
    assert r in s.b.pending ==> PendingFor(s, r, s.b.pending[r]);
  }

  lemma KeepsPending(s: State, a: Action, brought: set<string>)
    requires Inv(s, brought) && Enabled(s, a)
    ensures PendingInv(Do(s, a))
  {
    hide LastAnswer, SingleUse, InOrder, RememberedInv, CloseInv, SlotsInv, CallsInv, PendingFor;
    forall r | r in Do(s, a).b.pending ensures PendingFor(Do(s, a), r, Do(s, a).b.pending[r]) {
      KeepsPendingFor(s, a, brought, r);
    }
    assert forall r :: r in s.b.pending ==> PendingFor(s, r, s.b.pending[r]);
    assert forall r :: r in s.b.pending ==> s.b.pending[r] in s.b.slots by {
      forall r | r in s.b.pending ensures s.b.pending[r] in s.b.slots {
        PendingHasSlot(s, r);
      }
    }
  }

  lemma PendingHasSlot(s: State, r: string)
    requires r in s.b.pending && PendingFor(s, r, s.b.pending[r])
    ensures s.b.pending[r] in s.b.slots
  {
  }

  lemma KeepsLearned(s: State, a: Action, brought: set<string>, tool: string, q: Req)
    requires Inv(s, brought) && Enabled(s, a) && LearnedFrom(s, tool, q)
    ensures LearnedFrom(Do(s, a), tool, q)
  {
    hide LastAnswer, SingleUse, InOrder, RememberedInv, CloseInv, SlotsInv, CallsInv;
    DoLogs(s, a);
  }

  lemma KeepsRemembered(s: State, a: Action, brought: set<string>)
    requires Inv(s, brought) && Enabled(s, a)
    ensures RememberedInv(Do(s, a), brought)
  {
    hide LastAnswer, SingleUse, InOrder, CloseInv, LearnedFrom, PendingInv;
    forall tool | tool in Do(s, a).b.remembered && tool !in brought ensures exists q :: LearnedFrom(Do(s, a), tool, q) {
      if tool in s.b.remembered {
        var q :| LearnedFrom(s, tool, q);
        KeepsLearned(s, a, brought, tool, q);
      } else {
        JustLearned(s, a, brought, tool);
      }
    }
    forall tool, q | LearnedFrom(Do(s, a), tool, q) ensures tool in Do(s, a).b.remembered {
      LearnedIsKept(s, a, brought, tool, q);
    }
    StillBrought(s, a, brought);
  }

  lemma StillBrought(s: State, a: Action, brought: set<string>)
    requires Enabled(s, a)
    ensures s.b.remembered <= Do(s, a).b.remembered
  {
  }

  /** Whoever was woken, and approved and asked to remember, has been remembered: now, as it notes its slot, or before. */
  lemma LearnedIsKept(s: State, a: Action, brought: set<string>, tool: string, q: Req)
    requires Inv(s, brought) && Enabled(s, a) && LearnedFrom(Do(s, a), tool, q)
    ensures tool in Do(s, a).b.remembered
  {
    hide LastAnswer, SingleUse, InOrder, CloseInv, PendingInv;
    StillBrought(s, a, brought);
    if Own(a, q) {
      OwnLearns(s, a, brought, tool, q);
    } else {
      OthersLearnNothing(s, a, brought, tool, q);
    }
  }

  lemma OthersLearnNothing(s: State, a: Action, brought: set<string>, tool: string, q: Req)
    requires Inv(s, brought) && Enabled(s, a) && !Own(a, q) && LearnedFrom(Do(s, a), tool, q)
    ensures LearnedFrom(s, tool, q)
  {
    hide LastAnswer, SingleUse, InOrder, CloseInv, PendingInv, RememberedInv, CallsInv, SlotsInv, Approves, Remembers;
    OthersCalls(s, a, q);
    OthersEvents(s, a, brought, q);
    assert Concerns(Wakes(q), q) && Concerns(Withdraws(q), q);
  }

  lemma OthersCalls(s: State, a: Action, q: Req)
    requires Enabled(s, a) && !Own(a, q) && q in Do(s, a).calls
    ensures q in s.calls
  {
  }

  lemma OwnLearns(s: State, a: Action, brought: set<string>, tool: string, q: Req)
    requires Inv(s, brought) && Enabled(s, a) && Own(a, q) && LearnedFrom(Do(s, a), tool, q)
    ensures tool in Do(s, a).b.remembered
  {
    hide LastAnswer, SingleUse, InOrder, CloseInv, PendingInv, Approves, Remembers;
    DoLogs(s, a);
    OwnLogs(s, a, q);
    if q in s.calls {
      assert CallInv(s, q, s.calls[q]);
    }
    if a.Reply? {
      assert LearnedFrom(s, tool, q);
    }
  }

  /** A call's own steps, but for an answer, leave what was answered as it was. */
  lemma OwnLogs(s: State, a: Action, q: Req)
    requires Enabled(s, a) && Own(a, q)
    ensures Approves(Do(s, a).log, q) == Approves(s.log, q) && Remembers(Do(s, a).log, q) == Remembers(s.log, q)
  {
    hide LastAnswer, SingleUse;
    DoLogs(s, a);
  }

  lemma JustLearned(s: State, a: Action, brought: set<string>, tool: string)
    requires Inv(s, brought) && Enabled(s, a) && tool in Do(s, a).b.remembered && tool !in s.b.remembered
    ensures a.Note? && LearnedFrom(Do(s, a), tool, a.q)
  {
    hide LastAnswer, SingleUse, InOrder, CloseInv, PendingInv, RememberedInv;
    if a.Note? {
      assert CallInv(s, a.q, s.calls[a.q]);
    }
  }

  lemma KeepsFreed(s: State, a: Action, brought: set<string>)
    requires Inv(s, brought) && Enabled(s, a) && Do(s, a).b.closed
    ensures forall r :: r in Do(s, a).b.pending ==> Freed(Do(s, a), Do(s, a).b.pending[r])
  {
    hide LastAnswer, SingleUse, InOrder, RememberedInv, SlotsInv, CallsInv;
    forall r | r in Do(s, a).b.pending ensures Freed(Do(s, a), Do(s, a).b.pending[r]) {
      assert r in s.b.pending ==> PendingFor(s, r, s.b.pending[r]);
    }
  }

  lemma OnceOnly(log: seq<Event>, q: Req, p: Req, rid: string)
    requires SingleUse(log) && Opens(q, rid) in log && Opens(p, rid) in log
    ensures p == q
  {
    var i :| 0 <= i < |log| && log[i] == Opens(q, rid);
    var j :| 0 <= j < |log| && log[j] == Opens(p, rid);
    assert i == j;
  }

  lemma KeepsLeads(s: State, a: Action, brought: set<string>, q: Req)
    requires Inv(s, brought) && Enabled(s, a) && SingleUse(Do(s, a).log)
    ensures Leads(Do(s, a), q)
  {
    hide Inv, Enabled, Do, SingleUse, Leads;
    if a.Open? {
      OpenLeads(s, a, brought, q);
    } else if a.Withdraw? {
      WithdrawLeads(s, a, brought, q);
    } else {
      OtherLeads(s, a, brought, q);
    }
  }

  lemma OpenLeads(s: State, a: Action, brought: set<string>, q: Req)
    requires a.Open? && Inv(s, brought) && Enabled(s, a) && SingleUse(Do(s, a).log)
    ensures Leads(Do(s, a), q)
  {
    hide LastAnswer, SingleUse, InOrder, RememberedInv, SlotsInv, PendingInv;
    DoLogs(s, a);
    assert q in s.calls ==> CallInv(s, q, s.calls[q]) && Leads(s, q);
    if q in s.calls && (s.calls[q].pc.Waiting? || s.calls[q].pc.Woken?) && a.rid == s.calls[q].pc.rid && !s.b.closed {
      OnceOnly(Do(s, a).log, q, a.q, a.rid);
    }
  }

  lemma WithdrawLeads(s: State, a: Action, brought: set<string>, q: Req)
    requires a.Withdraw? && Inv(s, brought) && Enabled(s, a) && SingleUse(Do(s, a).log)
    ensures Leads(Do(s, a), q)
  {
    hide LastAnswer, SingleUse, InOrder, RememberedInv, SlotsInv, PendingInv;
    DoLogs(s, a);
    assert q in s.calls ==> CallInv(s, q, s.calls[q]) && Leads(s, q);
    if q in s.calls && (s.calls[q].pc.Waiting? || s.calls[q].pc.Woken?) && s.calls[a.q].pc.rid == s.calls[q].pc.rid {
      assert CallInv(s, a.q, s.calls[a.q]);
      OnceOnly(s.log, q, a.q, s.calls[q].pc.rid);
    }
  }

  lemma OtherLeads(s: State, a: Action, brought: set<string>, q: Req)
    requires !a.Open? && !a.Withdraw? && Inv(s, brought) && Enabled(s, a) && SingleUse(Do(s, a).log)
    ensures Leads(Do(s, a), q)
  {
    hide LastAnswer, SingleUse, InOrder, RememberedInv, SlotsInv, PendingInv, CallsInv;
    DoLogs(s, a);
    assert q in s.calls ==> Leads(s, q);
  }

  lemma KeepsClose(s: State, a: Action, brought: set<string>)
    requires Inv(s, brought) && Enabled(s, a)
    ensures CloseInv(Do(s, a))
  {
    hide LastAnswer, InOrder, RememberedInv, SlotsInv, CallsInv, PendingInv, SingleUse;
    DoLogs(s, a);
    var t := Do(s, a);
    if t.b.closed {
      KeepsFreed(s, a, brought);
    }
    if SingleUse(t.log) {
      forall q | q in t.calls ensures Leads(t, q) {
        KeepsLeads(s, a, brought, q);
      }
    }
  }

  lemma KeepsOrder(s: State, a: Action, brought: set<string>)
    requires Inv(s, brought) && Enabled(s, a)
    ensures InOrder(Do(s, a).log)
  {
    hide LastAnswer, SingleUse, RememberedInv, SlotsInv;
    DoLogs(s, a);
  }

  lemma {:induction false} RunKeepsInv(s: State, steps: seq<Action>, brought: set<string>)
    requires Inv(s, brought) && Possible(s, steps)
    ensures Inv(After(s, steps), brought)
    decreases |steps|
  {
    hide CallsInv, SlotsInv, PendingInv, RememberedInv, CloseInv, InOrder, Enabled, Do;
    if steps != [] {
      KeepsCalls(s, steps[0], brought);
      KeepsSlots(s, steps[0], brought);
      KeepsPending(s, steps[0], brought);
      KeepsRemembered(s, steps[0], brought);
      KeepsClose(s, steps[0], brought);
      KeepsOrder(s, steps[0], brought);
      RunKeepsInv(Do(s, steps[0]), steps[1..], brought);
    }
  }

  // ---------------------------------------------------------------- the main results

  lemma StartInv(brought: set<string>)
    ensures Inv(Start(brought), brought)
  {
  }

  /** Exactly when `request` says yes: the tool was remembered when it asked, or the wait ended by a
      signal and the last answer to reach the slot, before it was withdrawn, approved. */
  lemma YesIff(steps: seq<Action>, brought: set<string>, q: Req)
    requires Possible(Start(brought), steps)
    requires q in After(Start(brought), steps).calls && After(Start(brought), steps).calls[q].pc.Returned?
    ensures var s := After(Start(brought), steps);
            s.calls[q].pc.answer <==> Asks(q, true) in s.log || (Wakes(q) in s.log && Approves(s.log, q))
    ensures InOrder(After(Start(brought), steps).log)
  {
    StartInv(brought);
    RunKeepsInv(Start(brought), steps, brought);
    var s := After(Start(brought), steps);
    assert CallInv(s, q, s.calls[q]);
  }

  /** A tool is remembered if and only if it was brought along, or a call for that tool was woken, withdrawn and last
      answered "approve, and remember"; and a call skips the question only for such a tool. */
  lemma RememberedIsEarned(steps: seq<Action>, brought: set<string>, tool: string)
    requires Possible(Start(brought), steps)
    ensures var s := After(Start(brought), steps);
            tool in s.b.remembered <==> tool in brought || exists p :: LearnedFrom(s, tool, p)
    ensures var s := After(Start(brought), steps);
            forall q :: Asks(q, true) in s.log ==> q in s.calls && Known(s.b, s.calls[q].tool)
  {
    StartInv(brought);
    RunKeepsInv(Start(brought), steps, brought);
  }

  /** A call for a tool that is remembered is answered yes at once, and the user is not asked; any other asks. */
  lemma RememberedIsNotAsked(s: State, q: Req, tool: string)
    requires Enabled(s, Ask(q, tool))
    ensures var t := Do(s, Ask(q, tool));
            t.b == s.b && t.calls == s.calls[q := Call(tool, if tool != "" && tool in s.b.remembered then Returned(true) else Asking)]
  {
  }

  /** Once a shutdown has signalled every slot it found, every slot still pending is signalled, no slot
      opens any more, and, when request ids are used once, everyone who waits can stop waiting. */
  lemma ShutdownReleases(steps: seq<Action>, brought: set<string>)
    requires Possible(Start(brought), steps)
    requires After(Start(brought), steps).b.closed && After(Start(brought), steps).releasing == {}
    ensures var s := After(Start(brought), steps);
            forall r :: r in s.b.pending ==> s.b.pending[r] in s.b.slots && s.b.slots[s.b.pending[r]].ready
    ensures var s := After(Start(brought), steps);
            forall i, j :: 0 <= i < j < |s.log| && s.log[i] == Closes ==> !s.log[j].Opens?
    ensures var s := After(Start(brought), steps);
            SingleUse(s.log) ==> forall q :: q in s.calls && s.calls[q].pc.Waiting? ==> Enabled(s, Wake(q))
  {
    hide SingleUse, LastAnswer;
    StartInv(brought);
    RunKeepsInv(Start(brought), steps, brought);
    var s := After(Start(brought), steps);
    forall r | r in s.b.pending ensures s.b.pending[r] in s.b.slots && s.b.slots[s.b.pending[r]].ready {
      assert PendingFor(s, r, s.b.pending[r]) && Freed(s, s.b.pending[r]);
    }
    if SingleUse(s.log) {
      forall q | q in s.calls && s.calls[q].pc.Waiting? ensures Enabled(s, Wake(q)) {
        assert Leads(s, q);
      }
    }
  }

  /** A call whose question was out: its slot opened before place `i` of the log. */
  ghost predicate OutBefore(log: seq<Event>, q: Req, i: nat)
    requires i <= |log|
  {
    exists j :: 0 <= j < i && log[j].Opens? && log[j].q == q
  }

  /** What a shutdown leaves open, exactly: a call for a tool that was not remembered says yes if and only if it was
      woken and the last answer before its withdrawal approved a slot that was open before the broker closed. */
  lemma YesAcrossShutdown(steps: seq<Action>, brought: set<string>, q: Req, i: nat)
    requires Possible(Start(brought), steps)
    requires i < |After(Start(brought), steps).log| && After(Start(brought), steps).log[i] == Closes
    requires q in After(Start(brought), steps).calls && After(Start(brought), steps).calls[q].pc.Returned?
    requires Asks(q, true) !in After(Start(brought), steps).log
    ensures var s := After(Start(brought), steps);
            s.calls[q].pc.answer <==> Wakes(q) in s.log && Approves(s.log, q) && OutBefore(s.log, q, i)
  {
    hide LastAnswer, Possible, After;
    YesIff(steps, brought, q);
    var s := After(Start(brought), steps);
    if s.calls[q].pc.answer {
      var e := LastAnswer(s.log, q).value;
      var k :| 0 <= k < |s.log| && s.log[k] == e;
      var j :| 0 <= j < k && s.log[j].Opens? && s.log[j].q == s.log[k].q;
      assert s.log[i] != s.log[j];
      assert forall m :: i < m < |s.log| ==> !s.log[m].Opens?;
    }
  }

  lemma Prepend(s: State, a: Action, rest: seq<Action>, run: seq<Action>)
    requires Enabled(s, a) && Possible(Do(s, a), rest) && run == [a] + rest
    ensures Possible(s, run) && After(s, run) == After(Do(s, a), rest)
  {
    assert run[1..] == rest;
  }

  /** A call waits, and a shutdown has come and gone. */
  const SHUT := State(Broker(map["r" := 0], map[0 := Slot(false, false, true)], {}, true),
                      map[0 := Call("t", Waiting("r"))], map[], {}, [Asks(0, false), Opens(0, "r"), Closes])

  const REPLIED := SHUT.(b := SHUT.b.(slots := map[0 := Slot(true, false, true)]), calls := map[0 := Call("t", Woken("r", true))],
                         answering := map[0 := 0], log := SHUT.log + [Wakes(0), Answers(0, true, false)])

  lemma ReachShut()
    ensures Possible(Start({}), [Ask(0, "t"), Open(0, "r"), Close, Release(0)])
    ensures After(Start({}), [Ask(0, "t"), Open(0, "r"), Close, Release(0)]) == SHUT
  {
    hide Possible, After;
    var s0 := Start({});
    var s1 := Do(s0, Ask(0, "t"));
    var s2 := Do(s1, Open(0, "r"));
    assert s2.b.pending == map["r" := 0] && s2.b.slots == map[0 := Slot(false, false, false)];
    assert s2.b.pending["r"] == 0;
    assert s2.b.pending.Values == {0} && s2.log == [Asks(0, false), Opens(0, "r")];
    var s3 := Do(s2, Close);
    assert s3.releasing == {0};
    assert Do(s3, Release(0)) == SHUT;
    NoSteps(SHUT);
    Prepend(s3, Release(0), [], [Release(0)]);
    Prepend(s2, Close, [Release(0)], [Close, Release(0)]);
    Prepend(s1, Open(0, "r"), [Close, Release(0)], [Open(0, "r"), Close, Release(0)]);
    Prepend(s0, Ask(0, "t"), [Open(0, "r"), Close, Release(0)], [Ask(0, "t"), Open(0, "r"), Close, Release(0)]);
  }

  lemma ReachReplied()
    ensures Enabled(SHUT, Wake(0)) && Enabled(Do(SHUT, Wake(0)), Answer(0, "r", true, false))
    ensures Do(Do(SHUT, Wake(0)), Answer(0, "r", true, false)) == REPLIED
  {
    var s := Do(SHUT, Wake(0));
    assert s.log == SHUT.log + [Wakes(0)];
    assert s.log + [Answers(0, true, false)] == REPLIED.log;
    var t := Do(s, Answer(0, "r", true, false));
    assert t.b.slots == REPLIED.b.slots && t.calls == REPLIED.calls && t.answering == REPLIED.answering;
  }

  lemma ReachYes()
    ensures Possible(REPLIED, [Withdraw(0), Note(0), Reply(0)])
    ensures After(REPLIED, [Withdraw(0), Note(0), Reply(0)]).calls == map[0 := Call("t", Returned(true))]
  {
    hide Possible, After;
    var s1 := Do(REPLIED, Withdraw(0));
    assert s1.b.slots == map[0 := Slot(true, false, true)] && s1.calls == map[0 := Call("t", Popped(true))];
    var s2 := Do(s1, Note(0));
    assert s2.b.slots == map[0 := Slot(true, false, true)] && s2.calls == map[0 := Call("t", Noted)];
    var s3 := Do(s2, Reply(0));
    assert s3.calls == map[0 := Call("t", Returned(true))];
    NoSteps(s3);
    Prepend(s2, Reply(0), [], [Reply(0)]);
    Prepend(s1, Note(0), [Reply(0)], [Note(0), Reply(0)]);
    Prepend(REPLIED, Withdraw(0), [Note(0), Reply(0)], [Withdraw(0), Note(0), Reply(0)]);
  }

  /** A shutdown does not settle every answer: a reply that arrives after it has returned, before the
      waiter has withdrawn its slot, still turns into a yes, for a tool nobody remembered. */
  lemma YesAfterShutdown()
    ensures Possible(Start({}), [Ask(0, "t"), Open(0, "r"), Close, Release(0)])
    ensures After(Start({}), [Ask(0, "t"), Open(0, "r"), Close, Release(0)]) == SHUT
    ensures SHUT.b.closed && SHUT.releasing == {} && SHUT.answering == map[] && SHUT.b.remembered == {}
    ensures var more := [Wake(0), Answer(0, "r", true, false), Withdraw(0), Note(0), Reply(0)];
            Possible(SHUT, more) && After(SHUT, more).calls == map[0 := Call("t", Returned(true))]
  {
    hide Possible, After, Enabled, Do;
    ReachShut();
    ReachReplied();
    ReachYes();
    var rest := [Withdraw(0), Note(0), Reply(0)];
    Prepend(Do(SHUT, Wake(0)), Answer(0, "r", true, false), rest, [Answer(0, "r", true, false)] + rest);
    Prepend(SHUT, Wake(0), [Answer(0, "r", true, false)] + rest, [Wake(0), Answer(0, "r", true, false)] + rest);
    assert [Wake(0), Answer(0, "r", true, false)] + rest == [Wake(0), Answer(0, "r", true, false), Withdraw(0), Note(0), Reply(0)];
  }

  lemma NoSteps(s: State)
    ensures Possible(s, []) && After(s, []) == s
  {
  }
}
