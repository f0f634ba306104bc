/** Answers to consent questions in a fleet: an answer may arrive at another instance than the one
    whose worker waits; it is delivered there at most once, and only from the owner of the run. */
module ConsentRelay {
  import opened Wrappers

  type Rid = string
  type Broker = nat
  datatype Owner = Owner(tenant: string, user: string, key: string, run: string)

  /** A pending request. Registrations are numbered, so that each can be followed. */
  datatype Entry = Entry(broker: Broker, owner: Owner, reg: nat)
  datatype Record = Record(owner: Owner, reg: nat)
  datatype Reply = Reply(owner: Owner, rid: Rid, decision: bool, remember: bool)

  /** The entry an answer may take: waiting here, and the owner's. */
  function Mine(pending: map<Rid, Entry>, a: Reply): Option<Entry> {
    if a.rid in pending && pending[a.rid].owner == a.owner then Some(pending[a.rid]) else None
  }

  /** The record the claim script deletes. */
  function Claims(records: map<Rid, Record>, a: Reply): Option<Record> {
    if a.rid in records && records[a.rid].owner == a.owner then Some(records[a.rid]) else None
  }

  /** Whose an answer must be does not depend on what it says: the owner of what waits, and nobody else. */
  lemma OwnersAlone(pending: map<Rid, Entry>, records: map<Rid, Record>, a: Reply)
    ensures Mine(pending, a) == if a.rid in pending && pending[a.rid].owner == a.owner then Some(pending[a.rid]) else None
    ensures Claims(records, a) == if a.rid in records && records[a.rid].owner == a.owner then Some(records[a.rid]) else None
  {
  }

  function Gone(pending: map<Rid, Entry>, run: string): set<Rid> {
    set r | r in pending && pending[r].owner.run == run
  }

  class Redis {
    var records: map<Rid, Record>
    var published: seq<Reply>

    constructor ()
      ensures records == map[] && published == []
    {
      records, published := map[], [];
    }

    /** The claim script: compare and delete, atomically. */
    method Claim(a: Reply) returns (ok: bool)
      modifies this`records
      ensures ok == (a.rid in old(records) && old(records)[a.rid].owner == a.owner)
      ensures records == if ok then old(records) - {a.rid} else old(records)
    {
      if a.rid in records && records[a.rid].owner == a.owner {
        records := records - {a.rid};
        return true;
      }
      return false;
    }
  }

  /** How the shared store behaves during one call: reachable or not, at each of its requests. */
  datatype Weather = Weather(first: bool, second: bool, subscribers: nat)

  class ConsentRelay {
    const redis: Option<Redis>
    var pending: map<Rid, Entry>
    var resolved: seq<(Entry, Reply)>       // the calls of `broker.resolve`, in order

    constructor (redis: Option<Redis>)
      ensures this.redis == redis && pending == map[] && resolved == []
    {
      this.redis, pending, resolved := redis, map[], [];
    }

    ghost function Records(): map<Rid, Record>
      reads this, if redis.Some? then {redis.value} else {}
    {
      if redis.Some? then redis.value.records else map[]
    }

    ghost function Sent(): seq<Reply>
      reads this, if redis.Some? then {redis.value} else {}
    {
      if redis.Some? then redis.value.published else []
    }

    method Register(rid: Rid, e: Entry, up: bool)
      modifies this`pending, if redis.Some? then {redis.value} else {}
      ensures pending == old(pending)[rid := e] && Sent() == old(Sent())
      ensures Records() == if redis.Some? && up then old(Records())[rid := Record(e.owner, e.reg)] else old(Records())
    {
      pending := pending[rid := e];
      if redis.Some? && up {
        redis.value.records := redis.value.records[rid := Record(e.owner, e.reg)];
      }
    }

    method ForgetRun(run: string, up: bool)
      modifies this`pending, if redis.Some? then {redis.value} else {}
      ensures forall r :: r in pending <==> r in old(pending) && old(pending)[r].owner.run != run
      ensures forall r :: r in pending ==> pending[r] == old(pending)[r]
      ensures pending == old(pending) - Gone(old(pending), run) && Sent() == old(Sent())
      ensures Records() == if up then old(Records()) - Gone(old(pending), run) else old(Records())
    {
      var gone := set r | r in pending && pending[r].owner.run == run;
      var todo := gone;
      while todo != {}
        invariant todo <= gone && pending == old(pending) - (gone - todo)
        invariant Records() == old(Records()) && Sent() == old(Sent())
      {
        var r :| r in todo;
        pending := pending - {r};
        todo := todo - {r};
      }
      DropRecords(gone, up);
    }

    method DropRecords(rids: set<Rid>, up: bool)
      modifies if redis.Some? then {redis.value} else {}
      ensures Records() == if up then old(Records()) - rids else old(Records())
      ensures Sent() == old(Sent())
    {
      if redis.None? || rids == {} || !up {
        assert rids == {} ==> Records() - rids == Records();
        return;
      }
      redis.value.records := redis.value.records - rids;
    }

    /** The owner's answer to a request that waits here, whatever it says, goes to the broker as it is, once, and the
        request waits no more; anybody else's changes nothing. */
    method Deliver(a: Reply, up: bool) returns (ok: bool)
      modifies this`pending, this`resolved, if redis.Some? then {redis.value} else {}
      ensures ok == (a.rid in old(pending) && old(pending)[a.rid].owner == a.owner)
      ensures ok ==> pending == old(pending) - {a.rid} && resolved == old(resolved) + [(old(pending)[a.rid], a)] &&
                     Records() == if up then old(Records()) - {a.rid} else old(Records())
      ensures !ok ==> pending == old(pending) && resolved == old(resolved) && Records() == old(Records())
      ensures Sent() == old(Sent())
    {
      if a.rid !in pending || pending[a.rid].owner != a.owner {
        return false;
      }
      var e := pending[a.rid];
      pending := pending - {a.rid};
      resolved := resolved + [(e, a)];
      DropRecords({a.rid}, up);
      return true;
    }

    /** True when the answer reached a waiting broker here, or was handed to a subscriber. A request that
        waits here is answered or refused here; another is relayed only by claiming its record. */
    method Answer(a: Reply, w: Weather) returns (ok: bool)
      modifies this`pending, this`resolved, if redis.Some? then {redis.value} else {}
      ensures a.rid in old(pending) ==>
                && ok == (old(pending)[a.rid].owner == a.owner) && Sent() == old(Sent())
                && resolved == old(resolved) + (if ok then [(old(pending)[a.rid], a)] else [])
                && pending == (if ok then old(pending) - {a.rid} else old(pending))
                && Records() == if ok && w.first then old(Records()) - {a.rid} else old(Records())
      ensures a.rid !in old(pending) ==>
                && pending == old(pending) && resolved == old(resolved)
                && var claimed := redis.Some? && w.first && a.rid in old(Records()) && old(Records())[a.rid].owner == a.owner;
                   && Records() == (if claimed then old(Records()) - {a.rid} else old(Records()))
                   && Sent() == (if claimed && w.second then old(Sent()) + [a] else old(Sent()))
                   && ok == (claimed && w.second && w.subscribers > 0)
    {
      if a.rid in pending {
        ok := Deliver(a, w.first);
        return;
      }
      if redis.None? || !w.first {
        return false;
      }
      var claimed := redis.value.Claim(a);
      if !claimed || !w.second {
        return false;
      }
      redis.value.published := redis.value.published + [a];
      return w.subscribers > 0;
    }
  }

  // ---------------------------------------------------------------- every interleaving

  type Inst = nat
  type Agent = nat

  /** Where a thread that carries an answer stands: one that `answer` runs in, or a listener with a message. */
  datatype Pc =
    | Delivering(at: Inst, a: Reply, relayed: bool)
    | Resolving(e: Entry, a: Reply, relayed: bool)   // the entry is taken out; the broker not called yet
    | Claiming(a: Reply)
    | Publishing(a: Reply, reg: nat)                 // the record is claimed; nothing sent yet
    | Returned(ok: bool, a: Reply)                   // whoever answered is told so
    | Handled(a: Reply)                              // a listener is done with a message; nobody is told

  datatype Event =
    | Registered(reg: nat, rid: Rid, broker: Broker, owner: Owner)
    | Submitted(a: Reply)
    | Claimed(reg: nat, agent: Agent, a: Reply)
    | Resolved(reg: nat, agent: Agent, broker: Broker, a: Reply)

  /** `writing` holds registrations whose record is still to be written. Messages may reach any number
      of instances, any number of times. */
  datatype State = State(pending: map<Inst, map<Rid, Entry>>, records: map<Rid, Record>, writing: map<nat, (Rid, Owner)>,
                         sent: set<Reply>, agents: map<Agent, Pc>, next: nat, log: seq<Event>)

  datatype Action =
    | Register(i: Inst, rid: Rid, broker: Broker, owner: Owner)
    | Write(reg: nat)
    | Remove(rid: Rid)                    // the record expires, or is dropped
    | ForgetRun(i: Inst, run: string)
    | Answer(g: Agent, i: Inst, a: Reply)
    | Receive(g: Agent, i: Inst, a: Reply)
    | Take(g: Agent)
    | Resolve(g: Agent)
    | Claim(g: Agent)
    | Publish(g: Agent, subscribers: nat)
    | Fail(g: Agent)                      // the shared store cannot be reached

  function At(s: State, i: Inst): map<Rid, Entry> {
    if i in s.pending then s.pending[i] else map[]
  }

  predicate Enabled(s: State, x: Action) {
    match x
    case Register(_, _, _, _) => true
    case Write(reg) => reg in s.writing
    case Remove(_) => true
    case ForgetRun(_, _) => true
    case Answer(g, _, _) => g !in s.agents
    case Receive(g, _, a) => g !in s.agents && a in s.sent
    case Take(g) => g in s.agents && s.agents[g].Delivering?
    case Resolve(g) => g in s.agents && s.agents[g].Resolving?
    case Claim(g) => g in s.agents && s.agents[g].Claiming?
    case Publish(g, _) => g in s.agents && s.agents[g].Publishing?
    case Fail(g) => g in s.agents && (s.agents[g].Claiming? || s.agents[g].Publishing?)
  }

  function Do(s: State, x: Action): State
    requires Enabled(s, x)
  {
    match x
    case Register(i, rid, broker, owner) =>
      s.(pending := s.pending[i := At(s, i)[rid := Entry(broker, owner, s.next)]],
         writing := s.writing[s.next := (rid, owner)], next := s.next + 1,
         log := s.log + [Registered(s.next, rid, broker, owner)])
    case Write(reg) =>
      s.(records := s.records[s.writing[reg].0 := Record(s.writing[reg].1, reg)], writing := s.writing - {reg})
    case Remove(rid) => s.(records := s.records - {rid})
    case ForgetRun(i, run) => s.(pending := s.pending[i := At(s, i) - Gone(At(s, i), run)])
    case Answer(g, i, a) =>
      s.(agents := s.agents[g := if a.rid in At(s, i) then Delivering(i, a, false) else Claiming(a)], log := s.log + [Submitted(a)])
    case Receive(g, i, a) => s.(agents := s.agents[g := Delivering(i, a, true)])
    case Take(g) =>
      var at, a, relayed := s.agents[g].at, s.agents[g].a, s.agents[g].relayed;
      var e := Mine(At(s, at), a);
      if e.None? then s.(agents := s.agents[g := if relayed then Handled(a) else Returned(false, a)])
      else s.(agents := s.agents[g := Resolving(e.value, a, relayed)], pending := s.pending[at := At(s, at) - {a.rid}])
    case Resolve(g) =>
      var e, a := s.agents[g].e, s.agents[g].a;
      s.(agents := s.agents[g := if s.agents[g].relayed then Handled(a) else Returned(true, a)],
         log := s.log + [Resolved(e.reg, g, e.broker, a)])
    case Claim(g) =>
      var a := s.agents[g].a;
      var r := Claims(s.records, a);
      if r.None? then s.(agents := s.agents[g := Returned(false, a)])
      else s.(agents := s.agents[g := Publishing(a, r.value.reg)], records := s.records - {a.rid},
              log := s.log + [Claimed(r.value.reg, g, a)])
    case Publish(g, subscribers) =>
      var a := s.agents[g].a;
      s.(agents := s.agents[g := Returned(subscribers > 0, a)], sent := s.sent + {a})
    case Fail(g) => s.(agents := s.agents[g := Returned(false, s.agents[g].a)])
  }

  predicate Possible(s: State, steps: seq<Action>)
    decreases |steps|
  {
    steps == [] || (Enabled(s, steps[0]) && Possible(Do(s, steps[0]), steps[1..]))
  }

  function After(s: State, steps: seq<Action>): State
    requires Possible(s, steps)
    decreases |steps|
  {
    if steps == [] then s else After(Do(s, steps[0]), steps[1..])
  }

  const START := State(map[], map[], map[], {}, map[], 0, [])

  // ---------------------------------------------------------------- the invariant

  predicate InLog(log: seq<Event>, reg: nat, rid: Rid, broker: Broker, owner: Owner) {
    Registered(reg, rid, broker, owner) in log
  }

  ghost predicate Issued(log: seq<Event>, reg: nat, rid: Rid, owner: Owner) {
    exists broker :: InLog(log, reg, rid, broker, owner)
  }

  /** What waits, is being resolved, is recorded or claimed comes from a registration, with its owner. */
  ghost predicate Genuine(s: State) {
    && (forall i, r :: i in s.pending && r in s.pending[i] ==>
          InLog(s.log, s.pending[i][r].reg, r, s.pending[i][r].broker, s.pending[i][r].owner))
    && (forall r :: r in s.records ==> Issued(s.log, s.records[r].reg, r, s.records[r].owner))
    && (forall k :: k in s.writing ==> Issued(s.log, k, s.writing[k].0, s.writing[k].1))
    && (forall a :: a in s.sent ==> Submitted(a) in s.log)
    && (forall e :: e in s.log ==> GenuineEvent(s.log, s.next, e))
    && (forall g :: g in s.agents ==> GenuinePc(s.log, s.agents[g], g))
  }

  ghost predicate GenuinePc(log: seq<Event>, pc: Pc, g: Agent) {
    && Submitted(pc.a) in log
    && (pc.Resolving? ==> pc.e.owner == pc.a.owner && InLog(log, pc.e.reg, pc.a.rid, pc.e.broker, pc.a.owner))
    && (pc.Publishing? ==> Claimed(pc.reg, g, pc.a) in log)
    && (pc.Returned? && pc.ok ==> Carried(log, g, pc.a))
  }

  ghost predicate Carried(log: seq<Event>, g: Agent, a: Reply) {
    exists e :: e in log && (e.Claimed? || e.Resolved?) && e.agent == g && e.a == a
  }

  ghost predicate GenuineEvent(log: seq<Event>, next: nat, e: Event) {
    && (e.Registered? ==> e.reg < next)
    && (e.Claimed? ==> Submitted(e.a) in log && Issued(log, e.reg, e.a.rid, e.a.owner))
    && (e.Resolved? ==> Submitted(e.a) in log && InLog(log, e.reg, e.a.rid, e.broker, e.a.owner))
  }

  predicate Waits(s: State, i: Inst, r: Rid, reg: nat) {
    i in s.pending && r in s.pending[i] && s.pending[i][r].reg == reg
  }

  predicate Takes(s: State, g: Agent, reg: nat) {
    g in s.agents && s.agents[g].Resolving? && s.agents[g].e.reg == reg
  }

  predicate Told(log: seq<Event>, k: nat, reg: nat) {
    k < |log| && log[k].Resolved? && log[k].reg == reg
  }

  /** A registration is in one place: it waits somewhere, someone has taken it, or its broker was told. */
  ghost predicate OnePlace(s: State) {
    && (forall i: Inst, j: Inst, r: Rid, q: Rid, reg: nat :: Waits(s, i, r, reg) && Waits(s, j, q, reg) ==> i == j && r == q)
    && (forall g: Agent, h: Agent, reg: nat :: Takes(s, g, reg) && Takes(s, h, reg) ==> g == h)
    && (forall k: nat, l: nat, reg: nat :: Told(s.log, k, reg) && Told(s.log, l, reg) ==> k == l)
    && (forall i: Inst, r: Rid, g: Agent, reg: nat :: Waits(s, i, r, reg) ==> !Takes(s, g, reg))
    && (forall i: Inst, r: Rid, k: nat, reg: nat :: Waits(s, i, r, reg) ==> !Told(s.log, k, reg))
    && (forall g: Agent, k: nat, reg: nat :: Takes(s, g, reg) ==> !Told(s.log, k, reg))
  }

  predicate Recorded(s: State, r: Rid, reg: nat) {
    r in s.records && s.records[r].reg == reg
  }

  predicate ClaimedAt(log: seq<Event>, k: nat, reg: nat) {
    k < |log| && log[k].Claimed? && log[k].reg == reg
  }

  /** Its record is still to be written, is written, or was claimed. */
  ghost predicate OneRecord(s: State) {
    && (forall r: Rid, q: Rid, reg: nat :: Recorded(s, r, reg) && Recorded(s, q, reg) ==> r == q)
    && (forall k: nat, l: nat, reg: nat :: ClaimedAt(s.log, k, reg) && ClaimedAt(s.log, l, reg) ==> k == l)
    && (forall r: Rid, reg: nat :: Recorded(s, r, reg) ==> reg !in s.writing)
    && (forall k: nat, reg: nat :: ClaimedAt(s.log, k, reg) ==> reg !in s.writing)
    && (forall r: Rid, k: nat, reg: nat :: Recorded(s, r, reg) ==> !ClaimedAt(s.log, k, reg))
  }

  ghost predicate Numbers(s: State) {
    && (forall i: Inst, r: Rid, reg: nat :: Waits(s, i, r, reg) ==> reg < s.next)
    && (forall g: Agent, reg: nat :: Takes(s, g, reg) ==> reg < s.next)
    && (forall k: nat, reg: nat :: Told(s.log, k, reg) || ClaimedAt(s.log, k, reg) ==> reg < s.next)
    && (forall r: Rid, reg: nat :: Recorded(s, r, reg) ==> reg < s.next)
    && (forall reg: nat :: reg in s.writing ==> reg < s.next)
  }

  /** The k-th event is a delivery or a claim by this thread. */
  predicate Acts(log: seq<Event>, k: nat, g: Agent) {
    k < |log| && (log[k].Claimed? || log[k].Resolved?) && log[k].agent == g
  }

  predicate MayAct(pc: Pc) {
    pc.Delivering? || pc.Resolving? || pc.Claiming?
  }

  /** A thread delivers or claims once, and not again. */
  ghost predicate OneAct(s: State) {
    && (forall k: nat, l: nat, g: Agent :: Acts(s.log, k, g) && Acts(s.log, l, g) ==> k == l)
    && (forall k: nat, g: Agent :: Acts(s.log, k, g) ==> g in s.agents && !MayAct(s.agents[g]))
  }

  ghost predicate Inv(s: State) {
    Genuine(s) && OnePlace(s) && OneRecord(s) && Numbers(s) && OneAct(s)
  }

  /** The step takes registration `reg` out of the map where it waits. */
  predicate Picks(s: State, x: Action, reg: nat)
    requires Enabled(s, x)
  {
    x.Take? && var pc := s.agents[x.g];
    Waits(s, pc.at, pc.a.rid, reg) && !Waits(Do(s, x), pc.at, pc.a.rid, reg)
  }

  lemma Moves(s: State, x: Action)
    requires Enabled(s, x)
    ensures var t := Do(s, x);
            && (forall i: Inst, r: Rid, reg: nat :: Waits(t, i, r, reg) ==>
                  Waits(s, i, r, reg) || (x.Register? && x.i == i && x.rid == r && reg == s.next))
            && (forall g: Agent, reg: nat :: Takes(t, g, reg) ==> Takes(s, g, reg) || (x.Take? && x.g == g && Picks(s, x, reg)))
            && (forall k: nat, reg: nat :: Told(t.log, k, reg) ==>
                  Told(s.log, k, reg) || (k == |s.log| && x.Resolve? && Takes(s, x.g, reg) && !Takes(t, x.g, reg)))
  {
    var t := Do(s, x);
    forall i: Inst, r: Rid, reg: nat | Waits(t, i, r, reg)
      ensures Waits(s, i, r, reg) || (x.Register? && x.i == i && x.rid == r && reg == s.next) {}
    forall g: Agent, reg: nat | Takes(t, g, reg)
      ensures Takes(s, g, reg) || (x.Take? && x.g == g && Picks(s, x, reg)) {}
    forall k: nat, reg: nat | Told(t.log, k, reg)
      ensures Told(s.log, k, reg) || (k == |s.log| && x.Resolve? && Takes(s, x.g, reg) && !Takes(t, x.g, reg)) {}
  }

  /** The step claims the record of registration `reg`. */
  predicate Wins(s: State, x: Action, reg: nat)
    requires Enabled(s, x)
  {
    x.Claim? && Recorded(s, s.agents[x.g].a.rid, reg) && !Recorded(Do(s, x), s.agents[x.g].a.rid, reg)
  }

  lemma RecordMoves(s: State, x: Action)
    requires Enabled(s, x)
    ensures var t := Do(s, x);
            && (forall r: Rid, reg: nat :: Recorded(t, r, reg) ==>
                  Recorded(s, r, reg) || (x.Write? && x.reg == reg && r == s.writing[reg].0))
            && (forall k: nat, reg: nat :: ClaimedAt(t.log, k, reg) ==>
                  ClaimedAt(s.log, k, reg) || (k == |s.log| && Wins(s, x, reg)))
            && t.writing.Keys == (if x.Register? then s.writing.Keys + {s.next} else if x.Write? then s.writing.Keys - {x.reg} else s.writing.Keys)
            && t.next == (if x.Register? then s.next + 1 else s.next)
  {
    var t := Do(s, x);
    forall r: Rid, reg: nat | Recorded(t, r, reg)
      ensures Recorded(s, r, reg) || (x.Write? && x.reg == reg && r == s.writing[reg].0) {}
    forall k: nat, reg: nat | ClaimedAt(t.log, k, reg)
      ensures ClaimedAt(s.log, k, reg) || (k == |s.log| && Wins(s, x, reg)) {}
  }

  lemma KeepsNumbers(s: State, x: Action)
    requires Inv(s) && Enabled(s, x)
    ensures Numbers(Do(s, x))
  {
    hide Genuine, OnePlace, OneRecord, Do, Waits, Takes, Told, Recorded, ClaimedAt;
    Moves(s, x);
    RecordMoves(s, x);
  }

  lemma KeepsOnePlace(s: State, x: Action)
    requires Inv(s) && Enabled(s, x)
    ensures OnePlace(Do(s, x))
  {
    hide Genuine, OneRecord, Do, Waits, Takes, Told;
    Moves(s, x);
  }

  lemma KeepsOneRecord(s: State, x: Action)
    requires Inv(s) && Enabled(s, x)
    ensures OneRecord(Do(s, x))
  {
    hide Genuine, OnePlace, Do, Recorded, ClaimedAt;
    RecordMoves(s, x);
  }

  lemma ActsMove(s: State, x: Action)
    requires Enabled(s, x)
    ensures var t := Do(s, x);
            && (forall k: nat, g: Agent :: Acts(t.log, k, g) ==>
                  Acts(s.log, k, g) || (k == |s.log| && g in s.agents && MayAct(s.agents[g]) && g in t.agents && !MayAct(t.agents[g])))
            && (forall g :: g in s.agents && !MayAct(s.agents[g]) ==> g in t.agents && !MayAct(t.agents[g]))
  {
    var t := Do(s, x);
    forall k: nat, g: Agent | Acts(t.log, k, g)
      ensures Acts(s.log, k, g) || (k == |s.log| && g in s.agents && MayAct(s.agents[g]) && g in t.agents && !MayAct(t.agents[g])) {}
  }

  lemma KeepsOneAct(s: State, x: Action)
    requires Inv(s) && Enabled(s, x)
    ensures OneAct(Do(s, x))
  {
    hide Genuine, OnePlace, OneRecord, Numbers, Do, Acts, MayAct;
    ActsMove(s, x);
  }

  /** What a log says stays said. */
  lemma LogGrows(log: seq<Event>, more: seq<Event>, next: nat, later: nat)
    requires next <= later && forall e :: e in log ==> e in more
    ensures forall reg: nat, rid: Rid, b: Broker, o: Owner :: InLog(log, reg, rid, b, o) ==> InLog(more, reg, rid, b, o)
    ensures forall reg: nat, rid: Rid, o: Owner :: Issued(log, reg, rid, o) ==> Issued(more, reg, rid, o)
    ensures forall pc: Pc, g: Agent :: GenuinePc(log, pc, g) ==> GenuinePc(more, pc, g)
    ensures forall e: Event :: GenuineEvent(log, next, e) ==> GenuineEvent(more, later, e)
  {
    forall reg: nat, rid: Rid, o: Owner | Issued(log, reg, rid, o) ensures Issued(more, reg, rid, o) {
      var b :| InLog(log, reg, rid, b, o);
      assert InLog(more, reg, rid, b, o);
    }
    forall g: Agent, a: Reply | Carried(log, g, a) ensures Carried(more, g, a) {
      var e :| e in log && (e.Claimed? || e.Resolved?) && e.agent == g && e.a == a;
      assert e in more;
    }
    forall pc: Pc, g: Agent | GenuinePc(log, pc, g) ensures GenuinePc(more, pc, g) {}
    forall e: Event | GenuineEvent(log, next, e) ensures GenuineEvent(more, later, e) {}
  }

  /** The event a step logs, if any. */
  function EventOf(s: State, x: Action): Option<Event>
    requires Enabled(s, x)
  {
    match x
    case Register(_, rid, broker, owner) => Some(Registered(s.next, rid, broker, owner))
    case Answer(_, _, a) => Some(Submitted(a))
    case Resolve(g) => Some(Resolved(s.agents[g].e.reg, g, s.agents[g].e.broker, s.agents[g].a))
    case Claim(g) =>
      var r := Claims(s.records, s.agents[g].a);
      if r.Some? then Some(Claimed(r.value.reg, g, s.agents[g].a)) else None
    case _ => None
  }

  lemma DoLogs(s: State, x: Action)
    requires Enabled(s, x)
    ensures forall e :: e in Do(s, x).log <==> e in s.log || EventOf(s, x) == Some(e)
  {
  }

  lemma NewEventGenuine(s: State, x: Action)
    requires Inv(s) && Enabled(s, x) && EventOf(s, x).Some?
    ensures GenuineEvent(Do(s, x).log, Do(s, x).next, EventOf(s, x).value)
  {
    hide OnePlace, OneRecord, Numbers, Issued;
    DoLogs(s, x);
    LogGrows(s.log, Do(s, x).log, s.next, Do(s, x).next);
    if x.Claim? || x.Resolve? {
      assert GenuinePc(s.log, s.agents[x.g], x.g);
    }
  }

  lemma NewPcGenuine(s: State, x: Action)
    requires Inv(s) && Enabled(s, x)
    ensures forall g :: g in Do(s, x).agents ==> GenuinePc(Do(s, x).log, Do(s, x).agents[g], g)
  {
    hide OnePlace, OneRecord, Numbers, Issued;
    DoLogs(s, x);
    LogGrows(s.log, Do(s, x).log, s.next, Do(s, x).next);
    forall g | g in Do(s, x).agents ensures GenuinePc(Do(s, x).log, Do(s, x).agents[g], g) {
      if g in s.agents {
        assert GenuinePc(s.log, s.agents[g], g);
        var e := EventOf(s, x);
        assert e.Some? ==> e.value in Do(s, x).log;
      }
    }
  }

  lemma NewEntriesGenuine(s: State, x: Action)
    requires Inv(s) && Enabled(s, x)
    ensures var t := Do(s, x);
            && (forall i, r :: i in t.pending && r in t.pending[i] ==>
                  InLog(t.log, t.pending[i][r].reg, r, t.pending[i][r].broker, t.pending[i][r].owner))
            && (forall r :: r in t.records ==> Issued(t.log, t.records[r].reg, r, t.records[r].owner))
            && (forall k :: k in t.writing ==> Issued(t.log, k, t.writing[k].0, t.writing[k].1))
  {
    hide OnePlace, OneRecord, Numbers, GenuinePc, GenuineEvent, Issued;
    DoLogs(s, x);
    LogGrows(s.log, Do(s, x).log, s.next, Do(s, x).next);
    if x.Register? {
      RegisteredIssues(Do(s, x).log, s.next, x.rid, x.broker, x.owner);
    }
  }

  lemma RegisteredIssues(log: seq<Event>, reg: nat, rid: Rid, b: Broker, o: Owner)
    requires Registered(reg, rid, b, o) in log
    ensures Issued(log, reg, rid, o)
  {
    assert InLog(log, reg, rid, b, o);
  }

  lemma KeepsGenuine(s: State, x: Action)
    requires Inv(s) && Enabled(s, x)
    ensures Genuine(Do(s, x))
  {
    hide OnePlace, OneRecord, Numbers, GenuinePc, GenuineEvent, Issued, InLog;
    var t := Do(s, x);
    DoLogs(s, x);
    LogGrows(s.log, t.log, s.next, t.next);
    NewEntriesGenuine(s, x);
    NewPcGenuine(s, x);
    forall e | e in t.log ensures GenuineEvent(t.log, t.next, e) {
      if e in s.log {
        assert GenuineEvent(s.log, s.next, e);
      } else {
        NewEventGenuine(s, x);
      }
    }
    forall a | a in t.sent ensures Submitted(a) in t.log {
      if a !in s.sent {
        SentWasSubmitted(s, x);
      }
    }
  }

  lemma SentWasSubmitted(s: State, x: Action)
    requires Inv(s) && Enabled(s, x) && x.Publish?
    ensures Submitted(s.agents[x.g].a) in Do(s, x).log
  {
    hide OnePlace, OneRecord, Numbers;
    assert GenuinePc(s.log, s.agents[x.g], x.g);
  }

  lemma {:induction false} RunKeepsInv(s: State, steps: seq<Action>)
    requires Inv(s) && Possible(s, steps)
    ensures Inv(After(s, steps))
    decreases |steps|
  {
    hide Genuine, OnePlace, OneRecord, Numbers, OneAct, Enabled, Do;
    if steps != [] {
      KeepsGenuine(s, steps[0]);
      KeepsOnePlace(s, steps[0]);
      KeepsOneRecord(s, steps[0]);
      KeepsNumbers(s, steps[0]);
      KeepsOneAct(s, steps[0]);
      RunKeepsInv(Do(s, steps[0]), steps[1..]);
    }
  }

  // ---------------------------------------------------------------- the main results

  /** No two calls of `broker.resolve` are for one registration; or for one request id. */
  predicate ResolvedOnce(log: seq<Event>) {
    forall k, l :: 0 <= k < l < |log| && log[k].Resolved? && log[l].Resolved? ==> log[k].reg != log[l].reg
  }

  predicate ResolvedOncePerRequest(log: seq<Event>) {
    forall k, l :: 0 <= k < l < |log| && log[k].Resolved? && log[l].Resolved? ==> log[k].a.rid != log[l].a.rid
  }

  /** No record is claimed twice for one registration. */
  predicate ClaimedOnce(log: seq<Event>) {
    forall k, l :: 0 <= k < l < |log| && log[k].Claimed? && log[l].Claimed? ==> log[k].reg != log[l].reg
  }

  /** The broker heard an answer somebody submitted, and its tenant, user, key and run are the registered
      owner's. */
  predicate FromOwner(log: seq<Event>, e: Event)
    requires e.Resolved?
  {
    Submitted(e.a) in log && Registered(e.reg, e.a.rid, e.broker, e.a.owner) in log
  }

  /** No request id is registered twice. */
  predicate SingleUse(log: seq<Event>) {
    forall e, f :: e in log && f in log && e.Registered? && f.Registered? && e.rid == f.rid ==> e.reg == f.reg
  }

  /** `broker.resolve` runs at most once for a registration, and only with an answer of the registered owner;
      and when request ids are used once, at most once for a request id. */
  lemma DeliveredOnceToTheOwner(steps: seq<Action>)
    requires Possible(START, steps)
    ensures var log := After(START, steps).log;
            && ResolvedOnce(log) && (forall e :: e in log && e.Resolved? ==> FromOwner(log, e))
            && (SingleUse(log) ==> ResolvedOncePerRequest(log))
  {
    hide OneRecord, Numbers, Possible, After;
    RunKeepsInv(START, steps) by { StartInv(); }
    var s := After(START, steps);
    var log := s.log;
    forall e | e in log && e.Resolved? ensures FromOwner(log, e) {
      assert GenuineEvent(log, s.next, e);
    }
    forall k, l | 0 <= k < l < |log| && log[k].Resolved? && log[l].Resolved? ensures log[k].reg != log[l].reg {
      assert Told(log, k, log[k].reg) && Told(log, l, log[l].reg);
    }
    if SingleUse(log) {
      forall k, l | 0 <= k < l < |log| && log[k].Resolved? && log[l].Resolved? ensures log[k].a.rid != log[l].a.rid {
        assert log[k] in log && log[l] in log;
        assert FromOwner(log, log[k]) && FromOwner(log, log[l]);
      }
    }
  }

  lemma StartInv()
    ensures Inv(START)
  {
  }

  /** This thread delivered, or claimed, for this registration. */
  ghost predicate DeliveredFor(log: seq<Event>, g: Agent, reg: nat) {
    exists k: nat :: Told(log, k, reg) && log[k].agent == g
  }

  ghost predicate ClaimedFor(log: seq<Event>, g: Agent, reg: nat) {
    exists k: nat :: ClaimedAt(log, k, reg) && log[k].agent == g
  }

  /** Whoever answered was told "yes". */
  predicate ToldYes(s: State, g: Agent) {
    g in s.agents && s.agents[g].Returned? && s.agents[g].ok
  }

  /** Those told "yes" for a registration. */
  ghost function Yeses(s: State, reg: nat): set<Agent> {
    set g | g in s.agents && ToldYes(s, g) && (DeliveredFor(s.log, g, reg) || ClaimedFor(s.log, g, reg))
  }

  lemma FewWhenAllSame(xs: set<Agent>)
    requires forall x, y :: x in xs && y in xs ==> x == y
    ensures |xs| <= 1
  {
    if xs != {} {
      var x :| x in xs;
      assert xs == {x};
    }
  }

  ghost predicate Split(s: State, reg: nat, g: Agent, h: Agent) {
    ToldYes(s, g) && DeliveredFor(s.log, g, reg) && ToldYes(s, h) && ClaimedFor(s.log, h, reg)
  }

  lemma OneOfEach(s: State, reg: nat)
    requires Inv(s)
    ensures forall g, h :: DeliveredFor(s.log, g, reg) && DeliveredFor(s.log, h, reg) ==> g == h
    ensures forall g, h :: ClaimedFor(s.log, g, reg) && ClaimedFor(s.log, h, reg) ==> g == h
    ensures forall g, r: nat :: DeliveredFor(s.log, g, reg) ==> !ClaimedFor(s.log, g, r)
    ensures forall g, r: nat :: DeliveredFor(s.log, g, reg) && DeliveredFor(s.log, g, r) ==> r == reg
    ensures forall g, r: nat :: ClaimedFor(s.log, g, reg) && ClaimedFor(s.log, g, r) ==> r == reg
  {
    hide Genuine, Numbers;
    forall g, r: nat | DeliveredFor(s.log, g, reg) && (DeliveredFor(s.log, g, r) || ClaimedFor(s.log, g, r))
      ensures r == reg && !ClaimedFor(s.log, g, r)
    {
      var k: nat :| Told(s.log, k, reg) && s.log[k].agent == g;
      assert Acts(s.log, k, g);
      assert forall l: nat :: Acts(s.log, l, g) ==> l == k;
      assert forall l: nat :: (Told(s.log, l, r) || ClaimedAt(s.log, l, r)) && s.log[l].agent == g ==> Acts(s.log, l, g);
    }
    forall g, r: nat | ClaimedFor(s.log, g, reg) && ClaimedFor(s.log, g, r) ensures r == reg {
      var k: nat :| ClaimedAt(s.log, k, reg) && s.log[k].agent == g;
      var l: nat :| ClaimedAt(s.log, l, r) && s.log[l].agent == g;
      assert Acts(s.log, k, g) && Acts(s.log, l, g);
    }
  }

  lemma TwoYesesIff(s: State, reg: nat)
    requires Inv(s)
    ensures |Yeses(s, reg)| <= 2
    ensures |Yeses(s, reg)| == 2 <==> exists g, h :: Split(s, reg, g, h)
  {
    hide Inv, DeliveredFor, ClaimedFor;
    OneOfEach(s, reg);
    var here := set g | g in Yeses(s, reg) && DeliveredFor(s.log, g, reg);
    var away := set g | g in Yeses(s, reg) && ClaimedFor(s.log, g, reg);
    FewWhenAllSame(here);
    FewWhenAllSame(away);
    assert Yeses(s, reg) == here + away && here !! away;
    if exists g, h :: Split(s, reg, g, h) {
      var g, h :| Split(s, reg, g, h);
      assert g in here && h in away;
    }
    if here != {} && away != {} {
      var g :| g in here;
      var h :| h in away;
      assert Split(s, reg, g, h);
    }
  }

  /** In every run: an answer told "yes" was told so for one registration of that very request by that very
      owner, which its own thread delivered or claimed. At most two answers are told "yes" for a registration;
      and two exactly when one was delivered where the request waits and another claimed the record. */
  lemma AtMostTwoYeses(steps: seq<Action>, reg: nat)
    requires Possible(START, steps)
    ensures var s := After(START, steps);
            && ClaimedOnce(s.log) && |Yeses(s, reg)| <= 2
            && (|Yeses(s, reg)| == 2 <==> exists g, h :: Split(s, reg, g, h))
    ensures var s := After(START, steps);
            && (forall g :: ToldYes(s, g) ==>
                  exists r: nat :: g in Yeses(s, r) && Issued(s.log, r, s.agents[g].a.rid, s.agents[g].a.owner))
            && (forall g, r: nat :: g in Yeses(s, reg) && g in Yeses(s, r) ==> r == reg)
  {
    hide Numbers, Possible, After, Genuine, Issued, OnePlace, OneAct, DeliveredFor, ClaimedFor;
    RunKeepsInv(START, steps) by { StartInv(); }
    var s := After(START, steps);
    OneOfEach(s, reg);
    TwoYesesIff(s, reg);
    forall k, l | 0 <= k < l < |s.log| && s.log[k].Claimed? && s.log[l].Claimed? ensures s.log[k].reg != s.log[l].reg {
      assert ClaimedAt(s.log, k, s.log[k].reg) && ClaimedAt(s.log, l, s.log[l].reg);
    }
    forall g | ToldYes(s, g)
      ensures exists r: nat :: g in Yeses(s, r) && Issued(s.log, r, s.agents[g].a.rid, s.agents[g].a.owner)
    {
      YesIsFor(s, g);
    }
    forall g, r: nat | g in Yeses(s, reg) && g in Yeses(s, r) ensures r == reg {
      OneOfEach(s, r);
    }
  }

  lemma YesIsFor(s: State, g: Agent)
    requires Inv(s) && ToldYes(s, g)
    ensures exists r: nat :: g in Yeses(s, r) && Issued(s.log, r, s.agents[g].a.rid, s.agents[g].a.owner)
  {
    hide OnePlace, OneRecord, Numbers, OneAct, Issued;
    assert GenuinePc(s.log, s.agents[g], g);
    var e :| e in s.log && (e.Claimed? || e.Resolved?) && e.agent == g && e.a == s.agents[g].a;
    var k: nat :| k < |s.log| && s.log[k] == e;
    assert GenuineEvent(s.log, s.next, e);
    if e.Resolved? {
      RegisteredIssues(s.log, e.reg, e.a.rid, e.broker, e.a.owner);
      assert Told(s.log, k, e.reg);
    } else {
      assert ClaimedAt(s.log, k, e.reg);
    }
    assert g in Yeses(s, e.reg);
  }

  // ---------------------------------------------------------------- exactly when an answer is told "yes"

  /** Somebody hears the message this thread sends. */
  predicate Heard(steps: seq<Action>, g: Agent) {
    exists j :: 0 <= j < |steps| && steps[j].Publish? && steps[j].g == g && steps[j].subscribers > 0
  }

  predicate Delivers(steps: seq<Action>, g: Agent) {
    exists j :: 0 <= j < |steps| && steps[j] == Resolve(g)
  }

  /** When the thread claims, it finds the owner's record; and then somebody hears its message. */
  predicate RelayWorks(s: State, steps: seq<Action>, g: Agent)
    requires Possible(s, steps) && g in s.agents && s.agents[g].Claiming?
    decreases |steps|
  {
    if steps == [] then false
    else if steps[0] == Claim(g) then
      var a := s.agents[g].a;
      a.rid in s.records && s.records[a.rid].owner == a.owner && Heard(steps[1..], g)
    else steps[0] != Fail(g) && RelayWorks(Do(s, steps[0]), steps[1..], g)
  }

  /** When the thread takes the entry, it finds the owner's; and then it calls the broker. */
  predicate DeliveryWorks(s: State, steps: seq<Action>, g: Agent)
    requires Possible(s, steps) && g in s.agents && s.agents[g].Delivering?
    decreases |steps|
  {
    if steps == [] then false
    else if steps[0] == Take(g) then
      var here, a := At(s, s.agents[g].at), s.agents[g].a;
      a.rid in here && here[a.rid].owner == a.owner && Delivers(steps[1..], g)
    else DeliveryWorks(Do(s, steps[0]), steps[1..], g)
  }

  /** Only its own steps move a thread, and none once it is done. */
  predicate Own(x: Action, g: Agent) {
    (x.Take? || x.Resolve? || x.Claim? || x.Publish? || x.Fail?) && x.g == g
  }

  lemma OthersLeave(s: State, x: Action, g: Agent)
    requires Enabled(s, x) && g in s.agents && !Own(x, g)
    ensures g in Do(s, x).agents && Do(s, x).agents[g] == s.agents[g]
  {
  }

  lemma {:induction false} DoneStays(s: State, steps: seq<Action>, g: Agent)
    requires Possible(s, steps) && g in s.agents && (s.agents[g].Returned? || s.agents[g].Handled?)
    ensures g in After(s, steps).agents && After(s, steps).agents[g] == s.agents[g]
    ensures !Heard(steps, g) && !Delivers(steps, g)
    decreases |steps|
  {
    hide Do;
    if steps != [] {
      OthersLeave(s, steps[0], g);
      DoneStays(Do(s, steps[0]), steps[1..], g);
      StillUnheard(steps, g);
    }
  }

  lemma StillUnheard(steps: seq<Action>, g: Agent)
    requires steps != []
    ensures Heard(steps, g) <==> (steps[0].Publish? && steps[0].g == g && steps[0].subscribers > 0) || Heard(steps[1..], g)
    ensures Delivers(steps, g) <==> steps[0] == Resolve(g) || Delivers(steps[1..], g)
  {
    var rest := steps[1..];
    if Heard(rest, g) {
      var j :| 0 <= j < |rest| && rest[j].Publish? && rest[j].g == g && rest[j].subscribers > 0;
      assert steps[j + 1] == rest[j];
    }
    if Heard(steps, g) {
      var j :| 0 <= j < |steps| && steps[j].Publish? && steps[j].g == g && steps[j].subscribers > 0;
      assert j > 0 ==> rest[j - 1] == steps[j];
    }
    if Delivers(rest, g) {
      var j :| 0 <= j < |rest| && rest[j] == Resolve(g);
      assert steps[j + 1] == rest[j];
    }
    if Delivers(steps, g) {
      var j :| 0 <= j < |steps| && steps[j] == Resolve(g);
      assert j > 0 ==> rest[j - 1] == steps[j];
    }
  }

  lemma {:induction false} PublishingYesIff(s: State, steps: seq<Action>, g: Agent)
    requires Possible(s, steps) && g in s.agents && s.agents[g].Publishing?
    ensures ToldYes(After(s, steps), g) <==> Heard(steps, g)
    decreases |steps|
  {
    hide Do;
    if steps != [] {
      StillUnheard(steps, g);
      var t := Do(s, steps[0]);
      if Own(steps[0], g) {
        PublishingEnds(s, steps[0], g);
        DoneStays(t, steps[1..], g);
      } else {
        OthersLeave(s, steps[0], g);
        PublishingYesIff(t, steps[1..], g);
      }
    }
  }

  lemma PublishingEnds(s: State, x: Action, g: Agent)
    requires Enabled(s, x) && g in s.agents && s.agents[g].Publishing? && Own(x, g)
    ensures g in Do(s, x).agents && Do(s, x).agents[g].Returned?
    ensures Do(s, x).agents[g].ok <==> x.Publish? && x.subscribers > 0
  {
  }

  /** An answer submitted where the request does not wait is told "yes" exactly when the owner's record is
      there as it claims, the store is reachable, and somebody hears the message. */
  lemma {:induction false} RelayedYesIff(s: State, steps: seq<Action>, g: Agent)
    requires Possible(s, steps) && g in s.agents && s.agents[g].Claiming?
    ensures ToldYes(After(s, steps), g) <==> RelayWorks(s, steps, g)
    decreases |steps|
  {
    hide Do, Claims, Heard;
    OwnersAlone(map[], s.records, s.agents[g].a);
    if steps != [] {
      var t := Do(s, steps[0]);
      if Own(steps[0], g) {
        ClaimingEnds(s, steps[0], g);
        if t.agents[g].Publishing? {
          PublishingYesIff(t, steps[1..], g);
        } else {
          DoneStays(t, steps[1..], g);
        }
      } else {
        OthersLeave(s, steps[0], g);
        RelayedYesIff(t, steps[1..], g);
      }
    }
  }

  lemma ClaimingEnds(s: State, x: Action, g: Agent)
    requires Enabled(s, x) && g in s.agents && s.agents[g].Claiming? && Own(x, g)
    ensures g in Do(s, x).agents && (x == Claim(g) || x == Fail(g))
    ensures if x == Claim(g) && Claims(s.records, s.agents[g].a).Some? then Do(s, x).agents[g].Publishing?
            else Do(s, x).agents[g] == Returned(false, s.agents[g].a)
  {
  }

  lemma {:induction false} ResolvingYesIff(s: State, steps: seq<Action>, g: Agent)
    requires Possible(s, steps) && g in s.agents && s.agents[g].Resolving? && !s.agents[g].relayed
    ensures ToldYes(After(s, steps), g) <==> Delivers(steps, g)
    decreases |steps|
  {
    hide Do;
    if steps != [] {
      StillUnheard(steps, g);
      var t := Do(s, steps[0]);
      if Own(steps[0], g) {
        ResolvingEnds(s, steps[0], g);
        DoneStays(t, steps[1..], g);
      } else {
        OthersLeave(s, steps[0], g);
        ResolvingYesIff(t, steps[1..], g);
      }
    }
  }

  lemma ResolvingEnds(s: State, x: Action, g: Agent)
    requires Enabled(s, x) && g in s.agents && s.agents[g].Resolving? && !s.agents[g].relayed && Own(x, g)
    ensures x == Resolve(g) && g in Do(s, x).agents && Do(s, x).agents[g] == Returned(true, s.agents[g].a)
  {
  }

  /** One submitted where the request waits is told "yes" exactly when the owner's entry is still there as it
      takes it, and the broker is called. */
  lemma {:induction false} DeliveredYesIff(s: State, steps: seq<Action>, g: Agent)
    requires Possible(s, steps) && g in s.agents && s.agents[g].Delivering? && !s.agents[g].relayed
    ensures ToldYes(After(s, steps), g) <==> DeliveryWorks(s, steps, g)
    decreases |steps|
  {
    hide Do, Mine, Delivers, At;
    OwnersAlone(At(s, s.agents[g].at), map[], s.agents[g].a);
    if steps != [] {
      var t := Do(s, steps[0]);
      if Own(steps[0], g) {
        DeliveringEnds(s, steps[0], g);
        if t.agents[g].Resolving? {
          ResolvingYesIff(t, steps[1..], g);
        } else {
          DoneStays(t, steps[1..], g);
        }
      } else {
        OthersLeave(s, steps[0], g);
        DeliveredYesIff(t, steps[1..], g);
      }
    }
  }

  lemma DeliveringEnds(s: State, x: Action, g: Agent)
    requires Enabled(s, x) && g in s.agents && s.agents[g].Delivering? && !s.agents[g].relayed && Own(x, g)
    ensures x == Take(g) && g in Do(s, x).agents
    ensures if Mine(At(s, s.agents[g].at), s.agents[g].a).Some?
            then Do(s, x).agents[g].Resolving? && !Do(s, x).agents[g].relayed
            else Do(s, x).agents[g] == Returned(false, s.agents[g].a)
  {
  }

  // ---------------------------------------------------------------- two answers told "yes"

  lemma Prepend(s: State, x: Action, rest: seq<Action>, run: seq<Action>)
    requires Enabled(s, x) && Possible(Do(s, x), rest) && run == [x] + rest
    ensures Possible(s, run) && After(s, run) == After(Do(s, x), rest)
  {
    assert run[1..] == rest;
  }

  lemma NoSteps(s: State)
    ensures Possible(s, []) && After(s, []) == s
  {
  }

  /** Answering where the request waits: taken, resolved, told "yes". */
  lemma LocalYes(s: State, g: Agent, i: Inst, a: Reply)
    requires g !in s.agents && a.rid in At(s, i) && At(s, i)[a.rid].owner == a.owner
    ensures Enabled(s, Answer(g, i, a)) && Enabled(Do(s, Answer(g, i, a)), Take(g))
    ensures Enabled(Do(Do(s, Answer(g, i, a)), Take(g)), Resolve(g))
    ensures var t := Do(Do(Do(s, Answer(g, i, a)), Take(g)), Resolve(g));
            var e := At(s, i)[a.rid];
            t.agents == s.agents[g := Returned(true, a)] && t.records == s.records &&
            t.log == s.log + [Submitted(a)] + [Resolved(e.reg, g, e.broker, a)] && At(t, i) == At(s, i) - {a.rid} &&
            forall j :: j != i ==> At(t, j) == At(s, j)
  {
  }

  /** Anybody else who answers where a request waits is told "no", and nothing else happens. */
  lemma LocalNo(s: State, g: Agent, i: Inst, a: Reply)
    requires g !in s.agents && a.rid in At(s, i) && At(s, i)[a.rid].owner != a.owner
    ensures Enabled(s, Answer(g, i, a)) && Enabled(Do(s, Answer(g, i, a)), Take(g))
    ensures Do(Do(s, Answer(g, i, a)), Take(g)) == s.(agents := s.agents[g := Returned(false, a)], log := s.log + [Submitted(a)])
  {
    assert s.agents[g := Delivering(i, a, false)][g := Returned(false, a)] == s.agents[g := Returned(false, a)];
  }

  /** A message that reaches the instance where the request waits is delivered there: the broker hears the very answer
      that was submitted. */
  lemma RelayedIsDelivered(s: State, g: Agent, i: Inst, a: Reply)
    requires g !in s.agents && a in s.sent && a.rid in At(s, i) && At(s, i)[a.rid].owner == a.owner
    ensures Enabled(s, Receive(g, i, a)) && Enabled(Do(s, Receive(g, i, a)), Take(g))
    ensures Enabled(Do(Do(s, Receive(g, i, a)), Take(g)), Resolve(g))
    ensures var t, e := Do(Do(Do(s, Receive(g, i, a)), Take(g)), Resolve(g)), At(s, i)[a.rid];
            t.agents == s.agents[g := Handled(a)] && t.log == s.log + [Resolved(e.reg, g, e.broker, a)] && At(t, i) == At(s, i) - {a.rid}
  {
  }

  /** Answering elsewhere while the record stands: claimed, published, told "yes". */
  lemma RemoteYes(s: State, h: Agent, j: Inst, a: Reply, n: nat)
    requires h !in s.agents && a.rid !in At(s, j) && a.rid in s.records && s.records[a.rid].owner == a.owner && n > 0
    ensures Enabled(s, Answer(h, j, a)) && Enabled(Do(s, Answer(h, j, a)), Claim(h))
    ensures Enabled(Do(Do(s, Answer(h, j, a)), Claim(h)), Publish(h, n))
    ensures var t := Do(Do(Do(s, Answer(h, j, a)), Claim(h)), Publish(h, n));
            t.agents == s.agents[h := Returned(true, a)] && t.records == s.records - {a.rid} && t.sent == s.sent + {a}
  {
  }

  /** Two answers to one question, even one that approves and one that denies, can both be told "yes": one
      delivered where the request waits, the other relayed from elsewhere before the record is dropped. */
  lemma TwoYeses(s: State, g: Agent, h: Agent, i: Inst, j: Inst, a: Reply, b: Reply, n: nat)
    requires g !in s.agents && h !in s.agents && g != h && i != j && n > 0
    requires b.rid == a.rid && b.owner == a.owner
    requires a.rid in At(s, i) && At(s, i)[a.rid].owner == a.owner && b.rid !in At(s, j)
    requires b.rid in s.records && s.records[b.rid].owner == b.owner
    ensures var run := [Answer(g, i, a), Take(g), Resolve(g), Answer(h, j, b), Claim(h), Publish(h, n)];
            Possible(s, run) && After(s, run).agents == s.agents[g := Returned(true, a)][h := Returned(true, b)]
  {
    hide Possible, After, Enabled, Do, At, Mine, Claims;
    LocalYes(s, g, i, a);
    var s1 := Do(s, Answer(g, i, a));
    var s2 := Do(s1, Take(g));
    var s3 := Do(s2, Resolve(g));
    assert s3.records == s.records && At(s3, j) == At(s, j);
    RemoteYes(s3, h, j, b, n);
    var s4 := Do(s3, Answer(h, j, b));
    var s5 := Do(s4, Claim(h));
    NoSteps(Do(s5, Publish(h, n)));
    var r5 := [Publish(h, n)];
    var r4 := [Claim(h)] + r5;
    var r3 := [Answer(h, j, b)] + r4;
    var r2 := [Resolve(g)] + r3;
    var r1 := [Take(g)] + r2;
    Prepend(s5, Publish(h, n), [], r5);
    Prepend(s4, Claim(h), r5, r4);
    Prepend(s3, Answer(h, j, b), r4, r3);
    Prepend(s2, Resolve(g), r3, r2);
    Prepend(s1, Take(g), r2, r1);
    Prepend(s, Answer(g, i, a), r1, [Answer(g, i, a), Take(g), Resolve(g), Answer(h, j, b), Claim(h), Publish(h, n)]);
  }

  const ASKER := Owner("t", "u", "k", "run")
  const APPROVE := Reply(ASKER, "r", true, false)
  const DENY := Reply(ASKER, "r", false, false)

  /** A whole run: the request is registered on instance 0 and recorded; its owner approves there and denies on
      instance 1; both answers are told "yes", and the broker heard the approval alone. */
  lemma ApprovedAndDenied()
    ensures var run := [Register(0, "r", 7, ASKER), Write(0), Answer(0, 0, APPROVE), Take(0), Resolve(0),
                        Answer(1, 1, DENY), Claim(1), Publish(1, 1)];
            && APPROVE == Reply(ASKER, "r", true, false) && DENY == Reply(ASKER, "r", false, false)
            && Possible(START, run)
            && After(START, run).agents == map[0 := Returned(true, APPROVE), 1 := Returned(true, DENY)]
  {
    hide Possible, After;
    var s1 := Do(START, Register(0, "r", 7, ASKER));
    var s2 := Do(s1, Write(0));
    assert At(s2, 0) == map["r" := Entry(7, ASKER, 0)] && At(s2, 1) == map[];
    assert s2.records == map["r" := Record(ASKER, 0)] && s2.agents == map[];
    hide Do, At, Mine, Claims;
    TwoYeses(s2, 0, 1, 0, 1, APPROVE, DENY, 1);
    var rest := [Answer(0, 0, APPROVE), Take(0), Resolve(0), Answer(1, 1, DENY), Claim(1), Publish(1, 1)];
    Prepend(s1, Write(0), rest, [Write(0)] + rest);
    Prepend(START, Register(0, "r", 7, ASKER), [Write(0)] + rest, [Register(0, "r", 7, ASKER), Write(0)] + rest);
    assert [Register(0, "r", 7, ASKER), Write(0)] + rest ==
           [Register(0, "r", 7, ASKER), Write(0), Answer(0, 0, APPROVE), Take(0), Resolve(0), Answer(1, 1, DENY), Claim(1), Publish(1, 1)];
    assert After(s2, rest).agents == map[0 := Returned(true, APPROVE), 1 := Returned(true, DENY)];
  }
}
