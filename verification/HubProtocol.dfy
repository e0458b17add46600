/** The hub, its clients and its senders as one concurrent protocol. Every step is one
    access to shared state; a fan-out holds the read lock from its first step to its last,
    registration needs the write lock, and DeliverToUser sends with no lock at all. */
module HubProtocol {
  import opened Basics

  type Cid = nat  // one WebSocket connection
  type Did = nat  // one delivery: a direct send, a fan-out, or a client's own reply

  const CAPACITY := 256

  datatype Frame = Data(delivery: Did) | Ack(of: Did, delivered: bool)

  /** One non-blocking send attempt, and whether the queue had room. */
  datatype Offer = Offer(frame: Frame, queued: bool)

  /** A client. joined: the hub has processed its registration; replaced: a later one took
      its place. offered, taken and written record what happened to its queue so far, and
      before how many frames had been taken when each offer was made. */
  datatype Conn = Conn(
    user: Uid, buf: seq<Frame>, closed: bool, reading: bool, writing: bool, joined: bool, replaced: bool,
    offered: seq<Offer>, before: seq<nat>, taken: seq<Frame>, written: seq<Frame>)

  datatype Phase =
    | Looked(conn: Cid)
    | Fan(todo: seq<Uid>, skip: Option<Uid>, held: Option<Cid>)
    | Finished

  datatype Delivery = Delivery(targets: set<Uid>, phase: Phase, count: nat)

  datatype Event = Registered(conn: Cid, user: Uid) | Unregistered(conn: Cid)

  /** log: the registrations and unregistrations the hub processed. closes, offline: the
      queues it closed and the disconnects it spawned. crashed: some goroutine closed or
      sent on a closed queue, which ends the process. */
  datatype Hub = Hub(
    registry: map<Uid, Cid>, conns: map<Cid, Conn>, deliveries: map<Did, Delivery>,
    log: seq<Event>, closes: seq<Cid>, offline: seq<Cid>, crashed: bool)

  const START := Hub(map[], map[], map[], [], [], [], false)

  datatype Step =
    | Connect(c: Cid, u: Uid)
    | Register(c: Cid)
    | Unregister(c: Cid)
    | ReaderExit(c: Cid)
    | WriterTakes(c: Cid, ok: bool)
    | WriterExit(c: Cid)
    | BeginBroadcast(d: Did, order: seq<Uid>)
    | BeginGroup(d: Did, order: seq<Uid>, sender: Uid)
    | FanLookup(d: Did)
    | FanSend(d: Did)
    | FanEnd(d: Did)
    | Lookup(d: Did, u: Uid)
    | SendLooked(d: Did)
    | OwnSend(d: Did, c: Cid)
    | SendAck(d: Did, c: Cid)

  /** The send on an open queue: kept if there is room, else dropped. */
  function Push(k: Conn, f: Frame): Conn {
    var noted := k.(before := k.before + [|k.taken|]);
    if |k.buf| < CAPACITY then noted.(buf := k.buf + [f], offered := k.offered + [Offer(f, true)])
    else noted.(offered := k.offered + [Offer(f, false)])
  }

  function PushTo(s: Hub, c: Cid, f: Frame): Hub
    requires c in s.conns
  {
    if s.conns[c].closed then s.(crashed := true)
    else s.(conns := s.conns[c := Push(s.conns[c], f)])
  }

  function Room(s: Hub, c: Cid): nat
    requires c in s.conns
  {
    if |s.conns[c].buf| < CAPACITY then 1 else 0
  }

  function SetPhase(s: Hub, d: Did, p: Phase, more: nat): Hub
    requires d in s.deliveries
  {
    s.(deliveries := s.deliveries[d := s.deliveries[d].(phase := p, count := s.deliveries[d].count + more)])
  }

  /** No fan-out holds the read lock. */
  predicate WriteLockFree(s: Hub) {
    forall d :: d in s.deliveries ==> !s.deliveries[d].phase.Fan?
  }

  /** NewClient: the pumps may run before the hub gets to the registration. */
  function DoConnect(s: Hub, c: Cid, u: Uid): Hub {
    s.(conns := s.conns[c := Conn(u, [], false, true, true, false, false, [], [], [], [])])
  }

  function DoRegister(s: Hub, c: Cid): Hub
    requires c in s.conns
  {
    var u := s.conns[c].user;
    var conns := if u in s.registry && s.registry[u] in s.conns
                 then s.conns[s.registry[u] := s.conns[s.registry[u]].(replaced := true)] else s.conns;
    s.(registry := s.registry[u := c], conns := conns[c := s.conns[c].(joined := true)],
       log := s.log + [Registered(c, u)])
  }

  function DoUnregister(s: Hub, c: Cid): Hub
    requires c in s.conns
  {
    var u := s.conns[c].user;
    var s1 := s.(log := s.log + [Unregistered(c)]);
    if u in s.registry && s.registry[u] == c then
      if s.conns[c].closed then s1.(crashed := true)
      else s1.(registry := s.registry - {u}, conns := s.conns[c := s.conns[c].(closed := true)],
               closes := s.closes + [c], offline := s.offline + [c])
    else s1
  }

  /** The two pumps of a client: the reader stops, the writer takes a frame (and stops if
      writing it fails), or the writer stops. */
  function DoPump(s: Hub, step: Step): Hub
    requires step.ReaderExit? || step.WriterTakes? || step.WriterExit?
    requires step.c in s.conns
  {
    var k := s.conns[step.c];
    match step
    case ReaderExit(c) => s.(conns := s.conns[c := k.(reading := false)])
    case WriterExit(c) => s.(conns := s.conns[c := k.(writing := false)])
    case WriterTakes(c, ok) =>
      if k.writing && k.buf != [] then
        s.(conns := s.conns[c := k.(buf := k.buf[1..], taken := k.taken + [k.buf[0]],
                                    written := if ok then k.written + [k.buf[0]] else k.written,
                                    writing := ok)])
      else s
    case _ => s
  }

  function Begin(s: Hub, d: Did, targets: set<Uid>, p: Phase): Hub {
    s.(deliveries := s.deliveries[d := Delivery(targets, p, 0)])
  }

  /** A delivery starts: a fan-out takes the read lock, a direct send looks its receiver up. */
  function DoBegin(s: Hub, step: Step): Hub
    requires step.BeginBroadcast? || step.BeginGroup? || step.Lookup?
    requires step.d !in s.deliveries
  {
    match step
    case BeginBroadcast(d, order) =>
      if NoDup(order) && Elems(order) == s.registry.Keys then Begin(s, d, Elems(order), Fan(order, None, None)) else s
    case BeginGroup(d, order, sender) =>
      if NoDup(order) then Begin(s, d, Elems(order) - {sender}, Fan(order, Some(sender), None)) else s
    case Lookup(d, u) => Begin(s, d, {u}, if u in s.registry then Looked(s.registry[u]) else Finished)
    case _ => s
  }

  /** The second half of DeliverToUser, on the connection found earlier. */
  function DoDirect(s: Hub, d: Did): Hub
    requires d in s.deliveries
  {
    match s.deliveries[d].phase
    case Looked(c) =>
      if c !in s.conns then s
      else if s.conns[c].closed then s.(crashed := true)
      else SetPhase(PushTo(s, c, Data(d)), d, Finished, Room(s, c))
    case _ => s
  }

  function DoFan(s: Hub, step: Step): Hub
    requires (step.FanLookup? || step.FanSend? || step.FanEnd?) && step.d in s.deliveries
  {
    match (step, s.deliveries[step.d].phase)
    case (FanLookup(d), Fan(todo, skip, None)) =>
      if todo == [] then s
      else if skip != Some(todo[0]) && todo[0] in s.registry
      then SetPhase(s, d, Fan(todo[1..], skip, Some(s.registry[todo[0]])), 0)
      else SetPhase(s, d, Fan(todo[1..], skip, None), 0)
    case (FanSend(d), Fan(todo, skip, Some(c))) =>
      if c in s.conns then SetPhase(PushTo(s, c, Data(d)), d, Fan(todo, skip, None), Room(s, c)) else s
    case (FanEnd(d), Fan(todo, _, None)) => if todo == [] then SetPhase(s, d, Finished, 0) else s
    case _ => s
  }

  function DoOwn(s: Hub, step: Step): Hub
    requires step.OwnSend? || step.SendAck?
  {
    if step.c !in s.conns || !s.conns[step.c].reading then s
    else match step
      case OwnSend(d, c) =>
        if d in s.deliveries then s
        else SetPhase(PushTo(Begin(s, d, {s.conns[c].user}, Finished), c, Data(d)), d, Finished, Room(s, c))
      case SendAck(d, c) =>
        if d in s.deliveries && s.deliveries[d].phase.Finished?
        then PushTo(s, c, Ack(d, s.deliveries[d].count > 0)) else s
      case _ => s
  }

  /** One step; one that does not apply changes nothing, and nothing happens after a crash. */
  function Apply(s: Hub, step: Step): Hub {
    if s.crashed then s
    else match step
      case Connect(c, u) => if c !in s.conns then DoConnect(s, c, u) else s
      case Register(c) => if c in s.conns && !s.conns[c].joined && WriteLockFree(s) then DoRegister(s, c) else s
      case Unregister(c) =>
        if c in s.conns && s.conns[c].joined && !s.conns[c].reading && WriteLockFree(s) then DoUnregister(s, c) else s
      case ReaderExit(c) => if c in s.conns then DoPump(s, step) else s
      case WriterTakes(c, _) => if c in s.conns then DoPump(s, step) else s
      case WriterExit(c) => if c in s.conns then DoPump(s, step) else s
      case BeginBroadcast(d, _) => if d !in s.deliveries then DoBegin(s, step) else s
      case BeginGroup(d, _, _) => if d !in s.deliveries then DoBegin(s, step) else s
      case Lookup(d, _) => if d !in s.deliveries then DoBegin(s, step) else s
      case FanLookup(d) => if d in s.deliveries then DoFan(s, step) else s
      case FanSend(d) => if d in s.deliveries then DoFan(s, step) else s
      case FanEnd(d) => if d in s.deliveries then DoFan(s, step) else s
      case SendLooked(d) => if d in s.deliveries then DoDirect(s, d) else s
      case OwnSend(_, _) => DoOwn(s, step)
      case SendAck(_, _) => DoOwn(s, step)
  }

  function Exec(s: Hub, steps: seq<Step>): Hub
    decreases |steps|
  {
    if steps == [] then s else Exec(Apply(s, steps[0]), steps[1..])
  }

  // ------------------------------------------------------------- safety

  predicate Current(s: Hub, c: Cid) {
    c in s.conns && s.conns[c].user in s.registry && s.registry[s.conns[c].user] == c
  }

  /** Registered queues are open, a client that still reads has an open queue, and
      whatever a fan-out holds is registered. */
  ghost predicate SafeInv(s: Hub) {
    && (forall u :: u in s.registry ==> Current(s, s.registry[u]) && s.conns[s.registry[u]].user == u)
    && (forall c :: Current(s, c) ==> s.conns[c].joined && !s.conns[c].closed && !s.conns[c].replaced)
    && (forall c :: c in s.conns && !s.conns[c].joined ==> !s.conns[c].closed && !s.conns[c].replaced)
    && (forall c :: c in s.conns && s.conns[c].joined ==> Current(s, c) || s.conns[c].closed || s.conns[c].replaced)
    && (forall c :: c in s.conns && s.conns[c].reading ==> !s.conns[c].closed)
    && (forall c :: c in s.conns && s.conns[c].replaced ==> !s.conns[c].closed)
    && HeldOk(s)
  }

  /** What every step but the hub's own two and a new client's leaves alone. */
  ghost predicate Calm(s: Hub, s1: Hub) {
    && s1.registry == s.registry && s1.log == s.log && s1.closes == s.closes && s1.offline == s.offline
    && s1.conns.Keys == s.conns.Keys
    && forall c :: c in s.conns ==> SameClient(s.conns[c], s1.conns[c])
  }

  predicate SameClient(k: Conn, k1: Conn) {
    && k1.user == k.user && k1.closed == k.closed && k1.joined == k.joined && k1.replaced == k.replaced
    && (k1.reading ==> k.reading)
  }

  lemma OneClientMoves(s: Hub, s1: Hub, c: Cid, k: Conn)
    requires c in s.conns && s1.conns == s.conns[c := k] && SameClient(s.conns[c], k)
    requires s1.registry == s.registry && s1.log == s.log && s1.closes == s.closes && s1.offline == s.offline
    ensures Calm(s, s1)
  {
  }

  /** Deliveries after a calm step still hold only what they may. */
  ghost predicate HeldOk(s: Hub) {
    forall d :: d in s.deliveries ==> PhaseOk(s, s.deliveries[d].phase)
  }

  ghost predicate PhaseOk(s: Hub, p: Phase) {
    match p
    case Looked(c) => c in s.conns
    case Fan(_, _, Some(c)) => Current(s, c)
    case _ => true
  }

  lemma CalmIsSafe(s: Hub, s1: Hub)
    requires SafeInv(s) && Calm(s, s1) && HeldOk(s1)
    ensures SafeInv(s1)
  {
    assert forall c :: Current(s1, c) <==> Current(s, c);
  }

  lemma ConnectIsSafe(s: Hub, c: Cid, u: Uid)
    requires SafeInv(s) && c !in s.conns
    ensures SafeInv(DoConnect(s, c, u))
  {
    var s1 := DoConnect(s, c, u);
    assert forall v :: v in s.registry ==> Current(s, s.registry[v]);
    assert forall x :: Current(s1, x) <==> Current(s, x);
    forall d | d in s1.deliveries ensures PhaseOk(s1, s1.deliveries[d].phase) {
      assert PhaseOk(s, s.deliveries[d].phase);
    }
  }

  lemma RegisterIsSafe(s: Hub, c: Cid)
    requires SafeInv(s) && c in s.conns && !s.conns[c].joined && WriteLockFree(s)
    ensures SafeInv(DoRegister(s, c))
  {
    var s1, u := DoRegister(s, c), s.conns[c].user;
    forall x | Current(s1, x) ensures s1.conns[x].joined && !s1.conns[x].closed && !s1.conns[x].replaced {
      if x != c { assert Current(s, x); }
    }
    forall v | v in s1.registry ensures Current(s1, s1.registry[v]) && s1.conns[s1.registry[v]].user == v {
      if v != u { assert Current(s, s.registry[v]); }
    }
    if u in s.registry { assert Current(s, s.registry[u]); }
  }

  lemma UnregisterIsSafe(s: Hub, c: Cid)
    requires SafeInv(s) && !s.crashed && c in s.conns && s.conns[c].joined && !s.conns[c].reading && WriteLockFree(s)
    ensures SafeInv(DoUnregister(s, c)) && !DoUnregister(s, c).crashed
  {
    var s1 := DoUnregister(s, c);
    assert Current(s, c) ==> !s.conns[c].closed && !s.conns[c].replaced;
    forall x | Current(s1, x) ensures Current(s, x) {}
    forall v | v in s1.registry ensures Current(s1, s1.registry[v]) && s1.conns[s1.registry[v]].user == v {
      assert Current(s, s.registry[v]);
    }
  }

  /** After a calm step that moved only delivery d, to a phase it may be in. */
  lemma CalmKeepsHeld(s: Hub, s1: Hub, d: Did)
    requires HeldOk(s) && Calm(s, s1)
    requires forall e :: e in s1.deliveries && e != d ==>
             e in s.deliveries && s1.deliveries[e].phase == s.deliveries[e].phase
    requires d in s1.deliveries ==> PhaseOk(s, s1.deliveries[d].phase)
    ensures HeldOk(s1)
  {
    assert forall c :: Current(s1, c) <==> Current(s, c);
    forall e | e in s1.deliveries ensures PhaseOk(s1, s1.deliveries[e].phase) {
      assert e != d ==> PhaseOk(s, s.deliveries[e].phase);
    }
  }

  lemma PushIsCalm(s: Hub, c: Cid, f: Frame)
    requires c in s.conns && !s.conns[c].closed
    ensures var s1 := PushTo(s, c, f); Calm(s, s1) && s1.deliveries == s.deliveries && s1.crashed == s.crashed
  {
    OneClientMoves(s, PushTo(s, c, f), c, Push(s.conns[c], f));
  }

  /** The send on an open queue by delivery d, which it leaves at phase p. */
  lemma SendIsCalm(s: Hub, c: Cid, f: Frame, d: Did, p: Phase, more: nat)
    requires HeldOk(s) && !s.crashed && c in s.conns && !s.conns[c].closed && d in s.deliveries && PhaseOk(s, p)
    ensures var s1 := SetPhase(PushTo(s, c, f), d, p, more); Calm(s, s1) && HeldOk(s1) && !s1.crashed
  {
    PushIsCalm(s, c, f);
    CalmKeepsHeld(s, SetPhase(PushTo(s, c, f), d, p, more), d);
  }

  lemma FanSendIsCalm(s: Hub, d: Did)
    requires SafeInv(s) && !s.crashed && d in s.deliveries
    ensures var s1 := DoFan(s, FanSend(d)); Calm(s, s1) && HeldOk(s1) && !s1.crashed
  {
    var p := s.deliveries[d].phase;
    assert PhaseOk(s, p);
    if p.Fan? && p.held.Some? {
      var c := p.held.value;
      assert Current(s, c);
      SendIsCalm(s, c, Data(d), d, Fan(p.todo, p.skip, None), Room(s, c));
    }
  }

  lemma MoveIsCalm(s: Hub, d: Did, p: Phase)
    requires HeldOk(s) && d in s.deliveries && PhaseOk(s, p)
    ensures var s1 := SetPhase(s, d, p, 0); Calm(s, s1) && HeldOk(s1)
  {
    CalmKeepsHeld(s, SetPhase(s, d, p, 0), d);
  }

  lemma FanScanIsCalm(s: Hub, step: Step)
    requires SafeInv(s) && !s.crashed && (step.FanLookup? || step.FanEnd?) && step.d in s.deliveries
    ensures var s1 := DoFan(s, step); Calm(s, s1) && HeldOk(s1) && !s1.crashed
  {
    var d, p := step.d, s.deliveries[step.d].phase;
    if p.Fan? && p.held.None? {
      if p.todo == [] {
        MoveIsCalm(s, d, Finished);
      } else {
        MoveIsCalm(s, d, Fan(p.todo[1..], p.skip, None));
        if p.todo[0] in s.registry {
          assert Current(s, s.registry[p.todo[0]]);
          MoveIsCalm(s, d, Fan(p.todo[1..], p.skip, Some(s.registry[p.todo[0]])));
        }
      }
    }
  }

  lemma OwnSendIsCalm(s: Hub, d: Did, c: Cid)
    requires SafeInv(s) && !s.crashed
    ensures var s1 := DoOwn(s, OwnSend(d, c)); Calm(s, s1) && HeldOk(s1) && !s1.crashed
  {
    if c in s.conns && s.conns[c].reading && d !in s.deliveries {
      var sb := Begin(s, d, {s.conns[c].user}, Finished);
      CalmKeepsHeld(s, sb, d);
      SendIsCalm(sb, c, Data(d), d, Finished, Room(s, c));
    }
  }

  lemma SendAckIsCalm(s: Hub, d: Did, c: Cid)
    requires SafeInv(s) && !s.crashed
    ensures var s1 := DoOwn(s, SendAck(d, c)); Calm(s, s1) && HeldOk(s1) && !s1.crashed
  {
    if c in s.conns && s.conns[c].reading && d in s.deliveries {
      var f := Ack(d, s.deliveries[d].count > 0);
      PushIsCalm(s, c, f);
      CalmKeepsHeld(s, PushTo(s, c, f), d);
    }
  }

  lemma PumpTouches(s: Hub, step: Step)
    requires (step.ReaderExit? || step.WriterTakes? || step.WriterExit?) && step.c in s.conns
    ensures var s1 := DoPump(s, step); Calm(s, s1) && s1.crashed == s.crashed && s1.deliveries == s.deliveries
  {
    var s1 := DoPump(s, step);
    if s1 != s { OneClientMoves(s, s1, step.c, s1.conns[step.c]); }
  }

  lemma PumpIsCalm(s: Hub, step: Step)
    requires SafeInv(s) && (step.ReaderExit? || step.WriterTakes? || step.WriterExit?) && step.c in s.conns
    ensures var s1 := DoPump(s, step);
            Calm(s, s1) && HeldOk(s1) && s1.crashed == s.crashed && s1.deliveries == s.deliveries
  {
    PumpTouches(s, step);
    CalmKeepsHeld(s, DoPump(s, step), 0);
  }

  lemma OpenIsCalm(s: Hub, d: Did, targets: set<Uid>, p: Phase)
    requires HeldOk(s) && d !in s.deliveries && PhaseOk(s, p)
    ensures var s1 := Begin(s, d, targets, p);
            Calm(s, s1) && HeldOk(s1) && s1.crashed == s.crashed && s1.conns == s.conns
  {
    CalmKeepsHeld(s, Begin(s, d, targets, p), d);
  }

  lemma BeginIsCalm(s: Hub, step: Step)
    requires SafeInv(s) && (step.BeginBroadcast? || step.BeginGroup? || step.Lookup?) && step.d !in s.deliveries
    ensures var s1 := DoBegin(s, step); Calm(s, s1) && HeldOk(s1) && s1.crashed == s.crashed && s1.conns == s.conns
  {
    match step {
      case BeginBroadcast(d, order) => OpenIsCalm(s, d, Elems(order), Fan(order, None, None));
      case BeginGroup(d, order, sender) => OpenIsCalm(s, d, Elems(order) - {sender}, Fan(order, Some(sender), None));
      case Lookup(d, u) =>
        if u in s.registry {
          assert Current(s, s.registry[u]);
          OpenIsCalm(s, d, {u}, Looked(s.registry[u]));
        } else {
          OpenIsCalm(s, d, {u}, Finished);
        }
    }
  }

  lemma DirectIsCalm(s: Hub, d: Did)
    requires SafeInv(s) && d in s.deliveries
    ensures var s1 := DoDirect(s, d); Calm(s, s1) && HeldOk(s1)
  {
    var p := s.deliveries[d].phase;
    if p.Looked? && p.conn in s.conns && !s.conns[p.conn].closed { PushIsCalm(s, p.conn, Data(d)); }
    assert PhaseOk(s, p);
    CalmKeepsHeld(s, DoDirect(s, d), d);
  }

  lemma StepIsCalm(s: Hub, step: Step)
    requires SafeInv(s) && !s.crashed && !step.Connect? && !step.Register? && !step.Unregister?
    ensures Calm(s, Apply(s, step)) && HeldOk(Apply(s, step)) && (Apply(s, step).crashed ==> step.SendLooked?)
  {
    match step {
      case ReaderExit(c) => if c in s.conns { PumpIsCalm(s, step); }
      case WriterTakes(c, _) => if c in s.conns { PumpIsCalm(s, step); }
      case WriterExit(c) => if c in s.conns { PumpIsCalm(s, step); }
      case BeginBroadcast(d, _) => if d !in s.deliveries { BeginIsCalm(s, step); }
      case BeginGroup(d, _, _) => if d !in s.deliveries { BeginIsCalm(s, step); }
      case Lookup(d, _) => if d !in s.deliveries { BeginIsCalm(s, step); }
      case SendLooked(d) => if d in s.deliveries { DirectIsCalm(s, d); }
      case OwnSend(d, c) => OwnSendIsCalm(s, d, c);
      case SendAck(d, c) => SendAckIsCalm(s, d, c);
      case FanLookup(d) => if d in s.deliveries { FanScanIsCalm(s, step); }
      case FanSend(d) => if d in s.deliveries { FanSendIsCalm(s, d); }
      case FanEnd(d) => if d in s.deliveries { FanScanIsCalm(s, step); }
      case _ =>
    }
  }

  lemma StepIsSafe(s: Hub, step: Step)
    requires SafeInv(s) && !s.crashed
    ensures SafeInv(Apply(s, step))
    ensures Apply(s, step).crashed ==> step.SendLooked?
  {
    match step {
      case Connect(c, u) => if c !in s.conns { ConnectIsSafe(s, c, u); }
      case Register(c) => if c in s.conns && !s.conns[c].joined && WriteLockFree(s) { RegisterIsSafe(s, c); }
      case Unregister(c) =>
        if c in s.conns && s.conns[c].joined && !s.conns[c].reading && WriteLockFree(s) { UnregisterIsSafe(s, c); }
      case _ =>
        StepIsCalm(s, step);
        CalmIsSafe(s, Apply(s, step));
    }
  }

  /** Broadcast, group fan-out and a client's own sends never touch a closed queue, and no
      queue is closed twice: without a lock-free direct send, no run crashes. */
  lemma {:induction false} OnlyDirectSendsCanCrash(s: Hub, steps: seq<Step>)
    requires SafeInv(s) && !s.crashed && Exec(s, steps).crashed
    ensures exists i :: 0 <= i < |steps| && steps[i].SendLooked?
    decreases |steps|
  {
    StepIsSafe(s, steps[0]);
    if steps[0].SendLooked? {
      assert steps[0] == steps[0];
    } else {
      OnlyDirectSendsCanCrash(Apply(s, steps[0]), steps[1..]);
      var i :| 0 <= i < |steps[1..]| && steps[1..][i].SendLooked?;
      assert steps[i + 1].SendLooked?;
    }
  }

  // ------------------------------------------------------------- history

  /** The last registration of u in the log is c's, and c has not unregistered since. */
  ghost predicate Holds(log: seq<Event>, u: Uid, c: Cid) {
    exists i :: 0 <= i < |log| && log[i] == Registered(c, u)
                && forall j :: i < j < |log| ==> log[j] != Unregistered(c) && !(log[j].Registered? && log[j].user == u)
  }

  /** c unregistered at some moment while it was its user's latest connection. */
  ghost predicate WentOffline(log: seq<Event>, u: Uid, c: Cid) {
    exists i :: 0 <= i < |log| && log[i] == Unregistered(c) && Holds(log[..i], u, c)
  }

  lemma HoldsAfter(log: seq<Event>, e: Event, u: Uid, c: Cid)
    ensures Holds(log + [e], u, c) <==>
            || e == Registered(c, u)
            || (Holds(log, u, c) && e != Unregistered(c) && !(e.Registered? && e.user == u))
  {
    var longer := log + [e];
    if Holds(longer, u, c) {
      var i :| 0 <= i < |longer| && longer[i] == Registered(c, u)
               && forall j :: i < j < |longer| ==>
                     longer[j] != Unregistered(c) && !(longer[j].Registered? && longer[j].user == u);
      if i < |log| {
        assert longer[|log|] == e;
        assert forall j :: 0 <= j < |log| ==> longer[j] == log[j];
        assert log[i] == Registered(c, u);
      }
    }
    if e == Registered(c, u) { assert longer[|log|] == Registered(c, u); }
    if Holds(log, u, c) && e != Unregistered(c) && !(e.Registered? && e.user == u) {
      var i :| 0 <= i < |log| && log[i] == Registered(c, u)
               && forall j :: i < j < |log| ==> log[j] != Unregistered(c) && !(log[j].Registered? && log[j].user == u);
      assert longer[i] == Registered(c, u);
    }
  }

  lemma WentOfflineAfter(log: seq<Event>, e: Event, u: Uid, c: Cid)
    ensures WentOffline(log + [e], u, c) <==> WentOffline(log, u, c) || (e == Unregistered(c) && Holds(log, u, c))
  {
    var longer := log + [e];
    assert forall i :: 0 <= i <= |log| ==> longer[..i] == log[..i];
    assert longer[..|log|] == log;
    if WentOffline(log, u, c) {
      var i :| 0 <= i < |log| && log[i] == Unregistered(c) && Holds(log[..i], u, c);
      assert longer[i] == Unregistered(c) && Holds(longer[..i], u, c);
    }
    if e == Unregistered(c) && Holds(log, u, c) {
      assert longer[|log|] == Unregistered(c) && Holds(longer[..|log|], u, c);
    }
    if WentOffline(longer, u, c) {
      var i :| 0 <= i < |longer| && longer[i] == Unregistered(c) && Holds(longer[..i], u, c);
      if i < |log| { assert log[i] == Unregistered(c) && Holds(log[..i], u, c); }
    }
  }

  /** The registry is what the log says, queues are closed and disconnects spawned once
      for each connection that went offline, and for no other. */
  ghost predicate HistoryInv(s: Hub) {
    && (forall u, c :: Holds(s.log, u, c) <==> u in s.registry && s.registry[u] == c)
    && (forall c :: c in s.conns ==> (s.conns[c].closed <==> WentOffline(s.log, s.conns[c].user, c)))
    && (forall i :: 0 <= i < |s.log| ==> s.log[i].conn in s.conns && s.conns[s.log[i].conn].joined)
    && NoDup(s.closes) && (forall c :: c in s.closes <==> c in s.conns && s.conns[c].closed)
    && NoDup(s.offline) && (forall c :: c in s.offline <==> c in s.conns && s.conns[c].closed)
  }

  lemma UnjoinedNeverOffline(s: Hub, c: Cid, u: Uid)
    requires HistoryInv(s) && (c !in s.conns || !s.conns[c].joined)
    ensures !WentOffline(s.log, u, c) && !WentOffline(s.log + [Registered(c, u)], u, c)
  {
    WentOfflineAfter(s.log, Registered(c, u), u, c);
    assert forall i :: 0 <= i < |s.log| ==> s.log[i].conn != c;
  }

  lemma ConnectHistory(s: Hub, c: Cid, u: Uid)
    requires HistoryInv(s) && c !in s.conns
    ensures HistoryInv(DoConnect(s, c, u))
  {
    UnjoinedNeverOffline(s, c, u);
  }

  lemma RegisterHistory(s: Hub, c: Cid)
    requires SafeInv(s) && HistoryInv(s) && !s.crashed && c in s.conns && !s.conns[c].joined
    ensures HistoryInv(DoRegister(s, c))
  {
    var u := s.conns[c].user;
    var s1, e := DoRegister(s, c), Registered(c, u);
    forall v, x ensures Holds(s1.log, v, x) <==> v in s1.registry && s1.registry[v] == x { HoldsAfter(s.log, e, v, x); }
    forall x | x in s1.conns ensures s1.conns[x].closed <==> WentOffline(s1.log, s1.conns[x].user, x) {
      WentOfflineAfter(s.log, e, s1.conns[x].user, x);
    }
  }

  lemma UnregisterHistory(s: Hub, c: Cid)
    requires SafeInv(s) && HistoryInv(s) && !s.crashed && c in s.conns && s.conns[c].joined
    ensures HistoryInv(DoUnregister(s, c))
  {
    var s1, e := DoUnregister(s, c), Unregistered(c);
    assert Current(s, c) ==> !s.conns[c].closed;
    forall v, x ensures Holds(s1.log, v, x) <==> v in s1.registry && s1.registry[v] == x {
      HoldsAfter(s.log, e, v, x);
      if v in s.registry { assert Current(s, s.registry[v]); }
    }
    forall x | x in s1.conns ensures s1.conns[x].closed <==> WentOffline(s1.log, s1.conns[x].user, x) {
      WentOfflineAfter(s.log, e, s1.conns[x].user, x);
    }
  }

  lemma StepHistory(s: Hub, step: Step)
    requires SafeInv(s) && HistoryInv(s) && !s.crashed
    ensures HistoryInv(Apply(s, step))
  {
    match step {
      case Connect(c, u) => if c !in s.conns { ConnectHistory(s, c, u); }
      case Register(c) => if c in s.conns && !s.conns[c].joined { RegisterHistory(s, c); }
      case Unregister(c) => if c in s.conns && s.conns[c].joined { UnregisterHistory(s, c); }
      case _ =>
        StepIsCalm(s, step);
    }
  }

  lemma {:induction false} RunHistory(s: Hub, steps: seq<Step>)
    requires SafeInv(s) && HistoryInv(s)
    ensures SafeInv(Exec(s, steps)) && HistoryInv(Exec(s, steps))
    decreases |steps|
  {
    if steps != [] {
      if !s.crashed {
        StepIsSafe(s, steps[0]);
        StepHistory(s, steps[0]);
      }
      RunHistory(Apply(s, steps[0]), steps[1..]);
    }
  }

  /** clients[u] is the most recently registered client of u unless that one unregistered. */
  lemma RegistryTellsTheHistory(steps: seq<Step>, u: Uid, c: Cid)
    ensures var s := Exec(START, steps);
            Holds(s.log, u, c) <==> u in s.registry && s.registry[u] == c
  {
    RunHistory(START, steps);
  }

  /** Each queue is closed at most once and each disconnect spawned at most once, both
      exactly for the connections that went offline; a replaced one never is. */
  lemma ClosedExactlyOnceOffline(steps: seq<Step>, c: Cid)
    requires c in Exec(START, steps).conns
    ensures var s := Exec(START, steps);
            && multiset(s.closes)[c] == multiset(s.offline)[c]
                 == (if WentOffline(s.log, s.conns[c].user, c) then 1 else 0)
            && (s.conns[c].replaced ==> !s.conns[c].closed && c !in s.closes && !Current(s, c))
            && (Current(s, c) ==> !s.conns[c].closed)
  {
    RunHistory(START, steps);
    var s := Exec(START, steps);
    CountNoDup(s.closes, c);
    CountNoDup(s.offline, c);
  }

  lemma {:induction false} CountNoDup<T>(q: seq<T>, x: T)
    requires NoDup(q)
    ensures multiset(q)[x] == if x in q then 1 else 0
  {
    if q != [] {
      var front := q[..|q| - 1];
      assert q == front + [q[|q| - 1]];
      CountNoDup(front, x);
      if x in front { assert x != q[|q| - 1]; }
    }
  }

  /** Once the hub takes up an unregistration it removes, closes and announces the client
      exactly if that is its user's latest by the log; a late one only enters the log. */
  lemma UnregisterActsIff(steps: seq<Step>, c: Cid)
    requires var s := Exec(START, steps);
             !s.crashed && c in s.conns && s.conns[c].joined && !s.conns[c].reading && WriteLockFree(s)
    ensures var s := Exec(START, steps); var s1, u := Apply(s, Unregister(c)), s.conns[c].user;
            if Holds(s.log, u, c)
            then !s1.crashed && s1.registry == s.registry - {u} && s1.closes == s.closes + [c]
              && s1.offline == s.offline + [c]
            else s1 == s.(log := s.log + [Unregistered(c)])
  {
    RunHistory(START, steps);
    var s := Exec(START, steps);
    if Holds(s.log, s.conns[c].user, c) { assert Current(s, c); }
  }

  /** A user is online exactly while some client of theirs that the hub has taken up is
      neither replaced nor closed, and that one is then the latest by the log. */
  lemma OnlineIff(steps: seq<Step>, u: Uid)
    ensures var s := Exec(START, steps);
            && (u in s.registry <==>
                  exists c :: c in s.conns && s.conns[c].user == u && s.conns[c].joined && !s.conns[c].closed
                    && !s.conns[c].replaced)
            && (u in s.registry <==> exists c :: Holds(s.log, u, c))
  {
    RunHistory(START, steps);
    var s := Exec(START, steps);
    if u in s.registry { assert Current(s, s.registry[u]) && Holds(s.log, u, s.registry[u]); }
  }

  /** The log only grows, and a connection keeps its user. */
  ghost predicate Extends(s: Hub, s1: Hub) {
    s.log <= s1.log && forall c :: c in s.conns ==> c in s1.conns && s1.conns[c].user == s.conns[c].user
  }

  lemma HubStepsExtend(s: Hub, c: Cid, u: Uid)
    ensures c !in s.conns ==> Extends(s, DoConnect(s, c, u))
    ensures c in s.conns ==> Extends(s, DoRegister(s, c)) && Extends(s, DoUnregister(s, c))
  {
  }

  lemma StepExtends(s: Hub, step: Step)
    requires SafeInv(s) && !s.crashed
    ensures Extends(s, Apply(s, step))
  {
    match step {
      case Connect(c, u) => HubStepsExtend(s, c, u);
      case Register(c) => HubStepsExtend(s, c, 0);
      case Unregister(c) => HubStepsExtend(s, c, 0);
      case _ => StepIsCalm(s, step);
    }
  }

  lemma {:induction false} RunExtends(s: Hub, steps: seq<Step>)
    requires SafeInv(s)
    ensures Extends(s, Exec(s, steps))
    decreases |steps|
  {
    if steps != [] {
      var s1 := Apply(s, steps[0]);
      if !s.crashed {
        StepExtends(s, steps[0]);
        StepIsSafe(s, steps[0]);
      }
      RunExtends(s1, steps[1..]);
    }
  }

  /** Between s0, where c is current, and s1, c's queue was closed exactly if the log of
      that stretch has c unregister while it was its user's latest connection. */
  lemma ClosedSinceIff(s0: Hub, s1: Hub, c: Cid, u: Uid)
    requires SafeInv(s0) && HistoryInv(s0) && HistoryInv(s1) && Extends(s0, s1)
    requires u in s0.registry && s0.registry[u] == c
    ensures c in s1.conns
    ensures s1.conns[c].closed <==>
            exists i :: |s0.log| <= i < |s1.log| && s1.log[i] == Unregistered(c) && Holds(s1.log[..i], u, c)
  {
    assert Current(s0, c) && !s0.conns[c].closed && s0.conns[c].user == u;
    assert !WentOffline(s0.log, u, c);
    forall i | 0 <= i < |s0.log| ensures s1.log[..i] == s0.log[..i] && s0.log[i] == s1.log[i] {}
    if s1.conns[c].closed {
      var i :| 0 <= i < |s1.log| && s1.log[i] == Unregistered(c) && Holds(s1.log[..i], u, c);
      assert i >= |s0.log|;
    }
  }

  lemma LookupKeeps(s: Hub, d: Did, u: Uid)
    requires SafeInv(s) && HistoryInv(s) && !s.crashed && d !in s.deliveries
    ensures var s1 := Apply(s, Lookup(d, u)); SafeInv(s1) && HistoryInv(s1) && Extends(s, s1)
  {
    BeginIsCalm(s, Lookup(d, u));
    StepIsSafe(s, Lookup(d, u));
    StepHistory(s, Lookup(d, u));
  }

  lemma SendCrashesIfClosed(s: Hub, d: Did, c: Cid)
    requires !s.crashed && d in s.deliveries && s.deliveries[d].phase == Looked(c) && c in s.conns
    ensures Apply(s, SendLooked(d)).crashed <==> s.conns[c].closed
  {
  }

  /** A direct send crashes exactly when, since its lookup in s0, the hub has processed the
      looked-up connection's unregistration while it was current. */
  lemma DirectSendCrashesIff(before: seq<Step>, mid: seq<Step>, d: Did, u: Uid, s0: Hub, s1: Hub)
    requires s0 == Exec(START, before) && !s0.crashed && d !in s0.deliveries && u in s0.registry
    requires s1 == Exec(Apply(s0, Lookup(d, u)), mid) && !s1.crashed
    requires d in s1.deliveries && s1.deliveries[d].phase == Looked(s0.registry[u])
    ensures var c := s0.registry[u];
            Apply(s1, SendLooked(d)).crashed <==>
            exists i :: |s0.log| <= i < |s1.log| && s1.log[i] == Unregistered(c) && Holds(s1.log[..i], u, c)
  {
    RunHistory(START, before);
    LookupKeeps(s0, d, u);
    var sl := Apply(s0, Lookup(d, u));
    RunHistory(sl, mid);
    RunExtends(sl, mid);
    assert Extends(s0, s1);
    ClosedSinceIff(s0, s1, s0.registry[u], u);
    SendCrashesIfClosed(s1, d, s0.registry[u]);
  }

  lemma {:induction false} CrashedForGood(s: Hub, steps: seq<Step>)
    requires s.crashed
    ensures Exec(s, steps) == s
    decreases |steps|
  {
    if steps != [] { CrashedForGood(s, steps[1..]); }
  }

  /** The second half of a direct send whose client has gone offline by the log. */
  ghost predicate SendsTooLate(s: Hub, step: Step) {
    && step.SendLooked? && step.d in s.deliveries && s.deliveries[step.d].phase.Looked?
    && var c := s.deliveries[step.d].phase.conn;
       c in s.conns && WentOffline(s.log, s.conns[c].user, c)
  }

  lemma StepCrashesIff(s: Hub, step: Step)
    requires SafeInv(s) && HistoryInv(s) && !s.crashed
    ensures Apply(s, step).crashed <==> SendsTooLate(s, step)
  {
    StepIsSafe(s, step);
    if step.SendLooked? && step.d in s.deliveries && s.deliveries[step.d].phase.Looked? {
      assert PhaseOk(s, s.deliveries[step.d].phase);
      SendCrashesIfClosed(s, step.d, s.deliveries[step.d].phase.conn);
    }
  }

  /** A run crashes exactly when one of its steps is such a send. */
  lemma {:induction false} RunCrashesIff(s: Hub, steps: seq<Step>)
    requires SafeInv(s) && HistoryInv(s) && !s.crashed
    ensures Exec(s, steps).crashed <==> exists k :: 0 <= k < |steps| && SendsTooLate(Exec(s, steps[..k]), steps[k])
    decreases |steps|
  {
    if steps != [] {
      var s1, rest := Apply(s, steps[0]), steps[1..];
      StepCrashesIff(s, steps[0]);
      assert Exec(s, steps[..0]) == s;
      if s1.crashed {
        CrashedForGood(s1, rest);
        assert SendsTooLate(Exec(s, steps[..0]), steps[0]);
      } else {
        StepIsSafe(s, steps[0]);
        StepHistory(s, steps[0]);
        RunCrashesIff(s1, rest);
        forall k | 0 <= k < |rest| ensures Exec(s, steps[..k + 1]) == Exec(s1, rest[..k]) && steps[k + 1] == rest[k] {
          assert steps[..k + 1][1..] == rest[..k];
        }
        if k :| 0 <= k < |rest| && SendsTooLate(Exec(s1, rest[..k]), rest[k]) {
          assert SendsTooLate(Exec(s, steps[..k + 1]), steps[k + 1]);
        }
        if k :| 0 <= k < |steps| && SendsTooLate(Exec(s, steps[..k]), steps[k]) {
          assert k > 0;
          assert SendsTooLate(Exec(s1, rest[..k - 1]), rest[k - 1]);
        }
      }
    }
  }

  /** User 5 is connected as client 1, and a direct send has looked them up. */
  function Met(): Hub {
    Hub(map[5 := 1], map[1 := Conn(5, [], false, true, true, true, false, [], [], [], [])],
        map[0 := Delivery({5}, Looked(1), 0)], [Registered(1, 5)], [], [], false)
  }

  lemma Meet()
    ensures Apply(Apply(Apply(START, Connect(1, 5)), Register(1)), Lookup(0, 5)) == Met()
  {
    var s1 := Apply(Apply(START, Connect(1, 5)), Register(1));
    assert s1.registry == map[5 := 1] && s1.conns.Keys == {1};
  }

  lemma Part()
    ensures var s := Apply(Apply(Met(), ReaderExit(1)), Unregister(1));
            !s.crashed && s.deliveries == Met().deliveries && 1 in s.conns && s.conns[1].closed
  {
    var s3 := Apply(Met(), ReaderExit(1));
    assert !s3.conns[1].reading && s3.registry == map[5 := 1];
  }

  /** Such a crash exists: look up, let the receiver disconnect, then send. */
  lemma DirectSendCrashRun()
    ensures Exec(START, [Connect(1, 5), Register(1), Lookup(0, 5), ReaderExit(1), Unregister(1), SendLooked(0)]).crashed
  {
    var steps := [Connect(1, 5), Register(1), Lookup(0, 5), ReaderExit(1), Unregister(1), SendLooked(0)];
    Meet();
    Part();
    var s3 := Apply(Apply(Apply(START, steps[0]), steps[1]), steps[2]);
    var s5 := Apply(Apply(s3, steps[3]), steps[4]);
    SendCrashesIfClosed(s5, 0, 1);
    assert steps[1..][1..] == steps[2..] && steps[2..][1..] == steps[3..] && steps[3..][1..] == steps[4..];
    assert steps[4..][1..] == steps[5..] && steps[5..][1..] == [];
    assert Exec(START, steps) == Exec(s3, steps[3..]) == Exec(s5, steps[5..]);
  }
}
