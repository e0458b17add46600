/** Where every frame of the hub protocol ends up, over whole runs. */
module HubAccounting {
  import opened Basics
  import opened HubProtocol

  // ------------------------------------------------------------ one queue

  /** The frames of the offers that were queued, in order. */
  function Kept(offers: seq<Offer>): seq<Frame> {
    if offers == [] then []
    else
      var last := offers[|offers| - 1];
      Kept(offers[..|offers| - 1]) + (if last.queued then [last.frame] else [])
  }

  /** Queued frames leave in order; what was written is a prefix of them, short at most of
      the one frame whose write failed; a frame is only dropped once the queue has filled. */
  ghost predicate ConnOk(k: Conn) {
    && Kept(k.offered) == k.taken + k.buf
    && |k.buf| <= CAPACITY
    && k.written <= k.taken && |k.taken| <= |k.written| + 1
    && (k.writing ==> k.written == k.taken)
    && DropsOk(k.offered, k.before)
  }

  /** An offer is dropped exactly when as many frames as fit had been queued before it and
      not yet taken. */
  ghost predicate DropsOk(offered: seq<Offer>, before: seq<nat>) {
    |before| == |offered| && forall i :: 0 <= i < |offered| ==> DroppedIffFull(offered, i, before[i])
  }

  predicate DroppedIffFull(offered: seq<Offer>, i: nat, taken: nat)
    requires i < |offered|
  {
    var waiting := |Kept(offered[..i])| - taken;
    0 <= waiting <= CAPACITY && (!offered[i].queued <==> waiting == CAPACITY)
  }

  lemma NextDrop(offered: seq<Offer>, before: seq<nat>, o: Offer, taken: nat)
    requires DropsOk(offered, before) && 0 <= |Kept(offered)| - taken <= CAPACITY
    requires !o.queued <==> |Kept(offered)| - taken == CAPACITY
    ensures DropsOk(offered + [o], before + [taken])
  {
    EarlierPrefixes(offered, o);
    forall i | 0 <= i < |offered + [o]| ensures DroppedIffFull(offered + [o], i, (before + [taken])[i]) {
      if i < |offered| { assert DroppedIffFull(offered, i, before[i]); }
    }
  }

  ghost predicate QueuesOk(s: Hub) {
    forall c :: c in s.conns ==> ConnOk(s.conns[c])
  }

  lemma KeptSnoc(offers: seq<Offer>, o: Offer)
    ensures Kept(offers + [o]) == Kept(offers) + (if o.queued then [o.frame] else [])
  {
    assert (offers + [o])[..|offers|] == offers;
  }

  /** Appending an offer leaves every earlier prefix as it was. */
  lemma EarlierPrefixes(offers: seq<Offer>, o: Offer)
    ensures forall i :: 0 <= i <= |offers| ==> (offers + [o])[..i] == offers[..i]
    ensures offers[..|offers|] == offers
  {
  }

  lemma PushOk(k: Conn, f: Frame)
    requires ConnOk(k)
    ensures ConnOk(Push(k, f))
  {
    var o := Offer(f, |k.buf| < CAPACITY);
    KeptSnoc(k.offered, o);
    NextDrop(k.offered, k.before, o, |k.taken|);
    if |k.buf| < CAPACITY { assert Kept(Push(k, f).offered) == k.taken + (k.buf + [f]); }
  }

  lemma PushToOk(s: Hub, c: Cid, f: Frame)
    requires QueuesOk(s) && c in s.conns
    ensures QueuesOk(PushTo(s, c, f))
  {
    PushOk(s.conns[c], f);
  }

  lemma TakeConnOk(k: Conn, ok: bool)
    requires ConnOk(k) && k.writing && k.buf != []
    ensures ConnOk(k.(buf := k.buf[1..], taken := k.taken + [k.buf[0]],
                      written := if ok then k.written + [k.buf[0]] else k.written, writing := ok))
  {
    assert k.taken + k.buf == (k.taken + [k.buf[0]]) + k.buf[1..];
  }

  lemma TakeOk(s: Hub, step: Step)
    requires QueuesOk(s) && (step.ReaderExit? || step.WriterTakes? || step.WriterExit?) && step.c in s.conns
    ensures QueuesOk(DoPump(s, step))
  {
    var k := s.conns[step.c];
    assert ConnOk(k);
    if step.WriterTakes? && k.writing && k.buf != [] { TakeConnOk(k, step.ok); }
  }

  lemma FanOk(s: Hub, step: Step)
    requires QueuesOk(s) && (step.FanLookup? || step.FanSend? || step.FanEnd?) && step.d in s.deliveries
    ensures QueuesOk(DoFan(s, step))
  {
    var p := s.deliveries[step.d].phase;
    if p.Fan? && p.held.Some? && p.held.value in s.conns { PushToOk(s, p.held.value, Data(step.d)); }
  }

  lemma DirectOk(s: Hub, d: Did)
    requires QueuesOk(s) && d in s.deliveries
    ensures QueuesOk(DoDirect(s, d))
  {
    var p := s.deliveries[d].phase;
    if p.Looked? && p.conn in s.conns { PushToOk(s, p.conn, Data(d)); }
  }

  lemma OwnOk(s: Hub, step: Step)
    requires QueuesOk(s) && (step.OwnSend? || step.SendAck?)
    ensures QueuesOk(DoOwn(s, step))
  {
    if step.c in s.conns {
      if step.OwnSend? {
        PushToOk(Begin(s, step.d, {s.conns[step.c].user}, Finished), step.c, Data(step.d));
      } else if step.d in s.deliveries {
        PushToOk(s, step.c, Ack(step.d, s.deliveries[step.d].count > 0));
      }
    }
  }

  predicate SameQueue(k: Conn, k1: Conn) {
    && k1.buf == k.buf && k1.offered == k.offered && k1.before == k.before && k1.taken == k.taken
    && k1.written == k.written && k1.writing == k.writing
  }

  lemma SameQueueOk(k: Conn, k1: Conn)
    requires ConnOk(k) && SameQueue(k, k1)
    ensures ConnOk(k1)
  {
  }

  lemma ConnectOk(s: Hub, c: Cid, u: Uid)
    requires QueuesOk(s)
    ensures QueuesOk(DoConnect(s, c, u))
  {
  }

  lemma RegisterOk(s: Hub, c: Cid)
    requires QueuesOk(s) && c in s.conns
    ensures QueuesOk(DoRegister(s, c))
  {
    var s1 := DoRegister(s, c);
    forall x | x in s1.conns ensures ConnOk(s1.conns[x]) { SameQueueOk(s.conns[x], s1.conns[x]); }
  }

  lemma UnregisterOk(s: Hub, c: Cid)
    requires QueuesOk(s) && c in s.conns
    ensures QueuesOk(DoUnregister(s, c))
  {
    var s1 := DoUnregister(s, c);
    forall x | x in s1.conns ensures ConnOk(s1.conns[x]) { SameQueueOk(s.conns[x], s1.conns[x]); }
  }

  lemma StepKeepsQueues(s: Hub, step: Step)
    requires QueuesOk(s)
    ensures QueuesOk(Apply(s, step))
  {
    match step {
      case Connect(c, u) => ConnectOk(s, c, u);
      case Register(c) => if c in s.conns { RegisterOk(s, c); }
      case Unregister(c) => if c in s.conns { UnregisterOk(s, c); }
      case ReaderExit(c) => if c in s.conns { TakeOk(s, step); }
      case WriterTakes(c, _) => if c in s.conns { TakeOk(s, step); }
      case WriterExit(c) => if c in s.conns { TakeOk(s, step); }
      case FanLookup(d) => if d in s.deliveries { FanOk(s, step); }
      case FanSend(d) => if d in s.deliveries { FanOk(s, step); }
      case FanEnd(d) => if d in s.deliveries { FanOk(s, step); }
      case SendLooked(d) => if d in s.deliveries { DirectOk(s, d); }
      case OwnSend(_, _) => OwnOk(s, step);
      case SendAck(_, _) => OwnOk(s, step);
      case _ => assert Apply(s, step).conns == s.conns;
    }
  }

  lemma {:induction false} RunKeepsQueues(s: Hub, steps: seq<Step>)
    requires QueuesOk(s)
    ensures QueuesOk(Exec(s, steps))
    decreases |steps|
  {
    if steps != [] {
      StepKeepsQueues(s, steps[0]);
      RunKeepsQueues(Apply(s, steps[0]), steps[1..]);
    }
  }

  /** Over any run: nothing queued is lost or reordered before the writer takes it, no queue
      exceeds its capacity, and an offer is dropped exactly when, of the frames queued before
      it, 256 had not been taken yet. */
  lemma QueuedFramesLeaveInOrder(steps: seq<Step>, c: Cid)
    requires c in Exec(START, steps).conns
    ensures var k := Exec(START, steps).conns[c];
            && Kept(k.offered) == k.taken + k.buf && k.written <= Kept(k.offered) && |k.buf| <= 256
            && |k.taken| - |k.written| == (if k.taken == k.written then 0 else 1)
            && |k.before| == |k.offered|
            && (forall i :: 0 <= i < |k.offered| ==>
                  (!k.offered[i].queued <==> |Kept(k.offered[..i])| - k.before[i] == 256))
  {
    RunKeepsQueues(START, steps);
  }

  // ------------------------------------------------------- one delivery

  predicate OfferedAs(s: Hub, d: Did, c: Cid, queued: bool) {
    c in s.conns && Offer(Data(d), queued) in s.conns[c].offered
  }

  predicate OfferedTo(s: Hub, d: Did, c: Cid) {
    OfferedAs(s, d, c, true) || OfferedAs(s, d, c, false)
  }

  /** The queues that took delivery d's frame. */
  function QueuedIn(s: Hub, d: Did): set<Cid> {
    set c | c in s.conns && OfferedAs(s, d, c, true)
  }

  /** No queue is offered d's frame twice. */
  ghost predicate AtMostOnce(k: Conn, d: Did) {
    forall i, j :: 0 <= i < j < |k.offered| && k.offered[i].frame == Data(d) ==> k.offered[j].frame != Data(d)
  }

  /** What a delivery has reached, given how far it is. A fan-out has offered its frame to
      exactly the current connections of the targets it is done with. */
  ghost predicate DeliveryOk(s: Hub, d: Did, v: Delivery) {
    && v.count == |QueuedIn(s, d)|
    && (forall c :: OfferedTo(s, d, c) ==> s.conns[c].user in v.targets)
    && (forall c :: c in s.conns ==> AtMostOnce(s.conns[c], d))
    && match v.phase
       case Finished => true
       case Looked(c) => c in s.conns && s.conns[c].user in v.targets && forall x :: !OfferedTo(s, d, x)
       case Fan(todo, skip, held) => FanProgress(s, d, v.targets, todo, skip, held)
  }

  ghost predicate FanProgress(s: Hub, d: Did, targets: set<Uid>, todo: seq<Uid>, skip: Option<Uid>, held: Option<Cid>) {
    && NoDup(todo)
    && (forall u :: u in todo && skip != Some(u) ==> u in targets)
    && (if skip.Some? then skip.value !in targets else targets == s.registry.Keys)
    && (held.Some? ==> Current(s, held.value) && s.conns[held.value].user in targets
                       && s.conns[held.value].user !in todo && !OfferedTo(s, d, held.value))
    && (forall c :: OfferedTo(s, d, c) ==> Current(s, c) && s.conns[c].user !in todo)
    && (forall u :: u in targets && u in s.registry && u !in todo ==>
          held == Some(s.registry[u]) || OfferedTo(s, d, s.registry[u]))
  }

  /** An ack frame reports a finished delivery, as it ended. */
  ghost predicate AcksOk(s: Hub) {
    forall c, d, b, q :: c in s.conns && Offer(Ack(d, b), q) in s.conns[c].offered ==>
      d in s.deliveries && s.deliveries[d].phase.Finished? && b == (s.deliveries[d].count > 0)
  }

  ghost predicate CountInv(s: Hub) {
    && (forall d :: d in s.deliveries ==> DeliveryOk(s, d, s.deliveries[d]))
    && (forall d, c :: d !in s.deliveries ==> !OfferedTo(s, d, c))
    && AcksOk(s)
  }

  /** The same offers, up to connections that have none. */
  ghost predicate SameOffers(s: Hub, s1: Hub, d: Did) {
    && (forall c, q :: OfferedAs(s1, d, c, q) <==> OfferedAs(s, d, c, q))
    && (forall c :: c in s1.conns && c !in s.conns ==> s1.conns[c].offered == [])
    && (forall c :: c in s.conns ==> c in s1.conns && s1.conns[c].user == s.conns[c].user)
    && (forall c :: c in s.conns && AtMostOnce(s.conns[c], d) ==> AtMostOnce(s1.conns[c], d))
  }

  lemma SameOffersSameCount(s: Hub, s1: Hub, d: Did)
    requires SameOffers(s, s1, d)
    ensures QueuedIn(s1, d) == QueuedIn(s, d)
    ensures forall c :: OfferedTo(s1, d, c) <==> OfferedTo(s, d, c)
  {
    forall c ensures c in QueuedIn(s1, d) <==> c in QueuedIn(s, d) {
      assert OfferedAs(s1, d, c, true) <==> OfferedAs(s, d, c, true);
    }
  }

  /** A delivery the step does not touch stays as it was, if a fan-out keeps its lock. */
  lemma DeliveryFrame(s: Hub, s1: Hub, d: Did, v: Delivery)
    requires DeliveryOk(s, d, v) && SameOffers(s, s1, d)
    requires v.phase.Fan? ==> s1.registry == s.registry
    ensures DeliveryOk(s1, d, v)
  {
    SameOffersSameCount(s, s1, d);
    assert v.phase.Fan? ==> forall c :: c in s.conns ==> (Current(s1, c) <==> Current(s, c));
  }

  lemma CountFrame(s: Hub, s1: Hub)
    requires CountInv(s)
    requires s1.deliveries == s.deliveries && (s1.registry == s.registry || WriteLockFree(s))
    requires forall c :: c in s.conns ==>
             c in s1.conns && s1.conns[c].user == s.conns[c].user && s1.conns[c].offered == s.conns[c].offered
    requires forall c :: c in s1.conns && c !in s.conns ==> s1.conns[c].offered == []
    ensures CountInv(s1)
  {
    forall d ensures SameOffers(s, s1, d) {}
    forall d | d in s1.deliveries ensures DeliveryOk(s1, d, s1.deliveries[d]) {
      DeliveryFrame(s, s1, d, s.deliveries[d]);
    }
    forall d, c | d !in s1.deliveries ensures !OfferedTo(s1, d, c) { SameOffersSameCount(s, s1, d); }
  }

  // ------------------------------------------------------------- a send

  /** What one send on an open queue adds. */
  lemma PushOffers(s: Hub, c: Cid, f: Frame)
    requires c in s.conns && !s.conns[c].closed
    ensures var s1 := PushTo(s, c, f); var q := Room(s, c) == 1;
            && s1.conns.Keys == s.conns.Keys && s1.registry == s.registry && s1.deliveries == s.deliveries
            && (forall x :: x in s.conns ==>
                  s1.conns[x].user == s.conns[x].user && (x != c ==> s1.conns[x] == s.conns[x]))
            && s1.conns[c].offered == s.conns[c].offered + [Offer(f, q)]
  {
  }

  lemma PushKeepsOthers(s: Hub, c: Cid, f: Frame, d: Did)
    requires c in s.conns && !s.conns[c].closed && f != Data(d)
    ensures SameOffers(s, PushTo(s, c, f), d)
  {
    PushOffers(s, c, f);
  }

  /** Sending d's frame to a queue that has not been offered it. */
  lemma PushCounts(s: Hub, c: Cid, d: Did)
    requires c in s.conns && !s.conns[c].closed && !OfferedTo(s, d, c)
    requires forall x :: x in s.conns ==> AtMostOnce(s.conns[x], d)
    ensures var s1 := PushTo(s, c, Data(d));
            && |QueuedIn(s1, d)| == |QueuedIn(s, d)| + Room(s, c)
            && (forall x :: OfferedTo(s1, d, x) <==> OfferedTo(s, d, x) || x == c)
            && (forall x :: x in s1.conns ==> AtMostOnce(s1.conns[x], d))
  {
    PushOffers(s, c, Data(d));
    var s1, q := PushTo(s, c, Data(d)), Room(s, c) == 1;
    forall x, b ensures OfferedAs(s1, d, x, b) <==> OfferedAs(s, d, x, b) || (x == c && b == q) {
      if x == c { assert Offer(Data(d), q) in s1.conns[c].offered; }
    }
    assert OfferedAs(s1, d, c, q);
    assert QueuedIn(s1, d) == if q then QueuedIn(s, d) + {c} else QueuedIn(s, d);
    assert forall i :: 0 <= i < |s.conns[c].offered| && s.conns[c].offered[i].frame == Data(d) ==>
             s.conns[c].offered[i] == Offer(Data(d), s.conns[c].offered[i].queued);
  }

  /** The same, seen from any state with the queues the send leaves. */
  lemma PushKeepsOffers(s: Hub, s1: Hub, c: Cid, f: Frame, e: Did)
    requires c in s.conns && !s.conns[c].closed && f != Data(e)
    requires s1.conns == PushTo(s, c, f).conns
    ensures SameOffers(s, s1, e)
  {
    PushKeepsOthers(s, c, f, e);
    assert forall x, q :: OfferedAs(s1, e, x, q) <==> OfferedAs(PushTo(s, c, f), e, x, q);
  }

  /** What an ack frame says, if this is one. */
  predicate AckFits(s: Hub, f: Frame) {
    f.Ack? ==>
        f.of in s.deliveries && s.deliveries[f.of].phase.Finished? && f.delivered == (s.deliveries[f.of].count > 0)
  }

  lemma PushKeepsAcks(s: Hub, s1: Hub, c: Cid, f: Frame)
    requires AcksOk(s) && c in s.conns && !s.conns[c].closed && AckFits(s1, f)
    requires s1.conns == PushTo(s, c, f).conns
    requires forall e :: e in s.deliveries && s.deliveries[e].phase.Finished? ==>
             e in s1.deliveries && s1.deliveries[e] == s.deliveries[e]
    ensures AcksOk(s1)
  {
    PushOffers(s, c, f);
    forall x, e, b, q | x in s1.conns && Offer(Ack(e, b), q) in s1.conns[x].offered ensures AckFits(s1, Ack(e, b)) {
      if Ack(e, b) != f { assert Offer(Ack(e, b), q) in s.conns[x].offered; }
    }
  }

  /** A send of f on behalf of delivery d: d's own data, or an ack that fits. */
  lemma PushKeepsRest(s: Hub, s1: Hub, c: Cid, f: Frame, d: Did, v: Delivery)
    requires CountInv(s) && c in s.conns && !s.conns[c].closed
    requires s1.conns == PushTo(s, c, f).conns && s1.registry == s.registry && s1.deliveries == s.deliveries[d := v]
    requires d in s.deliveries && s.deliveries[d].phase.Finished? ==> v == s.deliveries[d]
    requires DeliveryOk(s1, d, v)
    requires AckFits(s1, f) && (f.Data? ==> f.delivery == d)
    ensures CountInv(s1)
  {
    forall e | e in s1.deliveries && e != d ensures DeliveryOk(s1, e, s1.deliveries[e]) {
      PushKeepsOffers(s, s1, c, f, e);
      DeliveryFrame(s, s1, e, s.deliveries[e]);
    }
    forall e, x | e !in s1.deliveries ensures !OfferedTo(s1, e, x) {
      PushKeepsOffers(s, s1, c, f, e);
      SameOffersSameCount(s, s1, e);
    }
    PushKeepsAcks(s, s1, c, f);
  }

  /** The held connection gets the frame, and the fan-out holds nothing again. */
  lemma FanSendOk(s: Hub, s1: Hub, d: Did, v: Delivery, c: Cid)
    requires DeliveryOk(s, d, v) && v.phase.Fan? && v.phase.held == Some(c) && c in s.conns && !s.conns[c].closed
    requires s1.conns == PushTo(s, c, Data(d)).conns && s1.registry == s.registry
    ensures DeliveryOk(s1, d, v.(phase := v.phase.(held := None), count := v.count + Room(s, c)))
  {
    PushCounts(s, c, d);
    PushOffers(s, c, Data(d));
    SamePhase(PushTo(s, c, Data(d)), s1, d);
    assert forall x :: Current(s1, x) <==> Current(s, x);
  }

  lemma FanSendShape(s: Hub, d: Did, c: Cid)
    requires d in s.deliveries && c in s.conns && !s.conns[c].closed
    requires s.deliveries[d].phase.Fan? && s.deliveries[d].phase.held == Some(c)
    ensures var s1, v := DoFan(s, FanSend(d)), s.deliveries[d];
            && s1.conns == PushTo(s, c, Data(d)).conns && s1.registry == s.registry
            && s1.deliveries == s.deliveries[d := v.(phase := v.phase.(held := None), count := v.count + Room(s, c))]
  {
  }

  lemma FanSendCounts(s: Hub, d: Did)
    requires SafeInv(s) && CountInv(s) && d in s.deliveries
    ensures CountInv(DoFan(s, FanSend(d)))
  {
    var v := s.deliveries[d];
    assert DeliveryOk(s, d, v);
    if v.phase.Fan? && v.phase.held.Some? {
      var c := v.phase.held.value;
      assert Current(s, c) && !s.conns[c].closed;
      var s1 := DoFan(s, FanSend(d));
      FanSendShape(s, d, c);
      FanSendOk(s, s1, d, v, c);
      PushKeepsRest(s, s1, c, Data(d), d, s1.deliveries[d]);
    }
  }

  /** Offers only depend on the connections. */
  lemma SamePhase(s: Hub, s1: Hub, d: Did)
    requires s1.conns == s.conns
    ensures QueuedIn(s1, d) == QueuedIn(s, d)
    ensures forall c :: OfferedTo(s1, d, c) <==> OfferedTo(s, d, c)
  {
    assert forall c, q :: OfferedAs(s1, d, c, q) <==> OfferedAs(s, d, c, q);
  }

  /** The looked-up connection gets the frame, and the direct send is over. */
  lemma DirectSendOk(s: Hub, s1: Hub, d: Did, v: Delivery, c: Cid)
    requires DeliveryOk(s, d, v) && v.phase == Looked(c) && !s.conns[c].closed
    requires s1.conns == PushTo(s, c, Data(d)).conns
    ensures DeliveryOk(s1, d, v.(phase := Finished, count := v.count + Room(s, c)))
  {
    PushCounts(s, c, d);
    PushOffers(s, c, Data(d));
    SamePhase(PushTo(s, c, Data(d)), s1, d);
  }

  lemma DirectShape(s: Hub, d: Did, c: Cid)
    requires d in s.deliveries && s.deliveries[d].phase == Looked(c) && c in s.conns
    ensures var s1, v := DoDirect(s, d), s.deliveries[d];
            && (s.conns[c].closed ==> s1 == s.(crashed := true))
            && (!s.conns[c].closed ==>
                  && s1.conns == PushTo(s, c, Data(d)).conns && s1.registry == s.registry
                  && s1.deliveries == s.deliveries[d := v.(phase := Finished, count := v.count + Room(s, c))])
  {
  }

  lemma DirectCounts(s: Hub, d: Did)
    requires SafeInv(s) && CountInv(s) && d in s.deliveries
    ensures CountInv(DoDirect(s, d))
  {
    var v := s.deliveries[d];
    if v.phase.Looked? && v.phase.conn in s.conns {
      var c := v.phase.conn;
      var s1 := DoDirect(s, d);
      DirectShape(s, d, c);
      if s.conns[c].closed {
        CountFrame(s, s1);
      } else {
        DirectSendOk(s, s1, d, v, c);
        PushKeepsRest(s, s1, c, Data(d), d, s1.deliveries[d]);
      }
    }
  }

  /** A client's own reply reaches its own queue or nobody. */
  lemma OwnSendOk(s: Hub, s1: Hub, d: Did, c: Cid)
    requires CountInv(s) && c in s.conns && !s.conns[c].closed && d !in s.deliveries
    requires s1.conns == PushTo(s, c, Data(d)).conns && s1.registry == s.registry
    ensures DeliveryOk(s1, d, Delivery({s.conns[c].user}, Finished, Room(s, c)))
  {
    forall x | x in s.conns ensures AtMostOnce(s.conns[x], d) { NotOffered(s, d, x); }
    NothingQueued(s, d);
    PushCounts(s, c, d);
    PushOffers(s, c, Data(d));
    SamePhase(PushTo(s, c, Data(d)), s1, d);
  }

  lemma OwnSendShape(s: Hub, d: Did, c: Cid)
    requires c in s.conns && s.conns[c].reading && !s.conns[c].closed && d !in s.deliveries
    ensures var s1 := DoOwn(s, OwnSend(d, c));
            && s1.conns == PushTo(s, c, Data(d)).conns && s1.registry == s.registry
            && s1.deliveries == s.deliveries[d := Delivery({s.conns[c].user}, Finished, Room(s, c))]
  {
    var sb := Begin(s, d, {s.conns[c].user}, Finished);
    assert PushTo(sb, c, Data(d)).conns == PushTo(s, c, Data(d)).conns
           && PushTo(sb, c, Data(d)).deliveries == sb.deliveries;
  }

  lemma OwnCounts(s: Hub, d: Did, c: Cid)
    requires SafeInv(s) && CountInv(s)
    ensures CountInv(DoOwn(s, OwnSend(d, c)))
  {
    if c in s.conns && s.conns[c].reading && d !in s.deliveries {
      var s1 := DoOwn(s, OwnSend(d, c));
      OwnSendShape(s, d, c);
      OwnSendOk(s, s1, d, c);
      PushKeepsRest(s, s1, c, Data(d), d, s1.deliveries[d]);
    }
  }

  lemma NothingQueued(s: Hub, d: Did)
    requires forall c :: !OfferedTo(s, d, c)
    ensures QueuedIn(s, d) == {}
  {
    forall c ensures c !in QueuedIn(s, d) { assert !OfferedTo(s, d, c); }
  }

  lemma NotOffered(s: Hub, d: Did, c: Cid)
    requires c in s.conns && !OfferedTo(s, d, c)
    ensures AtMostOnce(s.conns[c], d)
  {
    forall i | 0 <= i < |s.conns[c].offered| ensures s.conns[c].offered[i].frame != Data(d) {
      assert s.conns[c].offered[i] == Offer(s.conns[c].offered[i].frame, s.conns[c].offered[i].queued);
    }
  }

  /** An ack frame is no delivery's data. */
  lemma AckCounts(s: Hub, d: Did, c: Cid)
    requires SafeInv(s) && CountInv(s)
    ensures CountInv(DoOwn(s, SendAck(d, c)))
  {
    if c in s.conns && s.conns[c].reading && d in s.deliveries && s.deliveries[d].phase.Finished? {
      AckSent(s, d, c);
    }
  }

  lemma AckSent(s: Hub, d: Did, c: Cid)
    requires CountInv(s) && c in s.conns && !s.conns[c].closed && d in s.deliveries && s.deliveries[d].phase.Finished?
    ensures CountInv(PushTo(s, c, Ack(d, s.deliveries[d].count > 0)))
  {
    var f := Ack(d, s.deliveries[d].count > 0);
    var s1 := PushTo(s, c, f);
    PushOffers(s, c, f);
    PushKeepsOthers(s, c, f, d);
    DeliveryFrame(s, s1, d, s.deliveries[d]);
    assert s1.deliveries == s.deliveries[d := s.deliveries[d]];
    PushKeepsRest(s, s1, c, f, d, s.deliveries[d]);
  }

  // --------------------------------------------------- steps without a send

  lemma SameConnsSameOffers(s: Hub, s1: Hub, d: Did)
    requires s1.conns == s.conns
    ensures SameOffers(s, s1, d)
  {
  }

  lemma SameConnsKeepAcks(s: Hub, s1: Hub, d: Did)
    requires AcksOk(s) && s1.conns == s.conns
    requires forall e :: e in s.deliveries && s.deliveries[e].phase.Finished? ==>
             e in s1.deliveries && s1.deliveries[e] == s.deliveries[e]
    ensures AcksOk(s1)
  {
  }

  /** Only d's phase moves; no queue is touched. */
  lemma PhaseMove(s: Hub, s1: Hub, d: Did, v: Delivery)
    requires CountInv(s) && s1.conns == s.conns && s1.registry == s.registry && s1.deliveries == s.deliveries[d := v]
    requires DeliveryOk(s1, d, v)
    requires d in s.deliveries ==> !s.deliveries[d].phase.Finished?
    ensures CountInv(s1)
  {
    forall e | e in s1.deliveries && e != d ensures DeliveryOk(s1, e, s1.deliveries[e]) {
      SameConnsSameOffers(s, s1, e);
      DeliveryFrame(s, s1, e, s.deliveries[e]);
    }
    forall e, x | e !in s1.deliveries ensures !OfferedTo(s1, e, x) { SamePhase(s, s1, e); }
    SameConnsKeepAcks(s, s1, d);
  }

  lemma BeginCounts(s: Hub, step: Step)
    requires SafeInv(s) && CountInv(s)
    requires (step.BeginBroadcast? || step.BeginGroup? || step.Lookup?) && step.d !in s.deliveries
    ensures CountInv(DoBegin(s, step))
  {
    var s1 := DoBegin(s, step);
    if s1 != s {
      var d := step.d;
      SamePhase(s, s1, d);
      NothingQueued(s, d);
      forall x | x in s.conns ensures AtMostOnce(s.conns[x], d) { NotOffered(s, d, x); }
      if step.Lookup? {
        if step.u in s.registry { assert Current(s, s.registry[step.u]); }
      } else {
        assert forall u :: u in step.order <==> u in Elems(step.order);
      }
      assert DeliveryOk(s1, d, s1.deliveries[d]);
      PhaseMove(s, s1, d, s1.deliveries[d]);
    }
  }

  /** The next roster entry is looked up: skipped if it is the sender or offline, else held. */
  lemma FanLookupOk(s: Hub, s1: Hub, d: Did, v: Delivery, u: Uid, rest: seq<Uid>)
    requires SafeInv(s) && DeliveryOk(s, d, v) && v.phase.Fan? && v.phase.held.None? && v.phase.todo == [u] + rest
    requires s1.conns == s.conns && s1.registry == s.registry
    ensures DeliveryOk(s1, d, v.(phase := Fan(rest, v.phase.skip,
              if v.phase.skip != Some(u) && u in s.registry then Some(s.registry[u]) else None)))
  {
    assert forall x :: x in v.phase.todo <==> x == u || x in rest;
    assert v.phase.todo[0] == u && v.phase.todo[1..] == rest;
    assert u !in rest;
    SamePhase(s, s1, d);
    if u in s.registry { assert Current(s, s.registry[u]) && s.conns[s.registry[u]].user == u; }
    assert forall x :: Current(s1, x) <==> Current(s, x);
  }

  lemma FanLookupShape(s: Hub, d: Did)
    requires d in s.deliveries && s.deliveries[d].phase.Fan?
    requires s.deliveries[d].phase.held.None? && s.deliveries[d].phase.todo != []
    ensures var s1, v := DoFan(s, FanLookup(d)), s.deliveries[d];
            var u, rest := v.phase.todo[0], v.phase.todo[1..];
            && s1.conns == s.conns && s1.registry == s.registry
            && s1.deliveries == s.deliveries[d := v.(phase := Fan(rest, v.phase.skip,
                 if v.phase.skip != Some(u) && u in s.registry then Some(s.registry[u]) else None))]
  {
  }

  lemma FanLookupCounts(s: Hub, d: Did)
    requires SafeInv(s) && CountInv(s) && d in s.deliveries
    ensures CountInv(DoFan(s, FanLookup(d)))
  {
    var v := s.deliveries[d];
    if v.phase.Fan? && v.phase.held.None? && v.phase.todo != [] {
      var s1 := DoFan(s, FanLookup(d));
      assert v.phase.todo == [v.phase.todo[0]] + v.phase.todo[1..];
      FanLookupShape(s, d);
      FanLookupOk(s, s1, d, v, v.phase.todo[0], v.phase.todo[1..]);
      PhaseMove(s, s1, d, s1.deliveries[d]);
    }
  }

  lemma FanEndCounts(s: Hub, d: Did)
    requires SafeInv(s) && CountInv(s) && d in s.deliveries
    ensures CountInv(DoFan(s, FanEnd(d)))
  {
    var v := s.deliveries[d];
    if v.phase.Fan? && v.phase.held.None? && v.phase.todo == [] {
      var s1 := DoFan(s, FanEnd(d));
      SamePhase(s, s1, d);
      PhaseMove(s, s1, d, s1.deliveries[d]);
    }
  }

  lemma ConnectCounts(s: Hub, c: Cid, u: Uid)
    requires CountInv(s) && c !in s.conns
    ensures CountInv(DoConnect(s, c, u))
  {
    CountFrame(s, DoConnect(s, c, u));
  }

  lemma HubStepCounts(s: Hub, c: Cid)
    requires CountInv(s) && WriteLockFree(s) && c in s.conns
    ensures CountInv(DoRegister(s, c)) && CountInv(DoUnregister(s, c))
  {
    CountFrame(s, DoRegister(s, c));
    CountFrame(s, DoUnregister(s, c));
  }

  lemma PumpCounts(s: Hub, step: Step)
    requires CountInv(s) && (step.ReaderExit? || step.WriterTakes? || step.WriterExit?) && step.c in s.conns
    ensures CountInv(DoPump(s, step))
  {
    PumpOffersNothing(s, step);
    CountFrame(s, DoPump(s, step));
  }

  lemma PumpOffersNothing(s: Hub, step: Step)
    requires (step.ReaderExit? || step.WriterTakes? || step.WriterExit?) && step.c in s.conns
    ensures var s1 := DoPump(s, step);
            && s1.deliveries == s.deliveries && s1.registry == s.registry && s1.conns.Keys == s.conns.Keys
            && forall c :: c in s.conns ==>
                  s1.conns[c].user == s.conns[c].user && s1.conns[c].offered == s.conns[c].offered
  {
  }

  lemma StepCounts(s: Hub, step: Step)
    requires SafeInv(s) && CountInv(s) && !s.crashed
    ensures CountInv(Apply(s, step))
  {
    match step {
      case Connect(c, u) => if c !in s.conns { ConnectCounts(s, c, u); }
      case Register(c) => if c in s.conns && WriteLockFree(s) { HubStepCounts(s, c); }
      case Unregister(c) => if c in s.conns && WriteLockFree(s) { HubStepCounts(s, c); }
      case ReaderExit(c) => if c in s.conns { PumpCounts(s, step); }
      case WriterTakes(c, _) => if c in s.conns { PumpCounts(s, step); }
      case WriterExit(c) => if c in s.conns { PumpCounts(s, step); }
      case BeginBroadcast(d, _) => if d !in s.deliveries { BeginCounts(s, step); }
      case BeginGroup(d, _, _) => if d !in s.deliveries { BeginCounts(s, step); }
      case Lookup(d, _) => if d !in s.deliveries { BeginCounts(s, step); }
      case FanLookup(d) => if d in s.deliveries { FanLookupCounts(s, d); }
      case FanSend(d) => if d in s.deliveries { FanSendCounts(s, d); }
      case FanEnd(d) => if d in s.deliveries { FanEndCounts(s, d); }
      case SendLooked(d) => if d in s.deliveries { DirectCounts(s, d); }
      case OwnSend(d, c) => OwnCounts(s, d, c);
      case SendAck(d, c) => AckCounts(s, d, c);
    }
  }

  lemma {:induction false} RunCounts(s: Hub, steps: seq<Step>)
    requires SafeInv(s) && CountInv(s)
    ensures SafeInv(Exec(s, steps)) && CountInv(Exec(s, steps))
    decreases |steps|
  {
    if steps != [] {
      if !s.crashed {
        StepIsSafe(s, steps[0]);
        StepCounts(s, steps[0]);
      }
      RunCounts(Apply(s, steps[0]), steps[1..]);
    }
  }

  // ------------------------------------------------------------- theorems

  /** In any interleaving, the count a delivery ends with is the number of queues that took
      its frame, each took it once, and each belongs to one of its targets. */
  lemma CountIsQueuesReached(steps: seq<Step>, d: Did)
    requires d in Exec(START, steps).deliveries
    ensures var s := Exec(START, steps);
            && s.deliveries[d].count == |QueuedIn(s, d)|
            && (forall c :: c in QueuedIn(s, d) ==> s.conns[c].user in s.deliveries[d].targets)
            && (forall c :: c in s.conns ==> AtMostOnce(s.conns[c], d))
  {
    RunCounts(START, steps);
  }

  /** A fan-out about to release its lock has offered its frame to exactly the current
      connections of its targets, which for a broadcast is every connection there is. */
  lemma FanOutReachesExactlyTheOnlineTargets(steps: seq<Step>, d: Did, skip: Option<Uid>, c: Cid)
    requires d in Exec(START, steps).deliveries && Exec(START, steps).deliveries[d].phase == Fan([], skip, None)
    ensures var s := Exec(START, steps);
            && (OfferedTo(s, d, c) <==> Current(s, c) && s.conns[c].user in s.deliveries[d].targets)
            && (skip.None? ==> (OfferedTo(s, d, c) <==> Current(s, c)))
  {
    RunCounts(START, steps);
    FanEndReaches(Exec(START, steps), d, skip, c);
  }

  lemma FanEndReaches(s: Hub, d: Did, skip: Option<Uid>, c: Cid)
    requires SafeInv(s) && CountInv(s) && d in s.deliveries && s.deliveries[d].phase == Fan([], skip, None)
    ensures OfferedTo(s, d, c) <==> Current(s, c) && s.conns[c].user in s.deliveries[d].targets
    ensures skip.None? ==> (OfferedTo(s, d, c) <==> Current(s, c))
  {
    assert DeliveryOk(s, d, s.deliveries[d]);
  }

  lemma BeginGroupTargets(s: Hub, d: Did, roster: seq<Uid>, sender: Uid)
    requires !s.crashed && d !in s.deliveries && NoDup(roster)
    ensures var s1 := Apply(s, BeginGroup(d, roster, sender));
            d in s1.deliveries && s1.deliveries[d].targets == Elems(roster) - {sender}
  {
  }

  lemma StepKeepsTargets(s: Hub, step: Step, d: Did)
    requires d in s.deliveries
    ensures d in Apply(s, step).deliveries && Apply(s, step).deliveries[d].targets == s.deliveries[d].targets
  {
  }

  lemma {:induction false} RunKeepsTargets(s: Hub, steps: seq<Step>, d: Did)
    requires d in s.deliveries
    ensures d in Exec(s, steps).deliveries && Exec(s, steps).deliveries[d].targets == s.deliveries[d].targets
    decreases |steps|
  {
    if steps != [] {
      StepKeepsTargets(s, steps[0], d);
      RunKeepsTargets(Apply(s, steps[0]), steps[1..], d);
    }
  }

  /** A group fan-out begun with a roster has, at its end, offered its frame to exactly the
      current connections of the roster's members but the sender, whatever else ran. */
  lemma GroupFanOutReachesItsRoster(before: seq<Step>, d: Did, roster: seq<Uid>, sender: Uid, mid: seq<Step>,
                                    s0: Hub, s1: Hub, c: Cid)
    requires s0 == Exec(START, before) && !s0.crashed && d !in s0.deliveries && NoDup(roster)
    requires s1 == Exec(Apply(s0, BeginGroup(d, roster, sender)), mid)
    requires d in s1.deliveries && s1.deliveries[d].phase == Fan([], Some(sender), None)
    ensures OfferedTo(s1, d, c) <==> Current(s1, c) && s1.conns[c].user in roster && s1.conns[c].user != sender
  {
    BeginGroupTargets(s0, d, roster, sender);
    LaterCounts(before, BeginGroup(d, roster, sender), mid);
    RunKeepsTargets(Apply(s0, BeginGroup(d, roster, sender)), mid, d);
    FanEndReaches(s1, d, Some(sender), c);
  }

  /** Every ack in any queue says delivered exactly when its message was queued to a target
      of the delivery it answers. */
  lemma AckTellsTheTruth(s: Hub, c: Cid, d: Did, delivered: bool, q: bool)
    requires CountInv(s) && c in s.conns && Offer(Ack(d, delivered), q) in s.conns[c].offered
    ensures d in s.deliveries && s.deliveries[d].phase.Finished?
    ensures delivered <==> exists x :: OfferedAs(s, d, x, true) && s.conns[x].user in s.deliveries[d].targets
  {
    assert DeliveryOk(s, d, s.deliveries[d]);
    if delivered {
      assert QueuedIn(s, d) != {};
      var x :| x in QueuedIn(s, d);
      assert OfferedTo(s, d, x);
    }
    if x :| OfferedAs(s, d, x, true) { assert x in QueuedIn(s, d); }
  }

  /** A run that goes on from s0 with one more step and then mid. */
  lemma LaterCounts(before: seq<Step>, begin: Step, mid: seq<Step>)
    ensures var s1 := Exec(Apply(Exec(START, before), begin), mid); SafeInv(s1) && CountInv(s1)
  {
    RunCounts(START, before);
    assert ([begin] + mid)[1..] == mid;
    RunCounts(Exec(START, before), [begin] + mid);
  }

  /** The ack of a direct message says delivered exactly when its receiver's queue took it. */
  lemma DirectAckTellsTheTruth(before: seq<Step>, d: Did, receiver: Uid, mid: seq<Step>, s1: Hub, c: Cid,
                               delivered: bool, q: bool)
    requires !Exec(START, before).crashed && d !in Exec(START, before).deliveries
    requires s1 == Exec(Apply(Exec(START, before), Lookup(d, receiver)), mid)
    requires c in s1.conns && Offer(Ack(d, delivered), q) in s1.conns[c].offered
    ensures delivered <==> exists x :: OfferedAs(s1, d, x, true) && s1.conns[x].user == receiver
  {
    var s := Apply(Exec(START, before), Lookup(d, receiver));
    LaterCounts(before, Lookup(d, receiver), mid);
    assert d in s.deliveries && s.deliveries[d].targets == {receiver};
    RunKeepsTargets(s, mid, d);
    AckTellsTheTruth(s1, c, d, delivered, q);
  }

  /** The ack of a group message says delivered exactly when the queue of some roster member
      other than its sender took it. */
  lemma GroupAckTellsTheTruth(before: seq<Step>, d: Did, roster: seq<Uid>, sender: Uid, mid: seq<Step>, s1: Hub, c: Cid,
                              delivered: bool, q: bool)
    requires !Exec(START, before).crashed && d !in Exec(START, before).deliveries && NoDup(roster)
    requires s1 == Exec(Apply(Exec(START, before), BeginGroup(d, roster, sender)), mid)
    requires c in s1.conns && Offer(Ack(d, delivered), q) in s1.conns[c].offered
    ensures delivered <==> exists x ::
            OfferedAs(s1, d, x, true) && s1.conns[x].user in roster && s1.conns[x].user != sender
  {
    BeginGroupTargets(Exec(START, before), d, roster, sender);
    LaterCounts(before, BeginGroup(d, roster, sender), mid);
    RunKeepsTargets(Apply(Exec(START, before), BeginGroup(d, roster, sender)), mid, d);
    AckTellsTheTruth(s1, c, d, delivered, q);
  }

  /** At no moment has a group fan-out offered its frame to anybody off the roster it began with. */
  lemma GroupFanOutStaysOnItsRoster(before: seq<Step>, d: Did, roster: seq<Uid>, sender: Uid, mid: seq<Step>, s1: Hub,
                                    c: Cid)
    requires !Exec(START, before).crashed && d !in Exec(START, before).deliveries && NoDup(roster)
    requires s1 == Exec(Apply(Exec(START, before), BeginGroup(d, roster, sender)), mid)
    ensures OfferedTo(s1, d, c) ==> s1.conns[c].user in roster && s1.conns[c].user != sender
  {
    BeginGroupTargets(Exec(START, before), d, roster, sender);
    LaterCounts(before, BeginGroup(d, roster, sender), mid);
    RunKeepsTargets(Apply(Exec(START, before), BeginGroup(d, roster, sender)), mid, d);
    assert DeliveryOk(s1, d, s1.deliveries[d]);
  }
}
