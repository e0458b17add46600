/** Roster lookups split at each access to the cache, the clock and the database, with any
    membership change, invalidation or other lookup in between. */
module CacheRuns {
  import opened Basics
  import opened GroupTables
  import opened RosterCache

  type Lid = nat

  /** When the lookup that filled an entry began, read the database, and stored. */
  datatype Fill = Fill(started: Time, read: Time, stored: Time)

  datatype Filled = Filled(ids: seq<Uid>, expiresAt: Time, fill: Fill)

  /** A lookup has fetched the entry, found it stale or missing, or read the database. */
  datatype Phase = Fetched(entry: Option<Filled>) | Missed | HasRead(ids: seq<Uid>, read: Time)

  datatype Lookup = Lookup(group: Gid, started: Time, phase: Phase)

  /** A roster handed to a caller of GroupMemberIDs. */
  datatype Served = Served(group: Gid, ids: seq<Uid>, at: Time, fill: Fill)

  datatype Sys = Sys(now: Time, db: Tables, cache: map<Gid, Filled>, lookups: map<Lid, Lookup>, served: seq<Served>)

  datatype Step =
    | Tick(nanos: nat)
    | Write(db: Tables)
    | Invalidate(g: Gid)
    | Fetch(l: Lid, g: Gid)
    | CheckClock(l: Lid)
    | ReadDb(l: Lid, answer: seq<Uid>)
    | Store(l: Lid)
    | Fail(l: Lid)

  const START := Sys(0, EMPTY, map[], map[], [])

  function Serve(s: Sys, l: Lid, g: Gid, ids: seq<Uid>, fill: Fill): Sys {
    s.(lookups := s.lookups - {l}, served := s.served + [Served(g, ids, s.now, fill)])
  }

  function Park(s: Sys, l: Lid, v: Lookup): Sys { s.(lookups := s.lookups[l := v]) }

  function Apply(s: Sys, step: Step): Sys {
    match step
    case Tick(n) => s.(now := s.now + n)
    case Write(db) => s.(db := db)
    case Invalidate(g) => s.(cache := s.cache - {g})
    case Fail(l) => s.(lookups := s.lookups - {l})
    case Fetch(l, g) =>
      if l in s.lookups then s
      else Park(s, l, Lookup(g, s.now, Fetched(if g in s.cache then Some(s.cache[g]) else None)))
    case _ => if step.l in s.lookups then Advance(s, step, s.lookups[step.l]) else s
  }

  function Advance(s: Sys, step: Step, v: Lookup): Sys
    requires step.CheckClock? || step.ReadDb? || step.Store?
  {
    match (step, v.phase)
    case (CheckClock(l), Fetched(Some(e))) =>
      if s.now < e.expiresAt then Serve(s, l, v.group, e.ids, e.fill) else Park(s, l, v.(phase := Missed))
    case (CheckClock(l), Fetched(None)) => Park(s, l, v.(phase := Missed))
    case (ReadDb(l, answer), Missed) =>
      if IsRosterList(s.db, v.group, answer) then Park(s, l, v.(phase := HasRead(answer, s.now))) else s
    case (Store(l), HasRead(ids, read)) =>
      var fill := Fill(v.started, read, s.now);
      Serve(s, l, v.group, ids, fill).(cache := s.cache[v.group := Filled(ids, s.now + ROSTER_TTL, fill)])
    case _ => s
  }

  /** The state a run from s ends in. */
  function From(s: Sys, steps: seq<Step>): Sys {
    if steps == [] then s else Apply(From(s, steps[..|steps| - 1]), steps[|steps| - 1])
  }

  function Run(steps: seq<Step>): Sys { From(START, steps) }

  /** At some moment of the run the clock stood at t and the database's roster of g was ids. */
  ghost predicate WasRosterAt(steps: seq<Step>, g: Gid, ids: seq<Uid>, t: Time) {
    exists k :: 0 <= k <= |steps| && Run(steps[..k]).now == t && IsRosterList(Run(steps[..k]).db, g, ids)
  }

  ghost predicate EntryOk(steps: seq<Step>, now: Time, g: Gid, e: Filled) {
    && WasRosterAt(steps, g, e.ids, e.fill.read)
    && e.fill.started <= e.fill.read <= e.fill.stored <= now
    && e.expiresAt == e.fill.stored + ROSTER_TTL
  }

  ghost predicate LookupOk(steps: seq<Step>, now: Time, v: Lookup) {
    && v.started <= now
    && match v.phase
       case Fetched(Some(e)) => EntryOk(steps, now, v.group, e)
       case HasRead(ids, read) => WasRosterAt(steps, v.group, ids, read) && v.started <= read <= now
       case _ => true
  }

  ghost predicate ServedOk(steps: seq<Step>, now: Time, x: Served) {
    && WasRosterAt(steps, x.group, x.ids, x.fill.read)
    && x.fill.started <= x.fill.read <= x.fill.stored <= x.at <= now
    && x.at - x.fill.read < ROSTER_TTL + (x.fill.stored - x.fill.started)
  }

  ghost predicate Inv(steps: seq<Step>) {
    var s := Run(steps);
    && (forall g :: g in s.cache ==> EntryOk(steps, s.now, g, s.cache[g]))
    && (forall l :: l in s.lookups ==> LookupOk(steps, s.now, s.lookups[l]))
    && (forall i :: 0 <= i < |s.served| ==> ServedOk(steps, s.now, s.served[i]))
  }

  lemma StaysRoster(steps: seq<Step>, step: Step, g: Gid, ids: seq<Uid>, t: Time)
    requires WasRosterAt(steps, g, ids, t)
    ensures WasRosterAt(steps + [step], g, ids, t)
  {
    var k :| 0 <= k <= |steps| && Run(steps[..k]).now == t && IsRosterList(Run(steps[..k]).db, g, ids);
    assert (steps + [step])[..k] == steps[..k];
  }

  lemma IsRosterNow(steps: seq<Step>, g: Gid, ids: seq<Uid>)
    requires IsRosterList(Run(steps).db, g, ids)
    ensures WasRosterAt(steps, g, ids, Run(steps).now)
  {
    assert steps[..|steps|] == steps;
  }

  /** Time passes, and what was true of the past stays true. */
  lemma Later(steps: seq<Step>, step: Step, now: Time, now1: Time)
    requires now <= now1
    ensures forall g, e :: EntryOk(steps, now, g, e) ==> EntryOk(steps + [step], now1, g, e)
    ensures forall v :: LookupOk(steps, now, v) ==> LookupOk(steps + [step], now1, v)
    ensures forall x :: ServedOk(steps, now, x) ==> ServedOk(steps + [step], now1, x)
  {
    forall g, e | EntryOk(steps, now, g, e) ensures EntryOk(steps + [step], now1, g, e) {
      StaysRoster(steps, step, g, e.ids, e.fill.read);
    }
    forall v | LookupOk(steps, now, v) ensures LookupOk(steps + [step], now1, v) {
      if v.phase.HasRead? { StaysRoster(steps, step, v.group, v.phase.ids, v.phase.read); }
    }
    forall x | ServedOk(steps, now, x) ensures ServedOk(steps + [step], now1, x) {
      StaysRoster(steps, step, x.group, x.ids, x.fill.read);
    }
  }

  lemma LookupsStayOk(steps: seq<Step>, step: Step)
    requires Inv(steps)
    ensures var s, s1 := Run(steps), Apply(Run(steps), step);
            forall l :: l in s1.lookups ==> LookupOk(steps + [step], s1.now, s1.lookups[l])
  {
    var s := Run(steps);
    Later(steps, step, s.now, Apply(s, step).now);
    if step.ReadDb? && step.l in s.lookups && IsRosterList(s.db, s.lookups[step.l].group, step.answer) {
      IsRosterNow(steps, s.lookups[step.l].group, step.answer);
      StaysRoster(steps, step, s.lookups[step.l].group, step.answer, s.now);
    }
  }

  lemma StepKeepsInv(steps: seq<Step>, step: Step)
    requires Inv(steps)
    ensures Inv(steps + [step])
  {
    var s, longer := Run(steps), steps + [step];
    assert longer[..|steps|] == steps;
    var s1 := Apply(s, step);
    assert Run(longer) == s1;
    Later(steps, step, s.now, s1.now);
    LookupsStayOk(steps, step);
    forall i | 0 <= i < |s1.served| ensures ServedOk(longer, s1.now, s1.served[i]) {
      if i < |s.served| {
        assert s1.served[i] == s.served[i];
      } else {
        assert LookupOk(steps, s.now, s.lookups[step.l]);
      }
    }
  }

  lemma {:induction false} RunKeepsInv(steps: seq<Step>)
    ensures Inv(steps)
  {
    if steps != [] {
      RunKeepsInv(steps[..|steps| - 1]);
      StepKeepsInv(steps[..|steps| - 1], steps[|steps| - 1]);
      assert steps == steps[..|steps| - 1] + [steps[|steps| - 1]];
    }
  }

  /** Whatever runs in between, a roster served at time t was the database's at a moment
      less than thirty seconds plus one lookup's duration before t. */
  lemma ServedRosterIsRecent(steps: seq<Step>, i: nat)
    requires i < |Run(steps).served|
    ensures var x := Run(steps).served[i];
            exists k :: 0 <= k <= |steps| && IsRosterList(Run(steps[..k]).db, x.group, x.ids)
              && 0 <= x.at - Run(steps[..k]).now < 30_000_000_000 + (x.fill.stored - x.fill.started)
  {
    RunKeepsInv(steps);
    var x := Run(steps).served[i];
    assert ServedOk(steps, Run(steps).now, x);
    var k :| 0 <= k <= |steps| && Run(steps[..k]).now == x.fill.read
        && IsRosterList(Run(steps[..k]).db, x.group, x.ids);
    assert 0 <= x.at - Run(steps[..k]).now;
  }

  // -------------------------------------------------- what follows from it

  lemma {:induction false} ClockNeverTurnsBack(s: Sys, steps: seq<Step>, j: nat, k: nat)
    requires j <= k <= |steps|
    ensures From(s, steps[..j]).now <= From(s, steps[..k]).now
  {
    if j < k {
      ClockNeverTurnsBack(s, steps, j, k - 1);
      assert steps[..k][..k - 1] == steps[..k - 1];
    }
  }

  /** Somebody off a group's roster from moment k on is on no roster of it served thirty
      seconds plus one lookup's duration later, or after that. */
  lemma DepartedDropOut(steps: seq<Step>, k: nat, i: nat, u: Uid)
    requires k <= |steps| && i < |Run(steps).served|
    requires forall j :: k <= j <= |steps| ==> u !in Roster(Run(steps[..j]).db, Run(steps).served[i].group)
    requires var x := Run(steps).served[i];
             x.at >= Run(steps[..k]).now + 30_000_000_000 + (x.fill.stored - x.fill.started)
    ensures u !in Run(steps).served[i].ids
  {
    ServedRosterIsRecent(steps, i);
    var x := Run(steps).served[i];
    var j :| 0 <= j <= |steps| && IsRosterList(Run(steps[..j]).db, x.group, x.ids)
             && 0 <= x.at - Run(steps[..j]).now < ROSTER_TTL + (x.fill.stored - x.fill.started);
    if j < k { ClockNeverTurnsBack(START, steps, j, k); }
    assert u !in Elems(x.ids);
  }

  // ------------------------------------------- when an invalidation takes effect

  /** A roster this lookup would still serve without reading the database again. */
  ghost predicate Carries(s: Sys, v: Lookup, g: Gid, ids: seq<Uid>) {
    v.group == g &&
    match v.phase
    case Fetched(Some(e)) => s.now < e.expiresAt && ids == e.ids
    case HasRead(read, _) => ids == read
    case _ => false
  }

  /** No lookup of g in flight carries a roster that is out of date. */
  ghost predicate NothingStaleInFlight(s: Sys, g: Gid) {
    forall l, ids :: l in s.lookups && Carries(s, s.lookups[l], g, ids) ==> IsRosterList(s.db, g, ids)
  }

  /** ids was the database's roster of g at the start of the run from s or at a later moment of it. */
  ghost predicate CurrentSince(s: Sys, steps: seq<Step>, g: Gid, ids: seq<Uid>) {
    exists k :: 0 <= k <= |steps| && IsRosterList(From(s, steps[..k]).db, g, ids)
  }

  /** Every roster of g served in the run from s was current at some moment of that run. */
  ghost predicate ServesOnlySince(s: Sys, steps: seq<Step>, g: Gid) {
    var served := From(s, steps).served;
    forall i :: |s.served| <= i < |served| && served[i].group == g ==> CurrentSince(s, steps, g, served[i].ids)
  }

  ghost predicate SinceInv(s: Sys, steps: seq<Step>, g: Gid) {
    var t := From(s, steps);
    && s.served <= t.served
    && ServesOnlySince(s, steps, g)
    && (g in t.cache ==> CurrentSince(s, steps, g, t.cache[g].ids))
    && (forall l, ids :: l in t.lookups && Carries(t, t.lookups[l], g, ids) ==> CurrentSince(s, steps, g, ids))
  }

  lemma StaysSince(s: Sys, steps: seq<Step>, step: Step, g: Gid)
    ensures forall ids :: CurrentSince(s, steps, g, ids) ==> CurrentSince(s, steps + [step], g, ids)
  {
    forall ids | CurrentSince(s, steps, g, ids) ensures CurrentSince(s, steps + [step], g, ids) {
      var k :| 0 <= k <= |steps| && IsRosterList(From(s, steps[..k]).db, g, ids);
      assert (steps + [step])[..k] == steps[..k];
    }
  }

  lemma CurrentNow(s: Sys, steps: seq<Step>, g: Gid, ids: seq<Uid>)
    requires IsRosterList(From(s, steps).db, g, ids)
    ensures CurrentSince(s, steps, g, ids)
  {
    assert steps[..|steps|] == steps;
  }

  lemma SinceStep(s: Sys, steps: seq<Step>, step: Step, g: Gid)
    requires SinceInv(s, steps, g)
    ensures SinceInv(s, steps + [step], g)
  {
    var t, longer := From(s, steps), steps + [step];
    var t1 := Apply(t, step);
    assert longer[..|steps|] == steps && From(s, longer) == t1;
    StaysSince(s, steps, step, g);
    CarriedSince(s, steps, step, g);
    if (step.CheckClock? || step.Store?) && step.l in t.lookups {
      var v := t.lookups[step.l];
      forall ids | Carries(t, v, g, ids) ensures CurrentSince(s, steps, g, ids) {}
    }
  }

  lemma CarriedSince(s: Sys, steps: seq<Step>, step: Step, g: Gid)
    requires SinceInv(s, steps, g)
    ensures var t1 := Apply(From(s, steps), step);
            forall l, ids :: l in t1.lookups && Carries(t1, t1.lookups[l], g, ids) ==> CurrentSince(s, steps, g, ids)
  {
    var t := From(s, steps);
    var t1 := Apply(t, step);
    if step.ReadDb? && step.l in t.lookups && IsRosterList(t.db, t.lookups[step.l].group, step.answer) {
      if t.lookups[step.l].group == g { CurrentNow(s, steps, g, step.answer); }
    }
    forall l, ids | l in t1.lookups && Carries(t1, t1.lookups[l], g, ids) ensures CurrentSince(s, steps, g, ids) {
      if l in t.lookups && t.lookups[l] == t1.lookups[l] { assert Carries(t, t.lookups[l], g, ids); }
    }
  }

  lemma {:induction false} SinceRun(s: Sys, steps: seq<Step>, g: Gid)
    requires g !in s.cache && NothingStaleInFlight(s, g)
    ensures SinceInv(s, steps, g)
  {
    if steps == [] {
      forall l, ids | l in s.lookups && Carries(s, s.lookups[l], g, ids) ensures CurrentSince(s, [], g, ids) {
        CurrentNow(s, [], g, ids);
      }
    } else {
      SinceRun(s, steps[..|steps| - 1], g);
      SinceStep(s, steps[..|steps| - 1], steps[|steps| - 1], g);
      assert steps == steps[..|steps| - 1] + [steps[|steps| - 1]];
    }
  }

  /** A lookup that carries ids can serve them next. */
  lemma CarriedIsServed(s: Sys, l: Lid, g: Gid, ids: seq<Uid>) returns (step: Step)
    requires l in s.lookups && Carries(s, s.lookups[l], g, ids) && !IsRosterList(s.db, g, ids)
    ensures !ServesOnlySince(s, [step], g)
  {
    step := if s.lookups[l].phase.HasRead? then Store(l) else CheckClock(l);
    var t := From(s, [step]);
    assert [step][..0] == [] && From(s, []) == s;
    assert t == Apply(s, step) && t.db == s.db;
    assert |t.served| == |s.served| + 1 && t.served[|s.served|].group == g && t.served[|s.served|].ids == ids;
    assert [step][..1] == [step];
    assert forall k :: 0 <= k <= 1 ==> From(s, [step][..k]).db == s.db;
  }

  /** Dropping g from the cache makes every roster of g served from then on one the database
      had from then on, whatever runs, exactly when no lookup in flight carries an old one. */
  lemma InvalidationTakesEffectIff(s: Sys, g: Gid)
    ensures NothingStaleInFlight(s, g)
            <==> forall steps :: ServesOnlySince(Apply(s, Invalidate(g)), steps, g)
  {
    var s1 := Apply(s, Invalidate(g));
    assert forall v, ids :: Carries(s1, v, g, ids) <==> Carries(s, v, g, ids);
    if NothingStaleInFlight(s, g) {
      forall steps ensures ServesOnlySince(s1, steps, g) { SinceRun(s1, steps, g); }
    } else {
      var l, ids :| l in s.lookups && Carries(s, s.lookups[l], g, ids) && !IsRosterList(s.db, g, ids);
      var step := CarriedIsServed(s1, l, g, ids);
    }
  }

  const WITH_ONE := Tables(map[7 := GroupRow("g", 1, 0)], map[Seat(7, 1) := MemberRow(Owner, "k", "n", 1, 0)], map[])

  /** A lookup reads the database, then the last member leaves and the group's entry is
      dropped, and only then the lookup stores what it read. */
  function ReadFirst(): seq<Step> { [Write(WITH_ONE), Fetch(0, 7), CheckClock(0), ReadDb(0, [1])] }

  function ThenStore(): seq<Step> { [Write(EMPTY), Invalidate(7), Store(0)] }

  lemma Snoc(steps: seq<Step>, step: Step)
    ensures Run(steps + [step]) == Apply(Run(steps), step)
  {
    assert (steps + [step])[..|steps|] == steps;
  }

  lemma Run3(steps: seq<Step>, a: Step, b: Step, c: Step)
    ensures Run(steps + [a, b, c]) == Apply(Apply(Apply(Run(steps), a), b), c)
  {
    Snoc(steps, a);
    Snoc(steps + [a], b);
    Snoc(steps + [a] + [b], c);
    assert steps + [a] + [b] + [c] == steps + [a, b, c];
  }

  lemma ReadThrough(s: Sys)
    requires s == START.(db := WITH_ONE)
    ensures var s1 := Apply(Apply(Apply(s, Fetch(0, 7)), CheckClock(0)), ReadDb(0, [1]));
            s1.now == 0 && s1.cache == map[] && s1.lookups == map[0 := Lookup(7, 0, HasRead([1], 0))]
  {
    assert Seat(7, 1).user in Roster(WITH_ONE, 7);
    assert IsRosterList(WITH_ONE, 7, [1]);
    var s2 := Apply(s, Fetch(0, 7));
    assert s2 == s.(lookups := map[0 := Lookup(7, 0, Fetched(None))]);
    var s3 := Apply(s2, CheckClock(0));
    assert s3 == s.(lookups := map[0 := Lookup(7, 0, Missed)]);
  }

  lemma AfterRead()
    ensures var s := Run(ReadFirst());
            s.now == 0 && s.cache == map[] && s.lookups == map[0 := Lookup(7, 0, HasRead([1], 0))]
  {
    Snoc([], Write(WITH_ONE));
    assert [] + [Write(WITH_ONE)] == [Write(WITH_ONE)];
    Run3([Write(WITH_ONE)], Fetch(0, 7), CheckClock(0), ReadDb(0, [1]));
    assert [Write(WITH_ONE)] + [Fetch(0, 7), CheckClock(0), ReadDb(0, [1])] == ReadFirst();
    ReadThrough(START.(db := WITH_ONE));
  }

  lemma OnlyMemberLeaves()
    ensures SuccessorOk(WITH_ONE, 7, 1, 1) && LeaveGroup(WITH_ONE, 7, 1, 1) == (EMPTY, Left(true))
  {
    SeatedOnRoster(Departed(WITH_ONE, 7, 1), 7);
    assert Departed(WITH_ONE, 7, 1).members == map[];
    assert Dissolved(Departed(WITH_ONE, 7, 1), 7).groups == map[];
  }

  /** Invalidating does not make the next answer current. */
  lemma StaleAfterInvalidation()
    ensures SuccessorOk(WITH_ONE, 7, 1, 1) && LeaveGroup(WITH_ONE, 7, 1, 1) == (EMPTY, Left(true))
    ensures var s := Run(ReadFirst() + ThenStore());
            7 in s.cache && s.now < s.cache[7].expiresAt && !IsRosterList(s.db, 7, s.cache[7].ids)
  {
    OnlyMemberLeaves();
    AfterRead();
    var s := Run(ReadFirst());
    Run3(ReadFirst(), Write(EMPTY), Invalidate(7), Store(0));
    var s2 := Apply(Apply(s, Write(EMPTY)), Invalidate(7));
    assert s2.lookups == s.lookups && s2.now == 0 && s2.db == EMPTY;
    var s3 := Apply(s2, Store(0));
    assert s3.cache[7].ids == [1] && s3.cache[7].expiresAt == ROSTER_TTL;
    assert 1 in Elems([1]) && 1 !in Roster(EMPTY, 7);
  }
}
