/** Group handlers interleaved at repository-call granularity. A handler in flight holds
    what its earlier checks read; any other call may run before its next one, so each of
    those readings may be out of date when it is used. */
module Interleaved {
  import opened Basics
  import opened GroupTables
  import opened GroupInvariants
  import opened CreateRequests

  type OpId = nat

  /** A handler between two of its repository calls. */
  datatype Op =
    | AddAdmitted(caller: Uid, group: Gid, key: string, nonce: string)
    | AddResolved(caller: Uid, group: Gid, target: Uid, key: string, nonce: string)
    | AddCleared(caller: Uid, group: Gid, target: Uid, key: string, nonce: string)
    | RoleAdmitted(caller: Uid, group: Gid, target: Uid, role: Role)
    | RoleCleared(caller: Uid, group: Gid, target: Uid, role: Role)
    | RemoveAdmitted(caller: Uid, group: Gid, target: Uid)
    | RemoveAdminSeen(caller: Uid, group: Gid, target: Uid)
    | RemoveCleared(caller: Uid, group: Gid, target: Uid, seen: Role)

  /** used, issued: group and invite ids ever chosen. submitted: the wraps carried by the
      requests that got to the tables, as they arrived. */
  datatype Sys = Sys(
    db: Tables, now: Time, used: set<Gid>, issued: set<Iid>, submitted: set<Submission>, ops: map<OpId, Op>)

  datatype Step =
    | Tick(nanos: nat)
    | Create(g: Gid, caller: Uid, name: string, key: string, nonce: string, entries: seq<Entry>)
    | Rename(g: Gid, name: string)
    | Accept(id: Iid, user: Uid)
    | Decline(id: Iid, user: Uid)
    | Leave(g: Gid, user: Uid, succ: Uid)
    | BeginAdd(op: OpId, caller: Uid, g: Gid, key: string, nonce: string)
    | ResolveTarget(op: OpId, target: Uid)
    | CheckNotMember(op: OpId)
    | WriteInvite(op: OpId, id: Iid)
    | BeginRole(op: OpId, caller: Uid, g: Gid, target: Uid, role: Role)
    | CheckRoleTarget(op: OpId)
    | WriteRole(op: OpId)
    | BeginRemove(op: OpId, caller: Uid, g: Gid, target: Uid)
    | CheckRemoveTarget(op: OpId)
    | CheckRemoveCaller(op: OpId)
    | WriteRemove(op: OpId, succ: Uid)
    | Abort(op: OpId)

  const INIT := Sys(EMPTY, 0, {}, {}, {}, map[])

  function Drop(s: Sys, op: OpId): Sys { s.(ops := s.ops - {op}) }

  function Park(s: Sys, op: OpId, o: Op): Sys { s.(ops := s.ops[op := o]) }

  /** One repository call of one handler. A step that does not apply changes nothing. */
  ghost function Apply(s: Sys, step: Step): Sys {
    match step
    case Tick(n) => s.(now := s.now + n)
    case Abort(op) => Drop(s, op)
    case Rename(g, name) => s.(db := RenameGroup(s.db, g, name))
    case Accept(id, u) => s.(db := AcceptInvite(s.db, id, u, s.now).0)
    case Decline(id, u) => s.(db := DeclineInvite(s.db, id, u).0)
    case Create(g, caller, name, key, nonce, entries) => ApplyCreate(s, g, caller, name, key, nonce, entries)
    case Leave(g, u, succ) =>
      if SuccessorOk(s.db, g, u, succ) then s.(db := LeaveGroup(s.db, g, u, succ).0) else s
    case BeginAdd(op, caller, g, key, nonce) =>
      if op !in s.ops && MayManage(s.db, g, caller) && key != "" && nonce != ""
      then Park(s, op, AddAdmitted(caller, g, key, nonce)) else s
    case BeginRole(op, caller, g, target, role) =>
      if op !in s.ops && MayManage(s.db, g, caller) && role != Owner
      then Park(s, op, RoleAdmitted(caller, g, target, role)) else s
    case BeginRemove(op, caller, g, target) =>
      if op !in s.ops && MayManage(s.db, g, caller) && target != caller
      then Park(s, op, RemoveAdmitted(caller, g, target)) else s
    case _ => if step.op in s.ops then Advance(s, step, s.ops[step.op]) else s
  }

  ghost function ApplyCreate(s: Sys, g: Gid, caller: Uid, name: string, key: string, nonce: string,
                             entries: seq<Entry>): Sys
  {
    var rows := RequestRows(caller, key, nonce, entries);
    if g in s.used || rows.None? then s
    else s.(db := CreateGroup(s.db, g, name, caller, rows.value, s.now),
            used := s.used + {g},
            submitted := s.submitted + Carried(g, caller, key, nonce, entries))
  }

  predicate OfHandler(step: Step) {
    !(step.Tick? || step.Create? || step.Rename? || step.Accept? || step.Decline? || step.Leave?)
  }

  /** The next call of a handler that is parked at o. */
  ghost function Advance(s: Sys, step: Step, o: Op): Sys
    requires OfHandler(step)
  {
    match o
    case AddAdmitted(_, _, _, _) => AdvanceAdd(s, step, o)
    case AddResolved(_, _, _, _, _) => AdvanceAdd(s, step, o)
    case AddCleared(_, _, _, _, _) => AdvanceAdd(s, step, o)
    case RoleAdmitted(_, _, _, _) => AdvanceRole(s, step, o)
    case RoleCleared(_, _, _, _) => AdvanceRole(s, step, o)
    case _ => AdvanceRemove(s, step, o)
  }

  ghost function AdvanceAdd(s: Sys, step: Step, o: Op): Sys
    requires OfHandler(step)
  {
    match (step, o)
    case (ResolveTarget(op, target), AddAdmitted(caller, g, key, nonce)) =>
      if target == caller then Drop(s, op)
      else Park(s, op, AddResolved(caller, g, target, key, nonce))
           .(submitted := s.submitted + {Submission(g, target, key, nonce, caller)})
    case (CheckNotMember(op), AddResolved(caller, g, target, key, nonce)) =>
      if Seat(g, target) in s.db.members then Drop(s, op)
      else Park(s, op, AddCleared(caller, g, target, key, nonce))
    case (WriteInvite(op, id), AddCleared(caller, g, target, key, nonce)) =>
      if id in s.issued then s
      else Drop(s, op).(db := CreateInvite(s.db, id, g, caller, target, key, nonce, s.now).0, issued := s.issued + {id})
    case _ => s
  }

  ghost function AdvanceRole(s: Sys, step: Step, o: Op): Sys
    requires OfHandler(step)
  {
    match (step, o)
    case (CheckRoleTarget(op), RoleAdmitted(caller, g, target, role)) =>
      if RoleOf(s.db, g, target) in {None, Some(Owner)} then Drop(s, op)
      else Park(s, op, RoleCleared(caller, g, target, role))
    case (WriteRole(op), RoleCleared(_, g, target, role)) =>
      Drop(s, op).(db := UpdateMemberRole(s.db, g, target, role).0)
    case _ => s
  }

  ghost function AdvanceRemove(s: Sys, step: Step, o: Op): Sys
    requires OfHandler(step)
  {
    match (step, o)
    case (CheckRemoveTarget(op), RemoveAdmitted(caller, g, target)) =>
      if RoleOf(s.db, g, target) in {None, Some(Owner)} then Drop(s, op)
      else if RoleOf(s.db, g, target) == Some(Admin) then Park(s, op, RemoveAdminSeen(caller, g, target))
      else Park(s, op, RemoveCleared(caller, g, target, Regular))
    case (CheckRemoveCaller(op), RemoveAdminSeen(caller, g, target)) =>
      if RoleOf(s.db, g, caller) == Some(Owner) then Park(s, op, RemoveCleared(caller, g, target, Admin))
          else Drop(s, op)
    case (WriteRemove(op, succ), RemoveCleared(_, g, target, _)) =>
      if SuccessorOk(s.db, g, target, succ) then Drop(s, op).(db := LeaveGroup(s.db, g, target, succ).0) else s
    case _ => s
  }

  ghost function Exec(s: Sys, steps: seq<Step>): Sys
    decreases |steps|
  {
    if steps == [] then s else Exec(Apply(s, steps[0]), steps[1..])
  }

  /** What a handler's next call leaves of the tables: one of three writes, or nothing new. */
  lemma HandlerWrites(s: Sys, step: Step, o: Op)
    requires OfHandler(step)
    ensures var t1 := Advance(s, step, o).db;
            if step.WriteInvite? && o.AddCleared? && step.id !in s.issued
            then t1 == CreateInvite(s.db, step.id, o.group, o.caller, o.target, o.key, o.nonce, s.now).0
            else if step.WriteRole? && o.RoleCleared? then t1 == UpdateMemberRole(s.db, o.group, o.target, o.role).0
            else if step.WriteRemove? && o.RemoveCleared? && SuccessorOk(s.db, o.group, o.target, step.succ)
            then t1 == LeaveGroup(s.db, o.group, o.target, step.succ).0
            else t1 == s.db
  {
  }

  lemma UsedForever(s: Sys, step: Step)
    ensures s.used <= Apply(s, step).used && s.issued <= Apply(s, step).issued
  {
  }

  // --------------------------------------------------------------- invariant

  /** What may be relied on about a handler in flight, however stale its readings. */
  ghost predicate OpOk(s: Sys, o: Op) {
    match o
    case AddAdmitted(_, g, _, _) => g in s.used
    case AddResolved(caller, g, target, key, nonce) =>
      g in s.used && Submission(g, target, key, nonce, caller) in s.submitted
    case AddCleared(caller, g, target, key, nonce) =>
      && g in s.used && Submission(g, target, key, nonce, caller) in s.submitted
      && SeatedOnlyByInvite(s.db, g, target)
    case RoleAdmitted(_, _, _, role) => role != Owner
    case RoleCleared(_, _, _, role) => role != Owner
    case _ => true
  }

  ghost predicate DbOk(s: Sys) {
    TablesOk(s.db, s.now) && WrapsFrom(s.db, s.submitted) && Within(s.db, s.used) && s.db.invites.Keys <= s.issued
  }

  ghost predicate Inv(s: Sys) {
    DbOk(s) && forall op :: op in s.ops ==> OpOk(s, s.ops[op])
  }

  /** The frame every step needs for the handlers it does not advance. */
  lemma OthersStayOk(s: Sys, s1: Sys, o: Op)
    requires OpOk(s, o)
    requires s.used <= s1.used && s.submitted <= s1.submitted && JoinsByInvite(s.db, s1.db, s.used)
    ensures OpOk(s1, o)
  {
  }

  lemma SameDb(t: Tables, used: set<Gid>)
    ensures JoinsByInvite(t, t, used)
  {
  }

  lemma CreateStep(s: Sys, g: Gid, caller: Uid, name: string, key: string, nonce: string, entries: seq<Entry>)
    requires Inv(s)
    ensures Inv(ApplyCreate(s, g, caller, name, key, nonce, entries))
  {
    var s1 := ApplyCreate(s, g, caller, name, key, nonce, entries);
    var rows := RequestRows(caller, key, nonce, entries);
    if g !in s.used && rows.Some? {
      RowsAfterFounds(caller, [CreatorRow(caller, key, nonce)], entries);
      CreateKeeps(s.db, g, name, caller, rows.value, s.now, s.used);
      BatchWasCarried(g, caller, key, nonce, entries);
      CreateKeepsWraps(s.db, g, name, caller, rows.value, s.now, s1.submitted);
      forall op | op in s1.ops ensures OpOk(s1, s1.ops[op]) { OthersStayOk(s, s1, s.ops[op]); }
    }
  }

  /** A call that writes the tables and lets at most one handler go. */
  lemma WriteStep(s: Sys, s1: Sys)
    requires Inv(s) && DbOk(s1) && JoinsByInvite(s.db, s1.db, s.used)
    requires s1.used == s.used && s1.submitted == s.submitted
    requires s1.ops.Keys <= s.ops.Keys && forall op :: op in s1.ops ==> s1.ops[op] == s.ops[op]
    ensures Inv(s1)
  {
    forall op | op in s1.ops ensures OpOk(s1, s1.ops[op]) { OthersStayOk(s, s1, s.ops[op]); }
  }

  /** A call that only reads, and moves handler op on or lets it go. */
  lemma ReadStep(s: Sys, s1: Sys, op: OpId)
    requires Inv(s)
    requires s1.db == s.db && s1.now == s.now && s1.used == s.used && s1.issued == s.issued
             && s.submitted <= s1.submitted
    requires forall p :: p in s1.ops && p != op ==> p in s.ops && s1.ops[p] == s.ops[p]
    requires op in s1.ops ==> OpOk(s1, s1.ops[op])
    ensures Inv(s1)
  {
    SameDb(s.db, s.used);
    forall p | p in s1.ops && p != op ensures OpOk(s1, s1.ops[p]) { OthersStayOk(s, s1, s.ops[p]); }
  }

  lemma AddStep(s: Sys, step: Step)
    requires Inv(s) && OfHandler(step) && step.op in s.ops
    ensures Inv(AdvanceAdd(s, step, s.ops[step.op]))
  {
    var o := s.ops[step.op];
    var s1 := AdvanceAdd(s, step, o);
    assert OpOk(s, o);
    if step.WriteInvite? && o.AddCleared? {
      if step.id !in s.issued {
        InviteKeeps(s.db, step.id, o.group, o.caller, o.target, o.key, o.nonce, s.now, s.used);
        InviteKeepsWraps(s.db, step.id, o.group, o.caller, o.target, o.key, o.nonce, s.now, s.submitted);
        WriteStep(s, s1);
      }
    } else {
      ReadStep(s, s1, step.op);
    }
  }

  lemma RoleStep(s: Sys, step: Step)
    requires Inv(s) && OfHandler(step) && step.op in s.ops
    ensures Inv(AdvanceRole(s, step, s.ops[step.op]))
  {
    var o := s.ops[step.op];
    var s1 := AdvanceRole(s, step, o);
    assert OpOk(s, o);
    if step.WriteRole? && o.RoleCleared? {
      RoleKeeps(s.db, o.group, o.target, o.role, s.now, s.used);
      OthersKeepWraps(s.db, o.group, o.target, 0, o.role, "", s.submitted);
      WriteStep(s, s1);
    } else {
      ReadStep(s, s1, step.op);
    }
  }

  lemma RemoveStep(s: Sys, step: Step)
    requires Inv(s) && OfHandler(step) && step.op in s.ops
    ensures Inv(AdvanceRemove(s, step, s.ops[step.op]))
  {
    var o := s.ops[step.op];
    var s1 := AdvanceRemove(s, step, o);
    assert OpOk(s, o);
    if step.WriteRemove? && o.RemoveCleared? {
      if SuccessorOk(s.db, o.group, o.target, step.succ) {
        LeaveKeeps(s.db, o.group, o.target, step.succ, s.now, s.used);
        LeaveKeepsWraps(s.db, o.group, o.target, step.succ, s.submitted);
        WriteStep(s, s1);
      }
    } else {
      ReadStep(s, s1, step.op);
    }
  }

  lemma ManagerIsKnown(s: Sys, g: Gid, u: Uid)
    requires DbOk(s) && MayManage(s.db, g, u)
    ensures g in s.used
  {
    assert Seat(g, u) in s.db.members;
    assert Seat(g, u).group in s.used;
  }

  /** A request that is one repository call. */
  lemma SingleCallStep(s: Sys, step: Step)
    requires Inv(s) && (step.Rename? || step.Accept? || step.Decline? || step.Leave?)
    ensures Inv(Apply(s, step))
  {
    match step {
      case Rename(g, name) =>
        RenameKeeps(s.db, g, name, s.now, s.used);
        OthersKeepWraps(s.db, g, 0, 0, Regular, name, s.submitted);
      case Accept(id, u) =>
        AcceptKeeps(s.db, id, u, s.now, s.used);
        AcceptKeepsWraps(s.db, id, u, s.now, s.submitted);
      case Decline(id, u) =>
        DeclineKeeps(s.db, id, u, s.now, s.used);
        OthersKeepWraps(s.db, 0, u, id, Regular, "", s.submitted);
      case Leave(g, u, succ) =>
        if SuccessorOk(s.db, g, u, succ) {
          LeaveKeeps(s.db, g, u, succ, s.now, s.used);
          LeaveKeepsWraps(s.db, g, u, succ, s.submitted);
        } else {
          SameDb(s.db, s.used);
        }
    }
    WriteStep(s, Apply(s, step));
  }

  lemma BeginStep(s: Sys, step: Step)
    requires Inv(s) && (step.BeginAdd? || step.BeginRole? || step.BeginRemove? || step.Abort?)
    ensures Inv(Apply(s, step))
  {
    if step.BeginAdd? && MayManage(s.db, step.g, step.caller) { ManagerIsKnown(s, step.g, step.caller); }
    if !step.Abort? && step.op in s.ops { assert Apply(s, step) == s; } else { ReadStep(s, Apply(s, step), step.op); }
  }

  lemma TickStep(s: Sys, d: nat)
    requires Inv(s)
    ensures Inv(s.(now := s.now + d))
  {
    SameDb(s.db, s.used);
    WriteStep(s, s.(now := s.now + d));
  }

  lemma HandlerStep(s: Sys, step: Step)
    requires Inv(s) && OfHandler(step)
    requires !step.BeginAdd? && !step.BeginRole? && !step.BeginRemove? && !step.Abort?
    ensures Inv(Apply(s, step))
  {
    if step.op in s.ops { AddStep(s, step); RoleStep(s, step); RemoveStep(s, step); }
  }

  lemma StepKeepsInv(s: Sys, step: Step)
    requires Inv(s)
    ensures Inv(Apply(s, step))
  {
    match step {
      case Tick(d) => TickStep(s, d);
      case Create(g, caller, name, key, nonce, entries) => CreateStep(s, g, caller, name, key, nonce, entries);
      case Rename(_, _) => SingleCallStep(s, step);
      case Accept(_, _) => SingleCallStep(s, step);
      case Decline(_, _) => SingleCallStep(s, step);
      case Leave(_, _, _) => SingleCallStep(s, step);
      case BeginAdd(_, _, _, _, _) => BeginStep(s, step);
      case BeginRole(_, _, _, _, _) => BeginStep(s, step);
      case BeginRemove(_, _, _, _) => BeginStep(s, step);
      case Abort(_) => BeginStep(s, step);
      case _ => HandlerStep(s, step);
    }
  }

  lemma {:induction false} RunKeepsInv(s: Sys, steps: seq<Step>)
    requires Inv(s)
    ensures Inv(Exec(s, steps))
    decreases |steps|
  {
    if steps != [] {
      StepKeepsInv(s, steps[0]);
      RunKeepsInv(Apply(s, steps[0]), steps[1..]);
    }
  }

  // ---------------------------------------------------------------- theorems

  /** In every interleaving, every row of groups has exactly one owner, hence a member. */
  lemma EveryGroupHasOneOwner(steps: seq<Step>, g: Gid)
    requires g in Exec(INIT, steps).db.groups
    ensures var t := Exec(INIT, steps).db;
            exists u :: IsOwner(t, g, u) && u in Roster(t, g) && forall v :: IsOwner(t, g, v) ==> v == u
  {
    RunKeepsInv(INIT, steps);
    ExactlyOneOwner(Exec(INIT, steps).db, g);
  }

  /** In every interleaving, an invite is accepted exactly when its target is seated. */
  lemma InviteStatusTellsMembership(steps: seq<Step>, id: Iid)
    requires id in Exec(INIT, steps).db.invites
    ensures var t := Exec(INIT, steps).db;
            && (t.invites[id].status == Accepted <==> t.invites[id].toUser in Roster(t, t.invites[id].group))
            && (t.invites[id].status in {Pending, Declined} <==>
                 t.invites[id].toUser !in Roster(t, t.invites[id].group))
            && forall b :: Addressed(t, b, t.invites[id].group, t.invites[id].toUser) ==> b == id
  {
    RunKeepsInv(INIT, steps);
    var t := Exec(INIT, steps).db;
    SeatedOnRoster(t, t.invites[id].group);
    assert Addressed(t, id, t.invites[id].group, t.invites[id].toUser);
  }

  /** Accepting never finds the seat taken: a pending invite always ends in a new seat
      that carries the invite's own wrap. */
  lemma AcceptNeverFindsSeatTaken(steps: seq<Step>, id: Iid, u: Uid)
    requires PendingFor(Exec(INIT, steps).db, id, u)
    ensures var s := Exec(INIT, steps); var inv := s.db.invites[id];
            && Seat(inv.group, u) !in s.db.members
            && AcceptInvite(s.db, id, u, s.now).0.members ==
               s.db.members[Seat(inv.group, u) := MemberRow(Regular, inv.wrappedKey, inv.keyNonce, inv.fromUser, s.now)]
  {
    RunKeepsInv(INIT, steps);
  }

  /** With a clock that never runs backwards, nobody seated joined before the owner. */
  lemma OwnerJoinedFirst(steps: seq<Step>, g: Gid, u: Uid, v: Uid)
    requires var t := Exec(INIT, steps).db; IsOwner(t, g, u) && v in Roster(t, g)
    ensures var t := Exec(INIT, steps).db;
            Seat(g, v) in t.members && t.members[Seat(g, u)].joinedAt <= t.members[Seat(g, v)].joinedAt
  {
    RunKeepsInv(INIT, steps);
    SeatedOnRoster(Exec(INIT, steps).db, g);
  }

  /** No row ever mixes the key of one request with the nonce or wrapper of another. */
  lemma WrapsAreNeverMixed(steps: seq<Step>)
    ensures WrapsFrom(Exec(INIT, steps).db, Exec(INIT, steps).submitted)
  {
    RunKeepsInv(INIT, steps);
  }

  /** If each submitted wrap unwraps, for its target, to its group's key, then so does
      every member's stored copy and every invite's. */
  lemma MembersShareTheGroupKey(steps: seq<Step>, unwrap: Submission -> string, groupKey: Gid -> string)
    requires forall w :: w in Exec(INIT, steps).submitted ==> unwrap(w) == groupKey(w.group)
    ensures var t := Exec(INIT, steps).db;
            && (forall k :: k in t.members ==> unwrap(MemberWrap(k, t.members[k])) == groupKey(k.group))
            && (forall id :: id in t.invites ==> unwrap(InviteWrap(t.invites[id])) == groupKey(t.invites[id].group))
  {
    RunKeepsInv(INIT, steps);
  }

  // ----------------------------------------------- what interleaving destroys

  /** The write of an AddGroupMember keeps rows and groups in step exactly when the group
      is still there at that moment, or the call refuses. */
  lemma InviteWriteKeepsReferentialIff(s: Sys, op: OpId, id: Iid)
    requires Inv(s) && Referential(s.db) && id !in s.issued
    requires op in s.ops && s.ops[op].AddCleared?
    ensures Referential(Apply(s, WriteInvite(op, id)).db) <==> s.ops[op].group in s.db.groups
  {
    var AddCleared(caller, g, target, key, nonce) := s.ops[op];
    var t1 := CreateInvite(s.db, id, g, caller, target, key, nonce, s.now).0;
    assert Apply(s, WriteInvite(op, id)).db == t1;
    match FindInvite(s.db, g, target) {
      case Some(prior) => assert s.db.invites[prior].group == g;
      case None => assert t1.invites[id].group == g;
    }
  }

  /** The state a removal's write leaves. */
  ghost function AfterRemoval(s: Sys, op: OpId, succ: Uid): Tables { Apply(s, WriteRemove(op, succ)).db }

  lemma RemovalIsALeave(s: Sys, op: OpId, succ: Uid)
    requires op in s.ops && s.ops[op].RemoveCleared? && SuccessorOk(s.db, s.ops[op].group, s.ops[op].target, succ)
    ensures AfterRemoval(s, op, succ) == LeaveGroup(s.db, s.ops[op].group, s.ops[op].target, succ).0
  {
  }

  lemma WhoIsLeft(t: Tables, g: Gid, u: Uid)
    ensures Roster(Departed(t, g, u), g) == Roster(t, g) - {u}
  {
    SeatedOnRoster(t, g);
    SeatedOnRoster(Departed(t, g, u), g);
  }

  /** A removal's write dissolves the group exactly when only the target is left. */
  lemma RemovalDeletesIff(s: Sys, op: OpId, succ: Uid)
    requires Inv(s) && op in s.ops && s.ops[op].RemoveCleared?
    requires SuccessorOk(s.db, s.ops[op].group, s.ops[op].target, succ)
    ensures var g, u := s.ops[op].group, s.ops[op].target;
            g in s.db.groups ==> (g !in AfterRemoval(s, op, succ).groups <==> Roster(s.db, g) == {u})
  {
    var g, u := s.ops[op].group, s.ops[op].target;
    RemovalIsALeave(s, op, succ);
    WhoIsLeft(s.db, g, u);
    SeatedOnRoster(s.db, g);
  }

  /** It hands a role on exactly when the target has meanwhile become the owner of a group
      others remain in. */
  lemma RemovalMovesRoleIff(s: Sys, op: OpId, succ: Uid)
    requires Inv(s) && op in s.ops && s.ops[op].RemoveCleared?
    requires SuccessorOk(s.db, s.ops[op].group, s.ops[op].target, succ)
    ensures var g, u := s.ops[op].group, s.ops[op].target;
            (exists v :: v != u && RoleOf(AfterRemoval(s, op, succ), g, v) != RoleOf(s.db, g, v))
            <==> IsOwner(s.db, g, u) && Roster(s.db, g) != {u}
  {
    var g, u := s.ops[op].group, s.ops[op].target;
    var t1 := AfterRemoval(s, op, succ);
    RemovalIsALeave(s, op, succ);
    WhoIsLeft(s.db, g, u);
    SeatedOnRoster(s.db, g);
    if IsOwner(s.db, g, u) && Roster(s.db, g) != {u} {
      SeatedOnRoster(Departed(s.db, g, u), g);
      assert !IsOwner(s.db, g, succ) && IsOwner(t1, g, succ);
      assert succ != u && RoleOf(t1, g, succ) != RoleOf(s.db, g, succ);
    }
  }

  /** Whatever the target has become, no seat of another group is touched. */
  lemma RemovalStaysInItsGroup(s: Sys, op: OpId, succ: Uid, k: Seat)
    requires op in s.ops && s.ops[op].RemoveCleared? && SuccessorOk(s.db, s.ops[op].group, s.ops[op].target, succ)
    requires k.group != s.ops[op].group
    ensures var t1 := AfterRemoval(s, op, succ);
            (k in t1.members <==> k in s.db.members) && (k in t1.members ==> t1.members[k] == s.db.members[k])
  {
    RemovalIsALeave(s, op, succ);
  }

  /** The steps of a creator who adds user 1 and is past the membership check ... */
  function StraddleCheck(): seq<Step> {
    [Create(7, 0, "g", "k", "n", []), BeginAdd(0, 0, 7, "k1", "n1"), ResolveTarget(0, 1), CheckNotMember(0)]
  }

  /** ... when they leave; the invite is still written, and user 1 accepts it. */
  function StraddleLeave(): seq<Step> {
    [Leave(7, 0, 0), WriteInvite(0, 0), Accept(0, 1)]
  }

  lemma {:induction false} ExecConcat(s: Sys, a: seq<Step>, b: seq<Step>)
    ensures Exec(s, a + b) == Exec(Exec(s, a), b)
    decreases |a|
  {
    if a == [] {
      assert a + b == b;
    } else {
      assert (a + b)[1..] == a[1..] + b;
      ExecConcat(Apply(s, a[0]), a[1..], b);
    }
  }

  lemma Exec3(s: Sys, a: Step, b: Step, c: Step)
    ensures Exec(s, [a, b, c]) == Apply(Apply(Apply(s, a), b), c)
  {
    assert [a, b, c][1..] == [b, c] && [b, c][1..] == [c] && [c][1..] == [];
    assert Exec(Apply(s, a), [b, c]) == Exec(Apply(Apply(s, a), b), [c]);
    assert Exec(Apply(Apply(s, a), b), [c]) == Exec(Apply(Apply(Apply(s, a), b), c), []);
  }

  lemma AfterCreate()
    ensures var s1 := Apply(INIT, Create(7, 0, "g", "k", "n", []));
            && s1.db.groups.Keys == {7} && s1.db.members == map[Seat(7, 0) := MemberRow(Owner, "k", "n", 0, 0)]
            && s1.db.invites == map[] && s1.now == 0 && s1.issued == {} && s1.ops == map[]
  {
    var rows := [CreatorRow(0, "k", "n")];
    assert RequestRows(0, "k", "n", []) == Some(rows);
    assert rows[..0] == [];
    assert SeatRows(7, rows[..0], 0) == map[];
  }

  lemma AfterStraddleCheck()
    ensures var s := Exec(INIT, StraddleCheck());
            && s.db.groups.Keys == {7} && s.db.members == map[Seat(7, 0) := MemberRow(Owner, "k", "n", 0, 0)]
            && s.db.invites == map[] && s.now == 0 && s.issued == {}
                 && s.ops == map[0 := AddCleared(0, 7, 1, "k1", "n1")]
  {
    AfterCreate();
    var s1 := Apply(INIT, StraddleCheck()[0]);
    Exec3(s1, StraddleCheck()[1], StraddleCheck()[2], StraddleCheck()[3]);
    assert StraddleCheck()[1..] == [StraddleCheck()[1], StraddleCheck()[2], StraddleCheck()[3]];
    var s2 := Apply(s1, StraddleCheck()[1]);
    assert s2.ops == map[0 := AddAdmitted(0, 7, "k1", "n1")];
    var s3 := Apply(s2, StraddleCheck()[2]);
    assert s3.ops == map[0 := AddResolved(0, 7, 1, "k1", "n1")];
  }

  lemma LastLeaves(t: Tables)
    requires t.groups.Keys == {7} && t.members == map[Seat(7, 0) := MemberRow(Owner, "k", "n", 0, 0)]
             && t.invites == map[]
    ensures SuccessorOk(t, 7, 0, 0) && LeaveGroup(t, 7, 0, 0).0 == EMPTY
  {
    SeatedOnRoster(Departed(t, 7, 0), 7);
    assert Departed(t, 7, 0).members == map[];
  }

  lemma StrayTail(s: Sys)
    requires s.db == EMPTY && s.issued == {} && s.ops == map[0 := AddCleared(0, 7, 1, "k1", "n1")]
    ensures var t := Apply(Apply(s, WriteInvite(0, 0)), Accept(0, 1)).db;
            t.groups == map[] && Seat(7, 1) in t.members && 0 in t.invites
  {
    var s6 := Apply(s, WriteInvite(0, 0));
    assert s6.db.invites == map[0 := InviteRow(7, 0, 1, Pending, "k1", "n1", s.now)] && s6.db.groups == map[];
  }

  /** Referential integrity is lost in this run: user 1 sits in a group that is not there. */
  lemma StrayInviteRun()
    ensures var t := Exec(INIT, StraddleCheck() + StraddleLeave()).db;
            7 !in t.groups && Seat(7, 1) in t.members && 0 in t.invites && !Referential(t)
  {
    AfterStraddleCheck();
    ExecConcat(INIT, StraddleCheck(), StraddleLeave());
    var s4 := Exec(INIT, StraddleCheck());
    LastLeaves(s4.db);
    var s5 := Apply(s4, Leave(7, 0, 0));
    StrayTail(s5);
    Exec3(s4, Leave(7, 0, 0), WriteInvite(0, 0), Accept(0, 1));
    var t := Exec(INIT, StraddleCheck() + StraddleLeave()).db;
    assert Seat(7, 1) in t.members && Seat(7, 1).group == 7;
  }

  /** Owner 0 clears the removal of user 1 but leaves before it is written: user 1, by
      then sole member and owner, is removed all the same and the group goes with them. */
  function StraddleRemoval(): seq<Step> {
    [Create(7, 0, "g", "k", "n", [Entry(Some(1), "k1", "n1")]), BeginRemove(0, 0, 7, 1), CheckRemoveTarget(0)]
  }

  function RemovalAfterLeave(): seq<Step> {
    [Leave(7, 0, 1), WriteRemove(0, 1), Tick(0)]
  }

  lemma AfterCreateWithOne()
    ensures var s1 := Apply(INIT, StraddleRemoval()[0]);
            && s1.db.groups.Keys == {7} && s1.db.invites == map[] && s1.ops == map[]
            && s1.db.members == map[Seat(7, 0) := MemberRow(Owner, "k", "n", 0, 0),
                                    Seat(7, 1) := MemberRow(Regular, "k1", "n1", 0, 0)]
  {
    var first, second := CreatorRow(0, "k", "n"), NewMember(1, Regular, "k1", "n1", 0);
    var entries := [Entry(Some(1), "k1", "n1")];
    assert entries[1..] == [];
    assert [first] + [second] == [first, second];
    assert RowsAfter(0, [first], entries) == RowsAfter(0, [first, second], []);
    assert RequestRows(0, "k", "n", entries) == Some([first, second]);
    assert [first, second][..1] == [first] && [first][..0] == [];
    assert SeatRows(7, [first], 0) ==
           map[Seat(7, 0) := Stamp(first, 0)] by { assert SeatRows(7, [first][..0], 0) == map[]; }
    assert SeatRows(7, [first, second], 0) == map[Seat(7, 0) := Stamp(first, 0), Seat(7, 1) := Stamp(second, 0)];
  }

  lemma PairToOne(t: Tables)
    requires t.groups.Keys == {7} && t.invites == map[]
    requires t.members == map[Seat(7, 0) := MemberRow(Owner, "k", "n", 0, 0),
                              Seat(7, 1) := MemberRow(Regular, "k1", "n1", 0, 0)]
    ensures SuccessorOk(t, 7, 0, 1)
    ensures var t1 := LeaveGroup(t, 7, 0, 1).0;
            && t1.groups == t.groups && t1.invites == map[]
            && t1.members == map[Seat(7, 1) := MemberRow(Owner, "k1", "n1", 0, 0)]
  {
    var t0 := Departed(t, 7, 0);
    assert t0.members == map[Seat(7, 1) := MemberRow(Regular, "k1", "n1", 0, 0)];
    SeatedOnRoster(t0, 7);
  }

  lemma OneToNone(t: Tables)
    requires t.groups.Keys == {7} && t.invites == map[]
    requires t.members == map[Seat(7, 1) := MemberRow(Owner, "k1", "n1", 0, 0)]
    ensures SuccessorOk(t, 7, 1, 1) && LeaveGroup(t, 7, 1, 1).0 == EMPTY
  {
    SeatedOnRoster(Departed(t, 7, 1), 7);
    assert Departed(t, 7, 1).members == map[];
  }

  lemma RoleChangeCleared(s: Sys, op: OpId, g: Gid, caller: Uid, target: Uid, role: Role)
    requires op !in s.ops && MayManage(s.db, g, caller) && role != Owner
    requires RoleOf(s.db, g, target) !in {None, Some(Owner)}
    ensures Apply(Apply(s, BeginRole(op, caller, g, target, role)), CheckRoleTarget(op))
            == s.(ops := s.ops[op := RoleCleared(caller, g, target, role)])
  {
    var s1 := Apply(s, BeginRole(op, caller, g, target, role));
    assert s1 == s.(ops := s.ops[op := RoleAdmitted(caller, g, target, role)]);
  }

  /** Its write, from there. */
  lemma RoleChangeWritten(s: Sys, op: OpId, g: Gid, caller: Uid, target: Uid, role: Role)
    requires op !in s.ops
    ensures Apply(s.(ops := s.ops[op := RoleCleared(caller, g, target, role)]), WriteRole(op))
            == s.(db := UpdateMemberRole(s.db, g, target, role).0)
  {
    assert s.ops[op := RoleCleared(caller, g, target, role)] - {op} == s.ops;
  }

  lemma RegularCleared(s: Sys, g: Gid, caller: Uid, target: Uid)
    requires s.ops == map[] && MayManage(s.db, g, caller) && target != caller
    requires RoleOf(s.db, g, target) == Some(Regular)
    ensures Apply(Apply(s, BeginRemove(0, caller, g, target)), CheckRemoveTarget(0))
            == s.(ops := map[0 := RemoveCleared(caller, g, target, Regular)])
  {
    var s1 := Apply(s, BeginRemove(0, caller, g, target));
    assert s1 == s.(ops := map[0 := RemoveAdmitted(caller, g, target)]);
  }

  lemma AfterStraddleRemoval()
    ensures var s1, s3 := Apply(INIT, StraddleRemoval()[0]), Exec(INIT, StraddleRemoval());
            s3.db == s1.db && s3.ops == map[0 := RemoveCleared(0, 7, 1, Regular)]
  {
    AfterCreateWithOne();
    Exec3(INIT, StraddleRemoval()[0], StraddleRemoval()[1], StraddleRemoval()[2]);
    RegularCleared(Apply(INIT, StraddleRemoval()[0]), 7, 0, 1);
  }

  lemma LastRemoval(s: Sys)
    requires s.ops == map[0 := RemoveCleared(0, 7, 1, Regular)] && s.db.groups.Keys == {7} && s.db.invites == map[]
    requires s.db.members == map[Seat(7, 1) := MemberRow(Owner, "k1", "n1", 0, 0)]
    ensures Apply(Apply(s, WriteRemove(0, 1)), Tick(0)).db == EMPTY
  {
    OneToNone(s.db);
  }

  lemma RemovalTail(s: Sys)
    requires s.ops == map[0 := RemoveCleared(0, 7, 1, Regular)] && s.db.groups.Keys == {7} && s.db.invites == map[]
    requires s.db.members == map[Seat(7, 0) := MemberRow(Owner, "k", "n", 0, 0),
                                 Seat(7, 1) := MemberRow(Regular, "k1", "n1", 0, 0)]
    ensures var mid := Exec(s, [Leave(7, 0, 1)]).db; IsOwner(mid, 7, 1) && 7 in mid.groups
    ensures Exec(s, RemovalAfterLeave()).db == EMPTY
  {
    PairToOne(s.db);
    var s4 := Apply(s, Leave(7, 0, 1));
    LastRemoval(s4);
    Exec3(s, Leave(7, 0, 1), WriteRemove(0, 1), Tick(0));
    assert [Leave(7, 0, 1)][1..] == [];
    assert Exec(s, [Leave(7, 0, 1)]) == Exec(s4, []);
  }

  /** A removal does delete a group in this run, and removes its owner. */
  lemma RemovalDeletesGroupRun()
    ensures var before := Exec(INIT, StraddleRemoval() + [Leave(7, 0, 1)]).db;
            IsOwner(before, 7, 1) && 7 in before.groups
    ensures Exec(INIT, StraddleRemoval() + RemovalAfterLeave()).db == EMPTY
  {
    AfterCreateWithOne();
    AfterStraddleRemoval();
    RemovalTail(Exec(INIT, StraddleRemoval()));
    ExecConcat(INIT, StraddleRemoval(), [Leave(7, 0, 1)]);
    ExecConcat(INIT, StraddleRemoval(), RemovalAfterLeave());
  }
}
