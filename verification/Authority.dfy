/** Who stood behind what an interleaved run did: each invite, each wrapped key, each role
    change and each removal, given that every check may be out of date when it is used. */
module Authority {
  import opened Basics
  import opened GroupTables
  import opened GroupInvariants
  import opened Interleaved
  import opened InterleavedRuns

  // ------------------------------------------------------- invites and wraps

  /** At some moment of the run u was owner or admin of g. */
  ghost predicate WasManager(steps: seq<Step>, g: Gid, u: Uid) {
    exists k :: 0 <= k <= |steps|
                && var t := At(INIT, steps, k).db;
                   Seat(g, u) in t.members && t.members[Seat(g, u)].role in {Owner, Admin}
  }

  /** Whoever submitted a wrap, or is about to, managed the group at some moment. */
  ghost predicate Entitled(s: Sys, steps: seq<Step>) {
    && (forall w :: w in s.submitted ==> WasManager(steps, w.group, w.wrapper))
    && (forall op :: op in s.ops && s.ops[op].AddAdmitted? ==> WasManager(steps, s.ops[op].group, s.ops[op].caller))
  }

  lemma CreateEntitled(s: Sys, g: Gid, caller: Uid, name: string, key: string, nonce: string, entries: seq<Entry>,
                       steps: seq<Step>)
    requires DbOk(s) && Entitled(s, steps)
    requires var s1 := ApplyCreate(s, g, caller, name, key, nonce, entries);
             forall u :: MayManage(s1.db, g, u) ==> WasManager(steps, g, u)
    ensures Entitled(ApplyCreate(s, g, caller, name, key, nonce, entries), steps)
  {
    var rows := RequestRows(caller, key, nonce, entries);
    if g !in s.used && rows.Some? {
      RowsAfterFounds(caller, [CreatorRow(caller, key, nonce)], entries);
      CreateShape(s.db, g, name, caller, rows.value, s.now);
      var s1 := ApplyCreate(s, g, caller, name, key, nonce, entries);
      assert IsOwner(s1.db, g, caller);
    }
  }

  lemma HandlerEntitled(s: Sys, step: Step, o: Op, steps: seq<Step>)
    requires Entitled(s, steps) && OfHandler(step) && step.op in s.ops && s.ops[step.op] == o
    ensures Entitled(Advance(s, step, o), steps)
  {
    if o.AddAdmitted? {
      assert WasManager(steps, o.group, o.caller);
    } else {
      assert Advance(s, step, o).submitted == s.submitted;
    }
  }

  lemma StepEntitled(s: Sys, step: Step, s1: Sys, steps: seq<Step>)
    requires DbOk(s) && Entitled(s, steps) && s1 == Apply(s, step)
    requires forall g, u :: MayManage(s.db, g, u) ==> WasManager(steps, g, u)
    requires forall g, u :: MayManage(s1.db, g, u) ==> WasManager(steps, g, u)
    ensures Entitled(s1, steps)
  {
    if step.Create? {
      CreateEntitled(s, step.g, step.caller, step.name, step.key, step.nonce, step.entries, steps);
    } else if step.BeginAdd? {
      assert s1.submitted == s.submitted && (s1 == s || MayManage(s.db, step.g, step.caller));
    } else if step.BeginRole? || step.BeginRemove? || step.Abort? {
      assert s1.submitted == s.submitted;
    } else if step.Tick? || step.Rename? || step.Accept? || step.Decline? || step.Leave? {
      assert s1.submitted == s.submitted && s1.ops == s.ops;
    } else if step.op in s.ops {
      HandlerEntitled(s, step, s.ops[step.op], steps);
    }
  }

  /** In every interleaving the inviter on each invite, and whoever wrapped the key on each
      seat, was owner or admin of that group at some moment of the run. */
  lemma InvitersWereManagers(steps: seq<Step>)
    ensures var t := Exec(INIT, steps).db;
            && (forall id :: id in t.invites ==> WasManager(steps, t.invites[id].group, t.invites[id].fromUser))
            && (forall k :: k in t.members ==> WasManager(steps, k.group, t.members[k].wrappedBy))
  {
    for k := 0 to |steps|
      invariant Entitled(At(INIT, steps, k), steps)
    {
      RunKeepsInv(INIT, steps[..k]);
      AtNext(INIT, steps, k);
      StepEntitled(At(INIT, steps, k), steps[k], At(INIT, steps, k + 1), steps);
    }
    AtEnd(INIT, steps);
    RunKeepsInv(INIT, steps);
    var s := Exec(INIT, steps);
    forall id | id in s.db.invites ensures WasManager(steps, s.db.invites[id].group, s.db.invites[id].fromUser) {
      assert InviteWrap(s.db.invites[id]) in s.submitted;
    }
    forall k | k in s.db.members ensures WasManager(steps, k.group, s.db.members[k].wrappedBy) {
      assert MemberWrap(k, s.db.members[k]) in s.submitted;
    }
  }

  // ------------------------------------------------ role changes and removals

  ghost function RoleAt(steps: seq<Step>, j: nat, g: Gid, u: Uid): Option<Role>
    requires j <= |steps|
  {
    RoleOf(At(INIT, steps, j).db, g, u)
  }

  /** By moment k, u had been owner or admin of g. */
  ghost predicate Admitted(steps: seq<Step>, k: nat, g: Gid, u: Uid)
    requires k <= |steps|
  {
    exists i :: 0 <= i <= k
                && var t := At(INIT, steps, i).db;
                   Seat(g, u) in t.members && t.members[Seat(g, u)].role in {Owner, Admin}
  }

  lemma AdmittedRole(steps: seq<Step>, k: nat, g: Gid, u: Uid)
    requires k <= |steps| && Admitted(steps, k, g, u)
    ensures exists i :: 0 <= i <= k && RoleAt(steps, i, g, u) in {Some(Owner), Some(Admin)}
  {
    var i :| 0 <= i <= k && var t := At(INIT, steps, i).db;
             Seat(g, u) in t.members && t.members[Seat(g, u)].role in {Owner, Admin};
    assert RoleAt(steps, i, g, u) in {Some(Owner), Some(Admin)};
  }

  /** By moment k, caller had managed g, and then target had held role in it. */
  ghost predicate Saw(steps: seq<Step>, k: nat, caller: Uid, g: Gid, target: Uid, role: Role)
    requires k <= |steps|
  {
    exists j :: 0 <= j <= k && RoleAt(steps, j, g, target) == Some(role) && Admitted(steps, j, g, caller)
  }

  /** By moment k, caller had managed g, then target had been an admin, and then caller the owner. */
  ghost predicate SawAsOwner(steps: seq<Step>, k: nat, caller: Uid, g: Gid, target: Uid)
    requires k <= |steps|
  {
    exists l :: 0 <= l <= k && IsOwner(At(INIT, steps, l).db, g, caller) && Saw(steps, l, caller, g, target, Admin)
  }

  /** What the checks behind a parked role change or removal had found by moment k. */
  ghost predicate Backed(steps: seq<Step>, k: nat, o: Op)
    requires k <= |steps|
  {
    match o
    case RoleAdmitted(caller, g, _, role) => role != Owner && Admitted(steps, k, g, caller)
    case RoleCleared(caller, g, target, role) =>
      role != Owner && (Saw(steps, k, caller, g, target, Admin) || Saw(steps, k, caller, g, target, Regular))
    case RemoveAdmitted(caller, g, target) => target != caller && Admitted(steps, k, g, caller)
    case RemoveAdminSeen(caller, g, target) => target != caller && Saw(steps, k, caller, g, target, Admin)
    case RemoveCleared(caller, g, target, seen) =>
      target != caller && (if seen == Regular then Saw(steps, k, caller, g, target, Regular)
                           else seen == Admin && SawAsOwner(steps, k, caller, g, target))
    case _ => true
  }

  lemma BackedLater(steps: seq<Step>, k: nat, o: Op)
    requires k < |steps| && Backed(steps, k, o)
    ensures Backed(steps, k + 1, o)
  {
  }

  /** A handler's first check. */
  lemma BeginBacked(steps: seq<Step>, k: nat)
    requires k < |steps| && (steps[k].BeginRole? || steps[k].BeginRemove?)
    ensures var s, step := At(INIT, steps, k), steps[k];
            step.op !in s.ops && step.op in Apply(s, step).ops ==> Backed(steps, k, Apply(s, step).ops[step.op])
  {
  }

  lemma SawNow(steps: seq<Step>, k: nat, caller: Uid, g: Gid, target: Uid, role: Role)
    requires k <= |steps| && Admitted(steps, k, g, caller) && RoleAt(steps, k, g, target) == Some(role)
    ensures Saw(steps, k, caller, g, target, role)
  {
  }

  lemma NoFourthRole(r: Option<Role>)
    ensures r in {None, Some(Owner), Some(Admin), Some(Regular)}
  {
    match r {
      case None =>
      case Some(role) => match role { case Owner => case Admin => case Regular => }
    }
  }

  lemma TargetCheckBacked(steps: seq<Step>, k: nat, caller: Uid, g: Gid, target: Uid)
    requires k <= |steps| && Admitted(steps, k, g, caller)
    ensures RoleAt(steps, k, g, target) == Some(Admin) ==> Saw(steps, k, caller, g, target, Admin)
    ensures RoleAt(steps, k, g, target) == Some(Regular) ==> Saw(steps, k, caller, g, target, Regular)
  {
    if RoleAt(steps, k, g, target) == Some(Admin) { SawNow(steps, k, caller, g, target, Admin); }
    if RoleAt(steps, k, g, target) == Some(Regular) { SawNow(steps, k, caller, g, target, Regular); }
  }

  lemma RoleCheckBacked(steps: seq<Step>, k: nat, step: Step, o: Op)
    requires k <= |steps| && OfHandler(step) && (o.RoleAdmitted? || o.RoleCleared?) && Backed(steps, k, o)
    requires step.op in At(INIT, steps, k).ops && At(INIT, steps, k).ops[step.op] == o
    ensures var s1 := AdvanceRole(At(INIT, steps, k), step, o); step.op in s1.ops ==> Backed(steps, k, s1.ops[step.op])
  {
    if o.RoleAdmitted? {
      TargetCheckBacked(steps, k, o.caller, o.group, o.target);
      NoFourthRole(RoleAt(steps, k, o.group, o.target));
    }
  }

  lemma RemoveCheckBacked(steps: seq<Step>, k: nat, step: Step, o: Op)
    requires k <= |steps| && OfHandler(step) && Backed(steps, k, o)
    requires o.RemoveAdmitted? || o.RemoveAdminSeen? || o.RemoveCleared?
    requires step.op in At(INIT, steps, k).ops && At(INIT, steps, k).ops[step.op] == o
    ensures var s1 := AdvanceRemove(At(INIT, steps, k), step, o);
            step.op in s1.ops ==> Backed(steps, k, s1.ops[step.op])
  {
    if o.RemoveAdmitted? {
      TargetCheckBacked(steps, k, o.caller, o.group, o.target);
      NoFourthRole(RoleAt(steps, k, o.group, o.target));
    } else if o.RemoveAdminSeen? && RoleAt(steps, k, o.group, o.caller) == Some(Owner) {
      assert IsOwner(At(INIT, steps, k).db, o.group, o.caller);
    }
  }

  /** Its next check, made at moment k. */
  lemma CheckBacked(steps: seq<Step>, k: nat, step: Step, o: Op)
    requires k <= |steps| && OfHandler(step) && Backed(steps, k, o)
    requires step.op in At(INIT, steps, k).ops && At(INIT, steps, k).ops[step.op] == o
    ensures var s1 := Advance(At(INIT, steps, k), step, o); step.op in s1.ops ==> Backed(steps, k, s1.ops[step.op])
  {
    if o.RoleAdmitted? || o.RoleCleared? {
      RoleCheckBacked(steps, k, step, o);
    } else if o.RemoveAdmitted? || o.RemoveAdminSeen? || o.RemoveCleared? {
      RemoveCheckBacked(steps, k, step, o);
    }
  }

  /** Handlers other than the one that takes the step stay parked as they are. */
  lemma OthersStayParked(s: Sys, step: Step, op: OpId)
    requires op in Apply(s, step).ops
    ensures (op in s.ops && Apply(s, step).ops[op] == s.ops[op]) || (OfHandler(step) && !step.Abort? && step.op == op)
  {
  }

  ghost predicate AllBacked(steps: seq<Step>, k: nat)
    requires k <= |steps|
  {
    var s := At(INIT, steps, k);
    forall op :: op in s.ops ==> Backed(steps, k, s.ops[op])
  }

  lemma StepBacked(steps: seq<Step>, k: nat)
    requires k < |steps| && AllBacked(steps, k)
    ensures AllBacked(steps, k + 1)
  {
    var s, s1, step := At(INIT, steps, k), At(INIT, steps, k + 1), steps[k];
    AtNext(INIT, steps, k);
    forall op | op in s1.ops ensures Backed(steps, k + 1, s1.ops[op]) {
      OthersStayParked(s, step, op);
      if !(op in s.ops && s1.ops[op] == s.ops[op]) {
        if step.BeginRole? || step.BeginRemove? {
          BeginBacked(steps, k);
        } else if !step.BeginAdd? && op in s.ops {
          CheckBacked(steps, k, step, s.ops[op]);
        }
      }
      BackedLater(steps, k, s1.ops[op]);
    }
  }

  lemma RunBacked(steps: seq<Step>, op: OpId)
    requires op in Exec(INIT, steps).ops
    ensures Backed(steps, |steps|, Exec(INIT, steps).ops[op])
  {
    for k := 0 to |steps|
      invariant AllBacked(steps, k)
    {
      StepBacked(steps, k);
    }
    AtEnd(INIT, steps);
  }

  /** In every interleaving a role about to be written is not owner, and was cleared by
      somebody who had managed the group, against somebody who was then seated in it and not
      its owner. */
  lemma RoleChangesWereCleared(steps: seq<Step>, op: OpId)
    requires op in Exec(INIT, steps).ops && Exec(INIT, steps).ops[op].RoleCleared?
    ensures var RoleCleared(caller, g, target, role) := Exec(INIT, steps).ops[op];
            && role != Owner
            && exists i, j :: 0 <= i <= j <= |steps|
                              && RoleAt(steps, i, g, caller) in {Some(Owner), Some(Admin)}
                              && RoleAt(steps, j, g, target) in {Some(Admin), Some(Regular)}
  {
    RunBacked(steps, op);
    var o := Exec(INIT, steps).ops[op];
    var role := if Saw(steps, |steps|, o.caller, o.group, o.target, Admin) then Admin else Regular;
    var j :| 0 <= j <= |steps| && RoleAt(steps, j, o.group, o.target) == Some(role)
        && Admitted(steps, j, o.group, o.caller);
    AdmittedRole(steps, j, o.group, o.caller);
    var i :| 0 <= i <= j && RoleAt(steps, i, o.group, o.caller) in {Some(Owner), Some(Admin)};
  }

  /** In every interleaving a removal about to be written was cleared by somebody else who had
      managed the group, against somebody who then held the role the handler remembers, not
      owner; and if that was admin, the remover was the owner after that. */
  lemma RemovalsWereCleared(steps: seq<Step>, op: OpId)
    requires op in Exec(INIT, steps).ops && Exec(INIT, steps).ops[op].RemoveCleared?
    ensures var RemoveCleared(caller, g, target, seen) := Exec(INIT, steps).ops[op];
            && target != caller && seen != Owner
            && exists i, j, l :: 0 <= i <= j <= l <= |steps|
                                 && RoleAt(steps, i, g, caller) in {Some(Owner), Some(Admin)}
                                 && RoleAt(steps, j, g, target) == Some(seen)
                                 && (seen == Admin ==> IsOwner(At(INIT, steps, l).db, g, caller))
  {
    RunBacked(steps, op);
    var RemoveCleared(caller, g, target, seen) := Exec(INIT, steps).ops[op];
    var l := |steps|;
    if seen == Admin {
      l :| 0 <= l <= |steps| && IsOwner(At(INIT, steps, l).db, g, caller) && Saw(steps, l, caller, g, target, Admin);
    }
    var j :| 0 <= j <= l && RoleAt(steps, j, g, target) == Some(seen) && Admitted(steps, j, g, caller);
    AdmittedRole(steps, j, g, caller);
    var i :| 0 <= i <= j && RoleAt(steps, i, g, caller) in {Some(Owner), Some(Admin)};
    assert IsOwner(At(INIT, steps, l).db, g, caller) || seen != Admin;
  }

  // --------------------------------------------------- admins nobody saw

  /** The write of a role change that makes u an admin of g. */
  ghost predicate Promotes(s: Sys, step: Step, g: Gid, u: Uid) {
    && step.WriteRole? && step.op in s.ops && s.ops[step.op].RoleCleared?
    && s.ops[step.op].group == g && s.ops[step.op].target == u && s.ops[step.op].role == Admin
    && RoleOf(s.db, g, u) == Some(Regular)
  }

  /** A departure of who from g takes v's admin role: v goes, or succeeds the owner. */
  ghost predicate DepartureTakes(t: Tables, g: Gid, who: Uid, succ: Uid, v: Uid) {
    SuccessorOk(t, g, who, succ) && (v == who || (IsOwner(t, g, who) && v == succ))
  }

  /** A step after which u, an admin of g before, no longer is. */
  ghost predicate TakesAdmin(s: Sys, step: Step, g: Gid, u: Uid) {
    match step
    case Leave(h, who, succ) => h == g && DepartureTakes(s.db, g, who, succ, u)
    case WriteRole(op) =>
      op in s.ops && s.ops[op].RoleCleared? && s.ops[op].group == g && s.ops[op].target == u && s.ops[op].role != Admin
    case WriteRemove(op, succ) =>
      op in s.ops && s.ops[op].RemoveCleared? && s.ops[op].group == g
          && DepartureTakes(s.db, g, s.ops[op].target, succ, u)
    case _ => false
  }

  lemma LeaveMovesAdmins(t: Tables, h: Gid, who: Uid, succ: Uid, g: Gid, u: Uid)
    requires SuccessorOk(t, h, who, succ)
    ensures RoleOf(LeaveGroup(t, h, who, succ).0, g, u) == Some(Admin)
            <==> RoleOf(t, g, u) == Some(Admin) && !(h == g && DepartureTakes(t, g, who, succ, u))
  {
    SeatedOnRoster(Departed(t, h, who), h);
  }

  lemma CreateMovesNoAdmin(s: Sys, h: Gid, caller: Uid, name: string, key: string, nonce: string, entries: seq<Entry>,
                           g: Gid, u: Uid)
    requires DbOk(s)
    ensures RoleOf(ApplyCreate(s, h, caller, name, key, nonce, entries).db, g, u) == Some(Admin) <==>
            RoleOf(s.db, g, u) == Some(Admin)
  {
    var rows := RequestRows(caller, key, nonce, entries);
    if h !in s.used && rows.Some? {
      RowsAfterFounds(caller, [CreatorRow(caller, key, nonce)], entries);
      CreateShape(s.db, h, name, caller, rows.value, s.now);
    }
  }

  /** One step makes u an admin of g exactly if it is the write of a promotion, and ends that
      exactly if it demotes, removes or promotes them to owner. */
  lemma StepMovesAdmins(s: Sys, step: Step, g: Gid, u: Uid)
    requires Inv(s)
    ensures RoleOf(s.db, g, u) != Some(Admin) ==>
            (RoleOf(Apply(s, step).db, g, u) == Some(Admin) <==> Promotes(s, step, g, u))
    ensures RoleOf(s.db, g, u) == Some(Admin) ==>
            (RoleOf(Apply(s, step).db, g, u) == Some(Admin) <==> !TakesAdmin(s, step, g, u))
  {
    if step.Create? {
      CreateMovesNoAdmin(s, step.g, step.caller, step.name, step.key, step.nonce, step.entries, g, u);
    } else if step.Leave? {
      if SuccessorOk(s.db, step.g, step.user, step.succ) { LeaveMovesAdmins(s.db, step.g, step.user, step.succ, g, u); }
    } else if step.Tick? || step.Rename? || step.Decline? || step.BeginAdd? || step.BeginRole? || step.BeginRemove?
        || step.Abort? {
      assert Apply(s, step).db.members == s.db.members;
    } else if step.Accept? {
      AcceptMovesNoAdmin(s.db, step.id, step.user, s.now, g, u);
    } else if step.op in s.ops {
      HandlerMovesAdmins(s, step, s.ops[step.op], g, u);
    }
  }

  lemma AcceptMovesNoAdmin(t: Tables, id: Iid, v: Uid, now: Time, g: Gid, u: Uid)
    ensures RoleOf(AcceptInvite(t, id, v, now).0, g, u) == Some(Admin) <==> RoleOf(t, g, u) == Some(Admin)
  {
  }

  lemma HandlerMovesAdmins(s: Sys, step: Step, o: Op, g: Gid, u: Uid)
    requires OfHandler(step) && step.op in s.ops && s.ops[step.op] == o
    requires !step.BeginAdd? && !step.BeginRole? && !step.BeginRemove? && !step.Abort?
    ensures var yes := RoleOf(Advance(s, step, o).db, g, u) == Some(Admin);
            if RoleOf(s.db, g, u) == Some(Admin) then yes <==> !TakesAdmin(s, step, g, u)
            else yes <==> Promotes(s, step, g, u)
  {
    HandlerWrites(s, step, o);
    if step.WriteRemove? && o.RemoveCleared? && SuccessorOk(s.db, o.group, o.target, step.succ) {
      LeaveMovesAdmins(s.db, o.group, o.target, step.succ, g, u);
    }
  }

  /** After moment j a promotion of u was written, and nothing since took the role away. */
  ghost predicate PromotedSince(steps: seq<Step>, j: nat, k: nat, g: Gid, u: Uid)
    requires k <= |steps|
  {
    exists m :: j <= m < k && Promotes(At(INIT, steps, m), steps[m], g, u)
                && forall n :: m < n < k ==> !TakesAdmin(At(INIT, steps, n), steps[n], g, u)
  }

  /** Somebody who is no admin at moment j is one at k exactly if promoted in between for good. */
  lemma {:induction false} AdminIffPromoted(steps: seq<Step>, j: nat, k: nat, g: Gid, u: Uid)
    requires j <= k <= |steps| && RoleAt(steps, j, g, u) != Some(Admin)
    ensures RoleAt(steps, k, g, u) == Some(Admin) <==> PromotedSince(steps, j, k, g, u)
  {
    if j < k {
      AdminIffPromoted(steps, j, k - 1, g, u);
      AdminNext(steps, k - 1, g, u);
      PromotedNext(steps, j, k - 1, g, u);
    }
  }

  lemma AdminNext(steps: seq<Step>, k: nat, g: Gid, u: Uid)
    requires k < |steps|
    ensures var s := At(INIT, steps, k);
            if RoleAt(steps, k, g, u) == Some(Admin)
            then RoleAt(steps, k + 1, g, u) == Some(Admin) <==> !TakesAdmin(s, steps[k], g, u)
            else RoleAt(steps, k + 1, g, u) == Some(Admin) <==> Promotes(s, steps[k], g, u)
  {
    RunKeepsInv(INIT, steps[..k]);
    AtNext(INIT, steps, k);
    StepMovesAdmins(At(INIT, steps, k), steps[k], g, u);
  }

  lemma PromotedNext(steps: seq<Step>, j: nat, k: nat, g: Gid, u: Uid)
    requires j <= k < |steps|
    ensures PromotedSince(steps, j, k + 1, g, u) <==>
            Promotes(At(INIT, steps, k), steps[k], g, u)
            || (PromotedSince(steps, j, k, g, u) && !TakesAdmin(At(INIT, steps, k), steps[k], g, u))
  {
  }

  /** A removal whose remover was never seen as owner takes an admin exactly if its target,
      a regular member when it was checked, was promoted between then and the write. */
  lemma RemovalTakesUnseenAdminIff(steps: seq<Step>, op: OpId, succ: Uid)
    requires op in Exec(INIT, steps).ops && Exec(INIT, steps).ops[op].RemoveCleared?
             && Exec(INIT, steps).ops[op].seen == Regular
    requires var s := Exec(INIT, steps); SuccessorOk(s.db, s.ops[op].group, s.ops[op].target, succ)
    ensures var s := Exec(INIT, steps); var g, target := s.ops[op].group, s.ops[op].target;
            && Seat(g, target) !in Apply(s, WriteRemove(op, succ)).db.members
            && exists j :: 0 <= j <= |steps| && RoleAt(steps, j, g, target) == Some(Regular)
                           && (RoleOf(s.db, g, target) == Some(Admin) <==> PromotedSince(steps, j, |steps|, g, target))
  {
    RunBacked(steps, op);
    var s := Exec(INIT, steps);
    var g, target := s.ops[op].group, s.ops[op].target;
    var j :| 0 <= j <= |steps| && RoleAt(steps, j, g, target) == Some(Regular)
        && Admitted(steps, j, g, s.ops[op].caller);
    AdminIffPromoted(steps, j, |steps|, g, target);
    AtEnd(INIT, steps);
    RemovalIsALeave(s, op, succ);
    if Seat(g, target) in s.db.members { LeaveShape(s.db, g, target, succ); }
  }

  // -------------------------------------------------------- such a removal

  /** The three calls that make u an admin, by op. */
  function Promotion(op: OpId, caller: Uid, g: Gid, u: Uid): seq<Step> {
    [BeginRole(op, caller, g, u, Admin), CheckRoleTarget(op), WriteRole(op)]
  }

  lemma PromotionRuns(s: Sys, op: OpId, caller: Uid, g: Gid, u: Uid)
    requires op !in s.ops && MayManage(s.db, g, caller) && RoleOf(s.db, g, u) == Some(Regular)
    ensures Exec(s, Promotion(op, caller, g, u)) == s.(db := SetRole(s.db, g, u, Admin))
  {
    Exec3(s, BeginRole(op, caller, g, u, Admin), CheckRoleTarget(op), WriteRole(op));
    RoleChangeCleared(s, op, g, caller, u, Admin);
    RoleChangeWritten(s, op, g, caller, u, Admin);
  }

  function Founding(): seq<Step> {
    [Create(7, 0, "g", "k", "n", [Entry(Some(1), "k1", "n1"), Entry(Some(2), "k2", "n2")])]
  }

  function Clearing(): seq<Step> { [BeginRemove(1, 1, 7, 2), CheckRemoveTarget(1), Tick(0)] }

  /** The batch of that request. */
  function FoundingBatch(): seq<NewMember> {
    [CreatorRow(0, "k", "n"), NewMember(1, Regular, "k1", "n1", 0), NewMember(2, Regular, "k2", "n2", 0)]
  }

  lemma FoundingIsBatch()
    ensures RequestRows(0, "k", "n", [Entry(Some(1), "k1", "n1"), Entry(Some(2), "k2", "n2")]) == Some(FoundingBatch())
  {
    var entries := [Entry(Some(1), "k1", "n1"), Entry(Some(2), "k2", "n2")];
    var a, b, c := FoundingBatch()[0], FoundingBatch()[1], FoundingBatch()[2];
    assert entries[1..] == [Entry(Some(2), "k2", "n2")] && entries[1..][1..] == [];
    assert [a] + [b] == [a, b] && [a, b] + [c] == [a, b, c];
    assert RowsAfter(0, [a, b], entries[1..]) == RowsAfter(0, [a, b, c], entries[1..][1..]);
    assert RequestRows(0, "k", "n", entries) == RowsAfter(0, [a, b], entries[1..]);
  }

  lemma AfterFounding()
    ensures var s := Exec(INIT, Founding());
            && s.ops == map[] && IsOwner(s.db, 7, 0)
            && RoleOf(s.db, 7, 1) == Some(Regular) && RoleOf(s.db, 7, 2) == Some(Regular)
  {
    FoundingIsBatch();
    SeatRowsAt(7, FoundingBatch(), 0);
    assert FoundingBatch()[0].user == 0 && FoundingBatch()[1].user == 1 && FoundingBatch()[2].user == 2;
    assert Founding()[1..] == [];
    assert Exec(INIT, Founding()) == Exec(Apply(INIT, Founding()[0]), []);
  }

  lemma AfterClearing(s: Sys)
    requires s.ops == map[] && RoleOf(s.db, 7, 1) == Some(Admin) && RoleOf(s.db, 7, 2) == Some(Regular)
    ensures Exec(s, Clearing()) == s.(ops := map[1 := RemoveCleared(1, 7, 2, Regular)])
  {
    Exec3(s, BeginRemove(1, 1, 7, 2), CheckRemoveTarget(1), Tick(0));
    var s1 := Apply(s, BeginRemove(1, 1, 7, 2));
    assert s1 == s.(ops := map[1 := RemoveAdmitted(1, 7, 2)]);
  }

  /** In this run an admin removes another admin: the owner promotes user 2 between the
      checks of admin 1's removal and its write. */
  lemma AdminRemovesAdminRun()
    ensures var s := Exec(INIT, Founding() + Promotion(0, 0, 7, 1) + Clearing() + Promotion(0, 0, 7, 2));
            && RoleOf(s.db, 7, 1) == Some(Admin) && RoleOf(s.db, 7, 2) == Some(Admin)
            && SuccessorOk(s.db, 7, 2, 0)
            && s.ops == map[1 := RemoveCleared(1, 7, 2, Regular)]
            && Seat(7, 2) !in Apply(s, WriteRemove(1, 0)).db.members
  {
    AfterFounding();
    var s1 := Exec(INIT, Founding());
    PromotionRuns(s1, 0, 0, 7, 1);
    var s2 := Exec(s1, Promotion(0, 0, 7, 1));
    AfterClearing(s2);
    var s3 := Exec(s2, Clearing());
    PromotionRuns(s3, 0, 0, 7, 2);
    var s4 := Exec(s3, Promotion(0, 0, 7, 2));
    ExecConcat(INIT, Founding(), Promotion(0, 0, 7, 1));
    ExecConcat(INIT, Founding() + Promotion(0, 0, 7, 1), Clearing());
    ExecConcat(INIT, Founding() + Promotion(0, 0, 7, 1) + Clearing(), Promotion(0, 0, 7, 2));
    RemovalIsALeave(s4, 1, 0);
    LeaveShape(s4.db, 7, 2, 0);
  }
}
