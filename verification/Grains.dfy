/** The two grains agree: what handlers do one at a time, they also do as repository calls
    run back to back. Every theorem about interleaved runs therefore covers atomic ones. */
module Grains {
  import opened Basics
  import opened GroupTables
  import A = AtomicHandlers
  import B = Interleaved

  /** Same tables and clock, no handler in flight, and no group id known only below. */
  ghost predicate Matches(w: A.World, s: B.Sys) {
    s.db == w.db && s.now == w.now && s.used <= w.used && s.issued <= w.issued && s.ops == map[]
  }

  /** The repository calls a request makes when nothing comes between them. */
  function Calls(w: A.World, step: A.Step): seq<B.Step>
    requires A.Possible(w, step)
  {
    match step
    case Tick(n) => [B.Tick(n)]
    case Register(_) => []
    case GroupFrame(_, _, _, _) => []
    case Create(g, caller, name, key, nonce, entries) => [B.Create(g, caller, name, key, nonce, entries)]
    case Rename(g, caller, name) => if Seat(g, caller) in w.db.members then [B.Rename(g, name)] else []
    case Accept(id, caller) => [B.Accept(id, caller)]
    case Decline(id, caller) => [B.Decline(id, caller)]
    case Leave(g, caller, succ) => [B.Leave(g, caller, succ)]
    case AddMember(id, g, caller, found, key, nonce) =>
      if A.MayInvite(w.db, g, caller, found, key, nonce)
      then [B.BeginAdd(0, caller, g, key, nonce), B.ResolveTarget(0, found.value), B.CheckNotMember(0),
          B.WriteInvite(0, id)]
      else []
    case UpdateRole(g, caller, target, role) =>
      if MayManage(w.db, g, caller) && role != Owner && RoleOf(w.db, g, target) !in {None, Some(Owner)}
      then [B.BeginRole(0, caller, g, target, role), B.CheckRoleTarget(0), B.WriteRole(0)]
      else []
    case Remove(g, caller, target, succ) =>
      if !MayManage(w.db, g, caller) || target == caller then []
      else match RoleOf(w.db, g, target)
        case Some(Regular) => [B.BeginRemove(0, caller, g, target), B.CheckRemoveTarget(0), B.WriteRemove(0, succ)]
        case Some(Admin) =>
          if RoleOf(w.db, g, caller) == Some(Owner)
          then [B.BeginRemove(0, caller, g, target), B.CheckRemoveTarget(0), B.CheckRemoveCaller(0),
            B.WriteRemove(0, succ)]
          else []
        case _ => []
  }

  lemma Exec1(s: B.Sys, a: B.Step)
    ensures B.Exec(s, [a]) == B.Apply(s, a)
  {
    assert [a][1..] == [];
    assert B.Exec(s, [a]) == B.Exec(B.Apply(s, a), []);
  }

  lemma Exec4(s: B.Sys, a: B.Step, b: B.Step, c: B.Step, d: B.Step)
    ensures B.Exec(s, [a, b, c, d]) == B.Apply(B.Apply(B.Apply(B.Apply(s, a), b), c), d)
  {
    assert [a, b, c, d][1..] == [b, c, d];
    B.Exec3(B.Apply(s, a), b, c, d);
  }

  lemma AddMemberCleared(s: B.Sys, g: Gid, caller: Uid, target: Uid, key: string, nonce: string)
    requires s.ops == map[] && A.MayInvite(s.db, g, caller, Some(target), key, nonce)
    ensures var s3 := B.Apply(B.Apply(B.Apply(s, B.BeginAdd(0, caller, g, key, nonce)), B.ResolveTarget(0, target)),
            B.CheckNotMember(0));
            s3 == s.(ops := map[0 := B.AddCleared(caller, g, target, key, nonce)], submitted := s3.submitted)
  {
    var s1 := B.Apply(s, B.BeginAdd(0, caller, g, key, nonce));
    assert s1 == s.(ops := map[0 := B.AddAdmitted(caller, g, key, nonce)]);
    var s2 := B.Apply(s1, B.ResolveTarget(0, target));
    assert s2.ops == map[0 := B.AddResolved(caller, g, target, key, nonce)];
  }

  lemma AddMemberCalls(s: B.Sys, id: Iid, g: Gid, caller: Uid, found: Option<Uid>, key: string, nonce: string)
    requires s.ops == map[] && id !in s.issued && A.MayInvite(s.db, g, caller, found, key, nonce)
    ensures var s1 := B.Exec(s, [B.BeginAdd(0, caller, g, key, nonce), B.ResolveTarget(0, found.value),
            B.CheckNotMember(0), B.WriteInvite(0, id)]);
            && s1.db == A.AddMemberReply(s.db, id, g, caller, found, key, nonce, s.now).db
            && s1.now == s.now && s1.used == s.used && s1.issued == s.issued + {id} && s1.ops == map[]
  {
    Exec4(s, B.BeginAdd(0, caller, g, key, nonce), B.ResolveTarget(0, found.value), B.CheckNotMember(0),
        B.WriteInvite(0, id));
    AddMemberCleared(s, g, caller, found.value, key, nonce);
  }

  lemma UpdateRoleCalls(s: B.Sys, g: Gid, caller: Uid, target: Uid, role: Role)
    requires s.ops == map[] && MayManage(s.db, g, caller) && role != Owner
             && RoleOf(s.db, g, target) !in {None, Some(Owner)}
    ensures var s1 := B.Exec(s, [B.BeginRole(0, caller, g, target, role), B.CheckRoleTarget(0), B.WriteRole(0)]);
            && s1.db == A.UpdateRoleReply(s.db, g, caller, target, role).db
            && s1.now == s.now && s1.used == s.used && s1.issued == s.issued && s1.ops == map[]
  {
    B.Exec3(s, B.BeginRole(0, caller, g, target, role), B.CheckRoleTarget(0), B.WriteRole(0));
    B.RoleChangeCleared(s, 0, g, caller, target, role);
    B.RoleChangeWritten(s, 0, g, caller, target, role);
  }

  lemma RemoveRegularCalls(s: B.Sys, g: Gid, caller: Uid, target: Uid, succ: Uid)
    requires s.ops == map[] && MayManage(s.db, g, caller) && target != caller && SuccessorOk(s.db, g, target, succ)
    requires RoleOf(s.db, g, target) == Some(Regular)
    ensures var s1 := B.Exec(s, [B.BeginRemove(0, caller, g, target), B.CheckRemoveTarget(0), B.WriteRemove(0, succ)]);
            && s1.db == A.RemoveReply(s.db, g, caller, target, succ).db
            && s1.now == s.now && s1.used == s.used && s1.issued == s.issued && s1.ops == map[]
  {
    B.Exec3(s, B.BeginRemove(0, caller, g, target), B.CheckRemoveTarget(0), B.WriteRemove(0, succ));
    B.RegularCleared(s, g, caller, target);
  }

  lemma AdminCleared(s: B.Sys, g: Gid, caller: Uid, target: Uid)
    requires s.ops == map[] && target != caller
    requires RoleOf(s.db, g, target) == Some(Admin) && RoleOf(s.db, g, caller) == Some(Owner)
    ensures B.Apply(B.Apply(B.Apply(s, B.BeginRemove(0, caller, g, target)), B.CheckRemoveTarget(0)),
            B.CheckRemoveCaller(0))
            == s.(ops := map[0 := B.RemoveCleared(caller, g, target, Admin)])
  {
    var s1 := B.Apply(s, B.BeginRemove(0, caller, g, target));
    assert s1 == s.(ops := map[0 := B.RemoveAdmitted(caller, g, target)]);
    var s2 := B.Apply(s1, B.CheckRemoveTarget(0));
    assert s2 == s.(ops := map[0 := B.RemoveAdminSeen(caller, g, target)]);
  }

  lemma RemoveAdminCalls(s: B.Sys, g: Gid, caller: Uid, target: Uid, succ: Uid)
    requires s.ops == map[] && target != caller && SuccessorOk(s.db, g, target, succ)
    requires RoleOf(s.db, g, target) == Some(Admin) && RoleOf(s.db, g, caller) == Some(Owner)
    ensures var s1 := B.Exec(s, [B.BeginRemove(0, caller, g, target), B.CheckRemoveTarget(0), B.CheckRemoveCaller(0),
            B.WriteRemove(0, succ)]);
            && s1.db == A.RemoveReply(s.db, g, caller, target, succ).db
            && s1.now == s.now && s1.used == s.used && s1.issued == s.issued && s1.ops == map[]
  {
    Exec4(s, B.BeginRemove(0, caller, g, target), B.CheckRemoveTarget(0), B.CheckRemoveCaller(0),
        B.WriteRemove(0, succ));
    AdminCleared(s, g, caller, target);
  }

  /** The calls leave the tables the request does, and no handler in flight. */
  ghost predicate CallsMatch(w: A.World, s: B.Sys, step: A.Step)
    requires A.Possible(w, step)
  {
    var s1 := B.Exec(s, Calls(w, step));
    && s1.db == A.Request(w, step).db && s1.now == w.now && s1.ops == map[]
    && s1.used <= (if step.Create? then w.used + {step.g} else w.used)
    && s1.issued <= w.issued + A.Issues(step)
  }

  /** A request that is one repository call. */
  lemma SingleCall(w: A.World, s: B.Sys, step: A.Step)
    requires Matches(w, s) && A.Possible(w, step)
    requires step.Create? || step.Rename? || step.Accept? || step.Decline? || step.Leave?
    ensures CallsMatch(w, s, step)
  {
    match step {
      case Create(g, caller, name, key, nonce, entries) => Exec1(s, B.Create(g, caller, name, key, nonce, entries));
      case Rename(g, caller, name) => Exec1(s, B.Rename(g, name));
      case Accept(id, caller) => Exec1(s, B.Accept(id, caller));
      case Decline(id, caller) => Exec1(s, B.Decline(id, caller));
      case Leave(g, caller, succ) => Exec1(s, B.Leave(g, caller, succ));
    }
  }

  lemma RemovalCalls(w: A.World, s: B.Sys, step: A.Step)
    requires Matches(w, s) && A.Possible(w, step) && step.Remove?
    ensures CallsMatch(w, s, step)
  {
    var Remove(g, caller, target, succ) := step;
    if MayManage(w.db, g, caller) && target != caller {
      if RoleOf(w.db, g, target) == Some(Regular) { RemoveRegularCalls(s, g, caller, target, succ); }
      if RoleOf(w.db, g, target) == Some(Admin) && RoleOf(w.db, g, caller) == Some(Owner) {
        RemoveAdminCalls(s, g, caller, target, succ);
      }
    }
  }

  lemma RequestIsItsCalls(w: A.World, s: B.Sys, step: A.Step)
    requires Matches(w, s) && A.Possible(w, step) && !step.Tick? && !step.Register? && !step.GroupFrame?
    ensures CallsMatch(w, s, step)
  {
    match step {
      case AddMember(id, g, caller, found, key, nonce) =>
        if A.MayInvite(w.db, g, caller, found, key, nonce) { AddMemberCalls(s, id, g, caller, found, key, nonce); }
      case UpdateRole(g, caller, target, role) =>
        if MayManage(w.db, g, caller) && role != Owner && RoleOf(w.db, g, target) !in {None, Some(Owner)} {
          UpdateRoleCalls(s, g, caller, target, role);
        }
      case Remove(_, _, _, _) => RemovalCalls(w, s, step);
      case _ => SingleCall(w, s, step);
    }
  }

  lemma StepIsInterleaved(w: A.World, s: B.Sys, step: A.Step) returns (calls: seq<B.Step>)
    requires Matches(w, s)
    ensures Matches(A.Apply(w, step), B.Exec(s, calls))
  {
    if step.Tick? {
      calls := Calls(w, step);
      Exec1(s, calls[0]);
    } else if step.Register? || step.caller !in w.users || !A.Possible(w, step) || step.GroupFrame? {
      calls := [];
    } else {
      calls := Calls(w, step);
      RequestIsItsCalls(w, s, step);
    }
  }

  /** Every atomic run leaves the tables of some interleaved run. */
  lemma {:induction false} AtomicRunIsInterleaved(w: A.World, s: B.Sys, steps: seq<A.Step>) returns (calls: seq<B.Step>)
    requires Matches(w, s)
    ensures Matches(A.Exec(w, steps), B.Exec(s, calls))
    decreases |steps|
  {
    if steps == [] {
      calls := [];
    } else {
      var first := StepIsInterleaved(w, s, steps[0]);
      var rest := AtomicRunIsInterleaved(A.Apply(w, steps[0]), B.Exec(s, first), steps[1..]);
      B.ExecConcat(s, first, rest);
      calls := first + rest;
    }
  }

  lemma AtomicTablesAreInterleavedTables(steps: seq<A.Step>)
    ensures exists calls :: B.Exec(B.INIT, calls).db == A.Exec(A.START, steps).db
  {
    var calls := AtomicRunIsInterleaved(A.START, B.INIT, steps);
  }
}
