/** Laws of whole interleaved runs that the step invariant alone does not say: when
    referential integrity is lost, and how long an answered invite stays answered. */
module InterleavedRuns {
  import opened Basics
  import opened GroupTables
  import opened GroupInvariants
  import opened Interleaved
  import A = AtomicHandlers

  /** The state of a run after its first k steps. */
  ghost function At(s: Sys, steps: seq<Step>, k: nat): Sys
    requires k <= |steps|
  {
    Exec(s, steps[..k])
  }

  lemma AtNext(s: Sys, steps: seq<Step>, k: nat)
    requires k < |steps|
    ensures At(s, steps, k + 1) == Apply(At(s, steps, k), steps[k])
  {
    assert steps[..k + 1] == steps[..k] + [steps[k]];
    ExecConcat(s, steps[..k], [steps[k]]);
    assert [steps[k]][1..] == [];
    assert Exec(At(s, steps, k), [steps[k]]) == Exec(Apply(At(s, steps, k), steps[k]), []);
  }

  lemma AtEnd(s: Sys, steps: seq<Step>)
    ensures At(s, steps, |steps|) == Exec(s, steps)
  {
    assert steps[..|steps|] == steps;
  }

  // ------------------------------------------------- referential integrity

  /** A cleared AddGroupMember writes its invite, and its group is gone. */
  ghost predicate StrayWrite(s: Sys, step: Step) {
    && step.WriteInvite? && step.op in s.ops && s.ops[step.op].AddCleared? && step.id !in s.issued
    && s.ops[step.op].group !in s.db.groups
  }

  lemma CreateReferential(s: Sys, g: Gid, caller: Uid, name: string, key: string, nonce: string, entries: seq<Entry>)
    requires DbOk(s) && Referential(s.db)
    ensures Referential(ApplyCreate(s, g, caller, name, key, nonce, entries).db)
  {
    var rows := RequestRows(caller, key, nonce, entries);
    if g !in s.used && rows.Some? {
      RowsAfterFounds(caller, [CreatorRow(caller, key, nonce)], entries);
      CreateShape(s.db, g, name, caller, rows.value, s.now);
    }
  }

  lemma CallReferential(s: Sys, step: Step)
    requires DbOk(s) && Referential(s.db)
    requires step.Create? || step.Rename? || step.Accept? || step.Decline? || step.Leave?
    ensures Referential(Apply(s, step).db)
  {
    match step {
      case Create(g, caller, name, key, nonce, entries) => CreateReferential(s, g, caller, name, key, nonce, entries);
      case Rename(g, name) => A.RenameDb(s.db, g, name, s.now, s.used);
      case Accept(id, u) => A.AcceptDb(s.db, id, u, s.now, s.used);
      case Decline(id, u) => A.DeclineDb(s.db, id, u, s.now, s.used);
      case Leave(g, u, succ) =>
        if SuccessorOk(s.db, g, u, succ) { A.LeaveKeepsReferential(s.db, g, u, succ); }
    }
  }

  /** A handler's next call, other than the write of an invite. */
  lemma HandlerReferential(s: Sys, step: Step, o: Op)
    requires Inv(s) && Referential(s.db) && OfHandler(step) && OpOk(s, o) && !(step.WriteInvite? && o.AddCleared?)
    ensures Referential(Advance(s, step, o).db)
  {
    if step.WriteRole? && o.RoleCleared? {
      A.RoleDb(s.db, o.group, o.target, o.role, s.now, s.used);
    } else if step.WriteRemove? && o.RemoveCleared? {
      if SuccessorOk(s.db, o.group, o.target, step.succ) {
        A.LeaveKeepsReferential(s.db, o.group, o.target, step.succ);
      }
    } else {
      assert Advance(s, step, o).db == s.db;
    }
  }

  /** Of all the calls there are, only the write of an invite can break referential
      integrity, and it does exactly when its group is gone. */
  lemma StepReferentialIff(s: Sys, step: Step)
    requires Inv(s) && Referential(s.db)
    ensures Referential(Apply(s, step).db) <==> !StrayWrite(s, step)
  {
    if step.Create? || step.Rename? || step.Accept? || step.Decline? || step.Leave? {
      CallReferential(s, step);
    } else if step.Tick? || step.BeginAdd? || step.BeginRole? || step.BeginRemove? || step.Abort? {
      assert Apply(s, step).db == s.db;
    } else if step.op in s.ops {
      if step.WriteInvite? && s.ops[step.op].AddCleared? {
        if step.id !in s.issued { InviteWriteKeepsReferentialIff(s, step.op, step.id); }
      } else {
        HandlerReferential(s, step, s.ops[step.op]);
      }
    }
  }

  lemma ReferentialStep(steps: seq<Step>, k: nat)
    requires k < |steps| && Referential(At(INIT, steps, k).db)
    ensures Referential(At(INIT, steps, k + 1).db) <==> !StrayWrite(At(INIT, steps, k), steps[k])
  {
    RunKeepsInv(INIT, steps[..k]);
    AtNext(INIT, steps, k);
    StepReferentialIff(At(INIT, steps, k), steps[k]);
  }

  /** Every state of a run names only existing groups exactly when the run never writes an
      invite to a group that is gone. */
  lemma StaysReferentialIff(steps: seq<Step>)
    ensures (forall k :: 0 <= k <= |steps| ==> Referential(At(INIT, steps, k).db))
            <==> forall k :: 0 <= k < |steps| ==> !StrayWrite(At(INIT, steps, k), steps[k])
  {
    if forall k :: 0 <= k < |steps| ==> !StrayWrite(At(INIT, steps, k), steps[k]) {
      for k := 0 to |steps|
        invariant forall j :: 0 <= j <= k ==> Referential(At(INIT, steps, j).db)
      {
        ReferentialStep(steps, k);
      }
    } else {
      var k :| 0 <= k < |steps| && StrayWrite(At(INIT, steps, k), steps[k]);
      if Referential(At(INIT, steps, k).db) { ReferentialStep(steps, k); }
    }
  }

  // --------------------------------------------------------- answered invites

  /** Neither answer is taken from anybody. */
  ghost predicate Refuses(t: Tables, id: Iid) {
    (forall v, now :: !AcceptInvite(t, id, v, now).1) && forall v :: !DeclineInvite(t, id, v).1
  }

  lemma RefusesIff(t: Tables, id: Iid)
    ensures Refuses(t, id) <==> !(id in t.invites && t.invites[id].status == Pending)
  {
    if id in t.invites && t.invites[id].status == Pending {
      assert AcceptInvite(t, id, t.invites[id].toUser, 0).1;
    } else {
      assert forall v :: !PendingFor(t, id, v);
    }
  }

  /** A cleared AddGroupMember writes over the declined invite id of the same target. */
  ghost predicate Reopens(s: Sys, step: Step, id: Iid) {
    && step.WriteInvite? && step.op in s.ops && s.ops[step.op].AddCleared? && step.id !in s.issued
    && Addressed(s.db, id, s.ops[step.op].group, s.ops[step.op].target) && s.db.invites[id].status == Declined
  }

  /** What one call does to an invite that awaits no answer. */
  ghost predicate Settled(s: Sys, s1: Sys, id: Iid) {
    && (id !in s.db.invites ==> id !in s1.db.invites)
    && (id in s.db.invites && id in s1.db.invites ==> s1.db.invites[id] == s.db.invites[id])
  }

  ghost predicate Awaits(s: Sys, id: Iid) {
    id in s.db.invites && s.db.invites[id].status == Pending
  }

  lemma LeaveSettles(t: Tables, g: Gid, u: Uid, succ: Uid)
    requires SuccessorOk(t, g, u, succ)
    ensures forall id :: id in LeaveGroup(t, g, u, succ).0.invites ==>
              id in t.invites && LeaveGroup(t, g, u, succ).0.invites[id] == t.invites[id]
  {
  }

  lemma InviteWriteSettles(s: Sys, op: OpId, newId: Iid, id: Iid)
    requires Inv(s) && op in s.ops && s.ops[op].AddCleared? && newId !in s.issued
    requires id in s.issued && !Awaits(s, id)
    ensures var s1 := Apply(s, WriteInvite(op, newId));
            if Reopens(s, WriteInvite(op, newId), id) then Awaits(s1, id) else Settled(s, s1, id)
  {
    var o := s.ops[op];
    var found := FindInvite(s.db, o.group, o.target);
    if found.Some? { assert Addressed(s.db, found.value, o.group, o.target); }
  }

  lemma HandlerSettles(s: Sys, step: Step, o: Op, id: Iid)
    requires OfHandler(step) && !(step.WriteInvite? && o.AddCleared?)
    ensures Settled(s, Advance(s, step, o), id)
  {
    if step.WriteRemove? && o.RemoveCleared? {
      if SuccessorOk(s.db, o.group, o.target, step.succ) { LeaveSettles(s.db, o.group, o.target, step.succ); }
    } else {
      assert Advance(s, step, o).db.invites == s.db.invites;
    }
  }

  lemma CallSettles(s: Sys, step: Step, id: Iid)
    requires !Awaits(s, id) && (step.Create? || step.Rename? || step.Accept? || step.Decline? || step.Leave?)
    ensures Settled(s, Apply(s, step), id)
  {
    if step.Leave? && SuccessorOk(s.db, step.g, step.user, step.succ) {
      LeaveSettles(s.db, step.g, step.user, step.succ);
    }
  }

  /** No call but a re-invitation of the same target moves an invite that awaits no answer,
      except to delete it; and that one puts exactly a declined invite back to pending. */
  lemma StepSettles(s: Sys, step: Step, id: Iid)
    requires Inv(s) && id in s.issued && !Awaits(s, id)
    ensures if Reopens(s, step, id) then Awaits(Apply(s, step), id) else Settled(s, Apply(s, step), id)
    ensures id in Apply(s, step).issued
  {
    UsedForever(s, step);
    if step.Create? || step.Rename? || step.Accept? || step.Decline? || step.Leave? {
      CallSettles(s, step, id);
    } else if step.Tick? || step.BeginAdd? || step.BeginRole? || step.BeginRemove? || step.Abort? {
      assert Apply(s, step).db == s.db;
    } else if step.op in s.ops {
      if step.WriteInvite? && s.ops[step.op].AddCleared? {
        if step.id !in s.issued { InviteWriteSettles(s, step.op, step.id, id); }
      } else {
        HandlerSettles(s, step, s.ops[step.op], id);
      }
    }
  }

  /** In every interleaving an invite that awaits no answer goes on refusing both, from
      anybody, exactly until its target is invited anew over the declined row. */
  lemma AnsweredUntilReopened(s: Sys, steps: seq<Step>, id: Iid)
    requires Inv(s) && id in s.issued && Refuses(s.db, id)
    ensures (forall k :: 0 <= k <= |steps| ==> Refuses(At(s, steps, k).db, id))
            <==> forall k :: 0 <= k < |steps| ==> !Reopens(At(s, steps, k), steps[k], id)
  {
    RefusesIff(s.db, id);
    if forall k :: 0 <= k < |steps| ==> !Reopens(At(s, steps, k), steps[k], id) {
      for k := 0 to |steps|
        invariant forall j :: 0 <= j <= k ==> Refuses(At(s, steps, j).db, id)
      {
        RefusalStep(s, steps, k, id);
      }
    } else {
      var k :| 0 <= k < |steps| && Reopens(At(s, steps, k), steps[k], id);
      if Refuses(At(s, steps, k).db, id) { RefusalStep(s, steps, k, id); }
    }
  }

  lemma RefusalStep(s: Sys, steps: seq<Step>, k: nat, id: Iid)
    requires Inv(s) && id in s.issued && k < |steps| && Refuses(At(s, steps, k).db, id)
    ensures Refuses(At(s, steps, k + 1).db, id) <==> !Reopens(At(s, steps, k), steps[k], id)
  {
    RefusesIff(At(s, steps, k).db, id);
    RunKeepsInv(s, steps[..k]);
    IssuedForever(s, steps[..k], id);
    AtNext(s, steps, k);
    StepSettles(At(s, steps, k), steps[k], id);
    RefusesIff(At(s, steps, k + 1).db, id);
  }

  lemma {:induction false} IssuedForever(s: Sys, steps: seq<Step>, id: Iid)
    requires id in s.issued
    ensures id in Exec(s, steps).issued
    decreases |steps|
  {
    if steps != [] {
      UsedForever(s, steps[0]);
      IssuedForever(Apply(s, steps[0]), steps[1..], id);
    }
  }

  /** An accepted invite is never written again: for as long as it exists it stays as it was
      accepted, and once it is gone its id never comes back. */
  lemma {:induction false} AcceptedIsFinal(s: Sys, steps: seq<Step>, id: Iid)
    requires Inv(s) && id in s.issued && (id in s.db.invites ==> s.db.invites[id].status == Accepted)
    ensures Settled(s, Exec(s, steps), id)
    decreases |steps|
  {
    if steps != [] {
      StepKeepsInv(s, steps[0]);
      StepSettles(s, steps[0], id);
      AcceptedIsFinal(Apply(s, steps[0]), steps[1..], id);
    }
  }

  /** One id can be answered twice: declined, then accepted after a new invitation. */
  lemma ReinvitedMayStillAccept(t: Tables, id: Iid, u: Uid, other: Iid, from: Uid, key: string, nonce: string,
                                now: Time)
    requires InvitesOk(t) && PendingFor(t, id, u)
    ensures var t1 := DeclineInvite(t, id, u).0;
            var (t2, outcome) := CreateInvite(t1, other, t.invites[id].group, from, u, key, nonce, now);
            && DeclineInvite(t, id, u).1 && Refuses(t1, id)
            && outcome == Invited(id) && AcceptInvite(t2, id, u, now).1
  {
    var t1 := DeclineInvite(t, id, u).0;
    RefusesIff(t1, id);
    assert Addressed(t1, id, t.invites[id].group, u);
    assert forall a, g, v :: Addressed(t1, a, g, v) <==> Addressed(t, a, g, v);
  }

  /** In every interleaving neither answer does anything unless it is the addressee's own, to an
      invite that is pending. */
  lemma OnlyTheAddresseeAnswers(s: Sys, id: Iid, u: Uid)
    requires !(id in s.db.invites && s.db.invites[id].toUser == u && s.db.invites[id].status == Pending)
    ensures Apply(s, Decline(id, u)) == s && Apply(s, Accept(id, u)) == s
  {
  }

  /** Declining puts an invite in that state: it seats nobody and moves that row alone, and
      from then on both answers are refused exactly until the target is invited anew. */
  lemma DeclinedUntilReopened(s: Sys, id: Iid, u: Uid, later: seq<Step>)
    requires Inv(s) && id in s.db.invites && s.db.invites[id].toUser == u && s.db.invites[id].status == Pending
    ensures var s1 := Apply(s, Decline(id, u));
            && s1 == s.(db := s.db.(invites := s.db.invites[id := s.db.invites[id].(status := Declined)]))
            && u !in Roster(s1.db, s.db.invites[id].group)
            && ((forall k :: 0 <= k <= |later| ==> Refuses(At(s1, later, k).db, id))
                <==> forall k :: 0 <= k < |later| ==> !Reopens(At(s1, later, k), later[k], id))
  {
    var s1 := Apply(s, Decline(id, u));
    StepKeepsInv(s, Decline(id, u));
    SeatedOnRoster(s1.db, s.db.invites[id].group);
    RefusesIff(s1.db, id);
    AnsweredUntilReopened(s1, later, id);
  }
}
