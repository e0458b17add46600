/** The group handlers as the sequences of repository calls they are, with nothing running
    in between. Each does to the tables and the roster cache what its Reply says. */
module Handlers {
  import opened Basics
  import T = GroupTables
  import A = AtomicHandlers
  import C = RosterCache
  import G = GroupRepo
  import H = HubService

  class Handler {
    const postgres: G.PostgresRepo
    const broadcaster: H.Hub?

    constructor (postgres: G.PostgresRepo, broadcaster: H.Hub?)
      ensures this.postgres == postgres && this.broadcaster == broadcaster
    {
      this.postgres, this.broadcaster := postgres, broadcaster;
    }

    /** The tables are r's, and the cache has lost the group r names. */
    twostate predicate Answers(r: A.Reply, status: A.Status)
      reads postgres, broadcaster
    {
      && postgres.Contents() == r.db && status == r.status
      && (broadcaster != null ==>
            && broadcaster.groupMembers == C.Invalidate(old(broadcaster.groupMembers), r.stale)
            && broadcaster.clients == old(broadcaster.clients))
    }

    method RequireGroupAdmin(g: Gid, u: Uid) returns (ok: bool)
      ensures ok <==> T.Seat(g, u) in postgres.members && postgres.members[T.Seat(g, u)].role in {T.Owner, T.Admin}
    {
      var role := postgres.GetGroupMemberRole(g, u);
      ok := role == Some(T.Owner) || role == Some(T.Admin);
    }

    /** GetGroupWithMembers: first the caller's seat, then the group. */
    method LoadGroup(g: Gid, u: Uid) returns (status: A.Status)
      ensures status == A.Loaded(postgres.Contents(), g, u)
      ensures status == A.Done <==> T.Seat(g, u) in postgres.members && g in postgres.groups
    {
      status := if T.Seat(g, u) in postgres.members && g in postgres.groups then A.Done else A.Failed;
    }

    method Invalidate(g: Gid)
      modifies broadcaster
      ensures broadcaster != null ==>
                && broadcaster.groupMembers == old(broadcaster.groupMembers) - {g}
                && broadcaster.clients == old(broadcaster.clients)
    {
      if broadcaster != null { broadcaster.InvalidateGroup(g); }
    }

    method CreateGroup(g: Gid, caller: Uid, name: string, key: string, nonce: string, entries: seq<T.Entry>, now: Time)
      returns (status: A.Status)
      modifies postgres
      ensures Answers(A.CreateGroupReply(old(postgres.Contents()), g, caller, name, key, nonce, entries, now), status)
    {
      if key == "" || nonce == "" { return A.BadRequest; }
      var members := [T.CreatorRow(caller, key, nonce)];
      var seen := map[caller := true];
      assert entries[0..] == entries && members[0].user == caller;
      for i := 0 to |entries|
        invariant T.RequestRows(caller, key, nonce, entries) == T.RowsAfter(caller, members, entries[i..])
        invariant forall u :: u in seen <==> exists j :: 0 <= j < |members| && members[j].user == u
        invariant postgres.Contents() == old(postgres.Contents())
      {
        var e := entries[i];
        assert entries[i..][0] == e && entries[i..][1..] == entries[i + 1..];
        if e.user.None? { return A.BadRequest; }
        if e.user.value in seen { continue; }
        if e.wrappedKey == "" || e.keyNonce == "" { return A.BadRequest; }
        seen := seen[e.user.value := true];
        ghost var before := members;
        members := members + [T.NewMember(e.user.value, T.Regular, e.wrappedKey, e.keyNonce, caller)];
        forall u ensures u in seen <==> exists j :: 0 <= j < |members| && members[j].user == u {
          if j :| 0 <= j < |before| && before[j].user == u { assert members[j].user == u; }
          assert members[|before|].user == e.user.value;
        }
      }
      var ok := postgres.CreateGroupWithMembers(g, name, caller, members, now);
      if !ok { return A.Failed; }
      status := LoadGroup(g, caller);
    }

    method UpdateGroup(g: Gid, caller: Uid, name: string) returns (status: A.Status)
      modifies postgres
      ensures Answers(A.RenameReply(old(postgres.Contents()), g, caller, name), status)
    {
      if T.Seat(g, caller) !in postgres.members { return A.Forbidden; }
      postgres.UpdateGroupName(g, name);
      status := LoadGroup(g, caller);
    }

    /** found is the user the request's username resolves to; id a new invite's UUID. */
    method AddGroupMember(g: Gid, caller: Uid, found: Option<Uid>, key: string, nonce: string, id: Iid, now: Time)
      returns (status: A.Status)
      requires postgres.Valid() && id !in postgres.invites
      modifies postgres
      ensures postgres.Valid()
      ensures Answers(A.AddMemberReply(old(postgres.Contents()), id, g, caller, found, key, nonce, now), status)
    {
      var ok := RequireGroupAdmin(g, caller);
      if !ok { return A.Forbidden; }
      if key == "" || nonce == "" { return A.BadRequest; }
      if found.None? { return A.NotFound; }
      var target := found.value;
      if target == caller { return A.BadRequest; }
      var alreadyMember := postgres.IsGroupMember(g, target);
      if alreadyMember { return A.Conflict; }
      var outcome := postgres.CreateInvite(id, g, caller, target, key, nonce, now);
      status := if outcome.AlreadyMember? then A.Conflict else A.Done;
    }

    method AcceptInvite(id: Iid, caller: Uid, now: Time) returns (status: A.Status)
      requires postgres.Valid()
      modifies postgres, broadcaster
      ensures postgres.Valid()
      ensures Answers(A.AcceptReply(old(postgres.Contents()), id, caller, now), status)
    {
      var accepted := postgres.AcceptInvite(id, caller, now);
      if accepted.None? { return A.NotFound; }
      Invalidate(accepted.value.group);
      status := LoadGroup(accepted.value.group, caller);
    }

    method DeclineInvite(id: Iid, caller: Uid) returns (status: A.Status)
      requires postgres.Valid()
      modifies postgres
      ensures postgres.Valid()
      ensures Answers(A.DeclineReply(old(postgres.Contents()), id, caller), status)
    {
      var ok := postgres.DeclineInvite(id, caller);
      status := if ok then A.Done else A.NotFound;
    }

    method UpdateMemberRole(g: Gid, caller: Uid, target: Uid, role: T.Role) returns (status: A.Status)
      modifies postgres
      ensures Answers(A.UpdateRoleReply(old(postgres.Contents()), g, caller, target, role), status)
    {
      var ok := RequireGroupAdmin(g, caller);
      if !ok { return A.Forbidden; }
      if role != T.Admin && role != T.Regular { return A.BadRequest; }
      var targetRole := postgres.GetGroupMemberRole(g, target);
      if targetRole.None? { return A.NotFound; }
      if targetRole.value == T.Owner { return A.Forbidden; }
      var found := postgres.UpdateMemberRole(g, target, role);
      if !found { return A.Failed; }
      status := LoadGroup(g, caller);
    }

    method LeaveGroup(g: Gid, caller: Uid) returns (status: A.Status, ghost succ: Uid)
      requires postgres.Valid()
      modifies postgres, broadcaster
      ensures postgres.Valid() && T.SuccessorOk(old(postgres.Contents()), g, caller, succ)
      ensures Answers(A.LeaveReply(old(postgres.Contents()), g, caller, succ), status)
    {
      var outcome, s := postgres.LeaveGroup(g, caller);
      if outcome.NotGroupMember? { return A.NotFound, s; }
      Invalidate(g);
      return A.Done, s;
    }

    method RemoveGroupMember(g: Gid, caller: Uid, target: Uid) returns (status: A.Status, ghost succ: Uid)
      requires postgres.Valid()
      modifies postgres, broadcaster
      ensures postgres.Valid() && T.SuccessorOk(old(postgres.Contents()), g, target, succ)
      ensures Answers(A.RemoveReply(old(postgres.Contents()), g, caller, target, succ), status)
    {
      succ := T.SomeSuccessor(postgres.Contents(), g, target);
      var ok := RequireGroupAdmin(g, caller);
      if !ok { return A.Forbidden, succ; }
      if target == caller { return A.BadRequest, succ; }
      var targetRole := postgres.GetGroupMemberRole(g, target);
      if targetRole.None? { return A.NotFound, succ; }
      if targetRole.value == T.Owner { return A.Forbidden, succ; }
      if targetRole.value == T.Admin {
        var callerRole := postgres.GetGroupMemberRole(g, caller);
        if callerRole != Some(T.Owner) { return A.Forbidden, succ; }
      }
      var outcome, s := postgres.LeaveGroup(g, target);
      if outcome.NotGroupMember? { return A.NotFound, s; }
      Invalidate(g);
      succ := s;
      status := LoadGroup(g, caller);
    }
  }
}
