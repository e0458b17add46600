/** Laws that tie several group operations together: what one call undoes of another, and
    when a request succeeds and what exactly it then leaves. */
module GroupLaws {
  import opened Basics
  import opened GroupTables
  import opened GroupInvariants
  import opened CreateRequests
  import A = AtomicHandlers
  import B = Interleaved

  // ------------------------------------------------------------- round trips

  /** An outsider who is invited and accepts gets a seat with exactly that wrap, whatever
      older invite was there, and nobody else's row or invite moves. */
  lemma InvitedAndAccepted(t: Tables, id: Iid, g: Gid, from: Uid, to: Uid, key: string, nonce: string,
                           now: Time, joined: Time)
    requires InvitesOk(t) && id !in t.invites && Seat(g, to) !in t.members
    ensures var (t1, outcome) := CreateInvite(t, id, g, from, to, key, nonce, now);
            && outcome.Invited?
            && var (t2, ok) := AcceptInvite(t1, outcome.id, to, joined);
            && ok && t2.groups == t.groups
            && t2.members == t.members[Seat(g, to) := MemberRow(Regular, key, nonce, from, joined)]
            && t2.invites == t.invites[outcome.id := InviteRow(g, from, to, Accepted, key, nonce, now)]
            && (outcome.id in t.invites ==> Addressed(t, outcome.id, g, to))
  {
    if FindInvite(t, g, to).Some? { assert Addressed(t, FindInvite(t, g, to).value, g, to); }
  }

  /** Leaving undoes joining, down to the invite. */
  lemma LeavingUndoesJoining(t: Tables, id: Iid, g: Gid, from: Uid, to: Uid, key: string, nonce: string,
                             now: Time, joined: Time, succ: Uid)
    requires InvitesOk(t) && id !in t.invites && Seat(g, to) !in t.members && Roster(t, g) != {}
    ensures var (t1, outcome) := CreateInvite(t, id, g, from, to, key, nonce, now);
            && outcome.Invited?
            && var t2 := AcceptInvite(t1, outcome.id, to, joined).0;
            && SuccessorOk(t2, g, to, succ)
            && LeaveGroup(t2, g, to, succ) == (Departed(t, g, to), Left(false))
  {
    InvitedAndAccepted(t, id, g, from, to, key, nonce, now, joined);
    var (t1, outcome) := CreateInvite(t, id, g, from, to, key, nonce, now);
    var t2 := AcceptInvite(t1, outcome.id, to, joined).0;
    LeaverGone(t, t2, g, to, outcome.id, t2.members[Seat(g, to)], t2.invites[outcome.id]);
    SeatedOnRoster(t, g);
    SeatedOnRoster(Departed(t, g, to), g);
    var u :| u in Roster(t, g);
    assert u in Roster(Departed(t, g, to), g);
  }

  lemma LeaverGone(t: Tables, t2: Tables, g: Gid, u: Uid, id: Iid, m: MemberRow, i: InviteRow)
    requires Seat(g, u) !in t.members && i.group == g && i.toUser == u && (id in t.invites ==> Addressed(t, id, g, u))
    requires t2.groups == t.groups && t2.members == t.members[Seat(g, u) := m] && t2.invites == t.invites[id := i]
    ensures Departed(t2, g, u) == Departed(t, g, u)
  {
    assert Departed(t2, g, u).members == Departed(t, g, u).members;
    assert Departed(t2, g, u).invites == Departed(t, g, u).invites;
  }

  /** A role change is seen by the next read, touches no other seat, and is undone by
      writing the old role back; the owner's role does not move at all. */
  lemma RoleChangeRoundTrip(t: Tables, g: Gid, u: Uid, role: Role)
    requires Seat(g, u) in t.members
    ensures var (t1, found) := UpdateMemberRole(t, g, u, role);
            && (found <==> !IsOwner(t, g, u)) && (!found ==> t1 == t)
            && (found ==> RoleOf(t1, g, u) == Some(role))
            && (forall h, v :: Seat(h, v) != Seat(g, u) ==> RoleOf(t1, h, v) == RoleOf(t, h, v))
            && (role != Owner ==> UpdateMemberRole(t1, g, u, RoleOf(t, g, u).value).0 == t)
  {
    var t1 := UpdateMemberRole(t, g, u, role).0;
    if role != Owner && !IsOwner(t, g, u) {
      assert UpdateMemberRole(t1, g, u, RoleOf(t, g, u).value).0.members == t.members;
    }
  }

  /** Accepting, on any tables at all: a pending invite of the caller's becomes accepted, and a
      seat that is taken already stays as it was; any other answer changes nothing. */
  lemma AcceptOnAnyTables(t: Tables, id: Iid, u: Uid, now: Time)
    ensures var (t1, ok) := AcceptInvite(t, id, u, now);
            && (ok <==> id in t.invites && t.invites[id].toUser == u && t.invites[id].status == Pending)
            && (!ok ==> t1 == t)
            && (ok ==>
                  var i := t.invites[id];
                  && t1.groups == t.groups && t1.invites == t.invites[id := i.(status := Accepted)]
                  && t1.members == if Seat(i.group, u) in t.members then t.members
                                   else t.members[Seat(i.group, u) := MemberRow(Regular, i.wrappedKey, i.keyNonce,
                                     i.fromUser, now)])
  {
  }

  // ---------------------------------------------------------------- succession

  /** In every interleaving: when an owner leaves others behind, ownership passes to one
      who joined before or with everybody else who stays; that one's key and join time
      and every other row stay as they were. */
  lemma OwnershipPassesToTheEarliest(steps: seq<B.Step>, g: Gid, u: Uid, succ: Uid)
    requires var t := B.Exec(B.INIT, steps).db; IsOwner(t, g, u) && Roster(t, g) != {u} && SuccessorOk(t, g, u, succ)
    ensures var t := B.Exec(B.INIT, steps).db; var (t1, outcome) := LeaveGroup(t, g, u, succ);
            && outcome == Left(false) && t1.groups == t.groups
            && Roster(t1, g) == Roster(t, g) - {u}
            && IsOwner(t1, g, succ) && !IsOwner(t, g, succ) && succ in Roster(t, g) - {u}
            && (forall v :: v in Roster(t, g) - {u} ==>
                  Seat(g, v) in t.members && t.members[Seat(g, succ)].joinedAt <= t.members[Seat(g, v)].joinedAt)
            && t1.members == (t.members - {Seat(g, u)})[Seat(g, succ) := t.members[Seat(g, succ)].(role := Owner)]
  {
    B.RunKeepsInv(B.INIT, steps);
    Succession(B.Exec(B.INIT, steps).db, g, u, succ);
  }

  lemma Succession(t: Tables, g: Gid, u: Uid, succ: Uid)
    requires OwnersOk(t) && IsOwner(t, g, u) && Roster(t, g) != {u} && SuccessorOk(t, g, u, succ)
    ensures var (t1, outcome) := LeaveGroup(t, g, u, succ);
            && outcome == Left(false) && t1.groups == t.groups
            && Roster(t1, g) == Roster(t, g) - {u}
            && IsOwner(t1, g, succ) && !IsOwner(t, g, succ) && succ in Roster(t, g) - {u}
            && (forall v :: v in Roster(t, g) - {u} ==>
                  Seat(g, v) in t.members && t.members[Seat(g, succ)].joinedAt <= t.members[Seat(g, v)].joinedAt)
            && t1.members == (t.members - {Seat(g, u)})[Seat(g, succ) := t.members[Seat(g, succ)].(role := Owner)]
  {
    SeatedOnRoster(t, g);
    SeatedOnRoster(Departed(t, g, u), g);
    B.WhoIsLeft(t, g, u);
    LeaveFrees(t, g, u, succ);
  }

  // ----------------------------------------------------------- role requests

  /** A role change succeeds exactly when a manager gives a seated non-owner a role other
      than owner, and then the role on that one seat is all that moved. */
  lemma RoleChangeSucceedsIff(steps: seq<A.Step>, g: Gid, caller: Uid, target: Uid, role: Role)
    ensures var t := A.Exec(A.START, steps).db; var r := A.UpdateRoleReply(t, g, caller, target, role);
            var manages := Seat(g, caller) in t.members && t.members[Seat(g, caller)].role in {Owner, Admin};
            var owns := Seat(g, target) in t.members && t.members[Seat(g, target)].role == Owner;
            && (r.status == A.Done <==> manages && role != Owner && Seat(g, target) in t.members && !owns)
            && (r.status == A.BadRequest <==> manages && role == Owner)
            && (r.status == A.NotFound <==> manages && role != Owner && Seat(g, target) !in t.members)
            && (r.status == A.Forbidden <==> !manages || (role != Owner && owns))
            && (r.status != A.Done ==> r.db == t)
            && r.db.groups == t.groups && r.db.invites == t.invites && r.db.members.Keys == t.members.Keys
            && (forall k :: k in t.members ==>
                  r.db.members[k] == if r.status == A.Done && k == Seat(g, target) then t.members[k].(role := role)
                    else t.members[k])
  {
    A.RunKeepsInv(A.START, steps);
    RoleReplyIs(A.Exec(A.START, steps).db, g, caller, target, role);
  }

  lemma RoleReplyIs(t: Tables, g: Gid, caller: Uid, target: Uid, role: Role)
    requires Referential(t)
    ensures var r := A.UpdateRoleReply(t, g, caller, target, role);
            var manages := Seat(g, caller) in t.members && t.members[Seat(g, caller)].role in {Owner, Admin};
            var owns := Seat(g, target) in t.members && t.members[Seat(g, target)].role == Owner;
            && (r.status == A.Done <==> manages && role != Owner && Seat(g, target) in t.members && !owns)
            && (r.status == A.BadRequest <==> manages && role == Owner)
            && (r.status == A.NotFound <==> manages && role != Owner && Seat(g, target) !in t.members)
            && (r.status == A.Forbidden <==> !manages || (role != Owner && owns))
            && r.db == if r.status == A.Done then SetRole(t, g, target, role) else t
  {
    A.UpdateRoleNeverFails(t, g, caller, target, role);
  }

  /** Whatever a removal does, it does to the target's seat and invite. */
  lemma RemovalTouchesOnlyTheTarget(steps: seq<A.Step>, g: Gid, caller: Uid, target: Uid, succ: Uid)
    requires SuccessorOk(A.Exec(A.START, steps).db, g, target, succ)
    ensures var t := A.Exec(A.START, steps).db; var t1 := A.RemoveReply(t, g, caller, target, succ).db;
            && t1.groups == t.groups
            && (forall k :: k != Seat(g, target) ==> (k in t1.members <==> k in t.members))
            && (forall k :: k in t1.members ==> k in t.members && t1.members[k] == t.members[k])
            && (forall id :: id in t.invites && !Addressed(t, id, g, target) ==> id in t1.invites)
            && (forall id :: id in t1.invites ==> id in t.invites && t1.invites[id] == t.invites[id])
  {
    A.RemovalOnlyRemoves(steps, g, caller, target, succ);
  }

  /** Somebody without a seat in the group, or with a regular one, can neither invite nor
      change a role nor remove anybody: the answer is forbidden and no table moves. */
  lemma OnlyManagersManage(steps: seq<A.Step>, g: Gid, caller: Uid, id: Iid, found: Option<Uid>, key: string,
                           nonce: string, target: Uid, role: Role, succ: Uid)
    requires var t := A.Exec(A.START, steps).db;
             && (Seat(g, caller) !in t.members || t.members[Seat(g, caller)].role == Regular)
             && SuccessorOk(t, g, target, succ)
    ensures var w := A.Exec(A.START, steps);
            && A.AddMemberReply(w.db, id, g, caller, found, key, nonce, w.now) == A.Reply(w.db, A.Forbidden, None)
            && A.UpdateRoleReply(w.db, g, caller, target, role) == A.Reply(w.db, A.Forbidden, None)
            && A.RemoveReply(w.db, g, caller, target, succ) == A.Reply(w.db, A.Forbidden, None)
  {
    A.InviteSucceedsIff(steps, id, g, caller, found, key, nonce);
    RoleChangeSucceedsIff(steps, g, caller, target, role);
    A.RemovalOnlyRemoves(steps, g, caller, target, succ);
  }

  // ------------------------------------------------------------ other requests

  /** Any member's rename succeeds, nobody else's, and only the name changes. */
  lemma RenameSucceedsIff(steps: seq<A.Step>, g: Gid, caller: Uid, name: string)
    ensures var t := A.Exec(A.START, steps).db; var r := A.RenameReply(t, g, caller, name);
            && r.status == (if Seat(g, caller) in t.members then A.Done else A.Forbidden)
            && (r.status == A.Done ==> g in t.groups)
            && r.db.members == t.members && r.db.invites == t.invites && r.db.groups.Keys == t.groups.Keys
            && (forall h :: h in t.groups ==>
                  r.db.groups[h] == if r.status == A.Done && h == g
                    then GroupRow(name, t.groups[g].createdBy, t.groups[g].createdAt)
                                    else t.groups[h])
  {
    A.RunKeepsInv(A.START, steps);
    var t := A.Exec(A.START, steps).db;
    if Seat(g, caller) in t.members { assert Seat(g, caller).group in t.groups; }
  }

  /** Accepting succeeds exactly for the caller's own pending invite, which becomes accepted,
      and the roster grows by the caller alone, who was not on it. */
  lemma AcceptSucceedsIff(steps: seq<A.Step>, id: Iid, u: Uid)
    ensures var w := A.Exec(A.START, steps); var t, r := w.db, A.AcceptReply(w.db, id, u, w.now);
            && (r.status == A.Done <==> id in t.invites && t.invites[id].toUser == u && t.invites[id].status == Pending)
            && (r.status != A.Done ==> r.status == A.NotFound && r.db == t && r.stale == None)
            && (r.status == A.Done ==>
                  var i := t.invites[id];
                  && u !in Roster(t, i.group) && Roster(r.db, i.group) == Roster(t, i.group) + {u}
                  && r.db.members ==
                       t.members[Seat(i.group, u) := MemberRow(Regular, i.wrappedKey, i.keyNonce, i.fromUser, w.now)]
                  && r.db.invites == t.invites[id := i.(status := Accepted)]
                  && r.db.groups == t.groups && r.stale == Some(i.group))
  {
    A.RunKeepsInv(A.START, steps);
    var w := A.Exec(A.START, steps);
    if PendingFor(w.db, id, u) {
      A.AcceptNeverFails(w.db, id, u, w.now);
      var g := w.db.invites[id].group;
      SeatedOnRoster(w.db, g);
      SeatedOnRoster(A.AcceptReply(w.db, id, u, w.now).db, g);
      assert Roster(A.AcceptReply(w.db, id, u, w.now).db, g) == Roster(w.db, g) + {u};
    }
  }

  /** Declining succeeds exactly for the caller's own pending invite, and then moves the status
      of that row alone; anybody else's is not found, and no table moves. */
  lemma DeclineSucceedsIff(steps: seq<A.Step>, id: Iid, u: Uid)
    ensures var t := A.Exec(A.START, steps).db; var r := A.DeclineReply(t, id, u);
            var own := id in t.invites && t.invites[id].toUser == u && t.invites[id].status == Pending;
            && r.status == (if own then A.Done else A.NotFound) && r.stale == None
            && r.db.groups == t.groups && r.db.members == t.members
            && r.db.invites == if own then t.invites[id := t.invites[id].(status := Declined)] else t.invites
  {
  }

  /** Leaving succeeds exactly for members, frees their seat alone, and takes the group along
      exactly when nobody else is left. */
  lemma LeaveSucceedsIff(steps: seq<A.Step>, g: Gid, u: Uid, succ: Uid)
    requires SuccessorOk(A.Exec(A.START, steps).db, g, u, succ)
    ensures var t := A.Exec(A.START, steps).db; var r := A.LeaveReply(t, g, u, succ);
            && (r.status == A.Done <==> u in Roster(t, g))
            && (r.status != A.Done ==> r.status == A.NotFound && r.db == t && r.stale == None)
            && Roster(r.db, g) == Roster(t, g) - {u}
            && (u in Roster(t, g) ==> g in t.groups && r.stale == Some(g)
                                      && r.db.groups == if Roster(t, g) == {u} then t.groups - {g} else t.groups)
            && r.db.members.Keys == t.members.Keys - {Seat(g, u)}
  {
    A.RunKeepsInv(A.START, steps);
    var t := A.Exec(A.START, steps).db;
    SeatedOnRoster(t, g);
    LeaveFrees(t, g, u, succ);
    if Seat(g, u) in t.members { assert Seat(g, u).group in t.groups; }
  }

  lemma LeaveFrees(t: Tables, g: Gid, u: Uid, succ: Uid)
    requires SuccessorOk(t, g, u, succ)
    ensures var t1 := LeaveGroup(t, g, u, succ).0;
            && Roster(t1, g) == Roster(t, g) - {u}
            && t1.members.Keys == t.members.Keys - {Seat(g, u)}
            && (Seat(g, u) in t.members ==> t1.groups == if Roster(t, g) == {u} then t.groups - {g} else t.groups)
  {
    var t1 := LeaveGroup(t, g, u, succ).0;
    SeatedOnRoster(t, g);
    SeatedOnRoster(t1, g);
    if Seat(g, u) in t.members {
      LeaveShape(t, g, u, succ);
      SeatedOnRoster(Departed(t, g, u), g);
      assert Roster(Departed(t, g, u), g) == Roster(t, g) - {u};
    }
    assert Roster(t1, g) == Roster(t, g) - {u};
  }

  // --------------------------------------------------------- create requests

  /** A create succeeds exactly when both of the creator's strings are there and no entry
      spoils it. Then the group's roster is the creator, as owner, and everyone named, with
      the wrap of the first entry naming them; every other seat stays as it was. */
  lemma CreateSucceedsIff(steps: seq<A.Step>, g: Gid, caller: Uid, name: string, key: string, nonce: string,
                          entries: seq<Entry>)
    requires g !in A.Exec(A.START, steps).used
    ensures var w := A.Exec(A.START, steps);
            var r := A.CreateGroupReply(w.db, g, caller, name, key, nonce, entries, w.now);
            var creator := NewMember(caller, Owner, key, nonce, caller);
            && (r.status == A.Done <==>
                  key != "" && nonce != "" && forall i :: 0 <= i < |entries| ==> !Spoils([creator], entries, i))
            && (r.status != A.Done ==> r.status == A.BadRequest && r.db == w.db)
            && (r.status == A.Done ==>
                  && r.db.groups == w.db.groups[g := GroupRow(name, caller, w.now)] && r.db.invites == w.db.invites
                  && Founded(w.db, r.db, g, caller, key, nonce, entries, w.now))
  {
    A.RunKeepsInv(A.START, steps);
    var w := A.Exec(A.START, steps);
    A.CreateNeverFails(w.db, g, caller, name, key, nonce, entries, w.now, w.used);
    var creator := CreatorRow(caller, key, nonce);
    RefusedIff(caller, [creator], entries);
    var rows := RequestRows(caller, key, nonce, entries);
    if rows.Some? {
      RowsAfterFounds(caller, [creator], entries);
      FoundsGroup(w.db, g, caller, name, key, nonce, entries, w.now);
    }
  }

  /** g's new seats: the creator's, and one for each user named, each as the first entry
      naming them asks, all joined at the same moment. */
  ghost predicate Founded(t: Tables, t1: Tables, g: Gid, caller: Uid, key: string, nonce: string,
                          entries: seq<Entry>, now: Time)
  {
    && (forall k: Seat :: k.group != g ==>
          (k in t1.members <==> k in t.members) && (k in t.members ==> t1.members[k] == t.members[k]))
    && (forall u :: Seat(g, u) in t1.members <==> u == caller || NamedBefore(entries, |entries|, u))
    && Seat(g, caller) in t1.members && t1.members[Seat(g, caller)] == MemberRow(Owner, key, nonce, caller, now)
    && (forall u :: u != caller && Seat(g, u) in t1.members ==> SeatedAsAsked(t1, g, caller, u, entries, now))
  }

  /** u's row carries what the first entry naming u carried. */
  ghost predicate SeatedAsAsked(t: Tables, g: Gid, caller: Uid, u: Uid, entries: seq<Entry>, now: Time)
    requires Seat(g, u) in t.members
  {
    exists j :: 0 <= j < |entries| && entries[j].user == Some(u) && !NamedBefore(entries, j, u)
                && t.members[Seat(g, u)] ==
                   MemberRow(Regular, entries[j].wrappedKey, entries[j].keyNonce, caller, now)
  }

  lemma FoundsGroup(t: Tables, g: Gid, caller: Uid, name: string, key: string, nonce: string,
                    entries: seq<Entry>, now: Time)
    requires RequestRows(caller, key, nonce, entries).Some? && g !in t.groups
             && (forall k :: k in t.members ==> k.group != g)
    ensures var rows := RequestRows(caller, key, nonce, entries).value;
            Founded(t, CreateGroup(t, g, name, caller, rows, now), g, caller, key, nonce, entries, now)
  {
    var creator := CreatorRow(caller, key, nonce);
    var rows := RequestRows(caller, key, nonce, entries).value;
    RowsAfterFounds(caller, [creator], entries);
    BatchIs(caller, [creator], entries);
    assert [creator] <= rows && rows[0] == creator;
    assert forall u :: Listed([creator], u) <==> u == caller;
    BatchSeats(t, g, name, caller, rows, now);
    var t1 := CreateGroup(t, g, name, caller, rows, now);
    assert t1.members[Seat(g, rows[0].user)] == Stamp(rows[0], now);
    forall u | u != caller && Seat(g, u) in t1.members ensures SeatedAsAsked(t1, g, caller, u, entries, now) {
      var i :| 0 <= i < |rows| && rows[i].user == u;
      assert AskedFor(caller, entries, rows[i]);
      var j :| 0 <= j < |entries| && entries[j].user == Some(u) && !NamedBefore(entries, j, u)
               && rows[i] == NewMember(u, Regular, entries[j].wrappedKey, entries[j].keyNonce, caller);
    }
  }

  /** The seats a batch takes in a new group are those of its users, each with its row. */
  lemma BatchSeats(t: Tables, g: Gid, name: string, caller: Uid, rows: seq<NewMember>, now: Time)
    requires FoundingRows(caller, rows) && g !in t.groups && (forall k :: k in t.members ==> k.group != g)
    ensures var t1 := CreateGroup(t, g, name, caller, rows, now);
            && (forall k: Seat :: k.group != g ==>
                  (k in t1.members <==> k in t.members) && (k in t.members ==> t1.members[k] == t.members[k]))
            && (forall u :: Seat(g, u) in t1.members <==> Listed(rows, u))
            && (forall i :: 0 <= i < |rows| ==>
                  Seat(g, rows[i].user) in t1.members && t1.members[Seat(g, rows[i].user)] == Stamp(rows[i], now))
  {
    SeatRowsAt(g, rows, now);
    var t1 := CreateGroup(t, g, name, caller, rows, now);
    assert t1.members == t.members + SeatRows(g, rows, now);
    forall u | Listed(rows, u) ensures Seat(g, u) in t1.members {
      var i :| 0 <= i < |rows| && rows[i].user == u;
      assert Seat(g, rows[i].user) in t1.members;
    }
  }

  // ---------------------------------------------------------- what never moves

  /** What a step leaves of rows that were there before it. */
  ghost predicate RowsKept(t: Tables, t1: Tables, used: set<Gid>) {
    && (forall g :: g in t1.groups && g in used ==>
          g in t.groups && t1.groups[g].createdBy == t.groups[g].createdBy
            && t1.groups[g].createdAt == t.groups[g].createdAt)
    && (forall k :: k in t.members && k in t1.members ==> t1.members[k] == t.members[k].(role := t1.members[k].role))
  }

  lemma CreateKeepsRows(s: B.Sys, g: Gid, caller: Uid, name: string, key: string, nonce: string, entries: seq<Entry>)
    requires Within(s.db, s.used)
    ensures RowsKept(s.db, B.ApplyCreate(s, g, caller, name, key, nonce, entries).db, s.used)
  {
    var rows := RequestRows(caller, key, nonce, entries);
    if g !in s.used && rows.Some? {
      RowsAfterFounds(caller, [CreatorRow(caller, key, nonce)], entries);
      CreateShape(s.db, g, name, caller, rows.value, s.now);
    }
  }

  lemma CallKeepsRows(s: B.Sys, step: B.Step)
    requires B.Inv(s) && (step.Create? || step.Rename? || step.Accept? || step.Decline? || step.Leave?)
    ensures RowsKept(s.db, B.Apply(s, step).db, s.used)
  {
    match step {
      case Create(g, caller, name, key, nonce, entries) => CreateKeepsRows(s, g, caller, name, key, nonce, entries);
      case Leave(g, u, succ) =>
        SameTables(s.db, s.used);
        if SuccessorOk(s.db, g, u, succ) { LeaveKeepsRows(s.db, g, u, succ, s.used); }
      case _ =>
    }
  }

  lemma SameTables(t: Tables, used: set<Gid>)
    requires Within(t, used)
    ensures RowsKept(t, t, used)
  {
  }

  lemma RoleKeepsRows(t: Tables, g: Gid, u: Uid, role: Role, used: set<Gid>)
    requires Within(t, used)
    ensures RowsKept(t, UpdateMemberRole(t, g, u, role).0, used)
  {
  }

  lemma LeaveKeepsRows(t: Tables, g: Gid, u: Uid, succ: Uid, used: set<Gid>)
    requires Within(t, used) && SuccessorOk(t, g, u, succ)
    ensures RowsKept(t, LeaveGroup(t, g, u, succ).0, used)
  {
  }

  lemma InviteKeepsRows(t: Tables, id: Iid, g: Gid, from: Uid, to: Uid, key: string, nonce: string, now: Time,
                        used: set<Gid>)
    requires Within(t, used)
    ensures RowsKept(t, CreateInvite(t, id, g, from, to, key, nonce, now).0, used)
  {
  }

  /** The write a parked handler makes, if it makes one. */
  lemma HandlerKeepsRows(s: B.Sys, step: B.Step, o: B.Op)
    requires Within(s.db, s.used) && B.OfHandler(step)
    ensures RowsKept(s.db, B.Advance(s, step, o).db, s.used)
  {
    B.HandlerWrites(s, step, o);
    SameTables(s.db, s.used);
    if step.WriteInvite? && o.AddCleared? {
      InviteKeepsRows(s.db, step.id, o.group, o.caller, o.target, o.key, o.nonce, s.now, s.used);
    } else if step.WriteRole? && o.RoleCleared? {
      RoleKeepsRows(s.db, o.group, o.target, o.role, s.used);
    } else if step.WriteRemove? && o.RemoveCleared? && SuccessorOk(s.db, o.group, o.target, step.succ) {
      LeaveKeepsRows(s.db, o.group, o.target, step.succ, s.used);
    }
  }

  lemma StepKeepsRows(s: B.Sys, step: B.Step)
    requires B.Inv(s)
    ensures RowsKept(s.db, B.Apply(s, step).db, s.used) && s.used <= B.Apply(s, step).used
  {
    B.UsedForever(s, step);
    SameTables(s.db, s.used);
    if step.Create? || step.Rename? || step.Accept? || step.Decline? || step.Leave? {
      CallKeepsRows(s, step);
    } else if step.Tick? || step.BeginAdd? || step.BeginRole? || step.BeginRemove? || step.Abort? {
      assert B.Apply(s, step).db == s.db;
    } else if step.op in s.ops {
      HandlerKeepsRows(s, step, s.ops[step.op]);
    }
  }

  /** In every interleaving a group's creator and creation time never change, and an id
      whose group is gone never names a group again. */
  lemma {:induction false} GroupIdentityIsFixed(s: B.Sys, steps: seq<B.Step>, g: Gid)
    requires B.Inv(s) && g in s.used && g in B.Exec(s, steps).db.groups
    ensures var t, t1 := s.db, B.Exec(s, steps).db;
            g in t.groups && t1.groups[g].createdBy == t.groups[g].createdBy
              && t1.groups[g].createdAt == t.groups[g].createdAt
    decreases |steps|
  {
    if steps != [] {
      B.StepKeepsInv(s, steps[0]);
      StepKeepsRows(s, steps[0]);
      GroupIdentityIsFixed(B.Apply(s, steps[0]), steps[1..], g);
    }
  }

  /** u holds a seat of g in every state of the run. */
  ghost predicate SeatedThroughout(s: B.Sys, steps: seq<B.Step>, k: Seat)
    decreases |steps|
  {
    k in s.db.members && (steps == [] || SeatedThroughout(B.Apply(s, steps[0]), steps[1..], k))
  }

  /** For as long as somebody stays seated, no step touches their key copy, its wrapper or
      their join time: only their role can move. */
  lemma {:induction false} SeatedKeepTheirKey(s: B.Sys, steps: seq<B.Step>, k: Seat)
    requires B.Inv(s) && SeatedThroughout(s, steps, k)
    ensures var m, t1 := s.db.members[k], B.Exec(s, steps).db;
            k in t1.members && t1.members[k] == m.(role := t1.members[k].role)
    decreases |steps|
  {
    if steps != [] {
      B.StepKeepsInv(s, steps[0]);
      StepKeepsRows(s, steps[0]);
      SeatedKeepTheirKey(B.Apply(s, steps[0]), steps[1..], k);
    }
  }
}
