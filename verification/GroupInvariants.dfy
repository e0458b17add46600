/** What every repository call keeps true of the tables. The schema has no foreign key
    and no single-owner constraint: these facts come from the calls alone. */
module GroupInvariants {
  import opened Basics
  import opened GroupTables

  /** Every group has an owner, no group has two, and only rows of groups have one. */
  ghost predicate OwnersOk(t: Tables) {
    && (forall g :: g in t.groups ==> exists u :: IsOwner(t, g, u))
    && (forall g, u, v :: IsOwner(t, g, u) && IsOwner(t, g, v) ==> u == v)
    && (forall g, u :: IsOwner(t, g, u) ==> g in t.groups)
  }

  /** One row per (group, target), accepted exactly when the target is seated. */
  ghost predicate InvitesOk(t: Tables) {
    && (forall a, b, g, u :: Addressed(t, a, g, u) && Addressed(t, b, g, u) ==> a == b)
    && (forall id :: id in t.invites ==>
          (t.invites[id].status == Accepted <==> Seat(t.invites[id].group, t.invites[id].toUser) in t.members))
  }

  /** Nobody joined in the future, and no seated member joined before the owner. */
  ghost predicate JoinOrderOk(t: Tables, now: Time) {
    && (forall k :: k in t.members ==> t.members[k].joinedAt <= now)
    && (forall g, u, v :: IsOwner(t, g, u) && Seat(g, v) in t.members ==>
          t.members[Seat(g, u)].joinedAt <= t.members[Seat(g, v)].joinedAt)
  }

  ghost predicate TablesOk(t: Tables, now: Time) {
    OwnersOk(t) && InvitesOk(t) && JoinOrderOk(t, now)
  }

  /** A wrap of a group's key for one target, as one request carried it. */
  datatype Submission = Submission(group: Gid, target: Uid, wrappedKey: string, keyNonce: string, wrapper: Uid)

  function MemberWrap(k: Seat, m: MemberRow): Submission {
    Submission(k.group, k.user, m.wrappedKey, m.keyNonce, m.wrappedBy)
  }

  function InviteWrap(i: InviteRow): Submission {
    Submission(i.group, i.toUser, i.wrappedKey, i.keyNonce, i.fromUser)
  }

  /** Every stored (key, nonce, wrapper) triple came whole out of one request. */
  ghost predicate WrapsFrom(t: Tables, subs: set<Submission>) {
    && (forall k :: k in t.members ==> MemberWrap(k, t.members[k]) in subs)
    && (forall id :: id in t.invites ==> InviteWrap(t.invites[id]) in subs)
  }

  /** Every member and invite row names an existing group. */
  ghost predicate Referential(t: Tables) {
    && (forall k :: k in t.members ==> k.group in t.groups)
    && (forall id :: id in t.invites ==> t.invites[id].group in t.groups)
  }

  /** Only groups among used have rows; a new group id is chosen outside used. */
  ghost predicate Within(t: Tables, used: set<Gid>) {
    && t.groups.Keys <= used
    && (forall k :: k in t.members ==> k.group in used)
    && (forall id :: id in t.invites ==> t.invites[id].group in used)
  }

  /** What a handler that saw g without u may still rely on when its write runs. */
  ghost predicate SeatedOnlyByInvite(t: Tables, g: Gid, u: Uid) {
    Seat(g, u) in t.members ==> AcceptedRow(t, g, u)
  }

  /** Inside used, that reliance survives the change from t to t1. */
  ghost predicate JoinsByInvite(t: Tables, t1: Tables, used: set<Gid>) {
    forall g, u :: g in used && SeatedOnlyByInvite(t, g, u) ==> SeatedOnlyByInvite(t1, g, u)
  }

  // ------------------------------------------------------------------ create

  ghost function RowSubmissions(g: Gid, rows: seq<NewMember>): set<Submission> {
    set i | 0 <= i < |rows| :: Submission(g, rows[i].user, rows[i].wrappedKey, rows[i].keyNonce, rows[i].wrappedBy)
  }

  /** What a create leaves in the members table: the old rows, and one stamped row of the
      batch for each new seat. */
  lemma CreateShape(t: Tables, g: Gid, name: string, caller: Uid, rows: seq<NewMember>, now: Time)
    requires FoundingRows(caller, rows) && (forall k :: k in t.members ==> k.group != g)
    ensures var t1 := CreateGroup(t, g, name, caller, rows, now);
            && (forall k :: k in t.members ==> k in t1.members && t1.members[k] == t.members[k])
            && (forall k :: k in t1.members && k !in t.members ==>
                  k.group == g && exists i ::
                      0 <= i < |rows| && rows[i].user == k.user && t1.members[k] == Stamp(rows[i], now))
            && (g !in t.groups ==> IsOwner(t1, g, caller))
  {
    var t1 := CreateGroup(t, g, name, caller, rows, now);
    var added := SeatRows(g, rows, now);
    SeatRowsAt(g, rows, now);
    assert Seat(g, rows[0].user) in added;
    forall k | k in t1.members && k !in t.members
      ensures k.group == g && exists i ::
              0 <= i < |rows| && rows[i].user == k.user && t1.members[k] == Stamp(rows[i], now)
    {
      assert k in added;
      var i :| 0 <= i < |rows| && rows[i].user == k.user;
      assert added[Seat(g, rows[i].user)] == Stamp(rows[i], now);
    }
  }

  lemma CreateKeepsOwners(t: Tables, g: Gid, name: string, caller: Uid, rows: seq<NewMember>, now: Time)
    requires OwnersOk(t) && JoinOrderOk(t, now) && FoundingRows(caller, rows)
    requires g !in t.groups && (forall k :: k in t.members ==> k.group != g)
    ensures var t1 := CreateGroup(t, g, name, caller, rows, now); OwnersOk(t1) && JoinOrderOk(t1, now)
  {
    var t1 := CreateGroup(t, g, name, caller, rows, now);
    CreateShape(t, g, name, caller, rows, now);
    assert forall h, u :: h != g ==> (IsOwner(t1, h, u) <==> IsOwner(t, h, u));
    assert forall u :: IsOwner(t1, g, u) ==> u == caller;
    forall h | h in t1.groups ensures exists u :: IsOwner(t1, h, u) {
      if h != g {
        var u :| IsOwner(t, h, u);
        assert IsOwner(t1, h, u);
      }
    }
  }

  ghost predicate SameInviteFacts(t: Tables, t1: Tables, used: set<Gid>) {
    && t1.invites == t.invites
    && forall k: Seat :: k.group in used ==> (k in t1.members <==> k in t.members)
  }

  /** A change that moves no invite and no seat of a known group keeps the invite facts. */
  lemma SameInvites(t: Tables, t1: Tables, used: set<Gid>)
    requires InvitesOk(t) && SameInviteFacts(t, t1, used)
    requires forall id :: id in t.invites ==> t.invites[id].group in used
    ensures InvitesOk(t1) && JoinsByInvite(t, t1, used)
  {
    assert forall id, g, u :: Addressed(t1, id, g, u) <==> Addressed(t, id, g, u);
    forall g, u | g in used && SeatedOnlyByInvite(t, g, u) ensures SeatedOnlyByInvite(t1, g, u) {
      assert Seat(g, u).group in used;
      if Seat(g, u) in t1.members {
        var id :| id in t.invites && Addressed(t, id, g, u) && t.invites[id].status == Accepted;
        assert Addressed(t1, id, g, u);
      }
    }
  }

  lemma CreateKeeps(t: Tables, g: Gid, name: string, caller: Uid, rows: seq<NewMember>,
                    now: Time, used: set<Gid>)
    requires TablesOk(t, now) && Within(t, used)
    requires g !in used && FoundingRows(caller, rows)
    ensures var t1 := CreateGroup(t, g, name, caller, rows, now);
            TablesOk(t1, now) && Within(t1, used + {g}) && JoinsByInvite(t, t1, used)
  {
    var t1 := CreateGroup(t, g, name, caller, rows, now);
    CreateKeepsOwners(t, g, name, caller, rows, now);
    CreateShape(t, g, name, caller, rows, now);
    SameInvites(t, t1, used);
  }

  // ------------------------------------------------------------------- roles

  /** The two-row rule "never a second owner" rests on the role written, not on the
      handler's earlier read: the update itself skips the owner's row. */
  lemma RoleKeeps(t: Tables, g: Gid, u: Uid, role: Role, now: Time, used: set<Gid>)
    requires TablesOk(t, now) && Within(t, used)
    requires role != Owner
    ensures var t1 := UpdateMemberRole(t, g, u, role).0;
            TablesOk(t1, now) && Within(t1, used) && JoinsByInvite(t, t1, used)
  {
    var t1 := UpdateMemberRole(t, g, u, role).0;
    SameOwners(t, t1);
    SameInvites(t, t1, used);
  }

  /** A change that moves no owner keeps the owner facts. */
  lemma SameOwners(t: Tables, t1: Tables)
    requires OwnersOk(t)
    requires t1.groups.Keys == t.groups.Keys
    requires forall g, u :: IsOwner(t1, g, u) <==> IsOwner(t, g, u)
    ensures OwnersOk(t1)
  {
    forall g | g in t1.groups ensures exists u :: IsOwner(t1, g, u) {
      var u :| IsOwner(t, g, u);
      assert IsOwner(t1, g, u);
    }
  }

  lemma RenameKeeps(t: Tables, g: Gid, name: string, now: Time, used: set<Gid>)
    requires TablesOk(t, now) && Within(t, used)
    ensures var t1 := RenameGroup(t, g, name);
            TablesOk(t1, now) && Within(t1, used) && JoinsByInvite(t, t1, used)
  {
    var t1 := RenameGroup(t, g, name);
    SameOwners(t, t1);
    SameInvites(t, t1, used);
  }

  // ----------------------------------------------------------------- invites

  lemma InviteKeeps(t: Tables, id: Iid, g: Gid, from: Uid, to: Uid, key: string, nonce: string,
                    now: Time, used: set<Gid>)
    requires TablesOk(t, now) && Within(t, used)
    requires id !in t.invites && g in used
    requires SeatedOnlyByInvite(t, g, to)
    ensures var t1 := CreateInvite(t, id, g, from, to, key, nonce, now).0;
            TablesOk(t1, now) && Within(t1, used) && JoinsByInvite(t, t1, used)
  {
    var t1 := CreateInvite(t, id, g, from, to, key, nonce, now).0;
    SameOwners(t, t1);
    forall a, h, u | Addressed(t1, a, h, u)
      ensures Addressed(t, a, h, u) || (FindInvite(t, g, to).None? && a == id && h == g && u == to) {}
    forall h, u | SeatedOnlyByInvite(t, h, u) ensures SeatedOnlyByInvite(t1, h, u) {
      if Seat(h, u) in t1.members {
        var a :| a in t.invites && Addressed(t, a, h, u) && t.invites[a].status == Accepted;
        assert Addressed(t1, a, h, u);
      }
    }
  }

  lemma AcceptKeeps(t: Tables, id: Iid, u: Uid, now: Time, used: set<Gid>)
    requires TablesOk(t, now) && Within(t, used)
    ensures var t1 := AcceptInvite(t, id, u, now).0;
            TablesOk(t1, now) && Within(t1, used) && JoinsByInvite(t, t1, used)
  {
    if PendingFor(t, id, u) {
      var t1 := AcceptInvite(t, id, u, now).0;
      var g := t.invites[id].group;
      SameOwners(t, t1);
      assert Addressed(t, id, g, u) && Addressed(t1, id, g, u);
      assert forall a, h, v :: Addressed(t1, a, h, v) <==> Addressed(t, a, h, v);
      assert forall a :: a in t.invites && a != id ==> !Addressed(t, a, g, u);
      forall h, v | SeatedOnlyByInvite(t, h, v) ensures SeatedOnlyByInvite(t1, h, v) {
        if Seat(h, v) in t1.members && Seat(h, v) != Seat(g, u) {
          var a :| a in t.invites && Addressed(t, a, h, v) && t.invites[a].status == Accepted;
          assert Addressed(t1, a, h, v) && t1.invites[a].status == Accepted;
        }
      }
    } else {
      SameInvites(t, t, used);
    }
  }

  lemma DeclineKeeps(t: Tables, id: Iid, u: Uid, now: Time, used: set<Gid>)
    requires TablesOk(t, now) && Within(t, used)
    ensures var t1 := DeclineInvite(t, id, u).0;
            TablesOk(t1, now) && Within(t1, used) && JoinsByInvite(t, t1, used)
  {
    var t1 := DeclineInvite(t, id, u).0;
    SameOwners(t, t1);
    assert forall a, h, v :: Addressed(t1, a, h, v) <==> Addressed(t, a, h, v);
    forall h, v | SeatedOnlyByInvite(t, h, v) ensures SeatedOnlyByInvite(t1, h, v) {
      if Seat(h, v) in t1.members {
        var a :| a in t.invites && Addressed(t, a, h, v) && t.invites[a].status == Accepted;
        assert Addressed(t1, a, h, v) && t1.invites[a].status == Accepted;
      }
    }
  }

  // ------------------------------------------------------------------- leave

  lemma LeaveKeepsOwners(t: Tables, g: Gid, u: Uid, succ: Uid, now: Time)
    requires OwnersOk(t) && JoinOrderOk(t, now) && SuccessorOk(t, g, u, succ)
    ensures OwnersOk(LeaveGroup(t, g, u, succ).0) && JoinOrderOk(LeaveGroup(t, g, u, succ).0, now)
  {
    if Seat(g, u) in t.members {
      var t1 := Departed(t, g, u);
      var t2 := LeaveGroup(t, g, u, succ).0;
      SeatedOnRoster(t1, g);
      forall h, v | h != g ensures IsOwner(t2, h, v) <==> IsOwner(t, h, v) {}
      forall h | h in t2.groups && h != g ensures exists v :: IsOwner(t2, h, v) {
        var v :| IsOwner(t, h, v);
        assert IsOwner(t2, h, v);
      }
      if Roster(t1, g) == {} {
        assert forall v :: Seat(g, v) !in t2.members;
      } else if IsOwner(t, g, u) {
        assert forall v :: IsOwner(t2, g, v) && v != succ ==> IsOwner(t, g, v) && v != u;
        assert IsOwner(t2, g, succ);
      } else {
        assert forall v :: IsOwner(t2, g, v) <==> IsOwner(t, g, v);
        if g in t.groups {
          var v :| IsOwner(t, g, v);
          assert IsOwner(t2, g, v);
        }
      }
    }
  }

  lemma LeaveKeepsInvites(t: Tables, g: Gid, u: Uid, succ: Uid, used: set<Gid>)
    requires InvitesOk(t) && SuccessorOk(t, g, u, succ) && Seat(g, u) in t.members
    ensures InvitesOk(LeaveGroup(t, g, u, succ).0) && JoinsByInvite(t, LeaveGroup(t, g, u, succ).0, used)
  {
    var t2 := LeaveGroup(t, g, u, succ).0;
    LeaveShape(t, g, u, succ);
    assert forall a, h, v :: Addressed(t2, a, h, v) ==> Addressed(t, a, h, v);
    forall a | a in t2.invites
      ensures Seat(t2.invites[a].group, t2.invites[a].toUser) in t2.members <==>
              Seat(t2.invites[a].group, t2.invites[a].toUser) in t.members
    {
      assert !Addressed(t, a, g, u);
    }
    forall h, v | SeatedOnlyByInvite(t, h, v) ensures SeatedOnlyByInvite(t2, h, v) {
      if Seat(h, v) in t2.members {
        var a :| a in t.invites && Addressed(t, a, h, v) && t.invites[a].status == Accepted;
        assert Addressed(t2, a, h, v);
      }
    }
  }

  /** A leave frees the leaver's seat and clears their invite; any other seat stays, and
      any other invite stays unless it belonged to a group that is now gone. */
  lemma LeaveShape(t: Tables, g: Gid, u: Uid, succ: Uid)
    requires SuccessorOk(t, g, u, succ) && Seat(g, u) in t.members
    ensures var t2 := LeaveGroup(t, g, u, succ).0;
            && t2.members.Keys == t.members.Keys - {Seat(g, u)}
            && (forall a :: a in t2.invites <==>
                  a in t.invites && !Addressed(t, a, g, u) && !(t.invites[a].group == g && Roster(t, g) == {u}))
            && (forall a :: a in t2.invites ==> t2.invites[a] == t.invites[a])
            && (forall v :: Seat(g, v) in t2.members ==> Roster(t, g) != {u})
  {
    var t1 := Departed(t, g, u);
    SeatedOnRoster(t1, g);
    SeatedOnRoster(t, g);
    assert Roster(t1, g) == Roster(t, g) - {u};
    assert Roster(t1, g) == {} <==> Roster(t, g) == {u};
  }

  lemma LeaveKeeps(t: Tables, g: Gid, u: Uid, succ: Uid, now: Time, used: set<Gid>)
    requires TablesOk(t, now) && Within(t, used)
    requires SuccessorOk(t, g, u, succ)
    ensures var t1 := LeaveGroup(t, g, u, succ).0;
            TablesOk(t1, now) && Within(t1, used) && JoinsByInvite(t, t1, used)
  {
    LeaveKeepsOwners(t, g, u, succ, now);
    if Seat(g, u) in t.members {
      LeaveKeepsInvites(t, g, u, succ, used);
      LeaveShape(t, g, u, succ);
    } else {
      SameInvites(t, t, used);
    }
  }

  // ------------------------------------------------------------------- wraps

  lemma CreateKeepsWraps(t: Tables, g: Gid, name: string, caller: Uid, rows: seq<NewMember>,
                         now: Time, subs: set<Submission>)
    requires WrapsFrom(t, subs) && FoundingRows(caller, rows) && (forall k :: k in t.members ==> k.group != g)
    requires RowSubmissions(g, rows) <= subs
    ensures WrapsFrom(CreateGroup(t, g, name, caller, rows, now), subs)
  {
    var t1 := CreateGroup(t, g, name, caller, rows, now);
    CreateShape(t, g, name, caller, rows, now);
    forall k | k in t1.members ensures MemberWrap(k, t1.members[k]) in subs {
      if k !in t.members {
        var i :| 0 <= i < |rows| && rows[i].user == k.user && t1.members[k] == Stamp(rows[i], now);
        assert MemberWrap(k, t1.members[k]) ==
          Submission(g, rows[i].user, rows[i].wrappedKey, rows[i].keyNonce, rows[i].wrappedBy);
        assert MemberWrap(k, t1.members[k]) in RowSubmissions(g, rows);
      }
    }
  }

  lemma InviteKeepsWraps(t: Tables, id: Iid, g: Gid, from: Uid, to: Uid, key: string, nonce: string,
                         now: Time, subs: set<Submission>)
    requires WrapsFrom(t, subs) && Submission(g, to, key, nonce, from) in subs
    ensures WrapsFrom(CreateInvite(t, id, g, from, to, key, nonce, now).0, subs)
  {
  }

  lemma AcceptKeepsWraps(t: Tables, id: Iid, u: Uid, now: Time, subs: set<Submission>)
    requires WrapsFrom(t, subs)
    ensures WrapsFrom(AcceptInvite(t, id, u, now).0, subs)
  {
    if PendingFor(t, id, u) { assert InviteWrap(t.invites[id]) in subs; }
  }

  /** Declining, renaming and role changes move no key material. */
  lemma OthersKeepWraps(t: Tables, g: Gid, u: Uid, id: Iid, role: Role, name: string, subs: set<Submission>)
    requires WrapsFrom(t, subs)
    ensures WrapsFrom(DeclineInvite(t, id, u).0, subs) && WrapsFrom(RenameGroup(t, g, name), subs)
    ensures WrapsFrom(UpdateMemberRole(t, g, u, role).0, subs)
  {
    if Seat(g, u) in t.members { assert MemberWrap(Seat(g, u), t.members[Seat(g, u)]) in subs; }
    if id in t.invites { assert InviteWrap(t.invites[id]) in subs; }
  }

  lemma LeaveKeepsWraps(t: Tables, g: Gid, u: Uid, succ: Uid, subs: set<Submission>)
    requires WrapsFrom(t, subs) && SuccessorOk(t, g, u, succ)
    ensures WrapsFrom(LeaveGroup(t, g, u, succ).0, subs)
  {
    if Seat(g, u) in t.members {
      var t1 := LeaveGroup(t, g, u, succ).0;
      LeaveShape(t, g, u, succ);
      forall k | k in t1.members ensures MemberWrap(k, t1.members[k]) in subs {
        assert MemberWrap(k, t1.members[k]) == MemberWrap(k, t.members[k]);
      }
    }
  }

  // ------------------------------------------------- what the facts amount to

  /** Exactly one owner, hence at least one member. */
  lemma ExactlyOneOwner(t: Tables, g: Gid)
    requires OwnersOk(t) && g in t.groups
    ensures exists u :: IsOwner(t, g, u) && u in Roster(t, g) && forall v :: IsOwner(t, g, v) ==> v == u
  {
    var u :| IsOwner(t, g, u);
    SeatedOnRoster(t, g);
  }

  /** UpdateMemberRole keeps "exactly one owner per group" for precisely the roles its
      handler lets through, or when it matches no row. */
  lemma RoleKeepsOwnersIff(t: Tables, g: Gid, u: Uid, role: Role)
    requires OwnersOk(t) && g in t.groups
    ensures OwnersOk(UpdateMemberRole(t, g, u, role).0)
            <==> role != Owner || Seat(g, u) !in t.members || IsOwner(t, g, u)
  {
    var t1 := UpdateMemberRole(t, g, u, role).0;
    var w :| IsOwner(t, g, w);
    if role != Owner || Seat(g, u) !in t.members || IsOwner(t, g, u) {
      SameOwners(t, t1);
    } else {
      assert IsOwner(t1, g, u) && IsOwner(t1, g, w);
    }
  }
}
