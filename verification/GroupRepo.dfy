/** The repository over the group tables. Each method is one transaction and does to the
    tables what the function of its name does. */
module GroupRepo {
  import opened Basics
  import T = GroupTables
  import opened Query

  datatype UserRow = UserRow(username: string, displayName: string)

  /** A roster entry with the label the client shows. */
  datatype MemberInfo = MemberInfo(user: Uid, name: string, role: T.Role)

  datatype GroupView = GroupView(id: Gid, group: T.GroupRow, members: seq<MemberInfo>, membership: T.MemberRow)

  /** A pending invite as its target sees it. */
  datatype InviteInfo = InviteInfo(id: Iid, invite: T.InviteRow, groupName: string, from: string)

  /** A list that names the groups of an order one by one names just those. */
  lemma ListsTheseGroups(order: seq<Gid>, list: seq<GroupView>)
    requires |list| == |order| && forall a :: 0 <= a < |list| ==> list[a].id == order[a]
    ensures (set i | 0 <= i < |list| :: list[i].id) == Elems(order)
  {
    forall g | g in Elems(order) ensures g in (set i | 0 <= i < |list| :: list[i].id) {
      var i :| 0 <= i < |order| && order[i] == g;
      assert list[i].id == g;
    }
  }

  /** The seats staged after i rows are those taken before and those of the i users. */
  lemma StagedSeats(taken: map<T.Seat, T.MemberRow>, g: Gid, rows: seq<T.NewMember>, i: nat, now: Time)
    requires i < |rows| && T.DistinctUsers(rows[..i])
    ensures T.Seat(g, rows[i].user) in taken + T.SeatRows(g, rows[..i], now) <==>
            T.Seat(g, rows[i].user) in taken || exists j :: 0 <= j < i && rows[j].user == rows[i].user
  {
    T.SeatRowsAt(g, rows[..i], now);
    if j :| 0 <= j < i && rows[j].user == rows[i].user {
      assert T.Seat(g, rows[..i][j].user) in T.SeatRows(g, rows[..i], now);
    }
    if T.Seat(g, rows[i].user) in T.SeatRows(g, rows[..i], now) {
      var j :| 0 <= j < i && rows[..i][j].user == rows[i].user;
      assert rows[j].user == rows[i].user;
    }
  }

  /** Row i clashes, and with it the batch, exactly when its key is already staged. */
  lemma InsertOne(taken: map<T.Seat, T.MemberRow>, g: Gid, rows: seq<T.NewMember>, i: nat, now: Time)
    requires i < |rows| && T.NoClash(taken, g, rows[..i])
    ensures var staged := taken + T.SeatRows(g, rows[..i], now);
            if T.Seat(g, rows[i].user) in staged then !T.NoClash(taken, g, rows)
            else T.NoClash(taken, g, rows[..i + 1]) &&
                 staged[T.Seat(g, rows[i].user) := T.Stamp(rows[i], now)] == taken + T.SeatRows(g, rows[..i + 1], now)
  {
    StagedSeats(taken, g, rows, i, now);
    assert rows[..i + 1][..i] == rows[..i];
  }

  class PostgresRepo {
    var groups: map<Gid, T.GroupRow>
    var members: map<T.Seat, T.MemberRow>
    var invites: map<Iid, T.InviteRow>
    var users: map<Uid, UserRow>

    constructor ()
      ensures Contents() == T.EMPTY && users == map[] && Valid()
    {
      groups, members, invites, users := map[], map[], map[], map[];
    }

    ghost function Contents(): T.Tables
      reads this
    {
      T.Tables(groups, members, invites)
    }

    /** The unique index on (group_id, to_user). */
    ghost predicate Valid()
      reads this
    {
      forall a, b, g, u :: T.Addressed(Contents(), a, g, u) && T.Addressed(Contents(), b, g, u) ==> a == b
    }

    /** Inserts the group and then its rows; a key hit twice rolls everything back. */
    method CreateGroupWithMembers(g: Gid, name: string, createdBy: Uid, rows: seq<T.NewMember>, now: Time)
      returns (ok: bool)
      modifies this`groups, this`members
      ensures Contents() == T.CreateGroup(old(Contents()), g, name, createdBy, rows, now)
      ensures ok <==> rows != [] && g !in old(groups)
                      && (forall i, j :: 0 <= i < j < |rows| ==> rows[i].user != rows[j].user)
                      && (forall i :: 0 <= i < |rows| ==> T.Seat(g, rows[i].user) !in old(members))
    {
      if g in groups || rows == [] { return false; }
      ghost var was := Contents();
      var staged := members;
      for i := 0 to |rows|
        invariant Contents() == was && T.NoClash(members, g, rows[..i])
        invariant staged == members + T.SeatRows(g, rows[..i], now)
      {
        InsertOne(members, g, rows, i, now);
        if T.Seat(g, rows[i].user) in staged {
          assert Contents() == was && !T.NoClash(was.members, g, rows);
          return false;
        }
        staged := staged[T.Seat(g, rows[i].user) := T.Stamp(rows[i], now)];
      }
      assert rows[..|rows|] == rows;
      groups, members := groups[g := T.GroupRow(name, createdBy, now)], staged;
      return true;
    }

    method UpdateGroupName(g: Gid, name: string)
      modifies this`groups
      ensures Contents() == T.RenameGroup(old(Contents()), g, name)
    {
      if g in groups { groups := groups[g := groups[g].(name := name)]; }
    }

    /** None for gorm.ErrRecordNotFound. */
    method GetGroupMemberRole(g: Gid, u: Uid) returns (role: Option<T.Role>)
      ensures role == T.RoleOf(Contents(), g, u)
    {
      role := if T.Seat(g, u) in members then Some(members[T.Seat(g, u)].role) else None;
    }

    method IsGroupMember(g: Gid, u: Uid) returns (yes: bool)
      ensures yes <==> T.Seat(g, u) in members
    {
      var count := |set k | k in members && k == T.Seat(g, u)|;
      ghost var matching := set k | k in members && k == T.Seat(g, u);
      if T.Seat(g, u) in members {
        assert matching == {T.Seat(g, u)};
      } else {
        assert matching == {};
      }
      yes := count > 0;
    }

    method UpdateMemberRole(g: Gid, target: Uid, role: T.Role) returns (found: bool)
      modifies this`members
      ensures (Contents(), found) == T.UpdateMemberRole(old(Contents()), g, target, role)
    {
      var k := T.Seat(g, target);
      found := k in members && members[k].role != T.Owner;
      if found { members := members[k := members[k].(role := role)]; }
    }

    ghost predicate ByJoinTime(g: Gid, list: seq<Uid>)
      reads this
    {
      && (forall u :: u in list ==> T.Seat(g, u) in members)
      && (forall i, j :: 0 <= i < j < |list| ==>
            members[T.Seat(g, list[i])].joinedAt <= members[T.Seat(g, list[j])].joinedAt)
    }

    /** Some of g's members by join time, earliest first. */
    method OrderByJoin(g: Gid, some: set<Uid>) returns (list: seq<Uid>)
      requires some <= T.Roster(Contents(), g)
      ensures NoDup(list) && Elems(list) == some && ByJoinTime(g, list)
    {
      var rows := members;
      var joined := (u: Uid) => if T.Seat(g, u) in rows then rows[T.Seat(g, u)].joinedAt else 0;
      list := OrderBy<Uid>(some, joined);
      forall u | u in list ensures T.Seat(g, u) in members {
        assert u in Elems(list);
        assert u in T.Roster(Contents(), g);
        var k :| k in members && k.group == g && k.user == u;
        assert k == T.Seat(g, u);
      }
      forall i, j | 0 <= i < j < |list|
        ensures members[T.Seat(g, list[i])].joinedAt <= members[T.Seat(g, list[j])].joinedAt
      {
        assert joined(list[i]) <= joined(list[j]);
        assert list[i] in list && list[j] in list;
      }
    }

    /** succ heads the remaining roster, which is only looked at when the owner leaves others behind. */
    method LeaveGroup(g: Gid, u: Uid) returns (outcome: T.LeaveOutcome, ghost succ: Uid)
      requires Valid()
      modifies this`groups, this`members, this`invites
      ensures Valid() && T.SuccessorOk(old(Contents()), g, u, succ)
      ensures (Contents(), outcome) == T.LeaveGroup(old(Contents()), g, u, succ)
    {
      succ := 0;
      ghost var was := Contents();
      var k := T.Seat(g, u);
      if k !in members { return T.NotGroupMember, 0; }
      var leaving := members[k];
      members := members - {k};
      invites := map id | id in invites && !(invites[id].group == g && invites[id].toUser == u) :: invites[id];
      assert Contents() == T.Departed(was, g, u);
      forall a, h, v | T.Addressed(Contents(), a, h, v) ensures T.Addressed(was, a, h, v) {}
      var remaining := OrderByJoin(g, set k | k in members && k.group == g :: k.user);
      if |remaining| == 0 {
        assert T.Roster(Contents(), g) == {};
        invites := map id | id in invites && invites[id].group != g :: invites[id];
        groups := groups - {g};
        forall a, h, v | T.Addressed(Contents(), a, h, v) ensures T.Addressed(was, a, h, v) {}
        return T.Left(true), 0;
      }
      assert remaining[0] in T.Roster(Contents(), g);
      forall v | v in T.Roster(Contents(), g)
        ensures members[T.Seat(g, remaining[0])].joinedAt <= members[T.Seat(g, v)].joinedAt
      {
        assert v in Elems(remaining);
        var i :| 0 <= i < |remaining| && remaining[i] == v;
      }
      assert T.Earliest(Contents(), g, remaining[0]);
      if leaving.role == T.Owner {
        var successor := T.Seat(g, remaining[0]);
        members := members[successor := members[successor].(role := T.Owner)];
        forall a, h, v | T.Addressed(Contents(), a, h, v) ensures T.Addressed(was, a, h, v) {}
      }
      return T.Left(false), remaining[0];
    }

    /** The broadcast list of g: every member once. */
    method GetGroupMemberIDs(g: Gid) returns (ids: seq<Uid>)
      ensures NoDup(ids) && Elems(ids) == T.Roster(Contents(), g)
    {
      ids := OrderBy(set k | k in members && k.group == g :: k.user, (u: Uid) => 0);
    }

    /** id is the UUID the database gives a new row. */
    method CreateInvite(id: Iid, g: Gid, from: Uid, to: Uid, key: string, nonce: string, now: Time)
      returns (outcome: T.InviteOutcome)
      requires Valid() && id !in invites
      modifies this`invites
      ensures Valid()
      ensures (Contents(), outcome) == T.CreateInvite(old(Contents()), id, g, from, to, key, nonce, now)
      ensures outcome.AlreadyMember? <==>
              exists a :: a in old(invites) && old(invites)[a].group == g && old(invites)[a].toUser == to
                          && old(invites)[a].status == T.Accepted
    {
      ghost var was := Contents();
      if prior :| prior in invites && invites[prior].group == g && invites[prior].toUser == to {
        assert T.Addressed(was, prior, g, to);
        assert T.FindInvite(was, g, to) == Some(prior);
        assert forall a :: T.Addressed(was, a, g, to) ==> a == prior;
        assert forall a :: a in invites && invites[a].group == g && invites[a].toUser == to ==>
               T.Addressed(was, a, g, to);
        if invites[prior].status == T.Accepted { return T.AlreadyMember; }
        invites := invites[prior := invites[prior].(
            status := T.Pending, fromUser := from, wrappedKey := key, keyNonce := nonce, createdAt := now)];
        forall a, h, v ensures T.Addressed(Contents(), a, h, v) <==> T.Addressed(was, a, h, v) {}
        return T.Invited(prior);
      }
      assert T.FindInvite(was, g, to) == None;
      invites := invites[id := T.InviteRow(g, from, to, T.Pending, key, nonce, now)];
      forall a, h, v | T.Addressed(Contents(), a, h, v)
        ensures T.Addressed(was, a, h, v) || (a == id && h == g && v == to) {}
      return T.Invited(id);
    }

    /** None for ErrInviteNotPending, else the accepted invite. */
    method AcceptInvite(id: Iid, u: Uid, now: Time) returns (accepted: Option<T.InviteRow>)
      requires Valid()
      modifies this`members, this`invites
      ensures Valid()
      ensures (Contents(), accepted.Some?) == T.AcceptInvite(old(Contents()), id, u, now)
      ensures accepted.Some? <==>
              id in old(invites) && old(invites)[id].toUser == u && old(invites)[id].status == T.Pending
      ensures accepted.Some? ==> id in invites && accepted.value == invites[id]
    {
      ghost var was := Contents();
      if !(id in invites && invites[id].toUser == u && invites[id].status == T.Pending) { return None; }
      invites := invites[id := invites[id].(status := T.Accepted)];
      forall a, h, v ensures T.Addressed(Contents(), a, h, v) <==> T.Addressed(was, a, h, v) {}
      var invite := invites[id];
      var k := T.Seat(invite.group, u);
      if k !in members {
        members := members[k := T.MemberRow(T.Regular, invite.wrappedKey, invite.keyNonce, invite.fromUser, now)];
        forall a, h, v ensures T.Addressed(Contents(), a, h, v) <==> T.Addressed(was, a, h, v) {}
      }
      return Some(invite);
    }

    method DeclineInvite(id: Iid, u: Uid) returns (ok: bool)
      requires Valid()
      modifies this`invites
      ensures Valid()
      ensures (Contents(), ok) == T.DeclineInvite(old(Contents()), id, u)
      ensures ok <==> id in old(invites) && old(invites)[id].toUser == u && old(invites)[id].status == T.Pending
      ensures invites == if ok then old(invites)[id := old(invites)[id].(status := T.Declined)] else old(invites)
    {
      ghost var was := Contents();
      ok := id in invites && invites[id].toUser == u && invites[id].status == T.Pending;
      if ok {
        invites := invites[id := invites[id].(status := T.Declined)];
        forall a, h, v ensures T.Addressed(Contents(), a, h, v) <==> T.Addressed(was, a, h, v) {}
      }
    }

    // ------------------------------------------------------------- listings

    function LabelOf(u: Uid): string
      reads this
      requires u in users
    {
      if users[u].displayName == "" then users[u].username else users[u].displayName
    }

    predicate IsMemberInfo(g: Gid, m: MemberInfo)
      reads this
    {
      && T.Seat(g, m.user) in members && m.user in users
      && m == MemberInfo(m.user, LabelOf(m.user), members[T.Seat(g, m.user)].role)
    }

    /** A roster joined with the users table: only members with a profile, by join time. */
    ghost predicate IsMemberList(g: Gid, list: seq<MemberInfo>)
      reads this
    {
      && (forall i :: 0 <= i < |list| ==> IsMemberInfo(g, list[i]))
      && (forall i, j :: 0 <= i < j < |list| ==>
            && list[i].user != list[j].user
            && members[T.Seat(g, list[i].user)].joinedAt <= members[T.Seat(g, list[j].user)].joinedAt)
      && (forall u :: u in T.Roster(Contents(), g) && u in users ==>
            exists i :: 0 <= i < |list| && list[i].user == u)
    }

    method ListGroupMembers(g: Gid) returns (list: seq<MemberInfo>)
      ensures IsMemberList(g, list)
      ensures forall i :: 0 <= i < |list| ==>
                list[i].name == if users[list[i].user].displayName != "" then users[list[i].user].displayName
                                else users[list[i].user].username
    {
      var order := OrderByJoin(g, set k | k in members && k.group == g && k.user in users :: k.user);
      assert forall i :: 0 <= i < |order| ==> order[i] in Elems(order);
      list := [];
      for i := 0 to |order|
        invariant |list| == i
        invariant forall a :: 0 <= a < i ==> list[a].user == order[a] && IsMemberInfo(g, list[a])
      {
        var row := users[order[i]];
        list := list + [MemberInfo(order[i], if row.displayName == "" then row.username else row.displayName,
                                   members[T.Seat(g, order[i])].role)];
      }
      forall u | u in T.Roster(Contents(), g) && u in users ensures exists i :: 0 <= i < |list| && list[i].user == u {
        var k :| k in members && k.group == g && k.user == u;
        assert u in Elems(order);
        var j :| 0 <= j < |order| && order[j] == u;
        assert list[j].user == u;
      }
    }

    /** The user's own seats, by group. */
    function MembershipsOf(u: Uid): (rows: map<Gid, T.MemberRow>)
      reads this
      ensures forall g :: g in rows <==> T.Seat(g, u) in members
      ensures forall g :: g in rows ==> rows[g] == members[T.Seat(g, u)]
    {
      var rows := map k | k in members && k.user == u :: k.group := members[T.Seat(k.group, u)];
      assert forall g :: T.Seat(g, u) in members ==> T.Seat(g, u).group in rows;
      rows
    }

    /** The groups with these ids that exist, newest first. */
    method NewestGroups(ids: set<Gid>) returns (order: seq<Gid>)
      ensures NoDup(order) && Elems(order) == ids * groups.Keys
      ensures forall i :: 0 <= i < |order| ==> order[i] in groups
      ensures forall i, j :: 0 <= i < j < |order| ==> groups[order[i]].createdAt >= groups[order[j]].createdAt
    {
      var rows := groups;
      var newest := (g: Gid) => if g in rows then -rows[g].createdAt else 0;
      order := OrderBy<Gid>(ids * groups.Keys, newest);
      forall i | 0 <= i < |order| ensures order[i] in groups { assert order[i] in Elems(order); }
      forall i, j | 0 <= i < j < |order| ensures groups[order[i]].createdAt >= groups[order[j]].createdAt {
        assert newest(order[i]) <= newest(order[j]);
      }
    }

    lemma SeatedGroups(u: Uid)
      ensures MembershipsOf(u).Keys * groups.Keys == T.VisibleGroups(Contents(), u)
    {
      forall g | g in MembershipsOf(u).Keys * groups.Keys ensures g in T.VisibleGroups(Contents(), u) {
        assert T.Seat(g, u).group in T.VisibleGroups(Contents(), u);
      }
    }

    /** Every group the user has both a seat and a group row for, newest first. */
    method ListGroupsForUser(u: Uid) returns (list: seq<GroupView>)
      ensures forall i, j :: 0 <= i < j < |list| ==>
                list[i].id != list[j].id && list[i].group.createdAt >= list[j].group.createdAt
      ensures (set i | 0 <= i < |list| :: list[i].id) == T.VisibleGroups(Contents(), u)
      ensures forall i :: 0 <= i < |list| ==>
                && list[i].id in groups && list[i].group == groups[list[i].id]
                && T.Seat(list[i].id, u) in members && list[i].membership == members[T.Seat(list[i].id, u)]
                && IsMemberList(list[i].id, list[i].members)
    {
      var membershipByGroup := MembershipsOf(u);
      var order := NewestGroups(membershipByGroup.Keys);
      list := [];
      for i := 0 to |order|
        invariant |list| == i
        invariant forall a :: 0 <= a < i ==>
                    && list[a].id == order[a] && list[a].id in groups && list[a].group == groups[list[a].id]
                    && T.Seat(list[a].id, u) in members && list[a].membership == members[T.Seat(list[a].id, u)]
                    && IsMemberList(list[a].id, list[a].members)
      {
        var g := order[i];
        assert g in Elems(order);
        var roster := ListGroupMembers(g);
        list := list + [GroupView(g, groups[g], roster, membershipByGroup[g])];
      }
      SeatedGroups(u);
      ListsTheseGroups(order, list);
    }

    /** The row shows an invite, with its group's name and its inviter's label. */
    predicate IsInviteInfo(i: InviteInfo)
      reads this
    {
      && i.id in invites && i.invite == invites[i.id]
      && i.invite.group in groups && i.groupName == groups[i.invite.group].name
      && i.invite.fromUser in users && i.from == LabelOf(i.invite.fromUser)
    }

    /** The user's pending invites whose group and inviter both exist, newest first. */
    method ListPendingInvites(u: Uid) returns (list: seq<InviteInfo>)
      ensures forall i :: 0 <= i < |list| ==> IsInviteInfo(list[i])
      ensures forall i :: 0 <= i < |list| ==>
                list[i].invite.fromUser in users
                && list[i].from == if users[list[i].invite.fromUser].displayName != ""
                                   then users[list[i].invite.fromUser].displayName
                                   else users[list[i].invite.fromUser].username
      ensures (set i | 0 <= i < |list| :: list[i].id) == T.VisibleInvites(Contents(), users.Keys, u)
      ensures forall i, j :: 0 <= i < j < |list| ==>
                list[i].id != list[j].id && list[i].invite.createdAt >= list[j].invite.createdAt
    {
      var ids := NewestInvites(u);
      assert forall i :: 0 <= i < |ids| ==> ids[i] in Elems(ids);
      list := [];
      for i := 0 to |ids|
        invariant |list| == i
        invariant forall a :: 0 <= a < i ==> list[a].id == ids[a] && IsInviteInfo(list[a])
      {
        var invite := invites[ids[i]];
        var inviter := users[invite.fromUser];
        list := list + [InviteInfo(ids[i], invite, groups[invite.group].name,
                                   if inviter.displayName == "" then inviter.username else inviter.displayName)];
      }
      forall id | id in Elems(ids) ensures id in (set i | 0 <= i < |list| :: list[i].id) {
        var i :| 0 <= i < |ids| && ids[i] == id;
        assert list[i].id == id;
      }
    }

    /** The joins and the order of the listing. */
    method NewestInvites(u: Uid) returns (ids: seq<Iid>)
      ensures NoDup(ids) && Elems(ids) == T.VisibleInvites(Contents(), users.Keys, u)
      ensures forall id :: id in ids ==> id in invites
      ensures forall i, j :: 0 <= i < j < |ids| ==> invites[ids[i]].createdAt >= invites[ids[j]].createdAt
    {
      var rows := invites;
      var newest := (id: Iid) => if id in rows then -rows[id].createdAt else 0;
      var joined := set id | id in invites && invites[id].toUser == u && invites[id].status == T.Pending
                             && invites[id].group in groups && invites[id].fromUser in users;
      ids := OrderBy(joined, newest);
      forall id | id in ids ensures id in invites { assert id in Elems(ids); }
      forall i, j | 0 <= i < j < |ids| ensures invites[ids[i]].createdAt >= invites[ids[j]].createdAt {
        assert newest(ids[i]) <= newest(ids[j]);
      }
    }
  }
}
