/** The three group tables as values, and each repository call as a function on them.
    A call is one transaction, hence one atomic change of the tables. */
module GroupTables {
  import opened Basics

  datatype Role = Owner | Admin | Regular
  datatype InviteStatus = Pending | Accepted | Declined

  datatype GroupRow = GroupRow(name: string, createdBy: Uid, createdAt: Time)

  /** Primary key of group_members. */
  datatype Seat = Seat(group: Gid, user: Uid)

  datatype MemberRow = MemberRow(
    role: Role, wrappedKey: string, keyNonce: string, wrappedBy: Uid, joinedAt: Time)

  datatype InviteRow = InviteRow(
    group: Gid, fromUser: Uid, toUser: Uid, status: InviteStatus,
    wrappedKey: string, keyNonce: string, createdAt: Time)

  datatype Tables = Tables(
    groups: map<Gid, GroupRow>, members: map<Seat, MemberRow>, invites: map<Iid, InviteRow>)

  const EMPTY := Tables(map[], map[], map[])

  /** A member row before the database stamps its group and join time. */
  datatype NewMember = NewMember(
    user: Uid, role: Role, wrappedKey: string, keyNonce: string, wrappedBy: Uid)

  // ---------------------------------------------------------------- reads

  function Roster(t: Tables, g: Gid): set<Uid> {
    set k | k in t.members && k.group == g :: k.user
  }

  function RoleOf(t: Tables, g: Gid, u: Uid): Option<Role> {
    if Seat(g, u) in t.members then Some(t.members[Seat(g, u)].role) else None
  }

  predicate IsOwner(t: Tables, g: Gid, u: Uid) {
    Seat(g, u) in t.members && t.members[Seat(g, u)].role == Owner
  }

  /** requireGroupAdmin lets u manage the members of g. */
  predicate MayManage(t: Tables, g: Gid, u: Uid) {
    RoleOf(t, g, u) == Some(Owner) || RoleOf(t, g, u) == Some(Admin)
  }

  /** GetGroupWithMembers finds both u's seat and the group. */
  predicate Loads(t: Tables, g: Gid, u: Uid) {
    Seat(g, u) in t.members && g in t.groups
  }

  predicate Addressed(t: Tables, id: Iid, g: Gid, u: Uid) {
    id in t.invites && t.invites[id].group == g && t.invites[id].toUser == u
  }

  /** The invite row for a (group, target) pair, if there is one. */
  ghost function FindInvite(t: Tables, g: Gid, u: Uid): (r: Option<Iid>)
    ensures r.Some? ==> Addressed(t, r.value, g, u)
    ensures r.None? ==> forall id :: !Addressed(t, id, g, u)
  {
    if id :| Addressed(t, id, g, u) then Some(id) else None
  }

  predicate AcceptedRow(t: Tables, g: Gid, u: Uid) {
    exists id :: id in t.invites && Addressed(t, id, g, u) && t.invites[id].status == Accepted
  }

  /** The groups ListGroupsForUser returns: those of u's seats that have a group row. */
  function VisibleGroups(t: Tables, u: Uid): set<Gid> {
    set k | k in t.members && k.user == u && k.group in t.groups :: k.group
  }

  /** The joins of ListPendingInvites: an invite shows only if its group and inviter exist. */
  function VisibleInvites(t: Tables, users: set<Uid>, u: Uid): set<Iid> {
    set id | id in t.invites && PendingFor(t, id, u) && t.invites[id].group in t.groups
        && t.invites[id].fromUser in users
  }

  predicate PendingFor(t: Tables, id: Iid, u: Uid) {
    id in t.invites && t.invites[id].toUser == u && t.invites[id].status == Pending
  }

  // --------------------------------------------------------------- writes

  function Stamp(n: NewMember, now: Time): MemberRow {
    MemberRow(n.role, n.wrappedKey, n.keyNonce, n.wrappedBy, now)
  }

  function SeatRows(g: Gid, rows: seq<NewMember>, now: Time): map<Seat, MemberRow> {
    if rows == [] then map[]
    else SeatRows(g, rows[..|rows| - 1], now)[Seat(g, rows[|rows| - 1].user) := Stamp(rows[|rows| - 1], now)]
  }

  predicate DistinctUsers(rows: seq<NewMember>) {
    forall i, j :: 0 <= i < j < |rows| ==> rows[i].user != rows[j].user
  }

  /** Inserting rows into g repeats no key. */
  predicate NoClash(taken: map<Seat, MemberRow>, g: Gid, rows: seq<NewMember>) {
    DistinctUsers(rows) && forall i :: 0 <= i < |rows| ==> Seat(g, rows[i].user) !in taken
  }

  /** The insert succeeds: the batch is not empty and no primary key is hit twice. */
  predicate Insertable(t: Tables, g: Gid, rows: seq<NewMember>) {
    rows != [] && g !in t.groups && NoClash(t.members, g, rows)
  }

  function CreateGroup(t: Tables, g: Gid, name: string, createdBy: Uid, rows: seq<NewMember>, now: Time): Tables {
    if Insertable(t, g, rows) then
      t.(groups := t.groups[g := GroupRow(name, createdBy, now)],
         members := t.members + SeatRows(g, rows, now))
    else t
  }

  function RenameGroup(t: Tables, g: Gid, name: string): Tables {
    if g in t.groups then t.(groups := t.groups[g := t.groups[g].(name := name)]) else t
  }

  function SetRole(t: Tables, g: Gid, u: Uid, role: Role): Tables
    requires Seat(g, u) in t.members
  {
    t.(members := t.members[Seat(g, u) := t.members[Seat(g, u)].(role := role)])
  }

  /** UPDATE ... WHERE role <> 'owner'; false when no row matched. */
  function UpdateMemberRole(t: Tables, g: Gid, u: Uid, role: Role): (Tables, bool) {
    if Seat(g, u) in t.members && t.members[Seat(g, u)].role != Owner
    then (SetRole(t, g, u, role), true)
    else (t, false)
  }

  /** The leaver's own two deletes. */
  function Departed(t: Tables, g: Gid, u: Uid): Tables {
    t.(members := t.members - {Seat(g, u)},
       invites := map id | id in t.invites && !Addressed(t, id, g, u) :: t.invites[id])
  }

  function Dissolved(t: Tables, g: Gid): Tables {
    t.(groups := t.groups - {g},
       invites := map id | id in t.invites && t.invites[id].group != g :: t.invites[id])
  }

  predicate Earliest(t: Tables, g: Gid, u: Uid) {
    && Seat(g, u) in t.members
    && forall v :: v in Roster(t, g) ==> t.members[Seat(g, u)].joinedAt <= t.members[Seat(g, v)].joinedAt
  }

  predicate NeedsSuccessor(t: Tables, g: Gid, u: Uid) {
    IsOwner(t, g, u) && Roster(Departed(t, g, u), g) != {}
  }

  /** succ may head the remaining roster when it is listed by joined_at; rows with
      equal join times come back in any order. */
  predicate SuccessorOk(t: Tables, g: Gid, u: Uid, succ: Uid) {
    NeedsSuccessor(t, g, u) ==> Earliest(Departed(t, g, u), g, succ)
  }

  /** Somebody can always succeed: the members left, if any, have an earliest. */
  ghost function SomeSuccessor(t: Tables, g: Gid, u: Uid): (succ: Uid)
    ensures SuccessorOk(t, g, u, succ)
  {
    var t1 := Departed(t, g, u);
    if Roster(t1, g) == {} then 0
    else
      var joined := (v: Uid) => if Seat(g, v) in t1.members then t1.members[Seat(g, v)].joinedAt else 0;
      LeastExists(Roster(t1, g), joined);
      var succ :| succ in Roster(t1, g) && forall v :: v in Roster(t1, g) ==> joined(succ) <= joined(v);
      SeatedOnRoster(t1, g);
      succ
  }

  lemma SeatedOnRoster(t: Tables, g: Gid)
    ensures forall u :: u in Roster(t, g) <==> Seat(g, u) in t.members
  {
    forall u ensures u in Roster(t, g) <==> Seat(g, u) in t.members {
      if Seat(g, u) in t.members { assert Seat(g, u).user in Roster(t, g); }
    }
  }

  datatype LeaveOutcome = NotGroupMember | Left(deleted: bool)

  function LeaveGroup(t: Tables, g: Gid, u: Uid, succ: Uid): (Tables, LeaveOutcome)
    requires SuccessorOk(t, g, u, succ)
  {
    if Seat(g, u) !in t.members then (t, NotGroupMember)
    else
      var t1 := Departed(t, g, u);
      if Roster(t1, g) == {} then (Dissolved(t1, g), Left(true))
      else if IsOwner(t, g, u) then (SetRole(t1, g, succ, Owner), Left(false))
      else (t1, Left(false))
  }

  datatype InviteOutcome = AlreadyMember | Invited(id: Iid)

  /** id is the UUID a newly inserted row would get. */
  ghost function CreateInvite(t: Tables, id: Iid, g: Gid, from: Uid, to: Uid,
                              key: string, nonce: string, now: Time): (Tables, InviteOutcome)
  {
    match FindInvite(t, g, to)
    case Some(prior) =>
      if t.invites[prior].status == Accepted then (t, AlreadyMember)
      else
        (t.(invites := t.invites[prior := t.invites[prior].(
            status := Pending, fromUser := from, wrappedKey := key, keyNonce := nonce, createdAt := now)]),
         Invited(prior))
    case None =>
      (t.(invites := t.invites[id := InviteRow(g, from, to, Pending, key, nonce, now)]), Invited(id))
  }

  function SetStatus(t: Tables, id: Iid, status: InviteStatus): Tables
    requires id in t.invites
  {
    t.(invites := t.invites[id := t.invites[id].(status := status)])
  }

  /** The bool is false for ErrInviteNotPending. A seat that is already taken is left
      as it is, and the accept still counts. */
  function AcceptInvite(t: Tables, id: Iid, u: Uid, now: Time): (Tables, bool) {
    if !PendingFor(t, id, u) then (t, false)
    else
      var t1 := SetStatus(t, id, Accepted);
      var inv := t1.invites[id];
      if Seat(inv.group, u) in t1.members then (t1, true)
      else
        (t1.(members := t1.members[Seat(inv.group, u) :=
               MemberRow(Regular, inv.wrappedKey, inv.keyNonce, inv.fromUser, now)]), true)
  }

  function DeclineInvite(t: Tables, id: Iid, u: Uid): (Tables, bool) {
    if PendingFor(t, id, u) then (SetStatus(t, id, Declined), true) else (t, false)
  }

  // ---------------------------------------------- requests that need a loop

  /** One entry of a create request; user is None when its id does not parse. */
  datatype Entry = Entry(user: Option<Uid>, wrappedKey: string, keyNonce: string)

  /** The rows a create request asks for: the creator as owner, then each listed
      contact once; None when an entry is malformed. */
  function RowsAfter(caller: Uid, rows: seq<NewMember>, entries: seq<Entry>): Option<seq<NewMember>>
    decreases |entries|
  {
    if entries == [] then Some(rows)
    else
      var e := entries[0];
      if e.user.None? then None
      else if exists i :: 0 <= i < |rows| && rows[i].user == e.user.value then RowsAfter(caller, rows, entries[1..])
      else if e.wrappedKey == "" || e.keyNonce == "" then None
      else RowsAfter(caller, rows + [NewMember(e.user.value, Regular, e.wrappedKey, e.keyNonce, caller)], entries[1..])
  }

  function CreatorRow(caller: Uid, key: string, nonce: string): NewMember {
    NewMember(caller, Owner, key, nonce, caller)
  }

  function RequestRows(caller: Uid, key: string, nonce: string, entries: seq<Entry>): Option<seq<NewMember>> {
    if key == "" || nonce == "" then None else RowsAfter(caller, [CreatorRow(caller, key, nonce)], entries)
  }

  /** The creator heads the batch as its only owner, every user appears once, and the
      creator performed every wrap. */
  predicate FoundingRows(caller: Uid, rows: seq<NewMember>) {
    && rows != [] && rows[0].user == caller && rows[0].role == Owner
    && DistinctUsers(rows)
    && (forall i :: 0 < i < |rows| ==> rows[i].role == Regular)
    && (forall i :: 0 <= i < |rows| ==> rows[i].wrappedBy == caller)
  }

  lemma {:induction false} RowsAfterFounds(caller: Uid, rows: seq<NewMember>, entries: seq<Entry>)
    requires FoundingRows(caller, rows)
    ensures RowsAfter(caller, rows, entries).Some? ==> FoundingRows(caller, RowsAfter(caller, rows, entries).value)
    decreases |entries|
  {
    if entries != [] {
      var e := entries[0];
      if e.user.Some? {
        if exists i :: 0 <= i < |rows| && rows[i].user == e.user.value {
          RowsAfterFounds(caller, rows, entries[1..]);
        } else if e.wrappedKey != "" && e.keyNonce != "" {
          RowsAfterFounds(caller, rows + [NewMember(e.user.value, Regular, e.wrappedKey, e.keyNonce, caller)],
            entries[1..]);
        }
      }
    }
  }

  /** The insert of a batch takes no seat but those of its users ... */
  lemma {:induction false} SeatRowsOnly(g: Gid, rows: seq<NewMember>, now: Time, k: Seat)
    requires k in SeatRows(g, rows, now)
    ensures k.group == g && exists i :: 0 <= i < |rows| && rows[i].user == k.user
  {
    var front, last := rows[..|rows| - 1], rows[|rows| - 1];
    if k == Seat(g, last.user) {
      assert rows[|rows| - 1].user == k.user;
    } else {
      SeatRowsOnly(g, front, now, k);
      var i :| 0 <= i < |front| && front[i].user == k.user;
      assert rows[i].user == k.user;
    }
  }

  /** ... and takes each of those, with that user's row. */
  lemma {:induction false} SeatRowsAll(g: Gid, rows: seq<NewMember>, now: Time, i: nat)
    requires DistinctUsers(rows) && i < |rows|
    ensures Seat(g, rows[i].user) in SeatRows(g, rows, now)
    ensures SeatRows(g, rows, now)[Seat(g, rows[i].user)] == Stamp(rows[i], now)
  {
    if i < |rows| - 1 {
      var front := rows[..|rows| - 1];
      SeatRowsAll(g, front, now, i);
      assert front[i] == rows[i] && rows[i].user != rows[|rows| - 1].user;
    }
  }

  lemma SeatRowsAt(g: Gid, rows: seq<NewMember>, now: Time)
    requires DistinctUsers(rows)
    ensures forall k :: k in SeatRows(g, rows, now) ==>
              k.group == g && exists i :: 0 <= i < |rows| && rows[i].user == k.user
    ensures forall i :: 0 <= i < |rows| ==>
              && Seat(g, rows[i].user) in SeatRows(g, rows, now)
              && SeatRows(g, rows, now)[Seat(g, rows[i].user)] == Stamp(rows[i], now)
  {
    forall k | k in SeatRows(g, rows, now)
      ensures k.group == g && exists i :: 0 <= i < |rows| && rows[i].user == k.user
    {
      SeatRowsOnly(g, rows, now, k);
    }
    forall i | 0 <= i < |rows|
      ensures Seat(g, rows[i].user) in SeatRows(g, rows, now)
      ensures SeatRows(g, rows, now)[Seat(g, rows[i].user)] == Stamp(rows[i], now)
    {
      SeatRowsAll(g, rows, now, i);
    }
  }
}
