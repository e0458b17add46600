/** Group handlers run one at a time: each HTTP request is a single step on the tables
    and on the hub's roster cache. More holds here than when handlers interleave. */
module AtomicHandlers {
  import opened Basics
  import opened GroupTables
  import opened GroupInvariants
  import opened RosterCache

  datatype Status = Done | BadRequest | Forbidden | NotFound | Conflict | Failed

  /** What a request leaves behind; stale names the group whose cached roster it drops. */
  datatype Reply = Reply(db: Tables, status: Status, stale: Option<Gid>)

  function Refuse(t: Tables, status: Status): Reply { Reply(t, status, None) }

  function Loaded(t: Tables, g: Gid, u: Uid): Status { if Loads(t, g, u) then Done else Failed }

  function CreateGroupReply(t: Tables, g: Gid, caller: Uid, name: string, key: string, nonce: string,
                            entries: seq<Entry>, now: Time): Reply
  {
    var rows := RequestRows(caller, key, nonce, entries);
    if rows.None? then Refuse(t, BadRequest)
    else if !Insertable(t, g, rows.value) then Refuse(t, Failed)
    else
      var t1 := CreateGroup(t, g, name, caller, rows.value, now);
      Reply(t1, Loaded(t1, g, caller), None)
  }

  function RenameReply(t: Tables, g: Gid, caller: Uid, name: string): Reply {
    if Seat(g, caller) !in t.members then Refuse(t, Forbidden)
    else var t1 := RenameGroup(t, g, name); Reply(t1, Loaded(t1, g, caller), None)
  }

  /** target is the user the request's username resolves to. */
  ghost function AddMemberReply(t: Tables, id: Iid, g: Gid, caller: Uid, target: Option<Uid>, key: string,
                                nonce: string,
                                now: Time): Reply
  {
    if !MayManage(t, g, caller) then Refuse(t, Forbidden)
    else if key == "" || nonce == "" then Refuse(t, BadRequest)
    else if target.None? then Refuse(t, NotFound)
    else if target.value == caller then Refuse(t, BadRequest)
    else if Seat(g, target.value) in t.members then Refuse(t, Conflict)
    else
      var (t1, outcome) := CreateInvite(t, id, g, caller, target.value, key, nonce, now);
      Reply(t1, if outcome.AlreadyMember? then Conflict else Done, None)
  }

  function AcceptReply(t: Tables, id: Iid, u: Uid, now: Time): Reply {
    if !PendingFor(t, id, u) then Refuse(t, NotFound)
    else
      var t1 := AcceptInvite(t, id, u, now).0;
      Reply(t1, Loaded(t1, t.invites[id].group, u), Some(t.invites[id].group))
  }

  function DeclineReply(t: Tables, id: Iid, u: Uid): Reply {
    var (t1, ok) := DeclineInvite(t, id, u);
    Reply(t1, if ok then Done else NotFound, None)
  }

  function UpdateRoleReply(t: Tables, g: Gid, caller: Uid, target: Uid, role: Role): Reply {
    if !MayManage(t, g, caller) then Refuse(t, Forbidden)
    else if role == Owner then Refuse(t, BadRequest)
    else match RoleOf(t, g, target)
      case None => Refuse(t, NotFound)
      case Some(Owner) => Refuse(t, Forbidden)
      case Some(_) =>
        var (t1, ok) := UpdateMemberRole(t, g, target, role);
        Reply(t1, if ok then Loaded(t1, g, caller) else Failed, None)
  }

  function LeaveReply(t: Tables, g: Gid, u: Uid, succ: Uid): Reply
    requires SuccessorOk(t, g, u, succ)
  {
    var (t1, outcome) := LeaveGroup(t, g, u, succ);
    if outcome.NotGroupMember? then Refuse(t, NotFound) else Reply(t1, Done, Some(g))
  }

  function RemoveReply(t: Tables, g: Gid, caller: Uid, target: Uid, succ: Uid): Reply
    requires SuccessorOk(t, g, target, succ)
  {
    if !MayManage(t, g, caller) then Refuse(t, Forbidden)
    else if target == caller then Refuse(t, BadRequest)
    else match RoleOf(t, g, target)
      case None => Refuse(t, NotFound)
      case Some(Owner) => Refuse(t, Forbidden)
      case Some(r) =>
        if r == Admin && RoleOf(t, g, caller) != Some(Owner) then Refuse(t, Forbidden)
        else
          var t1 := LeaveGroup(t, g, target, succ).0;
          Reply(t1, Loaded(t1, g, caller), Some(g))
  }

  // ---------------------------------------------------------------- the runs

  /** One group frame that was fanned out: who was online, on the roster, and not its sender. */
  datatype Fanned = Fanned(group: Gid, sender: Uid, targets: set<Uid>)

  datatype World = World(db: Tables, cache: Cache, users: set<Uid>, now: Time, used: set<Gid>, issued: set<Iid>,
                         log: seq<Fanned>)

  datatype Step =
    | Tick(nanos: nat)
    | Register(user: Uid)
    | Create(g: Gid, caller: Uid, name: string, key: string, nonce: string, entries: seq<Entry>)
    | Rename(g: Gid, caller: Uid, name: string)
    | AddMember(id: Iid, g: Gid, caller: Uid, found: Option<Uid>, key: string, nonce: string)
    | Accept(id: Iid, caller: Uid)
    | Decline(id: Iid, caller: Uid)
    | UpdateRole(g: Gid, caller: Uid, target: Uid, role: Role)
    | Leave(g: Gid, caller: Uid, succ: Uid)
    | Remove(g: Gid, caller: Uid, target: Uid, succ: Uid)
    | GroupFrame(g: Gid, caller: Uid, online: set<Uid>, answer: seq<Uid>)

  const START := World(EMPTY, map[], {}, 0, {}, {}, [])

  /** The parameters a request's environment chooses are ones it could choose. */
  predicate Possible(w: World, step: Step) {
    match step
    case Create(g, _, _, _, _, _) => g !in w.used
    case AddMember(id, _, _, target, _, _) => id !in w.issued && (target.Some? ==> target.value in w.users)
    case Leave(g, caller, succ) => SuccessorOk(w.db, g, caller, succ)
    case Remove(g, _, target, succ) => SuccessorOk(w.db, g, target, succ)
    case GroupFrame(g, _, _, answer) => IsRosterList(w.db, g, answer)
    case _ => true
  }

  /** The invite id the request would give a new row. */
  function Issues(step: Step): set<Iid> {
    match step case AddMember(id, _, _, _, _, _) => {id} case _ => {}
  }

  ghost function Request(w: World, step: Step): Reply
    requires Possible(w, step)
  {
    match step
    case Create(g, caller, name, key, nonce, entries) =>
      CreateGroupReply(w.db, g, caller, name, key, nonce, entries, w.now)
    case Rename(g, caller, name) => RenameReply(w.db, g, caller, name)
    case AddMember(id, g, caller, target, key, nonce) => AddMemberReply(w.db, id, g, caller, target, key, nonce, w.now)
    case Accept(id, caller) => AcceptReply(w.db, id, caller, w.now)
    case Decline(id, caller) => DeclineReply(w.db, id, caller)
    case UpdateRole(g, caller, target, role) => UpdateRoleReply(w.db, g, caller, target, role)
    case Leave(g, caller, succ) => LeaveReply(w.db, g, caller, succ)
    case Remove(g, caller, target, succ) => RemoveReply(w.db, g, caller, target, succ)
    case _ => Refuse(w.db, Done)
  }

  /** An inbound group frame: the sender's membership is looked up, then the fan-out
      looks the roster up again. */
  function FanOut(w: World, g: Gid, sender: Uid, online: set<Uid>, answer: seq<Uid>): World {
    var (seen, c1) := Resolve(w.cache, g, w.now, answer);
    if sender !in seen then w.(cache := c1, used := w.used + {g})
    else
      var (ids, c2) := Resolve(c1, g, w.now, answer);
      var targets := set u | u in ids && u != sender && u in online;
      w.(cache := c2, used := w.used + {g}, log := w.log + [Fanned(g, sender, targets)])
  }

  /** One request, or one frame. Callers are registered users; anything else changes nothing. */
  ghost function Apply(w: World, step: Step): World {
    match step
    case Tick(n) => w.(now := w.now + n)
    case Register(u) => w.(users := w.users + {u})
    case _ =>
      if step.caller !in w.users || !Possible(w, step) then w
      else match step
        case GroupFrame(g, sender, online, answer) => FanOut(w, g, sender, online, answer)
        case _ =>
          var r := Request(w, step);
          w.(db := r.db, cache := Invalidate(w.cache, r.stale),
             used := if step.Create? then w.used + {step.g} else w.used,
             issued := w.issued + Issues(step))
  }

  ghost function Exec(w: World, steps: seq<Step>): World
    decreases |steps|
  {
    if steps == [] then w else Exec(Apply(w, steps[0]), steps[1..])
  }

  // --------------------------------------------------------------- invariant

  /** Every cached list, expired or not, is the current roster. */
  ghost predicate CacheCurrent(w: World) {
    forall g :: g in w.cache ==> g in w.used && IsRosterList(w.db, g, w.cache[g].ids)
  }

  ghost predicate DbInv(t: Tables, now: Time, used: set<Gid>) {
    TablesOk(t, now) && Referential(t) && Within(t, used)
  }

  ghost predicate Inv(w: World) {
    && DbInv(w.db, w.now, w.used)
    && CacheCurrent(w)
    && w.db.invites.Keys <= w.issued
    && (forall id :: id in w.db.invites ==> w.db.invites[id].fromUser in w.users)
  }

  lemma RostersAgree(t: Tables, t1: Tables, g: Gid)
    requires forall u :: Seat(g, u) in t1.members <==> Seat(g, u) in t.members
    ensures Roster(t1, g) == Roster(t, g)
  {
    SeatedOnRoster(t, g);
    SeatedOnRoster(t1, g);
  }

  /** What a request must do for the invariant: keep the table facts, change the roster of
      no known group but the one it drops from the cache, and invite only as its caller. */
  ghost predicate GoodReply(t: Tables, now: Time, used: set<Gid>, r: Reply, used1: set<Gid>, caller: Uid) {
    DbInv(r.db, now, used1) && GoodChange(t, used, r, caller)
  }

  ghost predicate GoodChange(t: Tables, used: set<Gid>, r: Reply, caller: Uid) {
    && (forall g, u :: g in used && Some(g) != r.stale ==> (Seat(g, u) in r.db.members <==> Seat(g, u) in t.members))
    && (forall id :: id in r.db.invites ==>
          r.db.invites[id].fromUser == caller
            || (id in t.invites && r.db.invites[id].fromUser == t.invites[id].fromUser))
  }

  // Each table change.

  lemma InviteDb(t: Tables, id: Iid, g: Gid, from: Uid, to: Uid, key: string, nonce: string,
                 now: Time, used: set<Gid>)
    requires DbInv(t, now, used) && id !in t.invites && g in t.groups && Seat(g, to) !in t.members
    ensures var t1 := CreateInvite(t, id, g, from, to, key, nonce, now).0;
            TablesOk(t1, now) && Within(t1, used) && Referential(t1)
  {
    InviteKeeps(t, id, g, from, to, key, nonce, now, used);
  }

  lemma AcceptDb(t: Tables, id: Iid, u: Uid, now: Time, used: set<Gid>)
    requires DbInv(t, now, used)
    ensures DbInv(AcceptInvite(t, id, u, now).0, now, used)
  {
    AcceptKeeps(t, id, u, now, used);
  }

  lemma DeclineDb(t: Tables, id: Iid, u: Uid, now: Time, used: set<Gid>)
    requires DbInv(t, now, used)
    ensures DbInv(DeclineInvite(t, id, u).0, now, used)
  {
    DeclineKeeps(t, id, u, now, used);
  }

  lemma RoleDb(t: Tables, g: Gid, u: Uid, role: Role, now: Time, used: set<Gid>)
    requires DbInv(t, now, used) && role != Owner
    ensures DbInv(UpdateMemberRole(t, g, u, role).0, now, used)
  {
    RoleKeeps(t, g, u, role, now, used);
  }

  lemma RenameDb(t: Tables, g: Gid, name: string, now: Time, used: set<Gid>)
    requires DbInv(t, now, used)
    ensures DbInv(RenameGroup(t, g, name), now, used)
  {
    RenameKeeps(t, g, name, now, used);
  }

  lemma LeaveDb(t: Tables, g: Gid, u: Uid, succ: Uid, now: Time, used: set<Gid>)
    requires DbInv(t, now, used) && SuccessorOk(t, g, u, succ)
    ensures DbInv(LeaveGroup(t, g, u, succ).0, now, used)
  {
    LeaveKeeps(t, g, u, succ, now, used);
    LeaveKeepsReferential(t, g, u, succ);
  }

  lemma CreateDb(t: Tables, g: Gid, caller: Uid, name: string, rows: seq<NewMember>, now: Time, used: set<Gid>)
    requires DbInv(t, now, used) && g !in used && FoundingRows(caller, rows) && Insertable(t, g, rows)
    ensures DbInv(CreateGroup(t, g, name, caller, rows, now), now, used + {g})
  {
    CreateKeeps(t, g, name, caller, rows, now, used);
    CreateShape(t, g, name, caller, rows, now);
  }

  lemma LeaveKeepsReferential(t: Tables, g: Gid, u: Uid, succ: Uid)
    requires Referential(t) && SuccessorOk(t, g, u, succ)
    ensures Referential(LeaveGroup(t, g, u, succ).0)
  {
    if Seat(g, u) in t.members {
      LeaveShape(t, g, u, succ);
      var t1 := LeaveGroup(t, g, u, succ).0;
      SeatedOnRoster(t, g);
      if g !in t1.groups {
        var t0 := Departed(t, g, u);
        SeatedOnRoster(t0, g);
        assert Roster(t, g) == {u};
        assert forall v :: Seat(g, v) !in t1.members;
        forall k | k in t1.members ensures k.group != g { assert Seat(k.group, k.user) == k; }
      }
    }
  }

  // Each request.

  lemma CreateGood(t: Tables, g: Gid, caller: Uid, name: string, key: string, nonce: string,
                   entries: seq<Entry>, now: Time, used: set<Gid>)
    requires DbInv(t, now, used) && g !in used
    ensures GoodReply(t, now, used, CreateGroupReply(t, g, caller, name, key, nonce, entries, now), used + {g}, caller)
  {
    var rows := RequestRows(caller, key, nonce, entries);
    if rows.Some? && Insertable(t, g, rows.value) {
      RowsAfterFounds(caller, [CreatorRow(caller, key, nonce)], entries);
      CreateDb(t, g, caller, name, rows.value, now, used);
      CreateShape(t, g, name, caller, rows.value, now);
    }
  }

  predicate MayInvite(t: Tables, g: Gid, caller: Uid, target: Option<Uid>, key: string, nonce: string) {
    && MayManage(t, g, caller) && key != "" && nonce != ""
    && target.Some? && target.value != caller && Seat(g, target.value) !in t.members
  }

  lemma InviteGood(t: Tables, id: Iid, g: Gid, caller: Uid, target: Uid, key: string, nonce: string,
                   now: Time, used: set<Gid>, status: Status)
    requires DbInv(t, now, used) && id !in t.invites && g in t.groups && Seat(g, target) !in t.members
    ensures GoodReply(t, now, used, Reply(CreateInvite(t, id, g, caller, target, key, nonce, now).0, status, None),
                      used, caller)
  {
    InviteDb(t, id, g, caller, target, key, nonce, now, used);
  }

  lemma AddMemberGood(t: Tables, id: Iid, g: Gid, caller: Uid, target: Option<Uid>,
                      key: string, nonce: string, now: Time, used: set<Gid>)
    requires DbInv(t, now, used) && id !in t.invites
    ensures GoodReply(t, now, used, AddMemberReply(t, id, g, caller, target, key, nonce, now), used, caller)
  {
    var r := AddMemberReply(t, id, g, caller, target, key, nonce, now);
    if MayInvite(t, g, caller, target, key, nonce) {
      assert Seat(g, caller) in t.members && Seat(g, caller).group in t.groups;
      InviteGood(t, id, g, caller, target.value, key, nonce, now, used, r.status);
      assert r == Reply(CreateInvite(t, id, g, caller, target.value, key, nonce, now).0, r.status, None);
    } else {
      assert r == Refuse(t, r.status);
    }
  }

  /** What an invitation request answers, read off the stored rows; it goes out exactly when an
      owner or admin names a registered outsider with a complete wrap, the refusal inside
      CreateInvite is never reached, and no other answer moves anything. */
  lemma InviteSucceedsIff(steps: seq<Step>, id: Iid, g: Gid, caller: Uid, target: Option<Uid>,
                          key: string, nonce: string)
    ensures var w := Exec(START, steps); var t := w.db;
            var r := AddMemberReply(t, id, g, caller, target, key, nonce, w.now);
            var manages := Seat(g, caller) in t.members && t.members[Seat(g, caller)].role in {Owner, Admin};
            && (r.status == Forbidden <==> !manages)
            && (r.status == BadRequest <==> manages && (key == "" || nonce == "" || target == Some(caller)))
            && (r.status == NotFound <==> manages && key != "" && nonce != "" && target == None)
            && (r.status == Conflict <==>
                  manages && key != "" && nonce != "" && target.Some? && target.value != caller
                  && Seat(g, target.value) in t.members)
            && (r.status == Done <==>
                  manages && key != "" && nonce != "" && target.Some? && target.value != caller
                  && Seat(g, target.value) !in t.members)
            && r.stale == None && (r.status != Done ==> r.db == t)
  {
    RunKeepsInv(START, steps);
  }

  /** The invitation that goes out is the pair's one row, as asked, and nothing else moves. */
  lemma InviteIsAsAsked(steps: seq<Step>, id: Iid, g: Gid, caller: Uid, target: Uid, key: string, nonce: string)
    requires var w := Exec(START, steps);
             && id !in w.db.invites
             && AddMemberReply(w.db, id, g, caller, Some(target), key, nonce, w.now).status == Done
    ensures var w := Exec(START, steps); var t := w.db;
            var t1 := AddMemberReply(t, id, g, caller, Some(target), key, nonce, w.now).db;
            && t1.groups == t.groups && t1.members == t.members
            && (exists a :: a in t1.invites && t1.invites[a] == InviteRow(g, caller, target, Pending, key, nonce, w.now)
                            && t1.invites == t.invites[a := t1.invites[a]]
                            && (a == id
                                 || (a in t.invites && t.invites[a].group == g && t.invites[a].toUser == target)))
  {
    RunKeepsInv(START, steps);
    var w := Exec(START, steps);
    var t1 := AddMemberReply(w.db, id, g, caller, Some(target), key, nonce, w.now).db;
    var a := if FindInvite(w.db, g, target).Some? then FindInvite(w.db, g, target).value else id;
    assert a in t1.invites;
  }

  lemma AcceptChange(t: Tables, id: Iid, u: Uid, now: Time, used: set<Gid>)
    ensures GoodChange(t, used, AcceptReply(t, id, u, now), u)
  {
  }

  lemma AcceptGood(t: Tables, id: Iid, u: Uid, now: Time, used: set<Gid>)
    requires DbInv(t, now, used)
    ensures GoodReply(t, now, used, AcceptReply(t, id, u, now), used, u)
  {
    AcceptChange(t, id, u, now, used);
    AcceptDb(t, id, u, now, used);
    assert AcceptReply(t, id, u, now).db == AcceptInvite(t, id, u, now).0;
  }

  lemma DeclineGood(t: Tables, id: Iid, u: Uid, now: Time, used: set<Gid>)
    requires DbInv(t, now, used)
    ensures GoodReply(t, now, used, DeclineReply(t, id, u), used, u)
  {
    DeclineDb(t, id, u, now, used);
  }

  lemma UpdateRoleGood(t: Tables, g: Gid, caller: Uid, target: Uid, role: Role, now: Time, used: set<Gid>)
    requires DbInv(t, now, used)
    ensures GoodReply(t, now, used, UpdateRoleReply(t, g, caller, target, role), used, caller)
  {
    if role != Owner { RoleDb(t, g, target, role, now, used); }
  }

  lemma RenameGood(t: Tables, g: Gid, caller: Uid, name: string, now: Time, used: set<Gid>)
    requires DbInv(t, now, used)
    ensures GoodReply(t, now, used, RenameReply(t, g, caller, name), used, caller)
  {
    RenameDb(t, g, name, now, used);
  }

  lemma LeaveChange(t: Tables, g: Gid, u: Uid, succ: Uid, used: set<Gid>, caller: Uid)
    requires SuccessorOk(t, g, u, succ)
    ensures forall status :: GoodChange(t, used, Reply(LeaveGroup(t, g, u, succ).0, status, Some(g)), caller)
    ensures forall status :: GoodChange(t, used, Refuse(t, status), caller)
  {
    if Seat(g, u) in t.members { LeaveShape(t, g, u, succ); }
  }

  /** A leave or a removal: refused without a trace, or a LeaveGroup that drops g from the cache. */
  lemma DepartureGood(t: Tables, g: Gid, u: Uid, succ: Uid, now: Time, used: set<Gid>, caller: Uid, r: Reply)
    requires DbInv(t, now, used) && SuccessorOk(t, g, u, succ)
    requires r == Refuse(t, r.status) || r == Reply(LeaveGroup(t, g, u, succ).0, r.status, Some(g))
    ensures GoodReply(t, now, used, r, used, caller)
  {
    LeaveDb(t, g, u, succ, now, used);
    LeaveChange(t, g, u, succ, used, caller);
  }

  /** Every group a member sits in is there to load. */
  lemma SeatsLoad(t: Tables, g: Gid, u: Uid)
    requires Referential(t) && Seat(g, u) in t.members
    ensures Loads(t, g, u)
  {
    assert Seat(g, u).group in t.groups;
  }

  lemma CreateNeverFails(t: Tables, g: Gid, caller: Uid, name: string, key: string, nonce: string,
                         entries: seq<Entry>, now: Time, used: set<Gid>)
    requires Within(t, used) && g !in used
    ensures CreateGroupReply(t, g, caller, name, key, nonce, entries, now).status != Failed
  {
    var rows := RequestRows(caller, key, nonce, entries);
    if rows.Some? {
      RowsAfterFounds(caller, [CreatorRow(caller, key, nonce)], entries);
      CreateShape(t, g, name, caller, rows.value, now);
      forall i | 0 <= i < |rows.value| ensures Seat(g, rows.value[i].user) !in t.members {
        assert Seat(g, rows.value[i].user).group == g;
      }
    }
  }

  lemma RenameNeverFails(t: Tables, g: Gid, caller: Uid, name: string)
    requires Referential(t)
    ensures RenameReply(t, g, caller, name).status != Failed
  {
    if Seat(g, caller) in t.members { SeatsLoad(t, g, caller); }
  }

  lemma UpdateRoleNeverFails(t: Tables, g: Gid, caller: Uid, target: Uid, role: Role)
    requires Referential(t)
    ensures UpdateRoleReply(t, g, caller, target, role).status != Failed
  {
    if Seat(g, caller) in t.members { SeatsLoad(t, g, caller); }
  }

  lemma AcceptNeverFails(t: Tables, id: Iid, u: Uid, now: Time)
    requires Referential(t)
    ensures AcceptReply(t, id, u, now).status != Failed
  {
    if PendingFor(t, id, u) { assert t.invites[id].group in t.groups; }
  }

  lemma RequestNeverFails(w: World, step: Step)
    requires DbInv(w.db, w.now, w.used) && Possible(w, step) && !step.Tick? && !step.Register? && !step.GroupFrame?
    ensures Request(w, step).status != Failed
  {
    match step {
      case Create(g, caller, name, key, nonce, entries) =>
        CreateNeverFails(w.db, g, caller, name, key, nonce, entries, w.now, w.used);
      case Rename(g, caller, name) => RenameNeverFails(w.db, g, caller, name);
      case UpdateRole(g, caller, target, role) => UpdateRoleNeverFails(w.db, g, caller, target, role);
      case Accept(id, caller) => AcceptNeverFails(w.db, id, caller, w.now);
      case Remove(g, caller, target, succ) => RemoveReplyIs(w.db, g, caller, target, succ);
      case AddMember(_, _, _, _, _, _) =>
      case Decline(_, _) =>
      case Leave(_, _, _) =>
    }
  }

  /** No request fails once its checks are passed: inserts hit no key twice, updates find
      their row, and the group it answers with is there to load. */
  lemma NoRequestFails(steps: seq<Step>, step: Step)
    requires Possible(Exec(START, steps), step) && !step.Tick? && !step.Register? && !step.GroupFrame?
    ensures Request(Exec(START, steps), step).status != Failed
  {
    RunKeepsInv(START, steps);
    RequestNeverFails(Exec(START, steps), step);
  }

  lemma RequestGood(w: World, step: Step)
    requires Inv(w) && Possible(w, step) && !step.Tick? && !step.Register? && !step.GroupFrame?
    ensures GoodReply(w.db, w.now, w.used, Request(w, step),
                      if step.Create? then w.used + {step.g} else w.used, step.caller)
  {
    match step {
      case Create(g, caller, name, key, nonce, entries) =>
        CreateGood(w.db, g, caller, name, key, nonce, entries, w.now, w.used);
      case Rename(g, caller, name) => RenameGood(w.db, g, caller, name, w.now, w.used);
      case AddMember(id, g, caller, target, key, nonce) =>
        AddMemberGood(w.db, id, g, caller, target, key, nonce, w.now, w.used);
      case Accept(id, caller) => AcceptGood(w.db, id, caller, w.now, w.used);
      case Decline(id, caller) => DeclineGood(w.db, id, caller, w.now, w.used);
      case UpdateRole(g, caller, target, role) => UpdateRoleGood(w.db, g, caller, target, role, w.now, w.used);
      case Leave(g, caller, succ) => DepartureGood(w.db, g, caller, succ, w.now, w.used, caller, Request(w, step));
      case Remove(g, caller, target, succ) =>
        DepartureGood(w.db, g, target, succ, w.now, w.used, caller, Request(w, step));
    }
  }

  /** Only an invitation brings a new invite row, under the id issued for it. */
  lemma NewInvitesAreIssued(w: World, step: Step)
    requires Possible(w, step) && !step.Tick? && !step.Register? && !step.GroupFrame?
    ensures Request(w, step).db.invites.Keys <= w.db.invites.Keys + Issues(step)
  {
    match step {
      case Leave(g, u, succ) => LeavingAddsNoInvite(w.db, g, u, succ);
      case Remove(g, _, u, succ) => LeavingAddsNoInvite(w.db, g, u, succ);
      case _ =>
    }
  }

  lemma LeavingAddsNoInvite(t: Tables, g: Gid, u: Uid, succ: Uid)
    requires SuccessorOk(t, g, u, succ)
    ensures LeaveGroup(t, g, u, succ).0.invites.Keys <= t.invites.Keys
  {
  }

  /** A request leaves every list it does not drop from the cache current. */
  lemma RequestKeepsCache(w: World, step: Step)
    requires Inv(w) && Possible(w, step) && !step.Tick? && !step.Register? && !step.GroupFrame?
    requires GoodChange(w.db, w.used, Request(w, step), step.caller)
    ensures forall g :: g in Invalidate(w.cache, Request(w, step).stale) ==>
              g in w.used && IsRosterList(Request(w, step).db, g, w.cache[g].ids)
  {
    var r := Request(w, step);
    forall g | g in Invalidate(w.cache, r.stale) ensures g in w.used && IsRosterList(r.db, g, w.cache[g].ids) {
      RostersAgree(w.db, r.db, g);
    }
  }

  lemma FrameKeepsInv(w: World, g: Gid, sender: Uid, online: set<Uid>, answer: seq<Uid>)
    requires Inv(w) && IsRosterList(w.db, g, answer)
    ensures Inv(FanOut(w, g, sender, online, answer))
  {
  }

  lemma RequestKeepsInv(w: World, step: Step)
    requires Inv(w) && Possible(w, step) && !step.Tick? && !step.Register? && !step.GroupFrame?
    requires step.caller in w.users
    ensures Inv(Apply(w, step))
  {
    RequestGood(w, step);
    NewInvitesAreIssued(w, step);
    RequestKeepsCache(w, step);
  }

  lemma StepKeepsInv(w: World, step: Step)
    requires Inv(w)
    ensures Inv(Apply(w, step))
  {
    if step.Tick? || step.Register? {
      assert Apply(w, step).db == w.db && Apply(w, step).cache == w.cache && w.now <= Apply(w, step).now;
    } else if step.caller !in w.users || !Possible(w, step) {
      assert Apply(w, step) == w;
    } else if step.GroupFrame? {
      FrameKeepsInv(w, step.g, step.caller, step.online, step.answer);
    } else {
      RequestKeepsInv(w, step);
    }
  }

  lemma {:induction false} RunKeepsInv(w: World, steps: seq<Step>)
    requires Inv(w)
    ensures Inv(Exec(w, steps))
    decreases |steps|
  {
    if steps != [] {
      StepKeepsInv(w, steps[0]);
      RunKeepsInv(Apply(w, steps[0]), steps[1..]);
    }
  }

  // ---------------------------------------------------------------- theorems

  /** Without foreign keys, every member and invite row still names an existing group. */
  lemma RowsNameExistingGroups(steps: seq<Step>)
    ensures Referential(Exec(START, steps).db)
  {
    RunKeepsInv(START, steps);
  }

  /** Those joins drop no pending invite. */
  lemma NoPendingInviteIsHidden(steps: seq<Step>, u: Uid)
    ensures var w := Exec(START, steps);
            VisibleInvites(w.db, w.users, u) == set id | id in w.db.invites && PendingFor(w.db, id, u)
  {
    RunKeepsInv(START, steps);
  }

  /** Exactly the groups whose roster u is on. */
  lemma ListedGroupsAreTheCallersGroups(steps: seq<Step>, g: Gid, u: Uid)
    ensures var t := Exec(START, steps).db; g in VisibleGroups(t, u) <==> u in Roster(t, g)
  {
    RunKeepsInv(START, steps);
    var t := Exec(START, steps).db;
    SeatedOnRoster(t, g);
    if Seat(g, u) in t.members { assert Seat(g, u).group in VisibleGroups(t, u); }
  }

  /** A removal succeeds exactly under the documented rule, and then it deletes the target's
      seat and invite and nothing else: no group goes, no role moves. */
  lemma RemovalOnlyRemoves(steps: seq<Step>, g: Gid, caller: Uid, target: Uid, succ: Uid)
    requires SuccessorOk(Exec(START, steps).db, g, target, succ)
    ensures var t := Exec(START, steps).db; var r := RemoveReply(t, g, caller, target, succ);
            var manages := Seat(g, caller) in t.members && t.members[Seat(g, caller)].role in {Owner, Admin};
            var allowed := Seat(g, target) in t.members && t.members[Seat(g, target)].role != Owner
                           && (t.members[Seat(g, target)].role == Admin ==>
                                 manages && t.members[Seat(g, caller)].role == Owner);
            && (r.status == Done <==> manages && target != caller && allowed)
            && (r.status == BadRequest <==> manages && target == caller)
            && (r.status == NotFound <==> manages && target != caller && Seat(g, target) !in t.members)
            && (r.status == Forbidden <==>
                  !manages || (target != caller && Seat(g, target) in t.members && !allowed))
            && r.db == if r.status == Done then Departed(t, g, target) else t
  {
    RunKeepsInv(START, steps);
    RemoveReplyIs(Exec(START, steps).db, g, caller, target, succ);
  }

  lemma RemoveReplyIs(t: Tables, g: Gid, caller: Uid, target: Uid, succ: Uid)
    requires Referential(t) && SuccessorOk(t, g, target, succ)
    ensures var r := RemoveReply(t, g, caller, target, succ);
            var manages := Seat(g, caller) in t.members && t.members[Seat(g, caller)].role in {Owner, Admin};
            var allowed := Seat(g, target) in t.members && t.members[Seat(g, target)].role != Owner
                           && (t.members[Seat(g, target)].role == Admin ==>
                                 manages && t.members[Seat(g, caller)].role == Owner);
            && (r.status == Done <==> manages && target != caller && allowed)
            && (r.status == BadRequest <==> manages && target == caller)
            && (r.status == NotFound <==> manages && target != caller && Seat(g, target) !in t.members)
            && (r.status == Forbidden <==>
                  !manages || (target != caller && Seat(g, target) in t.members && !allowed))
            && r.db == if r.status == Done then Departed(t, g, target) else t
  {
    if MayManage(t, g, caller) && target != caller && Seat(g, target) in t.members && !IsOwner(t, g, target) {
      assert Seat(g, caller).group in t.groups;
      SeatedOnRoster(Departed(t, g, target), g);
    }
  }

  /** GroupMemberIDs answers what a direct read would, from the cache or not. */
  lemma CacheRefinesDirectRead(steps: seq<Step>, g: Gid, answer: seq<Uid>)
    requires IsRosterList(Exec(START, steps).db, g, answer)
    ensures var w := Exec(START, steps);
            && IsRosterList(w.db, g, Resolve(w.cache, g, w.now, answer).0)
            && forall h :: h in w.cache ==> IsRosterList(w.db, h, w.cache[h].ids)
  {
    RunKeepsInv(START, steps);
  }

  /** The steps let u back into g at some point of the run. */
  ghost predicate LetsIn(w: World, steps: seq<Step>, g: Gid, u: Uid)
    decreases |steps|
  {
    steps != [] &&
    (|| Rejoins(w.db, steps[0], g, u)
     || LetsIn(Apply(w, steps[0]), steps[1..], g, u))
  }

  /** The step is u's accept of a pending invite to g. */
  predicate Rejoins(t: Tables, step: Step, g: Gid, u: Uid) {
    step.Accept? && step.caller == u && PendingFor(t, step.id, u) && t.invites[step.id].group == g
  }

  lemma LeavingSeatsNobody(t: Tables, h: Gid, v: Uid, succ: Uid, k: Seat)
    requires SuccessorOk(t, h, v, succ) && k !in t.members
    ensures k !in LeaveGroup(t, h, v, succ).0.members
  {
    if Seat(h, v) in t.members { LeaveShape(t, h, v, succ); }
  }

  lemma AcceptSeatsTheInvited(t: Tables, id: Iid, v: Uid, now: Time, k: Seat)
    requires k !in t.members && k in AcceptInvite(t, id, v, now).0.members
    ensures PendingFor(t, id, v) && k == Seat(t.invites[id].group, v)
  {
  }

  /** Only an accept of an invite to g seats u in a group that is already known. */
  lemma RequestStaysOut(w: World, step: Step, g: Gid, u: Uid)
    requires Inv(w) && g in w.used && Seat(g, u) !in w.db.members && !Rejoins(w.db, step, g, u)
    requires Possible(w, step) && !step.Tick? && !step.Register? && !step.GroupFrame?
    ensures Seat(g, u) !in Request(w, step).db.members
  {
    match step {
      case Leave(h, v, succ) => LeavingSeatsNobody(w.db, h, v, succ, Seat(g, u));
      case Remove(h, _, v, succ) => LeavingSeatsNobody(w.db, h, v, succ, Seat(g, u));
      case Accept(id, v) =>
        if Seat(g, u) in AcceptInvite(w.db, id, v, w.now).0.members {
          AcceptSeatsTheInvited(w.db, id, v, w.now, Seat(g, u));
        }
      case _ => KnownRostersKept(w, step, g, u);
    }
  }

  lemma KnownRostersKept(w: World, step: Step, g: Gid, u: Uid)
    requires Inv(w) && g in w.used && Possible(w, step) && !step.Tick? && !step.Register? && !step.GroupFrame?
    requires !step.Leave? && !step.Remove? && !step.Accept?
    ensures Seat(g, u) in Request(w, step).db.members <==> Seat(g, u) in w.db.members
  {
    RequestGood(w, step);
    assert Request(w, step).stale == None;
  }

  lemma StaysOut(w: World, step: Step, g: Gid, u: Uid)
    requires Inv(w) && g in w.used && Seat(g, u) !in w.db.members && !Rejoins(w.db, step, g, u)
    ensures var w1 := Apply(w, step); g in w1.used && Seat(g, u) !in w1.db.members
  {
    if !step.Tick? && !step.Register? && !step.GroupFrame? && Possible(w, step) {
      RequestStaysOut(w, step, g, u);
    }
  }

  /** Once u is out of g, no group frame of g is so much as offered to u until u accepts another invite. */
  lemma {:induction false} NoFrameUntilAcceptedAgain(w: World, steps: seq<Step>, g: Gid, u: Uid)
    requires Inv(w) && g in w.used && Seat(g, u) !in w.db.members
    requires !LetsIn(w, steps, g, u)
    ensures var log := Exec(w, steps).log;
            && w.log <= log
            && forall i :: |w.log| <= i < |log| && log[i].group == g ==> u !in log[i].targets
    decreases |steps|
  {
    if steps != [] {
      var w1 := Apply(w, steps[0]);
      StaysOut(w, steps[0], g, u);
      StepKeepsInv(w, steps[0]);
      NoFrameUntilAcceptedAgain(w1, steps[1..], g, u);
      FrameGoesToMembers(w, steps[0]);
      SeatedOnRoster(w.db, g);
    }
  }

  /** A fan-out is offered to exactly the members who are online and did not send the frame. */
  lemma FrameGoesToMembers(w: World, step: Step)
    requires Inv(w)
    ensures var w1 := Apply(w, step);
            && w.log <= w1.log && |w1.log| <= |w.log| + 1
            && (|w1.log| == |w.log| + 1 ==>
                  && step.GroupFrame? && step.caller in Roster(w.db, step.g)
                  && w1.log[|w.log|] ==
                     Fanned(step.g, step.caller, (Roster(w.db, step.g) - {step.caller}) * step.online))
  {
    if step.GroupFrame? && step.caller in w.users && Possible(w, step) {
      var (ids, c) := Resolve(w.cache, step.g, w.now, step.answer);
      assert forall v :: v in ids <==> v in Elems(ids);
      var ids2 := Resolve(c, step.g, w.now, step.answer).0;
      assert forall v :: v in ids2 <==> v in Elems(ids2);
      var targets := set v | v in ids2 && v != step.caller && v in step.online;
      assert targets == (Roster(w.db, step.g) - {step.caller}) * step.online;
    }
  }

  /** After a leave or removal completes, the departed user is out and the cache agrees. */
  lemma DepartureTakesEffect(w: World, step: Step, u: Uid)
    requires Inv(w) && Possible(w, step) && (step.Leave? || step.Remove?) && step.caller in w.users
    requires u == (if step.Leave? then step.caller else step.target)
    requires Request(w, step).status == Done
    ensures var w1 := Apply(w, step);
            && Inv(w1) && step.g in w1.used && Seat(step.g, u) !in w1.db.members && step.g !in w1.cache
  {
    StepKeepsInv(w, step);
    DoneMeansLeft(w, step, u);
    assert Seat(step.g, u).group in w.used;
    LeaveShape(w.db, step.g, u, step.succ);
  }

  /** In any run: once a leave or removal has completed, no later frame of the group
      reaches the departed user unless they accept another invite to it first. */
  lemma DepartedGetNoFrames(before: seq<Step>, step: Step, later: seq<Step>, u: Uid)
    requires var w := Exec(START, before);
             && Possible(w, step) && (step.Leave? || step.Remove?) && step.caller in w.users
             && u == (if step.Leave? then step.caller else step.target)
             && Request(w, step).status == Done
             && !LetsIn(Apply(w, step), later, step.g, u)
    ensures var w1 := Apply(Exec(START, before), step);
            var log := Exec(w1, later).log;
            w1.log <= log && forall i :: |w1.log| <= i < |log| && log[i].group == step.g ==> u !in log[i].targets
  {
    RunKeepsInv(START, before);
    var w := Exec(START, before);
    DepartureTakesEffect(w, step, u);
    NoFrameUntilAcceptedAgain(Apply(w, step), later, step.g, u);
  }

  lemma DoneMeansLeft(w: World, step: Step, u: Uid)
    requires Possible(w, step) && (step.Leave? || step.Remove?)
    requires u == (if step.Leave? then step.caller else step.target)
    requires Request(w, step).status == Done
    ensures SuccessorOk(w.db, step.g, u, step.succ) && Seat(step.g, u) in w.db.members
    ensures Request(w, step) == Reply(LeaveGroup(w.db, step.g, u, step.succ).0, Done, Some(step.g))
  {
  }
}
