/** The hub and its clients as the objects they are, one method call at a time. */
module HubService {
  import opened Basics
  import G = GroupRepo
  import T = GroupTables
  import C = RosterCache
  import M = Messages
  import D = DMIndex
  import P = HubProtocol

  datatype Payload =
    | Chat(room: string, group: Option<Gid>, message: M.Message)
    | Ack(messageId: string, room: string, delivered: bool)
    | Other(body: string)

  /** A UUID field of an inbound frame. */
  datatype Ref = Absent | Malformed | Parsed(id: nat)

  datatype Inbound = Inbound(
    messageId: string, receiver: Ref, group: Ref, room: string, ciphertext: string, nonce: string, timestamp: int)

  /** The message a frame becomes: a missing time or id is filled in by the server. */
  function Stamped(f: Inbound, room: string, senderId: string, nowMillis: int, newId: string): M.Message {
    M.Message(room, if f.timestamp == 0 then nowMillis else f.timestamp,
              if f.messageId == "" then newId else f.messageId, senderId, f.ciphertext, f.nonce)
  }

  /** What a roster lookup meets: the clock when it checks the entry and when it stores an
      answer, and whether the database answers. */
  datatype Attempt = Attempt(checkAt: Time, storeAt: Time, reachable: bool)

  /** A failed lookup aborts a fan-out: it reaches nobody. */
  function Ids(found: Option<seq<Uid>>): seq<Uid> {
    if found.Some? then found.value else []
  }

  /** A queue after a send that is dropped when there is no room. */
  function After(queue: seq<Payload>, payload: Payload): seq<Payload> {
    if |queue| < P.CAPACITY then queue + [payload] else queue
  }

  /** A connection: its send queue, and whether the queue and the socket are closed. */
  class Client {
    const userID: Uid
    var send: seq<Payload>
    var closed: bool
    var connClosed: bool

    constructor (userID: Uid)
      ensures this.userID == userID && send == [] && !closed && !connClosed
    {
      this.userID := userID;
      send, closed, connClosed := [], false, false;
    }

    predicate HasRoom()
      reads this
    {
      |send| < P.CAPACITY
    }

    /** The non-blocking send: queued if there is room, else dropped. */
    method TrySend(payload: Payload) returns (queued: bool)
      requires !closed
      modifies this`send
      ensures queued <==> |old(send)| < 256
      ensures send == if queued then old(send) + [payload] else old(send)
    {
      queued := |send| < P.CAPACITY;
      if queued { send := send + [payload]; }
    }
  }

  /** The frame handlers of a client whose reader is running. */
  class Reader {
    const client: Client
    const hub: Hub
    const uuidText: nat -> string

    constructor (client: Client, hub: Hub, uuidText: nat -> string)
      ensures this.client == client && this.hub == hub && this.uuidText == uuidText
    {
      this.client, this.hub, this.uuidText := client, hub, uuidText;
    }

    /** A direct message: the receiver's queue gets it if online with room, the sender is
        acked with exactly that, and the message is saved and both sides indexed either
        way. A frame that lacks anything does nothing. What is queued and saved is the frame's
        own content. Returns the save and the index insert it spawns. */
    method HandleChatMessage(f: Inbound, nowMillis: int, newId: string)
      returns (save: Option<M.Message>, index: Option<D.Insert>)
      requires hub.Valid() && !client.closed && f.group.Absent?
      modifies hub.clients.Values`send, client`send
      ensures hub.Valid()
      ensures save.Some? <==> f.receiver.Parsed? && f.room != "" && f.ciphertext != "" && f.nonce != ""
      ensures save == None ==> index == None && client.send == old(client.send)
                               && forall u :: u in hub.clients ==> hub.clients[u].send == old(hub.clients[u].send)
      ensures save.Some? ==>
                var m := save.value;
                && m.room == f.room && m.senderId == uuidText(client.userID)
                && m.ciphertext == f.ciphertext && m.nonce == f.nonce
                && m.timestamp == (if f.timestamp != 0 then f.timestamp else nowMillis)
                && m.messageId == (if f.messageId != "" then f.messageId else newId)
      ensures save.Some? ==>
                var m := save.value;
                var r, chat := f.receiver.id, Chat(f.room, None, m);
                var delivered := r in hub.clients && old(hub.clients[r].HasRoom());
                var toSelf := r in hub.clients && hub.clients[r] == client;
                && index == Some(D.Insert(f.room, client.userID, r))
                && (forall u :: u in hub.clients && hub.clients[u] != client ==>
                      hub.clients[u].send == if u == r then After(old(hub.clients[u].send), chat)
                        else old(hub.clients[u].send))
                && client.send == After(if toSelf then After(old(client.send), chat) else old(client.send),
                                        Ack(m.messageId, f.room, delivered))
    {
      if f.receiver.Absent? || f.room == "" || f.ciphertext == "" || f.nonce == "" { return None, None; }
      if f.receiver.Malformed? { return None, None; }
      var m := Stamped(f, f.room, uuidText(client.userID), nowMillis, newId);
      var delivered := hub.DeliverToUser(f.receiver.id, Chat(f.room, None, m));
      var queued := client.TrySend(Ack(m.messageId, f.room, delivered));
      return Some(m), Some(D.Insert(f.room, client.userID, f.receiver.id));
    }

    /** A group message, by a sender on the roster its first lookup finds: every other online
        member with room, by the roster its second lookup finds, gets it, the sender is acked
        delivered exactly when someone did, and it is saved under the group's own room,
        whatever room the frame names. Anyone else's frame changes no queue and saves nothing. */
    method HandleGroupChatMessage(f: Inbound, nowMillis: int, newId: string, first: Attempt, second: Attempt)
      returns (save: Option<M.Message>, ghost seen: Option<seq<Uid>>, ghost found: Option<seq<Uid>>,
          ghost reached: set<Uid>)
      requires hub.Valid() && !client.closed
      modifies hub`groupMembers, hub.clients.Values`send, client`send
      ensures hub.Valid()
      ensures f.ciphertext == "" || f.nonce == "" || !f.group.Parsed? ==>
                save == None && hub.groupMembers == old(hub.groupMembers)
      ensures f.ciphertext != "" && f.nonce != "" && f.group.Parsed? ==>
                && hub.Answers(old(hub.groupMembers), f.group.id, first, seen)
                && (save.Some? <==> seen.Some? && client.userID in seen.value)
      ensures f.ciphertext != "" && f.nonce != "" && f.group.Parsed? && save.None? ==>
              hub.groupMembers == hub.Cached(old(hub.groupMembers), f.group.id, first, seen)
      ensures save.None? ==> client.send == old(client.send)
                             && forall u :: u in hub.clients ==> hub.clients[u].send == old(hub.clients[u].send)
      ensures save.Some? ==>
                var m := save.value;
                && m.room == "group:" + uuidText(f.group.id) && m.senderId == uuidText(client.userID)
                && m.ciphertext == f.ciphertext && m.nonce == f.nonce
                && m.timestamp == (if f.timestamp != 0 then f.timestamp else nowMillis)
                && m.messageId == (if f.messageId != "" then f.messageId else newId)
      ensures save.Some? ==>
                var g, m, room := f.group.id, save.value, save.value.room;
                var between := hub.Cached(old(hub.groupMembers), g, first, seen);
                && hub.Answers(between, g, second, found) && hub.groupMembers == hub.Cached(between, g, second, found)
                && (forall u :: u in hub.clients && hub.clients[u] != client ==>
                      hub.clients[u].send == if u in Ids(found) && u != client.userID
                                             then After(old(hub.clients[u].send), Chat(room, Some(g), m))
                                             else old(hub.clients[u].send))
                && client.send == After(old(client.send), Ack(m.messageId, room, reached != {}))
                && (forall u :: u in reached <==> old(hub.Reachable(Ids(found), client.userID, u)))
    {
      seen, found, reached := None, None, {};
      if f.ciphertext == "" || f.nonce == "" { return None, seen, found, reached; }
      if !f.group.Parsed? { return None, seen, found, reached; }
      var g := f.group.id;
      var member: bool;
      member, seen := hub.IsGroupMemberCached(g, client.userID, first);
      if !member { return None, seen, found, reached; }
      var room := "group:" + uuidText(g);
      var m := Stamped(f, room, uuidText(client.userID), nowMillis, newId);
      label posting:
      found, reached := PostToGroup(g, room, m, second);
      assert forall u ::
             old@posting(hub.Reachable(Ids(found), client.userID, u)) ==
               old(hub.Reachable(Ids(found), client.userID, u));
      return Some(m), seen, found, reached;
    }

    /** The fan-out and the ack. */
    method PostToGroup(g: Gid, room: string, m: M.Message, a: Attempt)
      returns (ghost found: Option<seq<Uid>>, ghost reached: set<Uid>)
      requires hub.Valid() && !client.closed
      modifies hub`groupMembers, hub.clients.Values`send, client`send
      ensures hub.Valid()
      ensures hub.Answers(old(hub.groupMembers), g, a, found)
      ensures hub.groupMembers == hub.Cached(old(hub.groupMembers), g, a, found)
      ensures forall u :: u in hub.clients && hub.clients[u] != client ==>
                hub.clients[u].send == if u in Ids(found) && u != client.userID
                  then After(old(hub.clients[u].send), Chat(room, Some(g), m))
                                       else old(hub.clients[u].send)
      ensures client.send == After(old(client.send), Ack(m.messageId, room, reached != {}))
      ensures forall u :: u in reached <==> old(hub.Reachable(Ids(found), client.userID, u))
    {
      var delivered: nat;
      delivered, found, reached := hub.DeliverToGroup(g, client.userID, Chat(room, Some(g), m), a);
      var queued := client.TrySend(Ack(m.messageId, room, delivered > 0));
    }
  }

  class Hub {
    const postgres: G.PostgresRepo?
    var clients: map<Uid, Client>
    var groupMembers: C.Cache
    var wentOnline: seq<Uid>
    var wentOffline: seq<Uid>

    constructor (postgres: G.PostgresRepo?)
      ensures this.postgres == postgres && Valid() && clients == map[] && groupMembers == map[]
      ensures wentOnline == [] && wentOffline == []
    {
      this.postgres := postgres;
      clients, groupMembers, wentOnline, wentOffline := map[], map[], [], [];
    }

    ghost predicate Valid()
      reads this, clients.Values
    {
      && (forall u :: u in clients ==> clients[u].userID == u && !clients[u].closed)
      && (forall g :: g in groupMembers ==> NoDup(groupMembers[g].ids))
    }

    /** A new connection takes its user's place; only the socket of the old one is closed. */
    method HandleRegister(client: Client)
      requires Valid() && !client.closed
      modifies this`clients, this`wentOnline, clients.Values`connClosed
      ensures Valid()
      ensures clients == old(clients)[client.userID := client] && wentOnline == old(wentOnline) + [client.userID]
      ensures client.userID in old(clients) ==> old(clients)[client.userID].connClosed
      ensures forall u :: u in old(clients) && u != client.userID ==>
                old(clients)[u].connClosed == old(clients[u].connClosed)
    {
      if client.userID in clients {
        var existing := clients[client.userID];
        existing.connClosed := true;
      }
      clients := clients[client.userID := client];
      wentOnline := wentOnline + [client.userID];
    }

    /** Only the current connection of its user is removed, closed and announced. */
    method HandleUnregister(client: Client)
      requires Valid()
      modifies this`clients, this`wentOffline, client`closed
      ensures Valid()
      ensures var current := client.userID in old(clients) && old(clients)[client.userID] == client;
              if current
              then clients == old(clients) - {client.userID} && client.closed
                && wentOffline == old(wentOffline) + [client.userID]
              else clients == old(clients) && client.closed == old(client.closed) && wentOffline == old(wentOffline)
    {
      if client.userID in clients && clients[client.userID] == client {
        clients := clients - {client.userID};
        client.closed := true;
        wentOffline := wentOffline + [client.userID];
      }
    }

    method IsOnline(u: Uid) returns (online: bool)
      ensures online <==> u in clients
    {
      online := u in clients;
    }

    /** Queued exactly when the receiver is online with room, and nobody else's queue moves. */
    method DeliverToUser(receiver: Uid, payload: Payload) returns (queued: bool)
      requires Valid()
      modifies clients.Values`send
      ensures Valid()
      ensures queued <==> receiver in clients && old(clients[receiver].HasRoom())
      ensures forall u :: u in clients ==>
                clients[u].send == if u == receiver && queued then old(clients[u].send) + [payload]
                  else old(clients[u].send)
    {
      if receiver !in clients { return false; }
      queued := clients[receiver].TrySend(payload);
    }

    /** Every client with room gets the payload once; nobody else's queue moves. */
    method Broadcast(payload: Payload)
      requires Valid()
      modifies clients.Values`send
      ensures Valid()
      ensures forall u :: u in clients ==>
                clients[u].send == if old(clients[u].HasRoom()) then old(clients[u].send) + [payload]
                  else old(clients[u].send)
    {
      var rest := clients.Keys;
      while rest != {}
        invariant rest <= clients.Keys
        invariant Valid()
        invariant forall u :: u in clients && u in rest ==> clients[u].send == old(clients[u].send)
        invariant forall u :: u in clients && u !in rest ==>
                    clients[u].send == if old(clients[u].HasRoom()) then old(clients[u].send) + [payload]
                      else old(clients[u].send)
        decreases rest
      {
        var u :| u in rest;
        var queued := clients[u].TrySend(payload);
        rest := rest - {u};
      }
    }

    /** What a roster lookup may answer, given the cache it finds: the entry while it is fresh,
        else any list of the database's roster, or nothing when the database fails. */
    ghost predicate Answers(was: C.Cache, g: Gid, a: Attempt, ids: Option<seq<Uid>>)
      reads postgres
    {
      if postgres == null then ids == Some([])
      else if C.Fresh(was, g, a.checkAt) then ids == Some(was[g].ids)
      else if a.reachable then ids.Some? && C.IsRosterList(postgres.Contents(), g, ids.value)
      else ids == None
    }

    /** With nothing running in between, a lookup is the Resolve of the atomic model. */
    lemma LookupIsResolve(was: C.Cache, g: Gid, now: Time, ids: Option<seq<Uid>>)
      requires postgres != null && Answers(was, g, Attempt(now, now, true), ids)
      ensures ids.Some?
              && C.Resolve(was, g, now, ids.value) == (ids.value, Cached(was, g, Attempt(now, now, true), ids))
    {
    }

    /** The cache it leaves: only an answer read from the database is stored. */
    function Cached(was: C.Cache, g: Gid, a: Attempt, ids: Option<seq<Uid>>): C.Cache {
      if postgres == null || C.Fresh(was, g, a.checkAt) || ids.None? then was
      else was[g := C.CacheEntry(ids.value, a.storeAt + C.ROSTER_TTL)]
    }

    method GroupMemberIDs(g: Gid, a: Attempt) returns (ids: Option<seq<Uid>>)
      requires Valid()
      modifies this`groupMembers
      ensures Valid() && (ids.Some? ==> NoDup(ids.value))
      ensures Answers(old(groupMembers), g, a, ids) && groupMembers == Cached(old(groupMembers), g, a, ids)
      ensures var was := old(groupMembers);
              if postgres == null then ids == Some([]) && groupMembers == was
              else if g in was && a.checkAt < was[g].expiresAt then ids == Some(was[g].ids) && groupMembers == was
              else if a.reachable then
                && ids.Some? && Elems(ids.value) == T.Roster(postgres.Contents(), g)
                && groupMembers == was[g := C.CacheEntry(ids.value, a.storeAt + 30_000_000_000)]
              else ids == None && groupMembers == was
    {
      if postgres == null { return Some([]); }
      if g in groupMembers && a.checkAt < groupMembers[g].expiresAt { return Some(groupMembers[g].ids); }
      if !a.reachable { return None; }
      var memberIDs := postgres.GetGroupMemberIDs(g);
      groupMembers := groupMembers[g := C.CacheEntry(memberIDs, a.storeAt + C.ROSTER_TTL)];
      return Some(memberIDs);
    }

    method InvalidateGroup(g: Gid)
      modifies this`groupMembers
      ensures groupMembers == old(groupMembers) - {g}
    {
      groupMembers := groupMembers - {g};
    }

    /** Admits exactly those on the roster found; a failed lookup, or none to look in, admits nobody. */
    method IsGroupMemberCached(g: Gid, u: Uid, a: Attempt) returns (yes: bool, ghost ids: Option<seq<Uid>>)
      requires Valid()
      modifies this`groupMembers
      ensures Valid()
      ensures Answers(old(groupMembers), g, a, ids) && groupMembers == Cached(old(groupMembers), g, a, ids)
      ensures yes <==> ids.Some? && u in ids.value
      ensures postgres == null || (!C.Fresh(old(groupMembers), g, a.checkAt) && !a.reachable) ==> !yes
    {
      var memberIDs := GroupMemberIDs(g, a);
      ids := memberIDs;
      if memberIDs.None? { return false, ids; }
      for i := 0 to |memberIDs.value|
        invariant u !in memberIDs.value[..i]
      {
        if memberIDs.value[i] == u { return true, ids; }
      }
      return false, ids;
    }

    /** u is a member other than the sender, online, with room in its queue. */
    predicate Reachable(ids: seq<Uid>, sender: Uid, u: Uid)
      reads this, clients.Values
    {
      u in ids && u != sender && u in clients && clients[u].HasRoom()
    }

    /** Those members' queues each grow by the payload, once; no other queue moves; and
        the number returned is how many grew. */
    method DeliverToGroup(g: Gid, sender: Uid, payload: Payload, a: Attempt)
      returns (delivered: nat, ghost found: Option<seq<Uid>>, ghost grown: set<Uid>)
      requires Valid()
      modifies this`groupMembers, clients.Values`send
      ensures Valid() && NoDup(Ids(found))
      ensures Answers(old(groupMembers), g, a, found) && groupMembers == Cached(old(groupMembers), g, a, found)
      ensures forall u :: u in clients ==>
                clients[u].send == if u in grown then old(clients[u].send) + [payload] else old(clients[u].send)
      ensures delivered == |grown| && forall u :: u in grown <==> old(Reachable(Ids(found), sender, u))
      ensures forall u :: u in grown <==>
                u in Ids(found) && u != sender && u in clients && |old(clients[u].send)| < 256
    {
      var memberIDs := GroupMemberIDs(g, a);
      label looked:
      found := memberIDs;
      if memberIDs.None? { return 0, found, {}; }
      ghost var open := set u | u in clients && u != sender && clients[u].HasRoom();
      delivered, grown := FanOut(memberIDs.value, sender, payload, open);
      assert forall u :: old@looked(Reachable(Ids(found), sender, u)) == old(Reachable(Ids(found), sender, u));
    }

    /** The loop of the fan-out, over a roster that lists nobody twice: open are the others
        online with room. */
    method FanOut(roster: seq<Uid>, sender: Uid, payload: Payload, ghost open: set<Uid>)
      returns (delivered: nat, ghost grown: set<Uid>)
      requires Valid() && NoDup(roster)
      requires forall u :: u in open <==> u != sender && u in clients && clients[u].HasRoom()
      modifies clients.Values`send
      ensures Valid()
      ensures forall u :: u in clients ==>
                clients[u].send == if u in grown then old(clients[u].send) + [payload] else old(clients[u].send)
      ensures delivered == |grown| && forall u :: u in grown <==> u in roster && u in open
    {
      delivered, grown := 0, {};
      for i := 0 to |roster|
        invariant Valid() && delivered == |grown|
        invariant forall u :: u in grown <==> u in roster[..i] && u in open
        invariant forall u :: u in clients ==>
                    clients[u].send == if u in grown then old(clients[u].send) + [payload] else old(clients[u].send)
      {
        var memberID := roster[i];
        assert forall u :: u in roster[..i + 1] <==> u in roster[..i] || u == memberID;
        assert memberID !in roster[..i];
        if memberID != sender && memberID in clients {
          var queued := clients[memberID].TrySend(payload);
          if queued {
            delivered := delivered + 1;
            grown := grown + {memberID};
          }
        }
      }
      assert roster[..|roster|] == roster;
    }
  }
}
