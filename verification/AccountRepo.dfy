/** The repository calls and handlers that write PIN settings and the direct-message index. */
module AccountRepo {
  import opened Basics
  import P = Pin
  import D = DMIndex

  class PostgresRepo {
    var users: P.Users
    var dms: D.Index

    constructor ()
      ensures users == map[] && dms == map[]
    {
      users, dms := map[], map[];
    }

    /** Registration: PIN on, rotating, no custom PIN. */
    method CreateUser(id: Uid)
      modifies this`users
      ensures users == P.Apply(old(users), P.Register(id))
    {
      if id !in users { users := users[id := P.User(id, true, P.Rotating, None)]; }
    }

    /** The custom PIN is written only for the static type, and only when one is given. */
    method UpdatePinSettings(id: Uid, enabled: bool, pinType: P.PinType, customPin: Option<string>)
      returns (user: Option<P.User>)
      modifies this`users
      ensures user.Some? <==> id in old(users)
      ensures id !in old(users) ==> users == old(users)
      ensures id in old(users) ==>
                && id in users && user == Some(users[id]) && users == old(users)[id := users[id]]
                && users[id].id == old(users[id].id) && users[id].enabled == enabled && users[id].pinType == pinType
                && users[id].customPin ==
                   if pinType == P.Static && customPin.Some? then customPin else old(users[id].customPin)
    {
      if id !in users { return None; }
      var row := users[id].(enabled := enabled, pinType := pinType);
      if pinType == P.Static && customPin.Some? { row := row.(customPin := customPin); }
      users := users[id := row];
      return Some(row);
    }

    /** Deleting an account clears its custom PIN and switches the PIN off. */
    method DeleteUser(id: Uid) returns (found: bool)
      modifies this`users
      ensures users == P.Apply(old(users), P.Delete(id)) && found == (id in old(users))
    {
      found := id in users;
      if found { users := users[id := users[id].(enabled := false, customPin := None)]; }
    }

    /** Both rows of a direct message, each inserted unless its key is taken. */
    method RecordDMParticipants(room: string, userA: Uid, userB: Uid)
      modifies this`dms
      ensures dms == D.Record(old(dms), D.Insert(room, userA, userB))
    {
      var rows := [(userA, userB), (userB, userA)];
      ghost var was := dms;
      for i := 0 to 2
        invariant dms == if i == 0 then was else if i == 1 then D.AddRow(was, D.Place(room, userA), userB)
                         else D.Record(was, D.Insert(room, userA, userB))
      {
        var (user, peer) := rows[i];
        if D.Place(room, user) !in dms { dms := dms[D.Place(room, user) := peer]; }
      }
    }
  }

  class Handler {
    const postgres: PostgresRepo

    constructor (postgres: PostgresRepo)
      ensures this.postgres == postgres
    {
      this.postgres := postgres;
    }

    /** The settings request: check a supplied PIN, store, then look at what was stored. */
    method UpdatePinSettings(id: Uid, enabled: bool, pinType: P.PinType, customPin: Option<string>)
      returns (outcome: P.SettingsOutcome)
      modifies postgres`users
      ensures (postgres.users, outcome) == P.UpdatePinSettings(old(postgres.users), id, enabled, pinType, customPin)
    {
      var pin := None;
      if pinType == P.Static && customPin.Some? {
        var trimmed := P.TrimSpace(customPin.value);
        if !P.IsPin(trimmed) { return P.BadPin; }
        pin := Some(trimmed);
      }
      var user := postgres.UpdatePinSettings(id, enabled, pinType, pin);
      if user.None? { return P.NoSuchUser; }
      var u := user.value;
      if u.enabled && u.pinType == P.Static && (u.customPin.None? || u.customPin.value == "") { return P.NeedsPin; }
      return P.Saved;
    }
  }
}
