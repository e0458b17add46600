/** From the database to the send queues: what the roster cache and the fan-out guarantee together. */
module EndToEnd {
  import opened Basics
  import T = GroupTables
  import M = Messages
  import S = HubService
  import C = CacheRuns
  import P = HubProtocol
  import H = HubAccounting

  /** A fan-out begun with a roster that some lookup served offers its frame, at no moment of
      it and whatever else runs, to anybody who had been off the group's roster for thirty
      seconds plus the filling lookup's duration when it was served. */
  lemma DepartedAreNotOffered(lookups: seq<C.Step>, k: nat, i: nat, u: Uid,
                              before: seq<P.Step>, d: P.Did, sender: Uid, mid: seq<P.Step>, s1: P.Hub, c: P.Cid)
    requires k <= |lookups| && i < |C.Run(lookups).served|
    requires forall j :: k <= j <= |lookups| ==> u !in T.Roster(C.Run(lookups[..j]).db, C.Run(lookups).served[i].group)
    requires var x := C.Run(lookups).served[i];
             x.at >= C.Run(lookups[..k]).now + 30_000_000_000 + (x.fill.stored - x.fill.started)
    requires !P.Exec(P.START, before).crashed && d !in P.Exec(P.START, before).deliveries
    requires s1 == P.Exec(P.Apply(P.Exec(P.START, before), P.BeginGroup(d, C.Run(lookups).served[i].ids, sender)), mid)
    requires c in s1.conns && s1.conns[c].user == u
    ensures !H.OfferedTo(s1, d, c)
  {
    var ids := C.Run(lookups).served[i].ids;
    C.ServedRosterIsRecent(lookups, i);
    C.DepartedDropOut(lookups, k, i, u);
    H.GroupFanOutStaysOnItsRoster(before, d, ids, sender, mid, s1, c);
  }

  /** A frame that was saved is read back: unless its room and time are saved over later, the
      room's history holds one row with the frame's own ciphertext and nonce, its sender, its
      time and its id, whatever else is saved before and after. */
  lemma SavedFrameIsReadBack(t: M.Table, before: seq<M.Message>, after: seq<M.Message>, f: S.Inbound, room: string,
                             sender: string, nowMillis: int, newId: string)
    requires M.NotSavedFrom(after, 0, M.Key(room, if f.timestamp != 0 then f.timestamp else nowMillis))
    ensures var saves := before + [S.Stamped(f, room, sender, nowMillis, newId)] + after;
            exists x :: x in M.History(M.SaveAll(t, saves), room)
              && x.ciphertext == f.ciphertext && x.nonce == f.nonce && x.senderId == sender
              && x.timestamp == (if f.timestamp != 0 then f.timestamp else nowMillis)
              && x.messageId == (if f.messageId != "" then f.messageId else newId)
  {
    var m := S.Stamped(f, room, sender, nowMillis, newId);
    var saves := before + [m] + after;
    assert saves[|before|] == m;
    assert forall j :: |before| < j < |saves| ==> saves[j] == after[j - |before| - 1];
    M.LastSaveWins(t, saves);
    assert M.NotSavedFrom(saves, |before| + 1, M.KeyOf(m));
    assert M.Stored(M.SaveAll(t, saves), room, m);
    assert m in M.History(M.SaveAll(t, saves), room);
  }
}
