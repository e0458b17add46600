/** What a create request asks for, stated on the request itself and not on the handler's loop. */
module CreateRequests {
  import opened Basics
  import opened GroupTables
  import opened GroupInvariants

  predicate NamedBefore(entries: seq<Entry>, n: nat, u: Uid)
    requires n <= |entries|
  {
    exists j :: 0 <= j < n && entries[j].user == Some(u)
  }

  predicate Listed(rows: seq<NewMember>, u: Uid) {
    exists i :: 0 <= i < |rows| && rows[i].user == u
  }

  /** Entry i names nobody, or somebody for the first time without a wrap. */
  predicate Spoils(rows: seq<NewMember>, entries: seq<Entry>, i: nat)
    requires i < |entries|
  {
    var e := entries[i];
    || e.user.None?
    || (!Listed(rows, e.user.value) && !NamedBefore(entries, i, e.user.value)
         && (e.wrappedKey == "" || e.keyNonce == ""))
  }

  /** The row the first entry naming u asks for. */
  predicate AskedFor(caller: Uid, entries: seq<Entry>, m: NewMember) {
    exists j :: 0 <= j < |entries| && entries[j].user == Some(m.user) && !NamedBefore(entries, j, m.user)
                && m == NewMember(m.user, Regular, entries[j].wrappedKey, entries[j].keyNonce, caller)
  }

  lemma NamedShift(entries: seq<Entry>, n: nat, u: Uid)
    requires 0 < n <= |entries|
    ensures NamedBefore(entries, n, u) <==> entries[0].user == Some(u) || NamedBefore(entries[1..], n - 1, u)
  {
    if NamedBefore(entries[1..], n - 1, u) {
      var j :| 0 <= j < n - 1 && entries[1..][j].user == Some(u);
      assert entries[j + 1].user == Some(u);
    }
    if NamedBefore(entries, n, u) && entries[0].user != Some(u) {
      var j :| 0 <= j < n && entries[j].user == Some(u);
      assert entries[1..][j - 1].user == Some(u);
    }
  }

  /** Once entry 0 is dealt with, later entries spoil the request exactly as they did. */
  lemma SpoilsShift(rows: seq<NewMember>, rows1: seq<NewMember>, entries: seq<Entry>)
    requires entries != [] && entries[0].user.Some?
    requires forall u :: Listed(rows1, u) <==> Listed(rows, u) || u == entries[0].user.value
    ensures (exists i :: 0 <= i < |entries| && Spoils(rows, entries, i)) <==>
            Spoils(rows, entries, 0) || exists i :: 0 <= i < |entries[1..]| && Spoils(rows1, entries[1..], i)
  {
    forall i | 0 < i < |entries| ensures Spoils(rows, entries, i) <==> Spoils(rows1, entries[1..], i - 1) {
      if entries[i].user.Some? { NamedShift(entries, i, entries[i].user.value); }
    }
    if i :| 0 <= i < |entries[1..]| && Spoils(rows1, entries[1..], i) { assert Spoils(rows, entries, i + 1); }
    if i :| 0 < i < |entries| && Spoils(rows, entries, i) { assert Spoils(rows1, entries[1..], i - 1); }
  }

  lemma ListedSnoc(rows: seq<NewMember>, m: NewMember)
    ensures forall u :: Listed(rows + [m], u) <==> Listed(rows, u) || u == m.user
  {
    assert (rows + [m])[|rows|].user == m.user;
    forall u | Listed(rows, u) ensures Listed(rows + [m], u) {
      var i :| 0 <= i < |rows| && rows[i].user == u;
      assert (rows + [m])[i].user == u;
    }
  }

  /** The request is refused exactly when some entry spoils it. */
  lemma {:induction false} RefusedIff(caller: Uid, rows: seq<NewMember>, entries: seq<Entry>)
    ensures RowsAfter(caller, rows, entries).None? <==> exists i :: 0 <= i < |entries| && Spoils(rows, entries, i)
    decreases |entries|
  {
    if entries != [] {
      var e := entries[0];
      if e.user.None? || (!Listed(rows, e.user.value) && (e.wrappedKey == "" || e.keyNonce == "")) {
        assert Spoils(rows, entries, 0);
      } else {
        var rows1 := if Listed(rows, e.user.value) then rows
                     else rows + [NewMember(e.user.value, Regular, e.wrappedKey, e.keyNonce, caller)];
        ListedSnoc(rows, NewMember(e.user.value, Regular, e.wrappedKey, e.keyNonce, caller));
        RefusedIff(caller, rows1, entries[1..]);
        SpoilsShift(rows, rows1, entries);
        assert !Spoils(rows, entries, 0);
      }
    }
  }

  lemma AskedShift(caller: Uid, entries: seq<Entry>, m: NewMember)
    requires entries != [] && entries[0].user != Some(m.user) && AskedFor(caller, entries[1..], m)
    ensures AskedFor(caller, entries, m)
  {
    var rest := entries[1..];
    var j :| 0 <= j < |rest| && rest[j].user == Some(m.user) && !NamedBefore(rest, j, m.user)
             && m == NewMember(m.user, Regular, rest[j].wrappedKey, rest[j].keyNonce, caller);
    NamedShift(entries, j + 1, m.user);
    assert entries[j + 1] == rest[j];
  }

  /** Otherwise the batch holds the rows it began with, then one row for each further user
      named, as the first entry naming them asks. */
  lemma {:induction false} BatchIs(caller: Uid, rows: seq<NewMember>, entries: seq<Entry>)
    requires RowsAfter(caller, rows, entries).Some?
    ensures var batch := RowsAfter(caller, rows, entries).value;
            && rows <= batch
            && (forall u :: Listed(batch, u) <==> Listed(rows, u) || NamedBefore(entries, |entries|, u))
            && (forall i :: |rows| <= i < |batch| ==>
                  AskedFor(caller, entries, batch[i]) && !Listed(rows, batch[i].user))
    decreases |entries|
  {
    if entries != [] {
      var e := entries[0];
      var m := NewMember(e.user.value, Regular, e.wrappedKey, e.keyNonce, caller);
      var rows1 := if Listed(rows, m.user) then rows else rows + [m];
      ListedSnoc(rows, m);
      BatchIs(caller, rows1, entries[1..]);
      var batch := RowsAfter(caller, rows1, entries[1..]).value;
      forall u ensures NamedBefore(entries, |entries|, u) <==>
          u == m.user || NamedBefore(entries[1..], |entries| - 1, u) {
        NamedShift(entries, |entries|, u);
      }
      forall i | |rows| <= i < |batch| ensures AskedFor(caller, entries, batch[i]) && !Listed(rows, batch[i].user) {
        if i < |rows1| {
          assert batch[i] == m && entries[0].user == Some(m.user) && !NamedBefore(entries, 0, m.user);
        } else {
          assert Listed(rows1, m.user);
          AskedShift(caller, entries, batch[i]);
        }
      }
    }
  }

  // ------------------------------------------------------- wraps it carries

  /** The wraps in the request as it arrived: the creator's own, and one in each entry that
      names somebody. */
  function Carried(g: Gid, caller: Uid, key: string, nonce: string, entries: seq<Entry>): set<Submission> {
    {Submission(g, caller, key, nonce, caller)}
    + set i | 0 <= i < |entries| && entries[i].user.Some? ::
        Submission(g, entries[i].user.value, entries[i].wrappedKey, entries[i].keyNonce, caller)
  }

  /** Every row of the batch carries a key and a nonce that one part of the request carried
      together, for that row's user. */
  lemma BatchWasCarried(g: Gid, caller: Uid, key: string, nonce: string, entries: seq<Entry>)
    requires RequestRows(caller, key, nonce, entries).Some?
    ensures RowSubmissions(g, RequestRows(caller, key, nonce, entries).value) <= Carried(g, caller, key, nonce, entries)
  {
    var creator := CreatorRow(caller, key, nonce);
    var rows := RequestRows(caller, key, nonce, entries).value;
    BatchIs(caller, [creator], entries);
    assert [creator] <= rows && rows[0] == creator;
    forall i | 0 <= i < |rows|
      ensures Submission(g, rows[i].user, rows[i].wrappedKey, rows[i].keyNonce, rows[i].wrappedBy)
              in Carried(g, caller, key, nonce, entries)
    {
      if i > 0 {
        assert AskedFor(caller, entries, rows[i]);
        var j :| 0 <= j < |entries| && entries[j].user == Some(rows[i].user)
                 && rows[i] == NewMember(rows[i].user, Regular, entries[j].wrappedKey, entries[j].keyNonce, caller);
      }
    }
  }
}
