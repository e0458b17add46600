/** Message history: an upsert table keyed by (room, timestamp), and the two-phase query
    that reads the newest rows and puts them back in order. */
module Messages {
  import opened Basics
  import opened Query

  datatype Message = Message(
    room: string, timestamp: int, messageId: string, senderId: string, ciphertext: string, nonce: string)

  datatype Key = Key(room: string, timestamp: int)

  function KeyOf(m: Message): Key { Key(m.room, m.timestamp) }

  type Table = rows: map<Key, Message> | forall k :: k in rows ==> KeyOf(rows[k]) == k
    witness map[]

  /** INSERT ... ON CONFLICT (room, timestamp) DO UPDATE of every other column. */
  function Save(t: Table, m: Message): Table { t[KeyOf(m) := m] }

  function SaveAll(t: Table, ms: seq<Message>): Table {
    if ms == [] then t else Save(SaveAll(t, ms[..|ms| - 1]), ms[|ms| - 1])
  }

  // ------------------------------------------------------ order of the saves

  /** Two saves of one key carry the same row. */
  ghost predicate AgreeOnKeys(ms: seq<Message>) {
    forall a, b :: a in ms && b in ms && KeyOf(a) == KeyOf(b) ==> a == b
  }

  /** When saves agree, each key ends with its save's row, whatever the order. */
  lemma {:induction false} SaveAllAt(t: Table, ms: seq<Message>)
    requires AgreeOnKeys(ms)
    ensures forall m :: m in ms ==> KeyOf(m) in SaveAll(t, ms) && SaveAll(t, ms)[KeyOf(m)] == m
    ensures forall k :: (forall m :: m in ms ==> KeyOf(m) != k) ==>
              (k in SaveAll(t, ms) <==> k in t) && (k in t ==> SaveAll(t, ms)[k] == t[k])
    ensures forall k :: k in SaveAll(t, ms) ==> k in t || exists m :: m in ms && KeyOf(m) == k
  {
    if ms != [] {
      var front, last := ms[..|ms| - 1], ms[|ms| - 1];
      assert ms == front + [last];
      assert forall m :: m in ms <==> m in front || m == last;
      SaveAllAt(t, front);
    }
  }

  /** No save from the i-th on is of key k. */
  ghost predicate NotSavedFrom(ms: seq<Message>, i: nat, k: Key) {
    forall j :: i <= j < |ms| ==> KeyOf(ms[j]) != k
  }

  /** The table after any saves: each key has the row of its last save, or the row it had. */
  lemma {:induction false} LastSaveWins(t: Table, ms: seq<Message>)
    ensures forall i :: 0 <= i < |ms| && NotSavedFrom(ms, i + 1, KeyOf(ms[i])) ==>
              KeyOf(ms[i]) in SaveAll(t, ms) && SaveAll(t, ms)[KeyOf(ms[i])] == ms[i]
    ensures forall k :: NotSavedFrom(ms, 0, k) ==>
              (k in SaveAll(t, ms) <==> k in t) && (k in t ==> SaveAll(t, ms)[k] == t[k])
  {
    if ms != [] {
      var front := ms[..|ms| - 1];
      LastSaveWins(t, front);
      forall i | 0 <= i < |ms| && NotSavedFrom(ms, i + 1, KeyOf(ms[i]))
        ensures KeyOf(ms[i]) in SaveAll(t, ms) && SaveAll(t, ms)[KeyOf(ms[i])] == ms[i]
      {
        if i < |front| {
          assert KeyOf(ms[|ms| - 1]) != KeyOf(ms[i]);
          assert NotSavedFrom(front, i + 1, KeyOf(front[i]));
        }
      }
      forall k | NotSavedFrom(ms, 0, k) ensures NotSavedFrom(front, 0, k) && KeyOf(ms[|ms| - 1]) != k {}
    }
  }

  lemma {:induction false} SaveAllConcat(t: Table, a: seq<Message>, b: seq<Message>)
    ensures SaveAll(t, a + b) == SaveAll(SaveAll(t, a), b)
  {
    if b == [] {
      assert a + b == a;
    } else {
      assert (a + b)[..|a + b| - 1] == a + b[..|b| - 1];
      SaveAllConcat(t, a, b[..|b| - 1]);
    }
  }

  lemma NotSavedSnoc(front: seq<Message>, last: Message, k: Key)
    ensures NotSavedFrom(front + [last], 0, k) <==> NotSavedFrom(front, 0, k) && KeyOf(last) != k
  {
    if NotSavedFrom(front + [last], 0, k) {
      assert forall j :: 0 <= j < |front| ==> (front + [last])[j] == front[j];
      assert (front + [last])[|front|] == last;
    }
  }

  lemma SaveTwice(t: Table, m: Message, x: Message)
    ensures Save(Save(t, m), x) == if KeyOf(m) == KeyOf(x) then Save(t, x) else Save(Save(t, x), m)
  {
  }

  /** A save whose key is not saved again might as well come last ... */
  lemma {:induction false} NotOverwritten(t: Table, m: Message, b: seq<Message>)
    requires NotSavedFrom(b, 0, KeyOf(m))
    ensures SaveAll(Save(t, m), b) == Save(SaveAll(t, b), m)
  {
    if b != [] {
      var front, last := b[..|b| - 1], b[|b| - 1];
      assert b == front + [last];
      NotSavedSnoc(front, last, KeyOf(m));
      NotOverwritten(t, m, front);
      SaveTwice(SaveAll(t, front), m, last);
    }
  }

  /** ... and one whose key is, might as well not have been. */
  lemma {:induction false} Overwritten(t: Table, m: Message, b: seq<Message>)
    requires !NotSavedFrom(b, 0, KeyOf(m))
    ensures SaveAll(Save(t, m), b) == SaveAll(t, b)
  {
    var front, last := b[..|b| - 1], b[|b| - 1];
    assert b == front + [last];
    NotSavedSnoc(front, last, KeyOf(m));
    if NotSavedFrom(front, 0, KeyOf(m)) {
      NotOverwritten(t, m, front);
      SaveTwice(SaveAll(t, front), m, last);
    } else {
      Overwritten(t, m, front);
    }
  }

  /** A save may be left out, wherever it stands among the others and whatever follows it,
      exactly when its row is in the table already or its key is saved again later on:
      so repeated saves of a row count once. */
  lemma SaveCountsUnless(t: Table, a: seq<Message>, m: Message, b: seq<Message>)
    ensures SaveAll(t, a + [m] + b) == SaveAll(t, a + b)
            <==> (KeyOf(m) in SaveAll(t, a) && SaveAll(t, a)[KeyOf(m)] == m) || !NotSavedFrom(b, 0, KeyOf(m))
  {
    var ta := SaveAll(t, a);
    assert (a + [m])[..|a|] == a;
    SaveAllConcat(t, a, b);
    SaveAllConcat(t, a + [m], b);
    LastSaveWins(ta, b);
    if NotSavedFrom(b, 0, KeyOf(m)) {
      NotOverwritten(ta, m, b);
      SavedAlready(SaveAll(ta, b), m);
    } else {
      Overwritten(ta, m, b);
    }
  }

  lemma SavedAlready(t: Table, m: Message)
    ensures Save(t, m) == t <==> KeyOf(m) in t && t[KeyOf(m)] == m
  {
    assert Save(t, m)[KeyOf(m)] == m;
  }

  lemma SameMembers(a: seq<Message>, b: seq<Message>)
    requires multiset(a) == multiset(b)
    ensures forall m :: m in a <==> m in b
  {
    forall m ensures m in a <==> m in b { assert m in multiset(a) <==> m in multiset(b); }
  }

  lemma AgreeingSavesAt(t: Table, a: seq<Message>, b: seq<Message>, k: Key)
    requires AgreeOnKeys(a) && AgreeOnKeys(b) && forall m :: m in a <==> m in b
    ensures k in SaveAll(t, a) <==> k in SaveAll(t, b)
    ensures k in SaveAll(t, a) ==> SaveAll(t, a)[k] == SaveAll(t, b)[k]
  {
    SaveAllAt(t, a);
    SaveAllAt(t, b);
    if m :| m in a && KeyOf(m) == k { assert m in b; }
  }

  lemma AgreeingSavesCommute(t: Table, a: seq<Message>, b: seq<Message>)
    requires AgreeOnKeys(a) && multiset(a) == multiset(b)
    ensures SaveAll(t, a) == SaveAll(t, b)
  {
    SameMembers(a, b);
    forall k: Key { AgreeingSavesAt(t, a, b, k); }
    SameTable(SaveAll(t, a), SaveAll(t, b));
  }

  lemma SameTable(x: Table, y: Table)
    requires forall k :: (k in x <==> k in y) && (k in x ==> x[k] == y[k])
    ensures x == y
  {
    assert x.Keys == y.Keys;
  }

  /** The same saves with x completing last. */
  lemma MoveLast(ms: seq<Message>, x: Message) returns (p: seq<Message>)
    requires x in ms
    ensures multiset(p) == multiset(ms) && p != [] && p[|p| - 1] == x
  {
    var i :| 0 <= i < |ms| && ms[i] == x;
    p := ms[..i] + ms[i + 1..] + [x];
    assert ms == ms[..i] + [x] + ms[i + 1..];
  }

  /** Moving x last leaves x's row under its key. */
  lemma MovedLastWins(t: Table, ms: seq<Message>, x: Message) returns (p: seq<Message>)
    requires x in ms
    ensures multiset(p) == multiset(ms) && KeyOf(x) in SaveAll(t, p) && SaveAll(t, p)[KeyOf(x)] == x
  {
    p := MoveLast(ms, x);
    LastSaveWins(t, p);
    assert NotSavedFrom(p, |p|, KeyOf(p[|p| - 1]));
  }

  /** Two different rows under one key: which of them survives depends on the order. */
  lemma RacingSavesDiffer(t: Table, ms: seq<Message>, x: Message, y: Message)
    requires x in ms && y in ms && KeyOf(x) == KeyOf(y) && x != y
    ensures exists p, q: seq<Message> :: multiset(p) == multiset(ms) == multiset(q) && SaveAll(t, p) != SaveAll(t, q)
  {
    var px := MovedLastWins(t, ms, x);
    var py := MovedLastWins(t, ms, y);
    assert SaveAll(t, px) != SaveAll(t, py);
  }

  /** Saves racing each other leave one table in every completion order exactly when no two
      of them write different rows under one key. */
  lemma SavesCommuteIff(t: Table, ms: seq<Message>)
    ensures AgreeOnKeys(ms) <==>
            forall p, q: seq<Message> :: multiset(p) == multiset(ms) == multiset(q) ==> SaveAll(t, p) == SaveAll(t, q)
  {
    if AgreeOnKeys(ms) {
      forall p, q: seq<Message> | multiset(p) == multiset(ms) == multiset(q) ensures SaveAll(t, p) == SaveAll(t, q) {
        AgreeingSavesCommute(t, ms, p);
        AgreeingSavesCommute(t, ms, q);
      }
    } else {
      var x, y :| x in ms && y in ms && KeyOf(x) == KeyOf(y) && x != y;
      RacingSavesDiffer(t, ms, x, y);
    }
  }

  // ------------------------------------------------------------- history

  function TimesOf(t: Table, room: string): set<int> {
    set k | k in t && k.room == room :: k.timestamp
  }

  predicate Descending(ts: seq<int>) {
    forall i, j :: 0 <= i < j < |ts| ==> ts[i] > ts[j]
  }

  predicate Ascends(ms: seq<Message>) {
    forall i, j :: 0 <= i < j < |ms| ==> ms[i].timestamp < ms[j].timestamp
  }

  function Reverse(ms: seq<Message>): (r: seq<Message>)
    ensures |r| == |ms| && forall i :: 0 <= i < |ms| ==> r[i] == ms[|ms| - 1 - i]
    ensures forall m :: m in r <==> m in ms
  {
    var r := seq(|ms|, i requires 0 <= i < |ms| => ms[|ms| - 1 - i]);
    assert forall i :: 0 <= i < |ms| ==> ms[i] == r[|ms| - 1 - i];
    r
  }

  lemma {:induction false} ListTimes(ts: set<int>) returns (s: seq<int>)
    ensures Elems(s) == ts && Descending(s)
    decreases |ts|
  {
    s := [];
    if ts != {} {
      LeastExists(ts, (x: int) => x);
      var m :| m in ts && forall y :: y in ts ==> m <= y;
      var rest := ListTimes(ts - {m});
      s := rest + [m];
      forall i | 0 <= i < |rest| ensures rest[i] > m { assert rest[i] in Elems(rest); }
      assert Elems(s) == Elems(rest) + {m};
    }
  }

  function RowsAt(t: Table, room: string, ts: seq<int>): (ms: seq<Message>)
    requires forall i :: 0 <= i < |ts| ==> Key(room, ts[i]) in t
    ensures |ms| == |ts| && forall i :: 0 <= i < |ts| ==> ms[i] == t[Key(room, ts[i])]
  {
    seq(|ts|, i requires 0 <= i < |ts| => t[Key(room, ts[i])])
  }

  /** The rows at all of a room's timestamps are its messages. */
  lemma RowsAtAll(t: Table, room: string, ts: seq<int>)
    requires Elems(ts) == TimesOf(t, room)
    requires forall i :: 0 <= i < |ts| ==> Key(room, ts[i]) in t
    ensures forall m :: m in RowsAt(t, room, ts) <==> Stored(t, room, m)
    ensures forall i :: 0 <= i < |ts| ==> RowsAt(t, room, ts)[i].timestamp == ts[i]
  {
    var h := RowsAt(t, room, ts);
    forall i | 0 <= i < |ts| ensures h[i].timestamp == ts[i] && Stored(t, room, h[i]) {
      assert KeyOf(t[Key(room, ts[i])]) == Key(room, ts[i]);
    }
    forall m | Stored(t, room, m) ensures m in h {
      assert KeyOf(m).timestamp in TimesOf(t, room);
      assert m.timestamp in Elems(ts);
      var i :| 0 <= i < |ts| && ts[i] == m.timestamp;
      assert h[i] == m;
    }
  }

  predicate Stored(t: Table, room: string, m: Message) {
    m.room == room && KeyOf(m) in t && t[KeyOf(m)] == m
  }

  /** Every stored message of the room once, oldest first. */
  ghost predicate IsHistory(t: Table, room: string, h: seq<Message>) {
    Ascends(h) && forall m :: m in h <==> Stored(t, room, m)
  }

  /** The rows at a room's timestamps, newest first, are its history backwards. */
  lemma RowsAreHistory(t: Table, room: string, ts: seq<int>)
    requires Elems(ts) == TimesOf(t, room) && Descending(ts)
    ensures forall i :: 0 <= i < |ts| ==> Key(room, ts[i]) in t
    ensures IsHistory(t, room, Reverse(RowsAt(t, room, ts)))
  {
    TimesHaveRows(t, room);
    assert forall i :: 0 <= i < |ts| ==> ts[i] in Elems(ts);
    RowsAtAll(t, room, ts);
  }

  ghost function History(t: Table, room: string): (h: seq<Message>)
    ensures IsHistory(t, room, h)
  {
    HistoryExists(t, room);
    var h :| IsHistory(t, room, h);
    h
  }

  lemma HistoryExists(t: Table, room: string)
    ensures exists h :: IsHistory(t, room, h)
  {
    var ts := ListTimes(TimesOf(t, room));
    RowsAreHistory(t, room, ts);
  }

  lemma TimesHaveRows(t: Table, room: string)
    ensures forall x :: x in TimesOf(t, room) ==> Key(room, x) in t
  {
    forall x | x in TimesOf(t, room) ensures Key(room, x) in t {
      var k :| k in t && k.room == room && k.timestamp == x;
      assert k == Key(room, x);
    }
  }

  function Last<T>(s: seq<T>, n: nat): seq<T> {
    if n <= |s| then s[|s| - n..] else s
  }

  lemma NonEmptyHas(s: seq<Message>)
    ensures s != [] ==> exists m :: m in s
  {
    if 0 < |s| { assert s[0] in s; }
  }

  /** A strictly ascending list is settled by its elements. */
  lemma {:induction false} AscendingUnique(a: seq<Message>, b: seq<Message>)
    requires Ascends(a) && Ascends(b)
    requires forall m :: m in a <==> m in b
    ensures a == b
    decreases |a|
  {
    if a == [] || b == [] {
      NonEmptyHas(a);
      NonEmptyHas(b);
    } else {
      var la, lb := a[|a| - 1], b[|b| - 1];
      assert la in b && lb in a;
      var i :| 0 <= i < |b| && b[i] == la;
      var j :| 0 <= j < |a| && a[j] == lb;
      assert la == lb;
      FrontHasRest(a);
      FrontHasRest(b);
      var fa, fb := a[..|a| - 1], b[..|b| - 1];
      forall m ensures m in fa <==> m in fb { assert m in a <==> m in b; }
      AscendingUnique(fa, fb);
      assert a == fa + [la] && b == fb + [lb];
    }
  }

  /** All but the newest: exactly the messages older than it. */
  lemma FrontHasRest(a: seq<Message>)
    requires Ascends(a) && a != []
    ensures forall m :: m in a[..|a| - 1] <==> m in a && m != a[|a| - 1]
  {
    var f := a[..|a| - 1];
    assert a == f + [a[|a| - 1]];
    forall m | m in f ensures m != a[|a| - 1] {
      var i :| 0 <= i < |f| && f[i] == m;
      assert a[i].timestamp < a[|a| - 1].timestamp;
    }
  }

  /** There is only one history: what GetMessages returns is settled by the stored rows. */
  lemma HistoryIsUnique(t: Table, room: string, h: seq<Message>)
    requires IsHistory(t, room, h)
    ensures h == History(t, room)
  {
    AscendingUnique(h, History(t, room));
  }

  class MessageRepo {
    var rows: Table

    constructor ()
      ensures rows == map[]
    {
      rows := map[];
    }

    method SaveMessage(messageId: string, room: string, senderId: string, ciphertext: string, nonce: string,
                       timestamp: int)
      modifies this
      ensures rows == Save(old(rows), Message(room, timestamp, messageId, senderId, ciphertext, nonce))
    {
      var message := Message(room, timestamp, messageId, senderId, ciphertext, nonce);
      rows := rows[Key(room, timestamp) := message];
    }

    /** ORDER BY timestamp DESC LIMIT n. */
    method NewestFirst(room: string, n: nat) returns (page: seq<Message>)
      ensures IsNewest(History(rows, room), n, page)
    {
      var rank := (x: int) => -x;
      var times := OrderBy<int>(TimesOf(rows, room), rank);
      forall i, j | 0 <= i < j < |times| ensures times[i] > times[j] {
        assert rank(times[i]) <= rank(times[j]);
      }
      RowsAreHistory(rows, room, times);
      var all := RowsAt(rows, room, times);
      page := if n <= |all| then all[..n] else all;
      HistoryIsUnique(rows, room, Reverse(all));
      FrontIsNewest(all, n);
    }

    /** The room's most recent messages, oldest of them first; 50 when no limit is given. */
    method GetMessages(room: string, limit: int) returns (messages: array<Message>)
      ensures fresh(messages)
      ensures var h := History(rows, room);
              && messages.Length == (if limit > 0 then (if limit < |h| then limit else |h|)
                                     else if 50 < |h| then 50 else |h|)
              && messages[..] == h[|h| - messages.Length..]
    {
      var n := if limit <= 0 then 50 else limit;
      var page := NewestFirst(room, n);
      messages := new Message[|page|](i requires 0 <= i < |page| => page[i]);
      assert messages[..] == page;
      SortByTime(messages);
      SortedPageIsLast(History(rows, room), n, page, messages[..]);
    }
  }

  /** page holds the last n of h, newest first. */
  ghost predicate IsNewest(h: seq<Message>, n: nat, page: seq<Message>) {
    && |page| == |Last(h, n)|
    && forall i :: 0 <= i < |page| ==> page[i] == h[|h| - 1 - i]
  }

  lemma FrontIsNewest(all: seq<Message>, n: nat)
    ensures IsNewest(Reverse(all), n, if n <= |all| then all[..n] else all)
  {
  }

  lemma SortedPageIsLast(h: seq<Message>, n: nat, page: seq<Message>, sorted: seq<Message>)
    requires Ascends(h) && Ascends(sorted)
    requires IsNewest(h, n, page) && multiset(sorted) == multiset(page)
    ensures sorted == Last(h, n)
  {
    var want := Last(h, n);
    assert forall i :: 0 <= i < |page| ==> page[i] == want[|want| - 1 - i];
    SameMembers(sorted, page);
    forall m | m in want ensures m in page {
      var i :| 0 <= i < |want| && want[i] == m;
      assert page[|want| - 1 - i] == m;
    }
    AscendingUnique(sorted, want);
  }

  method Swap(a: array<Message>, i: nat, j: nat)
    requires i <= j < a.Length
    modifies a
    ensures a[..] == old(a[..])[i := old(a[j])][j := old(a[i])]
    ensures multiset(a[..]) == multiset(old(a[..]))
  {
    a[i], a[j] := a[j], a[i];
  }

  /** sort.Slice by ascending timestamp, in place; the timestamps are distinct. */
  method SortByTime(a: array<Message>)
    requires forall i, j :: 0 <= i < j < a.Length ==> a[i].timestamp != a[j].timestamp
    modifies a
    ensures forall i, j :: 0 <= i < j < a.Length ==> a[i].timestamp < a[j].timestamp
    ensures multiset(a[..]) == multiset(old(a[..]))
  {
    for n := 0 to a.Length
      invariant forall i, j :: 0 <= i < j < a.Length ==> a[i].timestamp != a[j].timestamp
      invariant forall i, j :: 0 <= i < n && i < j < a.Length ==> a[i].timestamp < a[j].timestamp
      invariant multiset(a[..]) == multiset(old(a[..]))
    {
      var least := n;
      for k := n + 1 to a.Length
        invariant n <= least < a.Length
        invariant forall j :: n <= j < k ==> a[least].timestamp <= a[j].timestamp
      {
        if a[k].timestamp < a[least].timestamp { least := k; }
      }
      Swap(a, n, least);
    }
  }
}
