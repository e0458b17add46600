/** The direct-message index: for each room and participant, who the peer is. */
module DMIndex {
  import opened Basics

  datatype Place = Place(room: string, user: Uid)

  type Index = map<Place, Uid>

  /** One background insert: a and b wrote to each other in room. */
  datatype Insert = Insert(room: string, a: Uid, b: Uid)

  /** INSERT of one row ON CONFLICT DO NOTHING. */
  function AddRow(x: Index, p: Place, peer: Uid): Index {
    if p in x then x else x[p := peer]
  }

  function Record(x: Index, i: Insert): Index {
    AddRow(AddRow(x, Place(i.room, i.a), i.b), Place(i.room, i.b), i.a)
  }

  function RecordAll(x: Index, ins: seq<Insert>): Index {
    if ins == [] then x else Record(RecordAll(x, ins[..|ins| - 1]), ins[|ins| - 1])
  }

  /** u's row of a room names v exactly when v's row names u. */
  ghost predicate Symmetric(x: Index) {
    forall r, u, v :: Names(x, r, u, v) ==> Names(x, r, v, u)
  }

  predicate Names(x: Index, room: string, u: Uid, v: Uid) {
    Place(room, u) in x && x[Place(room, u)] == v
  }

  /** An insert keeps the index symmetric exactly when the room lists both users or neither. */
  lemma RecordKeepsSymmetryIff(x: Index, i: Insert)
    requires Symmetric(x)
    ensures Symmetric(Record(x, i)) <==> (Place(i.room, i.a) in x <==> Place(i.room, i.b) in x)
  {
    var y := Record(x, i);
    if Place(i.room, i.a) in x <==> Place(i.room, i.b) in x {
      forall r, u, v | Names(y, r, u, v) ensures Names(y, r, v, u) {
        if Names(x, r, u, v) { assert Names(x, r, v, u); }
      }
    } else if Place(i.room, i.a) in x {
      assert Names(x, i.room, i.a, x[Place(i.room, i.a)]);
      assert Names(x, i.room, x[Place(i.room, i.a)], i.a);
      assert Names(y, i.room, i.b, i.a) && !Names(y, i.room, i.a, i.b);
    } else {
      assert Names(x, i.room, i.b, x[Place(i.room, i.b)]);
      assert Names(x, i.room, x[Place(i.room, i.b)], i.b);
      assert Names(y, i.room, i.a, i.b) && !Names(y, i.room, i.b, i.a);
    }
  }

  /** Rows are never changed once written. */
  lemma {:induction false} RowsNeverChange(x: Index, ins: seq<Insert>)
    ensures forall p :: p in x ==> p in RecordAll(x, ins) && RecordAll(x, ins)[p] == x[p]
  {
    if ins != [] { RowsNeverChange(x, ins[..|ins| - 1]); }
  }

  /** Rooms used as one room per unordered pair of users. */
  ghost predicate OneRoomPerPair(ins: seq<Insert>) {
    forall i, j :: i in ins && j in ins && i.room == j.room ==> {i.a, i.b} == {j.a, j.b}
  }

  /** Then the index holds exactly the two rows of every insert, in whatever order and
      however often the inserts ran. */
  lemma {:induction false} IndexIsThePairs(ins: seq<Insert>)
    requires OneRoomPerPair(ins)
    ensures forall r, u, v :: Names(RecordAll(map[], ins), r, u, v) <==>
            (Insert(r, u, v) in ins || Insert(r, v, u) in ins)
  {
    if ins != [] {
      var front, last := ins[..|ins| - 1], ins[|ins| - 1];
      assert ins == front + [last];
      assert forall i :: i in ins <==> i in front || i == last;
      IndexIsThePairs(front);
      var x, y := RecordAll(map[], front), RecordAll(map[], ins);
      forall r, u, v ensures Names(y, r, u, v) <==> (Insert(r, u, v) in ins || Insert(r, v, u) in ins) {
        if Place(r, u) in x {
          var w := x[Place(r, u)];
          assert Names(x, r, u, w);
          assert Insert(r, u, w) in ins || Insert(r, w, u) in ins;
          if Insert(r, u, v) in ins || Insert(r, v, u) in ins { SamePeer(ins, r, u, v, w); }
          assert Names(y, r, u, v) <==> v == w;
        } else {
          assert !Names(x, r, u, v);
        }
      }
    }
  }

  lemma SamePeer(ins: seq<Insert>, r: string, u: Uid, v: Uid, w: Uid)
    requires OneRoomPerPair(ins)
    requires Insert(r, u, v) in ins || Insert(r, v, u) in ins
    requires Insert(r, u, w) in ins || Insert(r, w, u) in ins
    ensures v == w
  {
    var i := if Insert(r, u, v) in ins then Insert(r, u, v) else Insert(r, v, u);
    var j := if Insert(r, u, w) in ins then Insert(r, u, w) else Insert(r, w, u);
    assert {i.a, i.b} == {u, v} && {j.a, j.b} == {u, w};
    assert v in {u, w} && w in {u, v};
  }

  /** With one room per pair the index is symmetric, and depends only on which inserts ran. */
  lemma OrderAndRepetitionDoNotMatter(ins: seq<Insert>, js: seq<Insert>)
    requires OneRoomPerPair(ins) && Elems(ins) == Elems(js)
    ensures Symmetric(RecordAll(map[], ins)) && RecordAll(map[], js) == RecordAll(map[], ins)
  {
    assert forall i :: i in ins <==> i in Elems(ins);
    assert forall i :: i in js <==> i in Elems(js);
    IndexIsThePairs(ins);
    IndexIsThePairs(js);
    var x, y := RecordAll(map[], ins), RecordAll(map[], js);
    forall p ensures (p in x <==> p in y) && (p in x && p in y ==> x[p] == y[p]) {
      if p in x { assert Names(x, p.room, p.user, x[p]); assert Names(y, p.room, p.user, x[p]); }
      if p in y { assert Names(y, p.room, p.user, y[p]); assert Names(x, p.room, p.user, y[p]); }
    }
    assert x.Keys == y.Keys;
  }

  /** The index after the first k inserts. */
  function IndexAt(ins: seq<Insert>, k: nat): Index
    requires k <= |ins|
  {
    RecordAll(map[], ins[..k])
  }

  /** The room of the next insert lists exactly one of its two users. */
  predicate HalfListed(x: Index, i: Insert) {
    (Place(i.room, i.a) in x) != (Place(i.room, i.b) in x)
  }

  /** Over any inserts, the index is symmetric at every moment exactly when no insert finds
      just one of its two users listed in its room. */
  lemma StaysSymmetricIff(ins: seq<Insert>)
    ensures (forall k :: 0 <= k <= |ins| ==> Symmetric(IndexAt(ins, k)))
            <==> forall k :: 0 <= k < |ins| ==> !HalfListed(IndexAt(ins, k), ins[k])
  {
    if forall k :: 0 <= k < |ins| ==> !HalfListed(IndexAt(ins, k), ins[k]) {
      for k := 0 to |ins|
        invariant forall j :: 0 <= j <= k ==> Symmetric(IndexAt(ins, j))
      {
        NextInsert(ins, k);
      }
    } else {
      var k :| 0 <= k < |ins| && HalfListed(IndexAt(ins, k), ins[k]);
      if Symmetric(IndexAt(ins, k)) { NextInsert(ins, k); }
    }
  }

  lemma NextInsert(ins: seq<Insert>, k: nat)
    requires k < |ins| && Symmetric(IndexAt(ins, k))
    ensures Symmetric(IndexAt(ins, k + 1)) <==> !HalfListed(IndexAt(ins, k), ins[k])
  {
    assert ins[..k + 1][..k] == ins[..k];
    RecordKeepsSymmetryIff(IndexAt(ins, k), ins[k]);
  }

  /** A room shared by two pairs breaks the symmetry. */
  lemma SharedRoomIsLopsided()
    ensures !Symmetric(RecordAll(map[], [Insert("r", 1, 2), Insert("r", 1, 3)]))
  {
    var ins := [Insert("r", 1, 2), Insert("r", 1, 3)];
    assert ins[..1] == [Insert("r", 1, 2)] && ins[..1][..0] == [];
    assert RecordAll(map[], ins[..1][..0]) == map[];
    var x := RecordAll(map[], ins[..1]);
    assert x == map[Place("r", 1) := 2, Place("r", 2) := 1];
    assert Names(Record(x, ins[1]), "r", 3, 1) && !Names(Record(x, ins[1]), "r", 1, 3);
  }
}
