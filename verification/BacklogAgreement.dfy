/** When the in-memory and the persistent backlog keep the same messages. */
module BacklogAgreement {
  import opened Basics
  import opened Filters
  import opened Members
  import opened MessageService
  import opened SqlBacklog
  import B = Backlog

  /** How a message is sealed before it is stored is up to the caller. */
  type Seal = Envelope -> seq<byte>

  predicate Matches(m: B.Stored, r: Row, seal: Seal) {
    r == NewRow(r.id, m.envelope.room, m.recipient, m.envelope.sequence, seal(m.envelope), m.storedAt)
  }

  /** The rows that inserting these messages one after the other makes. */
  ghost predicate RowsOf(messages: seq<B.Stored>, rows: seq<Row>, seal: Seal) {
    && |rows| == |messages|
    && IdsIncrease(rows)
    && forall i :: 0 <= i < |rows| ==> Matches(messages[i], rows[i], seal)
  }

  /** Storing one more message under a new key. */
  lemma StoredRowMatches(messages: seq<B.Stored>, rows: seq<Row>, seal: Seal, m: B.Stored, id: nat)
    requires RowsOf(messages, rows, seal) && forall r :: r in rows ==> r.id < id
    ensures RowsOf(messages + [m],
                   rows + [NewRow(id, m.envelope.room, m.recipient, m.envelope.sequence, seal(m.envelope), m.storedAt)],
                   seal)
  {
    forall i | 0 <= i < |rows| ensures rows[i].id < id {
      assert rows[i] in rows;
    }
  }

  // ---------------------------------------------------------------------------
  // The same choice made of messages and of their rows

  lemma {:induction false} FilterBoth(messages: seq<B.Stored>, rows: seq<Row>, seal: Seal,
                                      p: B.Stored -> bool, q: Row -> bool)
    requires RowsOf(messages, rows, seal)
    requires forall i :: 0 <= i < |rows| ==> (p(messages[i]) <==> q(rows[i]))
    ensures RowsOf(Filter(messages, p), Filter(rows, q), seal)
    decreases |rows|
  {
    FilterIds(rows, q);
    if rows != [] {
      FilterBoth(messages[..|rows| - 1], rows[..|rows| - 1], seal, p, q);
    }
  }

  /** The choices leave equally many exactly when the conditions agree on every message. */
  lemma FilterBothIff(messages: seq<B.Stored>, rows: seq<Row>, seal: Seal, p: B.Stored -> bool, q: Row -> bool)
    requires RowsOf(messages, rows, seal)
    requires || (forall i :: 0 <= i < |rows| && p(messages[i]) ==> q(rows[i]))
             || (forall i :: 0 <= i < |rows| && q(rows[i]) ==> p(messages[i]))
    ensures |Filter(messages, p)| == |Filter(rows, q)|
       <==> forall i :: 0 <= i < |rows| ==> (p(messages[i]) <==> q(rows[i]))
    ensures |Filter(messages, p)| == |Filter(rows, q)| ==> RowsOf(Filter(messages, p), Filter(rows, q), seal)
  {
    if forall i :: 0 <= i < |rows| && p(messages[i]) ==> q(rows[i]) {
      FilterLengths(messages, rows, p, q);
    } else {
      FilterLengths(rows, messages, q, p);
    }
    if forall i :: 0 <= i < |rows| ==> (p(messages[i]) <==> q(rows[i])) {
      FilterBoth(messages, rows, seal, p, q);
    }
  }

  lemma RoomsMatch(messages: seq<B.Stored>, rows: seq<Row>, seal: Seal, room: RoomId)
    requires RowsOf(messages, rows, seal)
    ensures RowsOf(B.Queue(messages, room), Filter(rows, RowInRoom(room)), seal)
  {
    forall i | 0 <= i < |rows| ensures B.InRoom(room)(messages[i]) <==> RowInRoom(room)(rows[i]) {
      assert Matches(messages[i], rows[i], seal);
    }
    FilterBoth(messages, rows, seal, B.InRoom(room), RowInRoom(room));
  }

  lemma LastMatch(messages: seq<B.Stored>, rows: seq<Row>, seal: Seal, n: nat)
    requires RowsOf(messages, rows, seal)
    ensures RowsOf(Last(messages, n), Last(rows, n), seal)
  {
  }

  // ---------------------------------------------------------------------------
  // Expiry

  predicate SameSide(x: u64, y: u64) {
    x < 0x8000_0000_0000_0000 <==> y < 0x8000_0000_0000_0000
  }

  /** Purging by age leaves the same messages in both exactly when every time stored and the
      cutoff lie on the same side of 2^63. */
  lemma PurgedAgreeIff(messages: seq<B.Stored>, rows: seq<Row>, seal: Seal, maxAge: u64, now: u64)
    requires RowsOf(messages, rows, seal)
    ensures var cutoff := if now < maxAge then 0 else now - maxAge;
      RowsOf(Filter(messages, B.NotBefore(cutoff)), Filter(rows, RowNotBefore(ToSigned(cutoff))), seal)
      <==> forall m :: m in messages ==> SameSide(m.storedAt, cutoff)
  {
    var cutoff := B.SaturatingSub(now, maxAge);
    var p, q := B.NotBefore(cutoff), RowNotBefore(ToSigned(cutoff));
    forall i | 0 <= i < |rows|
      ensures (p(messages[i]) <==> q(rows[i])) <==> SameSide(messages[i].storedAt, cutoff)
      ensures cutoff < TWO_63 && q(rows[i]) ==> p(messages[i])
      ensures cutoff >= TWO_63 && p(messages[i]) ==> q(rows[i])
    {
      assert Matches(messages[i], rows[i], seal);
    }
    FilterBothIff(messages, rows, seal, p, q);
    assert forall i :: 0 <= i < |rows| ==> messages[i] in messages;
  }

  // ---------------------------------------------------------------------------
  // The newest rows and the last ones

  function Listed(keep: set<nat>): Row -> bool {
    (r: Row) => r.id in keep
  }

  lemma LastIds(rows: seq<Row>, n: nat)
    requires IdsIncrease(rows)
    ensures |Ids(Last(rows, n))| == if |rows| <= n then |rows| else n
    ensures forall i :: 0 <= i < |rows| ==> (rows[i].id in Ids(Last(rows, n)) <==> |rows| - n <= i)
    ensures Ids(Last(rows, n)) <= Ids(rows)
  {
    var last := Last(rows, n);
    var start := |rows| - |last|;
    assert last == rows[start..];
    DistinctIds(last);
    forall i | start <= i < |rows| ensures rows[i].id in Ids(last) {
      assert last[i - start] == rows[i];
    }
  }

  lemma {:induction false} NewestExists(rows: seq<Row>, n: nat) returns (keep: set<nat>)
    requires IdsIncrease(rows)
    ensures IsNewest(rows, n, keep)
    decreases |rows|
  {
    keep := {};
    if rows != [] {
      var k := |rows| - 1;
      keep := NewestExists(rows[..k], n);
      PickStep(rows, k, n, keep);
      keep := Consider(rows[..k], n, keep, rows[k]);
      assert rows[..k + 1] == rows;
    }
  }

  /** Different sets of one size each have something that the other has not. */
  lemma EachMissesOne(a: set<nat>, b: set<nat>) returns (x: nat, y: nat)
    requires |a| == |b| && a != b
    ensures x in a && x !in b && y in b && y !in a
  {
    if a <= b {
      SmallerSubset(a, b);
    }
    if b <= a {
      SmallerSubset(b, a);
    }
    x :| x in a && x !in b;
    y :| y in b && y !in a;
  }

  /** Every row before the last n is older than every one of them. */
  ghost predicate LastAreNewest(rows: seq<Row>, n: nat) {
    forall i, j :: 0 <= i < |rows| - n <= j < |rows| ==> rows[i].sequence < rows[j].sequence
  }

  /** The same without excluding ties. */
  ghost predicate LastAreAmongNewest(rows: seq<Row>, n: nat) {
    forall i, j :: 0 <= i < |rows| - n <= j < |rows| ==> rows[i].sequence <= rows[j].sequence
  }

  lemma LastMayBeNewestIff(rows: seq<Row>, n: nat)
    requires IdsIncrease(rows)
    ensures IsNewest(rows, n, Ids(Last(rows, n))) <==> LastAreAmongNewest(rows, n)
  {
    LastIds(rows, n);
  }

  /** Another choice of the newest leaves out one of the last n for an earlier row that is
      not older. */
  lemma OtherChoice(rows: seq<Row>, n: nat, keep: set<nat>) returns (i: nat, j: nat)
    requires IdsIncrease(rows) && IsNewest(rows, n, keep) && keep != Ids(Last(rows, n))
    ensures i < |rows| - n <= j < |rows| && rows[j].sequence <= rows[i].sequence
  {
    LastIds(rows, n);
    var x, y := EachMissesOne(keep, Ids(Last(rows, n)));
    i :| 0 <= i < |rows| && rows[i].id == x;
    j :| 0 <= j < |rows| && rows[j].id == y;
  }

  lemma TieDominates(rows: seq<Row>, n: nat, i: nat, j: nat, keep: set<nat>)
    requires i < |rows| - n <= j < |rows| && rows[i].sequence == rows[j].sequence
    requires LastAreAmongNewest(rows, n)
    requires forall k :: 0 <= k < |rows| ==> (rows[k].id in keep <==> k == i || (|rows| - n <= k && k != j))
    ensures Dominates(rows, keep)
  {
    forall a, b | 0 <= a < |rows| && 0 <= b < |rows| && rows[a].id in keep && rows[b].id !in keep
      ensures rows[b].sequence <= rows[a].sequence
    {
      assert rows[i].sequence <= rows[a].sequence;
      assert rows[b].sequence <= rows[j].sequence;
    }
  }

  /** In a tie across the cut, another choice is as good. */
  lemma TieAllowsOther(rows: seq<Row>, n: nat, i: nat, j: nat) returns (keep: set<nat>)
    requires IdsIncrease(rows) && i < |rows| - n <= j < |rows| && rows[i].sequence == rows[j].sequence
    requires LastAreAmongNewest(rows, n)
    ensures IsNewest(rows, n, keep) && keep != Ids(Last(rows, n))
  {
    LastIds(rows, n);
    var last := Ids(Last(rows, n));
    assert rows[i].id !in last && rows[j].id in last;
    keep := last - {rows[j].id} + {rows[i].id};
    assert rows[i].id in keep;
    TieDominates(rows, n, i, j, keep);
  }

  /** The last n rows are the only choice of the n newest exactly when every row before them
      is older than every one of them. */
  lemma OnlyChoiceIff(rows: seq<Row>, n: nat)
    requires IdsIncrease(rows)
    ensures (forall keep :: IsNewest(rows, n, keep) ==> keep == Ids(Last(rows, n))) <==> LastAreNewest(rows, n)
  {
    if LastAreNewest(rows, n) {
      forall keep | IsNewest(rows, n, keep) ensures keep == Ids(Last(rows, n)) {
        if keep != Ids(Last(rows, n)) {
          var i, j := OtherChoice(rows, n, keep);
        }
      }
    } else {
      var i, j :| 0 <= i < |rows| - n <= j < |rows| && rows[i].sequence >= rows[j].sequence;
      LastMayBeNewestIff(rows, n);
      if LastAreAmongNewest(rows, n) {
        var _ := TieAllowsOther(rows, n, i, j);
      } else {
        var _ := NewestExists(rows, n);
      }
    }
  }

  lemma ListedIds(rows: seq<Row>, keep: set<nat>)
    requires IdsIncrease(rows) && keep <= Ids(rows)
    ensures Ids(Filter(rows, Listed(keep))) == keep
  {
    var kept := Filter(rows, Listed(keep));
    FilterMembers(rows, Listed(keep));
    forall id | id in keep ensures id in Ids(kept) {
      var i :| 0 <= i < |rows| && rows[i].id == id;
      assert rows[i] in kept;
    }
    forall id | id in Ids(kept) ensures id in keep {
      var i :| 0 <= i < |kept| && kept[i].id == id;
      assert kept[i] in kept;
    }
  }

  /** The listed rows are the last n exactly when the list consists of their keys. */
  lemma ListedAreLastIff(rows: seq<Row>, n: nat, keep: set<nat>)
    requires IdsIncrease(rows) && keep <= Ids(rows)
    ensures Filter(rows, Listed(keep)) == Last(rows, n) <==> keep == Ids(Last(rows, n))
  {
    ListedIds(rows, keep);
    LastIds(rows, n);
    if keep == Ids(Last(rows, n)) {
      FilterTail(rows, Listed(keep));
      FilterIds(rows, Listed(keep));
      DistinctIds(Filter(rows, Listed(keep)));
    }
  }

  lemma SurvivorsOfRoom(rows: seq<Row>, room: RoomId, keep: set<nat>)
    ensures Filter(Filter(rows, Survives(room, keep)), RowInRoom(room))
         == Filter(Filter(rows, RowInRoom(room)), Listed(keep))
  {
    FilterSwap(rows, Survives(room, keep), RowInRoom(room));
    var mine := Filter(rows, RowInRoom(room));
    FilterMembers(rows, RowInRoom(room));
    SameFilter(mine, Survives(room, keep), Listed(keep));
  }

  lemma {:induction false} SameFilter(rows: seq<Row>, p: Row -> bool, q: Row -> bool)
    requires forall r :: r in rows ==> p(r) == q(r)
    ensures Filter(rows, p) == Filter(rows, q)
    decreases |rows|
  {
    if rows != [] {
      SameFilter(rows[..|rows| - 1], p, q);
    }
  }

  // ---------------------------------------------------------------------------
  // Evicting on store against purging afterwards

  /** Of a room's queue, every message before the last n has a lower number in the table
      than every one of them. */
  ghost predicate CutInOrder(queue: seq<B.Stored>, n: nat) {
    forall i, j :: 0 <= i < |queue| - n <= j < |queue|
      ==> ToSigned(queue[i].envelope.sequence) < ToSigned(queue[j].envelope.sequence)
  }

  lemma CutOfRows(queue: seq<B.Stored>, mine: seq<Row>, seal: Seal, n: nat)
    requires RowsOf(queue, mine, seal)
    ensures CutInOrder(queue, n) <==> LastAreNewest(mine, n)
  {
    assert forall i :: 0 <= i < |mine| ==> Matches(queue[i], mine[i], seal);
    assert forall i :: 0 <= i < |mine| ==> mine[i].sequence == ToSigned(queue[i].envelope.sequence);
  }

  /** The rows of a room that purging the excess leaves. */
  function Left(rows: seq<Row>, room: RoomId, keep: set<nat>): seq<Row> {
    Filter(Filter(rows, Survives(room, keep)), RowInRoom(room))
  }

  /** What the memory keeps of a room are the last messages stored. */
  lemma MemoryKeepsLast(stores: seq<B.Stored>, rows: seq<Row>, seal: Seal, cap: u32, room: RoomId)
    requires RowsOf(stores, rows, seal)
    ensures RowsOf(B.Queue(B.StoreAll([], cap, stores), room),
                   Last(Filter(rows, RowInRoom(room)), B.Kept(cap)), seal)
  {
    RoomsMatch(stores, rows, seal, room);
    B.EachRoomKeepsItsLast([], cap, stores, room);
    assert [] + B.Queue(stores, room) == B.Queue(stores, room);
    LastMatch(B.Queue(stores, room), Filter(rows, RowInRoom(room)), seal, B.Kept(cap));
  }

  lemma LeftIsLastIff(rows: seq<Row>, room: RoomId, n: nat, keep: set<nat>)
    requires IdsIncrease(rows) && keep <= Ids(Filter(rows, RowInRoom(room)))
    ensures Left(rows, room, keep) == Last(Filter(rows, RowInRoom(room)), n)
       <==> keep == Ids(Last(Filter(rows, RowInRoom(room)), n))
  {
    FilterIds(rows, RowInRoom(room));
    SurvivorsOfRoom(rows, room, keep);
    ListedAreLastIff(Filter(rows, RowInRoom(room)), n, keep);
  }

  /** For any stores, of any senders, for any recipients and rooms, in any order: however
      ties are broken, purging the excess leaves of a room the rows of exactly the messages
      that evicting on store keeps, exactly when the bound is not zero and the messages cut
      off all have lower numbers than those kept. With a bound of zero the memory still
      keeps the newest message and the table none. */
  lemma RetainedAgreeIff(stores: seq<B.Stored>, rows: seq<Row>, seal: Seal, cap: u32, room: RoomId)
    requires RowsOf(stores, rows, seal)
    ensures RowsOf(B.Queue(B.StoreAll([], cap, stores), room),
                   Last(Filter(rows, RowInRoom(room)), B.Kept(cap)), seal)
    ensures var mine := Filter(rows, RowInRoom(room));
      (forall keep :: IsNewest(mine, cap, keep) ==> Left(rows, room, keep) == Last(mine, B.Kept(cap)))
      <==> if cap == 0 then B.Queue(stores, room) == [] else CutInOrder(B.Queue(stores, room), cap)
  {
    var mine := Filter(rows, RowInRoom(room));
    MemoryKeepsLast(stores, rows, seal, cap, room);
    RoomsMatch(stores, rows, seal, room);
    FilterIds(rows, RowInRoom(room));
    CutOfRows(B.Queue(stores, room), mine, seal, cap);
    if cap == 0 {
      NoneLeft(rows, room);
    } else {
      forall keep | IsNewest(mine, cap, keep)
        ensures Left(rows, room, keep) == Last(mine, cap) <==> keep == Ids(Last(mine, cap))
      {
        LeftIsLastIff(rows, room, cap, keep);
      }
      OnlyChoiceIff(mine, cap);
    }
  }

  lemma NoneLeft(rows: seq<Row>, room: RoomId)
    requires IdsIncrease(rows)
    ensures IsNewest(Filter(rows, RowInRoom(room)), 0, {})
    ensures Left(rows, room, {}) == Last(Filter(rows, RowInRoom(room)), 1) <==> Filter(rows, RowInRoom(room)) == []
  {
    var mine := Filter(rows, RowInRoom(room));
    SurvivorsOfRoom(rows, room, {});
    FilterNone(mine, Listed({}));
  }

  /** For some way of breaking ties they agree exactly when no message cut off has a higher
      number than one kept. */
  lemma RetainedMayAgreeIff(stores: seq<B.Stored>, rows: seq<Row>, seal: Seal, cap: u32, room: RoomId)
    requires RowsOf(stores, rows, seal)
    ensures var mine := Filter(rows, RowInRoom(room));
      (exists keep :: IsNewest(mine, cap, keep) && Left(rows, room, keep) == Last(mine, B.Kept(cap)))
      <==> if cap == 0 then mine == [] else LastAreAmongNewest(mine, cap)
  {
    var mine := Filter(rows, RowInRoom(room));
    FilterIds(rows, RowInRoom(room));
    if cap == 0 {
      NoneLeft(rows, room);
      return;
    }
    LastMayBeNewestIff(mine, cap);
    LastIds(mine, cap);
    LeftIsLastIff(rows, room, cap, Ids(Last(mine, cap)));
    forall keep | IsNewest(mine, cap, keep) && Left(rows, room, keep) == Last(mine, cap)
      ensures keep == Ids(Last(mine, cap))
    {
      LeftIsLastIff(rows, room, cap, keep);
    }
  }

  /** Two senders number their messages independently. The second one's first message arrives
      when the first one is at 10: with a bound of one the memory keeps the latter message
      and the table the former. */
  lemma TwoSendersDisagree(x: B.Stored, y: B.Stored, rows: seq<Row>, seal: Seal, room: RoomId, keep: set<nat>)
    requires x.envelope.room == y.envelope.room == room && x.envelope.sender != y.envelope.sender
    requires x.envelope.sequence == 10 && y.envelope.sequence == 1
    requires RowsOf([x, y], rows, seal) && IsNewest(Filter(rows, RowInRoom(room)), 1, keep)
    ensures B.Queue(B.StoreAll([], 1, [x, y]), room) == [y]
    ensures Left(rows, room, keep) == [rows[0]]
  {
    MemoryKeepsSecond(x, y, room);
    assert Matches([x, y][0], rows[0], seal) && Matches([x, y][1], rows[1], seal);
    assert rows == [rows[0], rows[1]];
    FilterAll(rows, RowInRoom(room));
    SurvivorsOfRoom(rows, room, keep);
    OneOfTwo(rows[0], rows[1], keep);
  }

  lemma MemoryKeepsSecond(x: B.Stored, y: B.Stored, room: RoomId)
    requires x.envelope.room == y.envelope.room == room
    ensures B.Queue(B.StoreAll([], 1, [x, y]), room) == [y]
  {
    FilterAll([x, y], B.InRoom(room));
    B.EachRoomKeepsItsLast([], 1, [x, y], room);
    assert B.Queue([], room) + [x, y] == [x, y];
  }

  lemma OneOfTwo(a: Row, b: Row, keep: set<nat>)
    requires a.id < b.id && a.sequence > b.sequence && IsNewest([a, b], 1, keep)
    ensures Filter([a, b], Listed(keep)) == [a]
  {
    FirstIsNewer(a, b, keep);
    FilterAround([], a, [b], Listed(keep));
    FilterOne(b, Listed(keep));
    assert [] + [a] + [b] == [a, b];
  }

  lemma FirstIsNewer(a: Row, b: Row, keep: set<nat>)
    requires a.id < b.id && a.sequence > b.sequence && IsNewest([a, b], 1, keep)
    ensures a.id in keep && b.id !in keep
  {
    var id :| id in keep;
    if id == b.id {
      assert Dominates([a, b], keep) && [a, b][1].id in keep;
      assert [a, b][0].id in keep;
    }
    if keep != {a.id} {
      SmallerSubset({a.id}, keep);
    }
  }
}
