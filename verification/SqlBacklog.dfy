/** The persistent backlog: a table of messages with an automatic key, and statements on it. */
module SqlBacklog {
  import opened Basics
  import opened Filters
  import opened Members
  import opened MessageService
  import B = Backlog

  /** The hash of a fingerprint: different fingerprints have different hashes. */
  datatype Hash = Sha256(input: Fingerprint)

  const TWO_63 := 0x8000_0000_0000_0000
  const TWO_64 := 0x1_0000_0000_0000_0000

  type i64 = x: int | -TWO_63 <= x < TWO_63

  /** An unsigned number stored in a signed column, and read back. */
  function ToSigned(x: u64): i64 {
    if x < TWO_63 then x else x - TWO_64
  }

  function ToUnsigned(x: i64): u64 {
    if x < 0 then x + TWO_64 else x
  }

  lemma SignedRoundTrip(x: u64)
    ensures ToUnsigned(ToSigned(x)) == x
  {
  }

  /** Two numbers keep their order in the column exactly when 2^63 is not between them. */
  lemma SignedOrderIff(x: u64, y: u64)
    requires x < y
    ensures ToSigned(x) < ToSigned(y) <==> !(x < 0x8000_0000_0000_0000 <= y)
  {
  }

  datatype Row = Row(id: nat, room: RoomId, recipient: Hash, sequence: i64, data: seq<byte>, storedAt: i64)

  function NewRow(id: nat, room: RoomId, recipient: Fingerprint, sequence: u64, data: seq<byte>, storedAt: u64): Row {
    Row(id, room, Sha256(recipient), ToSigned(sequence), data, ToSigned(storedAt))
  }

  datatype Error = NoSuchRoom

  function RowInRoom(room: RoomId): Row -> bool {
    (r: Row) => r.room == room
  }

  function RowWanted(room: RoomId, recipient: Hash, since: i64): Row -> bool {
    (r: Row) => r.room == room && r.recipient == recipient && r.sequence > since
  }

  function RowNotBefore(cutoff: i64): Row -> bool {
    (r: Row) => r.storedAt >= cutoff
  }

  /** What a deletion leaves: other rooms, and the listed rows of this one. */
  function Survives(room: RoomId, keep: set<nat>): Row -> bool {
    (r: Row) => r.room != room || r.id in keep
  }

  /** Keys are handed out in increasing order. */
  ghost predicate IdsIncrease(rows: seq<Row>) {
    forall i, j :: 0 <= i < j < |rows| ==> rows[i].id < rows[j].id
  }

  ghost predicate SortedBySequence(rows: seq<Row>) {
    forall i, j :: 0 <= i < j < |rows| ==> rows[i].sequence <= rows[j].sequence
  }

  /** Rows in ascending order of sequence number; ties may come in any order. */
  ghost predicate IsAscending(rows: seq<Row>, answer: seq<Row>) {
    multiset(answer) == multiset(rows) && SortedBySequence(answer)
  }

  function Ids(rows: seq<Row>): set<nat> {
    set i | 0 <= i < |rows| :: rows[i].id
  }

  /** No row that is left out is newer than one that is kept. */
  ghost predicate Dominates(rows: seq<Row>, keep: set<nat>) {
    forall i, j :: 0 <= i < |rows| && 0 <= j < |rows| && rows[i].id in keep && rows[j].id !in keep
      ==> rows[j].sequence <= rows[i].sequence
  }

  /** A choice of n rows, or all when there are fewer, with the highest sequence numbers;
      ties may be broken in any way. */
  ghost predicate IsNewest(rows: seq<Row>, n: nat, keep: set<nat>) {
    keep <= Ids(rows) && |keep| == (if |rows| <= n then |rows| else n) && Dominates(rows, keep)
  }

  function Output(rows: seq<Row>): (r: seq<(u64, seq<byte>)>)
    ensures |r| == |rows| && forall i :: 0 <= i < |r| ==> r[i] == (ToUnsigned(rows[i].sequence), rows[i].data)
  {
    seq(|rows|, i requires 0 <= i < |rows| => (ToUnsigned(rows[i].sequence), rows[i].data))
  }

  /** The row is of this room and recipient, with a number above the bound as the column has
      it: from 2^63 on it is negative there. */
  predicate IsWanted(row: Row, room: RoomId, recipient: Fingerprint, since: u64) {
    && row.room == room && row.recipient == Sha256(recipient)
    && row.sequence > (if since < 0x8000_0000_0000_0000 then since else since - 0x1_0000_0000_0000_0000)
  }

  // ---------------------------------------------------------------------------
  // Statements

  class SqliteStorage {
    var rooms: set<RoomId>
    var rows: seq<Row>
    var nextId: nat

    ghost predicate Valid()
      reads this
    {
      && IdsIncrease(rows)
      && (forall r :: r in rows ==> r.id < nextId && r.room in rooms)
    }

    constructor ()
      ensures Valid() && rooms == {} && rows == []
    {
      rooms, rows, nextId := {}, [], 1;
    }

    method StoreRoom(room: RoomId)
      requires Valid()
      modifies this`rooms
      ensures Valid() && rooms == old(rooms) + {room}
    {
      rooms := rooms + {room};
    }

    /** A message of a room that is not stored violates the foreign key. */
    method StoreMessage(room: RoomId, recipient: Fingerprint, sequence: u64, data: seq<byte>, storedAt: u64)
        returns (r: Result<(), Error>)
      requires Valid()
      modifies this`rows, this`nextId
      ensures Valid()
      ensures r == if room in rooms then Ok(()) else Err(NoSuchRoom)
      ensures r.Err? ==> rows == old(rows)
      ensures r.Ok? ==>
        && rows == old(rows) + [NewRow(old(nextId), room, recipient, sequence, data, storedAt)]
        && var row := rows[|rows| - 1];
           && row.id == old(nextId) && row.room == room && row.recipient == Sha256(recipient) && row.data == data
           && (sequence < 0x8000_0000_0000_0000 ==> row.sequence == sequence)
           && (storedAt < 0x8000_0000_0000_0000 ==> row.storedAt == storedAt)
    {
      if room !in rooms {
        return Err(NoSuchRoom);
      }
      rows := rows + [NewRow(nextId, room, recipient, sequence, data, storedAt)];
      nextId := nextId + 1;
      r := Ok(());
    }

    method FetchBacklog(room: RoomId, recipient: Fingerprint, since: u64) returns (r: seq<(u64, seq<byte>)>)
      ensures exists answer :: IsAscending(Filter(rows, RowWanted(room, Sha256(recipient), ToSigned(since))), answer)
                && r == Output(answer)
                && forall row :: row in answer <==> row in rows && IsWanted(row, room, recipient, since)
    {
      var wanted := RowWanted(room, Sha256(recipient), ToSigned(since));
      var answer := Ascending(Filter(rows, wanted));
      FilterMembers(rows, wanted);
      SameMembers(Filter(rows, wanted), answer);
      r := Output(answer);
    }

    method PurgeExpired(maxAge: u64, now: u64) returns (removed: nat)
      requires Valid()
      modifies this`rows
      ensures Valid()
      ensures rows == Filter(old(rows), RowNotBefore(ToSigned(B.SaturatingSub(now, maxAge))))
      ensures now < 0x8000_0000_0000_0000 ==>
        forall r :: r in rows <==> r in old(rows) && r.storedAt >= 0 && r.storedAt + maxAge >= now
      ensures removed == |old(rows)| - |rows|
    {
      var keep := RowNotBefore(ToSigned(B.SaturatingSub(now, maxAge)));
      var before := |rows|;
      FilterMembers(rows, keep);
      FilterIds(rows, keep);
      rows := Filter(rows, keep);
      removed := before - |rows|;
    }

    /** Of this room only the newest messages stay. */
    method PurgeExcess(room: RoomId, maxMessages: u32) returns (removed: nat)
      requires Valid()
      modifies this`rows
      ensures Valid()
      ensures exists keep :: IsNewest(Filter(old(rows), RowInRoom(room)), maxMessages, keep)
                && rows == Filter(old(rows), Survives(room, keep))
      ensures forall other :: other != room ==> Filter(rows, RowInRoom(other)) == Filter(old(rows), RowInRoom(other))
      ensures removed == |old(rows)| - |rows|
    {
      FilterIds(rows, RowInRoom(room));
      var keep := PickNewest(Filter(rows, RowInRoom(room)), maxMessages);
      var before := |rows|;
      FilterMembers(rows, Survives(room, keep));
      FilterIds(rows, Survives(room, keep));
      OthersSurvive(rows, room, keep);
      rows := Filter(rows, Survives(room, keep));
      removed := before - |rows|;
    }
  }

  lemma OthersSurvive(rows: seq<Row>, room: RoomId, keep: set<nat>)
    ensures forall other :: other != room
              ==> Filter(Filter(rows, Survives(room, keep)), RowInRoom(other)) == Filter(rows, RowInRoom(other))
  {
    forall other | other != room
      ensures Filter(Filter(rows, Survives(room, keep)), RowInRoom(other)) == Filter(rows, RowInRoom(other))
    {
      FilterTwice(rows, Survives(room, keep), RowInRoom(other));
    }
  }

  lemma {:induction false} FilterIds(rows: seq<Row>, keep: Row -> bool)
    requires IdsIncrease(rows)
    ensures IdsIncrease(Filter(rows, keep))
    decreases |rows|
  {
    if rows != [] {
      var init, x := rows[..|rows| - 1], rows[|rows| - 1];
      FilterIds(init, keep);
      FilterMembers(init, keep);
      forall r | r in Filter(init, keep) ensures r.id < x.id {
        assert r in init;
      }
    }
  }

  lemma SameMembers(rows: seq<Row>, answer: seq<Row>)
    requires multiset(rows) == multiset(answer)
    ensures forall r :: r in rows <==> r in answer
  {
    assert forall r :: r in rows <==> r in multiset(rows);
    assert forall r :: r in answer <==> r in multiset(answer);
  }

  /** Insert a row before the first that is greater. */
  function InsertRow(sorted: seq<Row>, r: Row): seq<Row> {
    if sorted == [] then [r]
    else
      var n := |sorted| - 1;
      if sorted[n].sequence <= r.sequence then sorted + [r] else InsertRow(sorted[..n], r) + [sorted[n]]
  }

  lemma {:induction false} InsertAdds(sorted: seq<Row>, r: Row)
    ensures multiset(InsertRow(sorted, r)) == multiset(sorted) + multiset{r}
    decreases |sorted|
  {
    if sorted != [] {
      var n := |sorted| - 1;
      assert sorted == sorted[..n] + [sorted[n]];
      InsertAdds(sorted[..n], r);
    }
  }

  lemma {:induction false} InsertSorts(sorted: seq<Row>, r: Row)
    requires SortedBySequence(sorted)
    ensures SortedBySequence(InsertRow(sorted, r))
    ensures forall x :: x in InsertRow(sorted, r) ==> x in sorted || x == r
    decreases |sorted|
  {
    if sorted != [] {
      var n := |sorted| - 1;
      if sorted[n].sequence > r.sequence {
        InsertSorts(sorted[..n], r);
        forall x | x in sorted[..n] ensures x.sequence <= sorted[n].sequence {
        }
      }
    }
  }

  method Ascending(rows: seq<Row>) returns (answer: seq<Row>)
    ensures IsAscending(rows, answer)
  {
    answer := [];
    for i := 0 to |rows|
      invariant IsAscending(rows[..i], answer)
    {
      InsertSorts(answer, rows[i]);
      InsertAdds(answer, rows[i]);
      answer := InsertRow(answer, rows[i]);
      assert rows[..i + 1] == rows[..i] + [rows[i]];
    }
    assert rows[..|rows|] == rows;
  }

  /** The position of a listed row with the lowest sequence number. */
  function Lowest(rows: seq<Row>, keep: set<nat>): (at: Option<nat>)
    ensures at.Some? ==> at.value < |rows| && rows[at.value].id in keep
    ensures at.Some? ==>
      forall i :: 0 <= i < |rows| && rows[i].id in keep ==> rows[at.value].sequence <= rows[i].sequence
    ensures at.None? ==> forall i :: 0 <= i < |rows| ==> rows[i].id !in keep
  {
    if rows == [] then None
    else
      var n := |rows| - 1;
      var earlier := Lowest(rows[..n], keep);
      if rows[n].id in keep && (earlier.None? || rows[n].sequence < rows[earlier.value].sequence) then Some(n)
      else earlier
  }

  /** One more row is considered: it is added while there is room, and otherwise replaces the
      lowest if it is higher. */
  function Consider(rows: seq<Row>, n: nat, keep: set<nat>, r: Row): set<nat> {
    if |rows| < n then keep + {r.id}
    else
      var low := Lowest(rows, keep);
      if low.Some? && rows[low.value].sequence < r.sequence then keep - {rows[low.value].id} + {r.id} else keep
  }

  lemma IdsOfOneMore(rows: seq<Row>, r: Row)
    ensures Ids(rows + [r]) == Ids(rows) + {r.id}
    ensures IdsIncrease(rows + [r]) ==> r.id !in Ids(rows)
  {
    var all := rows + [r];
    assert all[|rows|] == r;
    forall i | 0 <= i < |rows| ensures rows[i].id in Ids(all) {
      assert all[i] == rows[i];
    }
    if IdsIncrease(all) {
      forall i | 0 <= i < |rows| ensures rows[i].id < r.id {
        assert all[i].id < all[|rows|].id;
      }
    }
  }

  lemma {:induction false} DistinctIds(rows: seq<Row>)
    requires IdsIncrease(rows)
    ensures |Ids(rows)| == |rows|
    decreases |rows|
  {
    if rows != [] {
      var init, r := rows[..|rows| - 1], rows[|rows| - 1];
      assert rows == init + [r];
      DistinctIds(init);
      IdsOfOneMore(init, r);
    }
  }

  /** While there is room, all rows are kept. */
  lemma AllKept(rows: seq<Row>, n: nat, keep: set<nat>)
    requires IdsIncrease(rows) && IsNewest(rows, n, keep) && |rows| <= n
    ensures keep == Ids(rows)
  {
    DistinctIds(rows);
    if keep != Ids(rows) {
      SmallerSubset(keep, Ids(rows));
    }
  }

  lemma SmallerSubset(a: set<nat>, b: set<nat>)
    requires a < b
    ensures |a| < |b|
  {
    assert |b| == |a| + |b - a| by {
      assert b == a + (b - a);
    }
  }

  lemma AddDominates(rows: seq<Row>, r: Row)
    ensures Dominates(rows + [r], Ids(rows + [r]))
  {
  }

  lemma SwapDominates(rows: seq<Row>, keep: set<nat>, r: Row, low: nat)
    requires IdsIncrease(rows) && Dominates(rows, keep) && r.id !in Ids(rows) && low < |rows| && rows[low].id in keep
    requires forall i :: 0 <= i < |rows| && rows[i].id in keep ==> rows[low].sequence <= rows[i].sequence
    requires rows[low].sequence < r.sequence
    ensures Dominates(rows + [r], keep - {rows[low].id} + {r.id})
  {
    var all, after := rows + [r], keep - {rows[low].id} + {r.id};
    forall i, j | 0 <= i < |all| && 0 <= j < |all| && all[i].id in after && all[j].id !in after
      ensures all[j].sequence <= all[i].sequence
    {
      assert j < |rows| && all[j] == rows[j];
      assert rows[j].sequence <= rows[low].sequence by {
        if rows[j].id in keep {
          assert rows[j].id == rows[low].id;
        }
      }
    }
  }

  lemma SkipDominates(rows: seq<Row>, keep: set<nat>, r: Row)
    requires Dominates(rows, keep) && keep <= Ids(rows) && r.id !in Ids(rows)
    requires forall i :: 0 <= i < |rows| && rows[i].id in keep ==> r.sequence <= rows[i].sequence
    ensures Dominates(rows + [r], keep)
  {
    var all := rows + [r];
    forall i, j | 0 <= i < |all| && 0 <= j < |all| && all[i].id in keep && all[j].id !in keep
      ensures all[j].sequence <= all[i].sequence
    {
      assert i < |rows| && all[i] == rows[i];
      assert j < |rows| ==> all[j] == rows[j];
    }
  }

  lemma ConsiderKeepsNewest(rows: seq<Row>, n: nat, keep: set<nat>, r: Row)
    requires IdsIncrease(rows) && r.id !in Ids(rows) && IsNewest(rows, n, keep)
    ensures IsNewest(rows + [r], n, Consider(rows, n, keep, r))
  {
    IdsOfOneMore(rows, r);
    if |rows| < n {
      AllKept(rows, n, keep);
      AddDominates(rows, r);
    } else {
      var low := Lowest(rows, keep);
      if low.Some? && rows[low.value].sequence < r.sequence {
        SwapDominates(rows, keep, r, low.value);
      } else {
        SkipDominates(rows, keep, r);
      }
    }
  }

  lemma PickStep(rows: seq<Row>, i: nat, n: nat, keep: set<nat>)
    requires i < |rows| && IdsIncrease(rows) && IsNewest(rows[..i], n, keep)
    ensures IsNewest(rows[..i + 1], n, Consider(rows[..i], n, keep, rows[i]))
  {
    var before, r := rows[..i], rows[i];
    assert rows[..i + 1] == before + [r];
    assert IdsIncrease(before + [r]);
    IdsOfOneMore(before, r);
    ConsiderKeepsNewest(before, n, keep, r);
  }

  lemma PickOne(rows: seq<Row>, i: nat, seen: seq<Row>, n: nat, keep: set<nat>)
    requires i < |rows| && IdsIncrease(rows) && seen == rows[..i] && IsNewest(seen, n, keep)
    ensures seen + [rows[i]] == rows[..i + 1] && IsNewest(seen + [rows[i]], n, Consider(seen, n, keep, rows[i]))
  {
    PickStep(rows, i, n, keep);
  }

  method PickNewest(rows: seq<Row>, n: nat) returns (keep: set<nat>)
    requires IdsIncrease(rows)
    ensures IsNewest(rows, n, keep)
  {
    var seen: seq<Row>;
    seen, keep := [], {};
    for i := 0 to |rows|
      invariant seen == rows[..i] && IsNewest(seen, n, keep)
    {
      PickOne(rows, i, seen, n, keep);
      keep := Consider(seen, n, keep, rows[i]);
      seen := seen + [rows[i]];
    }
    assert seen == rows;
  }
}
