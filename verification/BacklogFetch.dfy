/** When the in-memory and the persistent backlog return the same messages. */
module BacklogFetch {
  import opened Basics
  import opened Filters
  import opened Members
  import opened MessageService
  import opened SqlBacklog
  import opened BacklogAgreement
  import B = Backlog

  // ---------------------------------------------------------------------------
  // One ascending answer

  /** Rows in ascending order, whose ties all look the same from outside. */
  ghost predicate Settled(rows: seq<Row>) {
    forall i, j :: 0 <= i < j < |rows|
      ==> rows[i].sequence < rows[j].sequence || SameOutput(rows[i], rows[j])
  }

  predicate SameOutput(a: Row, b: Row) {
    a.sequence == b.sequence && a.data == b.data
  }

  function SortRows(rows: seq<Row>): seq<Row> {
    if rows == [] then [] else InsertRow(SortRows(rows[..|rows| - 1]), rows[|rows| - 1])
  }

  lemma {:induction false} SortAscends(rows: seq<Row>)
    ensures IsAscending(rows, SortRows(rows))
    decreases |rows|
  {
    if rows != [] {
      var init, r := rows[..|rows| - 1], rows[|rows| - 1];
      SortAscends(init);
      InsertSorts(SortRows(init), r);
      InsertAdds(SortRows(init), r);
      assert rows == init + [r];
    }
  }

  lemma SameLength(rows: seq<Row>, answer: seq<Row>)
    requires multiset(answer) == multiset(rows)
    ensures |answer| == |rows|
  {
    assert |multiset(answer)| == |multiset(rows)|;
  }

  function Without(rows: seq<Row>, k: nat): seq<Row>
    requires k < |rows|
  {
    rows[..k] + rows[k + 1..]
  }

  lemma WithoutOne(rows: seq<Row>, k: nat, answer: seq<Row>)
    requires k < |rows| && answer != [] && answer[|answer| - 1] == rows[k] && multiset(answer) == multiset(rows)
    ensures multiset(answer[..|answer| - 1]) == multiset(Without(rows, k))
  {
    var n := |answer| - 1;
    assert answer == answer[..n] + [answer[n]];
    assert rows == rows[..k] + [rows[k]] + rows[k + 1..];
    assert multiset(Without(rows, k)) == multiset(rows) - multiset{rows[k]};
  }

  /** The last row of an ascending answer looks like the last of the settled rows, and so do
      all rows from its own position on. */
  lemma LastOfAnswer(rows: seq<Row>, answer: seq<Row>) returns (k: nat)
    requires rows != [] && Settled(rows) && IsAscending(rows, answer) && |answer| == |rows|
    ensures k < |rows| && answer[|rows| - 1] == rows[k]
    ensures forall j :: k <= j < |rows| ==> SameOutput(rows[k], rows[j])
  {
    var n := |rows| - 1;
    assert answer[n] in multiset(rows);
    k :| 0 <= k < |rows| && rows[k] == answer[n];
    assert rows[n] in multiset(answer);
    var i :| 0 <= i < |answer| && answer[i] == rows[n];
    assert answer[i].sequence <= answer[n].sequence;
    forall j | k < j < |rows| ensures SameOutput(rows[k], rows[j]) {
      assert rows[j].sequence <= rows[n].sequence;
    }
  }

  /** Taking out one of several rows that look the same, from the end of a settled list, is
      as good as taking out the last. */
  lemma WithoutLooksTheSame(rows: seq<Row>, k: nat)
    requires k < |rows| && Settled(rows) && forall j :: k <= j < |rows| ==> SameOutput(rows[k], rows[j])
    ensures Settled(Without(rows, k))
    ensures forall i :: 0 <= i < |rows| - 1 ==> SameOutput(Without(rows, k)[i], rows[i])
  {
  }

  /** Settled rows have only one ascending answer, seen from outside. */
  lemma {:induction false} SettledAnswer(rows: seq<Row>, answer: seq<Row>)
    requires Settled(rows) && IsAscending(rows, answer)
    ensures |answer| == |rows| && forall i :: 0 <= i < |rows| ==> SameOutput(answer[i], rows[i])
    decreases |rows|
  {
    SameLength(rows, answer);
    if rows != [] {
      var rest := LastTaken(rows, answer);
      SettledAnswer(rest, answer[..|rest|]);
      SameAllTheWay(rows, rest, answer);
    }
  }

  /** The rest of the answer is an answer to the rest of the rows, which looks like all of
      them but the last. */
  lemma LastTaken(rows: seq<Row>, answer: seq<Row>) returns (rest: seq<Row>)
    requires rows != [] && |answer| == |rows| && Settled(rows) && IsAscending(rows, answer)
    ensures |rest| == |rows| - 1 && Settled(rest) && IsAscending(rest, answer[..|rest|])
    ensures SameOutput(answer[|rest|], rows[|rest|])
    ensures forall i :: 0 <= i < |rest| ==> SameOutput(rest[i], rows[i])
  {
    var k := LastOfAnswer(rows, answer);
    rest := Without(rows, k);
    WithoutOne(rows, k, answer);
    WithoutLooksTheSame(rows, k);
  }

  lemma SameAllTheWay(rows: seq<Row>, rest: seq<Row>, answer: seq<Row>)
    requires rows != [] && |answer| == |rows| == |rest| + 1
    requires SameOutput(answer[|rest|], rows[|rest|])
    requires forall i :: 0 <= i < |rest| ==> SameOutput(answer[..|rest|][i], rest[i])
    requires forall i :: 0 <= i < |rest| ==> SameOutput(rest[i], rows[i])
    ensures forall i :: 0 <= i < |rows| ==> SameOutput(answer[i], rows[i])
  {
    forall i | 0 <= i < |rest| ensures SameOutput(answer[i], rows[i]) {
      assert answer[..|rest|][i] == answer[i] && SameOutput(rest[i], rows[i]);
    }
  }

  lemma OutputsEqual(a: seq<Row>, b: seq<Row>)
    ensures Output(a) == Output(b) <==> |a| == |b| && forall i :: 0 <= i < |a| ==> SameOutput(a[i], b[i])
  {
    if Output(a) == Output(b) {
      forall i | 0 <= i < |a| ensures SameOutput(a[i], b[i]) {
        assert Output(a)[i] == Output(b)[i];
      }
    }
  }

  /** Two rows of a tie may change places. */
  lemma TieSwaps(rows: seq<Row>, i: nat, j: nat)
    requires SortedBySequence(rows) && i < j < |rows| && rows[i].sequence == rows[j].sequence
    ensures IsAscending(rows, rows[i := rows[j]][j := rows[i]])
  {
  }

  lemma TieDiffers(rows: seq<Row>) returns (answer: seq<Row>)
    requires SortedBySequence(rows) && !Settled(rows)
    ensures IsAscending(rows, answer) && Output(answer) != Output(rows)
  {
    var i, j :| 0 <= i < j < |rows| && rows[i].sequence >= rows[j].sequence && !SameOutput(rows[i], rows[j]);
    answer := rows[i := rows[j]][j := rows[i]];
    TieSwaps(rows, i, j);
    OutputsEqual(answer, rows);
    assert !SameOutput(answer[i], rows[i]);
  }

  lemma UnsortedDiffers(rows: seq<Row>) returns (answer: seq<Row>)
    requires !SortedBySequence(rows)
    ensures IsAscending(rows, answer) && Output(answer) != Output(rows)
  {
    answer := SortRows(rows);
    SortAscends(rows);
    SameLength(rows, answer);
    OutputsEqual(answer, rows);
    var i, j :| 0 <= i < j < |rows| && rows[i].sequence > rows[j].sequence;
    assert !(SameOutput(answer[i], rows[i]) && SameOutput(answer[j], rows[j]));
  }

  /** All ascending answers look like the rows in the order they are in exactly when these
      are settled. */
  lemma OneAnswerIff(rows: seq<Row>)
    ensures (forall answer :: IsAscending(rows, answer) ==> Output(answer) == Output(rows)) <==> Settled(rows)
  {
    if Settled(rows) {
      forall answer | IsAscending(rows, answer) ensures Output(answer) == Output(rows) {
        SettledAnswer(rows, answer);
        OutputsEqual(answer, rows);
      }
    } else if SortedBySequence(rows) {
      var _ := TieDiffers(rows);
    } else {
      var _ := UnsortedDiffers(rows);
    }
  }

  // ---------------------------------------------------------------------------
  // Messages against rows

  function Sealed(envelopes: seq<Envelope>, seal: Seal): (r: seq<(u64, seq<byte>)>)
    ensures |r| == |envelopes|
    ensures forall i :: 0 <= i < |r| ==> r[i] == (envelopes[i].sequence, seal(envelopes[i]))
  {
    seq(|envelopes|, i requires 0 <= i < |envelopes| => (envelopes[i].sequence, seal(envelopes[i])))
  }

  /** What is fetched is in ascending order, and messages with one number seal to one text. */
  ghost predicate InFetchOrder(fetched: seq<Envelope>, seal: Seal) {
    forall i, j :: 0 <= i < j < |fetched| ==>
      || fetched[i].sequence < fetched[j].sequence
      || (fetched[i].sequence == fetched[j].sequence && seal(fetched[i]) == seal(fetched[j]))
  }

  /** No number of a message for the recipient lies across 2^63 from the bound. */
  ghost predicate OneSide(queue: seq<B.Stored>, recipient: Fingerprint, since: u64) {
    forall m :: m in queue && m.recipient == recipient ==> SameSide(m.envelope.sequence, since)
  }

  /** Only the queue of the room matters. */
  lemma WantedOfRoom(messages: seq<B.Stored>, rows: seq<Row>, room: RoomId, recipient: Fingerprint, since: u64)
    ensures Filter(messages, B.Wanted(room, recipient, since))
         == Filter(B.Queue(messages, room), B.Wanted(room, recipient, since))
    ensures Filter(rows, RowWanted(room, Sha256(recipient), ToSigned(since)))
         == Filter(Filter(rows, RowInRoom(room)), RowWanted(room, Sha256(recipient), ToSigned(since)))
    ensures forall m :: m in B.Queue(messages, room) ==> m.envelope.room == room
  {
    FilterTwice(messages, B.InRoom(room), B.Wanted(room, recipient, since));
    FilterTwice(rows, RowInRoom(room), RowWanted(room, Sha256(recipient), ToSigned(since)));
    FilterMembers(messages, B.InRoom(room));
  }

  /** The same messages are wanted of both exactly when the bound is on their side of 2^63. */
  lemma WantedMatchIff(queue: seq<B.Stored>, mine: seq<Row>, seal: Seal, room: RoomId,
                       recipient: Fingerprint, since: u64)
    requires RowsOf(queue, mine, seal) && forall m :: m in queue ==> m.envelope.room == room
    ensures var p, q := B.Wanted(room, recipient, since), RowWanted(room, Sha256(recipient), ToSigned(since));
      && (|Filter(queue, p)| == |Filter(mine, q)| <==> OneSide(queue, recipient, since))
      && (OneSide(queue, recipient, since) ==> RowsOf(Filter(queue, p), Filter(mine, q), seal))
  {
    var p, q := B.Wanted(room, recipient, since), RowWanted(room, Sha256(recipient), ToSigned(since));
    forall i | 0 <= i < |mine|
      ensures (p(queue[i]) <==> q(mine[i]))
         <==> (queue[i].recipient == recipient ==> SameSide(queue[i].envelope.sequence, since))
      ensures since < TWO_63 && q(mine[i]) ==> p(queue[i])
      ensures since >= TWO_63 && p(queue[i]) ==> q(mine[i])
    {
      assert queue[i] in queue && Matches(queue[i], mine[i], seal);
    }
    FilterBothIff(queue, mine, seal, p, q);
    assert forall i :: 0 <= i < |mine| ==> queue[i] in queue;
  }

  lemma OutputOfRows(messages: seq<B.Stored>, rows: seq<Row>, seal: Seal)
    requires RowsOf(messages, rows, seal)
    ensures Output(rows) == Sealed(B.Envelopes(messages), seal)
  {
    forall i | 0 <= i < |rows| ensures Output(rows)[i] == Sealed(B.Envelopes(messages), seal)[i] {
      assert Matches(messages[i], rows[i], seal);
      SignedRoundTrip(messages[i].envelope.sequence);
    }
  }

  lemma SettledInFetchOrder(messages: seq<B.Stored>, rows: seq<Row>, seal: Seal, side: u64)
    requires RowsOf(messages, rows, seal) && forall m :: m in messages ==> SameSide(m.envelope.sequence, side)
    ensures Settled(rows) <==> InFetchOrder(B.Envelopes(messages), seal)
  {
    var fetched := B.Envelopes(messages);
    forall i | 0 <= i < |rows|
      ensures rows[i].sequence == ToSigned(fetched[i].sequence) && rows[i].data == seal(fetched[i])
      ensures SameSide(fetched[i].sequence, side)
    {
      assert messages[i] in messages && Matches(messages[i], rows[i], seal);
    }
  }

  /** Where both keep the same messages of a room, every answer of the table to a recipient
      is what the memory returns, in the same order, exactly when the bound and the numbers
      of the messages for the recipient lie on one side of 2^63, and what is fetched is in
      ascending order of numbers, with equal numbers for equal texts only. */
  lemma FetchedAgreeIff(messages: seq<B.Stored>, rows: seq<Row>, seal: Seal, room: RoomId,
                        recipient: Fingerprint, since: u64)
    requires RowsOf(B.Queue(messages, room), Filter(rows, RowInRoom(room)), seal)
    ensures var fetched := B.Fetch(messages, room, recipient, since);
      (forall answer :: IsAscending(Filter(rows, RowWanted(room, Sha256(recipient), ToSigned(since))), answer)
         ==> Output(answer) == Sealed(fetched, seal))
      <==> OneSide(B.Queue(messages, room), recipient, since) && InFetchOrder(fetched, seal)
  {
    var queue, mine := B.Queue(messages, room), Filter(rows, RowInRoom(room));
    WantedOfRoom(messages, rows, room, recipient, since);
    if OneSide(queue, recipient, since) {
      OneSideAgreesIff(queue, mine, seal, room, recipient, since);
    } else {
      AcrossDisagrees(queue, mine, seal, room, recipient, since);
    }
  }

  lemma OneSideAgreesIff(queue: seq<B.Stored>, mine: seq<Row>, seal: Seal, room: RoomId,
                         recipient: Fingerprint, since: u64)
    requires RowsOf(queue, mine, seal) && OneSide(queue, recipient, since)
    requires forall m :: m in queue ==> m.envelope.room == room
    ensures var fetched := B.Envelopes(Filter(queue, B.Wanted(room, recipient, since)));
      (forall answer :: IsAscending(Filter(mine, RowWanted(room, Sha256(recipient), ToSigned(since))), answer)
         ==> Output(answer) == Sealed(fetched, seal))
      <==> InFetchOrder(fetched, seal)
  {
    var wanted := Filter(queue, B.Wanted(room, recipient, since));
    var found := Filter(mine, RowWanted(room, Sha256(recipient), ToSigned(since)));
    WantedMatchIff(queue, mine, seal, room, recipient, since);
    OutputOfRows(wanted, found, seal);
    OneAnswerIff(found);
    FilterMembers(queue, B.Wanted(room, recipient, since));
    SettledInFetchOrder(wanted, found, seal, since);
  }

  lemma AcrossDisagrees(queue: seq<B.Stored>, mine: seq<Row>, seal: Seal, room: RoomId,
                        recipient: Fingerprint, since: u64)
    requires RowsOf(queue, mine, seal) && !OneSide(queue, recipient, since)
    requires forall m :: m in queue ==> m.envelope.room == room
    ensures var fetched := B.Envelopes(Filter(queue, B.Wanted(room, recipient, since)));
      exists answer :: IsAscending(Filter(mine, RowWanted(room, Sha256(recipient), ToSigned(since))), answer)
        && Output(answer) != Sealed(fetched, seal)
  {
    var found := Filter(mine, RowWanted(room, Sha256(recipient), ToSigned(since)));
    WantedMatchIff(queue, mine, seal, room, recipient, since);
    SortAscends(found);
    SameLength(found, SortRows(found));
    assert |Output(SortRows(found))| == |found|;
  }

  /** Both at once: after any stores whose cut is in order, and any purge of the excess, the
      two stores answer a recipient alike under the same condition on what is fetched. */
  lemma StoredThenFetchedAgreeIff(stores: seq<B.Stored>, rows: seq<Row>, seal: Seal, cap: u32, room: RoomId,
                                  keep: set<nat>, recipient: Fingerprint, since: u64)
    requires RowsOf(stores, rows, seal) && IsNewest(Filter(rows, RowInRoom(room)), cap, keep)
    requires if cap == 0 then B.Queue(stores, room) == [] else CutInOrder(B.Queue(stores, room), cap)
    ensures var fetched := B.Fetch(B.StoreAll([], cap, stores), room, recipient, since);
      (forall answer :: IsAscending(Filter(Filter(rows, Survives(room, keep)),
                                           RowWanted(room, Sha256(recipient), ToSigned(since))), answer)
         ==> Output(answer) == Sealed(fetched, seal))
      <==> OneSide(B.Queue(B.StoreAll([], cap, stores), room), recipient, since) && InFetchOrder(fetched, seal)
  {
    RetainedAgreeIff(stores, rows, seal, cap, room);
    var left := Filter(rows, Survives(room, keep));
    assert Filter(left, RowInRoom(room)) == Left(rows, room, keep);
    FetchedAgreeIff(B.StoreAll([], cap, stores), left, seal, room, recipient, since);
  }

  /** Sequence numbers strictly increase, and fit a signed column. */
  ghost predicate Increasing(messages: seq<B.Stored>) {
    && (forall i, j :: 0 <= i < j < |messages| ==> messages[i].envelope.sequence < messages[j].envelope.sequence)
    && (forall i :: 0 <= i < |messages| ==> messages[i].envelope.sequence < TWO_63)
  }

  lemma {:induction false} FilterIncreasing(messages: seq<B.Stored>, keep: B.Stored -> bool)
    requires Increasing(messages)
    ensures Increasing(Filter(messages, keep))
    decreases |messages|
  {
    if messages != [] {
      var init, x := messages[..|messages| - 1], messages[|messages| - 1];
      FilterIncreasing(init, keep);
      FilterMembers(init, keep);
      forall m | m in Filter(init, keep) ensures m.envelope.sequence < x.envelope.sequence {
        assert m in init;
      }
    }
  }

  lemma IncreasingCut(queue: seq<B.Stored>, n: nat)
    requires Increasing(queue)
    ensures CutInOrder(queue, n) && Increasing(Last(queue, n))
  {
  }

  lemma IncreasingFetch(messages: seq<B.Stored>, seal: Seal)
    requires Increasing(messages)
    ensures InFetchOrder(B.Envelopes(messages), seal)
  {
  }

  lemma StoredIncreasing(stores: seq<B.Stored>, cap: u32, room: RoomId)
    requires Increasing(B.Queue(stores, room))
    ensures Increasing(B.Queue(B.StoreAll([], cap, stores), room))
  {
    var queue := B.Queue(stores, room);
    B.EachRoomKeepsItsLast([], cap, stores, room);
    assert [] + queue == queue;
    IncreasingCut(queue, B.Kept(cap));
  }

  lemma FetchedIncreasing(messages: seq<B.Stored>, seal: Seal, room: RoomId, recipient: Fingerprint, since: u64)
    requires Increasing(B.Queue(messages, room)) && since < TWO_63
    ensures OneSide(B.Queue(messages, room), recipient, since)
    ensures InFetchOrder(B.Fetch(messages, room, recipient, since), seal)
  {
    var wanted := B.Wanted(room, recipient, since);
    FilterTwice(messages, B.InRoom(room), wanted);
    FilterIncreasing(B.Queue(messages, room), wanted);
    IncreasingFetch(Filter(messages, wanted), seal);
  }

  /** In particular they agree on a room whose messages were stored in strictly increasing
      order of numbers below 2^63, among those of any other rooms. */
  lemma IncreasingStoresAgree(stores: seq<B.Stored>, rows: seq<Row>, seal: Seal, cap: u32, room: RoomId,
                              keep: set<nat>, recipient: Fingerprint, since: u64, answer: seq<Row>)
    requires cap >= 1 && RowsOf(stores, rows, seal) && Increasing(B.Queue(stores, room)) && since < TWO_63
    requires IsNewest(Filter(rows, RowInRoom(room)), cap, keep)
    requires IsAscending(Filter(Filter(rows, Survives(room, keep)),
                                RowWanted(room, Sha256(recipient), ToSigned(since))), answer)
    ensures Output(answer) == Sealed(B.Fetch(B.StoreAll([], cap, stores), room, recipient, since), seal)
  {
    var messages := B.StoreAll([], cap, stores);
    IncreasingCut(B.Queue(stores, room), cap);
    StoredIncreasing(stores, cap, room);
    FetchedIncreasing(messages, seal, room, recipient, since);
    StoredThenFetchedAgreeIff(stores, rows, seal, cap, room, keep, recipient, since);
  }
}
