/** The in-memory backlog: one flat list standing for a bounded queue per room. */
module Backlog {
  import opened Basics
  import opened Filters
  import opened Members
  import opened MessageService
  import Room

  datatype Stored = Stored(envelope: Envelope, recipient: Fingerprint, storedAt: u64)

  function InRoom(room: RoomId): Stored -> bool {
    (m: Stored) => m.envelope.room == room
  }

  function NotInRoom(room: RoomId): Stored -> bool {
    (m: Stored) => m.envelope.room != room
  }

  function NotBefore(cutoff: u64): Stored -> bool {
    (m: Stored) => m.storedAt >= cutoff
  }

  function Wanted(room: RoomId, recipient: Fingerprint, since: u64): Stored -> bool {
    (m: Stored) => m.envelope.room == room && m.recipient == recipient && m.envelope.sequence > since
  }

  function SaturatingSub(a: u64, b: u64): u64 {
    if a < b then 0 else a - b
  }

  /** The queue of a room. */
  function Queue(messages: seq<Stored>, room: RoomId): seq<Stored> {
    Filter(messages, InRoom(room))
  }

  /** The position of the first message of a room. */
  function Oldest(messages: seq<Stored>, room: RoomId): (at: Option<nat>)
    ensures at.Some? ==> at.value < |messages| && messages[at.value].envelope.room == room
    ensures forall i :: 0 <= i < (if at.Some? then at.value else |messages|) ==> messages[i].envelope.room != room
  {
    if messages == [] then None
    else
      var n := |messages| - 1;
      var earlier := Oldest(messages[..n], room);
      if earlier.Some? then earlier
      else if messages[n].envelope.room == room then Some(n) else None
  }

  function Evict(messages: seq<Stored>, room: RoomId): seq<Stored> {
    var at := Oldest(messages, room);
    if at.Some? then messages[..at.value] + messages[at.value + 1..] else messages
  }

  function Store(messages: seq<Stored>, cap: u32, m: Stored): seq<Stored> {
    var room := m.envelope.room;
    (if |Queue(messages, room)| >= cap then Evict(messages, room) else messages) + [m]
  }

  function Fetch(messages: seq<Stored>, room: RoomId, recipient: Fingerprint, since: u64): seq<Envelope> {
    Envelopes(Filter(messages, Wanted(room, recipient, since)))
  }

  function Envelopes(messages: seq<Stored>): (r: seq<Envelope>)
    ensures |r| == |messages| && forall i :: 0 <= i < |r| ==> r[i] == messages[i].envelope
  {
    seq(|messages|, i requires 0 <= i < |messages| => messages[i].envelope)
  }

  class MemoryStorage {
    const maxMessagesPerRoom: u32
    var rooms: map<RoomId, Room.State>
    var messages: seq<Stored>

    constructor (maxMessagesPerRoom: u32)
      ensures this.maxMessagesPerRoom == maxMessagesPerRoom && rooms == map[] && messages == []
    {
      this.maxMessagesPerRoom, rooms, messages := maxMessagesPerRoom, map[], [];
    }

    method StoreRoom(id: RoomId, room: Room.State)
      modifies this`rooms
      ensures rooms == old(rooms)[id := room]
    {
      rooms := rooms[id := room];
    }

    /** Every other queue is untouched; this one loses its oldest message when it is full. */
    method StoreMessage(recipient: Fingerprint, envelope: Envelope, now: u64)
      modifies this`messages
      ensures messages == Store(old(messages), maxMessagesPerRoom, Stored(envelope, recipient, now))
      ensures forall room :: Queue(messages, room)
                == if room == envelope.room
                   then Push(Queue(old(messages), room), maxMessagesPerRoom, Stored(envelope, recipient, now))
                   else Queue(old(messages), room)
    {
      StoreIsPush(messages, maxMessagesPerRoom, Stored(envelope, recipient, now));
      var count := |Filter(messages, InRoom(envelope.room))|;
      if count >= maxMessagesPerRoom {
        var at := Oldest(messages, envelope.room);
        if at.Some? {
          messages := messages[..at.value] + messages[at.value + 1..];
        }
      }
      messages := messages + [Stored(envelope, recipient, now)];
    }

    method FetchBacklog(room: RoomId, recipient: Fingerprint, since: u64) returns (r: seq<Envelope>)
      ensures r == Fetch(messages, room, recipient, since)
      ensures r == Fetch(Queue(messages, room), room, recipient, since)
      ensures forall e :: e in r <==> IsWanted(messages, e, room, recipient, since)
    {
      r := Envelopes(Filter(messages, Wanted(room, recipient, since)));
      FilterTwice(messages, InRoom(room), Wanted(room, recipient, since));
      FetchedExactly(messages, room, recipient, since);
    }

    method PurgeExpired(maxAge: u64, now: u64) returns (removed: nat)
      modifies this`messages
      ensures messages == Filter(old(messages), NotBefore(SaturatingSub(now, maxAge)))
      ensures forall m :: m in messages <==> m in old(messages) && m.storedAt + maxAge >= now
      ensures removed == |old(messages)| - |messages|
    {
      var cutoff := SaturatingSub(now, maxAge);
      var before := |messages|;
      FilterMembers(messages, NotBefore(cutoff));
      messages := Filter(messages, NotBefore(cutoff));
      removed := before - |messages|;
    }

    method DeleteRoom(room: RoomId)
      modifies this`rooms, this`messages
      ensures rooms == old(rooms) - {room}
      ensures messages == Filter(old(messages), NotInRoom(room))
      ensures forall other :: Queue(messages, other) == if other == room then [] else Queue(old(messages), other)
    {
      rooms := rooms - {room};
      DeleteEmpties(messages, room);
      messages := Filter(messages, NotInRoom(room));
    }
  }

  /** The envelope is stored for this recipient, in this room, with a number above the bound. */
  ghost predicate IsWanted(messages: seq<Stored>, e: Envelope, room: RoomId, recipient: Fingerprint, since: u64) {
    e.room == room && e.sequence > since && exists m :: m in messages && m.envelope == e && m.recipient == recipient
  }

  lemma FetchedExactly(messages: seq<Stored>, room: RoomId, recipient: Fingerprint, since: u64)
    ensures forall e :: e in Fetch(messages, room, recipient, since) <==> IsWanted(messages, e, room, recipient, since)
  {
    var found := Filter(messages, Wanted(room, recipient, since));
    FilterMembers(messages, Wanted(room, recipient, since));
    forall e | e in Envelopes(found)
      ensures IsWanted(messages, e, room, recipient, since)
    {
      var i :| 0 <= i < |found| && Envelopes(found)[i] == e;
      assert found[i] in found;
    }
    forall m | m in found ensures m.envelope in Envelopes(found) {
      var i :| 0 <= i < |found| && found[i] == m;
      assert Envelopes(found)[i] == m.envelope;
    }
  }

  // ---------------------------------------------------------------------------
  // One bounded queue per room

  /** A bounded queue: the oldest goes when there is no room for another. Even a bound of
      zero leaves the newest in place. */
  function Push(queue: seq<Stored>, cap: u32, m: Stored): seq<Stored> {
    (if |queue| >= cap && queue != [] then queue[1..] else queue) + [m]
  }

  lemma EvictDropsOldest(messages: seq<Stored>, room: RoomId, other: RoomId)
    ensures Queue(Evict(messages, room), other)
         == if other == room && Queue(messages, room) != [] then Queue(messages, room)[1..] else Queue(messages, other)
  {
    var at := Oldest(messages, room);
    if at.Some? {
      EvictAt(messages, room, at.value, other);
    } else {
      FilterNone(messages, InRoom(room));
    }
  }

  lemma EvictAt(messages: seq<Stored>, room: RoomId, at: nat, other: RoomId)
    requires at < |messages| && messages[at].envelope.room == room
    requires forall i :: 0 <= i < at ==> messages[i].envelope.room != room
    ensures other == room ==> Queue(messages, room) == [messages[at]] + Queue(messages[..at] + messages[at + 1..], room)
    ensures other != room ==> Queue(messages, other) == Queue(messages[..at] + messages[at + 1..], other)
  {
    var a, x, b := messages[..at], messages[at], messages[at + 1..];
    assert messages == a + [x] + b;
    FilterAround(a, x, b, InRoom(other));
    if other == room {
      FilterNone(a, InRoom(room));
    }
  }

  lemma QueueAppend(messages: seq<Stored>, m: Stored, room: RoomId)
    ensures Queue(messages + [m], room)
         == if m.envelope.room == room then Queue(messages, room) + [m] else Queue(messages, room)
  {
    FilterAppend(messages, [m], InRoom(room));
    FilterOne(m, InRoom(room));
  }

  lemma StoreIsPush(messages: seq<Stored>, cap: u32, m: Stored)
    ensures forall room :: Queue(Store(messages, cap, m), room)
              == if room == m.envelope.room then Push(Queue(messages, room), cap, m) else Queue(messages, room)
  {
    var own := m.envelope.room;
    var kept := if |Queue(messages, own)| >= cap then Evict(messages, own) else messages;
    forall room
      ensures Queue(Store(messages, cap, m), room)
           == if room == own then Push(Queue(messages, room), cap, m) else Queue(messages, room)
    {
      EvictDropsOldest(messages, own, room);
      QueueAppend(kept, m, room);
    }
  }

  lemma DeleteEmpties(messages: seq<Stored>, room: RoomId)
    ensures forall other :: Queue(Filter(messages, NotInRoom(room)), other)
              == if other == room then [] else Queue(messages, other)
  {
    forall other
      ensures Queue(Filter(messages, NotInRoom(room)), other) == if other == room then [] else Queue(messages, other)
    {
      if other == room {
        FilterMembers(messages, NotInRoom(room));
        FilterNone(Filter(messages, NotInRoom(room)), InRoom(room));
      } else {
        FilterTwice(messages, NotInRoom(room), InRoom(other));
      }
    }
  }

  function StoreAll(messages: seq<Stored>, cap: u32, stores: seq<Stored>): seq<Stored>
    decreases |stores|
  {
    if stores == [] then messages
    else Store(StoreAll(messages, cap, stores[..|stores| - 1]), cap, stores[|stores| - 1])
  }

  function Kept(cap: u32): nat {
    if cap == 0 then 1 else cap
  }

  /** After any interleaving of stores for any rooms, each room holds exactly the last of
      what it held and was given, in order, up to its bound, which is never below one. */
  lemma {:induction false} EachRoomKeepsItsLast(messages: seq<Stored>, cap: u32, stores: seq<Stored>, room: RoomId)
    requires |Queue(messages, room)| <= Kept(cap)
    ensures Queue(StoreAll(messages, cap, stores), room) == Last(Queue(messages, room) + Queue(stores, room), Kept(cap))
    decreases |stores|
  {
    if stores == [] {
      assert Queue(messages, room) + [] == Queue(messages, room);
    } else {
      var init, m := stores[..|stores| - 1], stores[|stores| - 1];
      EachRoomKeepsItsLast(messages, cap, init, room);
      OneMore(StoreAll(messages, cap, init), cap, Queue(messages, room), init, m, room);
      assert stores == init + [m];
    }
  }

  lemma OneMore(before: seq<Stored>, cap: u32, held: seq<Stored>, given: seq<Stored>, m: Stored, room: RoomId)
    requires Queue(before, room) == Last(held + Queue(given, room), Kept(cap))
    ensures Queue(Store(before, cap, m), room) == Last(held + Queue(given + [m], room), Kept(cap))
  {
    StoreIsPush(before, cap, m);
    QueueAppend(given, m, room);
    if m.envelope.room == room {
      var queue := Queue(given, room);
      Associate(held, queue, m);
      PushLast(held + queue, cap, m);
    }
  }

  lemma Associate(a: seq<Stored>, b: seq<Stored>, m: Stored)
    ensures a + (b + [m]) == (a + b) + [m]
  {
  }

  lemma PushLast(all: seq<Stored>, cap: u32, m: Stored)
    ensures Push(Last(all, Kept(cap)), cap, m) == Last(all + [m], Kept(cap))
  {
  }

  // ---------------------------------------------------------------------------
  // Expiry

  datatype Op = StoreOp(m: Stored) | PurgeOp(maxAge: u64, now: u64) | DeleteOp(room: RoomId)

  function Do(messages: seq<Stored>, cap: u32, op: Op): seq<Stored> {
    match op
    case StoreOp(m) => Store(messages, cap, m)
    case PurgeOp(maxAge, now) => Filter(messages, NotBefore(SaturatingSub(now, maxAge)))
    case DeleteOp(room) => Filter(messages, NotInRoom(room))
  }

  function DoAll(cap: u32, ops: seq<Op>): seq<Stored> {
    if ops == [] then [] else Do(DoAll(cap, ops[..|ops| - 1]), cap, ops[|ops| - 1])
  }

  /** The clock never goes back from one store to a later one. */
  ghost predicate Monotone(ops: seq<Op>) {
    forall i, j :: 0 <= i < j < |ops| && ops[i].StoreOp? && ops[j].StoreOp? ==> ops[i].m.storedAt <= ops[j].m.storedAt
  }

  ghost predicate Ordered(messages: seq<Stored>) {
    forall i, j :: 0 <= i < j < |messages| ==> messages[i].storedAt <= messages[j].storedAt
  }

  ghost predicate From(messages: seq<Stored>, ops: seq<Op>) {
    forall m :: m in messages ==> StoreOp(m) in ops
  }

  lemma {:induction false} FilterOrdered(messages: seq<Stored>, keep: Stored -> bool)
    requires Ordered(messages)
    ensures Ordered(Filter(messages, keep))
    decreases |messages|
  {
    if messages != [] {
      var init, x := messages[..|messages| - 1], messages[|messages| - 1];
      FilterOrdered(init, keep);
      FilterMembers(init, keep);
      forall m | m in Filter(init, keep) ensures m.storedAt <= x.storedAt {
        assert m in init;
      }
    }
  }

  lemma EvictMembers(messages: seq<Stored>, room: RoomId)
    requires Ordered(messages)
    ensures Ordered(Evict(messages, room))
    ensures forall m :: m in Evict(messages, room) ==> m in messages
  {
  }

  lemma StoreOrdered(messages: seq<Stored>, cap: u32, m: Stored)
    requires Ordered(messages) && forall x :: x in messages ==> x.storedAt <= m.storedAt
    ensures Ordered(Store(messages, cap, m))
    ensures forall x :: x in Store(messages, cap, m) ==> x in messages || x == m
  {
    EvictMembers(messages, m.envelope.room);
  }

  lemma {:induction false} StaysOrdered(cap: u32, ops: seq<Op>)
    requires Monotone(ops)
    ensures Ordered(DoAll(cap, ops)) && From(DoAll(cap, ops), ops)
    decreases |ops|
  {
    if ops != [] {
      var init, op := ops[..|ops| - 1], ops[|ops| - 1];
      StaysOrdered(cap, init);
      assert ops == init + [op];
      var before := DoAll(cap, init);
      if op.StoreOp? {
        forall x | x in before ensures x.storedAt <= op.m.storedAt {
          var i :| 0 <= i < |init| && init[i] == StoreOp(x);
          assert ops[i] == StoreOp(x) && ops[|init|] == op;
        }
        StoreOrdered(before, cap, op.m);
      } else {
        var keep := if op.PurgeOp? then NotBefore(SaturatingSub(op.now, op.maxAge)) else NotInRoom(op.room);
        FilterOrdered(before, keep);
        FilterMembers(before, keep);
      }
    }
  }

  /** While the clock never goes back, a purge removes a prefix, of the list and of the queue
      of every room, and its length is the difference in size that is reported. */
  lemma PurgeRemovesPrefix(cap: u32, ops: seq<Op>, cutoff: u64, room: RoomId)
    requires Monotone(ops)
    ensures var before := DoAll(cap, ops);
      var after := Filter(before, NotBefore(cutoff));
      && after == Last(before, |after|)
      && Queue(after, room) == Last(Queue(before, room), |Queue(after, room)|)
  {
    var before := DoAll(cap, ops);
    StaysOrdered(cap, ops);
    FilterTail(before, NotBefore(cutoff));
    FilterSwap(before, NotBefore(cutoff), InRoom(room));
    FilterOrdered(before, InRoom(room));
    FilterTail(Queue(before, room), NotBefore(cutoff));
  }

  /** A purge removes a prefix exactly when no message to be removed follows one that stays:
      a clock that went back between two stores can break this. */
  lemma PurgeRemovesPrefixIff(messages: seq<Stored>, cutoff: u64)
    ensures var after := Filter(messages, NotBefore(cutoff));
      after == Last(messages, |after|)
      <==> forall i, j :: 0 <= i < j < |messages| && messages[i].storedAt >= cutoff ==> messages[j].storedAt >= cutoff
  {
    var keep := NotBefore(cutoff);
    var after := Filter(messages, keep);
    FilterMembers(messages, keep);
    if after == Last(messages, |after|) {
      TailOnlyIf(messages, keep);
      forall i, j | 0 <= i < j < |messages| && messages[i].storedAt >= cutoff ensures messages[j].storedAt >= cutoff {
        assert keep(messages[i]);
        assert keep(messages[j]);
      }
    } else if forall i, j :: 0 <= i < j < |messages| && keep(messages[i]) ==> keep(messages[j]) {
      FilterTail(messages, keep);
    }
  }
}
