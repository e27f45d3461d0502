/** Two peers, each running a Double Ratchet, joined by a network that may reorder and
    lose messages but delivers each genuine message at most once. */
module RatchetSystem {
  import opened Basics
  import opened Keys
  import Ratchet

  /** No chain carries more messages than this, so that no 32-bit counter wraps. */
  const CHAIN_LIMIT: u32 := 0xFFFF_FFFF - 256

  datatype Side = Alice | Bob

  datatype Sent = Sent(header: Ratchet.Header, ciphertext: Ciphertext, plaintext: seq<byte>)

  /** `outbox` is everything this peer ever sent. `taken` and `accepted` are positions in
      the other peer's outbox: delivered here, and delivered here successfully. */
  datatype Party = Party(ratchet: Ratchet.State, outbox: seq<Sent>, taken: set<nat>, accepted: set<nat>)

  /** `issued` holds the identity of every key pair generated so far. */
  datatype System = System(alice: Party, bob: Party, issued: set<nat>) {
    function Of(side: Side): Party {
      if side.Alice? then alice else bob
    }

    function With(side: Side, party: Party): System {
      if side.Alice? then this.(alice := party) else this.(bob := party)
    }
  }

  function Other(side: Side): Side {
    if side.Alice? then Bob else Alice
  }

  datatype Step =
    | SendStep(side: Side, plaintext: seq<byte>)
    | DeliverStep(to: Side, index: nat, newId: nat)

  predicate Enabled(s: System, step: Step) {
    match step
    case SendStep(side, _) =>
      s.Of(side).ratchet.msgNumSend < CHAIN_LIMIT
    case DeliverStep(to, index, newId) =>
      index < |s.Of(Other(to)).outbox| && index !in s.Of(to).taken && newId !in s.issued
  }

  function SendBy(me: Party, plaintext: seq<byte>): Party {
    var (ratchet, r) := Ratchet.Encrypt(me.ratchet, plaintext);
    if r.Err? then me.(ratchet := ratchet)
    else me.(ratchet := ratchet, outbox := me.outbox + [Sent(r.value.0, r.value.1, plaintext)])
  }

  function DecryptAt(me: Party, msg: Sent, newId: nat): (Ratchet.State, Result<seq<byte>, Ratchet.Error>) {
    Ratchet.Decrypt(me.ratchet, msg.header, msg.ciphertext, Secret(newId))
  }

  function DeliverTo(me: Party, msg: Sent, index: nat, newId: nat): Party {
    var (ratchet, r) := DecryptAt(me, msg, newId);
    me.(ratchet := ratchet, taken := me.taken + {index},
        accepted := if r.Ok? then me.accepted + {index} else me.accepted)
  }

  /** The system after `msg`, at position `index` of the other outbox, reaches `to`. */
  function Deliver(s: System, to: Side, msg: Sent, index: nat, newId: nat): System {
    s.With(to, DeliverTo(s.Of(to), msg, index, newId)).(issued := s.issued + {newId})
  }

  function Apply(s: System, step: Step): System
    requires Enabled(s, step)
  {
    match step
    case SendStep(side, plaintext) =>
      s.With(side, SendBy(s.Of(side), plaintext))
    case DeliverStep(to, index, newId) =>
      Deliver(s, to, s.Of(Other(to)).outbox[index], index, newId)
  }

  function Start(shared: Key, spkId: nat, ratchetId: nat, issued: set<nat>): System {
    System(Party(Ratchet.InitAlice(shared, Public(spkId), Secret(ratchetId)), [], {}, {}),
           Party(Ratchet.InitBob(shared, Secret(spkId), Public(spkId)), [], {}, {}),
           issued + {spkId, ratchetId})
  }

  ghost predicate Runs(s: System, steps: seq<Step>, t: System)
    decreases |steps|
  {
    if steps == [] then s == t
    else Enabled(s, steps[0]) && Runs(Apply(s, steps[0]), steps[1..], t)
  }

  lemma {:induction false} RunsExtend(s: System, steps: seq<Step>, t: System, step: Step)
    requires Runs(s, steps, t) && Enabled(t, step)
    ensures Runs(s, steps + [step], Apply(t, step))
    decreases |steps|
  {
    var all := steps + [step];
    if steps != [] {
      RunsExtend(Apply(s, steps[0]), steps[1..], t, step);
      assert all[1..] == steps[1..] + [step];
    } else {
      assert all[1..] == [];
    }
  }

  // ---------------------------------------------------------------------------
  // Epochs. The two peers take turns to contribute ratchet keys: ids[0] is Bob's
  // signed prekey, odd positions are Alice's and even ones Bob's. Root e and the
  // message chain of epoch e >= 1 follow from ids[..e+1] alone.

  /** `lens[e]` is the number of messages sent so far in epoch e. */
  datatype Epochs = Epochs(shared: Key, ids: seq<nat>, lens: seq<u32>) {
    ghost predicate Valid() {
      && |ids| == |lens| > 1
      && lens[0] == 0
      && (forall e :: 0 <= e < |lens| ==> lens[e] <= CHAIN_LIMIT)
    }

    ghost predicate Distinct() {
      forall d, e :: 0 <= d < e < |ids| ==> ids[d] != ids[e]
    }

    function Root(e: nat): Key
      requires e < |ids|
    {
      if e == 0 then shared else RootKey(Root(e - 1), DhOfIds(ids[e - 1], ids[e]))
    }

    function Chain(e: nat): Key
      requires 0 < e < |ids|
    {
      ChainKey(Root(e - 1), DhOfIds(ids[e - 1], ids[e]))
    }

    function MsgKey(e: nat, n: nat): Key
      requires 0 < e < |ids|
    {
      MessageKey(Advance(Chain(e), n))
    }

    function PrevLen(e: nat): u32
      requires e < |lens|
    {
      if e < 2 then 0 else lens[e - 2]
    }
  }

  /** Odd epochs are Alice's, even ones Bob's. */
  predicate AliceOwns(e: nat) {
    e != 0 && !AliceOwns(e - 1)
  }

  /** A peer's position: its current epoch, and the epoch of each message in its outbox. */
  datatype Track = Track(epoch: nat, sentIn: seq<nat>)

  ghost predicate RatchetOk(st: Ratchet.State, e: nat, E: Epochs)
    requires E.Valid()
  {
    && e < |E.ids|
    && st.selfSecret == Secret(E.ids[e])
    && st.selfPublic == Public(E.ids[e])
    && st.remote == (if e == 0 then None else Some(Public(E.ids[e - 1])))
    && st.root == E.Root(e)
    && st.msgNumSend == E.lens[e]
    && st.chainSend == (if e == 0 then None else Some(Advance(E.Chain(e), E.lens[e])))
    && st.prevChainLen == E.PrevLen(e)
    && st.msgNumRecv <= (if e == 0 then 0 else E.lens[e - 1])
    && st.chainRecv == (if e < 2 then None else Some(Advance(E.Chain(e - 1), st.msgNumRecv)))
  }

  ghost predicate SentOk(msg: Sent, e: nat, E: Epochs)
    requires E.Valid()
  {
    && 0 < e < |E.ids|
    && msg.header.dhPublic == Public(E.ids[e])
    && msg.header.prevChainLen == E.PrevLen(e)
    && msg.header.msgNum < E.lens[e]
    && var key := E.MsgKey(e, msg.header.msgNum);
       msg.ciphertext == Sealed(key, NonceFrom(key), msg.plaintext)
  }

  ghost predicate Before(e: nat, m: Sent, e': nat, m': Sent) {
    e < e' || (e == e' && m.header.msgNum < m'.header.msgNum)
  }

  ghost predicate OutboxOk(outbox: seq<Sent>, t: Track, E: Epochs)
    requires E.Valid()
  {
    && |t.sentIn| == |outbox|
    && (forall i :: 0 <= i < |outbox| ==>
          SentOk(outbox[i], t.sentIn[i], E) && t.sentIn[i] <= t.epoch && AliceOwns(t.sentIn[i]) == AliceOwns(t.epoch))
    && (forall i, j :: 0 <= i < j < |outbox| ==> Before(t.sentIn[i], outbox[i], t.sentIn[j], outbox[j]))
  }

  function Slot(msg: Sent): (PublicKey, u32) {
    (msg.header.dhPublic, msg.header.msgNum)
  }

  /** Has the receiving side moved beyond message n of epoch e? */
  predicate Passed(st: Ratchet.State, epoch: nat, e: nat, n: nat) {
    e + 1 < epoch || (e + 1 == epoch && n < st.msgNumRecv)
  }

  /** A stored key belongs to a passed message of some epoch of the other peer. */
  ghost predicate StoredAs(st: Ratchet.State, epoch: nat, E: Epochs, slot: (PublicKey, u32), e: nat)
    requires E.Valid() && slot in st.skipped
  {
    && 0 < e < |E.ids|
    && AliceOwns(e) != AliceOwns(epoch)
    && slot.0 == Public(E.ids[e])
    && Passed(st, epoch, e, slot.1)
    && st.skipped[slot] == E.MsgKey(e, slot.1)
  }

  ghost predicate StoreSound(st: Ratchet.State, epoch: nat, E: Epochs)
    requires E.Valid()
  {
    forall slot :: slot in st.skipped ==> exists e :: StoredAs(st, epoch, E, slot, e)
  }

  /** Every message already passed but not delivered still has its key stored. */
  ghost predicate Covered(me: Party, epoch: nat, outbox: seq<Sent>, sentIn: seq<nat>)
    requires |sentIn| == |outbox|
  {
    forall i :: 0 <= i < |outbox| && i !in me.taken && Passed(me.ratchet, epoch, sentIn[i], outbox[i].header.msgNum)
      ==> Slot(outbox[i]) in me.ratchet.skipped
  }

  /** Every message opened has been passed, and its key is gone. */
  ghost predicate Consumed(me: Party, epoch: nat, outbox: seq<Sent>, sentIn: seq<nat>)
    requires |sentIn| == |outbox|
  {
    && me.accepted <= me.taken
    && (forall i :: i in me.taken ==> i < |outbox|)
    && (forall i :: i in me.accepted
          ==> Slot(outbox[i]) !in me.ratchet.skipped && Passed(me.ratchet, epoch, sentIn[i], outbox[i].header.msgNum))
  }

  ghost predicate InboxOk(me: Party, epoch: nat, outbox: seq<Sent>, sentIn: seq<nat>, E: Epochs)
    requires E.Valid() && |sentIn| == |outbox|
  {
    && StoreSound(me.ratchet, epoch, E)
    && Covered(me, epoch, outbox, sentIn)
    && Consumed(me, epoch, outbox, sentIn)
  }

  /** What one peer's state owes to the other's. */
  ghost predicate HalfOk(me: Party, t: Track, peer: Party, u: Track, E: Epochs) {
    && E.Valid() && E.Distinct()
    && RatchetOk(me.ratchet, t.epoch, E)
    && OutboxOk(me.outbox, t, E)
    && OutboxOk(peer.outbox, u, E)
    && InboxOk(me, t.epoch, peer.outbox, u.sentIn, E)
  }

  datatype History = History(epochs: Epochs, alice: Track, bob: Track) {
    function Of(side: Side): Track {
      if side.Alice? then alice else bob
    }

    function With(side: Side, t: Track): History {
      if side.Alice? then this.(alice := t) else this.(bob := t)
    }
  }

  /** One side is always exactly one epoch ahead, and it owns the newest key. */
  ghost predicate Adjacent(a: nat, b: nat, count: nat) {
    (a == b + 1 || b == a + 1) && count == 1 + (if a < b then b else a)
  }

  /** The joint invariant. */
  ghost predicate Synchronised(s: System, h: History) {
    && HalfOk(s.alice, h.alice, s.bob, h.bob, h.epochs)
    && HalfOk(s.bob, h.bob, s.alice, h.alice, h.epochs)
    && Adjacent(h.alice.epoch, h.bob.epoch, |h.epochs.ids|)
    && AliceOwns(h.alice.epoch)
    && (forall e :: 0 <= e < |h.epochs.ids| ==> h.epochs.ids[e] in s.issued)
  }

  /** The skip limit stands in the way of message h: too many messages are missing in
      front of it, at the end of the previous chain or in its own. Plain arithmetic. */
  predicate SkipLimitHit(st: Ratchet.State, h: Ratchet.Header) {
    && (h.dhPublic, h.msgNum) !in st.skipped
    && if st.remote == Some(h.dhPublic) then st.msgNumRecv + 256 < h.msgNum
       else (st.chainRecv.Some? && st.msgNumRecv + 256 < h.prevChainLen) || 256 < h.msgNum
  }

  lemma StartSynchronised(shared: Key, spkId: nat, ratchetId: nat, issued: set<nat>) returns (h: History)
    requires spkId != ratchetId
    ensures Synchronised(Start(shared, spkId, ratchetId, issued), h)
    ensures h.epochs.shared == shared
  {
    h := History(Epochs(shared, [spkId, ratchetId], [0, 0]), Track(1, []), Track(0, []));
    assert h.epochs.Root(1) == RootKey(h.epochs.Root(0), DhOfIds(spkId, ratchetId));
  }
}
