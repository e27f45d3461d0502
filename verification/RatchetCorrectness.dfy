/** The joint invariant survives every step of the two-peer system, and every delivery
    gives back the plaintext that was sent or stops at the skip limit. */
module RatchetCorrectness {
  import opened Basics
  import opened Keys
  import Ratchet
  import opened RatchetSystem

  /** Everything the proofs below need about a pair of peers, seen from `me`. */
  ghost predicate PairOk(me: Party, t: Track, peer: Party, u: Track, E: Epochs) {
    && HalfOk(me, t, peer, u, E)
    && HalfOk(peer, u, me, t, E)
    && Adjacent(t.epoch, u.epoch, |E.ids|)
  }

  /** F continues E: later keys may be added, and the two newest epochs may grow. */
  ghost predicate Extends(E: Epochs, F: Epochs) {
    && E.Valid() && F.Valid()
    && E.shared == F.shared
    && E.ids <= F.ids
    && (forall i :: 0 <= i < |E.lens| ==> E.lens[i] <= F.lens[i])
    && (forall i :: 0 <= i < |E.lens| - 2 ==> E.lens[i] == F.lens[i])
  }

  lemma {:induction false} RootExtends(E: Epochs, F: Epochs, e: nat)
    requires Extends(E, F) && e < |E.ids|
    ensures E.Root(e) == F.Root(e)
  {
    if e > 0 {
      RootExtends(E, F, e - 1);
    }
  }

  lemma ChainExtends(E: Epochs, F: Epochs, e: nat)
    requires Extends(E, F) && 0 < e < |E.ids|
    ensures E.Chain(e) == F.Chain(e)
  {
    RootExtends(E, F, e - 1);
  }

  lemma RatchetExtends(st: Ratchet.State, e: nat, E: Epochs, F: Epochs)
    requires Extends(E, F) && RatchetOk(st, e, E) && F.lens[e] == E.lens[e]
    ensures RatchetOk(st, e, F)
  {
    RootExtends(E, F, e);
    if e > 0 {
      ChainExtends(E, F, e);
    }
    if e > 1 {
      ChainExtends(E, F, e - 1);
    }
  }

  lemma OutboxExtends(outbox: seq<Sent>, t: Track, E: Epochs, F: Epochs)
    requires Extends(E, F) && OutboxOk(outbox, t, E)
    ensures OutboxOk(outbox, t, F)
  {
    forall i | 0 <= i < |outbox| ensures SentOk(outbox[i], t.sentIn[i], F) {
      ChainExtends(E, F, t.sentIn[i]);
    }
  }

  lemma StoreExtends(st: Ratchet.State, epoch: nat, E: Epochs, F: Epochs)
    requires Extends(E, F) && StoreSound(st, epoch, E)
    ensures StoreSound(st, epoch, F)
  {
    forall slot | slot in st.skipped ensures exists e :: StoredAs(st, epoch, F, slot, e) {
      var e :| StoredAs(st, epoch, E, slot, e);
      ChainExtends(E, F, e);
      assert StoredAs(st, epoch, F, slot, e);
    }
  }

  /** Stored keys stay sound when some are dropped and the receiver moves forward. */
  lemma StoreShrinks(st: Ratchet.State, epoch: nat, st': Ratchet.State, epoch': nat, E: Epochs)
    requires E.Valid() && StoreSound(st, epoch, E)
    requires forall slot :: slot in st'.skipped ==> slot in st.skipped && st'.skipped[slot] == st.skipped[slot]
    requires epoch' == epoch + 2 || (epoch' == epoch && st.msgNumRecv <= st'.msgNumRecv)
    ensures StoreSound(st', epoch', E)
  {
    forall slot | slot in st'.skipped ensures exists e :: StoredAs(st', epoch', E, slot, e) {
      var e :| StoredAs(st, epoch, E, slot, e);
      assert StoredAs(st', epoch', E, slot, e);
    }
  }

  lemma HalfExtends(me: Party, t: Track, peer: Party, u: Track, E: Epochs, F: Epochs)
    requires HalfOk(me, t, peer, u, E) && Extends(E, F) && F.Distinct() && F.lens[t.epoch] == E.lens[t.epoch]
    ensures HalfOk(me, t, peer, u, F)
  {
    RatchetExtends(me.ratchet, t.epoch, E, F);
    OutboxExtends(me.outbox, t, E, F);
    OutboxExtends(peer.outbox, u, E, F);
    StoreExtends(me.ratchet, t.epoch, E, F);
  }

  /** Two different messages of one peer never share a slot. */
  lemma SlotsDiffer(outbox: seq<Sent>, t: Track, E: Epochs, i: nat, j: nat)
    requires E.Valid() && E.Distinct() && OutboxOk(outbox, t, E)
    requires i < |outbox| && j < |outbox| && i != j
    ensures Slot(outbox[i]) != Slot(outbox[j])
  {
    if i < j {
      assert Before(t.sentIn[i], outbox[i], t.sentIn[j], outbox[j]);
    } else {
      assert Before(t.sentIn[j], outbox[j], t.sentIn[i], outbox[i]);
    }
  }

  // ---------------------------------------------------------------------------
  // Sending

  ghost function AfterSend(E: Epochs, e: nat): Epochs
    requires E.Valid() && e < |E.ids| && E.lens[e] < CHAIN_LIMIT
  {
    E.(lens := E.lens[e := E.lens[e] + 1])
  }

  lemma SendKeepsRatchet(me: Party, t: Track, E: Epochs, plaintext: seq<byte>)
    requires E.Valid() && RatchetOk(me.ratchet, t.epoch, E) && OutboxOk(me.outbox, t, E)
    requires 0 < t.epoch && me.ratchet.msgNumSend < CHAIN_LIMIT
    requires t.epoch + 2 >= |E.ids|
    ensures var me' := SendBy(me, plaintext); var F := AfterSend(E, t.epoch);
      && Extends(E, F)
      && RatchetOk(me'.ratchet, t.epoch, F)
      && |me'.outbox| == |me.outbox| + 1 && me'.outbox[..|me.outbox|] == me.outbox
      && SentOk(me'.outbox[|me.outbox|], t.epoch, F)
      && me'.outbox[|me.outbox|].header.msgNum == E.lens[t.epoch]
      && me' == me.(ratchet := me'.ratchet, outbox := me'.outbox)
      && me'.ratchet == me.ratchet.(chainSend := me'.ratchet.chainSend, msgNumSend := me'.ratchet.msgNumSend)
  {
    var e, F := t.epoch, AfterSend(E, t.epoch);
    assert Extends(E, F);
    RootExtends(E, F, e);
    ChainExtends(E, F, e);
    if e > 1 {
      ChainExtends(E, F, e - 1);
    }
  }

  lemma AppendKeepsOutbox(outbox: seq<Sent>, t: Track, msg: Sent, E: Epochs, F: Epochs)
    requires Extends(E, F) && OutboxOk(outbox, t, E)
    requires t.epoch < |E.lens| && SentOk(msg, t.epoch, F) && msg.header.msgNum == E.lens[t.epoch]
    ensures OutboxOk(outbox + [msg], t.(sentIn := t.sentIn + [t.epoch]), F)
  {
    OutboxExtends(outbox, t, E, F);
    forall i | 0 <= i < |outbox| ensures Before(t.sentIn[i], outbox[i], t.epoch, msg) {
      assert SentOk(outbox[i], t.sentIn[i], E);
    }
  }

  /** A message just sent is still ahead of its receiver. */
  lemma AppendKeepsInbox(me: Party, epoch: nat, outbox: seq<Sent>, sentIn: seq<nat>, msg: Sent, e: nat, F: Epochs)
    requires F.Valid() && |sentIn| == |outbox| && InboxOk(me, epoch, outbox, sentIn, F)
    requires !Passed(me.ratchet, epoch, e, msg.header.msgNum)
    ensures InboxOk(me, epoch, outbox + [msg], sentIn + [e], F)
  {
  }

  lemma SendKeepsPair(me: Party, t: Track, peer: Party, u: Track, E: Epochs, plaintext: seq<byte>)
    requires PairOk(me, t, peer, u, E)
    requires t.epoch > 0 && me.ratchet.msgNumSend < CHAIN_LIMIT
    ensures PairOk(SendBy(me, plaintext), t.(sentIn := t.sentIn + [t.epoch]), peer, u, AfterSend(E, t.epoch))
  {
    var e, F := t.epoch, AfterSend(E, t.epoch);
    var me', t' := SendBy(me, plaintext), t.(sentIn := t.sentIn + [t.epoch]);
    SendKeepsRatchet(me, t, E, plaintext);
    var msg := me'.outbox[|me.outbox|];
    assert me'.outbox == me.outbox + [msg];
    AppendKeepsOutbox(me.outbox, t, msg, E, F);
    HalfExtends(peer, u, me, t, E, F);
    AppendKeepsInbox(peer, u.epoch, me.outbox, t.sentIn, msg, e, F);
    StoreExtends(me.ratchet, e, E, F);
    StoreShrinks(me.ratchet, e, me'.ratchet, e, F);
  }

  // ---------------------------------------------------------------------------
  // Receiving

  lemma StoredKeyIsRight(me: Party, t: Track, peer: Party, u: Track, E: Epochs, i: nat)
    requires E.Valid() && E.Distinct() && StoreSound(me.ratchet, t.epoch, E)
    requires i < |peer.outbox| && i < |u.sentIn| && SentOk(peer.outbox[i], u.sentIn[i], E)
    requires Slot(peer.outbox[i]) in me.ratchet.skipped
    ensures Passed(me.ratchet, t.epoch, u.sentIn[i], peer.outbox[i].header.msgNum)
    ensures me.ratchet.skipped[Slot(peer.outbox[i])] == E.MsgKey(u.sentIn[i], peer.outbox[i].header.msgNum)
  {
    var slot := Slot(peer.outbox[i]);
    var e :| StoredAs(me.ratchet, t.epoch, E, slot, e);
    assert e == u.sentIn[i];
  }

  /** Removing the key of message i uncovers no other message. */
  lemma OpenStoredKeepsCover(me: Party, me': Party, epoch: nat, outbox: seq<Sent>, u: Track, E: Epochs, i: nat)
    requires E.Valid() && E.Distinct() && OutboxOk(outbox, u, E) && Covered(me, epoch, outbox, u.sentIn) && i < |outbox|
    requires me'.ratchet == me.ratchet.(skipped := me.ratchet.skipped - {Slot(outbox[i])})
    requires me'.taken == me.taken + {i}
    ensures Covered(me', epoch, outbox, u.sentIn)
  {
    forall j | 0 <= j < |outbox| && j !in me'.taken && Passed(me'.ratchet, epoch, u.sentIn[j], outbox[j].header.msgNum)
      ensures Slot(outbox[j]) in me'.ratchet.skipped
    {
      SlotsDiffer(outbox, u, E, i, j);
    }
  }

  lemma OpenStoredKeepsInbox(me: Party, me': Party, epoch: nat, outbox: seq<Sent>, u: Track, E: Epochs, i: nat)
    requires E.Valid() && E.Distinct() && OutboxOk(outbox, u, E) && InboxOk(me, epoch, outbox, u.sentIn, E)
    requires i < |outbox| && Slot(outbox[i]) in me.ratchet.skipped
    requires Passed(me.ratchet, epoch, u.sentIn[i], outbox[i].header.msgNum)
    requires me' == me.(ratchet := me.ratchet.(skipped := me.ratchet.skipped - {Slot(outbox[i])}),
                        taken := me.taken + {i}, accepted := me.accepted + {i})
    ensures InboxOk(me', epoch, outbox, u.sentIn, E)
  {
    OpenStoredKeepsCover(me, me', epoch, outbox, u, E, i);
    StoreShrinks(me.ratchet, epoch, me'.ratchet, epoch, E);
  }

  /** Nothing outruns the sender's own counter, so the skip limit is never obscured by
      a wrapping addition. */
  lemma TooFarExactly(st: Ratchet.State, e: nat, E: Epochs, until: u32)
    requires E.Valid() && RatchetOk(st, e, E)
    ensures Ratchet.TooFar(st, until) <==> st.chainRecv.Some? && st.msgNumRecv + Ratchet.MAX_SKIP < until
  {
  }

  lemma SkipKeepsStore(st: Ratchet.State, epoch: nat, E: Epochs, until: u32)
    requires E.Valid() && RatchetOk(st, epoch, E) && StoreSound(st, epoch, E)
    requires st.chainRecv.Some? && st.msgNumRecv < until <= E.lens[epoch - 1]
    requires Ratchet.SkipMessages(st, until).Ok?
    ensures StoreSound(Ratchet.SkipMessages(st, until).value, epoch, E)
  {
    var st', n := Ratchet.SkipMessages(st, until).value, st.msgNumRecv;
    forall slot | slot in st'.skipped ensures exists d :: StoredAs(st', epoch, E, slot, d) {
      if slot in Ratchet.SkippedRange(st.remote.value, st.chainRecv.value, n, until) {
        AdvanceAdds(E.Chain(epoch - 1), n, slot.1 - n);
        assert StoredAs(st', epoch, E, slot, epoch - 1);
      } else {
        var d :| StoredAs(st, epoch, E, slot, d);
        assert StoredAs(st', epoch, E, slot, d);
      }
    }
  }

  lemma SkipKeepsSlots(me: Party, t: Track, peer: Party, u: Track, E: Epochs, until: u32)
    requires HalfOk(me, t, peer, u, E)
    requires me.ratchet.chainRecv.Some? && me.ratchet.msgNumRecv < until <= E.lens[t.epoch - 1]
    requires Ratchet.SkipMessages(me.ratchet, until).Ok?
    ensures var me' := me.(ratchet := Ratchet.SkipMessages(me.ratchet, until).value);
      Covered(me', t.epoch, peer.outbox, u.sentIn) && Consumed(me', t.epoch, peer.outbox, u.sentIn)
  {
    var st, st' := me.ratchet, Ratchet.SkipMessages(me.ratchet, until).value;
    var range := Ratchet.SkippedRange(st.remote.value, st.chainRecv.value, st.msgNumRecv, until);
    forall i | 0 <= i < |peer.outbox| && i !in me.taken
               && Passed(st', t.epoch, u.sentIn[i], peer.outbox[i].header.msgNum)
      ensures Slot(peer.outbox[i]) in st'.skipped
    {
      assert SentOk(peer.outbox[i], u.sentIn[i], E);
      if !Passed(st, t.epoch, u.sentIn[i], peer.outbox[i].header.msgNum) {
        assert Slot(peer.outbox[i]) in range;
      }
    }
    forall i | i in me.accepted
      ensures Slot(peer.outbox[i]) !in st'.skipped && Passed(st', t.epoch, u.sentIn[i], peer.outbox[i].header.msgNum)
    {
      assert SentOk(peer.outbox[i], u.sentIn[i], E);
      assert Slot(peer.outbox[i]) !in range;
    }
  }

  lemma SkipKeepsHalf(me: Party, t: Track, peer: Party, u: Track, E: Epochs, until: u32)
    requires HalfOk(me, t, peer, u, E)
    requires t.epoch > 0 ==> until <= E.lens[t.epoch - 1]
    requires Ratchet.SkipMessages(me.ratchet, until).Ok?
    ensures HalfOk(me.(ratchet := Ratchet.SkipMessages(me.ratchet, until).value), t, peer, u, E)
  {
    var st := me.ratchet;
    if st.chainRecv.Some? && st.msgNumRecv < until {
      AdvanceAdds(E.Chain(t.epoch - 1), st.msgNumRecv, until - st.msgNumRecv);
      SkipKeepsStore(st, t.epoch, E, until);
      SkipKeepsSlots(me, t, peer, u, E, until);
    }
  }

  lemma TakenKeepsHalf(me: Party, t: Track, peer: Party, u: Track, E: Epochs, i: nat)
    requires HalfOk(me, t, peer, u, E) && i < |peer.outbox|
    ensures HalfOk(me.(taken := me.taken + {i}), t, peer, u, E)
  {
  }

  /** Moving past message i alone uncovers no other message. */
  lemma OpenNextKeepsCover(me: Party, me': Party, epoch: nat, outbox: seq<Sent>, u: Track, E: Epochs, i: nat)
    requires E.Valid() && E.Distinct() && OutboxOk(outbox, u, E) && Covered(me, epoch, outbox, u.sentIn)
    requires i < |outbox| && epoch == u.sentIn[i] + 1
    requires me.ratchet.msgNumRecv == outbox[i].header.msgNum && me'.ratchet.msgNumRecv == me.ratchet.msgNumRecv + 1
    requires me'.ratchet.skipped == me.ratchet.skipped && me'.taken == me.taken + {i}
    ensures Covered(me', epoch, outbox, u.sentIn)
  {
    forall j | 0 <= j < |outbox| && j !in me'.taken && Passed(me'.ratchet, epoch, u.sentIn[j], outbox[j].header.msgNum)
      ensures Slot(outbox[j]) in me'.ratchet.skipped
    {
      SlotsDiffer(outbox, u, E, i, j);
      assert SentOk(outbox[j], u.sentIn[j], E) && SentOk(outbox[i], u.sentIn[i], E);
    }
  }

  /** Opening the very next message of the current receiving chain. */
  lemma OpenNextKeepsHalf(me: Party, t: Track, peer: Party, u: Track, E: Epochs, i: nat, next: Ratchet.State)
    requires HalfOk(me, t, peer, u, E) && i < |peer.outbox|
    requires 2 <= t.epoch == u.sentIn[i] + 1
    requires me.ratchet.msgNumRecv == peer.outbox[i].header.msgNum
    requires Slot(peer.outbox[i]) !in me.ratchet.skipped
    requires next == me.ratchet.(chainRecv := Some(NextChainKey(me.ratchet.chainRecv.value)),
                                 msgNumRecv := Wrap32(me.ratchet.msgNumRecv + 1))
    ensures MessageKey(me.ratchet.chainRecv.value) == peer.outbox[i].ciphertext.key
    ensures HalfOk(me.(ratchet := next, taken := me.taken + {i}, accepted := me.accepted + {i}), t, peer, u, E)
  {
    var me' := me.(ratchet := next, taken := me.taken + {i}, accepted := me.accepted + {i});
    assert SentOk(peer.outbox[i], u.sentIn[i], E);
    assert RatchetOk(next, t.epoch, E);
    StoreShrinks(me.ratchet, t.epoch, next, t.epoch, E);
    OpenNextKeepsCover(me, me', t.epoch, peer.outbox, u, E, i);
  }

  /** The state and result of a delivery, written into the party. */
  function Delivered(me: Party, i: nat, out: (Ratchet.State, Result<seq<byte>, Ratchet.Error>)): Party {
    me.(ratchet := out.0, taken := me.taken + {i}, accepted := if out.1.Ok? then me.accepted + {i} else me.accepted)
  }

  lemma ReceiveKeepsHalf(me: Party, t: Track, peer: Party, u: Track, E: Epochs, i: nat)
    requires HalfOk(me, t, peer, u, E) && i < |peer.outbox| && i !in me.taken
    requires 2 <= t.epoch == u.sentIn[i] + 1
    requires Slot(peer.outbox[i]) !in me.ratchet.skipped
    ensures var out := Ratchet.Receive(me.ratchet, peer.outbox[i].header, peer.outbox[i].ciphertext);
      && out.1 == (if Ratchet.TooFar(me.ratchet, peer.outbox[i].header.msgNum) then Err(Ratchet.TooManySkipped)
                   else Ok(peer.outbox[i].plaintext))
      && HalfOk(Delivered(me, i, out), t, peer, u, E)
  {
    var msg := peer.outbox[i];
    assert SentOk(msg, u.sentIn[i], E);
    if Ratchet.TooFar(me.ratchet, msg.header.msgNum) {
      TakenKeepsHalf(me, t, peer, u, E, i);
    } else {
      SkipKeepsHalf(me, t, peer, u, E, msg.header.msgNum);
      var me1 := me.(ratchet := Ratchet.SkipMessages(me.ratchet, msg.header.msgNum).value);
      assert me1.ratchet.msgNumRecv == msg.header.msgNum;
      assert Slot(msg) !in me1.ratchet.skipped;
      OpenNextKeepsHalf(me1, t, peer, u, E, i, Ratchet.Receive(me.ratchet, msg.header, msg.ciphertext).0);
    }
  }

  ghost function AfterRatchet(E: Epochs, newId: nat): Epochs {
    Epochs(E.shared, E.ids + [newId], E.lens + [0])
  }

  predicate FreshFor(E: Epochs, newId: nat) {
    forall e :: 0 <= e < |E.ids| ==> E.ids[e] != newId
  }

  lemma DhSymmetric(a: nat, b: nat)
    ensures DhOfIds(a, b) == DhOfIds(b, a)
  {
  }

  lemma RatchetedState(st: Ratchet.State, e: nat, E: Epochs, newId: nat)
    requires E.Valid() && RatchetOk(st, e, E) && e + 2 == |E.ids|
    ensures Extends(E, AfterRatchet(E, newId))
    ensures RatchetOk(Ratchet.DhRatchet(st, Public(E.ids[e + 1]), Secret(newId)), e + 2, AfterRatchet(E, newId))
  {
    var F := AfterRatchet(E, newId);
    assert Extends(E, F);
    RootExtends(E, F, e);
    DhSymmetric(F.ids[e + 1], F.ids[e + 2]);
    assert F.Chain(e + 1) == ChainKey(st.root, Dh(st.selfSecret, Public(E.ids[e + 1])));
    assert F.Root(e + 1) == RootKey(st.root, Dh(st.selfSecret, Public(E.ids[e + 1])));
    assert F.Chain(e + 2) == ChainKey(F.Root(e + 1), Dh(Secret(newId), Public(E.ids[e + 1])));
    assert F.Root(e + 2) == RootKey(F.Root(e + 1), Dh(Secret(newId), Public(E.ids[e + 1])));
  }

  /** Moving two epochs on passes exactly the messages already passed, provided the old
      receiving chain was flushed first. */
  lemma RatchetKeepsInbox(me: Party, e: nat, peer: Party, u: Track, E: Epochs, st': Ratchet.State)
    requires E.Valid() && OutboxOk(peer.outbox, u, E) && InboxOk(me, e, peer.outbox, u.sentIn, E)
    requires 0 < e ==> e - 1 < |E.lens|
    requires e >= 2 ==> me.ratchet.msgNumRecv == E.lens[e - 1]
    requires u.epoch == e + 1
    requires st'.skipped == me.ratchet.skipped && st'.msgNumRecv == 0
    ensures InboxOk(me.(ratchet := st'), e + 2, peer.outbox, u.sentIn, E)
  {
    StoreShrinks(me.ratchet, e, st', e + 2, E);
    forall i | 0 <= i < |peer.outbox| && Passed(st', e + 2, u.sentIn[i], peer.outbox[i].header.msgNum)
      ensures Passed(me.ratchet, e, u.sentIn[i], peer.outbox[i].header.msgNum)
    {
      assert SentOk(peer.outbox[i], u.sentIn[i], E);
    }
  }

  /** The other peer's half does not look at what this one receives. */
  lemma PeerHalfUnmoved(me: Party, me': Party, t: Track, t': Track, peer: Party, u: Track, E: Epochs)
    requires HalfOk(peer, u, me, t, E) && OutboxOk(me.outbox, t', E)
    requires me'.outbox == me.outbox && t'.sentIn == t.sentIn
    ensures HalfOk(peer, u, me', t', E)
  {
  }

  /** An outbox stays in order when its owner moves two epochs on. */
  lemma OutboxLater(outbox: seq<Sent>, t: Track, E: Epochs)
    requires E.Valid() && OutboxOk(outbox, t, E)
    ensures OutboxOk(outbox, t.(epoch := t.epoch + 2), E)
  {
    assert AliceOwns(t.epoch + 1) != AliceOwns(t.epoch);
  }

  lemma RatchetKeepsMine(me: Party, t: Track, peer: Party, u: Track, E: Epochs, newId: nat)
    requires HalfOk(me, t, peer, u, E) && t.epoch + 2 == |E.ids| && u.epoch == t.epoch + 1 && FreshFor(E, newId)
    requires t.epoch >= 2 ==> me.ratchet.msgNumRecv == E.lens[t.epoch - 1]
    ensures HalfOk(me.(ratchet := Ratchet.DhRatchet(me.ratchet, Public(E.ids[u.epoch]), Secret(newId))),
                   t.(epoch := t.epoch + 2), peer, u, AfterRatchet(E, newId))
  {
    var F := AfterRatchet(E, newId);
    var st' := Ratchet.DhRatchet(me.ratchet, Public(E.ids[u.epoch]), Secret(newId));
    RatchetedState(me.ratchet, t.epoch, E, newId);
    OutboxExtends(me.outbox, t, E, F);
    OutboxLater(me.outbox, t, F);
    OutboxExtends(peer.outbox, u, E, F);
    RatchetKeepsInbox(me, t.epoch, peer, u, E, st');
    StoreExtends(st', t.epoch + 2, E, F);
  }

  /** The Diffie-Hellman step, with the old receiving chain already flushed. */
  lemma RatchetKeepsPair(me: Party, t: Track, peer: Party, u: Track, E: Epochs, newId: nat)
    requires PairOk(me, t, peer, u, E) && u.epoch == t.epoch + 1 && FreshFor(E, newId)
    requires t.epoch >= 2 ==> me.ratchet.msgNumRecv == E.lens[t.epoch - 1]
    ensures PairOk(me.(ratchet := Ratchet.DhRatchet(me.ratchet, Public(E.ids[u.epoch]), Secret(newId))),
                   t.(epoch := t.epoch + 2), peer, u, AfterRatchet(E, newId))
  {
    var F := AfterRatchet(E, newId);
    var me' := me.(ratchet := Ratchet.DhRatchet(me.ratchet, Public(E.ids[u.epoch]), Secret(newId)));
    RatchetKeepsMine(me, t, peer, u, E, newId);
    RatchetedState(me.ratchet, t.epoch, E, newId);
    HalfExtends(peer, u, me, t, E, F);
    PeerHalfUnmoved(me, me', t, t.(epoch := t.epoch + 2), peer, u, F);
  }

  /** What the receiver holds of an undelivered message whose key is not stored: it lies
      ahead, in the current receiving epoch or the one after. */
  lemma UndeliveredLiesAhead(me: Party, t: Track, peer: Party, u: Track, E: Epochs, i: nat)
    requires PairOk(me, t, peer, u, E) && i < |peer.outbox| && i !in me.taken
    requires Slot(peer.outbox[i]) !in me.ratchet.skipped
    ensures u.sentIn[i] == t.epoch - 1 >= 1 || u.sentIn[i] == t.epoch + 1 == u.epoch
    ensures Ratchet.NeedsRatchet(me.ratchet, peer.outbox[i].header) <==> u.sentIn[i] == t.epoch + 1
  {
    assert SentOk(peer.outbox[i], u.sentIn[i], E);
  }

  /** Flushing the old chain does not touch the slot of a message of the next one. */
  lemma FlushLeavesSlot(me: Party, t: Track, E: Epochs, msg: Sent)
    requires E.Valid() && RatchetOk(me.ratchet, t.epoch, E)
    requires Ratchet.NeedsRatchet(me.ratchet, msg.header) && Slot(msg) !in me.ratchet.skipped
    requires Ratchet.SkipMessages(me.ratchet, msg.header.prevChainLen).Ok?
    ensures Slot(msg) !in Ratchet.SkipMessages(me.ratchet, msg.header.prevChainLen).value.skipped
  {
  }

  /** The promise for one delivery: the genuine plaintext, unless the skip limit stops it. */
  function Promised(st: Ratchet.State, msg: Sent): Result<seq<byte>, Ratchet.Error> {
    if SkipLimitHit(st, msg.header) then Err(Ratchet.TooManySkipped) else Ok(msg.plaintext)
  }

  lemma DecryptStored(me: Party, msg: Sent, i: nat, newId: nat)
    requires Slot(msg) in me.ratchet.skipped
    requires var key := me.ratchet.skipped[Slot(msg)]; msg.ciphertext == Sealed(key, NonceFrom(key), msg.plaintext)
    ensures DecryptAt(me, msg, newId).1 == Ok(msg.plaintext)
    ensures DeliverTo(me, msg, i, newId)
         == me.(ratchet := me.ratchet.(skipped := me.ratchet.skipped - {Slot(msg)}),
                taken := me.taken + {i}, accepted := me.accepted + {i})
  {
  }

  lemma DecryptAcross(me: Party, msg: Sent, i: nat, newId: nat)
    requires Slot(msg) !in me.ratchet.skipped && Ratchet.NeedsRatchet(me.ratchet, msg.header)
    requires !Ratchet.TooFar(me.ratchet, msg.header.prevChainLen)
    ensures Ratchet.SkipMessages(me.ratchet, msg.header.prevChainLen).Ok?
    ensures var flushed := Ratchet.SkipMessages(me.ratchet, msg.header.prevChainLen).value;
      var me2 := me.(ratchet := Ratchet.DhRatchet(flushed, msg.header.dhPublic, Secret(newId)));
      && DecryptAt(me, msg, newId) == Ratchet.Receive(me2.ratchet, msg.header, msg.ciphertext)
      && DeliverTo(me, msg, i, newId) == Delivered(me2, i, DecryptAt(me, msg, newId))
  {
  }

  lemma DeliverStored(me: Party, t: Track, peer: Party, u: Track, E: Epochs, i: nat, newId: nat)
    requires PairOk(me, t, peer, u, E) && i < |peer.outbox| && i !in me.taken
    requires Slot(peer.outbox[i]) in me.ratchet.skipped
    ensures PairOk(DeliverTo(me, peer.outbox[i], i, newId), t, peer, u, E)
    ensures DecryptAt(me, peer.outbox[i], newId).1 == Promised(me.ratchet, peer.outbox[i])
  {
    var msg := peer.outbox[i];
    assert SentOk(msg, u.sentIn[i], E);
    StoredKeyIsRight(me, t, peer, u, E, i);
    DecryptStored(me, msg, i, newId);
    OpenStoredKeepsInbox(me, DeliverTo(me, msg, i, newId), t.epoch, peer.outbox, u, E, i);
    PeerHalfUnmoved(me, DeliverTo(me, msg, i, newId), t, t, peer, u, E);
  }

  lemma ReceiveKeepsPair(me: Party, t: Track, peer: Party, u: Track, E: Epochs, i: nat)
    requires PairOk(me, t, peer, u, E) && i < |peer.outbox| && i !in me.taken
    requires 2 <= t.epoch == u.sentIn[i] + 1
    requires Slot(peer.outbox[i]) !in me.ratchet.skipped
    ensures var out := Ratchet.Receive(me.ratchet, peer.outbox[i].header, peer.outbox[i].ciphertext);
      && out.1 == (if Ratchet.TooFar(me.ratchet, peer.outbox[i].header.msgNum) then Err(Ratchet.TooManySkipped)
                   else Ok(peer.outbox[i].plaintext))
      && PairOk(Delivered(me, i, out), t, peer, u, E)
  {
    var out := Ratchet.Receive(me.ratchet, peer.outbox[i].header, peer.outbox[i].ciphertext);
    ReceiveKeepsHalf(me, t, peer, u, E, i);
    PeerHalfUnmoved(me, Delivered(me, i, out), t, t, peer, u, E);
  }

  lemma DeliverInChain(me: Party, t: Track, peer: Party, u: Track, E: Epochs, i: nat, newId: nat)
    requires PairOk(me, t, peer, u, E) && i < |peer.outbox| && i !in me.taken
    requires Slot(peer.outbox[i]) !in me.ratchet.skipped && u.sentIn[i] == t.epoch - 1
    ensures PairOk(DeliverTo(me, peer.outbox[i], i, newId), t, peer, u, E)
    ensures DecryptAt(me, peer.outbox[i], newId).1 == Promised(me.ratchet, peer.outbox[i])
  {
    var msg := peer.outbox[i];
    UndeliveredLiesAhead(me, t, peer, u, E, i);
    TooFarExactly(me.ratchet, t.epoch, E, msg.header.msgNum);
    ReceiveKeepsPair(me, t, peer, u, E, i);
    assert DecryptAt(me, msg, newId) == Ratchet.Receive(me.ratchet, msg.header, msg.ciphertext);
  }

  lemma DeliverRefused(me: Party, t: Track, peer: Party, u: Track, E: Epochs, i: nat, newId: nat)
    requires PairOk(me, t, peer, u, E) && i < |peer.outbox| && i !in me.taken
    requires Slot(peer.outbox[i]) !in me.ratchet.skipped && u.sentIn[i] == t.epoch + 1
    requires Ratchet.TooFar(me.ratchet, peer.outbox[i].header.prevChainLen)
    ensures PairOk(DeliverTo(me, peer.outbox[i], i, newId), t, peer, u, E)
    ensures DecryptAt(me, peer.outbox[i], newId).1 == Promised(me.ratchet, peer.outbox[i])
  {
    var msg := peer.outbox[i];
    UndeliveredLiesAhead(me, t, peer, u, E, i);
    TooFarExactly(me.ratchet, t.epoch, E, msg.header.prevChainLen);
    TakenKeepsHalf(me, t, peer, u, E, i);
    assert DecryptAt(me, msg, newId) == (me.ratchet, Err(Ratchet.TooManySkipped));
    assert DeliverTo(me, msg, i, newId) == me.(taken := me.taken + {i});
  }

  /** Right after a Diffie-Hellman step only the message's own number can hit the limit. */
  lemma PromiseAcross(st: Ratchet.State, flushed: Ratchet.State, msg: Sent, newSecret: SecretKey)
    requires Slot(msg) !in st.skipped && Ratchet.NeedsRatchet(st, msg.header)
    requires st.chainRecv.Some? ==> msg.header.prevChainLen <= st.msgNumRecv + Ratchet.MAX_SKIP
    ensures Promised(st, msg)
         == if Ratchet.TooFar(Ratchet.DhRatchet(flushed, msg.header.dhPublic, newSecret), msg.header.msgNum)
            then Err(Ratchet.TooManySkipped) else Ok(msg.plaintext)
  {
  }

  /** A delivery that makes this peer take its Diffie-Hellman step. */
  lemma DeliverAcross(me: Party, t: Track, peer: Party, u: Track, E: Epochs, i: nat, newId: nat)
    requires PairOk(me, t, peer, u, E) && i < |peer.outbox| && i !in me.taken && FreshFor(E, newId)
    requires Slot(peer.outbox[i]) !in me.ratchet.skipped && u.sentIn[i] == t.epoch + 1
    requires !Ratchet.TooFar(me.ratchet, peer.outbox[i].header.prevChainLen)
    ensures PairOk(DeliverTo(me, peer.outbox[i], i, newId), t.(epoch := t.epoch + 2), peer, u, AfterRatchet(E, newId))
    ensures DecryptAt(me, peer.outbox[i], newId).1 == Promised(me.ratchet, peer.outbox[i])
  {
    var msg := peer.outbox[i];
    var t', F := t.(epoch := t.epoch + 2), AfterRatchet(E, newId);
    var me2 := RatchetForMessage(me, t, peer, u, E, i, newId);
    DecryptAcross(me, msg, i, newId);
    PromiseAcross(me.ratchet, Ratchet.SkipMessages(me.ratchet, msg.header.prevChainLen).value, msg, Secret(newId));
    ReceiveKeepsPair(me2, t', peer, u, F, i);
  }

  lemma RatchetForMessage(me: Party, t: Track, peer: Party, u: Track, E: Epochs, i: nat, newId: nat)
      returns (me2: Party)
    requires PairOk(me, t, peer, u, E) && i < |peer.outbox| && i !in me.taken && FreshFor(E, newId)
    requires Slot(peer.outbox[i]) !in me.ratchet.skipped && u.sentIn[i] == t.epoch + 1
    requires !Ratchet.TooFar(me.ratchet, peer.outbox[i].header.prevChainLen)
    ensures PairOk(me2, t.(epoch := t.epoch + 2), peer, u, AfterRatchet(E, newId))
    ensures var h := peer.outbox[i].header;
      && Ratchet.NeedsRatchet(me.ratchet, h)
      && (me.ratchet.chainRecv.Some? ==> h.prevChainLen <= me.ratchet.msgNumRecv + Ratchet.MAX_SKIP)
      && me2 == me.(ratchet := Ratchet.DhRatchet(Ratchet.SkipMessages(me.ratchet, h.prevChainLen).value,
                                                 h.dhPublic, Secret(newId)))
      && Slot(peer.outbox[i]) !in me2.ratchet.skipped
  {
    var h := peer.outbox[i].header;
    UndeliveredLiesAhead(me, t, peer, u, E, i);
    TooFarExactly(me.ratchet, t.epoch, E, h.prevChainLen);
    var me1 := FlushForRatchet(me, t, peer, u, E, i);
    RatchetKeepsPair(me1, t, peer, u, E, newId);
    me2 := me1.(ratchet := Ratchet.DhRatchet(me1.ratchet, h.dhPublic, Secret(newId)));
  }

  lemma FlushForRatchet(me: Party, t: Track, peer: Party, u: Track, E: Epochs, i: nat) returns (me1: Party)
    requires PairOk(me, t, peer, u, E) && i < |peer.outbox|
    requires Slot(peer.outbox[i]) !in me.ratchet.skipped && u.sentIn[i] == t.epoch + 1
    requires Ratchet.NeedsRatchet(me.ratchet, peer.outbox[i].header)
    requires !Ratchet.TooFar(me.ratchet, peer.outbox[i].header.prevChainLen)
    ensures PairOk(me1, t, peer, u, E)
    ensures me1 == me.(ratchet := Ratchet.SkipMessages(me.ratchet, peer.outbox[i].header.prevChainLen).value)
    ensures t.epoch >= 2 ==> me1.ratchet.msgNumRecv == E.lens[t.epoch - 1]
    ensures Slot(peer.outbox[i]) !in me1.ratchet.skipped
    ensures peer.outbox[i].header.dhPublic == Public(E.ids[u.epoch])
  {
    var msg := peer.outbox[i];
    assert SentOk(msg, u.sentIn[i], E);
    SkipKeepsHalf(me, t, peer, u, E, msg.header.prevChainLen);
    me1 := me.(ratchet := Ratchet.SkipMessages(me.ratchet, msg.header.prevChainLen).value);
    PeerHalfUnmoved(me, me1, t, t, peer, u, E);
    FlushLeavesSlot(me, t, E, msg);
  }

  lemma DeliverKeepsPair(me: Party, t: Track, peer: Party, u: Track, E: Epochs, i: nat, newId: nat)
    returns (t': Track, F: Epochs)
    requires PairOk(me, t, peer, u, E) && i < |peer.outbox| && i !in me.taken && FreshFor(E, newId)
    ensures PairOk(DeliverTo(me, peer.outbox[i], i, newId), t', peer, u, F)
    ensures DecryptAt(me, peer.outbox[i], newId).1 == Promised(me.ratchet, peer.outbox[i])
    ensures AliceOwns(t'.epoch) == AliceOwns(t.epoch) && t.epoch <= t'.epoch
    ensures F == E || F == AfterRatchet(E, newId)
  {
    if Slot(peer.outbox[i]) in me.ratchet.skipped {
      DeliverStored(me, t, peer, u, E, i, newId);
      return t, E;
    }
    UndeliveredLiesAhead(me, t, peer, u, E, i);
    if u.sentIn[i] == t.epoch - 1 {
      DeliverInChain(me, t, peer, u, E, i, newId);
      return t, E;
    }
    if Ratchet.TooFar(me.ratchet, peer.outbox[i].header.prevChainLen) {
      DeliverRefused(me, t, peer, u, E, i, newId);
      return t, E;
    }
    DeliverAcross(me, t, peer, u, E, i, newId);
    return t.(epoch := t.epoch + 2), AfterRatchet(E, newId);
  }

  // ---------------------------------------------------------------------------
  // The system

  /** The result a delivery step produces. */
  function DeliveryResult(s: System, step: Step): Result<seq<byte>, Ratchet.Error>
    requires step.DeliverStep? && Enabled(s, step)
  {
    DecryptAt(s.Of(step.to), s.Of(Other(step.to)).outbox[step.index], step.newId).1
  }

  /** The genuine message: its plaintext, unless the skip limit stops it. */
  function PromisedResult(s: System, step: Step): Result<seq<byte>, Ratchet.Error>
    requires step.DeliverStep? && Enabled(s, step)
  {
    Promised(s.Of(step.to).ratchet, s.Of(Other(step.to)).outbox[step.index])
  }

  /** The joint invariant of the system, seen from one side. */
  ghost predicate SyncAt(s: System, h: History, side: Side) {
    && PairOk(s.Of(side), h.Of(side), s.Of(Other(side)), h.Of(Other(side)), h.epochs)
    && AliceOwns(h.alice.epoch)
    && (forall e :: 0 <= e < |h.epochs.ids| ==> h.epochs.ids[e] in s.issued)
  }

  lemma SyncFromAnySide(s: System, h: History, side: Side)
    ensures SyncAt(s, h, side) <==> Synchronised(s, h)
  {
  }

  /** A later history: nothing is forgotten, and the keys added are new. */
  ghost predicate Continues(issued: set<nat>, h: History, h': History) {
    && h.epochs.shared == h'.epochs.shared
    && h.epochs.ids <= h'.epochs.ids
    && |h.epochs.lens| <= |h'.epochs.lens|
    && (forall e :: 0 <= e < |h.epochs.lens| ==> h.epochs.lens[e] <= h'.epochs.lens[e])
    && (forall e :: |h.epochs.ids| <= e < |h'.epochs.ids| ==> h'.epochs.ids[e] !in issued)
    && h.alice.epoch <= h'.alice.epoch && h.bob.epoch <= h'.bob.epoch
  }

  lemma ContinuesOn(issued: set<nat>, issued': set<nat>, h: History, h': History, h'': History)
    requires issued <= issued' && Continues(issued, h, h') && Continues(issued', h', h'')
    ensures Continues(issued, h, h'')
  {
  }

  lemma SendKeepsSync(s: System, h: History, side: Side, plaintext: seq<byte>) returns (h': History)
    requires SyncAt(s, h, side) && Enabled(s, SendStep(side, plaintext))
    ensures SyncAt(Apply(s, SendStep(side, plaintext)), h', side) && Continues(s.issued, h, h')
  {
    var t := h.Of(side);
    if t.epoch == 0 {
      h' := h;
    } else {
      h' := h.With(side, t.(sentIn := t.sentIn + [t.epoch])).(epochs := AfterSend(h.epochs, t.epoch));
      SendKeepsPair(s.Of(side), t, s.Of(Other(side)), h.Of(Other(side)), h.epochs, plaintext);
    }
  }

  lemma DeliverKeepsSync(s: System, h: History, to: Side, index: nat, newId: nat) returns (h': History)
    requires SyncAt(s, h, to) && Enabled(s, DeliverStep(to, index, newId))
    ensures SyncAt(Apply(s, DeliverStep(to, index, newId)), h', to) && Continues(s.issued, h, h')
    ensures DeliveryResult(s, DeliverStep(to, index, newId)) == PromisedResult(s, DeliverStep(to, index, newId))
  {
    var t', F := DeliverKeepsPair(s.Of(to), h.Of(to), s.Of(Other(to)), h.Of(Other(to)), h.epochs, index, newId);
    h' := h.With(to, t').(epochs := F);
    DeliveryContinues(s.issued, h, to, t', F, newId);
  }

  lemma DeliveryContinues(issued: set<nat>, h: History, to: Side, t': Track, F: Epochs, newId: nat)
    requires h.Of(to).epoch <= t'.epoch && newId !in issued && |h.epochs.lens| == |h.epochs.ids|
    requires F == h.epochs || F == AfterRatchet(h.epochs, newId)
    ensures Continues(issued, h, h.With(to, t').(epochs := F))
  {
  }

  lemma StepKeepsSync(s: System, h: History, step: Step) returns (h': History)
    requires Synchronised(s, h) && Enabled(s, step)
    ensures Synchronised(Apply(s, step), h') && Continues(s.issued, h, h') && s.issued <= Apply(s, step).issued
    ensures step.DeliverStep? ==> DeliveryResult(s, step) == PromisedResult(s, step)
  {
    match step
    case SendStep(side, plaintext) =>
      SyncFromAnySide(s, h, side);
      h' := SendKeepsSync(s, h, side, plaintext);
      SyncFromAnySide(Apply(s, step), h', side);
    case DeliverStep(to, index, newId) =>
      SyncFromAnySide(s, h, to);
      h' := DeliverKeepsSync(s, h, to, index, newId);
      SyncFromAnySide(Apply(s, step), h', to);
  }

  /** Along every run the invariant holds, of a history that continues the first one. */
  lemma {:induction false} RunContinues(s: System, h: History, steps: seq<Step>, t: System) returns (h': History)
    requires Synchronised(s, h) && Runs(s, steps, t)
    ensures Synchronised(t, h') && Continues(s.issued, h, h') && s.issued <= t.issued
    decreases |steps|
  {
    if steps == [] {
      h' := h;
    } else {
      var next := StepKeepsSync(s, h, steps[0]);
      h' := RunContinues(Apply(s, steps[0]), next, steps[1..], t);
      ContinuesOn(s.issued, Apply(s, steps[0]).issued, h, next, h');
    }
  }

  lemma RunKeepsSync(s: System, h: History, steps: seq<Step>, t: System) returns (h': History)
    requires Synchronised(s, h) && Runs(s, steps, t)
    ensures Synchronised(t, h') && h'.epochs.shared == h.epochs.shared
  {
    h' := RunContinues(s, h, steps, t);
  }

  /** After any run from a fresh session, whatever was lost or reordered on the way, the
      peers are synchronised and the next delivery of a genuine message gives exactly
      what was sent, or the skip-limit error and nothing else. */
  lemma EveryDeliveryIsGenuine(shared: Key, spkId: nat, ratchetId: nat, issued: set<nat>, steps: seq<Step>, s: System)
    requires spkId != ratchetId && Runs(Start(shared, spkId, ratchetId, issued), steps, s)
    ensures exists h :: Synchronised(s, h)
    ensures forall step: Step :: step.DeliverStep? && Enabled(s, step)
              ==> DeliveryResult(s, step) == PromisedResult(s, step)
  {
    var h := StartSynchronised(shared, spkId, ratchetId, issued);
    h := RunKeepsSync(Start(shared, spkId, ratchetId, issued), h, steps, s);
    forall step: Step | step.DeliverStep? && Enabled(s, step)
      ensures DeliveryResult(s, step) == PromisedResult(s, step)
    {
      var _ := StepKeepsSync(s, h, step);
    }
  }
}
