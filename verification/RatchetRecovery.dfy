/** Recovery from a break-in: what an intruder who has learnt everything that both peers hold
    can and cannot work out of what they send later. */
module RatchetRecovery {
  import opened Basics
  import opened Keys
  import Ratchet
  import opened RatchetSystem
  import opened RatchetCorrectness
  import opened RatchetSecrecy

  /** Whoever has one of the two secret keys can compute the Diffie-Hellman output. */
  predicate Computable(ids: set<nat>, dh: DhOutput) {
    dh.lo in ids || dh.hi in ids
  }

  /** Can k be worked out from these keys and these secret key pairs? */
  predicate Known(held: set<Key>, ids: set<nat>, k: Key) {
    || k in held
    || match k
       case X3dhSecret(dhs) => forall i :: 0 <= i < |dhs| ==> Computable(ids, dhs[i])
       case RootKey(root, dh) => Known(held, ids, root) && Computable(ids, dh)
       case ChainKey(root, dh) => Known(held, ids, root) && Computable(ids, dh)
       case NextChainKey(chain) => Known(held, ids, chain)
       case MessageKey(chain) => Known(held, ids, chain)
  }

  lemma {:induction false} KnownOnwards(held: set<Key>, ids: set<nat>, chain: Key, m: nat, n: nat)
    requires m <= n && Known(held, ids, Advance(chain, m))
    ensures Known(held, ids, Advance(chain, n))
    decreases n
  {
    if m < n {
      KnownOnwards(held, ids, chain, m, n - 1);
    }
  }

  /** A chain made with two key pairs that are not known stays unknown, when no key of it or
      beyond it is held. */
  lemma {:induction false} NewChainUnknown(held: set<Key>, ids: set<nat>, root: Key, dh: DhOutput, n: nat)
    requires !Computable(ids, dh) && forall k :: k in held ==> RootDepth(k) < RootDepth(root)
    ensures !Known(held, ids, Advance(ChainKey(root, dh), n))
  {
    AdvanceDepths(ChainKey(root, dh), n);
    if n > 0 {
      NewChainUnknown(held, ids, root, dh, n - 1);
    }
  }

  lemma ChainKeyDepth(E: Epochs, e: nat, n: nat)
    requires 0 < e < |E.ids|
    ensures RootDepth(Advance(E.Chain(e), n)) == RootDepth(E.MsgKey(e, n)) == RootDepth(E.shared) + e - 1
  {
    AdvanceDepths(E.Chain(e), n);
    RootDepths(E, e - 1);
  }

  lemma StoredDepth(st: Ratchet.State, t: nat, E: Epochs, k: Key)
    requires E.Valid() && StoreSound(st, t, E) && k in st.skipped.Values
    ensures RootDepth(k) <= RootDepth(E.shared) + t
  {
    var slot :| slot in st.skipped && st.skipped[slot] == k;
    var e: nat :| StoredAs(st, t, E, slot, e);
    ChainKeyDepth(E, e, slot.1);
  }

  /** What a state holds comes from roots no newer than its own. */
  lemma HeldDepth(st: Ratchet.State, t: nat, E: Epochs, k: Key)
    requires E.Valid() && RatchetOk(st, t, E) && StoreSound(st, t, E) && k in Held(st)
    ensures RootDepth(k) <= RootDepth(E.shared) + t
  {
    RootDepths(E, t);
    if st.chainSend == Some(k) {
      ChainKeyDepth(E, t, E.lens[t]);
    } else if st.chainRecv == Some(k) {
      ChainKeyDepth(E, t - 1, st.msgNumRecv);
    } else if k in st.skipped.Values {
      StoredDepth(st, t, E, k);
    }
  }

  function HeldByBoth(s: System): set<Key> {
    Held(s.alice.ratchet) + Held(s.bob.ratchet)
  }

  lemma BothHeldDepth(s: System, h: History, k: Key)
    requires Synchronised(s, h) && k in HeldByBoth(s)
    ensures RootDepth(k) < RootDepth(h.epochs.shared) + |h.epochs.ids|
  {
    if k in Held(s.alice.ratchet) {
      HeldDepth(s.alice.ratchet, h.alice.epoch, h.epochs, k);
    } else {
      HeldDepth(s.bob.ratchet, h.bob.epoch, h.epochs, k);
    }
  }

  lemma {:induction false} SameRoot(E: Epochs, F: Epochs, e: nat)
    requires E.shared == F.shared && E.ids <= F.ids && e < |E.ids|
    ensures E.Root(e) == F.Root(e)
  {
    if e > 0 {
      SameRoot(E, F, e - 1);
    }
  }

  /** The newest root at the time of the break-in is held. */
  lemma NewestRootHeld(s: System, h: History)
    requires Synchronised(s, h)
    ensures |h.epochs.ids| > 0 && h.epochs.Root(|h.epochs.ids| - 1) in HeldByBoth(s)
  {
  }

  lemma OldChainKnown(held: set<Key>, ids: set<nat>, E: Epochs, F: Epochs, e: nat, m: nat, n: nat)
    requires E.shared == F.shared && E.ids <= F.ids && 0 < e < |E.ids| && m <= n
    requires Advance(E.Chain(e), m) in held
    ensures Known(held, ids, Advance(F.Chain(e), n))
  {
    SameRoot(E, F, e - 1);
    assert E.Chain(e) == F.Chain(e);
    KnownOnwards(held, ids, E.Chain(e), m, n);
  }

  /** The sender's chain at s2 is the one it had at the break-in. */
  lemma SameChainKnown(s1: System, h1: History, s2: System, h2: History, side: Side)
    requires Synchronised(s1, h1) && Synchronised(s2, h2) && Continues(s1.issued, h1, h2)
    requires h2.Of(side).epoch < |h1.epochs.ids| && s2.Of(side).ratchet.chainSend.Some?
    ensures Known(HeldByBoth(s1), s1.issued, s2.Of(side).ratchet.chainSend.value)
  {
    SyncFromAnySide(s1, h1, side);
    SyncFromAnySide(s2, h2, side);
    var e := h1.Of(side).epoch;
    SameEpoch(h1, h2, side);
    assert s1.Of(side).ratchet.chainSend.value in HeldByBoth(s1);
    OldChainKnown(HeldByBoth(s1), s1.issued, h1.epochs, h2.epochs, e, h1.epochs.lens[e], h2.epochs.lens[e]);
  }

  /** A side that has drawn no key since the break-in is where it was. */
  lemma SameEpoch(h1: History, h2: History, side: Side)
    requires Adjacent(h1.alice.epoch, h1.bob.epoch, |h1.epochs.ids|)
    requires Adjacent(h2.alice.epoch, h2.bob.epoch, |h2.epochs.ids|)
    requires AliceOwns(h1.alice.epoch) && AliceOwns(h2.alice.epoch)
    requires h1.alice.epoch <= h2.alice.epoch && h1.bob.epoch <= h2.bob.epoch
    requires h2.Of(side).epoch < |h1.epochs.ids|
    ensures h2.Of(side).epoch == h1.Of(side).epoch
  {
  }

  lemma FirstNewChainKnown(held: set<Key>, ids: set<nat>, E: Epochs, e: nat, n: nat)
    requires 0 < e < |E.ids| && E.Root(e - 1) in held && E.ids[e - 1] in ids
    ensures Known(held, ids, Advance(E.Chain(e), n))
  {
    assert Computable(ids, DhOfIds(E.ids[e - 1], E.ids[e]));
    assert Known(held, ids, Advance(E.Chain(e), 0));
    KnownOnwards(held, ids, E.Chain(e), 0, n);
  }

  /** The sender's chain at s2 is the first one made after the break-in. */
  lemma NextChainKnown(s1: System, h1: History, s2: System, h2: History, side: Side)
    requires Synchronised(s1, h1) && Synchronised(s2, h2) && Continues(s1.issued, h1, h2)
    requires h2.Of(side).epoch == |h1.epochs.ids|
    ensures s2.Of(side).ratchet.chainSend.Some?
    ensures Known(HeldByBoth(s1), s1.issued, s2.Of(side).ratchet.chainSend.value)
  {
    SyncFromAnySide(s2, h2, side);
    var e := h2.Of(side).epoch;
    NewestRootHeld(s1, h1);
    SameRoot(h1.epochs, h2.epochs, e - 1);
    assert h2.epochs.ids[e - 1] == h1.epochs.ids[e - 1];
    FirstNewChainKnown(HeldByBoth(s1), s1.issued, h2.epochs, e, h2.epochs.lens[e]);
  }

  lemma HeldIsOlder(s1: System, h1: History, E: Epochs, e: nat)
    requires Synchronised(s1, h1) && E.shared == h1.epochs.shared && |h1.epochs.ids| < e < |E.ids|
    ensures forall k :: k in HeldByBoth(s1) ==> RootDepth(k) < RootDepth(E.Root(e - 1))
  {
    RootDepths(E, e - 1);
    forall k | k in HeldByBoth(s1) ensures RootDepth(k) < RootDepth(E.Root(e - 1)) {
      BothHeldDepth(s1, h1, k);
    }
  }

  lemma LaterKeyUnknown(s1: System, h1: History, E: Epochs, e: nat, n: nat)
    requires Synchronised(s1, h1) && E.shared == h1.epochs.shared && |h1.epochs.ids| < e < |E.ids|
    requires E.ids[e - 1] !in s1.issued && E.ids[e] !in s1.issued
    ensures !Known(HeldByBoth(s1), s1.issued, E.MsgKey(e, n))
  {
    HeldIsOlder(s1, h1, E, e);
    ChainKeyDepth(E, e, n);
    RootDepths(E, e - 1);
    NewChainUnknown(HeldByBoth(s1), s1.issued, E.Root(e - 1), DhOfIds(E.ids[e - 1], E.ids[e]), n);
  }

  /** The sender's chain at s2 is made from two keys drawn after the break-in. */
  lemma LaterChainUnknown(s1: System, h1: History, s2: System, h2: History, side: Side)
    requires Synchronised(s1, h1) && Synchronised(s2, h2) && Continues(s1.issued, h1, h2)
    requires h2.Of(side).epoch > |h1.epochs.ids|
    ensures s2.Of(side).ratchet.chainSend.Some?
    ensures !Known(HeldByBoth(s1), s1.issued, MessageKey(s2.Of(side).ratchet.chainSend.value))
  {
    SyncFromAnySide(s2, h2, side);
    var e := h2.Of(side).epoch;
    LaterKeyUnknown(s1, h1, h2.epochs, e, h2.epochs.lens[e]);
  }

  /** What the keys of the state say about its epoch. */
  lemma KeysTellEpoch(s1: System, h1: History, s2: System, h2: History, side: Side)
    requires Synchronised(s1, h1) && Synchronised(s2, h2) && Continues(s1.issued, h1, h2)
    requires s2.Of(side).ratchet.remote.Some?
    ensures h2.Of(side).epoch > 0
    ensures s2.Of(side).ratchet.selfSecret.id in s1.issued <==> h2.Of(side).epoch < |h1.epochs.ids|
    ensures s2.Of(side).ratchet.remote.value.id in s1.issued <==> h2.Of(side).epoch - 1 < |h1.epochs.ids|
  {
    SyncFromAnySide(s2, h2, side);
    var e := h2.Of(side).epoch;
    assert forall d :: 0 <= d < |h1.epochs.ids| ==> h2.epochs.ids[d] == h1.epochs.ids[d];
  }

  /** The key of a message to be sent can be worked out exactly when the sender's ratchet key,
      or the peer's key that it answers, is known. */
  lemma NextKeyKnownIff(s1: System, h1: History, s2: System, h2: History, side: Side)
    requires Synchronised(s1, h1) && Synchronised(s2, h2) && Continues(s1.issued, h1, h2)
    requires s2.Of(side).ratchet.remote.Some?
    ensures var st := s2.Of(side).ratchet;
      && st.chainSend.Some?
      && (Known(HeldByBoth(s1), s1.issued, MessageKey(st.chainSend.value))
          <==> st.selfSecret.id in s1.issued || st.remote.value.id in s1.issued)
  {
    KeysTellEpoch(s1, h1, s2, h2, side);
    var e := h2.Of(side).epoch;
    if e < |h1.epochs.ids| {
      SameChainKnown(s1, h1, s2, h2, side);
    } else if e == |h1.epochs.ids| {
      NextChainKnown(s1, h1, s2, h2, side);
    } else {
      LaterChainUnknown(s1, h1, s2, h2, side);
    }
  }

  lemma SentUnder(s: System, side: Side, plaintext: seq<byte>)
    requires Enabled(s, SendStep(side, plaintext)) && s.Of(side).ratchet.chainSend.Some?
    ensures var sent := Apply(s, SendStep(side, plaintext)).Of(side).outbox;
      && |sent| == |s.Of(side).outbox| + 1 && sent[|sent| - 1].ciphertext.Sealed?
      && sent[|sent| - 1].ciphertext.key == MessageKey(s.Of(side).ratchet.chainSend.value)
  {
  }

  /** Break-in recovery. At s1 an intruder learns all that both peers hold, and every secret
      key drawn so far. Of a message sent later, its key can be worked out from that exactly
      when the sender's ratchet key, or the peer's key that it answers, was drawn before the
      break-in: once both have drawn a new one, what they send is secret again. */
  lemma BreakInRecovery(shared: Key, spkId: nat, ratchetId: nat, issued: set<nat>, before: seq<Step>, s1: System,
                        later: seq<Step>, s2: System, side: Side, plaintext: seq<byte>)
    requires spkId != ratchetId && Runs(Start(shared, spkId, ratchetId, issued), before, s1) && Runs(s1, later, s2)
    requires Enabled(s2, SendStep(side, plaintext)) && s2.Of(side).ratchet.remote.Some?
    ensures var st := s2.Of(side).ratchet;
      var sent := Apply(s2, SendStep(side, plaintext)).Of(side).outbox;
      && |sent| == |s2.Of(side).outbox| + 1 && sent[|sent| - 1].ciphertext.Sealed?
      && (Known(HeldByBoth(s1), s1.issued, sent[|sent| - 1].ciphertext.key)
          <==> st.selfSecret.id in s1.issued || st.remote.value.id in s1.issued)
  {
    var h0 := StartSynchronised(shared, spkId, ratchetId, issued);
    var h1 := RunContinues(Start(shared, spkId, ratchetId, issued), h0, before, s1);
    var h2 := RunContinues(s1, h1, later, s2);
    NextKeyKnownIff(s1, h1, s2, h2, side);
    SentUnder(s2, side, plaintext);
  }
}
