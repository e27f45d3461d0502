/** What the joint invariant says about keys: no message key is used twice, and a
    peer's state never gives back a key it has already used. */
module RatchetSecrecy {
  import opened Basics
  import opened Keys
  import Ratchet
  import opened RatchetSystem
  import opened RatchetCorrectness

  /** How many root steps lie below a key. */
  function RootDepth(k: Key): nat {
    match k
    case X3dhSecret(_) => 0
    case RootKey(root, _) => 1 + RootDepth(root)
    case ChainKey(root, _) => RootDepth(root)
    case NextChainKey(chain) => RootDepth(chain)
    case MessageKey(chain) => RootDepth(chain)
  }

  /** How many chain steps end a key. */
  function ChainDepth(k: Key): nat {
    if k.NextChainKey? then 1 + ChainDepth(k.chain) else 0
  }

  lemma {:induction false} AdvanceDepths(chain: Key, n: nat)
    ensures RootDepth(Advance(chain, n)) == RootDepth(chain)
    ensures ChainDepth(Advance(chain, n)) == ChainDepth(chain) + n
    ensures chain.ChainKey? ==> Advance(chain, n).ChainKey? || Advance(chain, n).NextChainKey?
  {
    if n > 0 {
      AdvanceDepths(chain, n - 1);
    }
  }

  lemma {:induction false} RootDepths(E: Epochs, e: nat)
    requires e < |E.ids|
    ensures RootDepth(E.Root(e)) == RootDepth(E.shared) + e
  {
    if e > 0 {
      RootDepths(E, e - 1);
    }
  }

  /** The epoch and the position determine a chain key and are determined by it. */
  lemma ChainKeysDiffer(E: Epochs, d: nat, m: nat, e: nat, n: nat)
    requires 0 < d < |E.ids| && 0 < e < |E.ids|
    ensures Advance(E.Chain(d), m) == Advance(E.Chain(e), n) <==> d == e && m == n
    ensures E.MsgKey(d, m) == E.MsgKey(e, n) <==> d == e && m == n
  {
    AdvanceDepths(E.Chain(d), m);
    AdvanceDepths(E.Chain(e), n);
    RootDepths(E, d - 1);
    RootDepths(E, e - 1);
  }

  // ---------------------------------------------------------------------------
  // No key is used twice

  lemma SentKeysDiffer(outbox: seq<Sent>, t: Track, E: Epochs, i: nat, j: nat)
    requires E.Valid() && OutboxOk(outbox, t, E) && i < j < |outbox|
    ensures outbox[i].ciphertext.Sealed? && outbox[j].ciphertext.Sealed?
    ensures outbox[i].ciphertext.key != outbox[j].ciphertext.key
  {
    assert SentOk(outbox[i], t.sentIn[i], E) && SentOk(outbox[j], t.sentIn[j], E);
    assert Before(t.sentIn[i], outbox[i], t.sentIn[j], outbox[j]);
    ChainKeysDiffer(E, t.sentIn[i], outbox[i].header.msgNum, t.sentIn[j], outbox[j].header.msgNum);
  }

  lemma CrossKeysDiffer(s: System, h: History, i: nat, j: nat)
    requires Synchronised(s, h) && i < |s.alice.outbox| && j < |s.bob.outbox|
    ensures s.alice.outbox[i].ciphertext.Sealed? && s.bob.outbox[j].ciphertext.Sealed?
    ensures s.alice.outbox[i].ciphertext.key != s.bob.outbox[j].ciphertext.key
  {
    var a, b := s.alice.outbox[i], s.bob.outbox[j];
    var d, e := h.alice.sentIn[i], h.bob.sentIn[j];
    assert SentOk(a, d, h.epochs) && SentOk(b, e, h.epochs);
    assert AliceOwns(d) && !AliceOwns(e) by {
      NeighboursDiffer(h.alice.epoch, h.bob.epoch);
    }
    ChainKeysDiffer(h.epochs, d, a.header.msgNum, e, b.header.msgNum);
  }

  lemma NeighboursDiffer(a: nat, b: nat)
    requires a == b + 1 || b == a + 1
    ensures AliceOwns(a) != AliceOwns(b)
  {
  }

  /** Over every run, no two messages, whoever sent them, share a message key, nor
      therefore a key and nonce. */
  lemma NoKeyIsReused(shared: Key, spkId: nat, ratchetId: nat, issued: set<nat>, steps: seq<Step>, s: System,
                      p: Side, i: nat, q: Side, j: nat)
    requires spkId != ratchetId && Runs(Start(shared, spkId, ratchetId, issued), steps, s)
    requires i < |s.Of(p).outbox| && j < |s.Of(q).outbox| && (p, i) != (q, j)
    ensures s.Of(p).outbox[i].ciphertext.Sealed? && s.Of(q).outbox[j].ciphertext.Sealed?
    ensures s.Of(p).outbox[i].ciphertext.key != s.Of(q).outbox[j].ciphertext.key
  {
    var h := StartSynchronised(shared, spkId, ratchetId, issued);
    h := RunKeepsSync(Start(shared, spkId, ratchetId, issued), h, steps, s);
    if p == q {
      SentKeysDiffer(s.Of(p).outbox, h.Of(p), h.epochs, if i < j then i else j, if i < j then j else i);
    } else if p.Alice? {
      CrossKeysDiffer(s, h, i, j);
    } else {
      CrossKeysDiffer(s, h, j, i);
    }
  }

  // ---------------------------------------------------------------------------
  // Forward secrecy

  function Held(st: Ratchet.State): set<Key> {
    {st.root} + (if st.chainSend.Some? then {st.chainSend.value} else {})
      + (if st.chainRecv.Some? then {st.chainRecv.value} else {}) + st.skipped.Values
  }

  /** Can k be derived from the held keys by chain steps and root steps, when every
      Diffie-Hellman output whatsoever is known as well? */
  predicate Derivable(held: set<Key>, k: Key) {
    || k in held
    || match k
       case X3dhSecret(_) => false
       case RootKey(root, _) => Derivable(held, root)
       case ChainKey(root, _) => Derivable(held, root)
       case NextChainKey(chain) => Derivable(held, chain)
       case MessageKey(chain) => Derivable(held, chain)
  }

  lemma {:induction false} RootDerivable(held: set<Key>, E: Epochs, e: nat)
    requires e < |E.ids| && E.shared.X3dhSecret?
    ensures Derivable(held, E.Root(e)) <==> exists d :: 0 <= d <= e && E.Root(d) in held
  {
    if e > 0 {
      RootDerivable(held, E, e - 1);
    }
  }

  /** A message key is derivable exactly from itself, from an earlier key of its chain,
      or from an earlier root. */
  lemma {:induction false} ChainDerivable(held: set<Key>, E: Epochs, e: nat, n: nat)
    requires 0 < e < |E.ids| && E.shared.X3dhSecret?
    ensures Derivable(held, Advance(E.Chain(e), n))
       <==> (exists m :: 0 <= m <= n && Advance(E.Chain(e), m) in held) || (exists d :: 0 <= d < e && E.Root(d) in held)
  {
    if n == 0 {
      RootDerivable(held, E, e - 1);
      assert Advance(E.Chain(e), 0) == E.Chain(e);
    } else {
      ChainDerivable(held, E, e, n - 1);
    }
  }

  /** No chain key at or before position n of epoch e, and no root before it, is held. */
  lemma PastIsGone(st: Ratchet.State, t: nat, E: Epochs, e: nat, n: nat)
    requires E.Valid() && RatchetOk(st, t, E) && StoreSound(st, t, E) && E.shared.X3dhSecret?
    requires 0 < e <= t
    requires e == t ==> n < st.msgNumSend
    requires e == t - 1 ==> n < st.msgNumRecv
    ensures !Derivable(Held(st), Advance(E.Chain(e), n))
  {
    ChainDerivable(Held(st), E, e, n);
    forall m | 0 <= m <= n ensures Advance(E.Chain(e), m) !in Held(st) {
      AdvanceDepths(E.Chain(e), m);
      ChainKeysDiffer(E, e, m, t, E.lens[t]);
      if t >= 2 {
        ChainKeysDiffer(E, e, m, t - 1, st.msgNumRecv);
      }
      StoredAreMessageKeys(st, t, E);
    }
    forall d | 0 <= d < e ensures E.Root(d) !in Held(st) {
      RootDepths(E, d);
      RootDepths(E, t);
      StoredAreMessageKeys(st, t, E);
      HeldChainsAreChains(st, t, E);
    }
  }

  lemma StoredAreMessageKeys(st: Ratchet.State, t: nat, E: Epochs)
    requires E.Valid() && StoreSound(st, t, E)
    ensures forall k :: k in st.skipped.Values ==> k.MessageKey?
  {
    forall slot | slot in st.skipped ensures st.skipped[slot].MessageKey? {
      var e :| StoredAs(st, t, E, slot, e);
    }
  }

  lemma HeldChainsAreChains(st: Ratchet.State, t: nat, E: Epochs)
    requires E.Valid() && RatchetOk(st, t, E)
    ensures st.chainSend.Some? ==> st.chainSend.value.ChainKey? || st.chainSend.value.NextChainKey?
    ensures st.chainRecv.Some? ==> st.chainRecv.value.ChainKey? || st.chainRecv.value.NextChainKey?
  {
    if t > 0 {
      AdvanceDepths(E.Chain(t), E.lens[t]);
    }
    if t >= 2 {
      AdvanceDepths(E.Chain(t - 1), st.msgNumRecv);
    }
  }

  lemma MessageKeyHeldIff(st: Ratchet.State, t: nat, E: Epochs, k: Key)
    requires E.Valid() && RatchetOk(st, t, E) && E.shared.X3dhSecret? && k.MessageKey?
    ensures k in Held(st) <==> k in st.skipped.Values
  {
    HeldChainsAreChains(st, t, E);
    assert st.root == E.Root(t);
  }

  /** A key used to encrypt cannot be derived again. */
  lemma SentKeyIsGone(me: Party, t: Track, peer: Party, u: Track, E: Epochs, i: nat)
    requires PairOk(me, t, peer, u, E) && E.shared.X3dhSecret? && i < |me.outbox|
    ensures me.outbox[i].ciphertext.Sealed? && !Derivable(Held(me.ratchet), me.outbox[i].ciphertext.key)
  {
    var e, n := t.sentIn[i], me.outbox[i].header.msgNum;
    assert SentOk(me.outbox[i], e, E);
    if e + 1 == t.epoch {
      NeighboursDiffer(e, t.epoch);
    }
    PastIsGone(me.ratchet, t.epoch, E, e, n);
    MessageKeyHeldIff(me.ratchet, t.epoch, E, E.MsgKey(e, n));
    if E.MsgKey(e, n) in me.ratchet.skipped.Values {
      var slot :| slot in me.ratchet.skipped && me.ratchet.skipped[slot] == E.MsgKey(e, n);
      var d :| StoredAs(me.ratchet, t.epoch, E, slot, d);
      ChainKeysDiffer(E, d, slot.1, e, n);
    }
  }

  /** Nor can a key used to decrypt. */
  lemma AcceptedKeyIsGone(me: Party, t: Track, peer: Party, u: Track, E: Epochs, i: nat)
    requires PairOk(me, t, peer, u, E) && E.shared.X3dhSecret? && i in me.accepted
    ensures i < |peer.outbox| && peer.outbox[i].ciphertext.Sealed?
    ensures !Derivable(Held(me.ratchet), peer.outbox[i].ciphertext.key)
  {
    var e, n := u.sentIn[i], peer.outbox[i].header.msgNum;
    assert SentOk(peer.outbox[i], e, E);
    PastIsGone(me.ratchet, t.epoch, E, e, n);
    MessageKeyHeldIff(me.ratchet, t.epoch, E, E.MsgKey(e, n));
    if E.MsgKey(e, n) in me.ratchet.skipped.Values {
      var slot :| slot in me.ratchet.skipped && me.ratchet.skipped[slot] == E.MsgKey(e, n);
      var d :| StoredAs(me.ratchet, t.epoch, E, slot, d);
      ChainKeysDiffer(E, d, slot.1, e, n);
    }
  }

  lemma {:induction false} ChainYields(held: set<Key>, chain: Key, m: nat, n: nat)
    requires m <= n && Derivable(held, Advance(chain, m))
    ensures Derivable(held, Advance(chain, n))
    decreases n
  {
    if m < n {
      ChainYields(held, chain, m, n - 1);
    }
  }

  /** The closure is not empty: the key of every message still to come can be derived. */
  lemma UndeliveredKeyIsReachable(me: Party, t: Track, peer: Party, u: Track, E: Epochs, i: nat)
    requires PairOk(me, t, peer, u, E) && E.shared.X3dhSecret? && i < |peer.outbox| && i !in me.taken
    ensures peer.outbox[i].ciphertext.Sealed? && Derivable(Held(me.ratchet), peer.outbox[i].ciphertext.key)
  {
    var e, n := u.sentIn[i], peer.outbox[i].header.msgNum;
    var st := me.ratchet;
    assert SentOk(peer.outbox[i], e, E);
    if Slot(peer.outbox[i]) in st.skipped {
      StoredKeyIsRight(me, t, peer, u, E, i);
    } else {
      UndeliveredLiesAhead(me, t, peer, u, E, i);
      assert !Passed(st, t.epoch, e, n);
      if e == t.epoch - 1 {
        ChainYields(Held(st), E.Chain(e), st.msgNumRecv, n);
      } else {
        assert E.Root(t.epoch) in Held(st);
        ChainYields(Held(st), E.Chain(e), 0, n);
      }
    }
  }

  /** Forward secrecy over every run: nothing either peer holds yields a key it has used
      to encrypt or to decrypt, while every undelivered key stays within its reach. */
  lemma ForwardSecrecy(dhs: seq<DhOutput>, spkId: nat, ratchetId: nat, issued: set<nat>, steps: seq<Step>, s: System,
                       side: Side)
    requires spkId != ratchetId && Runs(Start(X3dhSecret(dhs), spkId, ratchetId, issued), steps, s)
    ensures var me, peer := s.Of(side), s.Of(Other(side)); var held := Held(me.ratchet);
      && (forall msg :: msg in me.outbox + peer.outbox ==> msg.ciphertext.Sealed?)
      && (forall i :: 0 <= i < |me.outbox| ==> !Derivable(held, me.outbox[i].ciphertext.key))
      && (forall i :: i in me.accepted ==> i < |peer.outbox| && !Derivable(held, peer.outbox[i].ciphertext.key))
      && (forall i :: 0 <= i < |peer.outbox| && i !in me.taken ==> Derivable(held, peer.outbox[i].ciphertext.key))
  {
    var s0 := Start(X3dhSecret(dhs), spkId, ratchetId, issued);
    var h := StartSynchronised(X3dhSecret(dhs), spkId, ratchetId, issued);
    h := RunKeepsSync(s0, h, steps, s);
    SyncFromAnySide(s, h, side);
    var me, t, peer, u, E := s.Of(side), h.Of(side), s.Of(Other(side)), h.Of(Other(side)), h.epochs;
    AllSealed(me.outbox, t, E);
    AllSealed(peer.outbox, u, E);
    forall i | 0 <= i < |me.outbox| ensures !Derivable(Held(me.ratchet), me.outbox[i].ciphertext.key) {
      SentKeyIsGone(me, t, peer, u, E, i);
    }
    forall i | i in me.accepted ensures !Derivable(Held(me.ratchet), peer.outbox[i].ciphertext.key) {
      AcceptedKeyIsGone(me, t, peer, u, E, i);
    }
    forall i | 0 <= i < |peer.outbox| && i !in me.taken
      ensures Derivable(Held(me.ratchet), peer.outbox[i].ciphertext.key)
    {
      UndeliveredKeyIsReachable(me, t, peer, u, E, i);
    }
  }

  lemma AllSealed(outbox: seq<Sent>, t: Track, E: Epochs)
    requires E.Valid() && OutboxOk(outbox, t, E)
    ensures forall msg :: msg in outbox ==> msg.ciphertext.Sealed?
  {
    forall i | 0 <= i < |outbox| ensures outbox[i].ciphertext.Sealed? {
      assert SentOk(outbox[i], t.sentIn[i], E);
    }
  }
}
