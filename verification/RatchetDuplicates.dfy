/** Why the ratchet must be handed each message at most once: what a second copy does to it. */
module RatchetDuplicates {
  import opened Basics
  import opened Keys
  import Ratchet
  import opened RatchetSystem
  import opened RatchetCorrectness
  import opened RatchetSecrecy

  // ---------------------------------------------------------------------------
  // A copy from the current receiving epoch

  /** A second copy of a message of the current receiving epoch is refused, but the chain
      moves on all the same. */
  lemma DuplicateMovesChain(me: Party, t: Track, peer: Party, u: Track, E: Epochs, i: nat, a: nat)
    requires PairOk(me, t, peer, u, E) && i in me.accepted && u.sentIn[i] + 1 == t.epoch
    ensures i < |peer.outbox| && me.ratchet.chainRecv.Some?
    ensures DecryptAt(me, peer.outbox[i], a)
         == (me.ratchet.(chainRecv := Some(NextChainKey(me.ratchet.chainRecv.value)),
                         msgNumRecv := Wrap32(me.ratchet.msgNumRecv + 1)),
             Err(Ratchet.DecryptionFailed))
  {
    var prior, e := peer.outbox[i], t.epoch - 1;
    assert SentOk(prior, e, E);
    ChainKeysDiffer(E, e, prior.header.msgNum, e, me.ratchet.msgNumRecv);
  }

  /** The message that comes next in the current receiving epoch is opened with the key that
      the chain is at, and with no other. */
  lemma NextNeedsItsKey(me: Party, t: Track, peer: Party, u: Track, E: Epochs, j: nat, b: nat)
    requires PairOk(me, t, peer, u, E)
    requires j < |peer.outbox| && j !in me.taken && u.sentIn[j] + 1 == t.epoch
    requires peer.outbox[j].header.msgNum == me.ratchet.msgNumRecv
    ensures DecryptAt(me, peer.outbox[j], b).1 == Ok(peer.outbox[j].plaintext)
    ensures Slot(peer.outbox[j]) !in me.ratchet.skipped && !Ratchet.NeedsRatchet(me.ratchet, peer.outbox[j].header)
    ensures peer.outbox[j].ciphertext.Sealed?
    ensures me.ratchet.chainRecv.Some? && peer.outbox[j].ciphertext.key == MessageKey(me.ratchet.chainRecv.value)
  {
    assert SentOk(peer.outbox[j], t.epoch - 1, E);
    if Slot(peer.outbox[j]) in me.ratchet.skipped {
      StoredKeyIsRight(me, t, peer, u, E, j);
    }
  }

  lemma WrongKeyFails(st: Ratchet.State, h: Ratchet.Header, ct: Ciphertext, newSecret: SecretKey)
    requires (h.dhPublic, h.msgNum) !in st.skipped && !Ratchet.NeedsRatchet(st, h)
    requires st.chainRecv.Some? && h.msgNum < st.msgNumRecv && st.msgNumRecv <= CHAIN_LIMIT
    requires ct.Sealed? && ct.key != MessageKey(st.chainRecv.value)
    ensures Ratchet.Decrypt(st, h, ct, newSecret).1 == Err(Ratchet.DecryptionFailed)
  {
  }

  /** Handing the ratchet a second copy of a message of the current receiving epoch fails,
      but not harmlessly: the chain moves on, and the next genuine message of that epoch,
      first copy and all, can no longer be opened. */
  lemma DuplicateCostsAMessage(me: Party, t: Track, peer: Party, u: Track, E: Epochs, i: nat, a: nat, j: nat, b: nat)
    requires PairOk(me, t, peer, u, E) && i in me.accepted && u.sentIn[i] + 1 == t.epoch
    requires j < |peer.outbox| && j !in me.taken && u.sentIn[j] + 1 == t.epoch
    requires peer.outbox[j].header.msgNum == me.ratchet.msgNumRecv
    ensures i < |peer.outbox| && DecryptAt(me, peer.outbox[i], a).1 == Err(Ratchet.DecryptionFailed)
    ensures DecryptAt(me, peer.outbox[j], b).1 == Ok(peer.outbox[j].plaintext)
    ensures var after := me.(ratchet := DecryptAt(me, peer.outbox[i], a).0);
            DecryptAt(after, peer.outbox[j], b).1 == Err(Ratchet.DecryptionFailed)
  {
    DuplicateMovesChain(me, t, peer, u, E, i, a);
    NextNeedsItsKey(me, t, peer, u, E, j, b);
    assert SentOk(peer.outbox[j], t.epoch - 1, E);
    WrongKeyFails(DecryptAt(me, peer.outbox[i], a).0, peer.outbox[j].header, peer.outbox[j].ciphertext, Secret(b));
  }

  // ---------------------------------------------------------------------------
  // A copy from an earlier epoch

  /** The chain a header makes the state use: its own receiving chain, or one made from its
      root by a Diffie-Hellman step. */
  function RootBehind(st: Ratchet.State, h: Ratchet.Header): nat {
    if Ratchet.NeedsRatchet(st, h) || st.chainRecv.None? then RootDepth(st.root) else RootDepth(st.chainRecv.value)
  }

  /** A message keyed from another root, with no stored key, never opens. */
  lemma OtherRootFails(st: Ratchet.State, h: Ratchet.Header, ct: Ciphertext, newSecret: SecretKey)
    requires (h.dhPublic, h.msgNum) !in st.skipped
    requires ct.Sealed? && RootDepth(ct.key) != RootBehind(st, h)
    ensures Ratchet.Decrypt(st, h, ct, newSecret).1.Err?
  {
    if Ratchet.NeedsRatchet(st, h) {
      var flushed := Ratchet.SkipMessages(st, h.prevChainLen);
      if flushed.Ok? {
        var next := Ratchet.DhRatchet(flushed.value, h.dhPublic, newSecret);
        OtherRootNotReceived(next, h, ct);
      }
    } else {
      OtherRootNotReceived(st, h, ct);
    }
  }

  lemma OtherRootNotReceived(st: Ratchet.State, h: Ratchet.Header, ct: Ciphertext)
    requires ct.Sealed? && (st.chainRecv.Some? ==> RootDepth(ct.key) != RootDepth(st.chainRecv.value))
    ensures Ratchet.Receive(st, h, ct).1.Err?
  {
    if st.chainRecv.Some? && h.msgNum > st.msgNumRecv {
      AdvanceDepths(st.chainRecv.value, h.msgNum - st.msgNumRecv);
    }
  }

  /** A Diffie-Hellman step to the key of the header, and two root steps, happen whatever
      becomes of the message. */
  lemma SteppedTo(st: Ratchet.State, h: Ratchet.Header, ct: Ciphertext, newSecret: SecretKey)
    requires (h.dhPublic, h.msgNum) !in st.skipped
    requires Ratchet.NeedsRatchet(st, h) && !Ratchet.TooFar(st, h.prevChainLen)
    ensures var after := Ratchet.Decrypt(st, h, ct, newSecret).0;
      && after.remote == Some(h.dhPublic) && RootDepth(after.root) == RootDepth(st.root) + 2
      && after.chainRecv.Some? && RootDepth(after.chainRecv.value) == RootDepth(st.root)
  {
    var flushed := Ratchet.SkipMessages(st, h.prevChainLen).value;
    var next := Ratchet.DhRatchet(flushed, h.dhPublic, newSecret);
    if h.msgNum > 0 {
      AdvanceDepths(next.chainRecv.value, h.msgNum);
    }
  }

  lemma SentDepth(msg: Sent, e: nat, E: Epochs)
    requires E.Valid() && SentOk(msg, e, E)
    ensures msg.ciphertext.Sealed? && RootDepth(msg.ciphertext.key) == RootDepth(E.shared) + e - 1
  {
    AdvanceDepths(E.Chain(e), msg.header.msgNum);
    RootDepths(E, e - 1);
  }

  /** What a copy from an earlier epoch finds: no stored key, and a stale ratchet key. */
  lemma OldCopy(me: Party, t: Track, peer: Party, u: Track, E: Epochs, i: nat)
    requires PairOk(me, t, peer, u, E) && i in me.accepted && u.sentIn[i] + 1 < t.epoch
    ensures i < |peer.outbox| && SentOk(peer.outbox[i], u.sentIn[i], E)
    ensures Slot(peer.outbox[i]) !in me.ratchet.skipped
    ensures Ratchet.NeedsRatchet(me.ratchet, peer.outbox[i].header)
    ensures RootDepth(me.ratchet.root) == RootDepth(E.shared) + t.epoch
  {
    RootDepths(E, t.epoch);
  }

  /** A second copy of a message that was opened, of whatever epoch, fails, and it leaves the
      state as it was exactly when it stops early. */
  lemma DuplicateFails(me: Party, t: Track, peer: Party, u: Track, E: Epochs, i: nat, a: nat)
    requires PairOk(me, t, peer, u, E) && i in me.accepted
    ensures i < |peer.outbox| && DecryptAt(me, peer.outbox[i], a).1.Err?
    ensures DecryptAt(me, peer.outbox[i], a).0 == me.ratchet <==> Ratchet.StopsEarly(me.ratchet, peer.outbox[i].header)
  {
    var msg := peer.outbox[i];
    if u.sentIn[i] + 1 < t.epoch {
      OldCopy(me, t, peer, u, E, i);
      SentDepth(msg, u.sentIn[i], E);
      OtherRootFails(me.ratchet, msg.header, msg.ciphertext, Secret(a));
    } else {
      DuplicateMovesChain(me, t, peer, u, E, i, a);
    }
    Ratchet.FailureUnchangedIff(me.ratchet, msg.header, msg.ciphertext, Secret(a));
  }

  /** A second copy from an earlier epoch that is not stopped by the skip limit takes the
      ratchet back to a stale key of the peer, with a root that the peer does not have. */
  lemma DuplicateStepsBack(me: Party, t: Track, peer: Party, u: Track, E: Epochs, i: nat, a: nat)
    requires PairOk(me, t, peer, u, E) && i in me.accepted && u.sentIn[i] + 1 < t.epoch
    requires !Ratchet.TooFar(me.ratchet, peer.outbox[i].header.prevChainLen)
    ensures i < |peer.outbox| && DecryptAt(me, peer.outbox[i], a).1.Err?
    ensures var after := DecryptAt(me, peer.outbox[i], a).0;
      && after.remote == Some(Public(E.ids[u.sentIn[i]])) && after.remote != me.ratchet.remote
      && after.root != me.ratchet.root && after.root != peer.ratchet.root
  {
    var msg := peer.outbox[i];
    DuplicateFails(me, t, peer, u, E, i, a);
    OldCopy(me, t, peer, u, E, i);
    SteppedTo(me.ratchet, msg.header, msg.ciphertext, Secret(a));
    RootDepths(E, u.epoch);
  }

  /** After that, nothing the peer has sent so far opens any more, except with a key already
      stored. */
  lemma SteppingBackLosesAll(me: Party, t: Track, peer: Party, u: Track, E: Epochs, i: nat, a: nat, j: nat, b: nat)
    requires PairOk(me, t, peer, u, E) && i in me.accepted && u.sentIn[i] + 1 < t.epoch && j < |peer.outbox|
    requires i < |peer.outbox| && !Ratchet.TooFar(me.ratchet, peer.outbox[i].header.prevChainLen)
    requires Slot(peer.outbox[j]) !in DecryptAt(me, peer.outbox[i], a).0.skipped
    ensures var after := me.(ratchet := DecryptAt(me, peer.outbox[i], a).0);
            DecryptAt(after, peer.outbox[j], b).1.Err?
  {
    var first, msg := peer.outbox[i], peer.outbox[j];
    var after := DecryptAt(me, first, a).0;
    OldCopy(me, t, peer, u, E, i);
    SteppedTo(me.ratchet, first.header, first.ciphertext, Secret(a));
    assert SentOk(msg, u.sentIn[j], E);
    SentDepth(msg, u.sentIn[j], E);
    if !Ratchet.NeedsRatchet(after, msg.header) {
      assert E.ids[u.sentIn[j]] == E.ids[u.sentIn[i]];
    }
    OtherRootFails(after, msg.header, msg.ciphertext, Secret(b));
  }

  /** In every run: a second copy of a message that was opened fails, and it leaves the state
      as it was exactly when it stops early. */
  lemma DuplicateFailsInEveryRun(shared: Key, spkId: nat, ratchetId: nat, issued: set<nat>, steps: seq<Step>, s: System,
                                 side: Side, i: nat, a: nat)
    requires spkId != ratchetId && Runs(Start(shared, spkId, ratchetId, issued), steps, s)
    requires i in s.Of(side).accepted
    ensures i < |s.Of(Other(side)).outbox|
    ensures var me, msg := s.Of(side), s.Of(Other(side)).outbox[i];
      && DecryptAt(me, msg, a).1.Err?
      && (DecryptAt(me, msg, a).0 == me.ratchet <==> Ratchet.StopsEarly(me.ratchet, msg.header))
  {
    var h := StartSynchronised(shared, spkId, ratchetId, issued);
    h := RunKeepsSync(Start(shared, spkId, ratchetId, issued), h, steps, s);
    SyncFromAnySide(s, h, side);
    DuplicateFails(s.Of(side), h.Of(side), s.Of(Other(side)), h.Of(Other(side)), h.epochs, i, a);
  }

  /** What a copy meets in a run: it was opened, it belongs to an earlier key of the peer, and
      the skip limit does not stop it. */
  predicate StepsBack(me: Party, msg: Sent) {
    && me.ratchet.remote != Some(msg.header.dhPublic)
    && !Ratchet.TooFar(me.ratchet, msg.header.prevChainLen)
  }

  lemma RemoteTellsEpoch(me: Party, t: Track, peer: Party, u: Track, E: Epochs, i: nat)
    requires PairOk(me, t, peer, u, E) && i in me.accepted
    ensures i < |peer.outbox|
    ensures me.ratchet.remote != Some(peer.outbox[i].header.dhPublic) <==> u.sentIn[i] + 1 < t.epoch
  {
    assert SentOk(peer.outbox[i], u.sentIn[i], E);
  }

  /** In every run: a second copy of a message of an earlier key of the peer, unless the skip
      limit stops it, takes the ratchet back to that key, and from then on nothing that the
      peer has sent so far opens, except with a key already stored. */
  lemma SteppingBackInEveryRun(shared: Key, spkId: nat, ratchetId: nat, issued: set<nat>, steps: seq<Step>, s: System,
                               side: Side, i: nat, a: nat, j: nat, b: nat)
    requires spkId != ratchetId && Runs(Start(shared, spkId, ratchetId, issued), steps, s)
    requires i in s.Of(side).accepted && i < |s.Of(Other(side)).outbox| && j < |s.Of(Other(side)).outbox|
    requires StepsBack(s.Of(side), s.Of(Other(side)).outbox[i])
    ensures var me, peer := s.Of(side), s.Of(Other(side));
      var after := DecryptAt(me, peer.outbox[i], a).0;
      && DecryptAt(me, peer.outbox[i], a).1.Err?
      && after.remote == Some(peer.outbox[i].header.dhPublic)
      && after.root != me.ratchet.root && after.root != peer.ratchet.root
      && (Slot(peer.outbox[j]) !in after.skipped ==> DecryptAt(me.(ratchet := after), peer.outbox[j], b).1.Err?)
  {
    var h := StartSynchronised(shared, spkId, ratchetId, issued);
    h := RunKeepsSync(Start(shared, spkId, ratchetId, issued), h, steps, s);
    SyncFromAnySide(s, h, side);
    var me, t, peer, u, E := s.Of(side), h.Of(side), s.Of(Other(side)), h.Of(Other(side)), h.epochs;
    RemoteTellsEpoch(me, t, peer, u, E, i);
    DuplicateStepsBack(me, t, peer, u, E, i, a);
    assert SentOk(peer.outbox[i], u.sentIn[i], E);
    if Slot(peer.outbox[j]) !in DecryptAt(me, peer.outbox[i], a).0.skipped {
      SteppingBackLosesAll(me, t, peer, u, E, i, a, j, b);
    }
  }

  // ---------------------------------------------------------------------------
  // Runs in which it happens

  lemma RunOfThree(s0: System, a: Step, b: Step, c: Step)
    requires Enabled(s0, a) && Enabled(Apply(s0, a), b) && Enabled(Apply(Apply(s0, a), b), c)
    ensures Runs(s0, [a, b, c], Apply(Apply(Apply(s0, a), b), c))
  {
    var s1, s2, s3 := Apply(s0, a), Apply(Apply(s0, a), b), Apply(Apply(Apply(s0, a), b), c);
    assert [a, b, c][1..] == [b, c] && [b, c][1..] == [c] && [c][1..] == [];
    assert Runs(s3, [], s3);
    assert Runs(s2, [c], s3);
    assert Runs(s1, [b, c], s3);
  }

  /** Bob has opened the first of two messages of one chain. */
  ghost predicate OneOfTwoTaken(bob: Party, first: Sent, second: Sent, p: seq<byte>, q: seq<byte>) {
    && first.header.dhPublic == second.header.dhPublic && bob.ratchet.remote == Some(first.header.dhPublic)
    && first.header.msgNum == 0 && second.header.msgNum == 1
    && bob.ratchet.skipped == map[] && bob.ratchet.msgNumRecv == 1 && bob.ratchet.chainRecv.Some?
    && var k := bob.ratchet.chainRecv.value;
       && k.NextChainKey?
       && first.ciphertext == Sealed(MessageKey(k.chain), NonceFrom(MessageKey(k.chain)), p)
       && second.ciphertext == Sealed(MessageKey(k), NonceFrom(MessageKey(k)), q)
  }

  /** Alice sends two messages. */
  lemma TwoSent(shared: Key, spkId: nat, ratchetId: nat, p: seq<byte>, q: seq<byte>) returns (s: System)
    requires spkId != ratchetId
    ensures var s0 := Start(shared, spkId, ratchetId, {});
      && Enabled(s0, SendStep(Alice, p)) && Enabled(Apply(s0, SendStep(Alice, p)), SendStep(Alice, q))
      && s == Apply(Apply(s0, SendStep(Alice, p)), SendStep(Alice, q))
      && s.bob == s0.bob && s.issued == s0.issued
    ensures var chain := ChainKey(shared, Dh(Secret(ratchetId), Public(spkId)));
      var k, l := MessageKey(chain), MessageKey(NextChainKey(chain));
      s.alice.outbox == [Sent(Ratchet.Header(Public(ratchetId), 0, 0), Sealed(k, NonceFrom(k), p), p),
                         Sent(Ratchet.Header(Public(ratchetId), 0, 1), Sealed(l, NonceFrom(l), q), q)]
  {
    s := Apply(Apply(Start(shared, spkId, ratchetId, {}), SendStep(Alice, p)), SendStep(Alice, q));
  }

  lemma FirstTaken(shared: Key, spkId: nat, ratchetId: nat, newId: nat, p: seq<byte>, q: seq<byte>)
    returns (s: System)
    requires spkId != ratchetId && newId != spkId && newId != ratchetId
    ensures Runs(Start(shared, spkId, ratchetId, {}),
                 [SendStep(Alice, p), SendStep(Alice, q), DeliverStep(Bob, 0, newId)], s)
    ensures |s.alice.outbox| == 2 && s.bob.accepted == s.bob.taken == {0}
    ensures OneOfTwoTaken(s.bob, s.alice.outbox[0], s.alice.outbox[1], p, q)
  {
    var s0 := Start(shared, spkId, ratchetId, {});
    var s2 := TwoSent(shared, spkId, ratchetId, p, q);
    RunOfThree(s0, SendStep(Alice, p), SendStep(Alice, q), DeliverStep(Bob, 0, newId));
    s := Apply(s2, DeliverStep(Bob, 0, newId));
  }

  lemma SecondIsLost(bob: Party, first: Sent, second: Sent, p: seq<byte>, q: seq<byte>, a: nat, b: nat)
    requires OneOfTwoTaken(bob, first, second, p, q)
    ensures DecryptAt(bob, second, b).1 == Ok(q)
    ensures DecryptAt(bob, first, a).1.Err?
    ensures DecryptAt(bob.(ratchet := DecryptAt(bob, first, a).0), second, b).1.Err?
  {
  }

  /** Alice sends two messages and Bob opens the first. The second would open; after another
      copy of the first it does not. */
  lemma CopyCostsTheNext(shared: Key, spkId: nat, ratchetId: nat, newId: nat, p: seq<byte>, q: seq<byte>,
                         a: nat, b: nat)
    requires spkId != ratchetId && newId != spkId && newId != ratchetId
    ensures exists s :: CostlyCopy(Start(shared, spkId, ratchetId, {}), s, newId, p, q, a, b)
  {
    var s := FirstTaken(shared, spkId, ratchetId, newId, p, q);
    SecondIsLost(s.bob, s.alice.outbox[0], s.alice.outbox[1], p, q, a, b);
    assert CostlyCopy(Start(shared, spkId, ratchetId, {}), s, newId, p, q, a, b);
  }

  ghost predicate CostlyCopy(s0: System, s: System, newId: nat, p: seq<byte>, q: seq<byte>, a: nat, b: nat) {
    && Runs(s0, [SendStep(Alice, p), SendStep(Alice, q), DeliverStep(Bob, 0, newId)], s)
    && |s.alice.outbox| == 2 && s.bob.accepted == s.bob.taken == {0}
    && DecryptAt(s.bob, s.alice.outbox[1], b).1 == Ok(q)
    && DecryptAt(s.bob, s.alice.outbox[0], a).1.Err?
    && DecryptAt(s.bob.(ratchet := DecryptAt(s.bob, s.alice.outbox[0], a).0), s.alice.outbox[1], b).1.Err?
  }

  /** It is the turn of one side, which has drawn a key that the other has not seen, and
      everything sent so far has been opened. */
  ghost predicate TurnOf(s: System, side: Side, own: nat, other: nat) {
    var me, you := s.Of(side), s.Of(Other(side));
    && KeyPairIs(me.ratchet, own) && KeyPairIs(you.ratchet, other) && own in s.issued && other in s.issued
    && me.ratchet.remote == Some(Public(other)) && you.ratchet.remote != Some(Public(own))
    && me.ratchet.skipped == you.ratchet.skipped == map[]
    && OneStepAhead(me.ratchet, you.ratchet, DhOfIds(own, other))
    && me.ratchet.msgNumSend == 0 && me.ratchet.prevChainLen == you.ratchet.msgNumRecv
    && (me.ratchet.chainRecv.Some? ==> me.ratchet.msgNumRecv == you.ratchet.msgNumSend)
    && (me.ratchet.chainRecv.None? ==> you.ratchet.msgNumSend == me.ratchet.msgNumRecv == 0)
    && you.ratchet.msgNumRecv <= 1 && you.ratchet.msgNumSend <= 1
    && (forall i :: i in you.taken ==> i < |me.outbox|)
    && (forall i :: i in me.taken ==> i < |you.outbox|)
  }

  predicate KeyPairIs(st: Ratchet.State, id: nat) {
    st.selfSecret == Secret(id) && st.selfPublic == Public(id)
  }

  predicate OneStepAhead(st: Ratchet.State, behind: Ratchet.State, dh: DhOutput) {
    st.root == RootKey(behind.root, dh) && st.chainSend == Some(ChainKey(behind.root, dh))
  }

  lemma AliceHasTheTurn(shared: Key, spkId: nat, ratchetId: nat)
    requires spkId != ratchetId
    ensures TurnOf(Start(shared, spkId, ratchetId, {}), Alice, ratchetId, spkId)
  {
  }

  /** What the ratchet becomes on opening the first message of a new chain. */
  function Taken(st: Ratchet.State, own: nat, other: nat, newId: nat): Ratchet.State {
    var dh, next := DhOfIds(own, other), DhOfIds(newId, own);
    var mid := RootKey(st.root, dh);
    Ratchet.State(Secret(newId), Public(newId), Some(Public(own)), RootKey(mid, next), Some(ChainKey(mid, next)), 0,
                  Some(NextChainKey(ChainKey(st.root, dh))), 1, st.msgNumSend, map[])
  }

  function FirstOfChain(root: Key, own: nat, other: nat, prev: u32, plaintext: seq<byte>): Sent {
    var k := MessageKey(ChainKey(root, DhOfIds(own, other)));
    Sent(Ratchet.Header(Public(own), prev, 0), Sealed(k, NonceFrom(k), plaintext), plaintext)
  }

  lemma FirstOfChainOpens(st: Ratchet.State, own: nat, other: nat, plaintext: seq<byte>, newId: nat)
    requires KeyPairIs(st, other) && st.skipped == map[] && st.remote != Some(Public(own)) && st.msgNumRecv <= 1
    ensures var msg := FirstOfChain(st.root, own, other, st.msgNumRecv, plaintext);
      Ratchet.Decrypt(st, msg.header, msg.ciphertext, Secret(newId)) == (Taken(st, own, other, newId), Ok(plaintext))
  {
    DhSymmetric(own, other);
  }

  function HasSent(me: Party, msg: Sent): Party
    requires me.ratchet.chainSend.Some?
  {
    me.(ratchet := me.ratchet.(chainSend := Some(NextChainKey(me.ratchet.chainSend.value)), msgNumSend := 1),
        outbox := me.outbox + [msg])
  }

  function HasTaken(you: Party, n: nat, own: nat, other: nat, newId: nat): Party {
    you.(ratchet := Taken(you.ratchet, own, other, newId), taken := you.taken + {n}, accepted := you.accepted + {n})
  }

  lemma TurnSends(s: System, side: Side, own: nat, other: nat, plaintext: seq<byte>)
    requires TurnOf(s, side, own, other)
    ensures Enabled(s, SendStep(side, plaintext))
    ensures var me, you := s.Of(side), s.Of(Other(side));
      var msg := FirstOfChain(you.ratchet.root, own, other, you.ratchet.msgNumRecv, plaintext);
      Apply(s, SendStep(side, plaintext)) == s.With(side, HasSent(me, msg))
  {
  }

  lemma TurnTakes(s: System, side: Side, own: nat, other: nat, plaintext: seq<byte>, newId: nat)
    requires TurnOf(s, side, own, other) && newId !in s.issued
    ensures var n := |s.Of(side).outbox|;
      var sent, deliver := Apply(s, SendStep(side, plaintext)), DeliverStep(Other(side), n, newId);
      && Enabled(s, SendStep(side, plaintext)) && Enabled(sent, deliver)
      && Apply(sent, deliver)
         == sent.With(Other(side), HasTaken(s.Of(Other(side)), n, own, other, newId)).(issued := s.issued + {newId})
  {
    TurnSends(s, side, own, other, plaintext);
    FirstOfChainOpens(s.Of(Other(side)).ratchet, own, other, plaintext, newId);
  }

  /** Sending and taking pass the turn. */
  lemma TurnAfter(s: System, side: Side, own: nat, other: nat, msg: Sent, newId: nat, after: System)
    requires TurnOf(s, side, own, other) && newId !in s.issued
    requires after == s.With(side, HasSent(s.Of(side), msg)).
      With(Other(side), HasTaken(s.Of(Other(side)), |s.Of(side).outbox|, own, other, newId)).
      (issued := s.issued + {newId})
    ensures TurnOf(after, Other(side), newId, own)
  {
  }

  /** One message is sent and opened, and the turn passes. */
  lemma TurnPasses(s0: System, steps: seq<Step>, s: System, side: Side, own: nat, other: nat, plaintext: seq<byte>,
                   newId: nat) returns (steps': seq<Step>, after: System)
    requires Runs(s0, steps, s) && TurnOf(s, side, own, other) && newId !in s.issued
    ensures Runs(s0, steps', after) && TurnOf(after, Other(side), newId, own)
    ensures var me, you := s.Of(side), s.Of(Other(side));
      var msg := FirstOfChain(you.ratchet.root, own, other, you.ratchet.msgNumRecv, plaintext);
      after == s.With(side, HasSent(me, msg)).With(Other(side), HasTaken(you, |me.outbox|, own, other, newId)).
                 (issued := s.issued + {newId})
  {
    var send, deliver := SendStep(side, plaintext), DeliverStep(Other(side), |s.Of(side).outbox|, newId);
    TurnSends(s, side, own, other, plaintext);
    TurnTakes(s, side, own, other, plaintext, newId);
    var sent := Apply(s, send);
    RunsExtend(s0, steps, s, send);
    RunsExtend(s0, steps + [send], sent, deliver);
    steps', after := steps + [send] + [deliver], Apply(sent, deliver);
    var you := s.Of(Other(side)).ratchet;
    TurnAfter(s, side, own, other, FirstOfChain(you.root, own, other, you.msgNumRecv, plaintext), newId, after);
  }

  /** Alice writes, Bob answers, Alice writes again: a copy of her first message then steps
      back. */
  lemma CopyStepsBack(shared: Key, spkId: nat, ratchetId: nat, m: nat, n: nat, o: nat, plaintext: seq<byte>)
    requires spkId != ratchetId && m !in {spkId, ratchetId}
    requires n !in {spkId, ratchetId, m} && o !in {spkId, ratchetId, m, n}
    ensures exists steps, s ::
      && Runs(Start(shared, spkId, ratchetId, {}), steps, s)
      && 0 in s.bob.accepted && |s.alice.outbox| == 2 && StepsBack(s.bob, s.alice.outbox[0])
  {
    var s0 := Start(shared, spkId, ratchetId, {});
    AliceHasTheTurn(shared, spkId, ratchetId);
    var steps1, s1 := TurnPasses(s0, [], s0, Alice, ratchetId, spkId, plaintext, m);
    var steps2, s2 := TurnPasses(s0, steps1, s1, Bob, m, ratchetId, plaintext, n);
    var steps3, s3 := TurnPasses(s0, steps2, s2, Alice, n, m, plaintext, o);
  }
}
