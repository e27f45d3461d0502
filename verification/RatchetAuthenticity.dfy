/** Authenticity of the ratchet against a network that forges, replays and redirects at will. */
module RatchetAuthenticity {
  import opened Basics
  import opened Keys
  import Ratchet
  import opened RatchetSystem
  import opened RatchetSecrecy
  import opened RatchetRecovery

  // ---------------------------------------------------------------------------
  // One call, on any state, header and ciphertext

  lemma ReceiveOpensOnlySealed(st: Ratchet.State, h: Ratchet.Header, ct: Ciphertext)
    ensures var r := Ratchet.Receive(st, h, ct).1;
      r.Ok? ==>
        && st.chainRecv.Some? && ct.Sealed? && r == Ok(ct.plaintext) && ct.nonce == NonceFrom(ct.key)
        && exists n: nat :: ct.key == MessageKey(Advance(st.chainRecv.value, n))
  {
    var caughtUp := Ratchet.SkipMessages(st, h.msgNum);
    if caughtUp.Ok? && st.chainRecv.Some? && Ratchet.Receive(st, h, ct).1.Ok? {
      var n := if h.msgNum > st.msgNumRecv && st.remote.Some? then h.msgNum - st.msgNumRecv else 0;
      assert ct.key == MessageKey(Advance(st.chainRecv.value, n));
    }
  }

  /** Whatever opens was sealed, under a key that the state can derive and with the nonce of
      that key, and what comes out is what was sealed. */
  lemma OpensOnlySealed(st: Ratchet.State, h: Ratchet.Header, ct: Ciphertext, newSecret: SecretKey)
    ensures var r := Ratchet.Decrypt(st, h, ct, newSecret).1;
      r.Ok? ==> ct.Sealed? && r == Ok(ct.plaintext) && ct.nonce == NonceFrom(ct.key) && Derivable(Held(st), ct.key)
  {
    var r, slot := Ratchet.Decrypt(st, h, ct, newSecret).1, (h.dhPublic, h.msgNum);
    if slot in st.skipped {
      assert st.skipped[slot] in st.skipped.Values;
    } else if Ratchet.NeedsRatchet(st, h) {
      var flushed := Ratchet.SkipMessages(st, h.prevChainLen);
      if r.Ok? {
        var next := Ratchet.DhRatchet(flushed.value, h.dhPublic, newSecret);
        ReceiveOpensOnlySealed(next, h, ct);
        var n: nat :| ct.key == MessageKey(Advance(next.chainRecv.value, n));
        assert Derivable(Held(st), Advance(next.chainRecv.value, 0));
        ChainYields(Held(st), next.chainRecv.value, 0, n);
      }
    } else {
      ReceiveOpensOnlySealed(st, h, ct);
      if r.Ok? {
        var n: nat :| ct.key == MessageKey(Advance(st.chainRecv.value, n));
        ChainYields(Held(st), st.chainRecv.value, 0, n);
      }
    }
  }

  /** Is a chain asked to go more than 256 keys ahead? The addition wraps. */
  predicate Ahead(st: Ratchet.State, until: u32) {
    st.chainRecv.Some? && (st.msgNumRecv as int + 256) % 0x1_0000_0000 < until
  }

  /** Which error it is, of any message at all: too many keys missing at the end of the old
      chain or in front of the message, or no chain yet; everything else that fails fails to
      decrypt. */
  lemma ErrorsExactly(st: Ratchet.State, h: Ratchet.Header, ct: Ciphertext, newSecret: SecretKey)
    ensures var r, unseen := Ratchet.Decrypt(st, h, ct, newSecret).1, (h.dhPublic, h.msgNum) !in st.skipped;
      && (r == Err(Ratchet.TooManySkipped)
          <==> unseen && (if st.remote != Some(h.dhPublic) then Ahead(st, h.prevChainLen) || h.msgNum > 256
                          else Ahead(st, h.msgNum)))
      && (r == Err(Ratchet.NoRecvChain) <==> unseen && st.remote == Some(h.dhPublic) && st.chainRecv.None?)
      && r != Err(Ratchet.NoSendChain)
  {
  }

  /** What becomes of the state is settled before the ciphertext is looked at: forged or
      genuine, it makes no difference to it. */
  lemma StateIgnoresCiphertext(st: Ratchet.State, h: Ratchet.Header, ct: Ciphertext, ct': Ciphertext,
                               newSecret: SecretKey)
    ensures Ratchet.Decrypt(st, h, ct, newSecret).0 == Ratchet.Decrypt(st, h, ct', newSecret).0
  {
  }

  /** Encryption fails exactly before the first key of a sending chain is known, and then
      changes nothing. */
  lemma EncryptExactly(st: Ratchet.State, plaintext: seq<byte>)
    ensures var (after, r) := Ratchet.Encrypt(st, plaintext);
      && (r.Err? <==> st.chainSend.None?) && (r.Err? ==> r == Err(Ratchet.NoSendChain) && after == st)
      && (r.Ok? ==>
            && r.value.0 == Ratchet.Header(st.selfPublic, st.prevChainLen, st.msgNumSend)
            && r.value.1 == Sealed(MessageKey(st.chainSend.value), NonceFrom(MessageKey(st.chainSend.value)), plaintext)
            && after.chainSend == Some(NextChainKey(st.chainSend.value))
            && after.msgNumSend == (st.msgNumSend as int + 1) % 0x1_0000_0000)
  {
  }

  // ---------------------------------------------------------------------------
  // What a state keeps under any input at all

  /** The secret from which a key was derived. */
  function Base(k: Key): Key {
    match k
    case X3dhSecret(_) => k
    case RootKey(root, _) => Base(root)
    case ChainKey(root, _) => Base(root)
    case NextChainKey(chain) => Base(chain)
    case MessageKey(chain) => Base(chain)
  }

  /** A key of one session, on one side of the alternation of roots. */
  predicate Of(k: Key, dhs: seq<DhOutput>, odd: bool) {
    Base(k) == X3dhSecret(dhs) && AliceOwns(RootDepth(k)) == odd
  }

  lemma {:induction false} AdvanceOf(chain: Key, n: nat)
    ensures Base(Advance(chain, n)) == Base(chain)
  {
    if n > 0 {
      AdvanceOf(chain, n - 1);
    }
  }

  /** The chain key of a used or stored message key lies behind the receiving chain. */
  predicate Behind(k: Key, recv: Key) {
    && k.MessageKey?
    && (RootDepth(k) < RootDepth(recv)
        || (RootDepth(k) == RootDepth(recv) && ChainDepth(k.chain) < ChainDepth(recv)))
  }

  /** A key that was used up, or could have been: behind, and not stored. */
  predicate Used(st: Ratchet.State, k: Key) {
    st.chainRecv.Some? && Behind(k, st.chainRecv.value) && k !in st.skipped.Values
  }

  ghost predicate StoreOk(st: Ratchet.State, dhs: seq<DhOutput>, odd: bool) {
    && (forall slot :: slot in st.skipped ==>
          st.chainRecv.Some? && Behind(st.skipped[slot], st.chainRecv.value) && Of(st.skipped[slot], dhs, odd))
    && (forall a, b :: a in st.skipped && b in st.skipped && a != b ==> st.skipped[a] != st.skipped[b])
  }

  predicate ChainsOk(st: Ratchet.State, dhs: seq<DhOutput>, odd: bool) {
    && Of(st.root, dhs, odd)
    && (st.chainSend.Some? ==> Of(st.chainSend.value, dhs, !odd))
    && (st.chainRecv.Some? ==>
          Of(st.chainRecv.value, dhs, odd) && RootDepth(st.chainRecv.value) < RootDepth(st.root))
  }

  ghost predicate Sound(st: Ratchet.State, dhs: seq<DhOutput>, odd: bool) {
    ChainsOk(st, dhs, odd) && StoreOk(st, dhs, odd)
  }

  lemma MessageKeyAt(chain: Key, n: nat, dhs: seq<DhOutput>, odd: bool)
    requires Of(chain, dhs, odd)
    ensures var k := MessageKey(Advance(chain, n));
      && Of(k, dhs, odd) && RootDepth(k) == RootDepth(chain) && ChainDepth(k.chain) == ChainDepth(chain) + n
    ensures Of(Advance(chain, n), dhs, odd) && RootDepth(Advance(chain, n)) == RootDepth(chain)
    ensures ChainDepth(Advance(chain, n)) == ChainDepth(chain) + n
  {
    AdvanceOf(chain, n);
    AdvanceDepths(chain, n);
  }

  /** Skipping ahead in a chain, when it does anything. */
  predicate SkipsAhead(st: Ratchet.State, until: u32) {
    st.chainRecv.Some? && st.remote.Some? && !Ratchet.TooFar(st, until) && st.msgNumRecv < until
  }

  function Skipped(st: Ratchet.State, until: u32): Ratchet.State
    requires SkipsAhead(st, until)
  {
    Ratchet.SkipMessages(st, until).value
  }

  lemma SkipChains(st: Ratchet.State, until: u32, dhs: seq<DhOutput>, odd: bool)
    requires SkipsAhead(st, until) && ChainsOk(st, dhs, odd)
    ensures var after := Skipped(st, until); var n := until - st.msgNumRecv;
      && ChainsOk(after, dhs, odd) && after.chainRecv == Some(Advance(st.chainRecv.value, n))
      && after.root == st.root && after.chainSend == st.chainSend
      && RootDepth(after.chainRecv.value) == RootDepth(st.chainRecv.value)
      && ChainDepth(after.chainRecv.value) == ChainDepth(st.chainRecv.value) + n
  {
    MessageKeyAt(st.chainRecv.value, until - st.msgNumRecv, dhs, odd);
  }

  /** What is stored after skipping was stored before, or is a key of the part skipped. */
  lemma SkipStores(st: Ratchet.State, until: u32, dhs: seq<DhOutput>, odd: bool, slot: (PublicKey, u32))
    requires SkipsAhead(st, until) && ChainsOk(st, dhs, odd) && slot in Skipped(st, until).skipped
    ensures var k, recv := Skipped(st, until).skipped[slot], st.chainRecv.value;
      || (slot in st.skipped && k == st.skipped[slot])
      || (&& slot.0 == st.remote.value && st.msgNumRecv <= slot.1 < until && k.MessageKey? && Of(k, dhs, odd)
          && RootDepth(k) == RootDepth(recv) && ChainDepth(k.chain) == ChainDepth(recv) + slot.1 - st.msgNumRecv)
  {
    if slot.0 == st.remote.value && st.msgNumRecv <= slot.1 < until {
      MessageKeyAt(st.chainRecv.value, slot.1 - st.msgNumRecv, dhs, odd);
    }
  }

  lemma SkipKeepsSound(st: Ratchet.State, until: u32, dhs: seq<DhOutput>, odd: bool)
    requires SkipsAhead(st, until) && Sound(st, dhs, odd)
    ensures Sound(Skipped(st, until), dhs, odd)
    ensures forall k :: Used(st, k) ==> Used(Skipped(st, until), k)
  {
    var after := Skipped(st, until);
    SkipChains(st, until, dhs, odd);
    forall slot | slot in after.skipped
      ensures Behind(after.skipped[slot], after.chainRecv.value) && Of(after.skipped[slot], dhs, odd)
    {
      SkipStores(st, until, dhs, odd, slot);
    }
    forall a, b | a in after.skipped && b in after.skipped && a != b ensures after.skipped[a] != after.skipped[b] {
      SkipStores(st, until, dhs, odd, a);
      SkipStores(st, until, dhs, odd, b);
    }
    forall k | Used(st, k) ensures Used(after, k) {
      if k in after.skipped.Values {
        var slot :| slot in after.skipped && after.skipped[slot] == k;
        SkipStores(st, until, dhs, odd, slot);
      }
    }
  }

  /** Skipping, whether or not it does anything. */
  lemma AnySkip(st: Ratchet.State, until: u32, dhs: seq<DhOutput>, odd: bool)
    requires Sound(st, dhs, odd) && Ratchet.SkipMessages(st, until).Ok?
    ensures var after := Ratchet.SkipMessages(st, until).value;
      && Sound(after, dhs, odd) && after.root == st.root && after.chainRecv.Some? == st.chainRecv.Some?
      && (forall k :: Used(st, k) ==> Used(after, k))
  {
    if SkipsAhead(st, until) {
      SkipChains(st, until, dhs, odd);
      SkipKeepsSound(st, until, dhs, odd);
    }
  }

  /** A Diffie-Hellman step with any key at all, the intruder's included. */
  lemma StepKeepsSound(st: Ratchet.State, remote: PublicKey, newSecret: SecretKey, dhs: seq<DhOutput>, odd: bool)
    requires Sound(st, dhs, odd)
    ensures var after := Ratchet.DhRatchet(st, remote, newSecret);
      Sound(after, dhs, odd) && after.chainRecv.Some? && (forall k :: Used(st, k) ==> Used(after, k))
  {
  }

  /** What receiving on the present chain does to the keys. */
  lemma ReceiveKeepsSound(st: Ratchet.State, h: Ratchet.Header, ct: Ciphertext, dhs: seq<DhOutput>, odd: bool)
    requires Sound(st, dhs, odd)
    ensures var (after, r) := Ratchet.Receive(st, h, ct);
      && Sound(after, dhs, odd) && (forall k :: Used(st, k) ==> Used(after, k))
      && (r.Ok? ==> ct.Sealed? && !Used(st, ct.key) && Used(after, ct.key) && Of(ct.key, dhs, odd))
  {
    var caughtUp := Ratchet.SkipMessages(st, h.msgNum);
    if caughtUp.Ok? && caughtUp.value.chainRecv.Some? {
      var s := caughtUp.value;
      AnySkip(st, h.msgNum, dhs, odd);
      TakeKeepsSound(s, dhs, odd);
    }
  }

  /** Using the key that the chain is at. */
  lemma TakeKeepsSound(s: Ratchet.State, dhs: seq<DhOutput>, odd: bool)
    requires Sound(s, dhs, odd) && s.chainRecv.Some?
    ensures var ck := s.chainRecv.value;
      var after := s.(chainRecv := Some(NextChainKey(ck)), msgNumRecv := Wrap32(s.msgNumRecv + 1));
      && Sound(after, dhs, odd) && (forall k :: Used(s, k) ==> Used(after, k))
      && !Used(s, MessageKey(ck)) && Used(after, MessageKey(ck)) && Of(MessageKey(ck), dhs, odd)
  {
  }

  /** Using a stored key. */
  lemma StoredKeepsSound(st: Ratchet.State, slot: (PublicKey, u32), dhs: seq<DhOutput>, odd: bool)
    requires Sound(st, dhs, odd) && slot in st.skipped
    ensures var after, k := st.(skipped := st.skipped - {slot}), st.skipped[slot];
      && Sound(after, dhs, odd) && (forall k' :: Used(st, k') ==> Used(after, k'))
      && !Used(st, k) && Used(after, k) && Of(k, dhs, odd)
  {
    assert st.skipped[slot] in st.skipped.Values;
  }

  /** Whatever arrives, the state stays sound, no used key comes back, and what opens was
      sealed under a key of this session that had not been used and now has. */
  lemma DecryptKeepsSound(st: Ratchet.State, h: Ratchet.Header, ct: Ciphertext, newSecret: SecretKey,
                          dhs: seq<DhOutput>, odd: bool)
    requires Sound(st, dhs, odd)
    ensures var (after, r) := Ratchet.Decrypt(st, h, ct, newSecret);
      && Sound(after, dhs, odd) && (forall k :: Used(st, k) ==> Used(after, k))
      && (r.Ok? ==> ct.Sealed? && !Used(st, ct.key) && Used(after, ct.key) && Of(ct.key, dhs, odd))
  {
    var slot := (h.dhPublic, h.msgNum);
    if slot in st.skipped {
      StoredKeepsSound(st, slot, dhs, odd);
    } else if Ratchet.NeedsRatchet(st, h) {
      var flushed := Ratchet.SkipMessages(st, h.prevChainLen);
      if flushed.Ok? {
        AnySkip(st, h.prevChainLen, dhs, odd);
        StepKeepsSound(flushed.value, h.dhPublic, newSecret, dhs, odd);
        ReceiveKeepsSound(Ratchet.DhRatchet(flushed.value, h.dhPublic, newSecret), h, ct, dhs, odd);
      }
    } else {
      ReceiveKeepsSound(st, h, ct, dhs, odd);
    }
  }

  // ---------------------------------------------------------------------------
  // Two peers and an intruder who is the network

  /** A peer, everything it sent, and every ciphertext that opened for it. */
  datatype Player = Player(ratchet: Ratchet.State, outbox: seq<Sent>, admitted: seq<Ciphertext>)

  datatype Duel = Duel(alice: Player, bob: Player) {
    function At(side: Side): Player {
      if side.Alice? then alice else bob
    }

    function Put(side: Side, p: Player): Duel {
      if side.Alice? then this.(alice := p) else this.(bob := p)
    }
  }

  datatype Move =
    | Say(side: Side, plaintext: seq<byte>)
    | Inject(to: Side, header: Ratchet.Header, ciphertext: Ciphertext, newSecret: SecretKey)

  /** What the intruder, who has these secret key pairs, can put on the wire: noise, whatever
      is sealed under a key that he can work out, and copies of all that was ever sent. The
      header is not sealed and may be anything. */
  ghost predicate CanMake(d: Duel, ids: set<nat>, ct: Ciphertext) {
    || ct.Garbage?
    || Known({}, ids, ct.key)
    || WasSent(d.alice.outbox, ct) || WasSent(d.bob.outbox, ct)
  }

  ghost predicate CanMove(d: Duel, ids: set<nat>, m: Move) {
    m.Inject? ==> CanMake(d, ids, m.ciphertext)
  }

  function Says(p: Player, plaintext: seq<byte>): Player {
    var (ratchet, r) := Ratchet.Encrypt(p.ratchet, plaintext);
    if r.Err? then p.(ratchet := ratchet)
    else p.(ratchet := ratchet, outbox := p.outbox + [Sent(r.value.0, r.value.1, plaintext)])
  }

  function Meets(p: Player, h: Ratchet.Header, ct: Ciphertext, newSecret: SecretKey): Player {
    var (ratchet, r) := Ratchet.Decrypt(p.ratchet, h, ct, newSecret);
    p.(ratchet := ratchet, admitted := if r.Ok? then p.admitted + [ct] else p.admitted)
  }

  function Next(d: Duel, m: Move): Duel {
    match m
    case Say(side, plaintext) => d.Put(side, Says(d.At(side), plaintext))
    case Inject(to, h, ct, newSecret) => d.Put(to, Meets(d.At(to), h, ct, newSecret))
  }

  ghost predicate Unrolls(d: Duel, ids: set<nat>, moves: seq<Move>, last: Duel)
    decreases |moves|
  {
    if moves == [] then last == d
    else CanMove(d, ids, moves[0]) && Unrolls(Next(d, moves[0]), ids, moves[1..], last)
  }

  function Opening(dhs: seq<DhOutput>, spkId: nat, ratchetId: nat): Duel {
    var s := Start(X3dhSecret(dhs), spkId, ratchetId, {});
    Duel(Player(s.alice.ratchet, [], []), Player(s.bob.ratchet, [], []))
  }

  /** Alice's roots are at odd depths, and Bob's at even ones. */
  predicate Parity(side: Side) {
    side.Alice?
  }

  ghost predicate SentUnderOwn(outbox: seq<Sent>, dhs: seq<DhOutput>, odd: bool) {
    forall j :: 0 <= j < |outbox| ==>
      && outbox[j].ciphertext.Sealed? && Of(outbox[j].ciphertext.key, dhs, !odd)
      && outbox[j].ciphertext.plaintext == outbox[j].plaintext
  }

  ghost predicate OpenedAndUsed(p: Player, dhs: seq<DhOutput>, odd: bool) {
    && (forall i :: 0 <= i < |p.admitted| ==>
          p.admitted[i].Sealed? && Of(p.admitted[i].key, dhs, odd) && Used(p.ratchet, p.admitted[i].key))
    && (forall i, j :: 0 <= i < j < |p.admitted| ==> p.admitted[i].key != p.admitted[j].key)
  }

  ghost predicate AllSentBy(admitted: seq<Ciphertext>, outbox: seq<Sent>) {
    forall i :: 0 <= i < |admitted| ==> WasSent(outbox, admitted[i])
  }

  ghost predicate WasSent(outbox: seq<Sent>, ct: Ciphertext) {
    exists j :: 0 <= j < |outbox| && outbox[j].ciphertext == ct
  }

  lemma SentStays(admitted: seq<Ciphertext>, outbox: seq<Sent>, more: seq<Sent>)
    requires AllSentBy(admitted, outbox) && outbox <= more
    ensures AllSentBy(admitted, more)
  {
    forall i | 0 <= i < |admitted| ensures WasSent(more, admitted[i]) {
      assert WasSent(outbox, admitted[i]);
      var j :| 0 <= j < |outbox| && outbox[j].ciphertext == admitted[i];
      assert more[j] == outbox[j];
    }
  }

  ghost predicate PlayerOk(p: Player, dhs: seq<DhOutput>, odd: bool) {
    Sound(p.ratchet, dhs, odd) && SentUnderOwn(p.outbox, dhs, odd) && OpenedAndUsed(p, dhs, odd)
  }

  ghost predicate DuelOk(d: Duel, dhs: seq<DhOutput>) {
    && PlayerOk(d.alice, dhs, Parity(Alice)) && PlayerOk(d.bob, dhs, Parity(Bob))
    && AllSentBy(d.alice.admitted, d.bob.outbox) && AllSentBy(d.bob.admitted, d.alice.outbox)
  }

  lemma OpeningOk(dhs: seq<DhOutput>, spkId: nat, ratchetId: nat)
    ensures DuelOk(Opening(dhs, spkId, ratchetId), dhs)
  {
    assert AliceOwns(1) && !AliceOwns(0);
  }

  lemma SaysKeeps(p: Player, plaintext: seq<byte>, dhs: seq<DhOutput>, odd: bool)
    requires PlayerOk(p, dhs, odd)
    ensures var after := Says(p, plaintext);
      PlayerOk(after, dhs, odd) && p.outbox <= after.outbox && after.admitted == p.admitted
  {
  }

  /** The intruder knows no key of a session whose secret he does not know. */
  lemma {:induction false} BaseKnown(ids: set<nat>, k: Key)
    requires Known({}, ids, k)
    ensures Known({}, ids, Base(k))
  {
    match k
    case X3dhSecret(_) =>
    case RootKey(root, _) => BaseKnown(ids, root);
    case ChainKey(root, _) => BaseKnown(ids, root);
    case NextChainKey(chain) => BaseKnown(ids, chain);
    case MessageKey(chain) => BaseKnown(ids, chain);
  }

  lemma MeetsKeeps(p: Player, h: Ratchet.Header, ct: Ciphertext, newSecret: SecretKey, dhs: seq<DhOutput>, odd: bool)
    requires PlayerOk(p, dhs, odd)
    ensures var after := Meets(p, h, ct, newSecret);
      && PlayerOk(after, dhs, odd) && after.outbox == p.outbox
      && (after.admitted == p.admitted
          || (after.admitted == p.admitted + [ct] && ct.Sealed? && Of(ct.key, dhs, odd)))
  {
    DecryptKeepsSound(p.ratchet, h, ct, newSecret, dhs, odd);
  }

  /** What the intruder can make of keys of the session are copies of what was sent. */
  lemma MadeWasSent(d: Duel, ids: set<nat>, dhs: seq<DhOutput>, to: Side, ct: Ciphertext)
    requires DuelOk(d, dhs) && CanMake(d, ids, ct) && !Known({}, ids, X3dhSecret(dhs))
    requires ct.Sealed? && Of(ct.key, dhs, Parity(to))
    ensures WasSent(d.At(Other(to)).outbox, ct)
  {
    if Known({}, ids, ct.key) {
      BaseKnown(ids, ct.key);
    } else {
      assert !WasSent(d.At(to).outbox, ct);
    }
  }

  lemma MoveKeeps(d: Duel, ids: set<nat>, dhs: seq<DhOutput>, m: Move)
    requires DuelOk(d, dhs) && CanMove(d, ids, m) && !Known({}, ids, X3dhSecret(dhs))
    ensures DuelOk(Next(d, m), dhs)
  {
    match m
    case Say(side, plaintext) =>
      SaysKeeps(d.At(side), plaintext, dhs, Parity(side));
      SentStays(d.At(Other(side)).admitted, d.At(side).outbox, Says(d.At(side), plaintext).outbox);
    case Inject(to, h, ct, newSecret) =>
      MeetsKeeps(d.At(to), h, ct, newSecret, dhs, Parity(to));
      if Next(d, m).At(to).admitted != d.At(to).admitted {
        MadeWasSent(d, ids, dhs, to, ct);
      }
  }

  lemma {:induction false} MovesKeep(d: Duel, ids: set<nat>, dhs: seq<DhOutput>, moves: seq<Move>, last: Duel)
    requires DuelOk(d, dhs) && Unrolls(d, ids, moves, last) && !Known({}, ids, X3dhSecret(dhs))
    ensures DuelOk(last, dhs)
    decreases |moves|
  {
    if moves != [] {
      MoveKeeps(d, ids, dhs, moves[0]);
      MovesKeep(Next(d, moves[0]), ids, dhs, moves[1..], last);
    }
  }

  /** Over every run against an intruder who does not know the session secret, whatever he
      forges, copies, redirects or relabels: each ciphertext that opened was sent by the peer
      in this session, and no two that opened were sealed under one key, so none opened
      twice. */
  lemma OpenedWasSentOnce(dhs: seq<DhOutput>, spkId: nat, ratchetId: nat, ids: set<nat>, moves: seq<Move>, last: Duel,
                          side: Side, i: nat)
    requires Unrolls(Opening(dhs, spkId, ratchetId), ids, moves, last) && !Known({}, ids, X3dhSecret(dhs))
    requires i < |last.At(side).admitted|
    ensures last.At(side).admitted[i].Sealed?
    ensures exists j :: 0 <= j < |last.At(Other(side)).outbox|
              && last.At(Other(side)).outbox[j].ciphertext == last.At(side).admitted[i]
              && last.At(Other(side)).outbox[j].plaintext == last.At(side).admitted[i].plaintext
    ensures forall j :: 0 <= j < |last.At(side).admitted| && j != i
              ==> last.At(side).admitted[j].Sealed? && last.At(side).admitted[j].key != last.At(side).admitted[i].key
  {
    OpeningOk(dhs, spkId, ratchetId);
    MovesKeep(Opening(dhs, spkId, ratchetId), ids, dhs, moves, last);
    var peer := last.At(Other(side)).outbox;
    assert AllSentBy(last.At(side).admitted, peer) && WasSent(peer, last.At(side).admitted[i]);
    var j :| 0 <= j < |peer| && peer[j].ciphertext == last.At(side).admitted[i];
    assert peer[j].plaintext == last.At(side).admitted[i].plaintext;
  }
}
