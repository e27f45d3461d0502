/** The Double Ratchet state of one peer as a value, with every operation on it. */
module Ratchet {
  import opened Basics
  import opened Keys

  const MAX_SKIP: u32 := 256

  datatype Header = Header(dhPublic: PublicKey, prevChainLen: u32, msgNum: u32)

  datatype Error = NoSendChain | NoRecvChain | TooManySkipped | DecryptionFailed

  datatype State = State(
    selfSecret: SecretKey,
    selfPublic: PublicKey,
    remote: Option<PublicKey>,
    root: Key,
    chainSend: Option<Key>,
    msgNumSend: u32,
    chainRecv: Option<Key>,
    msgNumRecv: u32,
    prevChainLen: u32,
    skipped: map<(PublicKey, u32), Key>)

  function InitAlice(shared: Key, bobPublic: PublicKey, newSecret: SecretKey): State {
    var dh := Dh(newSecret, bobPublic);
    State(newSecret, PublicOf(newSecret), Some(bobPublic), RootKey(shared, dh),
          Some(ChainKey(shared, dh)), 0, None, 0, 0, map[])
  }

  function InitBob(shared: Key, spkSecret: SecretKey, spkPublic: PublicKey): State {
    State(spkSecret, spkPublic, None, shared, None, 0, None, 0, 0, map[])
  }

  function Encrypt(st: State, plaintext: seq<byte>): (State, Result<(Header, Ciphertext), Error>) {
    match st.chainSend
    case None => (st, Err(NoSendChain))
    case Some(ck) =>
      var mk := MessageKey(ck);
      (st.(chainSend := Some(NextChainKey(ck)), msgNumSend := Wrap32(st.msgNumSend + 1)),
       Ok((Header(st.selfPublic, st.prevChainLen, st.msgNumSend),
           AeadEncrypt(mk, NonceFrom(mk), plaintext))))
  }

  /** The keys of messages from (inclusive) to until (exclusive) of the chain whose
      message number `from` is keyed by `chain`. */
  function SkippedRange(remote: PublicKey, chain: Key, from: u32, until: u32): map<(PublicKey, u32), Key> {
    map n: u32 | from <= n < until :: (remote, n) := MessageKey(Advance(chain, n - from))
  }

  /** The same keys stored one at a time. */
  function StoreKeys(base: map<(PublicKey, u32), Key>, remote: PublicKey, chain: Key, from: u32, until: u32)
    : map<(PublicKey, u32), Key>
    requires from <= until
    decreases until
  {
    if from == until then base
    else
      var n := until - 1;
      StoreKeys(base, remote, chain, from, n)[(remote, n) := MessageKey(Advance(chain, n - from))]
  }

  lemma {:induction false} StoreKeysIsRange(base: map<(PublicKey, u32), Key>, remote: PublicKey, chain: Key,
                                            from: u32, until: u32)
    requires from <= until
    ensures StoreKeys(base, remote, chain, from, until) == base + SkippedRange(remote, chain, from, until)
    decreases until
  {
    if from == until {
      StoreNone(base, remote, chain, from);
    } else {
      StoreKeysIsRange(base, remote, chain, from, until - 1);
      StoreOneMore(base, StoreKeys(base, remote, chain, from, until - 1), remote, chain, from, until - 1, until);
    }
  }

  lemma StoreOneMore(base: map<(PublicKey, u32), Key>, before: map<(PublicKey, u32), Key>, remote: PublicKey,
                     chain: Key, from: u32, n: u32, next: u32)
    requires from <= n && next == n + 1 && before == base + SkippedRange(remote, chain, from, n)
    ensures before[(remote, n) := MessageKey(Advance(chain, n - from))]
         == base + SkippedRange(remote, chain, from, next)
  {
    var mk, more := MessageKey(Advance(chain, n - from)), SkippedRange(remote, chain, from, n);
    SkippedRangeGrows(remote, chain, from, n);
    MergeUpdate(base, more, (remote, n), mk);
  }

  lemma StoreNone(base: map<(PublicKey, u32), Key>, remote: PublicKey, chain: Key, from: u32)
    ensures base == base + SkippedRange(remote, chain, from, from)
  {
    SkippedRangeEmpty(remote, chain, from);
    MergeEmpty(base);
  }

  lemma SkippedRangeEmpty(remote: PublicKey, chain: Key, from: u32)
    ensures SkippedRange(remote, chain, from, from) == map[]
  {
  }

  lemma MergeEmpty<K, V>(base: map<K, V>)
    ensures base + map[] == base
  {
  }

  lemma MergeUpdate<K, V>(base: map<K, V>, more: map<K, V>, k: K, v: V)
    ensures base + more[k := v] == (base + more)[k := v]
  {
  }

  lemma SkippedRangeGrows(remote: PublicKey, chain: Key, from: u32, until: u32)
    requires from <= until < U32_MAX
    ensures SkippedRange(remote, chain, from, until + 1)
         == SkippedRange(remote, chain, from, until)[(remote, until) := MessageKey(Advance(chain, until - from))]
  {
    var small, large := SkippedRange(remote, chain, from, until), SkippedRange(remote, chain, from, until + 1);
    assert large.Keys == small.Keys + {(remote, until)};
  }

  /** Would skip_messages refuse to store this many keys? */
  predicate TooFar(st: State, until: u32) {
    st.chainRecv.Some? && Wrap32(st.msgNumRecv + MAX_SKIP) < until
  }

  function SkipMessages(st: State, until: u32): Result<State, Error> {
    if st.chainRecv.None? then Ok(st)
    else if TooFar(st, until) then Err(TooManySkipped)
    else if st.remote.None? || until <= st.msgNumRecv then Ok(st)
    else
      Ok(st.(skipped := st.skipped + SkippedRange(st.remote.value, st.chainRecv.value, st.msgNumRecv, until),
             chainRecv := Some(Advance(st.chainRecv.value, until - st.msgNumRecv)),
             msgNumRecv := until))
  }

  function DhRatchet(st: State, newRemote: PublicKey, newSecret: SecretKey): State {
    var dhRecv := Dh(st.selfSecret, newRemote);
    var midRoot := RootKey(st.root, dhRecv);
    var dhSend := Dh(newSecret, newRemote);
    State(newSecret, PublicOf(newSecret), Some(newRemote), RootKey(midRoot, dhSend),
          Some(ChainKey(midRoot, dhSend)), 0,
          Some(ChainKey(st.root, dhRecv)), 0, st.msgNumSend, st.skipped)
  }

  predicate NeedsRatchet(st: State, h: Header) {
    st.remote != Some(h.dhPublic)
  }

  function OpenWith(mk: Key, ct: Ciphertext): Result<seq<byte>, Error> {
    var plain := AeadDecrypt(mk, NonceFrom(mk), ct);
    if plain.Some? then Ok(plain.value) else Err(DecryptionFailed)
  }

  /** The second half of decrypt: catch up in the receiving chain and open one message. */
  function Receive(st: State, h: Header, ct: Ciphertext): (State, Result<seq<byte>, Error>) {
    var caughtUp := SkipMessages(st, h.msgNum);
    if caughtUp.Err? then (st, Err(caughtUp.error))
    else if caughtUp.value.chainRecv.None? then (caughtUp.value, Err(NoRecvChain))
    else
      var s := caughtUp.value;
      var ck := s.chainRecv.value;
      (s.(chainRecv := Some(NextChainKey(ck)), msgNumRecv := Wrap32(s.msgNumRecv + 1)),
       OpenWith(MessageKey(ck), ct))
  }

  /** `newSecret` is the key pair that a Diffie-Hellman step would generate. */
  function Decrypt(st: State, h: Header, ct: Ciphertext, newSecret: SecretKey): (State, Result<seq<byte>, Error>) {
    var slot := (h.dhPublic, h.msgNum);
    if slot in st.skipped then
      (st.(skipped := st.skipped - {slot}), OpenWith(st.skipped[slot], ct))
    else if NeedsRatchet(st, h) then
      var flushed := SkipMessages(st, h.prevChainLen);
      if flushed.Err? then (st, Err(flushed.error))
      else Receive(DhRatchet(flushed.value, h.dhPublic, newSecret), h, ct)
    else Receive(st, h, ct)
  }

  /** When a failed decrypt leaves the state as it was: exactly when it stops before
      any key is used up, that is, at a skip limit with no Diffie-Hellman step taken,
      or for want of a receiving chain. Every other failure alters the state. */
  predicate StopsEarly(st: State, h: Header) {
    && (h.dhPublic, h.msgNum) !in st.skipped
    && if NeedsRatchet(st, h) then TooFar(st, h.prevChainLen)
       else TooFar(st, h.msgNum) || st.chainRecv.None?
  }

  lemma FailureUnchangedIff(st: State, h: Header, ct: Ciphertext, newSecret: SecretKey)
    requires Decrypt(st, h, ct, newSecret).1.Err?
    ensures Decrypt(st, h, ct, newSecret).0 == st <==> StopsEarly(st, h)
  {
  }
}
