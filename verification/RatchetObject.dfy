/** The mutable Double Ratchet object. Every method is proved against the function
    of the same name in module Ratchet. */
module RatchetObject {
  import opened Basics
  import opened Keys
  import Ratchet

  class RatchetState {
    var dhSelfSecret: SecretKey
    var dhSelfPublic: PublicKey
    var dhRemote: Option<PublicKey>
    var rootKey: Key
    var chainKeySend: Option<Key>
    var msgNumSend: u32
    var chainKeyRecv: Option<Key>
    var msgNumRecv: u32
    var prevChainLen: u32
    var skippedKeys: map<(PublicKey, u32), Key>

    function View(): Ratchet.State
      reads this
    {
      Ratchet.State(dhSelfSecret, dhSelfPublic, dhRemote, rootKey, chainKeySend, msgNumSend,
            chainKeyRecv, msgNumRecv, prevChainLen, skippedKeys)
    }

    constructor InitAlice(shared: Key, bobPublic: PublicKey, newSecret: SecretKey)
      ensures View() == Ratchet.InitAlice(shared, bobPublic, newSecret)
    {
      var dh := Dh(newSecret, bobPublic);
      dhSelfSecret, dhSelfPublic := newSecret, PublicOf(newSecret);
      dhRemote := Some(bobPublic);
      rootKey, chainKeySend := RootKey(shared, dh), Some(ChainKey(shared, dh));
      chainKeyRecv := None;
      msgNumSend, msgNumRecv, prevChainLen := 0, 0, 0;
      skippedKeys := map[];
    }

    constructor InitBob(shared: Key, spkSecret: SecretKey, spkPublic: PublicKey)
      ensures View() == Ratchet.InitBob(shared, spkSecret, spkPublic)
    {
      dhSelfSecret, dhSelfPublic := spkSecret, spkPublic;
      dhRemote := None;
      rootKey, chainKeySend, chainKeyRecv := shared, None, None;
      msgNumSend, msgNumRecv, prevChainLen := 0, 0, 0;
      skippedKeys := map[];
    }

    method Encrypt(plaintext: seq<byte>) returns (r: Result<(Ratchet.Header, Ciphertext), Ratchet.Error>)
      modifies this
      ensures (View(), r) == Ratchet.Encrypt(old(View()), plaintext)
    {
      if chainKeySend.None? {
        return Err(Ratchet.NoSendChain);
      }
      var msgKey := MessageKey(chainKeySend.value);
      chainKeySend := Some(NextChainKey(chainKeySend.value));
      var header := Ratchet.Header(dhSelfPublic, prevChainLen, msgNumSend);
      msgNumSend := Wrap32(msgNumSend + 1);
      r := Ok((header, AeadEncrypt(msgKey, NonceFrom(msgKey), plaintext)));
    }

    method Decrypt(header: Ratchet.Header, ciphertext: Ciphertext, newSecret: SecretKey)
      returns (r: Result<seq<byte>, Ratchet.Error>)
      modifies this
      ensures (View(), r) == Ratchet.Decrypt(old(View()), header, ciphertext, newSecret)
    {
      var slot := (header.dhPublic, header.msgNum);
      if slot in skippedKeys {
        var mk := skippedKeys[slot];
        skippedKeys := skippedKeys - {slot};
        return Ratchet.OpenWith(mk, ciphertext);
      }
      if dhRemote != Some(header.dhPublic) {
        var flushed := SkipMessages(header.prevChainLen);
        if flushed.Some? {
          return Err(flushed.value);
        }
        DhRatchet(header.dhPublic, newSecret);
      }
      var caughtUp := SkipMessages(header.msgNum);
      if caughtUp.Some? {
        return Err(caughtUp.value);
      }
      if chainKeyRecv.None? {
        return Err(Ratchet.NoRecvChain);
      }
      var msgKey := MessageKey(chainKeyRecv.value);
      chainKeyRecv := Some(NextChainKey(chainKeyRecv.value));
      msgNumRecv := Wrap32(msgNumRecv + 1);
      r := Ratchet.OpenWith(msgKey, ciphertext);
    }

    method DhRatchet(newRemote: PublicKey, newSecret: SecretKey)
      modifies this
      ensures View() == Ratchet.DhRatchet(old(View()), newRemote, newSecret)
    {
      prevChainLen := msgNumSend;
      msgNumSend, msgNumRecv := 0, 0;
      dhRemote := Some(newRemote);
      var dhRecv := Dh(dhSelfSecret, newRemote);
      chainKeyRecv := Some(ChainKey(rootKey, dhRecv));
      rootKey := RootKey(rootKey, dhRecv);
      dhSelfSecret, dhSelfPublic := newSecret, PublicOf(newSecret);
      var dhSend := Dh(dhSelfSecret, newRemote);
      chainKeySend := Some(ChainKey(rootKey, dhSend));
      rootKey := RootKey(rootKey, dhSend);
    }

    /** Returns the error, if any; an error leaves the object as it was. */
    method SkipMessages(until: u32) returns (error: Option<Ratchet.Error>)
      modifies this
      ensures match Ratchet.SkipMessages(old(View()), until)
              case Err(e) => error == Some(e) && View() == old(View())
              case Ok(st) => error == None && View() == st
    {
      if chainKeyRecv.None? {
        return None;
      }
      if Wrap32(msgNumRecv + Ratchet.MAX_SKIP) < until {
        return Some(Ratchet.TooManySkipped);
      }
      if dhRemote.None? {
        return None;
      }
      var remote, currentChain := dhRemote.value, chainKeyRecv.value;
      ghost var from, keys := msgNumRecv, skippedKeys;
      while msgNumRecv < until
        invariant from <= msgNumRecv <= (if from <= until then until else from)
        invariant View() == old(View()).(msgNumRecv := msgNumRecv, skipped := skippedKeys)
        invariant currentChain == Advance(chainKeyRecv.value, msgNumRecv - from)
        invariant skippedKeys == Ratchet.StoreKeys(keys, remote, chainKeyRecv.value, from, msgNumRecv)
      {
        skippedKeys := skippedKeys[(remote, msgNumRecv) := MessageKey(currentChain)];
        currentChain := NextChainKey(currentChain);
        msgNumRecv := msgNumRecv + 1;
      }
      Ratchet.StoreKeysIsRange(keys, remote, chainKeyRecv.value, from, msgNumRecv);
      chainKeyRecv := Some(currentChain);
      error := None;
    }
  }
}
