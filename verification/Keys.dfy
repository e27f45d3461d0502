/** Secrets as symbolic terms. A derived key equals another only when it was
    derived in the same way, a Diffie-Hellman output is the unordered pair of the
    two key identities, and a ciphertext opens only under its own key and nonce. */
module Keys {
  import opened Basics

  datatype SecretKey = Secret(id: nat)

  datatype PublicKey = Public(id: nat)

  datatype DhOutput = DhOutput(lo: nat, hi: nat)

  function PublicOf(secret: SecretKey): PublicKey {
    Public(secret.id)
  }

  function DhOfIds(a: nat, b: nat): DhOutput {
    if a <= b then DhOutput(a, b) else DhOutput(b, a)
  }

  function Dh(ours: SecretKey, theirs: PublicKey): DhOutput {
    DhOfIds(ours.id, theirs.id)
  }

  datatype Key =
    | X3dhSecret(dhs: seq<DhOutput>)
    | RootKey(root: Key, dh: DhOutput)
    | ChainKey(root: Key, dh: DhOutput)
    | NextChainKey(chain: Key)
    | MessageKey(chain: Key)

  /** The chain key n steps along a message chain. */
  function Advance(chain: Key, n: nat): Key {
    if n == 0 then chain else NextChainKey(Advance(chain, n - 1))
  }

  lemma {:induction false} AdvanceAdds(chain: Key, m: nat, n: nat)
    ensures Advance(Advance(chain, m), n) == Advance(chain, m + n)
    decreases n
  {
    if n > 0 {
      AdvanceAdds(chain, m, n - 1);
    }
  }

  datatype Nonce = NonceFrom(key: Key)

  datatype Ciphertext =
    | Sealed(key: Key, nonce: Nonce, plaintext: seq<byte>)
    | Garbage(bytes: seq<byte>)

  function AeadEncrypt(key: Key, nonce: Nonce, plaintext: seq<byte>): Ciphertext {
    Sealed(key, nonce, plaintext)
  }

  function AeadDecrypt(key: Key, nonce: Nonce, ct: Ciphertext): Option<seq<byte>> {
    if ct.Sealed? && ct.key == key && ct.nonce == nonce then Some(ct.plaintext) else None
  }
}
