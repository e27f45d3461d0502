/** X3DH key agreement and the end-to-end session it starts. */
module Handshake {
  import opened Basics
  import opened Keys
  import Ratchet
  import RatchetObject
  import RatchetSystem
  import RatchetCorrectness

  datatype Keypair = Keypair(secret: SecretKey) {
    function public(): PublicKey {
      PublicOf(secret)
    }
  }

  datatype PrivateKeys = PrivateKeys(identity: Keypair, signedPrekey: Keypair, oneTimePrekeys: seq<Keypair>) {
    function PublicKeys(): PublicBundle {
      PublicBundle(identity.public(), signedPrekey.public(),
                   seq(|oneTimePrekeys|, i requires 0 <= i < |oneTimePrekeys| => oneTimePrekeys[i].public()))
    }
  }

  datatype PublicBundle = PublicBundle(identity: PublicKey, signedPrekey: PublicKey, oneTimePrekeys: seq<PublicKey>)

  datatype InitialMessage = InitialMessage(aliceIdentity: PublicKey, aliceEphemeral: PublicKey, opkIndex: Option<u32>)

  function First<T>(xs: seq<T>): Option<T> {
    if xs == [] then None else Some(xs[0])
  }

  function At<T>(xs: seq<T>, i: nat): Option<T> {
    if i < |xs| then Some(xs[i]) else None
  }

  /** Alice's side of X3DH; `ephemeral` is the key pair she draws for it. */
  function Initiate(alice: Keypair, ephemeral: SecretKey, bobIdentity: PublicKey, bobSpk: PublicKey,
                    bobOpk: Option<PublicKey>): Key
  {
    var dhs := [Dh(alice.secret, bobSpk), Dh(ephemeral, bobIdentity), Dh(ephemeral, bobSpk)];
    X3dhSecret(if bobOpk.Some? then dhs + [Dh(ephemeral, bobOpk.value)] else dhs)
  }

  /** Bob's side of X3DH. */
  function Respond(bobIdentity: Keypair, bobSpk: Keypair, bobOpk: Option<Keypair>,
                   aliceIdentity: PublicKey, aliceEphemeral: PublicKey): Key
  {
    var dhs := [Dh(bobSpk.secret, aliceIdentity), Dh(bobIdentity.secret, aliceEphemeral),
                Dh(bobSpk.secret, aliceEphemeral)];
    X3dhSecret(if bobOpk.Some? then dhs + [Dh(bobOpk.value.secret, aliceEphemeral)] else dhs)
  }

  function InitiateSecret(alice: PrivateKeys, ephemeral: SecretKey, bob: PublicBundle): Key {
    Initiate(alice.identity, ephemeral, bob.identity, bob.signedPrekey, First(bob.oneTimePrekeys))
  }

  function FirstMessage(alice: PrivateKeys, ephemeral: SecretKey, bob: PublicBundle): InitialMessage {
    InitialMessage(alice.identity.public(), PublicOf(ephemeral), if bob.oneTimePrekeys == [] then None else Some(0))
  }

  function RespondSecret(bob: PrivateKeys, msg: InitialMessage): Key {
    var opk := if msg.opkIndex.Some? then At(bob.oneTimePrekeys, msg.opkIndex.value) else None;
    Respond(bob.identity, bob.signedPrekey, opk, msg.aliceIdentity, msg.aliceEphemeral)
  }

  /** Does the bundle Alice used still match the private keys Bob answers with? */
  predicate BundleMatches(bundle: PublicBundle, bob: PrivateKeys) {
    && bundle.identity == bob.identity.public()
    && bundle.signedPrekey == bob.signedPrekey.public()
    && (bundle.oneTimePrekeys == []
        || (bob.oneTimePrekeys != [] && bundle.oneTimePrekeys[0] == bob.oneTimePrekeys[0].public()))
  }

  /** What goes into the secret, in order: identity key against signed prekey, ephemeral key
      against identity key, ephemeral key against signed prekey, and ephemeral key against
      the first one-time prekey if there is one. */
  lemma SecretIsOf(alice: PrivateKeys, ephemeral: SecretKey, bundle: PublicBundle)
    ensures InitiateSecret(alice, ephemeral, bundle).X3dhSecret?
    ensures var dhs := InitiateSecret(alice, ephemeral, bundle).dhs;
      && |dhs| == (if bundle.oneTimePrekeys == [] then 3 else 4)
      && dhs[0] == DhOfIds(alice.identity.secret.id, bundle.signedPrekey.id)
      && dhs[1] == DhOfIds(ephemeral.id, bundle.identity.id)
      && dhs[2] == DhOfIds(ephemeral.id, bundle.signedPrekey.id)
      && (bundle.oneTimePrekeys != [] ==> dhs[3] == DhOfIds(ephemeral.id, bundle.oneTimePrekeys[0].id))
  {
  }

  /** The same on the other side, of any message whatever: the prekey is the one the message
      names, if there is one at that place. */
  lemma ResponseIsOf(bob: PrivateKeys, msg: InitialMessage)
    ensures RespondSecret(bob, msg).X3dhSecret?
    ensures var dhs, keys := RespondSecret(bob, msg).dhs, bob.oneTimePrekeys;
      var used := msg.opkIndex.Some? && msg.opkIndex.value < |keys|;
      && |dhs| == (if used then 4 else 3)
      && dhs[0] == DhOfIds(bob.signedPrekey.secret.id, msg.aliceIdentity.id)
      && dhs[1] == DhOfIds(bob.identity.secret.id, msg.aliceEphemeral.id)
      && dhs[2] == DhOfIds(bob.signedPrekey.secret.id, msg.aliceEphemeral.id)
      && (used ==> dhs[3] == DhOfIds(keys[msg.opkIndex.value].secret.id, msg.aliceEphemeral.id))
  {
  }

  lemma SharedEndCancels(a: nat, b: nat, c: nat)
    requires DhOfIds(a, b) == DhOfIds(c, a)
    ensures b == c
  {
  }

  /** The two sides derive one secret exactly when the bundle matches; any other bundle,
      stale or foreign, leaves them with different secrets. */
  lemma SecretsAgreeIff(alice: PrivateKeys, ephemeral: SecretKey, bundle: PublicBundle, bob: PrivateKeys)
    ensures InitiateSecret(alice, ephemeral, bundle) == RespondSecret(bob, FirstMessage(alice, ephemeral, bundle))
       <==> BundleMatches(bundle, bob)
  {
    var k, l := InitiateSecret(alice, ephemeral, bundle), RespondSecret(bob, FirstMessage(alice, ephemeral, bundle));
    if k == l {
      SharedEndCancels(alice.identity.secret.id, bundle.signedPrekey.id, bob.signedPrekey.secret.id);
      assert k.dhs[0] == l.dhs[0] && k.dhs[1] == l.dhs[1] && |k.dhs| == |l.dhs|;
      SharedEndCancels(ephemeral.id, bundle.identity.id, bob.identity.secret.id);
      if bundle.oneTimePrekeys != [] {
        assert k.dhs[3] == l.dhs[3];
        SharedEndCancels(ephemeral.id, bundle.oneTimePrekeys[0].id, bob.oneTimePrekeys[0].secret.id);
      }
    }
  }

  /** For every pair of key sets, with one-time prekeys or without: initiating against
      Bob's published keys and responding to the message gives a synchronised pair. */
  lemma HandshakeSynchronises(alice: PrivateKeys, ephemeral: SecretKey, bob: PrivateKeys, ratchetKey: SecretKey,
                              issued: set<nat>)
    returns (h: RatchetSystem.History)
    requires ratchetKey != bob.signedPrekey.secret
    ensures var bundle := bob.PublicKeys();
      var a := Ratchet.InitAlice(InitiateSecret(alice, ephemeral, bundle), bundle.signedPrekey, ratchetKey);
      var b := Ratchet.InitBob(RespondSecret(bob, FirstMessage(alice, ephemeral, bundle)),
                               bob.signedPrekey.secret, bob.signedPrekey.public());
      RatchetSystem.Synchronised(
        RatchetSystem.System(RatchetSystem.Party(a, [], {}, {}), RatchetSystem.Party(b, [], {}, {}),
                             issued + {bob.signedPrekey.secret.id, ratchetKey.id}), h)
  {
    var bundle := bob.PublicKeys();
    SecretsAgreeIff(alice, ephemeral, bundle, bob);
    var shared := InitiateSecret(alice, ephemeral, bundle);
    h := RatchetSystem.StartSynchronised(shared, bob.signedPrekey.secret.id, ratchetKey.id, issued);
  }

  class E2eSession {
    var ratchet: RatchetObject.RatchetState
    var peerIdentity: PublicKey

    constructor Initiator(shared: Key, bob: PublicBundle, ratchetKey: SecretKey)
      ensures fresh(ratchet) && peerIdentity == bob.identity
      ensures ratchet.View() == Ratchet.InitAlice(shared, bob.signedPrekey, ratchetKey)
    {
      ratchet := new RatchetObject.RatchetState.InitAlice(shared, bob.signedPrekey, ratchetKey);
      peerIdentity := bob.identity;
    }

    /** The session, and the message that lets Bob start his. `ephemeral` and `ratchetKey`
        are the key pairs drawn along the way. */
    static method Initiate(alice: PrivateKeys, bob: PublicBundle, ephemeral: SecretKey, ratchetKey: SecretKey)
        returns (session: E2eSession, msg: InitialMessage)
      ensures fresh(session) && fresh(session.ratchet) && session.peerIdentity == bob.identity
      ensures session.ratchet.View()
           == Ratchet.InitAlice(InitiateSecret(alice, ephemeral, bob), bob.signedPrekey, ratchetKey)
      ensures msg == FirstMessage(alice, ephemeral, bob)
    {
      var opk := First(bob.oneTimePrekeys);
      var opkIndex: Option<u32> := if opk.Some? then Some(0) else None;
      var shared := InitiateSecret(alice, ephemeral, bob);
      session := new E2eSession.Initiator(shared, bob, ratchetKey);
      msg := InitialMessage(alice.identity.public(), PublicOf(ephemeral), opkIndex);
    }

    constructor Respond(bob: PrivateKeys, msg: InitialMessage)
      ensures fresh(ratchet) && peerIdentity == msg.aliceIdentity
      ensures ratchet.View()
           == Ratchet.InitBob(RespondSecret(bob, msg), bob.signedPrekey.secret, bob.signedPrekey.public())
    {
      var shared := RespondSecret(bob, msg);
      ratchet := new RatchetObject.RatchetState.InitBob(shared, bob.signedPrekey.secret, bob.signedPrekey.public());
      peerIdentity := msg.aliceIdentity;
    }

    method Encrypt(plaintext: seq<byte>) returns (r: Result<(Ratchet.Header, Ciphertext), Ratchet.Error>)
      modifies ratchet
      ensures (ratchet.View(), r) == Ratchet.Encrypt(old(ratchet.View()), plaintext)
    {
      r := ratchet.Encrypt(plaintext);
    }

    method Decrypt(header: Ratchet.Header, ciphertext: Ciphertext, newSecret: SecretKey)
      returns (r: Result<seq<byte>, Ratchet.Error>)
      modifies ratchet
      ensures (ratchet.View(), r) == Ratchet.Decrypt(old(ratchet.View()), header, ciphertext, newSecret)
    {
      r := ratchet.Decrypt(header, ciphertext, newSecret);
    }
  }
}
