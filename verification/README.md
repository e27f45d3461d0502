# Sanctum: a verified model

Sanctum is an end-to-end encrypted group chat that runs over a relay hosted by one of its
members. This project models its protocol core in Dafny and proves what that core promises.
Run `dafny verify dfyconfig.toml` to check all of it.

## How it is laid out

| modules | part of the system |
|---|---|
| `Basics`, `Bytes`, `Filters`, `Members`, `Keys` | fixed-width integers, big-endian numbers, filtered sequences, fingerprints and roles, secrets as symbolic terms |
| `Ratchet`, `RatchetObject` | the Double Ratchet state: its transitions as functions, and the object that performs them in place |
| `RatchetSystem`, `RatchetCorrectness` | two peers and a network as a state machine, the joint invariant, correctness over every run |
| `RatchetSecrecy`, `RatchetRecovery`, `RatchetAuthenticity`, `RatchetDuplicates` | key uniqueness, forward secrecy, recovery from a break-in, authenticity against a forging network, and what a second copy of a message does |
| `Handshake` | X3DH and the session it starts |
| `Bitmap`, `Session` | the 64-bit anti-replay window against an unbounded set |
| `MessageService`, `GuardedSystem` | one window per sender, and the composition of window and ratchet on a network that duplicates |
| `Codec`, `Transport`, `NoiseLink` | framing over a stream cut anywhere, buffered transports, and the cipher counters of the Noise layer |
| `Room`, `Auth` | membership, and challenge-response bookkeeping |
| `HostService`, `HostRelay`, `RelayMembership`, `RelayAdmission`, `RelayDelivery` | the registry of clients, the relay as interleaved tasks, who may register, who is served, and who a message reaches |
| `Backlog`, `SqlBacklog`, `BacklogAgreement`, `BacklogFetch` | the two message stores, and when they keep and return the same |
| `Invite` | the bytes of an invite that are signed |

Objects that the source changes in place are classes. Each method is proved equal to a
specification function of the old state, and what the system promises is proved of those
functions over every run. The tasks of the relay are steps of a state machine: each block
that the source runs under a lock is one step, and the steps of all tasks interleave freely.

Secrets are terms: a key is known only by how it was derived, a Diffie-Hellman output is an
unordered pair of key identifiers, and a ciphertext opens only under the key and nonce it
was sealed with. Clocks, generated keys and nonces, the pieces that reads return and the
order in which a hash map lists its entries are parameters that a theorem quantifies over.

## Where the code does less than it promises

The model follows the code, and where a promise fails the exact condition under which it
holds is proved.

- Section 3.5 of Signal's "The Double Ratchet Algorithm" discards all changes when a
  message cannot be authenticated. This code does not: `Ratchet.FailureUnchangedIff` says
  when a failure leaves the state alone. A second copy of a message therefore does harm: it
  makes the next message unreadable (`RatchetDuplicates.CopyCostsTheNext`) or takes the
  ratchet back to a stale key, so that nothing sent so far opens any more unless its key is
  stored (`RatchetDuplicates.SteppingBackInEveryRun`, `RatchetDuplicates.CopyStepsBack`).
- The replay check would keep second copies away from the ratchet if it stood in front of
  it: that is what `GuardedSystem` proves of the two components put together. The program
  does not put them together. No code outside tests calls `process_received`, and the chat
  loop decrypts every room message unchecked
  (`crates/sanctum-cli/src/commands/chat_loop.rs` line 287), so what `RatchetDuplicates`
  says applies to it.
- `docs/protocol.md` line 191 speaks of a 32-message window; the code's window is 64.
- No two active members are supposed to share a fingerprint. Revoking, adding and adding
  again breaks this (`Room.DuplicateAfterRevoke`, `Room.AddKeepsUniqueIff`). On the runs of
  the host it holds (`RelayMembership.CheckedAgainstAuthorized`).
- Three failures lock a key, but not for ever: the 32-bit counter wraps
  (`Auth.RefusedExactly`, `Auth.LockReopens`). A build with overflow checks panics there.
- The clean-up of an old connection unregisters a newer one of the same client
  (`RelayDelivery.StaleCleanup`, `RelayDelivery.StaysRegisteredIff`).
- The memory evicts the oldest message of a room, the table the one with the lowest
  sequence number. These are the same only while the messages cut off have lower numbers
  than those kept (`BacklogAgreement.RetainedAgreeIff`): not with two senders, who count
  independently (`BacklogAgreement.TwoSendersDisagree`), nor, for some ways of breaking
  ties, with one message stored for two recipients. A bound of zero keeps one message in
  memory and none in the table. Numbers and times from 2^63 on are negative in the table
  (`BacklogFetch.FetchedAgreeIff`, `BacklogAgreement.PurgedAgreeIff`).
- The signed bytes of an invite do not determine it when addresses may contain the
  separator (`Invite.Collision`, `Invite.DeterminedIff`).

## Model

| member | source | states |
|---|---|---|
| `RatchetCorrectness.EveryDeliveryIsGenuine` | crates/sanctum-crypto/src/ratchet.rs:112-280 | After any run of two peers, with messages lost and reordered at will and each delivered at most once, the peers are synchronised, and every delivery returns exactly the plaintext sent or the too-many-skipped error, each exactly when the skip limit says so |
| `RatchetCorrectness.StepKeepsSync` | crates/sanctum-crypto/src/ratchet.rs:157-280 | One send or one delivery, successful or refused, keeps the joint invariant: epochs alternate, each side knows the root of its own epoch, every stored key is the key of its slot, every passed and undelivered message has its key stored |
| `RatchetCorrectness.RunKeepsSync` | crates/sanctum-crypto/src/ratchet.rs:157-280 | The joint invariant holds along every run |
| `RatchetCorrectness.DeliverKeepsPair` | crates/sanctum-crypto/src/ratchet.rs:184-280 | A delivery in any of its four cases (stored key, current chain, new ratchet key, refused) leaves both halves of the pair consistent, the refused ones included, where the ratchet step has already been taken |
| `RatchetSystem.StartSynchronised` | crates/sanctum-crypto/src/ratchet.rs:112-154 | The starting states of the two roles satisfy the joint invariant, for any shared secret |
| `RatchetSecrecy.ForwardSecrecy` | crates/sanctum-crypto/src/ratchet.rs:157-249 | Over every run: no key used to encrypt or to decrypt can be derived, by chain and root steps and with every Diffie-Hellman output known, from what its user still holds; the key of every message not yet delivered can |
| `RatchetSecrecy.SentKeyIsGone` | crates/sanctum-crypto/src/ratchet.rs:157-181 | A key used to encrypt cannot be derived again by its sender |
| `RatchetSecrecy.AcceptedKeyIsGone` | crates/sanctum-crypto/src/ratchet.rs:184-221 | A key used to decrypt, stored or not, cannot be derived again by its receiver |
| `RatchetSecrecy.UndeliveredKeyIsReachable` | crates/sanctum-crypto/src/ratchet.rs:184-280 | The key of every message that may still arrive is within reach of the receiver |
| `RatchetSecrecy.NoKeyIsReused` | crates/sanctum-crypto/src/ratchet.rs:98-106 | Over every run no two messages, of either side, have the same message key, hence none the same key and nonce |
| `RatchetRecovery.BreakInRecovery` | crates/sanctum-crypto/src/ratchet.rs:224-249 | An intruder learns all that both peers hold at some point of a run, and every secret key drawn so far. The key of a message sent later can be worked out from that exactly when the sender's ratchet key, or the peer's key it answers, was drawn before: once both have drawn new ones, messages are secret again |
| `RatchetAuthenticity.OpenedWasSentOnce` | crates/sanctum-crypto/src/ratchet.rs:157-280 | Over every run against an intruder who is the network and does not know the session secret, whatever he forges, copies, redirects or relabels: each ciphertext that opened was sent by the peer in this session, and none opened twice |
| `RatchetAuthenticity.OpensOnlySealed` | crates/sanctum-crypto/src/ratchet.rs:184-221 | For every state, header and ciphertext: what opens was sealed, under a key that the state can derive and with the nonce of that key, and what comes out is what was sealed |
| `RatchetAuthenticity.DecryptKeepsSound` | crates/sanctum-crypto/src/ratchet.rs:184-280 | Under any input no used key ever comes back: what opens was sealed under a key of the session that had not been used and now has |
| `RatchetAuthenticity.ErrorsExactly` | crates/sanctum-crypto/src/ratchet.rs:184-221 | Which error any message at all gives: more than 256 keys missing at the end of the old chain or in front of it, no chain yet, or else a failed decryption |
| `RatchetAuthenticity.StateIgnoresCiphertext` | crates/sanctum-crypto/src/ratchet.rs:184-221 | What becomes of the state does not depend on the ciphertext, forged or genuine |
| `RatchetAuthenticity.EncryptExactly` | crates/sanctum-crypto/src/ratchet.rs:157-181 | Encryption fails exactly before the first sending chain is known; the header carries the present key and both counters, the ciphertext the key the chain was at |
| `RatchetDuplicates.DuplicateFailsInEveryRun` | crates/sanctum-crypto/src/ratchet.rs:184-221 | In every run a second copy of a message that was opened, of whatever epoch, fails, and leaves the state as it was exactly when it stops at a skip limit before any step |
| `RatchetDuplicates.SteppingBackInEveryRun` | crates/sanctum-crypto/src/ratchet.rs:199-208 | In every run a second copy that belongs to an earlier key of the peer, unless the skip limit stops it, takes the ratchet back to that key with a root nobody else has, and nothing the peer has sent so far opens any more, except with a stored key |
| `RatchetDuplicates.CopyStepsBack` | crates/sanctum-crypto/src/ratchet.rs:199-208 | A run in which a second copy steps back: Alice writes, Bob answers, Alice writes again |
| `RatchetDuplicates.DuplicateMovesChain` | crates/sanctum-crypto/src/ratchet.rs:212-220 | A second copy from the current receiving chain fails and still uses up the next key of the chain; copies from earlier chains are the business of the rows above |
| `RatchetDuplicates.DuplicateCostsAMessage` | crates/sanctum-crypto/src/ratchet.rs:212-220 | After it the next genuine message of that chain, which would have opened, can no longer be opened |
| `RatchetDuplicates.CopyCostsTheNext` | crates/sanctum-crypto/src/ratchet.rs:212-220 | A run in which that happens: Alice sends two messages and Bob opens the first |
| `Ratchet.FailureUnchangedIff` | crates/sanctum-crypto/src/ratchet.rs:184-221 | A failed decrypt leaves the state as it was exactly when it stops at a skip limit before any ratchet step, or for want of a receiving chain; every other failure alters it |
| `Ratchet.StoreKeysIsRange` | crates/sanctum-crypto/src/ratchet.rs:266-277 | Storing skipped keys one at a time stores exactly the keys of the skipped numbers, each derived by its own number of chain steps |
| `RatchetObject.RatchetState.InitAlice` | crates/sanctum-crypto/src/ratchet.rs:112-134 | The object starts in the initiator state |
| `RatchetObject.RatchetState.InitBob` | crates/sanctum-crypto/src/ratchet.rs:137-154 | The object starts in the responder state |
| `RatchetObject.RatchetState.Encrypt` | crates/sanctum-crypto/src/ratchet.rs:157-181 | The fields change, and the header and ciphertext come out, as the specification function of encryption says |
| `RatchetObject.RatchetState.Decrypt` | crates/sanctum-crypto/src/ratchet.rs:184-221 | The fields change as the specification function of decryption says, in every error case as well |
| `RatchetObject.RatchetState.DhRatchet` | crates/sanctum-crypto/src/ratchet.rs:224-249 | Two root steps, with the old key pair and then with the new one, both counters reset |
| `RatchetObject.RatchetState.SkipMessages` | crates/sanctum-crypto/src/ratchet.rs:252-280 | The loop stores exactly the range of skipped keys, and an error changes nothing |
| `Handshake.SecretsAgreeIff` | crates/sanctum-crypto/src/x3dh.rs:60-142 | Initiator and responder derive one secret exactly when the bundle used matches the responder's private keys, one-time prekey included |
| `Handshake.SecretIsOf` | crates/sanctum-crypto/src/x3dh.rs:60-102 | The outputs that go into the secret, and their order |
| `Handshake.ResponseIsOf` | crates/sanctum-crypto/src/x3dh.rs:107-142 | The same on the answering side, with the prekey that the message names, if there is one at that place |
| `Handshake.HandshakeSynchronises` | crates/sanctum-infra/src/e2e_session.rs:67-161 | For all key sets, with or without one-time prekeys, initiating against the published keys and responding to the message gives two ratchets in the joint invariant |
| `Handshake.E2eSession.Initiate` | crates/sanctum-infra/src/e2e_session.rs:91-127 | The session starts with the initiator ratchet over the agreed secret, and the message returned carries both public keys and the index of the prekey used, if any |
| `Handshake.E2eSession.Respond` | crates/sanctum-infra/src/e2e_session.rs:132-161 | The session starts with the responder ratchet over the secret derived from the message |
| `Handshake.E2eSession.Encrypt` | crates/sanctum-infra/src/e2e_session.rs:167-169 | Encryption of the session is that of its ratchet |
| `Handshake.E2eSession.Decrypt` | crates/sanctum-infra/src/e2e_session.rs:172-178 | Decryption of the session is that of its ratchet |
| `Session.AcceptAbove` | crates/sanctum-domain/src/entities/session.rs:63-75 | Above the top, the shifted bitmap has bit i set exactly when the number i below the new top was accepted, for shifts of 64 and more as well |
| `Session.Session.CheckReplay` | crates/sanctum-domain/src/entities/session.rs:58-85 | The shifted bitmap accepts a number exactly when it is positive, not in the unbounded set of accepted numbers and less than 64 below the top, and the set then holds it |
| `Session.AcceptWithin` | crates/sanctum-domain/src/entities/session.rs:76-84 | At or below the top, a number is accepted exactly when it is not in the set and less than 64 below the top, and then its bit is set |
| `Session.Session.NextSendSequence` | crates/sanctum-domain/src/entities/session.rs:46-49 | Numbers to send count up by one |
| `Session.VerdictsExactly` | crates/sanctum-domain/src/entities/session.rs:58-85 | After any calls, a number is accepted exactly when it is positive, did not arrive before, and nothing 64 or more above it did |
| `Session.AcceptedExactlyOnce` | crates/sanctum-domain/src/entities/session.rs:46-85 | Numbers that never arrive 64 or more below an earlier one are accepted exactly once each |
| `Session.NextSummarises` | crates/sanctum-domain/src/entities/session.rs:58-85 | The top and the accepted set summarise the whole history of arrivals, and acceptance read from them is acceptance read from the history |
| `MessageService.MessageService.RegisterSession` | crates/sanctum-app/src/message_service.rs:32-36 | A new sender gets a fresh session, an old one keeps its own, no other session changes |
| `MessageService.MessageService.PrepareEnvelope` | crates/sanctum-app/src/message_service.rs:49-81 | The number is taken from the sender's session before the nonce is derived, and is used up even if that fails |
| `MessageService.MessageService.ProcessReceived` | crates/sanctum-app/src/message_service.rs:84-108 | The map of session objects changes as the specification function says; malformed envelopes do not even create a session |
| `MessageService.RejectionChangesNothing` | crates/sanctum-app/src/message_service.rs:84-108 | A rejected envelope leaves the whole session map as it was, and no envelope touches another sender's session |
| `MessageService.ProcessExactly` | crates/sanctum-app/src/message_service.rs:84-108 | Malformed are number zero, a nonce that is not 12 bytes and an empty ciphertext; of the rest what is new and less than 64 below the sender's top passes and is remembered, and all else is reported as a replay |
| `MessageService.PrepareExactly` | crates/sanctum-app/src/message_service.rs:49-81 | An envelope carries the sender, room, ciphertext, header, derived nonce and time it was prepared with and the next number of its sender, which is used up even when the derivation fails; without a session there is none |
| `MessageService.SessionsAreIndependent` | crates/sanctum-app/src/message_service.rs:84-108 | After any arrivals, the session of a sender is what that sender's own numbers alone make it |
| `MessageService.LetThroughExactly` | crates/sanctum-app/src/message_service.rs:84-108 | Of any arrivals, exactly those are let through that are well formed, new for their sender and less than 64 below all earlier ones of that sender |
| `MessageService.ExactlyOnce` | crates/sanctum-app/src/message_service.rs:84-108 | Under bounded reordering each envelope is let through exactly once, whatever duplicates and other senders interleave |
| `GuardedSystem.GuardRefines` | crates/sanctum-app/src/message_service.rs:84-108 | The replay check composed with the ratchet: every run of the two over a network that also duplicates is, for the ratchets, a run in which each message is delivered at most once. The program does not compose them |
| `GuardedSystem.EveryArrivalIsSafe` | crates/sanctum-app/src/message_service.rs:84-108 | In the same composition, from a fresh session and after any events, an arriving envelope is turned away with nothing changed, or is new to the ratchet, which returns the plaintext posted or stops at the skip limit |
| `GuardedSystem.ArrivalRefines` | crates/sanctum-app/src/message_service.rs:84-108 | In the same composition, one arrival is either turned away without trace or is one enabled delivery of the two-party system |
| `Codec.DecodeFrame` | crates/sanctum-infra/src/codec.rs:89-119 | Decoding a buffer in place yields, consumes or refuses exactly as the specification function says; only a decoded frame is consumed |
| `Codec.DecodeExactly` | crates/sanctum-infra/src/codec.rs:89-119 | Of any buffer: the length is its first four bytes, most significant first; zero and more than 65536 are errors, a shorter buffer waits, and all others yield the frame and leave the rest |
| `Codec.EncodeExactly` | crates/sanctum-infra/src/codec.rs:78-84 | An encoded frame is its length, its type and its payload, in this order |
| `Codec.RoundTripIff` | crates/sanctum-infra/src/codec.rs:78-119 | Decoding an encoded frame, followed by anything, gives the frame and leaves the rest exactly when its payload is shorter than 65536 bytes |
| `Codec.AcceptedReencodes` | crates/sanctum-infra/src/codec.rs:78-119 | Every frame that is decoded encodes again to exactly the bytes consumed, at least five |
| `Codec.ProperPrefixWaits` | crates/sanctum-infra/src/codec.rs:89-119 | Any proper prefix of an encoded frame is left alone, waiting for more |
| `Codec.DecisionStands` | crates/sanctum-infra/src/codec.rs:89-119 | Bytes that arrive later never change a decision already taken |
| `Codec.CutsDoNotMatter` | crates/sanctum-infra/src/codec.rs:89-119 | For arbitrary bytes, the frames decoded, the error and the rest are the same however the stream is cut |
| `Codec.ErrorIsPermanent` | crates/sanctum-infra/src/codec.rs:89-119 | An error consumes nothing, and no later input adds or removes a frame |
| `Codec.NothingIsLost` | crates/sanctum-infra/src/codec.rs:78-119 | The frames decoded, encoded again, followed by the bytes left, are the bytes received |
| `Codec.StreamRoundTrip` | crates/sanctum-infra/src/codec.rs:78-119 | A list of frames encoded, cut anywhere and decoded as it arrives is the list received, with an empty buffer |
| `Transport.TcpTransport.SendFrame` | crates/sanctum-infra/src/tcp_transport.rs:36-47 | The encoding goes out whole, or the send fails and a part of it may have gone out |
| `Transport.TcpTransport.RecvFrame` | crates/sanctum-infra/src/tcp_transport.rs:51-72 | The loop returns the first frame of all the bytes still to come, whatever pieces the reads return, and loses none of the bytes after it |
| `Transport.TransportConnection.FeedData` | crates/sanctum-infra/src/transport.rs:72-74 | Fed bytes join the stream received |
| `Transport.TransportConnection.TryDecodeFrame` | crates/sanctum-infra/src/transport.rs:77-82 | Calls hand out the frames of the whole stream in order, then report the error of the stream or wait; a closed connection refuses |
| `Transport.TransportConnection.WireForm` | crates/sanctum-infra/src/transport.rs:85-90 | The encoding of a frame, refused by a closed connection |
| `Transport.TransportConnection.Close` | crates/sanctum-infra/src/transport.rs:93-97 | The connection is closed and both buffers are empty; bytes fed later still join the read buffer, but nothing is decoded from it |
| `NoiseLink.NoiseTransport.SendFrame` | crates/sanctum-infra/src/noise_transport.rs:82-91 | The counter moves exactly when a non-empty payload is sealed, and the sealed frame, or on failure no more than a part of it, goes out |
| `NoiseLink.NoiseTransport.RecvFrame` | crates/sanctum-infra/src/noise_transport.rs:94-104 | The next frame of the stream is opened at the receiving counter, which moves exactly when a non-empty payload opens |
| `NoiseLink.LockstepForever` | crates/sanctum-infra/src/noise_transport.rs:82-104 | Any interleaving of sends and receives keeps both counters equal to the number of non-empty frames handled at that end |
| `NoiseLink.ReceivedAsSent` | crates/sanctum-infra/src/noise_transport.rs:82-104 | From a fresh link, what was received is a prefix of what was sent, and the next receive returns the next frame as it was sent |
| `NoiseLink.SendableIff` | crates/sanctum-infra/src/noise_transport.rs:82-91 | A frame can be sealed exactly when it is empty, or at most 65519 bytes long and the counter is not at its last value; the counter moves exactly for non-empty ones |
| `NoiseLink.SendExactly` | crates/sanctum-infra/src/noise_transport.rs:82-91 | Sending adds a frame to what was sent exactly when it can be sealed |
| `NoiseLink.OpensOnlySealed` | crates/sanctum-infra/src/noise_transport.rs:94-104 | A frame that opens and is not empty was sealed at this place of the stream; an empty one always passes; one that does not open leaves the counter alone |
| `NoiseLink.OutOfStepFails` | crates/sanctum-infra/src/noise_transport.rs:94-104 | With counters out of step nothing that was sealed opens |
| `HostService.HostService.RegisterClient` | crates/sanctum-app/src/host_service.rs:58-81 | A client is registered, and announced, exactly when the room authorises it, replacing any earlier entry, and is not ready |
| `HostService.HostService.RemoveClient` | crates/sanctum-app/src/host_service.rs:91-96 | The entry of the fingerprint goes, whichever connection it names, and its going is announced |
| `HostService.HostService.MarkClientReady` | crates/sanctum-app/src/host_service.rs:84-88 | A registered client becomes ready; an unknown one is ignored |
| `HostService.HostService.RouteRecipients` | crates/sanctum-app/src/host_service.rs:100-109 | Every connected and ready client but the sender, each exactly once |
| `HostRelay.StepKeeps` | crates/sanctum-infra/src/host_listener.rs:121-250 | Each locked block of each task keeps the invariant of the relay: queues, routings in progress, registry and room |
| `HostRelay.OnlyOthersMessagesOnceInOrder` | crates/sanctum-infra/src/host_listener.rs:185-243 | In every interleaving, from any room, each room message queued for a connection is byte for byte one received from a connection of another fingerprint, is queued there at most once, and messages received over one connection keep their order |
| `RelayAdmission.ServedAnsweredInOrder` | crates/sanctum-infra/src/host_listener.rs:137-327 | In every interleaving, a client that is served or registered answered earlier in the run, when its fingerprint was on its list, its nonce was new, the clock was within 120 seconds of the challenge and its key was not locked |
| `RelayAdmission.VerifyExactly` | crates/sanctum-infra/src/host_listener.rs:327 | A response in order, by these four conditions, is accepted and its nonce remembered; any other closes the connection and counts as a failure |
| `RelayAdmission.LetInWasAuthorized` | crates/sanctum-infra/src/host_listener.rs:142-147 | Every client served or registered has registered at a moment when its fingerprint was authorised |
| `RelayAdmission.RegisterExactly` | crates/sanctum-infra/src/host_listener.rs:142-147 | Registration succeeds exactly for who is authorised then, who is ready at once; any other connection is closed |
| `RelayAdmission.ListWasAuthorized` | crates/sanctum-infra/src/host_listener.rs:312-318 | The list a client is checked against is the set of fingerprints authorised when it was made |
| `RelayAdmission.ClosedForGood` | crates/sanctum-infra/src/host_listener.rs:133-140 | Nothing is received from, queued for or written to a closed connection any more, and a refused client is never let in over it |
| `RelayAdmission.LeavesNoTrace` | crates/sanctum-infra/src/host_listener.rs:240-250 | A task that leaves undisturbed takes away its registration and its queue, and nothing else |
| `RelayAdmission.AbortLeavesBehind` | crates/sanctum-infra/src/host_listener.rs:208-211 | A task that returns on a failed answer to a ping leaves both behind, and nothing is queued there any more |
| `RelayAdmission.WrittenAsQueued` | crates/sanctum-infra/src/host_listener.rs:222-227 | In every interleaving, what is written to a client are the first frames of its queue, in order and without gaps, and all that were taken out while it is served |
| `RelayAdmission.TakeExactly` | crates/sanctum-infra/src/host_listener.rs:222-227 | One entry is taken out and written and the task goes on, or it leaves when the write fails |
| `RelayAdmission.OnlyMembersJoin` | crates/sanctum-infra/src/host_listener.rs:293-310 | Whoever introduces itself in any interleaving joins as an ordinary member |
| `RelayAdmission.IntroducedHasEntry` | crates/sanctum-infra/src/host_listener.rs:293-310 | A client that introduces itself has an entry from then on, unless the room is full, and is authorised if the entry is new |
| `RelayMembership.CheckedAgainstAuthorized` | crates/sanctum-infra/src/host_listener.rs:293-318 | In every interleaving no fingerprint has two active entries, and the list made for a client to be checked is the set of fingerprints authorised at that moment |
| `RelayMembership.StoredListIsAuthorizedOrRevoked` | crates/sanctum-infra/src/host_listener.rs:312-327 | Whoever is on the list a client is checked against later is authorised still, or has been revoked in between |
| `RelayMembership.RevokedNeverRegisters` | crates/sanctum-infra/src/host_listener.rs:142-147 | From its revocation on nothing registers a fingerprint any more, whatever list it was checked against; what was registered before stays as it is, or goes |
| `RelayDelivery.DeliveredDespiteOthers` | crates/sanctum-infra/src/host_listener.rs:193-207 | Whatever other tasks do while a message is handed out: when its task is through, every connection registered for a ready client other than the sender, that stayed so and open, has it in its queue exactly once |
| `RelayDelivery.EveryRecipientGetsOne` | crates/sanctum-infra/src/host_listener.rs:198-206 | Handed out with no other task in between, a message joins the end of the queue of each open registered connection of its recipients once, and of no other |
| `RelayDelivery.ReceivedReachesOthers` | crates/sanctum-infra/src/host_listener.rs:193-207 | Received and handed out with no other task in between, a message reaches exactly the open connections of the ready clients other than its sender |
| `RelayDelivery.ServesAgain` | crates/sanctum-infra/src/host_listener.rs:198-207 | When all recipients are served the task serves its own client again, and nothing else of its connection has changed |
| `RelayDelivery.StaysRegisteredIff` | crates/sanctum-infra/src/host_listener.rs:142-147 | Over any run a connection beyond registration, as every registered one is by `RelayDelivery.RegisteredIsPast`, is registered at the end exactly when it was at the start and no step displaced it: no task of its own fingerprint cleaned up, and no other one registered |
| `RelayDelivery.StaleCleanup` | crates/sanctum-infra/src/host_listener.rs:241-243 | A reachable state in which a client that is being served is no longer registered: the clean-up of its older connection removed it |
| `Room.Room.AddMember` | crates/sanctum-domain/src/entities/room.rs:198-214 | A full room and an active first entry refuse; otherwise the entry is appended and nothing else changes |
| `Room.Room.RevokeMember` | crates/sanctum-domain/src/entities/room.rs:217-227 | The first entry of the fingerprint is revoked, unless there is none or it is an owner |
| `Room.AddExactly` | crates/sanctum-domain/src/entities/room.rs:198-214 | Adding fails when the active entries, counted as a set, are at the limit, then when the first entry of the fingerprint is active, and otherwise appends |
| `Room.RevokeExactly` | crates/sanctum-domain/src/entities/room.rs:217-227 | Revoking fails for an unknown fingerprint and for an owner, and otherwise changes the status of its first entry and nothing else |
| `Room.AuthorizedIff` | crates/sanctum-domain/src/entities/room.rs:230-234 | A fingerprint is authorised exactly when its first entry is active |
| `Room.Find` | crates/sanctum-domain/src/entities/room.rs:187-189 | The first entry of a fingerprint, or none exactly when there is none |
| `Room.RunGrows` | crates/sanctum-domain/src/entities/room.rs:198-227 | Over every run entries are only appended and only go from active to revoked, never an owner's, and the active count stays within the limit |
| `Room.OwnerStaysAndCountIsBounded` | crates/sanctum-domain/src/entities/room.rs:118-227 | Over every run from a new room the founding owner stays authorised and the active count never exceeds the limit |
| `Room.RevokedForever` | crates/sanctum-domain/src/entities/room.rs:217-234 | Once revoked, a fingerprint is never authorised again, even if added anew |
| `Room.AddKeepsUniqueIff` | crates/sanctum-domain/src/entities/room.rs:105-106 | Adding keeps active fingerprints unique exactly when it is refused or no entry of the fingerprint is active |
| `Room.DuplicateAfterRevoke` | crates/sanctum-domain/src/entities/room.rs:198-214 | Add, revoke, add, add: two active entries of one fingerprint, which is not authorised all the same |
| `Room.RevokeKeepsUnique` | crates/sanctum-domain/src/entities/room.rs:217-227 | Revoking never makes a duplicate |
| `Room.AdmitKeepsDistinct` | crates/sanctum-infra/src/host_listener.rs:293-310 | The way the host admits clients keeps all fingerprints distinct |
| `Room.AdmitExactly` | crates/sanctum-infra/src/host_listener.rs:293-310 | Someone with no entry at all gets one at the end unless the room is full; for anyone else nothing changes |
| `Room.AllowlistIsAuthorized` | crates/sanctum-infra/src/host_listener.rs:312-318 | While fingerprints are distinct, the list of active entries is the set of authorised fingerprints |
| `Auth.AuthService.VerifyResponse` | crates/sanctum-app/src/auth_service.rs:103-152 | Counter, nonces and outcome change as the specification function says, in the order of its checks |
| `Auth.AuthService.PurgeOldNonces` | crates/sanctum-app/src/auth_service.rs:170-176 | More than 10000 nonces are all forgotten, fewer are all kept |
| `Auth.RefusedExactly` | crates/sanctum-app/src/auth_service.rs:110-117 | In every run a response is refused for too many attempts exactly when the number of consecutive failures under its key, modulo 2^32, is at least three and not 2^32 - 1 |
| `Auth.LimitExactly` | crates/sanctum-app/src/auth_service.rs:103-152 | Each outcome as a condition on state and request: three failures under the key, the nonce used, more than 120 seconds between challenge and clock, a fingerprint not allowed, in this order |
| `Auth.LockedAfterThree` | crates/sanctum-app/src/auth_service.rs:110-117 | After three consecutive failures under a key every response under it is refused, whatever else happens, while calls are fewer than 2^32 |
| `Auth.LockReopens` | crates/sanctum-app/src/auth_service.rs:110-117 | The lock is not for ever: a run that takes the counter to 2^32 - 1 and is then accepted |
| `Auth.TwiceOnlyAfterBigPurge` | crates/sanctum-app/src/auth_service.rs:103-176 | Over every run a nonce is accepted twice only if a purge in between cleared at least 10001 distinct accepted nonces |
| `Backlog.MemoryStorage.StoreMessage` | crates/sanctum-infra/src/storage_memory.rs:59-94 | Only the queue of the room changes: its oldest message goes when it is full, and the new one joins the end |
| `Backlog.MemoryStorage.FetchBacklog` | crates/sanctum-infra/src/storage_memory.rs:97-115 | The envelopes stored for that room and recipient with a number above the bound, and no others, in store order, found in the queue of the room alone |
| `Backlog.MemoryStorage.PurgeExpired` | crates/sanctum-infra/src/storage_memory.rs:118-128 | A message stays exactly when the time it was stored at plus the age allowed is not past, in order, and the difference is counted |
| `Backlog.MemoryStorage.StoreRoom` | crates/sanctum-infra/src/storage_memory.rs:40-43 | The room is stored under its identifier |
| `Backlog.MemoryStorage.DeleteRoom` | crates/sanctum-infra/src/storage_memory.rs:51-56 | The room and its queue are gone and every other queue is untouched |
| `Backlog.EachRoomKeepsItsLast` | crates/sanctum-infra/src/storage_memory.rs:59-94 | After any interleaving of stores each room holds exactly its last messages in store order, up to its bound, which is never below one |
| `Backlog.PurgeRemovesPrefix` | crates/sanctum-infra/src/storage_memory.rs:118-128 | Over every run with a clock that does not go back, a purge removes a prefix of the list and of every room's queue |
| `Backlog.PurgeRemovesPrefixIff` | crates/sanctum-infra/src/storage_memory.rs:118-128 | A purge removes a prefix exactly when no message to be removed follows one that stays |
| `SqlBacklog.SqliteStorage.StoreMessage` | crates/sanctum-infra/src/storage_sqlite.rs:158-181 | One row with a new key is added, or none if the room is not stored |
| `SqlBacklog.SqliteStorage.FetchBacklog` | crates/sanctum-infra/src/storage_sqlite.rs:184-214 | The rows of that room and recipient with a number above the bound as the column has it, and no others, in ascending order of number, ties in any order |
| `SqlBacklog.SqliteStorage.PurgeExpired` | crates/sanctum-infra/src/storage_sqlite.rs:217-230 | A row stays exactly when its time plus the age allowed is not past, for clocks below 2^63, a time from 2^63 on being negative |
| `SqlBacklog.SqliteStorage.PurgeExcess` | crates/sanctum-infra/src/storage_sqlite.rs:233-250 | Of the room only a choice of the rows with the highest sequence numbers stays; every other room keeps its rows in their order |
| `SqlBacklog.PickNewest` | crates/sanctum-infra/src/storage_sqlite.rs:241-244 | The choice made by the inner query: as many rows as allowed, none left out that is newer than one kept |
| `SqlBacklog.SignedOrderIff` | crates/sanctum-infra/src/storage_sqlite.rs:174-176 | Sequence numbers keep their order in the signed column exactly when 2^63 does not lie between them |
| `BacklogAgreement.RetainedAgreeIff` | crates/sanctum-infra/src/storage_sqlite.rs:233-250 | For any stores, of any senders, recipients and rooms, in any order: however ties are broken, purging the excess leaves of a room exactly the messages that evicting on store keeps, exactly when the bound is not zero and every message cut off has a lower number than every one kept |
| `BacklogAgreement.RetainedMayAgreeIff` | crates/sanctum-infra/src/storage_sqlite.rs:233-250 | For some way of breaking ties they agree exactly when no message cut off has a higher number than one kept |
| `BacklogAgreement.TwoSendersDisagree` | crates/sanctum-infra/src/storage_sqlite.rs:241-244 | Two senders in one room with a bound of one: the memory keeps the later message and the table the one with the higher number |
| `BacklogAgreement.StoredRowMatches` | crates/sanctum-infra/src/storage_sqlite.rs:158-181 | Storing one more message keeps the table the rows of the messages stored |
| `BacklogAgreement.PurgedAgreeIff` | crates/sanctum-infra/src/storage_sqlite.rs:217-230 | Purging by age leaves the same messages in both exactly when every time stored and the cutoff lie on one side of 2^63 |
| `BacklogFetch.FetchedAgreeIff` | crates/sanctum-infra/src/storage_sqlite.rs:184-214 | Where both keep the same messages of a room, every answer of the table is what the memory returns, in the same order, exactly when the bound and the numbers of the messages for the recipient lie on one side of 2^63 and what is fetched ascends, with equal numbers for equal texts only |
| `BacklogFetch.StoredThenFetchedAgreeIff` | crates/sanctum-infra/src/storage_sqlite.rs:184-250 | The same after any stores whose cut is in order and any purge of the excess |
| `BacklogFetch.IncreasingStoresAgree` | crates/sanctum-infra/src/storage_sqlite.rs:184-250 | In particular both return the same when the messages of the room were stored in strictly increasing order of numbers below 2^63 |
| `BacklogFetch.OneAnswerIff` | crates/sanctum-infra/src/storage_sqlite.rs:192-197 | Rows have one ascending answer, seen from outside, exactly when they ascend already and ties look the same |
| `Invite.ComputeSignedData` | crates/sanctum-domain/src/entities/invite.rs:33-51 | Appending field by field gives the signed bytes |
| `Invite.LayoutExactly` | crates/sanctum-domain/src/entities/invite.rs:33-51 | Where every field is in the signed bytes, the separators between them, the byte order of the port and the byte of each role |
| `Invite.InjectiveWithoutBar` | crates/sanctum-domain/src/entities/invite.rs:33-51 | Among invites whose address has no separator, the signed bytes are equal exactly when the invites are, whatever bytes the key consists of |
| `Invite.SameSignedDataSameTokenIff` | crates/sanctum-domain/src/entities/invite.rs:33-51 | Two invites with equal signed bytes are equal exactly when their addresses have the same length |
| `Invite.DeterminedIff` | crates/sanctum-domain/src/entities/invite.rs:33-51 | No other invite has the signed bytes of this one exactly when its middle part has no other two separators three apart |
| `Invite.Collision` | crates/sanctum-domain/src/entities/invite.rs:33-51 | Two different invites with the same signed bytes |

## Left out

- Real cryptography: AEAD, HKDF, X25519, SHA-256 and the Noise handshake are replaced by the symbolic laws above; `NoiseLink.LawsAreConsistent` shows that those assumed of the Noise cipher can be met.
- RatchetCorrectness.EveryDeliveryIsGenuine: assumes that no chain carries more than 2^32 - 1 - 256 messages, so that the 32-bit message numbers and the skip limit do not wrap; every key pair generated is taken to be new.
- GuardedSystem.EveryArrivalIsSafe: is about a composition that the program does not make; it assumes that the 64-bit sequence number of a sender does not wrap; nonces are 12 bytes, as the nonce derivation makes them.
- RatchetSecrecy.ForwardSecrecy: speaks of the fields of the ratchet, not of copies left in memory or of the zeroing of secrets.
- RatchetRecovery.BreakInRecovery: the intruder reads but does not send; messages forged with what was learnt are not modelled.
- RatchetAuthenticity.OpenedWasSentOnce: the intruder does not learn the session secret; after a break-in the result is the one of `RatchetRecovery.BreakInRecovery`.
- Auth.LockedAfterThree: is limited to fewer than 2^32 calls; without a limit the exact condition is the one of `Auth.RefusedExactly`.
- HostRelay.OnlyOthersMessagesOnceInOrder: is about safety only, and messages of one fingerprint over two connections may cross; waiting for a full queue or for a lock, lagging broadcasts, aliases and peer announcements are not modelled, and PING frames and their answers are steps that change nothing here.
- RelayDelivery.EveryRecipientGetsOne: and `RelayDelivery.ReceivedReachesOthers` hand out one message without other tasks in between; `RelayDelivery.DeliveredDespiteOthers` is the result with them in between.
- SqlBacklog.SqliteStorage.FetchBacklog: the table is a list of rows in key order, and different fingerprints have different hashes; database errors other than the missing room are not modelled.
- Invite.DeterminedIff: addresses are byte strings, and whether the other reading of the address is valid UTF-8 is not considered.
- Serialisation of messages and of the ratchet state, base64 and JSON of invites, padding.
- Tor, SOCKS5, sockets, configuration files, the command line, the chat loop and the terminal.
- One-time prekeys are always taken from index 0 and never removed by the code, so that single use is not a property it has.
- Room configuration limits, alias and fingerprint validation, role permissions and the client service: short checks of single values.
