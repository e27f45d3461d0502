/** Two components put together: the anti-replay check in front of the ratchet, over a network
    that reorders, loses and duplicates without limit. The program has both components but
    does not put them together: its chat loop hands every room message to the ratchet
    unchecked (crates/sanctum-cli/src/commands/chat_loop.rs:287). */
module GuardedSystem {
  import opened Basics
  import opened Members
  import Keys
  import Ratchet
  import opened RatchetSystem
  import RatchetCorrectness
  import Session
  import opened MessageService

  /** One peer's message service, and every envelope it ever posted. */
  datatype Desk = Desk(sessions: Sessions, posted: seq<Envelope>)

  datatype World = World(system: System, aliceDesk: Desk, bobDesk: Desk, aliceName: Fingerprint, bobName: Fingerprint) {
    function DeskOf(side: Side): Desk {
      if side.Alice? then aliceDesk else bobDesk
    }

    function WithDesk(side: Side, desk: Desk): World {
      if side.Alice? then this.(aliceDesk := desk) else this.(bobDesk := desk)
    }

    function Name(side: Side): Fingerprint {
      if side.Alice? then aliceName else bobName
    }
  }

  datatype Event =
    | Post(side: Side, plaintext: seq<byte>, room: RoomId, nonce: seq<byte>, now: u64)
    | Arrive(to: Side, index: nat, newId: nat)

  /** The counters stay in range and generated keys are new. Nothing limits how often an
      envelope arrives. */
  predicate Possible(w: World, e: Event) {
    match e
    case Post(side, plaintext, _, nonce, _) =>
      && Enabled(w.system, SendStep(side, plaintext))
      && |nonce| == 12
      && StateFor(w.DeskOf(side).sessions, w.Name(side)).lastSent < U64_MAX
    case Arrive(to, index, newId) =>
      && index < |w.DeskOf(Other(to)).posted|
      && newId !in w.system.issued
  }

  /** Encrypt, then number and post the envelope. */
  function PostFrom(w: World, side: Side, plaintext: seq<byte>, room: RoomId, nonce: seq<byte>, now: u64): World {
    var me, desk := w.system.Of(side), w.DeskOf(side);
    var sent := SendBy(me, plaintext);
    var w1 := w.(system := w.system.With(side, sent));
    if |sent.outbox| == |me.outbox| then w1
    else
      var msg := sent.outbox[|sent.outbox| - 1];
      var (sessions, r) := Prepare(desk.sessions, w.Name(side), room, msg.ciphertext, msg.header, Some(nonce), now);
      w1.WithDesk(side, Desk(sessions, if r.Ok? then desk.posted + [r.value] else desk.posted))
  }

  function Checked(w: World, to: Side, index: nat): (Sessions, Result<(), Error>)
    requires index < |w.DeskOf(Other(to)).posted|
  {
    Process(w.DeskOf(to).sessions, w.DeskOf(Other(to)).posted[index])
  }

  /** The message an envelope carries, as the ratchet sees it. */
  function Carried(env: Envelope): Sent {
    Sent(env.header, env.ciphertext, [])
  }

  /** Check for replay and, if the envelope is let through, decrypt it. */
  function ArriveAt(w: World, to: Side, index: nat, newId: nat): World
    requires index < |w.DeskOf(Other(to)).posted|
  {
    var (sessions, r) := Checked(w, to, index);
    var w1 := w.WithDesk(to, w.DeskOf(to).(sessions := sessions));
    if r.Err? then w1
    else w1.(system := Deliver(w.system, to, Carried(w.DeskOf(Other(to)).posted[index]), index, newId))
  }

  function Happen(w: World, e: Event): World
    requires Possible(w, e)
  {
    match e
    case Post(side, plaintext, room, nonce, now) => PostFrom(w, side, plaintext, room, nonce, now)
    case Arrive(to, index, newId) => ArriveAt(w, to, index, newId)
  }

  ghost predicate Unfolds(w: World, events: seq<Event>, v: World)
    decreases |events|
  {
    if events == [] then w == v
    else Possible(w, events[0]) && Unfolds(Happen(w, events[0]), events[1..], v)
  }

  /** A fresh session on both sides, each service with its own sender registered. */
  function Begin(s: System, aliceName: Fingerprint, bobName: Fingerprint): World {
    World(s, Desk(map[aliceName := Session.NEW], []), Desk(map[bobName := Session.NEW], []), aliceName, bobName)
  }

  /** The envelopes posted are the messages sent, numbered upwards. */
  ghost predicate PostedOk(desk: Desk, outbox: seq<Sent>, name: Fingerprint) {
    && name in desk.sessions
    && |desk.posted| == |outbox|
    && (forall i :: 0 <= i < |outbox| ==>
          && desk.posted[i].sender == name
          && desk.posted[i].header == outbox[i].header
          && desk.posted[i].ciphertext == outbox[i].ciphertext
          && 0 < desk.posted[i].sequence <= desk.sessions[name].lastSent)
    && (forall i, j :: 0 <= i < j < |outbox| ==> desk.posted[i].sequence < desk.posted[j].sequence)
  }

  /** Whatever the ratchet has seen, the window remembers. */
  ghost predicate WindowOk(me: Party, desk: Desk, posted: seq<Envelope>, peerName: Fingerprint) {
    forall i :: i in me.taken ==> i < |posted| && posted[i].sequence in StateFor(desk.sessions, peerName).accepted
  }

  ghost predicate SideOk(w: World, side: Side) {
    && PostedOk(w.DeskOf(side), w.system.Of(side).outbox, w.Name(side))
    && WindowOk(w.system.Of(side), w.DeskOf(side), w.DeskOf(Other(side)).posted, w.Name(Other(side)))
  }

  ghost predicate Guarded(w: World) {
    w.aliceName != w.bobName && SideOk(w, Alice) && SideOk(w, Bob)
  }

  /** One more message posted, with the next number. */
  lemma PostKeepsPosted(desk: Desk, outbox: seq<Sent>, name: Fingerprint, msg: Sent, room: RoomId,
                        nonce: seq<byte>, now: u64)
    requires PostedOk(desk, outbox, name) && desk.sessions[name].lastSent < U64_MAX
    ensures var (sessions, r) := Prepare(desk.sessions, name, room, msg.ciphertext, msg.header, Some(nonce), now);
      && r.Ok?
      && PostedOk(Desk(sessions, desk.posted + [r.value]), outbox + [msg], name)
      && (forall p :: StateFor(sessions, p).accepted == StateFor(desk.sessions, p).accepted)
  {
  }

  lemma PostKeepsGuard(w: World, side: Side, plaintext: seq<byte>, room: RoomId, nonce: seq<byte>, now: u64)
    requires Guarded(w) && Possible(w, Post(side, plaintext, room, nonce, now))
    ensures Guarded(PostFrom(w, side, plaintext, room, nonce, now))
    ensures PostFrom(w, side, plaintext, room, nonce, now).system == Apply(w.system, SendStep(side, plaintext))
  {
    assert SideOk(w, side) && SideOk(w, Other(side));
    var v := PostFrom(w, side, plaintext, room, nonce, now);
    var me, sent := w.system.Of(side), SendBy(w.system.Of(side), plaintext);
    if |sent.outbox| != |me.outbox| {
      var msg := sent.outbox[|me.outbox|];
      assert sent.outbox == me.outbox + [msg];
      PostKeepsPosted(w.DeskOf(side), me.outbox, w.Name(side), msg, room, nonce, now);
    }
    assert SideOk(v, side);
    assert SideOk(v, Other(side));
  }

  /** A duplicate never passes: an envelope is let through only if the ratchet has not
      seen it, and a rejected one changes nothing at all. */
  lemma CheckKeepsOnce(w: World, to: Side, index: nat)
    requires Guarded(w) && index < |w.DeskOf(Other(to)).posted|
    ensures Checked(w, to, index).1.Ok? ==> index !in w.system.Of(to).taken
    ensures Checked(w, to, index).1.Err? ==> Checked(w, to, index).0 == w.DeskOf(to).sessions
  {
    assert SideOk(w, to) && SideOk(w, Other(to));
    RejectionChangesNothing(w.DeskOf(to).sessions, w.DeskOf(Other(to)).posted[index]);
  }

  /** Checking an envelope of someone else leaves one's own numbering alone. */
  lemma CheckKeepsPosted(desk: Desk, outbox: seq<Sent>, name: Fingerprint, env: Envelope)
    requires PostedOk(desk, outbox, name) && env.sender != name
    ensures PostedOk(desk.(sessions := Process(desk.sessions, env).0), outbox, name)
  {
    assert Process(desk.sessions, env).0[name] == desk.sessions[name];
  }

  /** An arrival is either turned away, and nothing changes, or it is a delivery of a message
      that the ratchet has not seen. */
  lemma ArrivalRefines(w: World, to: Side, index: nat, newId: nat)
    requires Guarded(w) && Possible(w, Arrive(to, index, newId))
    ensures Checked(w, to, index).1.Ok? ==>
      && Enabled(w.system, DeliverStep(to, index, newId))
      && ArriveAt(w, to, index, newId).system == Apply(w.system, DeliverStep(to, index, newId))
    ensures Checked(w, to, index).1.Err? ==> ArriveAt(w, to, index, newId) == w
  {
    assert SideOk(w, to) && SideOk(w, Other(to));
    CheckKeepsOnce(w, to, index);
  }

  /** The window remembers an envelope that is let through, and forgets none. */
  lemma CheckKeepsWindow(me: Party, after: Party, desk: Desk, posted: seq<Envelope>, peerName: Fingerprint, index: nat)
    requires WindowOk(me, desk, posted, peerName) && index < |posted| && posted[index].sender == peerName
    requires forall i :: i in after.taken ==>
               i in me.taken || (i == index && Process(desk.sessions, posted[index]).1.Ok?)
    ensures WindowOk(after, desk.(sessions := Process(desk.sessions, posted[index]).0), posted, peerName)
  {
  }

  lemma ArriveKeepsGuard(w: World, to: Side, index: nat, newId: nat)
    requires Guarded(w) && Possible(w, Arrive(to, index, newId))
    ensures Guarded(ArriveAt(w, to, index, newId))
  {
    assert SideOk(w, to) && SideOk(w, Other(to));
    var v := ArriveAt(w, to, index, newId);
    assert SideOk(v, Other(to));
    var posted, desk := w.DeskOf(Other(to)).posted, w.DeskOf(to);
    assert posted[index].sender == w.Name(Other(to));
    CheckKeepsPosted(desk, w.system.Of(to).outbox, w.Name(to), posted[index]);
    CheckKeepsWindow(w.system.Of(to), v.system.Of(to), desk, posted, w.Name(Other(to)), index);
  }

  /** Every run over the duplicating network is, for the ratchets, a run in which each
      message is delivered at most once. */
  lemma {:induction false} GuardRefines(s0: System, steps: seq<Step>, w: World, events: seq<Event>, v: World)
      returns (steps': seq<Step>)
    requires Guarded(w) && Unfolds(w, events, v) && Runs(s0, steps, w.system)
    ensures Guarded(v) && Runs(s0, steps', v.system)
    decreases |events|
  {
    if events == [] {
      steps' := steps;
    } else {
      var w1 := Happen(w, events[0]);
      match events[0]
      case Post(side, plaintext, room, nonce, now) =>
        PostKeepsGuard(w, side, plaintext, room, nonce, now);
        RunsExtend(s0, steps, w.system, SendStep(side, plaintext));
        steps' := GuardRefines(s0, steps + [SendStep(side, plaintext)], w1, events[1..], v);
      case Arrive(to, index, newId) =>
        ArriveKeepsGuard(w, to, index, newId);
        ArrivalRefines(w, to, index, newId);
        if Checked(w, to, index).1.Ok? {
          RunsExtend(s0, steps, w.system, DeliverStep(to, index, newId));
          steps' := GuardRefines(s0, steps + [DeliverStep(to, index, newId)], w1, events[1..], v);
        } else {
          steps' := GuardRefines(s0, steps, w1, events[1..], v);
        }
    }
  }

  /** Composition. From a fresh session, after any events at all: an arriving envelope is
      either turned away with nothing changed, or it is new to the ratchet, which then
      returns exactly the plaintext posted or stops at the skip limit. */
  lemma EveryArrivalIsSafe(shared: Keys.Key, spkId: nat, ratchetId: nat, issued: set<nat>,
                           a: Fingerprint, b: Fingerprint, events: seq<Event>, w: World,
                           to: Side, index: nat, newId: nat)
    requires spkId != ratchetId && a != b
    requires Unfolds(Begin(Start(shared, spkId, ratchetId, issued), a, b), events, w)
    requires Possible(w, Arrive(to, index, newId))
    ensures Checked(w, to, index).1.Err? ==> ArriveAt(w, to, index, newId) == w
    ensures Checked(w, to, index).1.Ok? ==>
      && index < |w.system.Of(Other(to)).outbox| && index !in w.system.Of(to).taken
      && var msg := w.system.Of(Other(to)).outbox[index];
         DecryptAt(w.system.Of(to), Carried(w.DeskOf(Other(to)).posted[index]), newId).1
           == RatchetCorrectness.Promised(w.system.Of(to).ratchet, msg)
  {
    var s0 := Start(shared, spkId, ratchetId, issued);
    var steps := GuardRefines(s0, [], Begin(s0, a, b), events, w);
    ArrivalRefines(w, to, index, newId);
    RatchetCorrectness.EveryDeliveryIsGenuine(shared, spkId, ratchetId, issued, steps, w.system);
    if Checked(w, to, index).1.Ok? {
      var step := DeliverStep(to, index, newId);
      assert RatchetCorrectness.DeliveryResult(w.system, step) == RatchetCorrectness.PromisedResult(w.system, step);
      assert SideOk(w, Other(to));
    }
  }
}
