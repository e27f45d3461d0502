/** Who the relay reaches: registration, its displacement by stale clean-ups, and delivery of
    one message to every client that is connected. */
module RelayDelivery {
  import opened Basics
  import opened Members
  import opened HostRelay
  import Auth
  import Codec
  import HostService
  import Room

  // ---------------------------------------------------------------------------
  // Registration

  /** The connection is the one its fingerprint is registered with. */
  predicate IsRegistered(r: Relay, d: Id)
    requires d in r.conns
  {
    var fp := r.conns[d].fp;
    fp.Some? && fp.value in r.service.clients && r.service.clients[fp.value].connection == d
  }

  /** A step that takes away the registration of connection d: a task of the same fingerprint
      cleans up, whichever connection it served, or a newer one registers. */
  predicate Displaces(r: Relay, s: Step, d: Id)
    requires d in r.conns
  {
    match s
    case Unregister(c) => c in r.conns && r.conns[c].fp == r.conns[d].fp
    case Register(c) => c in r.conns && c != d && r.conns[c].fp == r.conns[d].fp
                        && r.conns[c].fp.Some? && Room.IsAuthorized(r.service.room, r.conns[c].fp.value)
    case _ => false
  }

  lemma SameRegistration(r: Relay, after: Relay, d: Id)
    requires RelayOk(r) && d in r.conns && d in after.conns && r.service.clients == after.service.clients
    requires r.conns[d].fp.Some? ==> after.conns[d].fp == r.conns[d].fp
    ensures IsRegistered(r, d) == IsRegistered(after, d)
  {
  }

  lemma OtherRegistration(r: Relay, s: Step, d: Id)
    requires RelayOk(r) && CanStep(r, s) && d in r.conns && !s.Register? && !s.Unregister?
    ensures d in Apply(r, s).conns && IsRegistered(Apply(r, s), d) == IsRegistered(r, d)
  {
    var after := Apply(r, s);
    assert after.service.clients == r.service.clients;
    SameRegistration(r, after, d);
  }

  lemma UnregisterRegistration(r: Relay, c: Id, d: Id)
    requires RelayOk(r) && CanStep(r, Unregister(c)) && d in r.conns
    ensures var after := Apply(r, Unregister(c));
      d in after.conns && (IsRegistered(after, d) <==> IsRegistered(r, d) && r.conns[c].fp != r.conns[d].fp)
  {
  }

  lemma RegisterRegistration(r: Relay, c: Id, d: Id)
    requires RelayOk(r) && CanStep(r, Register(c)) && d in r.conns && PastVerified(r.conns[d].phase)
    ensures var after := Apply(r, Register(c));
      d in after.conns && (IsRegistered(after, d) <==> IsRegistered(r, d) && !Displaces(r, Register(c), d))
  {
  }

  /** A connection beyond registration is registered after a step exactly when it was before
      and the step does not displace it. */
  lemma StepStaysRegisteredIff(r: Relay, s: Step, d: Id)
    requires RelayOk(r) && CanStep(r, s) && d in r.conns && PastVerified(r.conns[d].phase)
    ensures d in Apply(r, s).conns
    ensures IsRegistered(Apply(r, s), d) <==> IsRegistered(r, d) && !Displaces(r, s, d)
  {
    if s.Register? {
      RegisterRegistration(r, s.c, d);
    } else if s.Unregister? {
      UnregisterRegistration(r, s.c, d);
    } else {
      OtherRegistration(r, s, d);
    }
  }

  /** What was once put in a queue, received or introduced stays, and a task that has gone
      beyond registration never comes back to it. */
  lemma StepKeepsConn(r: Relay, s: Step, d: Id)
    requires RelayOk(r) && CanStep(r, s) && d in r.conns
    ensures d in Apply(r, s).conns
    ensures r.conns[d].fp.Some? ==> Apply(r, s).conns[d].fp == r.conns[d].fp
    ensures r.conns[d].queued <= Apply(r, s).conns[d].queued
    ensures PastVerified(r.conns[d].phase) ==> PastVerified(Apply(r, s).conns[d].phase)
  {
  }

  /** Some step of the run displaces connection d. */
  ghost predicate DisplacedIn(r: Relay, steps: seq<Step>, d: Id)
    requires d in r.conns
    decreases |steps|
  {
    steps != [] && CanStep(r, steps[0]) &&
    (Displaces(r, steps[0], d)
     || (d in Apply(r, steps[0]).conns && DisplacedIn(Apply(r, steps[0]), steps[1..], d)))
  }

  /** Over any run, a connection beyond registration is registered at the end exactly when it
      was at the start and no step of the run displaced it: no task of its own fingerprint
      cleaned up, and no other one registered. */
  lemma {:induction false} StaysRegisteredIff(r: Relay, steps: seq<Step>, last: Relay, d: Id)
    requires RelayOk(r) && Runs(r, steps, last) && d in r.conns && PastVerified(r.conns[d].phase)
    ensures d in last.conns && (IsRegistered(last, d) <==> IsRegistered(r, d) && !DisplacedIn(r, steps, d))
    decreases |steps|
  {
    if steps != [] {
      StepKeeps(r, steps[0]);
      StepKeepsConn(r, steps[0], d);
      StepStaysRegisteredIff(r, steps[0], d);
      StaysRegisteredIff(Apply(r, steps[0]), steps[1..], last, d);
    }
  }

  /** What is registered is beyond registration. */
  lemma RegisteredIsPast(r: Relay, d: Id)
    requires RelayOk(r) && d in r.conns && IsRegistered(r, d)
    ensures PastVerified(r.conns[d].phase)
  {
  }

  // ---------------------------------------------------------------------------
  // A run in which the clean-up is stale

  ghost predicate Reachable(room: Room.State, r: Relay) {
    exists steps :: Runs(New(room), steps, r)
  }

  lemma {:induction false} RunThenStep(r: Relay, steps: seq<Step>, last: Relay, s: Step)
    requires Runs(r, steps, last) && CanStep(last, s)
    ensures Runs(r, steps + [s], Apply(last, s))
    decreases |steps|
  {
    if steps == [] {
      assert ([] + [s])[1..] == [];
    } else {
      RunThenStep(Apply(r, steps[0]), steps[1..], last, s);
      assert (steps + [s])[1..] == steps[1..] + [s];
    }
  }

  lemma Reach(room: Room.State, r: Relay, s: Step)
    requires Reachable(room, r) && Enabled(r, s) && !s.RouteNext?
    ensures Reachable(room, Apply(r, s))
  {
    var steps :| Runs(New(room), steps, r);
    RunThenStep(New(room), steps, r, s);
  }

  lemma ReachIntroduced(room: Room.State, r: Relay, fp: Fingerprint) returns (after: Relay)
    requires Reachable(room, r) && Enabled(r, Accept) && Room.IsAuthorized(r.service.room, fp)
    ensures Reachable(room, after)
    ensures after == r.(next := r.next + 1, conns := r.conns[r.next := Conn(Some(fp), Phase.Introduced, [], [], 0, [])])
  {
    Reach(room, r, Accept);
    var accepted := Apply(r, Accept);
    Reach(room, accepted, Introduce(r.next, fp));
    after := Apply(accepted, Introduce(r.next, fp));
    assert after.service == r.service;
  }

  lemma ReachChecked(room: Room.State, r: Relay, c: Id, fp: Fingerprint, nonce: seq<byte>) returns (after: Relay)
    requires Reachable(room, r) && c in r.conns && r.conns[c].phase == Phase.Introduced && r.conns[c].fp == Some(fp)
    requires fp in Room.Allowlist(r.service.room)
    requires nonce !in r.auth.usedNonces && Short(fp) !in r.auth.attempts
    ensures Reachable(room, after)
    ensures after == r.(conns := r.conns[c := r.conns[c].(phase := Verified)],
                        auth := Auth.State(r.auth.usedNonces + {nonce}, r.auth.attempts))
  {
    Reach(room, r, List(c));
    var listed := Apply(r, List(c));
    Reach(room, listed, Verify(c, nonce, 0, 0));
    after := Apply(listed, Verify(c, nonce, 0, 0));
    assert after.auth.attempts == r.auth.attempts;
  }

  lemma ReachServing(room: Room.State, r: Relay, c: Id, fp: Fingerprint) returns (after: Relay)
    requires Reachable(room, r) && c in r.conns && r.conns[c] == Conn(Some(fp), Verified, [], [], 0, [])
    requires Room.IsAuthorized(r.service.room, fp)
    ensures Reachable(room, after)
    ensures after == r.(conns := r.conns[c := Conn(Some(fp), Serving, [], [], 0, [])],
                        service := HostService.State(r.service.room,
                                                     r.service.clients[fp := HostService.Client(fp, c, true)]),
                        outbound := r.outbound + {c})
  {
    Reach(room, r, Register(c));
    var registered := Apply(r, Register(c));
    Reach(room, registered, OpenQueue(c));
    after := Apply(registered, OpenQueue(c));
  }

  /** An authorised client that answers in time signs in over a new connection. */
  lemma SignIn(room: Room.State, r: Relay, fp: Fingerprint, nonce: seq<byte>) returns (after: Relay)
    requires Reachable(room, r) && Enabled(r, Accept)
    requires Room.IsAuthorized(r.service.room, fp) && fp in Room.Allowlist(r.service.room)
    requires nonce !in r.auth.usedNonces && Short(fp) !in r.auth.attempts
    ensures Reachable(room, after) && after.next == r.next + 1
    ensures after.conns == r.conns[r.next := Conn(Some(fp), Serving, [], [], 0, [])]
    ensures after.service
         == HostService.State(r.service.room, r.service.clients[fp := HostService.Client(fp, r.next, true)])
    ensures after.outbound == r.outbound + {r.next}
    ensures after.auth == Auth.State(r.auth.usedNonces + {nonce}, r.auth.attempts)
  {
    var introduced := ReachIntroduced(room, r, fp);
    var checked := ReachChecked(room, introduced, r.next, fp, nonce);
    after := ReachServing(room, checked, r.next, fp);
  }

  /** The clean-up of a client's old connection unregisters its new one, which goes on being
      served but is no longer sent anything: connect, connect again, and let the first
      connection end. */
  lemma StaleCleanup(room: Room.State, fp: Fingerprint)
    requires Room.IsAuthorized(room, fp) && fp in Room.Allowlist(room)
    ensures exists r :: Reachable(room, r)
              && 2 in r.conns && r.conns[2].phase == Serving && r.conns[2].fp == Some(fp) && 2 in r.outbound
              && !IsRegistered(r, 2)
  {
    assert Runs(New(room), [], New(room));
    var a := SignIn(room, New(room), fp, [0]);
    var b := SignIn(room, a, fp, [1]);
    Reach(room, b, Disconnect(1));
    var c := Apply(b, Disconnect(1));
    Reach(room, c, Unregister(1));
    assert !IsRegistered(Apply(c, Unregister(1)), 2);
  }

  // ---------------------------------------------------------------------------
  // Delivery of one message

  /** A message can be put in the queue of d. */
  predicate Open(r: Relay, d: Id) {
    d in r.outbound && d in r.conns && r.conns[d].phase != Closed
  }

  /** Connection d is the registered connection of one of these fingerprints, and open. */
  predicate Reached(r: Relay, d: Id, fps: seq<Fingerprint>)
    requires d in r.conns
  {
    IsRegistered(r, d) && r.conns[d].fp.value in fps && Open(r, d)
  }

  predicate IsRouting(r: Relay, c: Id) {
    c in r.conns && r.conns[c].phase.Routing? && r.conns[c].received != []
  }

  function Message(r: Relay, c: Id): Queued
    requires IsRouting(r, c)
  {
    Queued(r.conns[c].phase.frame, c, |r.conns[c].received| - 1)
  }

  /** The task of c hands out its message, undisturbed by others. */
  function RouteAll(r: Relay, c: Id): Relay
    requires IsRouting(r, c)
    decreases |r.conns[c].phase.todo|
  {
    if r.conns[c].phase.todo == [] then r else RouteAll(Apply(r, RouteNext(c)), c)
  }

  lemma OneHanded(r: Relay, c: Id, d: Id)
    requires RelayOk(r) && IsRouting(r, c) && r.conns[c].phase.todo != [] && d in r.conns
    ensures var after := Apply(r, RouteNext(c));
      && IsRouting(after, c) && Message(after, c) == Message(r, c)
      && after.conns[c].phase.todo == r.conns[c].phase.todo[1..]
      && d in after.conns
      && after.conns[d].queued
         == r.conns[d].queued + (if Reached(r, d, r.conns[c].phase.todo[..1]) then [Message(r, c)] else [])
      && (forall fps :: Reached(after, d, fps) == Reached(r, d, fps))
  {
    assert r.conns[c].phase.todo[..1] == [r.conns[c].phase.todo[0]];
  }

  lemma ReachedOnce(r: Relay, d: Id, todo: seq<Fingerprint>)
    requires d in r.conns && HostService.NoRepeats(todo) && todo != []
    ensures Reached(r, d, todo) <==> Reached(r, d, todo[..1]) || Reached(r, d, todo[1..])
    ensures !(Reached(r, d, todo[..1]) && Reached(r, d, todo[1..]))
  {
    assert todo == todo[..1] + todo[1..];
  }

  /** By the time a message is handed out, the queue of every open, registered connection of
      its recipients has it once more, at the end, and no other queue has changed. */
  lemma {:induction false} EveryRecipientGetsOne(r: Relay, c: Id, d: Id)
    requires RelayOk(r) && IsRouting(r, c) && d in r.conns
    ensures d in RouteAll(r, c).conns
    ensures RouteAll(r, c).conns[d].queued
         == r.conns[d].queued + (if Reached(r, d, r.conns[c].phase.todo) then [Message(r, c)] else [])
    decreases |r.conns[c].phase.todo|
  {
    var todo := r.conns[c].phase.todo;
    if todo != [] {
      var after := Apply(r, RouteNext(c));
      assert RoutingOk(r.conns, c);
      OneHanded(r, c, d);
      RouteNextKeeps(r, c);
      EveryRecipientGetsOne(after, c, d);
      ReachedOnce(r, d, todo);
    }
  }

  /** When all recipients are served the task serves its client again, and nothing else of
      its connection has changed. */
  lemma {:induction false} ServesAgain(r: Relay, c: Id)
    requires RelayOk(r) && IsRouting(r, c)
    ensures IsRouting(RouteAll(r, c), c) && RouteAll(r, c).conns[c].phase.todo == []
    ensures CanStep(RouteAll(r, c), EndRouting(c))
    ensures Apply(RouteAll(r, c), EndRouting(c)).conns[c] == r.conns[c].(phase := Serving)
    decreases |r.conns[c].phase.todo|
  {
    if r.conns[c].phase.todo != [] {
      assert RoutingOk(r.conns, c);
      OwnStays(r, c);
      RouteNextKeeps(r, c);
      ServesAgain(Apply(r, RouteNext(c)), c);
    }
  }

  lemma OwnStays(r: Relay, c: Id)
    requires RelayOk(r) && IsRouting(r, c) && r.conns[c].phase.todo != []
    ensures IsRouting(Apply(r, RouteNext(c)), c)
    ensures var k := r.conns[c];
      Apply(r, RouteNext(c)).conns[c] == k.(phase := Routing(k.phase.frame, k.phase.todo[1..]))
  {
    HandTarget(r, c);
    assert RoutingOk(r.conns, c);
    assert r.conns[c].phase.todo[0] in r.conns[c].phase.todo;
  }

  /** A received message reaches exactly the open connections of ready clients other than
      its sender. */
  lemma ReceivedReachesOthers(r: Relay, c: Id, frame: Codec.Frame, order: seq<Fingerprint>, d: Id)
    requires RelayOk(r) && Enabled(r, Receive(c, frame, order)) && d in r.conns
    ensures var after := RouteAll(Apply(r, Receive(c, frame, order)), c);
      && d in after.conns
      && after.conns[d].queued == r.conns[d].queued +
           (if IsRegistered(r, d) && Open(r, d) && r.conns[d].fp != r.conns[c].fp
               && r.service.clients[r.conns[d].fp.value].ready
            then [Queued(frame, c, |r.conns[c].received|)] else [])
  {
    ReceiveKeeps(r, c, frame, order);
    EveryRecipientGetsOne(Apply(r, Receive(c, frame, order)), c, d);
  }

  // ---------------------------------------------------------------------------
  // Delivery with other tasks in between

  /** Throughout the run, connection d is the registered one of its client, and open. */
  ghost predicate StaysReachable(r: Relay, steps: seq<Step>, d: Id)
    decreases |steps|
  {
    && d in r.conns && IsRegistered(r, d) && Open(r, d)
    && (steps != [] ==> CanStep(r, steps[0]) && StaysReachable(Apply(r, steps[0]), steps[1..], d))
  }

  /** The message is in the queue of d, or the client of d is still to be served. */
  ghost predicate ServedOrWaiting(r: Relay, c: Id, d: Id, e: Queued)
    requires IsRouting(r, c) && d in r.conns && r.conns[d].fp.Some?
  {
    r.conns[d].fp.value in r.conns[c].phase.todo || e in r.conns[d].queued
  }

  /** A step of the routing task hands over to one more recipient. */
  lemma HandStep(r: Relay, c: Id, d: Id)
    requires RelayOk(r) && IsRouting(r, c) && CanStep(r, RouteNext(c))
    requires d in r.conns && IsRegistered(r, d) && Open(r, d)
    ensures var after := Apply(r, RouteNext(c));
      && IsRouting(after, c) && Message(after, c) == Message(r, c) && d in after.conns && after.conns[d].fp.Some?
      && (r.conns[d].fp.value in r.conns[c].phase.todo ==> ServedOrWaiting(after, c, d, Message(r, c)))
  {
    OneHanded(r, c, d);
    var todo, e, queue := r.conns[c].phase.todo, Message(r, c), r.conns[d].queued;
    assert todo == todo[..1] + todo[1..];
    assert (queue + [e])[|queue|] == e;
  }

  /** Any other step leaves the routing task where it is. */
  lemma AsideStep(r: Relay, s: Step, c: Id, d: Id)
    requires RelayOk(r) && IsRouting(r, c) && CanStep(r, s) && d in r.conns
    requires s != RouteNext(c) && s != EndRouting(c)
    ensures IsRouting(Apply(r, s), c) && Apply(r, s).conns[c].phase == r.conns[c].phase
    ensures Apply(r, s).conns[c].received == r.conns[c].received
  {
  }

  lemma RoutingStep(r: Relay, s: Step, c: Id, d: Id)
    requires RelayOk(r) && IsRouting(r, c) && CanStep(r, s) && s != EndRouting(c)
    requires d in r.conns && IsRegistered(r, d) && Open(r, d)
    ensures var after := Apply(r, s);
      && IsRouting(after, c) && Message(after, c) == Message(r, c) && d in after.conns && after.conns[d].fp.Some?
      && (r.conns[d].fp.value in r.conns[c].phase.todo ==> ServedOrWaiting(after, c, d, Message(r, c)))
  {
    if s == RouteNext(c) {
      HandStep(r, c, d);
    } else {
      AsideStep(r, s, c, d);
      StepKeepsConn(r, s, d);
    }
  }

  lemma {:induction false} QueuesOnlyGrow(r: Relay, steps: seq<Step>, last: Relay, d: Id)
    requires RelayOk(r) && Runs(r, steps, last) && d in r.conns
    ensures d in last.conns && r.conns[d].queued <= last.conns[d].queued
    decreases |steps|
  {
    if steps != [] {
      StepKeeps(r, steps[0]);
      StepKeepsConn(r, steps[0], d);
      QueuesOnlyGrow(Apply(r, steps[0]), steps[1..], last, d);
    }
  }

  lemma {:induction false} RoutedDespiteOthers(r: Relay, steps: seq<Step>, last: Relay, c: Id, d: Id)
    requires RelayOk(r) && IsRouting(r, c) && Runs(r, steps, last) && EndRouting(c) !in steps
    requires StaysReachable(r, steps, d)
    ensures IsRouting(last, c) && d in last.conns && last.conns[d].fp.Some?
    ensures r.conns[d].fp.value in r.conns[c].phase.todo ==> ServedOrWaiting(last, c, d, Message(r, c))
    decreases |steps|
  {
    if steps != [] {
      var next := Apply(r, steps[0]);
      StepKeeps(r, steps[0]);
      StepKeepsConn(r, steps[0], d);
      RoutingStep(r, steps[0], c, d);
      QueuesOnlyGrow(next, steps[1..], last, d);
      RoutedDespiteOthers(next, steps[1..], last, c, d);
    }
  }

  /** Exactly one entry of the queue is e. */
  ghost predicate ExactlyOne(queued: seq<Queued>, e: Queued) {
    exists k :: 0 <= k < |queued| && queued[k] == e && forall j :: 0 <= j < |queued| && queued[j] == e ==> j == k
  }

  /** Whatever other tasks do while a message is handed out, once its task is through, every
      connection that was registered for a ready client other than the sender, and stayed so
      and open all the while, has the message in its queue exactly once. */
  lemma DeliveredDespiteOthers(r: Relay, c: Id, frame: Codec.Frame, order: seq<Fingerprint>,
                               steps: seq<Step>, last: Relay, d: Id)
    requires RelayOk(r) && Enabled(r, Receive(c, frame, order))
    requires Runs(Apply(r, Receive(c, frame, order)), steps, last) && EndRouting(c) !in steps
    requires StaysReachable(Apply(r, Receive(c, frame, order)), steps, d)
    requires d in r.conns && IsRegistered(r, d) && r.conns[d].fp != r.conns[c].fp
    requires r.service.clients[r.conns[d].fp.value].ready
    ensures IsRouting(last, c) && d in last.conns
    ensures last.conns[c].phase.todo == []
      ==> ExactlyOne(last.conns[d].queued, Queued(frame, c, |r.conns[c].received|))
  {
    var start := Apply(r, Receive(c, frame, order));
    ReceiveKeeps(r, c, frame, order);
    RoutedDespiteOthers(start, steps, last, c, d);
    RunKeeps(start, steps, last);
    var e := Queued(frame, c, |r.conns[c].received|);
    if last.conns[c].phase.todo == [] {
      var k :| 0 <= k < |last.conns[d].queued| && last.conns[d].queued[k] == e;
      assert InOrder(last.conns[d].queued);
    }
  }
}
