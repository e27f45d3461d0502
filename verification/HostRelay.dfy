/** The relay as a state machine: one task per connection, each block that runs under a lock
    one step, all steps of all tasks interleaved in any order. */
module HostRelay {
  import opened Basics
  import opened Members
  import Auth
  import Codec
  import HostService
  import Room

  const ROOM_MESSAGE: byte := 0x10

  type Id = u64

  /** Where the task of a connection is. A closed task has returned: its receiving end of
      the queue is gone. */
  datatype Phase =
    | Greeting
    | Introduced
    | Listed(allowed: set<Fingerprint>)
    | Verified
    | Registered
    | Serving
    | Routing(frame: Codec.Frame, todo: seq<Fingerprint>)
    | Leaving
    | Unregistered
    | Closed

  /** A frame put in a queue: message number `index` of connection `from`. */
  datatype Queued = Queued(frame: Codec.Frame, from: Id, index: nat)

  /** A connection: the fingerprint it introduced itself with, the room messages received
      from it, everything ever put in its queue, how much of that was taken out, and what was
      written to the client. */
  datatype Conn = Conn(fp: Option<Fingerprint>, phase: Phase, received: seq<Codec.Frame>,
                       queued: seq<Queued>, taken: nat, written: seq<Codec.Frame>)

  datatype Relay = Relay(service: HostService.State, auth: Auth.State, next: Id,
                         conns: map<Id, Conn>, outbound: set<Id>)

  function New(room: Room.State): Relay {
    Relay(HostService.State(room, map[]), Auth.NEW, 1, map[], {})
  }

  datatype Step =
    | Accept
    | Introduce(c: Id, fp: Fingerprint)
    | List(c: Id)
    | Verify(c: Id, nonce: seq<byte>, timestamp: u64, now: u64)
    | Register(c: Id)
    | OpenQueue(c: Id)
    | Receive(c: Id, frame: Codec.Frame, order: seq<Fingerprint>)
    | RouteNext(c: Id)
    | EndRouting(c: Id)
    | Take(c: Id, sent: bool)
    | Disconnect(c: Id)
    | Unregister(c: Id)
    | DropQueue(c: Id)
    | Abort(c: Id)
    | Revoke(fp: Fingerprint)
    | Purge

  /** The recipients of a message, each once, in whatever order the registry lists them. */
  ghost predicate RecipientsInOrder(service: HostService.State, sender: Fingerprint, order: seq<Fingerprint>) {
    && HostService.NoRepeats(order)
    && (forall fp :: fp in order <==> fp in HostService.Recipients(service, sender))
  }

  ghost predicate CanReceive(service: HostService.State, k: Conn, frame: Codec.Frame, order: seq<Fingerprint>) {
    && k.phase == Serving && k.fp.Some?
    && frame.messageType == ROOM_MESSAGE
    && RecipientsInOrder(service, k.fp.value, order)
  }

  ghost predicate Enabled(r: Relay, s: Step) {
    match s
    case Accept => r.next < U64_MAX && r.next !in r.conns
    case Revoke(_) => true
    case Purge => true
    case _ =>
      s.c in r.conns &&
      var k := r.conns[s.c];
      match s
      case Introduce(_, _) => k.phase == Greeting
      case List(_) => k.phase == Introduced
      case Verify(_, _, _, _) => k.phase.Listed? && k.fp.Some?
      case Register(_) => k.phase == Verified && k.fp.Some?
      case OpenQueue(_) => k.phase == Registered
      case Receive(_, frame, order) => CanReceive(r.service, k, frame, order)
      case RouteNext(_) => k.phase.Routing? && k.phase.todo != []
      case EndRouting(_) => k.phase.Routing? && k.phase.todo == []
      case Take(_, _) => k.phase == Serving && k.taken < |k.queued|
      case Disconnect(_) => k.phase == Serving
      case Unregister(_) => k.phase == Leaving && k.fp.Some?
      case DropQueue(_) => k.phase == Unregistered
      case Abort(_) => !PastVerified(k.phase) || k.phase.Serving?
  }

  /** A step can be taken; a task that routes has received what it routes. */
  ghost predicate CanStep(r: Relay, s: Step) {
    Enabled(r, s) && (s.RouteNext? ==> r.conns[s.c].received != [])
  }

  /** The connection's task moves on. */
  function Goto(r: Relay, c: Id, phase: Phase): Relay
    requires c in r.conns
  {
    r.(conns := r.conns[c := r.conns[c].(phase := phase)])
  }

  /** Put a frame in a queue, if the sending end is still listed and the receiving end alive. */
  function Enqueue(r: Relay, d: Id, e: Queued): Relay {
    if d in r.outbound && d in r.conns && r.conns[d].phase != Closed then
      r.(conns := r.conns[d := r.conns[d].(queued := r.conns[d].queued + [e])])
    else r
  }

  /** Hand the message being routed to one more recipient, if it is still connected. */
  function Hand(r: Relay, c: Id): Relay
    requires c in r.conns && r.conns[c].phase.Routing? && r.conns[c].phase.todo != [] && r.conns[c].received != []
  {
    var k := r.conns[c];
    match HostService.ConnectionFor(r.service, k.phase.todo[0])
    case None => r
    case Some(d) => Enqueue(r, d, Queued(k.phase.frame, c, |k.received| - 1))
  }

  /** The next entry is taken out and written to the client; when that fails the task leaves. */
  function TakeOne(k: Conn, sent: bool): Conn
    requires k.taken < |k.queued|
  {
    if sent then k.(taken := k.taken + 1, written := k.written + [k.queued[k.taken].frame])
    else k.(taken := k.taken + 1, phase := Leaving)
  }

  function Apply(r: Relay, s: Step): Relay
    requires CanStep(r, s)
  {
    match s
    case Accept => r.(next := r.next + 1, conns := r.conns[r.next := Conn(None, Greeting, [], [], 0, [])])
    case Introduce(c, fp) =>
      r.(service := r.service.(room := Room.Admit(r.service.room, Room.Entry(fp, Member, Active))),
         conns := r.conns[c := r.conns[c].(fp := Some(fp), phase := Introduced)])
    case List(c) => Goto(r, c, Listed(Room.Allowlist(r.service.room)))
    case Verify(c, nonce, timestamp, now) =>
      var k := r.conns[c];
      var (auth, outcome) := Auth.Verify(r.auth, Auth.Request(nonce, timestamp, k.fp.value, now, k.phase.allowed));
      Goto(r, c, if outcome.Ok? then Verified else Closed).(auth := auth)
    case Register(c) =>
      var fp := r.conns[c].fp.value;
      (match HostService.Register(r.service, fp, c)
       case Err(_) => Goto(r, c, Closed)
       case Ok(service) => Goto(r, c, Registered).(service := HostService.MarkReady(service, fp)))
    case OpenQueue(c) => Goto(r, c, Serving).(outbound := r.outbound + {c})
    case Receive(c, frame, order) =>
      r.(conns := r.conns[c := r.conns[c].(phase := Routing(frame, order), received := r.conns[c].received + [frame])])
    case RouteNext(c) =>
      var after := Hand(r, c);
      Goto(after, c, Routing(r.conns[c].phase.frame, r.conns[c].phase.todo[1..]))
    case EndRouting(c) => Goto(r, c, Serving)
    case Take(c, sent) => r.(conns := r.conns[c := TakeOne(r.conns[c], sent)])
    case Disconnect(c) => Goto(r, c, Leaving)
    case Unregister(c) => Goto(r, c, Unregistered).(service := HostService.Remove(r.service, r.conns[c].fp.value))
    case DropQueue(c) => Goto(r, c, Closed).(outbound := r.outbound - {c})
    case Abort(c) => Goto(r, c, Closed)
    case Revoke(fp) => r.(service := r.service.(room := Room.Try(r.service.room, Room.RevokeOp(fp))))
    case Purge => r.(auth := Auth.Purge(r.auth))
  }

  // ---------------------------------------------------------------------------
  // The invariant

  /** An entry of a queue is a message received from a connection of a different fingerprint. */
  ghost predicate Genuine(conns: map<Id, Conn>, d: Id, e: Queued)
    requires d in conns
  {
    && e.from in conns
    && conns[e.from].fp.Some? && conns[d].fp.Some? && conns[e.from].fp != conns[d].fp
    && e.index < |conns[e.from].received|
    && e.frame == conns[e.from].received[e.index]
    && e.frame.messageType == 0x10
  }

  ghost predicate AllGenuine(conns: map<Id, Conn>, d: Id)
    requires d in conns
  {
    forall k :: 0 <= k < |conns[d].queued| ==> Genuine(conns, d, conns[d].queued[k])
  }

  /** Entries of one source are in the order in which they were received, with no repeats. */
  ghost predicate InOrder(queued: seq<Queued>) {
    forall j, k :: 0 <= j < k < |queued| && queued[j].from == queued[k].from ==> queued[j].index < queued[k].index
  }

  ghost predicate QueuesOk(conns: map<Id, Conn>) {
    forall d :: d in conns ==> AllGenuine(conns, d) && InOrder(conns[d].queued) && conns[d].taken <= |conns[d].queued|
  }

  /** No entry of the queue is the latest message of c. */
  ghost predicate WithoutLatest(queued: seq<Queued>, c: Id, latest: nat) {
    forall k :: 0 <= k < |queued| && queued[k].from == c ==> queued[k].index < latest
  }

  /** What is being routed is the latest message, and the connections of those still to be
      served do not have it. */
  ghost predicate RoutingOk(conns: map<Id, Conn>, c: Id)
    requires c in conns && conns[c].phase.Routing?
  {
    var k := conns[c];
    && k.received != [] && k.phase.frame == k.received[|k.received| - 1] && k.phase.frame.messageType == ROOM_MESSAGE
    && HostService.NoRepeats(k.phase.todo)
    && k.fp.Some? && k.fp.value !in k.phase.todo
    && forall d :: d in conns && conns[d].fp.Some? && conns[d].fp.value in k.phase.todo
         ==> WithoutLatest(conns[d].queued, c, |k.received| - 1)
  }

  ghost predicate RoutingsOk(conns: map<Id, Conn>) {
    forall c :: c in conns && conns[c].phase.Routing? ==> RoutingOk(conns, c)
  }

  ghost predicate PhasesOk(conns: map<Id, Conn>) {
    forall c :: c in conns ==>
      && (conns[c].fp.None? ==> conns[c].phase.Greeting? || conns[c].phase.Closed?)
      && (conns[c].phase.Greeting? ==> conns[c].fp.None?)
  }

  /** Has the task gone beyond checking the client? It never goes back. */
  predicate PastVerified(phase: Phase) {
    !phase.Greeting? && !phase.Introduced? && !phase.Listed? && !phase.Verified?
  }

  /** Every registered client names a connection of its own fingerprint, whose task has gone
      through registration. */
  ghost predicate RegistryOk(r: Relay) {
    forall fp :: fp in r.service.clients ==>
      var c := r.service.clients[fp].connection;
      c in r.conns && r.conns[c].fp == Some(fp) && PastVerified(r.conns[c].phase)
  }

  ghost predicate RelayOk(r: Relay) {
    && (forall c :: c in r.conns ==> c < r.next)
    && PhasesOk(r.conns)
    && RegistryOk(r)
    && QueuesOk(r.conns)
    && RoutingsOk(r.conns)
  }

  lemma NewOk(room: Room.State)
    ensures RelayOk(New(room))
  {
  }

  // ---------------------------------------------------------------------------
  // What each kind of step keeps

  /** Connections are never forgotten, keep their fingerprint, and only receive more. */
  ghost predicate ConnsGrow(a: map<Id, Conn>, b: map<Id, Conn>) {
    forall c :: c in a ==> c in b && (a[c].fp.Some? ==> b[c].fp == a[c].fp) && a[c].received <= b[c].received
  }

  lemma AllGenuineGrows(a: map<Id, Conn>, b: map<Id, Conn>, d: Id)
    requires ConnsGrow(a, b) && d in a && AllGenuine(a, d) && b[d].queued == a[d].queued
    ensures AllGenuine(b, d)
  {
    forall k | 0 <= k < |b[d].queued| ensures Genuine(b, d, b[d].queued[k]) {
      assert Genuine(a, d, a[d].queued[k]);
    }
  }

  /** One connection changes, and its queue does not. */
  lemma QueuesKept(a: map<Id, Conn>, c: Id, k: Conn)
    requires c in a && QueuesOk(a) && ConnsGrow(a, a[c := k])
    requires k.queued == a[c].queued && k.taken <= |k.queued|
    ensures QueuesOk(a[c := k])
  {
    var b := a[c := k];
    forall d | d in b ensures AllGenuine(b, d) {
      AllGenuineGrows(a, b, d);
    }
  }

  /** One connection changes, but not what it received, and its task is not routing. */
  lemma RoutingsKept(a: map<Id, Conn>, c: Id, k: Conn)
    requires c in a && RoutingsOk(a)
    requires k.queued == a[c].queued && k.received == a[c].received && !k.phase.Routing?
    requires k.fp == a[c].fp || k.queued == []
    ensures RoutingsOk(a[c := k])
  {
    var b := a[c := k];
    forall s | s in b && b[s].phase.Routing? ensures RoutingOk(b, s) {
      assert RoutingOk(a, s);
    }
  }

  lemma NoFingerprintNoQueue(a: map<Id, Conn>, c: Id)
    requires c in a && QueuesOk(a) && a[c].fp.None?
    ensures a[c].queued == []
  {
    assert AllGenuine(a, c);
    assert a[c].queued != [] ==> Genuine(a, c, a[c].queued[0]);
  }

  /** A task moves to a phase other than routing. */
  lemma GotoKeeps(r: Relay, c: Id, phase: Phase)
    requires RelayOk(r) && c in r.conns && !phase.Routing?
    requires (r.conns[c].fp.Some? && !phase.Greeting?) || phase.Closed?
    requires PastVerified(r.conns[c].phase) ==> PastVerified(phase)
    ensures RelayOk(Goto(r, c, phase))
  {
    var k := r.conns[c].(phase := phase);
    QueuesKept(r.conns, c, k);
    RoutingsKept(r.conns, c, k);
  }

  lemma AcceptKeeps(r: Relay)
    requires RelayOk(r) && Enabled(r, Accept)
    ensures RelayOk(Apply(r, Accept))
  {
    var b := Apply(r, Accept).conns;
    forall d | d in b ensures AllGenuine(b, d) {
      if d in r.conns {
        AllGenuineGrows(r.conns, b, d);
      }
    }
    forall s | s in b && b[s].phase.Routing? ensures RoutingOk(b, s) {
      assert RoutingOk(r.conns, s);
    }
  }

  lemma IntroduceKeeps(r: Relay, c: Id, fp: Fingerprint)
    requires RelayOk(r) && Enabled(r, Introduce(c, fp))
    ensures RelayOk(Apply(r, Introduce(c, fp)))
  {
    var k := r.conns[c].(fp := Some(fp), phase := Introduced);
    NoFingerprintNoQueue(r.conns, c);
    QueuesKept(r.conns, c, k);
    RoutingsKept(r.conns, c, k);
  }

  lemma RegisterKeeps(r: Relay, c: Id)
    requires RelayOk(r) && Enabled(r, Register(c))
    ensures RelayOk(Apply(r, Register(c)))
  {
    var after := Apply(r, Register(c));
    GotoKeeps(r, c, after.conns[c].phase);
    assert RegistryOk(after);
  }

  lemma UnregisterKeeps(r: Relay, c: Id)
    requires RelayOk(r) && Enabled(r, Unregister(c))
    ensures RelayOk(Apply(r, Unregister(c)))
  {
    GotoKeeps(r, c, Unregistered);
  }

  lemma TakeKeeps(r: Relay, c: Id, sent: bool)
    requires RelayOk(r) && Enabled(r, Take(c, sent))
    ensures RelayOk(Apply(r, Take(c, sent)))
  {
    var k := TakeOne(r.conns[c], sent);
    QueuesKept(r.conns, c, k);
    RoutingsKept(r.conns, c, k);
  }

  /** What was queued from a connection came before a message it sends now. */
  lemma NewIsLatest(conns: map<Id, Conn>, d: Id, c: Id)
    requires c in conns && d in conns && AllGenuine(conns, d)
    ensures WithoutLatest(conns[d].queued, c, |conns[c].received|)
  {
    forall k | 0 <= k < |conns[d].queued| && conns[d].queued[k].from == c
      ensures conns[d].queued[k].index < |conns[c].received|
    {
      assert Genuine(conns, d, conns[d].queued[k]);
    }
  }

  lemma ReceiveKeeps(r: Relay, c: Id, frame: Codec.Frame, order: seq<Fingerprint>)
    requires RelayOk(r) && Enabled(r, Receive(c, frame, order))
    ensures RelayOk(Apply(r, Receive(c, frame, order)))
  {
    var a, b := r.conns, Apply(r, Receive(c, frame, order)).conns;
    QueuesKept(a, c, b[c]);
    NewRouting(a, c, frame, order);
  }

  /** A message just received is routed to its recipients, none of whom has it yet. */
  lemma NewRouting(a: map<Id, Conn>, c: Id, frame: Codec.Frame, order: seq<Fingerprint>)
    requires c in a && QueuesOk(a) && RoutingsOk(a) && a[c].fp.Some? && a[c].phase == Serving
    requires frame.messageType == ROOM_MESSAGE && HostService.NoRepeats(order) && a[c].fp.value !in order
    ensures RoutingsOk(a[c := a[c].(phase := Routing(frame, order), received := a[c].received + [frame])])
  {
    var b := a[c := a[c].(phase := Routing(frame, order), received := a[c].received + [frame])];
    forall d | d in b ensures WithoutLatest(b[d].queued, c, |a[c].received|) {
      NewIsLatest(a, d, c);
    }
    assert RoutingOk(b, c);
    forall s | s in b && s != c && b[s].phase.Routing? ensures RoutingOk(b, s) {
      assert RoutingOk(a, s);
    }
  }

  /** A queue takes one more entry. */
  lemma EnqueueKeepsQueues(a: map<Id, Conn>, d: Id, e: Queued)
    requires d in a && QueuesOk(a) && Genuine(a, d, e) && WithoutLatest(a[d].queued, e.from, e.index)
    ensures QueuesOk(a[d := a[d].(queued := a[d].queued + [e])])
  {
    var b := a[d := a[d].(queued := a[d].queued + [e])];
    forall x | x in b ensures AllGenuine(b, x) && InOrder(b[x].queued) {
      assert AllGenuine(a, x);
      if x != d {
        AllGenuineGrows(a, b, x);
      } else {
        forall k | 0 <= k < |b[d].queued| ensures Genuine(b, d, b[d].queued[k]) {
          if k < |a[d].queued| {
            assert Genuine(a, d, a[d].queued[k]);
          }
        }
      }
    }
  }

  /** A message goes to a connection of the next fingerprint to serve, or nowhere. */
  lemma HandTarget(r: Relay, c: Id)
    requires RelayOk(r) && Enabled(r, RouteNext(c))
    ensures r.conns[c].received != []
    ensures Hand(r, c) == r || exists d :: HandsTo(r, c, d)
  {
    assert RoutingOk(r.conns, c);
    var at := HostService.ConnectionFor(r.service, r.conns[c].phase.todo[0]);
    if at.Some? && Hand(r, c) != r {
      assert HandsTo(r, c, at.value);
    }
  }

  ghost predicate HandsTo(r: Relay, c: Id, d: Id)
    requires c in r.conns && r.conns[c].phase.Routing? && r.conns[c].phase.todo != [] && r.conns[c].received != []
  {
    && d in r.conns && r.conns[d].fp == Some(r.conns[c].phase.todo[0])
    && Hand(r, c) == r.(conns := Handed(r.conns, c, d))
  }

  ghost function Handed(a: map<Id, Conn>, c: Id, d: Id): map<Id, Conn>
    requires c in a && d in a && a[c].phase.Routing? && a[c].received != []
  {
    a[d := a[d].(queued := a[d].queued + [Queued(a[c].phase.frame, c, |a[c].received| - 1)])]
  }

  lemma HandedKeepsQueues(a: map<Id, Conn>, c: Id, d: Id)
    requires QueuesOk(a) && c in a && d in a && a[c].phase.Routing? && RoutingOk(a, c) && a[c].phase.todo != []
    requires a[d].fp == Some(a[c].phase.todo[0])
    ensures QueuesOk(Handed(a, c, d))
  {
    var e := Queued(a[c].phase.frame, c, |a[c].received| - 1);
    assert a[c].phase.todo[0] in a[c].phase.todo;
    assert Genuine(a, d, e);
    EnqueueKeepsQueues(a, d, e);
  }

  /** The task that hands out its message moves on to the recipients that are left. */
  ghost function MovedOn(b: map<Id, Conn>, c: Id): map<Id, Conn>
    requires c in b && b[c].phase.Routing? && b[c].phase.todo != []
  {
    b[c := b[c].(phase := Routing(b[c].phase.frame, b[c].phase.todo[1..]))]
  }

  lemma MovedOnKeeps(a: map<Id, Conn>, c: Id)
    requires QueuesOk(a) && RoutingsOk(a) && c in a && a[c].phase.Routing? && a[c].phase.todo != []
    ensures QueuesOk(MovedOn(a, c)) && RoutingsOk(MovedOn(a, c))
  {
    var b := MovedOn(a, c);
    QueuesKept(a, c, b[c]);
    assert RoutingOk(a, c);
    assert forall fp :: fp in b[c].phase.todo ==> fp in a[c].phase.todo;
    forall s | s in b && b[s].phase.Routing? ensures RoutingOk(b, s) {
      assert RoutingOk(a, s);
    }
  }

  /** The connection that was served is of a fingerprint that is not left. */
  lemma RestIsWithout(a: map<Id, Conn>, c: Id, d: Id)
    requires c in a && d in a && a[c].phase.Routing? && RoutingOk(a, c)
    requires a[c].phase.todo != [] && a[d].fp == Some(a[c].phase.todo[0])
    ensures c != d
    ensures RoutingOk(MovedOn(Handed(a, c, d), c), c)
  {
    var b := MovedOn(Handed(a, c, d), c);
    var todo, rest := a[c].phase.todo, b[c].phase.todo;
    assert todo[0] in todo;
    assert forall fp :: fp in rest ==> fp in todo && fp != todo[0];
  }

  /** Nothing changes for the other tasks that are routing. */
  lemma OthersRoute(a: map<Id, Conn>, c: Id, d: Id, s: Id)
    requires c in a && d in a && a[c].phase.Routing? && a[c].received != [] && a[c].phase.todo != [] && c != d
    requires s in a && s != c && a[s].phase.Routing? && RoutingOk(a, s)
    ensures RoutingOk(MovedOn(Handed(a, c, d), c), s)
  {
  }

  lemma HandedThenMovedOn(a: map<Id, Conn>, c: Id, d: Id)
    requires QueuesOk(a) && RoutingsOk(a) && c in a && d in a && a[c].phase.Routing? && RoutingOk(a, c)
    requires a[c].phase.todo != [] && a[d].fp == Some(a[c].phase.todo[0])
    ensures c != d
    ensures QueuesOk(MovedOn(Handed(a, c, d), c)) && RoutingsOk(MovedOn(Handed(a, c, d), c))
  {
    RestIsWithout(a, c, d);
    var h := Handed(a, c, d);
    HandedKeepsQueues(a, c, d);
    QueuesKept(h, c, MovedOn(h, c)[c]);
    forall s | s in a && s != c && a[s].phase.Routing? ensures RoutingOk(MovedOn(h, c), s) {
      OthersRoute(a, c, d, s);
    }
  }

  /** The rest of the invariant depends on little of each connection. */
  lemma SameConnections(r: Relay, after: Relay)
    requires RelayOk(r) && after.service == r.service && after.next == r.next
    requires after.conns.Keys == r.conns.Keys
    requires forall c :: c in r.conns ==>
               && after.conns[c].fp == r.conns[c].fp
               && (|| after.conns[c].phase == r.conns[c].phase
                   || (r.conns[c].phase.Routing? && after.conns[c].phase.Routing?))
    requires QueuesOk(after.conns) && RoutingsOk(after.conns)
    ensures RelayOk(after)
  {
  }

  lemma RouteNowhereKeeps(r: Relay, c: Id)
    requires RelayOk(r) && Enabled(r, RouteNext(c)) && r.conns[c].received != [] && Hand(r, c) == r
    ensures RelayOk(Apply(r, RouteNext(c)))
  {
    MovedOnKeeps(r.conns, c);
    var after := Apply(r, RouteNext(c));
    assert after.conns == MovedOn(r.conns, c);
    SameConnections(r, after);
  }

  lemma RouteToChanges(r: Relay, c: Id, d: Id)
    requires Enabled(r, RouteNext(c)) && r.conns[c].received != [] && HandsTo(r, c, d) && c != d
    ensures Apply(r, RouteNext(c)) == r.(conns := MovedOn(Handed(r.conns, c, d), c))
  {
  }

  lemma RouteToKeeps(r: Relay, c: Id, d: Id)
    requires RelayOk(r) && Enabled(r, RouteNext(c)) && r.conns[c].received != [] && HandsTo(r, c, d)
    ensures RelayOk(Apply(r, RouteNext(c)))
  {
    assert RoutingOk(r.conns, c);
    HandedThenMovedOn(r.conns, c, d);
    RouteToChanges(r, c, d);
    SameConnections(r, r.(conns := MovedOn(Handed(r.conns, c, d), c)));
  }

  lemma RouteNextKeeps(r: Relay, c: Id)
    requires RelayOk(r) && Enabled(r, RouteNext(c))
    ensures r.conns[c].received != [] && RelayOk(Apply(r, RouteNext(c)))
  {
    HandTarget(r, c);
    if Hand(r, c) == r {
      RouteNowhereKeeps(r, c);
    } else {
      var d :| HandsTo(r, c, d);
      RouteToKeeps(r, c, d);
    }
  }

  lemma StepKeeps(r: Relay, s: Step)
    requires RelayOk(r) && Enabled(r, s)
    ensures CanStep(r, s) && RelayOk(Apply(r, s))
  {
    match s {
      case Accept => AcceptKeeps(r);
      case Introduce(c, fp) => IntroduceKeeps(r, c, fp);
      case List(c) => GotoKeeps(r, c, Listed(Room.Allowlist(r.service.room)));
      case Verify(c, _, _, _) => GotoKeeps(r, c, Apply(r, s).conns[c].phase);
      case Register(c) => RegisterKeeps(r, c);
      case OpenQueue(c) => GotoKeeps(r, c, Serving);
      case Receive(c, frame, order) => ReceiveKeeps(r, c, frame, order);
      case RouteNext(c) => RouteNextKeeps(r, c);
      case EndRouting(c) => GotoKeeps(r, c, Serving);
      case Take(c, sent) => TakeKeeps(r, c, sent);
      case Disconnect(c) => GotoKeeps(r, c, Leaving);
      case Unregister(c) => UnregisterKeeps(r, c);
      case DropQueue(c) => GotoKeeps(r, c, Closed);
      case Abort(c) => GotoKeeps(r, c, Closed);
      case Revoke(_) =>
      case Purge =>
    }
  }

  // ---------------------------------------------------------------------------
  // Every interleaving

  ghost predicate Runs(r: Relay, steps: seq<Step>, last: Relay)
    decreases |steps|
  {
    if steps == [] then last == r
    else
      && CanStep(r, steps[0])
      && Runs(Apply(r, steps[0]), steps[1..], last)
  }

  lemma {:induction false} RunKeeps(r: Relay, steps: seq<Step>, last: Relay)
    requires RelayOk(r) && Runs(r, steps, last)
    ensures RelayOk(last)
    decreases |steps|
  {
    if steps != [] {
      StepKeeps(r, steps[0]);
      RunKeeps(Apply(r, steps[0]), steps[1..], last);
    }
  }

  /** In every interleaving, each frame ever queued for a connection is a room message
      received, byte for byte, from a connection of a different fingerprint; no message is
      queued twice for it; and messages received over one connection keep their order. */
  lemma OnlyOthersMessagesOnceInOrder(room: Room.State, steps: seq<Step>, last: Relay, d: Id)
    requires Runs(New(room), steps, last) && d in last.conns
    ensures forall k :: 0 <= k < |last.conns[d].queued| ==> Genuine(last.conns, d, last.conns[d].queued[k])
    ensures forall j, k :: 0 <= j < k < |last.conns[d].queued|
              && last.conns[d].queued[j].from == last.conns[d].queued[k].from
              ==> last.conns[d].queued[j].index < last.conns[d].queued[k].index
  {
    NewOk(room);
    RunKeeps(New(room), steps, last);
    assert AllGenuine(last.conns, d) && InOrder(last.conns[d].queued);
  }
}
