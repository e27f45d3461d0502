/** The registry of connected clients kept beside the room, and who a message goes to. */
module HostService {
  import opened Basics
  import opened Members
  import Room

  datatype Client = Client(fingerprint: Fingerprint, connection: u64, ready: bool)

  datatype State = State(room: Room.State, clients: map<Fingerprint, Client>)

  datatype Error = NotAuthorized

  datatype Event = ClientConnected(fp: Fingerprint) | ClientDisconnected(fp: Fingerprint)

  function Register(s: State, fp: Fingerprint, connection: u64): Result<State, Error> {
    if !Room.IsAuthorized(s.room, fp) then Err(NotAuthorized)
    else Ok(s.(clients := s.clients[fp := Client(fp, connection, false)]))
  }

  function MarkReady(s: State, fp: Fingerprint): State {
    if fp in s.clients then s.(clients := s.clients[fp := s.clients[fp].(ready := true)]) else s
  }

  /** The entry of a fingerprint goes, whichever connection it names. */
  function Remove(s: State, fp: Fingerprint): State {
    s.(clients := s.clients - {fp})
  }

  function Recipients(s: State, sender: Fingerprint): set<Fingerprint> {
    set fp | fp in s.clients && fp != sender && s.clients[fp].ready
  }

  function ConnectionFor(s: State, fp: Fingerprint): Option<u64> {
    if fp in s.clients then Some(s.clients[fp].connection) else None
  }

  predicate NoRepeats(fps: seq<Fingerprint>) {
    forall i, j :: 0 <= i < j < |fps| ==> fps[i] != fps[j]
  }

  class HostService {
    const room: Room.Room
    var connectedClients: map<Fingerprint, Client>
    /** What was sent to whoever listens. */
    var events: seq<Event>

    function View(): State
      reads this, room
    {
      State(room.View(), connectedClients)
    }

    constructor (room: Room.Room)
      ensures this.room == room && View() == State(room.View(), map[]) && events == []
    {
      this.room, connectedClients, events := room, map[], [];
    }

    method RegisterClient(fp: Fingerprint, connection: u64) returns (r: Result<(), Error>)
      modifies this`connectedClients, this`events
      ensures match Register(old(View()), fp, connection)
              case Ok(after) => r == Ok(()) && View() == after && events == old(events) + [ClientConnected(fp)]
              case Err(e) => r == Err(e) && View() == old(View()) && events == old(events)
      ensures r.Ok? <==> Room.IsAuthorized(room.View(), fp)
      ensures connectedClients
           == if r.Ok? then old(connectedClients)[fp := Client(fp, connection, false)] else old(connectedClients)
    {
      if !Room.IsAuthorized(room.View(), fp) {
        return Err(NotAuthorized);
      }
      connectedClients := connectedClients[fp := Client(fp, connection, false)];
      events := events + [ClientConnected(fp)];
      r := Ok(());
    }

    method MarkClientReady(fp: Fingerprint)
      modifies this`connectedClients
      ensures View() == MarkReady(old(View()), fp)
      ensures connectedClients.Keys == old(connectedClients).Keys
      ensures forall p :: p in connectedClients ==>
        connectedClients[p] == old(connectedClients)[p].(ready := p == fp || old(connectedClients)[p].ready)
    {
      if fp in connectedClients {
        connectedClients := connectedClients[fp := connectedClients[fp].(ready := true)];
      }
    }

    method RemoveClient(fp: Fingerprint)
      modifies this`connectedClients, this`events
      ensures connectedClients == old(connectedClients) - {fp}
      ensures View() == Remove(old(View()), fp) && events == old(events) + [ClientDisconnected(fp)]
    {
      connectedClients := connectedClients - {fp};
      events := events + [ClientDisconnected(fp)];
    }

    /** Every connected, ready client except the sender, each once, in no particular order. */
    method RouteRecipients(sender: Fingerprint) returns (fps: seq<Fingerprint>)
      ensures NoRepeats(fps)
      ensures forall fp :: fp in fps <==> fp in Recipients(View(), sender)
      ensures forall fp :: fp in fps <==> fp in connectedClients && fp != sender && connectedClients[fp].ready
    {
      fps := [];
      var left := connectedClients.Keys;
      while left != {}
        invariant left <= connectedClients.Keys
        invariant NoRepeats(fps)
        invariant forall fp :: fp in fps <==> fp in Recipients(View(), sender) && fp !in left
        decreases |left|
      {
        var fp :| fp in left;
        left := left - {fp};
        if fp != sender && connectedClients[fp].ready {
          fps := fps + [fp];
        }
      }
    }
  }
}
