/** What the relay's runs keep of the room, and what a client's check is worth by the time it
    registers. */
module RelayMembership {
  import opened Basics
  import opened Members
  import opened HostRelay
  import HostService
  import Room

  predicate HasEntry(room: Room.State, fp: Fingerprint) {
    Room.Find(room.members, fp).Some?
  }

  /** There is an entry, and it is revoked. */
  predicate IsRevoked(room: Room.State, fp: Fingerprint) {
    HasEntry(room, fp) && !Room.IsAuthorized(room, fp)
  }

  /** Fingerprints in the room are distinct. A list that some client is about to be checked
      against names only members, past or present, and so does the registry. */
  ghost predicate MembersOk(r: Relay) {
    && Room.Distinct(r.service.room.members)
    && (forall c :: c in r.conns && r.conns[c].phase.Listed?
          ==> forall fp :: fp in r.conns[c].phase.allowed ==> HasEntry(r.service.room, fp))
    && (forall fp :: fp in r.service.clients ==> HasEntry(r.service.room, fp))
  }

  lemma {:induction false} GrowsKeepsEntry(a: Room.State, b: Room.State, fp: Fingerprint)
    requires Room.Grows(a, b) && HasEntry(a, fp)
    ensures Room.Find(b.members, fp) == Room.Find(a.members, fp)
    ensures IsRevoked(a, fp) ==> IsRevoked(b, fp)
  {
    var at := Room.Find(a.members, fp).value;
    forall i | 0 <= i <= at ensures b.members[i].fingerprint == a.members[i].fingerprint {
    }
  }

  lemma OneOp(room: Room.State, op: Room.Op)
    ensures Room.Grows(room, Room.Try(room, op))
  {
    Room.RunGrows(room, [op]);
    assert [op][1..] == [];
    assert Room.TryAll(room, [op]) == Room.TryAll(Room.Try(room, op), []);
  }

  /** A step adds at most one entry, or revokes at most one. */
  lemma RoomStep(r: Relay, s: Step)
    requires CanStep(r, s)
    requires Room.Distinct(r.service.room.members)
    ensures Room.Grows(r.service.room, Apply(r, s).service.room)
    ensures Room.Distinct(Apply(r, s).service.room.members)
  {
    match s {
      case Introduce(_, fp) =>
        var m := Room.Entry(fp, Member, Active);
        OneOp(r.service.room, Room.AddOp(m));
        Room.AdmitKeepsDistinct(r.service.room, m);
      case Revoke(fp) =>
        OneOp(r.service.room, Room.RevokeOp(fp));
        Room.RevokeKeepsDistinct(r.service.room, fp);
      case _ =>
    }
  }

  /** The lists and the registry change only by what is authorised at the time. */
  lemma NamesStep(r: Relay, s: Step)
    requires CanStep(r, s)
    ensures forall c :: c in Apply(r, s).conns && Apply(r, s).conns[c].phase.Listed? ==>
      || (c in r.conns && r.conns[c].phase == Apply(r, s).conns[c].phase)
      || Apply(r, s).conns[c].phase.allowed == Room.Allowlist(r.service.room)
    ensures forall fp :: fp in Apply(r, s).service.clients ==>
      || (fp in r.service.clients && Apply(r, s).service.clients[fp] == r.service.clients[fp])
      || Room.IsAuthorized(r.service.room, fp)
  {
  }

  lemma AllowlistHasEntry(room: Room.State, fp: Fingerprint)
    requires fp in Room.Allowlist(room)
    ensures HasEntry(room, fp)
  {
  }

  lemma StepKeepsMembers(r: Relay, s: Step)
    requires MembersOk(r) && CanStep(r, s)
    ensures MembersOk(Apply(r, s))
  {
    var after := Apply(r, s);
    RoomStep(r, s);
    NamesStep(r, s);
    forall fp | HasEntry(r.service.room, fp) ensures HasEntry(after.service.room, fp) {
      GrowsKeepsEntry(r.service.room, after.service.room, fp);
    }
    forall fp | fp in Room.Allowlist(r.service.room) ensures HasEntry(r.service.room, fp) {
      AllowlistHasEntry(r.service.room, fp);
    }
  }

  lemma {:induction false} RunKeepsMembers(r: Relay, steps: seq<Step>, last: Relay)
    requires MembersOk(r) && Runs(r, steps, last)
    ensures MembersOk(last)
    decreases |steps|
  {
    if steps != [] {
      StepKeepsMembers(r, steps[0]);
      RunKeepsMembers(Apply(r, steps[0]), steps[1..], last);
    }
  }

  lemma DistinctIsUnique(members: seq<Room.Entry>)
    requires Room.Distinct(members)
    ensures Room.UniqueActive(members)
  {
  }

  /** In every interleaving, no fingerprint has two active entries, and the list made for a
      client that is to be checked is the set of fingerprints authorised at that moment. */
  lemma CheckedAgainstAuthorized(room: Room.State, steps: seq<Step>, last: Relay, fp: Fingerprint)
    requires Room.Distinct(room.members) && Runs(New(room), steps, last)
    ensures Room.UniqueActive(last.service.room.members)
    ensures fp in Room.Allowlist(last.service.room) <==> Room.IsAuthorized(last.service.room, fp)
  {
    RunKeepsMembers(New(room), steps, last);
    DistinctIsUnique(last.service.room.members);
    Room.AllowlistIsAuthorized(last.service.room, fp);
  }

  /** The list a client is checked against was made earlier. Whoever is on it is authorised
      still, or has been revoked in between; nobody else is on it. */
  lemma StoredListIsAuthorizedOrRevoked(room: Room.State, steps: seq<Step>, last: Relay, c: Id, fp: Fingerprint)
    requires Room.Distinct(room.members) && Runs(New(room), steps, last)
    requires c in last.conns && last.conns[c].phase.Listed? && fp in last.conns[c].phase.allowed
    ensures Room.IsAuthorized(last.service.room, fp) || IsRevoked(last.service.room, fp)
  {
    RunKeepsMembers(New(room), steps, last);
  }

  /** A client revoked between its check and its registration is not let in: from its
      revocation on nothing registers it, over whichever connection, and whatever list it was
      checked against. What was registered before stays so, or goes. */
  lemma {:induction false} RevokedNeverRegisters(r: Relay, steps: seq<Step>, last: Relay, fp: Fingerprint)
    requires Room.Distinct(r.service.room.members) && Runs(r, steps, last) && IsRevoked(r.service.room, fp)
    ensures IsRevoked(last.service.room, fp)
    ensures fp in last.service.clients
      ==> fp in r.service.clients && last.service.clients[fp] == r.service.clients[fp]
    decreases |steps|
  {
    if steps != [] {
      RoomStep(r, steps[0]);
      NamesStep(r, steps[0]);
      GrowsKeepsEntry(r.service.room, Apply(r, steps[0]).service.room, fp);
      RevokedNeverRegisters(Apply(r, steps[0]), steps[1..], last, fp);
    }
  }
}
