/** Who the relay serves: only clients whose response was in order and whose fingerprint was
    authorised, and what becomes of the others. */
module RelayAdmission {
  import opened Basics
  import opened Members
  import opened HostRelay
  import opened RelayMembership
  import Auth
  import Codec
  import HostService
  import Room

  // ---------------------------------------------------------------------------
  // One response, one registration

  /** The response of connection c is in order: its fingerprint is on the list made for it,
      the nonce is new, the clock is within two minutes of the challenge, and the key is not
      locked by three failures. */
  predicate InOrder(r: Relay, c: Id, nonce: seq<byte>, timestamp: u64, now: u64) {
    && c in r.conns && r.conns[c].phase.Listed? && r.conns[c].fp.Some?
    && r.conns[c].fp.value in r.conns[c].phase.allowed
    && nonce !in r.auth.usedNonces
    && timestamp <= now + 120 && now <= timestamp + 120
    && var key := r.conns[c].fp.value[..4] + ".." + r.conns[c].fp.value[36..];
       (key in r.auth.attempts ==> r.auth.attempts[key] < 3 || r.auth.attempts[key] == 0xFFFF_FFFF)
  }

  /** A response in order is accepted, its nonce remembered and its failures forgotten; any
      other closes the connection, and counts as a failure. */
  lemma VerifyExactly(r: Relay, c: Id, nonce: seq<byte>, timestamp: u64, now: u64)
    requires CanStep(r, Verify(c, nonce, timestamp, now))
    ensures var after := Apply(r, Verify(c, nonce, timestamp, now));
      var key := r.conns[c].fp.value[..4] + ".." + r.conns[c].fp.value[36..];
      && c in after.conns
      && after.conns[c].phase == (if InOrder(r, c, nonce, timestamp, now) then Verified else Closed)
      && after.auth.usedNonces
         == r.auth.usedNonces + (if InOrder(r, c, nonce, timestamp, now) then {nonce} else {})
      && (key in after.auth.attempts <==> !InOrder(r, c, nonce, timestamp, now))
  {
  }

  /** Registration succeeds exactly for who is authorised at that moment, and is then ready;
      it closes any other connection. */
  lemma RegisterExactly(r: Relay, c: Id)
    requires CanStep(r, Register(c))
    ensures var after := Apply(r, Register(c)); var fp := r.conns[c].fp.value;
      && c in after.conns
      && after.conns[c].phase == (if Room.IsAuthorized(r.service.room, fp) then Registered else Closed)
      && after.service.clients
         == (if Room.IsAuthorized(r.service.room, fp)
             then r.service.clients[fp := HostService.Client(fp, c, true)] else r.service.clients)
  {
  }

  // ---------------------------------------------------------------------------
  // Looking back along a run

  /** In the run, step k was s, taken in state mid. */
  ghost predicate TookAt(room: Room.State, steps: seq<Step>, k: nat, mid: Relay, s: Step) {
    k < |steps| && steps[k] == s && Runs(New(room), steps[..k], mid) && CanStep(mid, s)
  }

  lemma {:induction false} LastStep(r: Relay, steps: seq<Step>, last: Relay) returns (mid: Relay)
    requires Runs(r, steps, last) && steps != []
    ensures var n := |steps| - 1;
      Runs(r, steps[..n], mid) && CanStep(mid, steps[n]) && last == Apply(mid, steps[n])
    decreases |steps|
  {
    if |steps| == 1 {
      mid := r;
    } else {
      mid := LastStep(Apply(r, steps[0]), steps[1..], last);
      var n := |steps| - 1;
      assert steps[1..][..n - 1] == steps[..n][1..];
    }
  }

  lemma TookEarlier(room: Room.State, steps: seq<Step>, k: nat, mid: Relay, s: Step)
    requires steps != [] && TookAt(room, steps[..|steps| - 1], k, mid, s)
    ensures TookAt(room, steps, k, mid, s)
  {
    assert steps[..|steps| - 1][..k] == steps[..k];
  }

  lemma TookLast(room: Room.State, steps: seq<Step>, last: Relay) returns (mid: Relay)
    requires steps != [] && Runs(New(room), steps, last)
    ensures TookAt(room, steps, |steps| - 1, mid, steps[|steps| - 1]) && last == Apply(mid, steps[|steps| - 1])
    ensures Runs(New(room), steps[..|steps| - 1], mid)
  {
    mid := LastStep(New(room), steps, last);
  }

  /** The task has gone through registration and has not returned, or the registry names the
      connection. */
  predicate LetIn(r: Relay, c: Id) {
    && c in r.conns && r.conns[c].fp.Some?
    && ((PastVerified(r.conns[c].phase) && r.conns[c].phase != Closed)
        || (r.conns[c].fp.value in r.service.clients && r.service.clients[r.conns[c].fp.value].connection == c))
  }

  /** A connection is let in by registering, and by nothing else. */
  lemma LetInStep(r: Relay, s: Step, c: Id)
    requires RelayOk(r) && CanStep(r, s) && LetIn(Apply(r, s), c)
    ensures c in r.conns && r.conns[c].fp == Apply(r, s).conns[c].fp
    ensures LetIn(r, c)
      || (s == Register(c) && r.conns[c].phase == Verified && Room.IsAuthorized(r.service.room, r.conns[c].fp.value))
  {
  }

  /** Every connection let in has registered, at a moment when its fingerprint was
      authorised. */
  lemma {:induction false} LetInWasAuthorized(room: Room.State, steps: seq<Step>, last: Relay, c: Id)
    returns (k: nat, mid: Relay)
    requires Runs(New(room), steps, last) && LetIn(last, c)
    ensures TookAt(room, steps, k, mid, Register(c))
    ensures c in mid.conns && mid.conns[c].fp == last.conns[c].fp && mid.conns[c].phase == Verified
    ensures Room.IsAuthorized(mid.service.room, last.conns[c].fp.value)
    decreases |steps|
  {
    assert steps != [];
    var n := |steps| - 1;
    mid := TookLast(room, steps, last);
    NewOk(room);
    RunKeeps(New(room), steps[..n], mid);
    LetInStep(mid, steps[n], c);
    if LetIn(mid, c) {
      k, mid := LetInWasAuthorized(room, steps[..n], mid, c);
      TookEarlier(room, steps, k, mid, Register(c));
    } else {
      k := n;
    }
  }

  /** A connection is verified by a response in order, and by nothing else. */
  lemma VerifiedStep(r: Relay, s: Step, c: Id)
    requires RelayOk(r) && CanStep(r, s) && c in Apply(r, s).conns && Apply(r, s).conns[c].phase == Verified
    ensures c in r.conns && r.conns[c].fp == Apply(r, s).conns[c].fp
    ensures r.conns[c].phase == Verified
      || (s.Verify? && s.c == c && InOrder(r, c, s.nonce, s.timestamp, s.now))
  {
    if s.Verify? && s.c == c {
      VerifyExactly(r, c, s.nonce, s.timestamp, s.now);
    }
  }

  lemma {:induction false} VerifiedWasInOrder(room: Room.State, steps: seq<Step>, last: Relay, c: Id)
    returns (k: nat, mid: Relay)
    requires Runs(New(room), steps, last) && c in last.conns && last.conns[c].phase == Verified
    ensures k < |steps| && TookAt(room, steps, k, mid, steps[k])
    ensures steps[k].Verify? && steps[k].c == c && InOrder(mid, c, steps[k].nonce, steps[k].timestamp, steps[k].now)
    ensures mid.conns[c].fp == last.conns[c].fp
    decreases |steps|
  {
    assert steps != [];
    var n := |steps| - 1;
    mid := TookLast(room, steps, last);
    NewOk(room);
    RunKeeps(New(room), steps[..n], mid);
    VerifiedStep(mid, steps[n], c);
    if mid.conns[c].phase == Verified {
      k, mid := VerifiedWasInOrder(room, steps[..n], mid, c);
      TookEarlier(room, steps, k, mid, steps[k]);
    } else {
      k := n;
    }
  }

  /** In every interleaving, a client that is served, or registered, or was and is leaving,
      answered in order earlier in the run: in the state before its answer its fingerprint
      was on its list, its nonce was new, the clock was within two minutes of the challenge
      and its key was not locked. */
  lemma ServedAnsweredInOrder(room: Room.State, steps: seq<Step>, last: Relay, c: Id) returns (k: nat, mid: Relay)
    requires Runs(New(room), steps, last) && LetIn(last, c)
    ensures k < |steps| && TookAt(room, steps, k, mid, steps[k])
    ensures steps[k].Verify? && steps[k].c == c && InOrder(mid, c, steps[k].nonce, steps[k].timestamp, steps[k].now)
    ensures mid.conns[c].fp == last.conns[c].fp
  {
    var j, registering := LetInWasAuthorized(room, steps, last, c);
    k, mid := VerifiedWasInOrder(room, steps[..j], registering, c);
    assert steps[..j][..k] == steps[..k];
  }

  // ---------------------------------------------------------------------------
  // The list a client is checked against

  lemma ListedStep(r: Relay, s: Step, c: Id)
    requires RelayOk(r) && CanStep(r, s) && c in Apply(r, s).conns && Apply(r, s).conns[c].phase.Listed?
    ensures c in r.conns
    ensures r.conns[c].phase == Apply(r, s).conns[c].phase
      || (s == List(c) && Apply(r, s).conns[c].phase.allowed == Room.Allowlist(r.service.room))
  {
  }

  /** The list is the set of fingerprints authorised when it was made. */
  lemma {:induction false} ListWasAuthorized(room: Room.State, steps: seq<Step>, last: Relay, c: Id)
    returns (k: nat, mid: Relay)
    requires Room.Distinct(room.members) && Runs(New(room), steps, last)
    requires c in last.conns && last.conns[c].phase.Listed?
    ensures TookAt(room, steps, k, mid, List(c))
    ensures forall fp :: fp in last.conns[c].phase.allowed <==> Room.IsAuthorized(mid.service.room, fp)
    decreases |steps|
  {
    assert steps != [];
    var n := |steps| - 1;
    mid := TookLast(room, steps, last);
    NewOk(room);
    RunKeeps(New(room), steps[..n], mid);
    ListedStep(mid, steps[n], c);
    if mid.conns[c].phase == last.conns[c].phase {
      k, mid := ListWasAuthorized(room, steps[..n], mid, c);
      TookEarlier(room, steps, k, mid, List(c));
    } else {
      k := n;
      RunKeepsMembers(New(room), steps[..n], mid);
      forall fp ensures fp in Room.Allowlist(mid.service.room) <==> Room.IsAuthorized(mid.service.room, fp) {
        Room.AllowlistIsAuthorized(mid.service.room, fp);
      }
    }
  }

  // ---------------------------------------------------------------------------
  // What closes stays closed

  lemma ClosedStep(r: Relay, s: Step, c: Id)
    requires RelayOk(r) && CanStep(r, s) && c in r.conns && r.conns[c].phase == Closed
    ensures c in Apply(r, s).conns && Apply(r, s).conns[c] == r.conns[c]
  {
  }

  /** Nothing is received from, queued for or written to a closed connection any more. A
      refused client is never let in over it. */
  lemma {:induction false} ClosedForGood(r: Relay, steps: seq<Step>, last: Relay, c: Id)
    requires RelayOk(r) && Runs(r, steps, last) && c in r.conns && r.conns[c].phase == Closed
    ensures c in last.conns && last.conns[c] == r.conns[c]
    ensures !LetIn(r, c) ==> !LetIn(last, c)
    decreases |steps|
  {
    if steps != [] {
      StepKeeps(r, steps[0]);
      ClosedStep(r, steps[0], c);
      if LetIn(Apply(r, steps[0]), c) {
        LetInStep(r, steps[0], c);
      }
      ClosedForGood(Apply(r, steps[0]), steps[1..], last, c);
    }
  }

  /** The relay after the task of c has left undisturbed. */
  function Gone(r: Relay, c: Id): Relay
    requires c in r.conns && r.conns[c].fp.Some?
  {
    r.(conns := r.conns[c := r.conns[c].(phase := Closed)], outbound := r.outbound - {c},
       service := r.service.(clients := r.service.clients - {r.conns[c].fp.value}))
  }

  lemma LeavingSteps(r: Relay, c: Id) returns (r1: Relay, r2: Relay)
    requires RelayOk(r) && Enabled(r, Disconnect(c))
    ensures r.conns[c].fp.Some? && r1 == Apply(r, Disconnect(c))
    ensures CanStep(r1, Unregister(c)) && r2 == Apply(r1, Unregister(c))
    ensures CanStep(r2, DropQueue(c)) && Apply(r2, DropQueue(c)) == Gone(r, c)
  {
    r1 := Goto(r, c, Leaving);
    r2 := Apply(r1, Unregister(c));
    assert Apply(r2, DropQueue(c)).conns == Gone(r, c).conns;
  }

  /** A task that leaves undisturbed takes away its client's registration and its queue, and
      nothing else. */
  lemma LeavesNoTrace(r: Relay, c: Id)
    requires RelayOk(r) && Enabled(r, Disconnect(c))
    ensures r.conns[c].fp.Some? && Runs(r, [Disconnect(c), Unregister(c), DropQueue(c)], Gone(r, c))
  {
    var r1, r2 := LeavingSteps(r, c);
    RunOfThree(r, Disconnect(c), r1, Unregister(c), r2, DropQueue(c), Gone(r, c));
  }

  lemma RunOfThree(r: Relay, a: Step, r1: Relay, b: Step, r2: Relay, c: Step, r3: Relay)
    requires CanStep(r, a) && r1 == Apply(r, a) && CanStep(r1, b) && r2 == Apply(r1, b)
    requires CanStep(r2, c) && r3 == Apply(r2, c)
    ensures Runs(r, [a, b, c], r3)
  {
    assert [a, b, c][1..] == [b, c] && [b, c][1..] == [c] && [c][1..] == [];
    assert Runs(r3, [], r3);
    assert Runs(r2, [c], r3);
    assert Runs(r1, [b, c], r3);
  }

  /** A task that returns without cleaning up, as on a failed answer to a ping, leaves its
      registration and the sending end of its queue behind; nothing is queued there any more. */
  lemma AbortLeavesBehind(r: Relay, c: Id, e: Queued)
    requires CanStep(r, Abort(c))
    ensures var after := Apply(r, Abort(c));
      && c in after.conns && after.conns[c] == r.conns[c].(phase := Closed)
      && after.service == r.service && after.outbound == r.outbound && Enqueue(after, c, e) == after
  {
  }

  /** One entry is taken out of a queue and written to the client, and the task goes on; when
      the write fails it leaves and cleans up. */
  lemma TakeExactly(r: Relay, c: Id, sent: bool)
    requires CanStep(r, Take(c, sent))
    ensures var k, after := r.conns[c], Apply(r, Take(c, sent));
      && after == r.(conns := after.conns) && after.conns.Keys == r.conns.Keys
      && (forall d :: d in r.conns && d != c ==> after.conns[d] == r.conns[d])
      && after.conns[c].written == (if sent then k.written + [k.queued[k.taken].frame] else k.written)
      && after.conns[c].taken == k.taken + 1 && after.conns[c].queued == k.queued
      && after.conns[c].fp == k.fp && after.conns[c].received == k.received
      && after.conns[c].phase == (if sent then Serving else Leaving)
  {
  }

  /** Only what the purge of nonces forgets is forgotten. */
  lemma PurgeForgets(r: Relay)
    ensures Apply(r, Purge)
         == r.(auth := r.auth.(usedNonces := if |r.auth.usedNonces| > 10_000 then {} else r.auth.usedNonces))
  {
  }

  /** Whoever introduces itself joins as an ordinary member: nobody else becomes an owner. */
  lemma {:induction false} OnlyMembersJoin(r: Relay, steps: seq<Step>, last: Relay)
    requires Runs(r, steps, last) && Room.Distinct(r.service.room.members)
    ensures |r.service.room.members| <= |last.service.room.members|
    ensures forall i :: |r.service.room.members| <= i < |last.service.room.members|
              ==> last.service.room.members[i].role == Member
    decreases |steps|
  {
    if steps != [] {
      var next := Apply(r, steps[0]);
      RoomStep(r, steps[0]);
      JoinStep(r, steps[0]);
      OnlyMembersJoin(next, steps[1..], last);
      MembersStay(next, steps[1..], last);
    }
  }

  lemma JoinStep(r: Relay, s: Step)
    requires CanStep(r, s)
    ensures forall i :: |r.service.room.members| <= i < |Apply(r, s).service.room.members|
              ==> Apply(r, s).service.room.members[i].role == Member
  {
  }

  lemma {:induction false} MembersStay(r: Relay, steps: seq<Step>, last: Relay)
    requires Runs(r, steps, last) && Room.Distinct(r.service.room.members)
    ensures |r.service.room.members| <= |last.service.room.members|
    ensures forall i :: 0 <= i < |r.service.room.members|
              ==> last.service.room.members[i].role == r.service.room.members[i].role
    decreases |steps|
  {
    if steps != [] {
      RoomStep(r, steps[0]);
      MembersStay(Apply(r, steps[0]), steps[1..], last);
    }
  }

  /** A client that introduces itself has an entry from then on, unless the room is full. */
  lemma IntroducedHasEntry(r: Relay, c: Id, fp: Fingerprint)
    requires CanStep(r, Introduce(c, fp))
    ensures var after := Apply(r, Introduce(c, fp));
      && after.conns[c].fp == Some(fp)
      && (HasEntry(after.service.room, fp) <==> HasEntry(r.service.room, fp) || !Room.IsFull(r.service.room))
      && (!HasEntry(r.service.room, fp) && !Room.IsFull(r.service.room) ==> Room.IsAuthorized(after.service.room, fp))
  {
    Room.AdmitExactly(r.service.room, Room.Entry(fp, Member, Active));
  }

  /** Revoking an ordinary member's fingerprint revokes it. */
  lemma RevokeStepRevokes(r: Relay, fp: Fingerprint)
    requires Room.Find(r.service.room.members, fp).Some?
    requires r.service.room.members[Room.Find(r.service.room.members, fp).value].role != Owner
    ensures IsRevoked(Apply(r, Revoke(fp)).service.room, fp)
  {
    Room.RevokedForever(r.service.room, fp, []);
    var at := Room.Find(r.service.room.members, fp).value;
    OneOp(r.service.room, Room.RevokeOp(fp));
    GrowsKeepsEntry(r.service.room, Apply(r, Revoke(fp)).service.room, fp);
  }

  // ---------------------------------------------------------------------------
  // What is written to a client

  /** While its task serves, everything taken out of a queue has been written to the client;
      a write that failed was the last. */
  ghost predicate WrittenOk(k: Conn) {
    && |k.written| <= k.taken <= |k.queued|
    && (forall i :: 0 <= i < |k.written| ==> k.written[i] == k.queued[i].frame)
    && (k.phase.Leaving? || k.phase.Unregistered? || k.phase.Closed? || |k.written| == k.taken)
  }

  lemma WrittenStep(r: Relay, s: Step, c: Id)
    requires CanStep(r, s) && c in Apply(r, s).conns
    requires c in r.conns ==> WrittenOk(r.conns[c])
    requires r.next !in r.conns
    ensures WrittenOk(Apply(r, s).conns[c])
  {
  }

  /** In every interleaving, what is written to a client are the first frames of its queue,
      in order and without gaps: all that were taken out, while it is served. */
  lemma {:induction false} WrittenAsQueued(room: Room.State, steps: seq<Step>, last: Relay, c: Id)
    requires Runs(New(room), steps, last) && c in last.conns
    ensures WrittenOk(last.conns[c])
    decreases |steps|
  {
    assert steps != [];
    var n := |steps| - 1;
    var mid := TookLast(room, steps, last);
    NewOk(room);
    RunKeeps(New(room), steps[..n], mid);
    if c in mid.conns {
      WrittenAsQueued(room, steps[..n], mid, c);
    }
    WrittenStep(mid, steps[n], c);
  }
}
