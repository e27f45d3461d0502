/** The message service: one session per fingerprint, envelope numbering on the way out
    and the anti-replay check on the way in. */
module MessageService {
  import opened Basics
  import opened Members
  import Keys
  import Ratchet
  import Session

  datatype Envelope = Envelope(
    sender: Fingerprint,
    room: RoomId,
    sequence: u64,
    nonce: seq<byte>,
    timestamp: u64,
    ciphertext: Keys.Ciphertext,
    header: Ratchet.Header)

  datatype Error = Malformed | ReplayDetected(seqno: u64, from: Fingerprint) | NoSession | KeyDerivation

  const AEAD_TAG := 16

  function CiphertextLength(ct: Keys.Ciphertext): nat {
    match ct
    case Sealed(_, _, plaintext) => |plaintext| + AEAD_TAG
    case Garbage(bytes) => |bytes|
  }

  predicate WellFormed(env: Envelope) {
    env.sequence > 0 && |env.nonce| == 12 && CiphertextLength(env.ciphertext) > 0
  }

  type Sessions = map<Fingerprint, Session.State>

  function StateFor(m: Sessions, fp: Fingerprint): Session.State {
    if fp in m then m[fp] else Session.NEW
  }

  function Register(m: Sessions, peer: Fingerprint): Sessions {
    if peer in m then m else m[peer := Session.NEW]
  }

  lemma RegisterThenSet(m: Sessions, p: Fingerprint, s: Session.State)
    ensures Register(m, p)[p := s] == m[p := s] && Register(m, p)[p] == StateFor(m, p)
  {
  }

  function Process(m: Sessions, env: Envelope): (Sessions, Result<(), Error>) {
    if !WellFormed(env) then (m, Err(Malformed))
    else
      var (after, ok) := Session.Check(StateFor(m, env.sender), env.sequence);
      (m[env.sender := after], if ok then Ok(()) else Err(ReplayDetected(env.sequence, env.sender)))
  }

  /** `derived` is what deriving the nonce returned, and `now` the clock. */
  function Prepare(m: Sessions, sender: Fingerprint, room: RoomId, ct: Keys.Ciphertext, h: Ratchet.Header,
                   derived: Option<seq<byte>>, now: u64): (Sessions, Result<Envelope, Error>)
  {
    if sender !in m then (m, Err(NoSession))
    else
      var num := Wrap64(m[sender].lastSent + 1);
      (m[sender := m[sender].(lastSent := num)],
       if derived.None? then Err(KeyDerivation)
       else Ok(Envelope(sender, room, num, derived.value, now, ct, h)))
  }

  class MessageService {
    var sessions: map<Fingerprint, Session.Session>

    /** Every fingerprint has its own session object. */
    ghost predicate Valid()
      reads this, sessions.Values
    {
      && (forall p, q :: p in sessions && q in sessions && p != q ==> sessions[p] != sessions[q])
      && (forall p :: p in sessions ==> sessions[p].Valid())
    }

    ghost function View(): Sessions
      reads this, sessions.Values
    {
      map p | p in sessions :: sessions[p].View()
    }

    constructor ()
      ensures Valid() && View() == map[]
    {
      sessions := map[];
    }

    method RegisterSession(peer: Fingerprint)
      requires Valid()
      modifies this
      ensures Valid() && fresh(sessions.Values - old(sessions.Values))
      ensures View() == Register(old(View()), peer)
    {
      if peer !in sessions {
        var session := new Session.Session();
        sessions := sessions[peer := session];
        assert View() == old(View())[peer := session.View()];
      }
    }

    method PrepareEnvelope(sender: Fingerprint, room: RoomId, ct: Keys.Ciphertext, h: Ratchet.Header,
                           derived: Option<seq<byte>>, now: u64) returns (r: Result<Envelope, Error>)
      requires Valid()
      modifies sessions.Values
      ensures Valid() && (View(), r) == Prepare(old(View()), sender, room, ct, h, derived, now)
    {
      if sender !in sessions {
        return Err(NoSession);
      }
      var num := sessions[sender].NextSendSequence();
      assert View() == old(View())[sender := sessions[sender].View()];
      if derived.None? {
        return Err(KeyDerivation);
      }
      r := Ok(Envelope(sender, room, num, derived.value, now, ct, h));
    }

    method ProcessReceived(env: Envelope) returns (r: Result<(), Error>)
      requires Valid()
      modifies this, sessions.Values
      ensures Valid() && fresh(sessions.Values - old(sessions.Values))
      ensures (View(), r) == Process(old(View()), env)
    {
      if !WellFormed(env) {
        return Err(Malformed);
      }
      RegisterSession(env.sender);
      assert env.sender in View();
      RegisterThenSet(old(View()), env.sender, Session.Check(StateFor(old(View()), env.sender), env.sequence).0);
      var ok := CheckReplay(env.sender, env.sequence);
      if !ok {
        return Err(ReplayDetected(env.sequence, env.sender));
      }
      r := Ok(());
    }

    method CheckReplay(sender: Fingerprint, num: u64) returns (ok: bool)
      requires Valid() && sender in sessions
      modifies sessions.Values
      ensures Valid()
      ensures var (after, accepted) := Session.Check(old(View())[sender], num);
        View() == old(View())[sender := after] && ok == accepted
    {
      ok := sessions[sender].CheckReplay(num);
      assert View() == old(View())[sender := sessions[sender].View()];
    }
  }

  /** A rejected envelope leaves the whole session map as it was, and no envelope touches
      another sender's session. */
  lemma RejectionChangesNothing(m: Sessions, env: Envelope)
    ensures Process(m, env).1.Err? ==> Process(m, env).0 == m
    ensures forall p :: p != env.sender ==> StateFor(Process(m, env).0, p) == StateFor(m, p)
  {
    var s := StateFor(m, env.sender);
    if WellFormed(env) && Process(m, env).1.Err? {
      assert env.sender in m;
    }
  }

  /** What is refused as malformed, what as a replay, and what passes. */
  lemma ProcessExactly(m: Sessions, env: Envelope)
    ensures Process(m, env).1 == Err(Malformed)
       <==> env.sequence == 0 || |env.nonce| != 12 || env.ciphertext == Keys.Garbage([])
    ensures Process(m, env).1.Ok?
       <==> && env.sequence > 0 && |env.nonce| == 12 && env.ciphertext != Keys.Garbage([])
            && (env.sender in m ==> env.sequence !in m[env.sender].accepted
                                    && m[env.sender].last < env.sequence + 64)
    ensures Process(m, env).1.Ok? ==>
      && env.sender in Process(m, env).0
      && env.sequence in Process(m, env).0[env.sender].accepted
    ensures Process(m, env).1.Err? && Process(m, env).1.error != Malformed
      ==> Process(m, env).1.error == ReplayDetected(env.sequence, env.sender)
  {
  }

  /** What an envelope that is prepared carries, and what preparing it does to the numbers. */
  lemma PrepareExactly(m: Sessions, sender: Fingerprint, room: RoomId, ct: Keys.Ciphertext, h: Ratchet.Header,
                       derived: Option<seq<byte>>, now: u64)
    ensures var (after, r) := Prepare(m, sender, room, ct, h, derived, now);
      && (r.Ok? <==> sender in m && derived.Some?)
      && (sender !in m ==> r == Err(NoSession) && after == m)
      && (sender in m ==>
            var num := if m[sender].lastSent == 0xFFFF_FFFF_FFFF_FFFF then 0 else m[sender].lastSent + 1;
            && after == m[sender := m[sender].(lastSent := num)]
            && (derived.None? ==> r == Err(KeyDerivation))
            && (r.Ok? ==>
                  && r.value.sender == sender && r.value.room == room && r.value.sequence == num
                  && r.value.nonce == derived.value && r.value.timestamp == now
                  && r.value.ciphertext == ct && r.value.header == h))
  {
  }

  // ---------------------------------------------------------------------------
  // Any arrivals

  /** The session map after all the arrivals, and which of them were let through. */
  function ProcessAll(arrivals: seq<Envelope>): (r: (Sessions, seq<bool>))
    ensures |r.1| == |arrivals|
  {
    if arrivals == [] then (map[], [])
    else
      var (m, verdicts) := ProcessAll(arrivals[..|arrivals| - 1]);
      var (m', r) := Process(m, arrivals[|arrivals| - 1]);
      (m', verdicts + [r.Ok?])
  }

  /** The sequence numbers that arrived from one sender in well-formed envelopes. */
  function NumbersFrom(arrivals: seq<Envelope>, p: Fingerprint): seq<u64> {
    if arrivals == [] then []
    else
      var last := arrivals[|arrivals| - 1];
      NumbersFrom(arrivals[..|arrivals| - 1], p)
      + (if last.sender == p && WellFormed(last) then [last.sequence] else [])
  }

  /** A well-formed envelope of that sender with that number. */
  predicate Carries(env: Envelope, sender: Fingerprint, num: u64) {
    env.sender == sender && WellFormed(env) && env.sequence == num
  }

  /** Each sender's session sees that sender's numbers and nothing else. */
  lemma {:induction false} SessionsAreIndependent(arrivals: seq<Envelope>, p: Fingerprint)
    ensures StateFor(ProcessAll(arrivals).0, p) == Session.CheckAll(Session.NEW, NumbersFrom(arrivals, p)).0
  {
    if arrivals != [] {
      var n := |arrivals| - 1;
      SessionsAreIndependent(arrivals[..n], p);
      var nums := NumbersFrom(arrivals[..n], p);
      if arrivals[n].sender == p && WellFormed(arrivals[n]) {
        assert (nums + [arrivals[n].sequence])[..|nums|] == nums;
      } else {
        assert nums + [] == nums;
        RejectionChangesNothing(ProcessAll(arrivals[..n]).0, arrivals[n]);
      }
    }
  }

  lemma {:induction false} NumbersFromMeans(arrivals: seq<Envelope>, p: Fingerprint, num: u64)
    ensures num in NumbersFrom(arrivals, p)
       <==> exists j :: 0 <= j < |arrivals| && Carries(arrivals[j], p, num)
  {
    if arrivals != [] {
      var n := |arrivals| - 1;
      NumbersFromMeans(arrivals[..n], p, num);
      if j :| 0 <= j < n && Carries(arrivals[..n][j], p, num) {
        assert arrivals[j] == arrivals[..n][j];
      }
      forall j | 0 <= j < n ensures arrivals[..n][j] == arrivals[j] {
      }
    }
  }

  /** No earlier well-formed envelope of the same sender had this number or one 64 or
      more above it. */
  ghost predicate FreshAndRecent(arrivals: seq<Envelope>, k: nat)
    requires k < |arrivals|
  {
    && WellFormed(arrivals[k])
    && forall j :: 0 <= j < k && arrivals[j].sender == arrivals[k].sender && WellFormed(arrivals[j])
         ==> && arrivals[j].sequence != arrivals[k].sequence
             && arrivals[j].sequence < arrivals[k].sequence + 64
  }

  lemma NumbersBefore(arrivals: seq<Envelope>, sender: Fingerprint)
    requires arrivals != []
    ensures var n := |arrivals| - 1;
      forall num :: num in NumbersFrom(arrivals[..n], sender)
        <==> exists j :: 0 <= j < n && Carries(arrivals[j], sender, num)
  {
    var n := |arrivals| - 1;
    var rest := arrivals[..n];
    forall num
      ensures num in NumbersFrom(rest, sender)
        <==> exists j :: 0 <= j < n && Carries(arrivals[j], sender, num)
    {
      NumbersFromMeans(rest, sender, num);
      if j :| 0 <= j < n && Carries(arrivals[j], sender, num) {
        assert rest[j] == arrivals[j];
      }
      if num in NumbersFrom(rest, sender) {
        var j :| 0 <= j < n && Carries(rest[j], sender, num);
        assert arrivals[j] == rest[j];
      }
    }
  }

  /** An arrival is fresh and recent among all arrivals when it is among those of its sender. */
  lemma FreshAmongArrivals(arrivals: seq<Envelope>)
    requires arrivals != [] && WellFormed(arrivals[|arrivals| - 1])
    ensures var n := |arrivals| - 1;
      FreshAndRecent(arrivals, n)
      <==> forall x :: x in NumbersFrom(arrivals[..n], arrivals[n].sender)
             ==> x != arrivals[n].sequence && x < arrivals[n].sequence + 64
  {
    var n := |arrivals| - 1;
    var env, nums := arrivals[n], NumbersFrom(arrivals[..n], arrivals[n].sender);
    NumbersBefore(arrivals, env.sender);
    if FreshAndRecent(arrivals, n) {
      forall x | x in nums ensures x != env.sequence && x < env.sequence + 64 {
        var j :| 0 <= j < n && Carries(arrivals[j], env.sender, x);
      }
    } else {
      var j :| 0 <= j < n && arrivals[j].sender == env.sender && WellFormed(arrivals[j])
        && !(arrivals[j].sequence != env.sequence && arrivals[j].sequence < env.sequence + 64);
      assert Carries(arrivals[j], env.sender, arrivals[j].sequence);
      assert arrivals[j].sequence in nums;
    }
  }

  lemma LastArrival(arrivals: seq<Envelope>)
    requires arrivals != []
    ensures ProcessAll(arrivals).1[|arrivals| - 1] <==> FreshAndRecent(arrivals, |arrivals| - 1)
  {
    var n := |arrivals| - 1;
    var rest, env := arrivals[..n], arrivals[n];
    if WellFormed(env) {
      var nums := NumbersFrom(rest, env.sender);
      SessionsAreIndependent(rest, env.sender);
      Session.CheckAllSummarises(nums);
      Session.NextSummarises(Session.CheckAll(Session.NEW, nums).0, nums, env.sequence);
      FreshAmongArrivals(arrivals);
      FreshAmong(nums, env.sequence);
    }
  }

  lemma FreshAmong(nums: seq<u64>, num: u64)
    ensures Session.FreshAndRecent(nums + [num], |nums|)
       <==> num > 0 && forall x :: x in nums ==> x != num && x < num + 64
  {
    var all := nums + [num];
    forall j | 0 <= j < |nums| ensures all[j] == nums[j] && nums[j] in nums {
    }
    forall x | x in nums ensures exists j :: 0 <= j < |nums| && all[j] == x {
      var j :| 0 <= j < |nums| && nums[j] == x;
      assert all[j] == x;
    }
  }

  /** Whatever duplicates, malformed envelopes and other senders interleave: an arrival is
      let through exactly when it is fresh and recent for its own sender. */
  lemma {:induction false} LetThroughExactly(arrivals: seq<Envelope>, k: nat)
    requires k < |arrivals|
    ensures ProcessAll(arrivals).1[k] <==> FreshAndRecent(arrivals, k)
    decreases |arrivals|
  {
    var n := |arrivals| - 1;
    if k == n {
      LastArrival(arrivals);
    } else {
      LetThroughExactly(arrivals[..n], k);
    }
  }

  /** The network reorders each sender's envelopes by less than 64 sequence numbers. */
  ghost predicate BoundedReordering(arrivals: seq<Envelope>) {
    forall i, j ::
      (&& 0 <= i < j < |arrivals| && arrivals[i].sender == arrivals[j].sender
       && WellFormed(arrivals[i]) && WellFormed(arrivals[j]))
      ==> arrivals[i].sequence < arrivals[j].sequence + 64
  }

  /** Of all the copies of an envelope, exactly the one at position i is let through. */
  ghost predicate OnlyAt(arrivals: seq<Envelope>, k: nat, i: nat)
    requires k < |arrivals|
  {
    && i < |arrivals| && SameNumber(arrivals[i], arrivals[k]) && ProcessAll(arrivals).1[i]
    && forall j :: 0 <= j < |arrivals| && j != i && SameNumber(arrivals[j], arrivals[k]) ==> !ProcessAll(arrivals).1[j]
  }

  /** Under bounded reordering every well-formed envelope is let through exactly once, at
      its first arrival, whatever duplicates and other senders interleave. */
  lemma ExactlyOnce(arrivals: seq<Envelope>, k: nat)
    requires k < |arrivals| && WellFormed(arrivals[k]) && BoundedReordering(arrivals)
    ensures exists i: nat :: i <= k && OnlyAt(arrivals, k, i)
  {
    var i := FirstArrival(arrivals, k);
    LetThroughExactly(arrivals, i);
    forall j | 0 <= j < |arrivals| && j != i && SameNumber(arrivals[j], arrivals[k])
      ensures !ProcessAll(arrivals).1[j]
    {
      LetThroughExactly(arrivals, j);
    }
    assert OnlyAt(arrivals, k, i);
  }

  predicate SameNumber(a: Envelope, b: Envelope) {
    a.sender == b.sender && a.sequence == b.sequence && WellFormed(a) && WellFormed(b)
  }

  lemma {:induction false} FirstArrival(arrivals: seq<Envelope>, k: nat) returns (i: nat)
    requires k < |arrivals| && WellFormed(arrivals[k])
    ensures i <= k && SameNumber(arrivals[i], arrivals[k])
    ensures forall j :: 0 <= j < i ==> !SameNumber(arrivals[j], arrivals[k])
  {
    i := k;
    if j :| 0 <= j < k && SameNumber(arrivals[j], arrivals[k]) {
      i := FirstArrival(arrivals, j);
    }
  }
}
