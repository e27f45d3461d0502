/** Challenge-response bookkeeping: used nonces and failed attempts. */
module Auth {
  import opened Basics
  import opened Members

  const TOLERANCE: u64 := 120
  const MAX_ATTEMPTS: u32 := 3
  const PURGE_ABOVE := 10_000

  datatype State = State(usedNonces: set<seq<byte>>, attempts: map<string, u32>)

  const NEW: State := State({}, map[])

  datatype Error = MaxAttempts | NonceUsed | TimestampOutOfRange | NotAuthorized

  function AttemptsFor(s: State, key: string): u32 {
    if key in s.attempts then s.attempts[key] else 0
  }

  function AbsDiff(a: u64, b: u64): u64 {
    if a <= b then b - a else a - b
  }

  /** An unsigned 32-bit increment: past the largest value it starts again from zero. */
  function Increment(x: u32): u32 {
    if x == U32_MAX then 0 else x + 1
  }

  /** One response to verify; `now` is the clock. */
  datatype Request = Request(nonce: seq<byte>, timestamp: u64, fingerprint: Fingerprint, now: u64,
                             allowed: set<Fingerprint>)

  function Verify(s: State, q: Request): (State, Result<(), Error>) {
    var key := Short(q.fingerprint);
    var n := Increment(AttemptsFor(s, key));
    var counted := s.(attempts := s.attempts[key := n]);
    if n > MAX_ATTEMPTS then (counted, Err(MaxAttempts))
    else if q.nonce in s.usedNonces then (counted, Err(NonceUsed))
    else if AbsDiff(q.now, q.timestamp) > TOLERANCE then (counted, Err(TimestampOutOfRange))
    else if q.fingerprint !in q.allowed then (counted, Err(NotAuthorized))
    else (State(s.usedNonces + {q.nonce}, s.attempts - {key}), Ok(()))
  }

  predicate Purges(s: State) {
    |s.usedNonces| > PURGE_ABOVE
  }

  function Purge(s: State): State {
    if Purges(s) then s.(usedNonces := {}) else s
  }

  class AuthService {
    var usedNonces: set<seq<byte>>
    var attemptCounts: map<string, u32>

    function View(): State
      reads this
    {
      State(usedNonces, attemptCounts)
    }

    constructor ()
      ensures View() == NEW
    {
      usedNonces, attemptCounts := {}, map[];
    }

    method VerifyResponse(q: Request) returns (r: Result<(), Error>)
      modifies this
      ensures (View(), r) == Verify(old(View()), q)
    {
      var key := Short(q.fingerprint);
      var attempts := if key in attemptCounts then attemptCounts[key] else 0;
      attempts := Increment(attempts);
      attemptCounts := attemptCounts[key := attempts];
      if attempts > MAX_ATTEMPTS {
        return Err(MaxAttempts);
      }
      if q.nonce in usedNonces {
        return Err(NonceUsed);
      }
      if AbsDiff(q.now, q.timestamp) > TOLERANCE {
        return Err(TimestampOutOfRange);
      }
      if q.fingerprint !in q.allowed {
        return Err(NotAuthorized);
      }
      usedNonces := usedNonces + {q.nonce};
      attemptCounts := attemptCounts - {key};
      assert attemptCounts == old(attemptCounts) - {key};
      r := Ok(());
    }

    method PurgeOldNonces()
      modifies this`usedNonces
      ensures View() == Purge(old(View()))
      ensures usedNonces == if |old(usedNonces)| > 10_000 then {} else old(usedNonces)
    {
      if |usedNonces| > PURGE_ABOVE {
        usedNonces := {};
      }
    }
  }

  // ---------------------------------------------------------------------------
  // Any sequence of calls

  datatype Op = VerifyOp(q: Request) | PurgeOp

  function Do(s: State, op: Op): (State, bool) {
    match op
    case VerifyOp(q) => (Verify(s, q).0, Verify(s, q).1.Ok?)
    case PurgeOp => (Purge(s), false)
  }

  /** The state after the first n of the calls. */
  function After(ops: seq<Op>, n: nat): State
    requires n <= |ops|
  {
    if n == 0 then NEW else Do(After(ops, n - 1), ops[n - 1]).0
  }

  /** Was call i a verification that succeeded? */
  predicate Accepts(ops: seq<Op>, i: nat)
    requires i < |ops|
  {
    Do(After(ops, i), ops[i]).1
  }

  predicate About(op: Op, key: string) {
    op.VerifyOp? && Short(op.q.fingerprint) == key
  }

  /** How many verifications under the key have failed since the last that succeeded. */
  function FailuresSince(ops: seq<Op>, n: nat, key: string): nat
    requires n <= |ops|
  {
    if n == 0 then 0
    else if !About(ops[n - 1], key) then FailuresSince(ops, n - 1, key)
    else if Accepts(ops, n - 1) then 0 else 1 + FailuresSince(ops, n - 1, key)
  }

  lemma {:induction false} FailuresBounded(ops: seq<Op>, n: nat, key: string)
    requires n <= |ops|
    ensures FailuresSince(ops, n, key) <= n
  {
    if n > 0 {
      FailuresBounded(ops, n - 1, key);
    }
  }

  /** One call resets, increments or leaves alone the counter of a key. */
  lemma CounterStep(s: State, op: Op, key: string)
    ensures AttemptsFor(Do(s, op).0, key)
         == if !About(op, key) then AttemptsFor(s, key)
            else if Do(s, op).1 then 0 else Increment(AttemptsFor(s, key))
  {
    if op.VerifyOp? {
      VerifyCounter(s, op.q, key);
    }
  }

  lemma VerifyCounter(s: State, q: Request, key: string)
    ensures AttemptsFor(Verify(s, q).0, key)
         == if Short(q.fingerprint) != key then AttemptsFor(s, key)
            else if Verify(s, q).1.Ok? then 0 else Increment(AttemptsFor(s, key))
  {
    var own := Short(q.fingerprint);
    var bumped := s.attempts[own := Increment(AttemptsFor(s, own))];
    assert key != own ==> ((key in bumped) == (key in s.attempts));
  }

  lemma IncrementWraps(x: nat)
    ensures Increment(Wrap32(x)) == Wrap32(x + 1)
  {
  }

  lemma WrapSmall(x: nat)
    requires x <= U32_MAX
    ensures Wrap32(x) == x
  {
  }

  /** The counter of a key is the number of its consecutive failures, modulo 2^32. */
  lemma {:induction false} CounterCountsFailures(ops: seq<Op>, n: nat, key: string)
    requires n <= |ops|
    ensures AttemptsFor(After(ops, n), key) == Wrap32(FailuresSince(ops, n, key))
  {
    if n > 0 {
      CounterCountsFailures(ops, n - 1, key);
      IncrementWraps(FailuresSince(ops, n - 1, key));
      CounterStep(After(ops, n - 1), ops[n - 1], key);
    } else {
      WrapSmall(0);
    }
  }

  /** In every run, a response is refused for too many attempts exactly when the number of
      consecutive failures under its key, modulo 2^32, is at least three and not 2^32 - 1. */
  lemma RefusedExactly(ops: seq<Op>, n: nat)
    requires n < |ops| && ops[n].VerifyOp?
    ensures Verify(After(ops, n), ops[n].q).1 == Err(MaxAttempts)
       <==> 3 <= Wrap32(FailuresSince(ops, n, Short(ops[n].q.fingerprint))) < U32_MAX
  {
    CounterCountsFailures(ops, n, Short(ops[n].q.fingerprint));
    LimitExactly(After(ops, n), ops[n].q);
  }

  lemma Locked(s: State, op: Op, key: string)
    requires 3 <= AttemptsFor(s, key) < U32_MAX && About(op, key)
    ensures !Do(s, op).1 && Verify(s, op.q).1 == Err(MaxAttempts)
  {
  }

  /** Three consecutive failures under one abbreviated fingerprint lock it: from then on
      every response under that key is refused, whatever else happens, for as long as the
      calls are fewer than 2^32. */
  lemma {:induction false} LockedAfterThree(ops: seq<Op>, i: nat, j: nat, key: string)
    requires i <= j < |ops| && j < U32_MAX
    requires FailuresSince(ops, i, key) >= 3
    ensures FailuresSince(ops, j, key) >= 3
    ensures About(ops[j], key) ==> Verify(After(ops, j), ops[j].q).1 == Err(MaxAttempts)
    decreases j
  {
    if i < j {
      LockedAfterThree(ops, i, j - 1, key);
      StillFailing(ops, j, key);
    }
    CounterCountsFailures(ops, j, key);
    FailuresBounded(ops, j, key);
    WrapSmall(FailuresSince(ops, j, key));
    if About(ops[j], key) {
      Locked(After(ops, j), ops[j], key);
    }
  }

  lemma StillFailing(ops: seq<Op>, j: nat, key: string)
    requires 0 < j <= |ops| && j < U32_MAX
    requires FailuresSince(ops, j - 1, key) >= 3
    ensures FailuresSince(ops, j, key) >= 3
  {
    CounterCountsFailures(ops, j - 1, key);
    FailuresBounded(ops, j - 1, key);
    WrapSmall(FailuresSince(ops, j - 1, key));
    if About(ops[j - 1], key) {
      Locked(After(ops, j - 1), ops[j - 1], key);
    }
  }

  /** The response was given within two minutes of the challenge, by a clock that may also
      have gone back. */
  predicate InTime(q: Request) {
    q.timestamp <= q.now + 120 && q.now <= q.timestamp + 120
  }

  /** How often a key has failed, by its first and last four characters. */
  function Failures(s: State, fp: Fingerprint): u32 {
    var key := fp[..4] + ".." + fp[36..];
    if key in s.attempts then s.attempts[key] else 0
  }

  /** The limit refuses a response exactly when the counter, after its wrapping increment,
      is above three: a lock opens again when the counter wraps. Which of the other checks
      refuses it is a matter of their order. */
  lemma LimitExactly(s: State, q: Request)
    ensures var locked, r := 3 <= Failures(s, q.fingerprint) < 0xFFFF_FFFF, Verify(s, q).1;
      && (r == Err(MaxAttempts) <==> locked)
      && (r == Err(NonceUsed) <==> !locked && q.nonce in s.usedNonces)
      && (r == Err(TimestampOutOfRange) <==> !locked && q.nonce !in s.usedNonces && !InTime(q))
      && (r == Err(NotAuthorized)
          <==> !locked && q.nonce !in s.usedNonces && InTime(q) && q.fingerprint !in q.allowed)
      && (r == Ok(()) <==> !locked && q.nonce !in s.usedNonces && InTime(q) && q.fingerprint in q.allowed)
  {
  }

  /** A response that always fails, as many times as it takes to bring the counter to 2^32 - 1,
      and then one that is in order. */
  function Exhausting(bad: Request, good: Request): seq<Op> {
    seq(U32_MAX, i => VerifyOp(bad)) + [VerifyOp(good)]
  }

  lemma {:induction false} OnlyFailures(bad: Request, good: Request, n: nat)
    requires n <= U32_MAX && bad.fingerprint !in bad.allowed
    ensures After(Exhausting(bad, good), n).usedNonces == {}
    ensures FailuresSince(Exhausting(bad, good), n, Short(bad.fingerprint)) == n
  {
    if n > 0 {
      OnlyFailures(bad, good, n - 1);
      assert Exhausting(bad, good)[n - 1] == VerifyOp(bad);
    }
  }

  /** The lock is not for ever: it is on after the third failure and off again when the
      counter is about to wrap. */
  lemma LockReopens(bad: Request, good: Request)
    requires bad.fingerprint !in bad.allowed
    requires good.fingerprint == bad.fingerprint && good.fingerprint in good.allowed
    requires InTime(good)
    ensures FailuresSince(Exhausting(bad, good), 3, Short(bad.fingerprint)) == 3
    ensures Accepts(Exhausting(bad, good), U32_MAX)
  {
    var ops := Exhausting(bad, good);
    OnlyFailures(bad, good, 3);
    OnlyFailures(bad, good, U32_MAX);
    CounterCountsFailures(ops, U32_MAX, Short(bad.fingerprint));
    WrapSmall(U32_MAX);
    assert ops[U32_MAX] == VerifyOp(good);
    LimitExactly(After(ops, U32_MAX), good);
  }

  /** Nonces accepted by the first n calls. */
  ghost function AcceptedNonces(ops: seq<Op>, n: nat): set<seq<byte>>
    requires n <= |ops|
  {
    set i | 0 <= i < n && Accepts(ops, i) && ops[i].VerifyOp? :: ops[i].q.nonce
  }

  /** Call p emptied a set of more than 10000 distinct nonces, all of them accepted before. */
  ghost predicate BigPurge(ops: seq<Op>, p: nat)
    requires p < |ops|
  {
    && ops[p].PurgeOp?
    && |After(ops, p).usedNonces| > 10_000
    && After(ops, p).usedNonces <= AcceptedNonces(ops, p)
  }

  /** One call remembers its nonce, or adds none. */
  lemma NoncesStep(s: State, op: Op)
    ensures Do(s, op).1 ==> op.VerifyOp? && Do(s, op).0.usedNonces == s.usedNonces + {op.q.nonce}
    ensures !Do(s, op).1 ==> Do(s, op).0.usedNonces <= s.usedNonces
  {
  }

  lemma {:induction false} UsedWereAccepted(ops: seq<Op>, n: nat)
    requires n <= |ops|
    ensures After(ops, n).usedNonces <= AcceptedNonces(ops, n)
  {
    if n > 0 {
      UsedWereAccepted(ops, n - 1);
      NoncesStep(After(ops, n - 1), ops[n - 1]);
      AcceptedGrow(ops, n);
    }
  }

  lemma AcceptedGrow(ops: seq<Op>, n: nat)
    requires 0 < n <= |ops|
    ensures AcceptedNonces(ops, n - 1) <= AcceptedNonces(ops, n)
    ensures Accepts(ops, n - 1) && ops[n - 1].VerifyOp? ==> ops[n - 1].q.nonce in AcceptedNonces(ops, n)
  {
  }

  /** An accepted nonce stays remembered until a purge clears the set. */
  lemma {:induction false} RememberedUntilPurge(ops: seq<Op>, i: nat, n: nat)
    requires i < n <= |ops| && Accepts(ops, i) && ops[i].VerifyOp?
    requires forall p :: i < p < n ==> !(ops[p].PurgeOp? && Purges(After(ops, p)))
    ensures ops[i].q.nonce in After(ops, n).usedNonces
    decreases n
  {
    if i + 1 < n {
      RememberedUntilPurge(ops, i, n - 1);
    }
  }

  /** Over every run, a nonce is accepted twice only if a purge in between cleared at least
      10001 distinct accepted nonces. */
  lemma TwiceOnlyAfterBigPurge(ops: seq<Op>, i: nat, j: nat)
    requires i < j < |ops| && ops[i].VerifyOp? && ops[j].VerifyOp? && ops[i].q.nonce == ops[j].q.nonce
    requires Accepts(ops, i) && Accepts(ops, j)
    ensures exists p :: i < p < j && BigPurge(ops, p)
  {
    if forall p :: i < p < j ==> !(ops[p].PurgeOp? && Purges(After(ops, p))) {
      RememberedUntilPurge(ops, i, j);
    } else {
      var p :| i < p < j && ops[p].PurgeOp? && Purges(After(ops, p));
      UsedWereAccepted(ops, p);
      assert BigPurge(ops, p);
    }
  }
}
