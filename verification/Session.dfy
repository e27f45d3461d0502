/** A session's anti-replay window: the bitmap stands for the unbounded set of sequence
    numbers accepted so far. */
module Session {
  import opened Basics
  import Bitmap

  const WINDOW: u64 := Bitmap.WINDOW

  /** What a session remembers: a send counter and the set of numbers accepted, with the
      largest of them. */
  datatype State = State(lastSent: u64, last: u64, accepted: set<int>, established: bool)

  const NEW: State := State(0, 0, {}, false)

  /** Positive, new, and less than 64 below the largest number accepted. */
  predicate Acceptable(s: State, num: u64) {
    num > 0 && num !in s.accepted && s.last - num < WINDOW
  }

  function Check(s: State, num: u64): (State, bool) {
    if Acceptable(s, num) then
      (s.(accepted := s.accepted + {num}, last := if num > s.last then num else s.last), true)
    else (s, false)
  }

  /** The bitmap and its top stand for the set: the top is the largest element, and bit n
      says whether last - n is in the set. */
  ghost predicate Tracks(last: u64, bitmap: bv64, accepted: set<int>) {
    && (forall n :: n in accepted ==> 0 < n <= last)
    && (last > 0 ==> last in accepted)
    && (forall n: nat :: n < 64 ==> (Bitmap.Bit(bitmap, n) <==> (last - n) in accepted))
  }

  /** Moving the top up: bit n of the new word speaks about the number that bit
      n - (num - last) of the old one spoke about. */
  lemma RaiseTracks(last: u64, bitmap: bv64, accepted: set<int>, num: u64, bitmap': bv64)
    requires Tracks(last, bitmap, accepted) && last < num
    requires forall n: nat :: n < 64 ==>
      (Bitmap.Bit(bitmap', n) <==> n == 0 || (num - last <= n && Bitmap.Bit(bitmap, n - (num - last))))
    ensures Tracks(num, bitmap', accepted + {num})
  {
    forall n: nat | n < 64 ensures Bitmap.Bit(bitmap', n) <==> (num - n) in accepted + {num} {
      if num - last <= n {
        assert Bitmap.Bit(bitmap, n - (num - last)) <==> (last - (n - (num - last))) in accepted;
      }
    }
  }

  lemma MarkTracks(last: u64, bitmap: bv64, accepted: set<int>, age: nat, bitmap': bv64)
    requires Tracks(last, bitmap, accepted) && age < last
    requires forall n: nat :: n < 64 ==> (Bitmap.Bit(bitmap', n) <==> n == age || Bitmap.Bit(bitmap, n))
    ensures Tracks(last, bitmap', accepted + {last - age})
  {
  }

  class Session {
    var lastSentSequence: u64
    var lastReceivedSequence: u64
    var replayBitmap: bv64
    var established: bool
    ghost var accepted: set<int>

    ghost predicate Valid()
      reads this
    {
      Tracks(lastReceivedSequence, replayBitmap, accepted)
    }

    ghost function View(): State
      reads this
    {
      State(lastSentSequence, lastReceivedSequence, accepted, established)
    }

    constructor ()
      ensures Valid() && View() == NEW
    {
      lastSentSequence, lastReceivedSequence, replayBitmap := 0, 0, 0;
      established := false;
      accepted := {};
      new;
      Bitmap.ZeroBits();
    }

    method MarkEstablished()
      requires Valid()
      modifies this
      ensures Valid() && View() == old(View()).(established := true)
    {
      established := true;
    }

    method NextSendSequence() returns (num: u64)
      requires Valid()
      modifies this
      ensures Valid() && num == Wrap64(old(lastSentSequence) + 1)
      ensures num == if old(lastSentSequence) == 0xFFFF_FFFF_FFFF_FFFF then 0 else old(lastSentSequence) + 1
      ensures View() == old(View()).(lastSent := num)
    {
      lastSentSequence := Wrap64(lastSentSequence + 1);
      num := lastSentSequence;
    }

    /** The bitmap decides exactly as the unbounded set would. */
    method CheckReplay(num: u64) returns (ok: bool)
      requires Valid()
      modifies this
      ensures Valid() && (View(), ok) == Check(old(View()), num)
      ensures ok <==> num > 0 && num !in old(accepted) && old(lastReceivedSequence) - num < 64
      ensures accepted == old(accepted) + (if ok then {num} else {})
    {
      if num == 0 {
        return false;
      }
      if num > lastReceivedSequence {
        replayBitmap := AcceptAbove(lastReceivedSequence, replayBitmap, accepted, num);
        lastReceivedSequence := num;
      } else {
        var marked;
        ok, marked := AcceptWithin(lastReceivedSequence, replayBitmap, accepted, num);
        if !ok {
          return;
        }
        replayBitmap := marked;
      }
      accepted := accepted + {num};
      ok := true;
    }
  }

  /** A number above the top: the window slides up to it. */
  method AcceptAbove(last: u64, bitmap: bv64, ghost accepted: set<int>, num: u64) returns (bitmap': bv64)
    requires Tracks(last, bitmap, accepted) && last < num
    ensures Tracks(num, bitmap', accepted + {num})
  {
    bitmap' := Bitmap.ShiftIn(bitmap, num - last);
    RaiseTracks(last, bitmap, accepted, num, bitmap');
  }

  /** A number at or below the top: rejected when too old or seen, otherwise marked. */
  method AcceptWithin(last: u64, bitmap: bv64, ghost accepted: set<int>, num: u64) returns (ok: bool, bitmap': bv64)
    requires Tracks(last, bitmap, accepted) && 0 < num <= last
    ensures ok <==> num !in accepted && last - num < 64
    ensures Tracks(last, bitmap', if ok then accepted + {num} else accepted)
  {
    var age := last - num;
    bitmap' := bitmap;
    if age >= WINDOW {
      return false, bitmap;
    }
    var seen := Bitmap.TestBit(bitmap, age);
    if seen {
      return false, bitmap;
    }
    bitmap' := Bitmap.SetBit(bitmap, age);
    MarkTracks(last, bitmap, accepted, age, bitmap');
    ok := true;
  }

  // ---------------------------------------------------------------------------
  // Any sequence of calls

  /** The state after all the calls, and the verdict of each. */
  function CheckAll(s: State, nums: seq<u64>): (r: (State, seq<bool>))
    ensures |r.1| == |nums|
  {
    if nums == [] then (s, [])
    else
      var (before, verdicts) := CheckAll(s, nums[..|nums| - 1]);
      var (after, ok) := Check(before, nums[|nums| - 1]);
      (after, verdicts + [ok])
  }

  /** Fresh and recent: nothing equal, and nothing 64 or more above, arrived earlier. */
  ghost predicate FreshAndRecent(nums: seq<u64>, k: nat)
    requires k < |nums|
  {
    nums[k] > 0 && forall j :: 0 <= j < k ==> nums[j] != nums[k] && nums[j] < nums[k] as int + 64
  }

  /** The largest number so far is the top; every positive number so far was accepted or
      lies 64 or more below the top. */
  ghost predicate Summarises(s: State, nums: seq<u64>) {
    && (forall k :: 0 <= k < |nums| ==> nums[k] <= s.last)
    && (s.last == 0 || s.last in nums)
    && (forall n :: n in s.accepted ==> n in nums)
    && (forall k :: 0 <= k < |nums| && nums[k] > 0 ==> nums[k] in s.accepted || s.last >= nums[k] as int + 64)
  }

  lemma NextSummarises(s: State, nums: seq<u64>, num: u64)
    requires Summarises(s, nums)
    ensures Summarises(Check(s, num).0, nums + [num])
    ensures Acceptable(s, num) <==> FreshAndRecent(nums + [num], |nums|)
  {
    var all := nums + [num];
    if num in s.accepted {
      var j :| 0 <= j < |nums| && nums[j] == num;
      assert all[j] == num;
    }
    if s.last >= num as int + 64 {
      var j :| 0 <= j < |nums| && nums[j] == s.last;
      assert all[j] == s.last;
    }
    forall j | 0 <= j < |nums| ensures all[j] == nums[j] <= s.last {
    }
    assert all[|nums|] == num;
  }

  lemma {:induction false} CheckAllSummarises(nums: seq<u64>)
    ensures Summarises(CheckAll(NEW, nums).0, nums)
  {
    if nums != [] {
      var n := |nums| - 1;
      CheckAllSummarises(nums[..n]);
      NextSummarises(CheckAll(NEW, nums[..n]).0, nums[..n], nums[n]);
      assert nums == nums[..n] + [nums[n]];
    }
  }

  /** The verdict of call k depends on earlier calls only through what arrived before:
      it accepts exactly the fresh and recent. */
  lemma {:induction false} VerdictsExactly(nums: seq<u64>, k: nat)
    requires k < |nums|
    ensures CheckAll(NEW, nums).1[k] <==> FreshAndRecent(nums, k)
    decreases |nums|
  {
    var n := |nums| - 1;
    if k == n {
      CheckAllSummarises(nums[..n]);
      NextSummarises(CheckAll(NEW, nums[..n]).0, nums[..n], nums[n]);
      assert nums == nums[..n] + [nums[n]];
    } else {
      VerdictsExactly(nums[..n], k);
    }
  }

  /** Numbers that never arrive 64 or more below an earlier one are accepted exactly once
      each, at their first arrival, however often they are repeated. */
  lemma AcceptedExactlyOnce(nums: seq<u64>, k: nat)
    requires forall i, j :: 0 <= i < j < |nums| ==> nums[i] < nums[j] as int + 64
    requires k < |nums| && nums[k] > 0
    ensures exists i :: 0 <= i <= k && nums[i] == nums[k] && CheckAll(NEW, nums).1[i]
    ensures forall i, j :: 0 <= i < j < |nums| && nums[i] == nums[j] ==> !CheckAll(NEW, nums).1[j]
  {
    var i := FirstIndex(nums, k);
    VerdictsExactly(nums, i);
    forall i, j | 0 <= i < j < |nums| && nums[i] == nums[j] ensures !CheckAll(NEW, nums).1[j] {
      VerdictsExactly(nums, j);
    }
  }

  lemma {:induction false} FirstIndex(nums: seq<u64>, k: nat) returns (i: nat)
    requires k < |nums|
    ensures i <= k && nums[i] == nums[k] && forall j :: 0 <= j < i ==> nums[j] != nums[k]
  {
    i := k;
    if j :| 0 <= j < k && nums[j] == nums[k] {
      i := FirstIndex(nums, j);
    }
  }
}
