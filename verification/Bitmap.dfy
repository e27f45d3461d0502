/** Shift, or and test on the 64-bit anti-replay bitmap, bit by bit. */
module Bitmap {
  import opened Basics

  const WINDOW: u64 := 64

  /** Bit n of a word, by walking down to it. */
  predicate Bit(b: bv64, n: nat) {
    if n == 0 then b & 1 == 1 else Bit(b >> 1, n - 1)
  }

  // ---------------------------------------------------------------------------
  // Machine words: what a shift, an or and a test do to each bit

  /** Bit i of a word, as the machine reads it. */
  predicate BitAt(b: bv64, i: bv6) {
    (b >> i) & 1 == 1
  }

  lemma StepDown(b: bv64, i: bv6)
    requires i > 0
    ensures BitAt(b, i) <==> BitAt(b >> 1, i - 1)
    ensures ((i - 1) as int) == (i as int) - 1
  {
  }

  lemma {:induction false} BitIs(b: bv64, i: bv6)
    ensures Bit(b, i as int) <==> BitAt(b, i)
    decreases i as int
  {
    if i > 0 {
      StepDown(b, i);
      BitIs(b >> 1, i - 1);
    }
  }

  lemma SameIndex(i: bv6, j: bv6)
    ensures i == j <==> (i as int) == (j as int)
  {
  }

  lemma IndexOrder(i: bv6, j: bv6)
    ensures i < j <==> (i as int) < (j as int)
  {
  }

  lemma IndexSum(s: bv6, d: bv6)
    requires (s as int) + (d as int) < 64
    ensures s <= 63 - d && ((s + d) as int) == (s as int) + (d as int)
  {
  }

  /** The number n as the amount of a shift. */
  method Amount(n: nat) returns (i: bv6)
    requires n < 64
    ensures (i as int) == n
  {
    i := n as bv6;
  }

  lemma IndexFor(n: nat) returns (i: bv6)
    requires n < 64
    ensures (i as int) == n
  {
    i := n as bv6;
  }

  lemma ShiftLow(b: bv64, s: bv6, i: bv6)
    requires i < s
    ensures !BitAt(b << s, i)
  {
  }

  lemma ShiftHighLong(b: bv64, s: bv6, d: bv6)
    requires s <= 63 - d && s >= 32
    ensures BitAt(b << s, s + d) <==> BitAt(b, d)
  {
  }

  lemma ShiftHighFar(b: bv64, s: bv6, d: bv6)
    requires s <= 63 - d && d >= 32
    ensures BitAt(b << s, s + d) <==> BitAt(b, d)
  {
  }

  lemma ShiftHighNear(b: bv64, s: bv6, d: bv6)
    requires s < 32 && d < 32
    ensures BitAt(b << s, s + d) <==> BitAt(b, d)
  {
  }

  lemma ShiftedLow(b: bv64, s: bv6, i: bv6)
    requires i < s
    ensures !Bit(b << s, i as int)
  {
    BitIs(b << s, i);
    ShiftLow(b, s, i);
  }

  lemma ShiftedHigh(b: bv64, s: bv6, d: bv6)
    requires s <= 63 - d
    ensures Bit(b << s, (s + d) as int) <==> Bit(b, d as int)
  {
    BitIs(b << s, s + d);
    BitIs(b, d);
    if s >= 32 {
      ShiftHighLong(b, s, d);
    } else if d >= 32 {
      ShiftHighFar(b, s, d);
    } else {
      ShiftHighNear(b, s, d);
    }
  }

  lemma ShiftedBelow(b: bv64, s: bv6, n: nat)
    requires n < (s as int)
    ensures !Bit(b << s, n)
  {
    var i := IndexFor(n);
    IndexOrder(i, s);
    ShiftedLow(b, s, i);
  }

  lemma ShiftedAbove(b: bv64, s: bv6, d: bv6, n: nat)
    requires n == (s as int) + (d as int) < 64
    ensures Bit(b << s, n) <==> Bit(b, d as int)
  {
    IndexSum(s, d);
    ShiftedHigh(b, s, d);
  }

  lemma ShiftedBit(b: bv64, s: bv6, n: nat)
    requires n < 64
    ensures Bit(b << s, n) <==> (s as int) <= n && Bit(b, n - (s as int))
  {
    if n < (s as int) {
      ShiftedBelow(b, s, n);
    } else {
      var d := IndexFor(n - (s as int));
      ShiftedAbove(b, s, d, n);
    }
  }

  lemma OrAt(b: bv64, c: bv64, i: bv6)
    ensures BitAt(b | c, i) <==> BitAt(b, i) || BitAt(c, i)
  {
  }

  lemma OneAt(k: bv6, i: bv6)
    ensures BitAt(1 << k, i) <==> i == k
  {
  }

  lemma TestAt(b: bv64, k: bv6)
    ensures b & (1 << k) != 0 <==> BitAt(b, k)
  {
  }

  lemma OrBit(b: bv64, c: bv64, n: nat)
    requires n < 64
    ensures Bit(b | c, n) <==> Bit(b, n) || Bit(c, n)
  {
    var i := IndexFor(n);
    BitIs(b | c, i);
    BitIs(b, i);
    BitIs(c, i);
    OrAt(b, c, i);
  }

  lemma OneBit(k: bv6, n: nat)
    requires n < 64
    ensures Bit(1 << k, n) <==> n == (k as int)
  {
    var i := IndexFor(n);
    BitIs(1 << k, i);
    OneAt(k, i);
    SameIndex(i, k);
  }

  lemma {:induction false} ZeroBit(n: nat)
    ensures !Bit(0, n)
  {
    if n > 0 {
      ZeroBit(n - 1);
    }
  }

  /** `b <<= shift; b |= 1`, a shift of 64 or more clearing the word first. */
  method ShiftIn(b: bv64, shift: nat) returns (r: bv64)
    requires 0 < shift
    ensures forall n: nat :: n < 64 ==> (Bit(r, n) <==> n == 0 || (shift <= n && Bit(b, n - shift)))
  {
    var moved: bv64;
    if shift < WINDOW {
      var s := Amount(shift);
      moved := b << s;
      ShiftedBits(b, s, moved);
    } else {
      moved := 0;
      ZeroBits();
    }
    r := moved | 1;
    OrOneBits(moved, r);
  }

  lemma ShiftedBits(b: bv64, s: bv6, r: bv64)
    requires r == b << s
    ensures forall n: nat :: n < 64 ==> (Bit(r, n) <==> (s as int) <= n && Bit(b, n - (s as int)))
  {
    forall n: nat | n < 64 ensures Bit(r, n) <==> (s as int) <= n && Bit(b, n - (s as int)) {
      ShiftedBit(b, s, n);
    }
  }

  lemma ZeroBits()
    ensures forall n: nat :: n < 64 ==> !Bit(0, n)
  {
    forall n: nat | n < 64 ensures !Bit(0, n) {
      ZeroBit(n);
    }
  }

  lemma OrOneBits(b: bv64, r: bv64)
    requires r == b | 1
    ensures forall n: nat :: n < 64 ==> (Bit(r, n) <==> n == 0 || Bit(b, n))
  {
    forall n: nat | n < 64 ensures Bit(r, n) <==> n == 0 || Bit(b, n) {
      OrBit(b, 1, n);
      OneBit(0, n);
    }
  }

  /** `b & (1 << age) != 0` */
  method TestBit(b: bv64, age: nat) returns (r: bool)
    requires age < 64
    ensures r <==> Bit(b, age)
  {
    var k := Amount(age);
    TestAt(b, k);
    BitIs(b, k);
    r := b & (1 << k) != 0;
  }

  /** `b |= 1 << age` */
  method SetBit(b: bv64, age: nat) returns (r: bv64)
    requires age < 64
    ensures forall n: nat :: n < 64 ==> (Bit(r, n) <==> n == age || Bit(b, n))
  {
    var k := Amount(age);
    r := b | (1 << k);
    OrMaskBits(b, k, r);
  }

  lemma OrMaskBits(b: bv64, k: bv6, r: bv64)
    requires r == b | (1 << k)
    ensures forall n: nat :: n < 64 ==> (Bit(r, n) <==> n == (k as int) || Bit(b, n))
  {
    forall n: nat | n < 64 ensures Bit(r, n) <==> n == (k as int) || Bit(b, n) {
      OrBit(b, 1 << k, n);
      OneBit(k, n);
    }
  }
}
