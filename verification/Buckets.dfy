/** The bucket an identifier falls in: the value of the first bits of its hash. */
module Buckets {
  import opened Hex
  import opened PartPaths

  function Pow2(n: nat): (p: nat)
    ensures p >= 1
  {
    if n == 0 then 1 else 2 * Pow2(n - 1)
  }

  /** `x` shifted right by `n` bits. */
  function Shifted(x: nat, n: nat): nat {
    if n == 0 then x else Shifted(x / 2, n - 1)
  }

  /** The last `n` bits of `x`, as a mask of so many ones leaves. */
  function Low(x: nat, n: nat): nat {
    if n == 0 then 0 else 2 * Low(x / 2, n - 1) + x % 2
  }

  /** A number is its high bits and its low ones, each in its place. */
  lemma {:induction false} HighAndLow(x: nat, n: nat)
    ensures x == Shifted(x, n) * Pow2(n) + Low(x, n) && Low(x, n) < Pow2(n)
  {
    if n > 0 {
      HighAndLow(x / 2, n - 1);
      Doubled(Shifted(x / 2, n - 1), Pow2(n - 1));
    }
  }

  lemma Doubled(high: nat, p: nat)
    ensures high * (2 * p) == 2 * (high * p)
  {
  }

  function Number(digits: string): nat
    requires AllDigits(digits)
  {
    if digits == [] then 0 else Number(digits[..|digits| - 1]) * 16 + Value(digits[|digits| - 1])
  }

  /** How many digits hold the first `bits` bits. */
  function DigitsFor(bits: nat): (digits: nat)
    ensures bits <= 4 * digits < bits + 4
  {
    (bits + 3) / 4
  }

  /** The digits that hold the first `bits` bits, shifted right to leave those bits alone. */
  function Bucket(hash: string, bits: nat): nat
    requires AllDigits(hash) && bits <= 4 * |hash|
  {
    var digits := DigitsFor(bits);
    Shifted(Number(hash[..digits]), digits * 4 - bits)
  }

  /** The bit at `i` of a hash, the most significant of each digit first. */
  function Bit(hash: string, i: nat): nat
    requires AllDigits(hash) && i < 4 * |hash|
  {
    Shifted(Value(hash[i / 4]), 3 - i % 4) % 2
  }

  lemma NumberMore(hash: string, k: nat)
    requires AllDigits(hash) && k < |hash|
    ensures Number(hash[..k + 1]) == Number(hash[..k]) * 16 + Value(hash[k])
  {
    assert hash[..k + 1][..k] == hash[..k];
  }

  lemma ShiftedBy(x: nat)
    ensures Shifted(x, 0) == x && Shifted(x, 1) == x / 2 && Shifted(x, 2) == x / 4 && Shifted(x, 3) == x / 8
  {
    assert Shifted(x, 3) == Shifted(x / 2, 2) == Shifted(x / 2 / 2, 1) == x / 2 / 2 / 2;
    assert Shifted(x, 2) == Shifted(x / 2, 1) == x / 2 / 2;
  }

  /** Within a digit, one bit more doubles what the bits before it come to, and adds it. */
  lemma OneBitOfDigit(n: nat, v: nat, r: nat)
    requires r < 4 && v < 16
    ensures r == 0 ==> Shifted(n * 16 + v, 3) == 2 * n + Shifted(v, 3) % 2
    ensures r > 0 ==> Shifted(n * 16 + v, 3 - r) == 2 * Shifted(n * 16 + v, 4 - r) + Shifted(v, 3 - r) % 2
  {
    ShiftedBy(v);
    ShiftedBy(n * 16 + v);
    BitsOfSum(n, v);
  }

  lemma BitsOfSum(n: nat, v: nat)
    requires v < 16
    ensures (n * 16 + v) / 8 == 2 * n + v / 8 % 2
    ensures (n * 16 + v) / 4 == 2 * ((n * 16 + v) / 8) + v / 4 % 2
    ensures (n * 16 + v) / 2 == 2 * ((n * 16 + v) / 4) + v / 2 % 2
    ensures n * 16 + v == 2 * ((n * 16 + v) / 2) + v % 2
  {
    assert (n * 16 + v) / 8 == 2 * n + v / 8;
    assert (n * 16 + v) / 4 == 4 * n + v / 4;
    assert (n * 16 + v) / 2 == 8 * n + v / 2;
  }

  lemma BucketWithin(hash: string, k: nat, r: nat)
    requires AllDigits(hash) && k < |hash| && 1 <= r <= 4
    ensures Bucket(hash, 4 * k + r) == Shifted(Number(hash[..k]) * 16 + Value(hash[k]), 4 - r)
  {
    NumberMore(hash, k);
    assert DigitsFor(4 * k + r) == k + 1;
  }

  lemma BucketOfDigits(hash: string, k: nat)
    requires AllDigits(hash) && k <= |hash|
    ensures Bucket(hash, 4 * k) == Number(hash[..k])
  {
    assert DigitsFor(4 * k) == k;
  }

  /** One bit more doubles a bucket and adds the bit. */
  lemma OneBitMore(hash: string, bits: nat)
    requires AllDigits(hash) && bits < 4 * |hash|
    ensures Bucket(hash, bits + 1) == 2 * Bucket(hash, bits) + Bit(hash, bits)
  {
    BucketEnds(hash, bits / 4, bits % 4);
    OneBitOfDigit(Number(hash[..bits / 4]), Value(hash[bits / 4]), bits % 4);
  }

  /** The buckets either side of a bit, by the digit that bit is in. */
  lemma BucketEnds(hash: string, k: nat, r: nat)
    requires AllDigits(hash) && k < |hash| && r < 4
    ensures var x := Number(hash[..k]) * 16 + Value(hash[k]);
            && Bucket(hash, 4 * k + r) == (if r == 0 then Number(hash[..k]) else Shifted(x, 4 - r))
            && Bucket(hash, 4 * k + r + 1) == Shifted(x, 3 - r)
  {
    BucketWithin(hash, k, r + 1);
    if r == 0 {
      BucketOfDigits(hash, k);
    } else {
      BucketWithin(hash, k, r);
    }
  }

  // ---- Numbers by their bits ----------------------------------------------

  /** The number whose first `n` bits are `bit`'s, the most significant first. */
  function Spelled(bit: nat -> nat, n: nat): nat {
    if n == 0 then 0 else 2 * Spelled(bit, n - 1) + bit(n - 1)
  }

  function BitsOf(hash: string): nat -> nat {
    (i: nat) => if AllDigits(hash) && i < 4 * |hash| then Bit(hash, i) else 0
  }

  /** A bucket is the number its hash's first bits spell. */
  lemma {:induction false} BucketIsSpelled(hash: string, bits: nat)
    requires AllDigits(hash) && bits <= 4 * |hash|
    ensures Bucket(hash, bits) == Spelled(BitsOf(hash), bits)
  {
    if bits == 0 {
      assert hash[..0] == [];
    } else {
      BucketIsSpelled(hash, bits - 1);
      OneBitMore(hash, bits - 1);
    }
  }

  ghost predicate Binary(bit: nat -> nat) {
    forall i :: bit(i) < 2
  }

  lemma BitsAreBinary(hash: string)
    ensures Binary(BitsOf(hash))
  {
  }

  lemma {:induction false} SpelledDivides(bit: nat -> nat, n: nat, more: nat)
    requires Binary(bit)
    ensures Shifted(Spelled(bit, n + more), more) == Spelled(bit, n)
  {
    if more > 0 {
      assert Spelled(bit, n + more) / 2 == Spelled(bit, n + more - 1);
      SpelledDivides(bit, n, more - 1);
    }
  }

  lemma {:induction false} SpelledIsBelow(bit: nat -> nat, n: nat)
    requires Binary(bit)
    ensures Spelled(bit, n) < Pow2(n)
  {
    if n > 0 {
      SpelledIsBelow(bit, n - 1);
    }
  }

  predicate SameFirst(a: nat -> nat, b: nat -> nat, n: nat) {
    forall i :: 0 <= i < n ==> a(i) == b(i)
  }

  lemma {:induction false} SpelledAlike(a: nat -> nat, b: nat -> nat, n: nat)
    requires Binary(a) && Binary(b)
    ensures Spelled(a, n) == Spelled(b, n) <==> SameFirst(a, b, n)
  {
    if n > 0 {
      SpelledAlike(a, b, n - 1);
      assert Spelled(a, n) / 2 == Spelled(a, n - 1) && Spelled(b, n) / 2 == Spelled(b, n - 1);
    }
  }

  /** Buckets of more bits divide up those of fewer: the first bits stay, and those that follow are added. */
  lemma BucketDivides(hash: string, bits: nat, more: nat)
    requires AllDigits(hash) && bits + more <= 4 * |hash|
    ensures Shifted(Bucket(hash, bits + more), more) == Bucket(hash, bits)
    ensures Bucket(hash, bits + more) == Bucket(hash, bits) * Pow2(more) + Low(Bucket(hash, bits + more), more)
    ensures Low(Bucket(hash, bits + more), more) < Pow2(more) && Bucket(hash, bits) < Pow2(bits)
  {
    BitsAreBinary(hash);
    BucketIsSpelled(hash, bits + more);
    BucketIsSpelled(hash, bits);
    SpelledDivides(BitsOf(hash), bits, more);
    SpelledIsBelow(BitsOf(hash), bits);
    HighAndLow(Bucket(hash, bits + more), more);
  }

  /** Identifiers fall in one bucket exactly if their hashes share that many first bits. */
  lemma BucketIsBits(a: string, b: string, bits: nat)
    requires AllDigits(a) && AllDigits(b) && bits <= 4 * |a| && bits <= 4 * |b|
    ensures Bucket(a, bits) == Bucket(b, bits) <==> SameFirst(BitsOf(a), BitsOf(b), bits)
  {
    BitsAreBinary(a);
    BitsAreBinary(b);
    BucketIsSpelled(a, bits);
    BucketIsSpelled(b, bits);
    SpelledAlike(BitsOf(a), BitsOf(b), bits);
  }

  lemma LowTells(x: nat, y: nat, n: nat)
    requires Shifted(x, n) == Shifted(y, n)
    ensures Low(x, n) == Low(y, n) <==> x == y
  {
    HighAndLow(x, n);
    HighAndLow(y, n);
  }

  /** Of identifiers in one bucket, the bits that follow tell those in one bucket of more bits. */
  lemma SameBucketsPart(a: string, b: string, bits: nat, more: nat)
    requires AllDigits(a) && AllDigits(b) && bits + more <= 4 * |a| && bits + more <= 4 * |b|
    requires Bucket(a, bits) == Bucket(b, bits)
    ensures Low(Bucket(a, bits + more), more) == Low(Bucket(b, bits + more), more) <==>
            SameFirst(BitsOf(a), BitsOf(b), bits + more)
  {
    BucketDivides(a, bits, more);
    BucketDivides(b, bits, more);
    LowTells(Bucket(a, bits + more), Bucket(b, bits + more), more);
    BucketIsBits(a, b, bits + more);
  }
}
