/** Numbers as bits: exclusive or, bit lengths, and how many leading bits two share. */
module Bits {
  import opened Wrappers
  import opened Hex

  type Bit = x: nat | x < 2

  type Bits = seq<Bit>

  /** The number `bits` spell, the most significant first. */
  function Num(bits: Bits): nat {
    if bits == [] then 0 else 2 * Num(bits[..|bits| - 1]) + bits[|bits| - 1]
  }

  function Xor(x: nat, y: nat): nat {
    if x == 0 && y == 0 then 0 else 2 * Xor(x / 2, y / 2) + if x % 2 == y % 2 then 0 else 1
  }

  function BitLength(x: nat): nat {
    if x == 0 then 0 else 1 + BitLength(x / 2)
  }

  function XorBits(a: Bits, b: Bits): (x: Bits)
    requires |a| == |b|
    ensures |x| == |a|
  {
    seq(|a|, i requires 0 <= i < |a| => if a[i] == b[i] then 0 else 1)
  }

  /** How many leading bits are none. */
  function Leading(bits: Bits): (n: nat)
    ensures n <= |bits|
  {
    if bits == [] || bits[0] == 1 then 0 else 1 + Leading(bits[1..])
  }

  lemma {:induction false} XorOfNums(a: Bits, b: Bits)
    requires |a| == |b|
    ensures Xor(Num(a), Num(b)) == Num(XorBits(a, b))
    decreases |a|
  {
    if a != [] {
      var n := |a| - 1;
      XorOfNums(a[..n], b[..n]);
      assert XorBits(a, b)[..n] == XorBits(a[..n], b[..n]);
      XorStep(Num(a[..n]), a[n], Num(b[..n]), b[n]);
    }
  }

  lemma XorStep(x: nat, p: Bit, y: nat, q: Bit)
    ensures Xor(2 * x + p, 2 * y + q) == 2 * Xor(x, y) + if p == q then 0 else 1
  {
    assert (2 * x + p) / 2 == x && (2 * y + q) / 2 == y;
  }

  lemma {:induction false} LeadingConcat(a: Bits, b: Bits)
    ensures Leading(a + b) == if Leading(a) < |a| then Leading(a) else |a| + Leading(b)
  {
    if a == [] {
      assert a + b == b;
    } else if a[0] == 0 {
      assert (a + b)[1..] == a[1..] + b;
      LeadingConcat(a[1..], b);
    }
  }

  /** A number is as long as its bits, less those that lead and are none. */
  lemma {:induction false} LengthOfNum(bits: Bits)
    ensures BitLength(Num(bits)) == |bits| - Leading(bits)
    ensures Num(bits) == 0 <==> Leading(bits) == |bits|
  {
    if bits != [] {
      var init, last := bits[..|bits| - 1], bits[|bits| - 1];
      LengthOfNum(init);
      LeadingConcat(init, [last]);
      assert bits == init + [last];
      assert (2 * Num(init) + last) / 2 == Num(init);
    }
  }

  lemma {:induction false} LengthIsMonotone(x: nat, y: nat)
    requires x <= y
    ensures BitLength(x) <= BitLength(y)
    decreases y
  {
    if x != 0 {
      LengthIsMonotone(x / 2, y / 2);
    }
  }

  /** How many leading bits two of one length share. */
  function Shared(a: Bits, b: Bits): nat
    requires |a| == |b|
  {
    Leading(XorBits(a, b))
  }

  /** They share just so many: as many, and no more. */
  lemma {:induction false} SharedIsMost(a: Bits, b: Bits)
    requires |a| == |b|
    ensures a[..Shared(a, b)] == b[..Shared(a, b)]
    ensures Shared(a, b) < |a| ==> a[Shared(a, b)] != b[Shared(a, b)]
    decreases |a|
  {
    if a != [] && a[0] == b[0] {
      assert XorBits(a, b)[1..] == XorBits(a[1..], b[1..]);
      SharedIsMost(a[1..], b[1..]);
      var n := Shared(a[1..], b[1..]);
      assert a[..n + 1] == [a[0]] + a[1..][..n] && b[..n + 1] == [b[0]] + b[1..][..n];
    }
  }

  /** The bits shared tell how far apart two numbers are, by exclusive or. */
  lemma DistanceTellsShared(a: Bits, b: Bits)
    requires |a| == |b|
    ensures Shared(a, b) == |a| - BitLength(Xor(Num(a), Num(b)))
  {
    XorOfNums(a, b);
    LengthOfNum(XorBits(a, b));
  }

  // ---- Bytes and digits ---------------------------------------------------

  function DigitBits(v: int): (bits: Bits)
    requires 0 <= v < 16
    ensures |bits| == 4
  {
    [v / 8, v / 4 % 2, v / 2 % 2, v % 2]
  }

  function ByteBits(b: Byte): (bits: Bits)
    ensures |bits| == 8
  {
    DigitBits(b / 16) + DigitBits(b % 16)
  }

  function BitsOfBytes(bytes: Bytes): (bits: Bits)
    ensures |bits| == 8 * |bytes|
  {
    if bytes == [] then [] else ByteBits(bytes[0]) + BitsOfBytes(bytes[1..])
  }

  function BitsOfDigits(digits: string): (bits: Bits)
    requires AllDigits(digits)
    ensures |bits| == 4 * |digits|
  {
    if digits == [] then [] else DigitBits(Value(digits[0])) + BitsOfDigits(digits[1..])
  }

  lemma NumOfDigit(v: int)
    requires 0 <= v < 16
    ensures Num(DigitBits(v)) == v
  {
    var bits := DigitBits(v);
    assert bits[..3][..2] == bits[..2] && bits[..2][..1] == bits[..1] && bits[..1][..0] == [];
    assert Num(bits[..1]) == v / 8;
    assert Num(bits[..2]) == v / 4;
    assert Num(bits[..3]) == v / 2;
  }

  lemma {:induction false} BitsOfHex(bytes: Bytes)
    ensures BitsOfDigits(Encode(bytes)) == BitsOfBytes(bytes)
  {
    if bytes != [] {
      var hex := Encode(bytes);
      BitsOfHex(bytes[1..]);
      assert hex[1..][1..] == hex[2..] == Encode(bytes[1..]);
      assert BitsOfDigits(hex[1..]) == DigitBits(bytes[0] % 16) + BitsOfDigits(hex[2..]);
      Regrouped(DigitBits(bytes[0] / 16), DigitBits(bytes[0] % 16), BitsOfDigits(hex[2..]));
    }
  }

  lemma {:induction false} SharedConcat(a: Bits, b: Bits, c: Bits, d: Bits)
    requires |a| == |c| && |b| == |d|
    ensures Shared(a + b, c + d) == if Shared(a, c) < |a| then Shared(a, c) else |a| + Shared(b, d)
  {
    assert XorBits(a + b, c + d) == XorBits(a, c) + XorBits(b, d);
    LeadingConcat(XorBits(a, c), XorBits(b, d));
  }

  /** Leading bits counted a hex digit at a time. */
  method MatchingBits(left: string, right: string) returns (bits: nat)
    requires AllDigits(left) && AllDigits(right)
    ensures var n := if |left| < |right| then |left| else |right|;
            bits == Shared(BitsOfDigits(left[..n]), BitsOfDigits(right[..n]))
  {
    var n := if |left| < |right| then |left| else |right|;
    bits := 0;
    var i := 0;
    ghost var all := Shared(BitsOfDigits(left[..n]), BitsOfDigits(right[..n]));
    while i < n
      invariant 0 <= i <= n && bits == 4 * i
      invariant all == bits + Shared(BitsOfDigits(left[i..n]), BitsOfDigits(right[i..n]))
    {
      var v, w := Value(left[i]), Value(right[i]);
      var difference := Xor(v, w);
      assert left[i..n][1..] == left[i + 1..n] && right[i..n][1..] == right[i + 1..n];
      SharedConcat(DigitBits(v), BitsOfDigits(left[i + 1..n]), DigitBits(w), BitsOfDigits(right[i + 1..n]));
      DistanceTellsShared(DigitBits(v), DigitBits(w));
      NumOfDigit(v);
      NumOfDigit(w);
      LengthIsZero(difference);
      if difference != 0 {
        return bits + 4 - BitLength(difference);
      }
      bits := bits + 4;
      i := i + 1;
    }
  }

  lemma LengthIsZero(x: nat)
    ensures BitLength(x) == 0 <==> x == 0
  {
  }
}
