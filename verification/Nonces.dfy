/** One process's share of the search for a nonce. */
module Nonces {
  import opened Wrappers
  import opened Hex
  import opened Buckets
  import opened Bits

  /** As long as a SHA-256 hash. */
  const TARGET_BYTES: nat := 32
  const TARGET_BITS: nat := 256
  const LENGTH_BYTES: nat := 4
  const PERCENT: Byte := 37
  const LETTER_D: Byte := 100
  const DIGIT_0: nat := 48

  type Hash = Bytes -> Bytes

  /** A hash is always as long as a target. */
  ghost predicate IsHash(hash: Hash) {
    forall data :: |hash(data)| == TARGET_BYTES
  }

  /** The number `bytes` spell, the most significant first. */
  function FromBytes(bytes: Bytes): nat {
    if bytes == [] then 0 else FromBytes(bytes[..|bytes| - 1]) * 256 + bytes[|bytes| - 1]
  }

  /** `count` in decimal. */
  function Nonce(count: nat): (digits: Bytes)
    ensures digits != [] && forall i :: 0 <= i < |digits| ==> DIGIT_0 <= digits[i] < DIGIT_0 + 10
  {
    if count < 10 then [DIGIT_0 + count] else Nonce(count / 10) + [DIGIT_0 + count % 10]
  }

  /** Different counts have different nonces. */
  function CountOf(digits: Bytes): int {
    if digits == [] then 0 else CountOf(digits[..|digits| - 1]) * 10 + digits[|digits| - 1] - DIGIT_0
  }

  lemma {:induction false} NonceIsItsCount(count: nat)
    ensures CountOf(Nonce(count)) == count
    ensures |Nonce(count)| > 1 ==> Nonce(count)[0] != DIGIT_0
  {
    if count < 10 {
      assert Nonce(count)[..0] == [];
    } else {
      NonceIsItsCount(count / 10);
      assert Nonce(count)[..|Nonce(count)| - 1] == Nonce(count / 10);
    }
  }

  datatype Search = Search(prefix: Bytes, target: Bytes, suffix: Bytes)

  predicate IsSearch(search: Search) {
    |search.target| == TARGET_BYTES
  }

  /** How far from the target the prefix hashes with `nonce`, and the suffix, after it. */
  function Distance(search: Search, nonce: Bytes, hash: Hash): nat {
    Xor(FromBytes(hash(search.prefix + (nonce + search.suffix))), FromBytes(search.target))
  }

  // ---- The pattern a count is formatted with ------------------------------

  function Escaped(suffix: Bytes): Bytes {
    if suffix == [] then []
    else (if suffix[0] == PERCENT then [PERCENT, PERCENT] else [suffix[0]]) + Escaped(suffix[1..])
  }

  function PatternOf(suffix: Bytes): Bytes {
    [PERCENT, LETTER_D] + Escaped(suffix)
  }

  /** `pattern` formatted with a count: its "%d" is the count, and each "%%" a percent sign. */
  function Formatted(pattern: Bytes, count: nat): Option<Bytes> {
    if pattern == [] then Some([])
    else if pattern[0] != PERCENT then
      match Formatted(pattern[1..], count) case None => None case Some(rest) => Some([pattern[0]] + rest)
    else if |pattern| < 2 then None
    else
      match Formatted(pattern[2..], count)
      case None => None
      case Some(rest) =>
        if pattern[1] == PERCENT then Some([PERCENT] + rest)
        else if pattern[1] == LETTER_D then Some(Nonce(count) + rest)
        else None
  }

  lemma {:induction false} EscapedIsSuffix(suffix: Bytes, count: nat)
    ensures Formatted(Escaped(suffix), count) == Some(suffix)
  {
    if suffix != [] {
      EscapedIsSuffix(suffix[1..], count);
      var escaped := Escaped(suffix);
      if suffix[0] == PERCENT {
        assert escaped[2..] == Escaped(suffix[1..]);
      } else {
        assert escaped[1..] == Escaped(suffix[1..]);
      }
      assert [suffix[0]] + suffix[1..] == suffix;
    }
  }

  /** Whatever percent signs a suffix holds, its pattern gives a nonce and then the suffix. */
  lemma PatternIsNonceAndSuffix(suffix: Bytes, count: nat)
    ensures Formatted(PatternOf(suffix), count) == Some(Nonce(count) + suffix)
  {
    EscapedIsSuffix(suffix, count);
    assert PatternOf(suffix)[2..] == Escaped(suffix);
  }

  // ---- What is nearest ----------------------------------------------------

  /** How far each count's nonce is. */
  function Distances(search: Search, hash: Hash): nat -> nat {
    (count: nat) => Distance(search, Nonce(count), hash)
  }

  /** Whether `best` is the first of the counts from `start` to `stop` of least distance. */
  ghost predicate IsNearest(best: nat, start: nat, stop: nat, distance: nat -> nat) {
    && start <= best < stop
    && (forall count :: start <= count < stop ==> distance(best) <= distance(count))
    && (forall count :: start <= count < best ==> distance(best) < distance(count))
  }

  /** One count more is nearest if it is nearer than any before. */
  lemma NearestMore(best: nat, start: nat, count: nat, distance: nat -> nat)
    requires IsNearest(best, start, count, distance)
    ensures IsNearest(if distance(count) < distance(best) then count else best, start, count + 1, distance)
  {
  }

  lemma {:induction false} ShortIsSmall(x: nat, n: nat)
    ensures BitLength(x) <= n <==> x < Pow2(n)
  {
    if x == 0 {
    } else if n > 0 {
      ShortIsSmall(x / 2, n - 1);
    }
  }

  lemma NumMore(bits: Bits, v: int)
    requires 0 <= v < 16
    ensures Num(bits + DigitBits(v)) == Num(bits) * 16 + v
  {
    var four := DigitBits(v);
    var one, two, three := bits + [four[0]], bits + four[..2], bits + four[..3];
    assert one[..|bits|] == bits && two[..|bits| + 1] == one && three[..|bits| + 2] == two;
    assert (bits + four)[..|bits| + 3] == three;
    assert Num(one) == 2 * Num(bits) + v / 8;
    assert Num(two) == 2 * Num(one) + v / 4 % 2;
    assert Num(three) == 2 * Num(two) + v / 2 % 2;
  }

  lemma {:induction false} BitsMore(bytes: Bytes, b: Byte)
    ensures BitsOfBytes(bytes + [b]) == BitsOfBytes(bytes) + ByteBits(b)
  {
    if bytes == [] {
      assert BitsOfBytes([b][1..]) == [];
      assert ByteBits(b) + [] == ByteBits(b) && [] + ByteBits(b) == ByteBits(b);
    } else {
      assert (bytes + [b])[1..] == bytes[1..] + [b];
      BitsMore(bytes[1..], b);
      Regrouped(ByteBits(bytes[0]), BitsOfBytes(bytes[1..]), ByteBits(b));
    }
  }

  lemma {:induction false} BytesAreBits(bytes: Bytes)
    ensures FromBytes(bytes) == Num(BitsOfBytes(bytes))
  {
    if bytes != [] {
      var init, last := bytes[..|bytes| - 1], bytes[|bytes| - 1];
      BytesAreBits(init);
      BitsMore(init, last);
      assert bytes == init + [last];
      NumMore(BitsOfBytes(init), last / 16);
      NumMore(BitsOfBytes(init) + DigitBits(last / 16), last % 16);
      Regrouped(BitsOfBytes(init), DigitBits(last / 16), DigitBits(last % 16));
    }
  }

  lemma DigitsDiffer(v: int, w: int)
    requires 0 <= v < 16 && 0 <= w < 16 && v != w
    ensures Shared(DigitBits(v), DigitBits(w)) < 4
  {
    NumOfDigit(v);
    NumOfDigit(w);
    SharedIsMost(DigitBits(v), DigitBits(w));
    assert DigitBits(v)[..4] == DigitBits(v) && DigitBits(w)[..4] == DigitBits(w);
  }

  lemma FirstByteDiffers(a: Bytes, b: Bytes)
    requires |a| == |b| && a != [] && a[0] != b[0]
    ensures Shared(BitsOfBytes(a), BitsOfBytes(b)) < 8
  {
    SharedConcat(ByteBits(a[0]), BitsOfBytes(a[1..]), ByteBits(b[0]), BitsOfBytes(b[1..]));
    SharedConcat(DigitBits(a[0] / 16), DigitBits(a[0] % 16), DigitBits(b[0] / 16), DigitBits(b[0] % 16));
    if a[0] / 16 != b[0] / 16 {
      DigitsDiffer(a[0] / 16, b[0] / 16);
    } else {
      DigitsDiffer(a[0] % 16, b[0] % 16);
    }
  }

  /** Hashes that differ in their first byte are further apart than any that do not. */
  lemma FirstByteTells(a: Bytes, b: Bytes)
    requires |a| == |b| && a != []
    ensures a[0] != b[0] ==> Xor(FromBytes(a), FromBytes(b)) >= Pow2(8 * (|a| - 1))
  {
    if a[0] != b[0] {
      BytesAreBits(a);
      BytesAreBits(b);
      DistanceTellsShared(BitsOfBytes(a), BitsOfBytes(b));
      FirstByteDiffers(a, b);
      ShortIsSmall(Xor(FromBytes(a), FromBytes(b)), 8 * (|a| - 1));
    }
  }

  /** Of the counts from `start` up to `stop`, the one whose nonce is nearest; none where there are none. */
  method Nearest(search: Search, start: nat, stop: nat, hash: Hash) returns (r: Option<nat>)
    requires IsSearch(search) && IsHash(hash)
    ensures r.None? <==> stop <= start
    ensures r.Some? ==> IsNearest(r.value, start, stop, Distances(search, hash))
  {
    if stop <= start {
      return None;
    }
    ghost var distances := Distances(search, hash);
    var best: nat, bestDistance: nat := start, Distance(search, Nonce(start), hash);
    for count := start + 1 to stop
      invariant IsNearest(best, start, count, distances) && bestDistance == distances(best)
    {
      NearestMore(best, start, count, distances);
      var nearer := Tried(search, count, bestDistance, hash);
      if nearer.Some? {
        best, bestDistance := count, nearer.value;
      }
    }
    r := Some(best);
  }

  /** How far the nonce of `count` is, if it is nearer than the best. */
  method Tried(search: Search, count: nat, bestDistance: nat, hash: Hash) returns (nearer: Option<nat>)
    requires IsSearch(search) && IsHash(hash)
    ensures nearer == if Distances(search, hash)(count) < bestDistance then Some(Distances(search, hash)(count)) else None
  {
    PatternIsNonceAndSuffix(search.suffix, count);
    var attempt := Formatted(PatternOf(search.suffix), count).value;
    var digest := hash(search.prefix + attempt);
    FirstByteTells(digest, search.target);
    // Once the best shares the first byte, a hash that does not is further off.
    if digest[0] != search.target[0] && bestDistance < Pow2(8 * (TARGET_BYTES - 1)) {
      return None;
    }
    var distance := Xor(FromBytes(digest), FromBytes(search.target));
    nearer := if distance < bestDistance then Some(distance) else None;
  }

  // ---- A search as sent ---------------------------------------------------

  function Packed(n: nat): (bytes: Bytes)
    requires n < 0x1_0000_0000
    ensures |bytes| == LENGTH_BYTES
  {
    [n / 0x100_0000, n / 0x1_0000 % 256, n / 256 % 256, n % 256]
  }

  function Unpacked(bytes: Bytes): nat
    requires |bytes| == LENGTH_BYTES
  {
    ((bytes[0] as int * 256 + bytes[1]) * 256 + bytes[2]) * 256 + bytes[3]
  }

  lemma PackedIsUnpacked(n: nat)
    requires n < 0x1_0000_0000
    ensures Unpacked(Packed(n)) == n
  {
    assert n / 256 / 256 == n / 0x1_0000 && n / 0x1_0000 / 256 == n / 0x100_0000;
  }

  predicate CanSend(search: Search) {
    IsSearch(search) && |search.suffix| < 0x1_0000_0000
  }

  function Encoded(search: Search): Bytes
    requires CanSend(search)
  {
    search.target + Packed(|search.suffix|) + search.suffix + search.prefix
  }

  /** The search `data` holds; none where it is cut short. */
  function Decoded(data: Bytes): Option<Search> {
    if |data| < TARGET_BYTES + LENGTH_BYTES then None
    else
      var suffixStart := TARGET_BYTES + LENGTH_BYTES;
      var prefixStart := suffixStart + Unpacked(data[TARGET_BYTES..suffixStart]);
      var ends := if prefixStart < |data| then prefixStart else |data|;
      Some(Search(data[ends..], data[..TARGET_BYTES], data[suffixStart..ends]))
  }

  /** A search sent is the search read. */
  lemma SentIsRead(search: Search)
    requires CanSend(search)
    ensures Decoded(Encoded(search)) == Some(search)
  {
    var data := Encoded(search);
    PackedIsUnpacked(|search.suffix|);
    assert data[TARGET_BYTES..TARGET_BYTES + LENGTH_BYTES] == Packed(|search.suffix|);
    assert data[..TARGET_BYTES] == search.target;
  }
}
