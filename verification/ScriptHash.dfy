/** The 64-bit FNV-1a hash that decides whether a script has changed (draft-eastlake-fnv, section 2).

    The state is a number below 2^64; xor works bit by bit and the multiplication wraps explicitly.
 */
module ScriptHash {
  import opened Bits

  type U64 = n: nat | n < 0x1_0000_0000_0000_0000

  const OFFSET_BASIS: U64 := 0xcbf2_9ce4_8422_2325

  /** Exclusive or of the n low bits. */
  function Xor(a: nat, b: nat, n: nat): (r: nat)
    ensures r < Pow2(n)
  {
    if n == 0 then 0 else 2 * Xor(a / 2, b / 2, n - 1) + (a % 2 + b % 2) % 2
  }

  lemma EightDoublings(n: nat)
    requires n >= 8
    ensures Pow2(n) == 256 * Pow2(n - 8)
  {
    assert Pow2(n) == 2 * Pow2(n - 1) == 4 * Pow2(n - 2) == 8 * Pow2(n - 3) == 16 * Pow2(n - 4);
    assert Pow2(n - 4) == 2 * Pow2(n - 5) == 4 * Pow2(n - 6) == 8 * Pow2(n - 7) == 16 * Pow2(n - 8);
  }

  lemma TwoToThe64()
    ensures Pow2(64) == 0x1_0000_0000_0000_0000
  {
    EightDoublings(64);
    EightDoublings(56);
    EightDoublings(48);
    EightDoublings(40);
    EightDoublings(32);
    EightDoublings(24);
    EightDoublings(16);
    EightDoublings(8);
  }

  function XorByte(hash: U64, byte: Byte): U64 {
    TwoToThe64();
    Xor(hash, byte, 64)
  }

  /** Wrapping multiplication by the FNV prime. */
  function MulPrime(x: U64): U64 {
    (x * 0x0000_0100_0000_01b3) % 0x1_0000_0000_0000_0000
  }

  /** Wrapping multiplication by the inverse of the prime modulo 2^64. */
  function MulInverse(x: U64): U64 {
    (x * 0xce96_5057_aff6_957b) % 0x1_0000_0000_0000_0000
  }

  function Mix(hash: U64, byte: Byte): U64 {
    MulPrime(XorByte(hash, byte))
  }

  /** The state a step came from. */
  function Unmix(hash: U64, byte: Byte): U64 {
    XorByte(MulInverse(hash), byte)
  }

  function HashFrom(hash: U64, input: seq<Byte>): U64 {
    if input == [] then hash else Mix(HashFrom(hash, input[..|input| - 1]), input[|input| - 1])
  }

  function Hash(input: seq<Byte>): U64 {
    HashFrom(OFFSET_BASIS, input)
  }

  method StableScriptHash(input: seq<Byte>) returns (hash: U64)
    ensures hash == Hash(input)
  {
    hash := OFFSET_BASIS;
    for i := 0 to |input|
      invariant hash == Hash(input[..i])
    {
      assert input[..i + 1][..i] == input[..i];
      hash := XorByte(hash, input[i]);
      hash := MulPrime(hash);
    }
    assert input[..|input|] == input;
  }

  lemma WholeTurns(x: U64, z: int)
    ensures (x + z * 0x1_0000_0000_0000_0000) % 0x1_0000_0000_0000_0000 == x
  {
  }

  lemma InverseUndoesPrime(x: U64)
    ensures MulInverse(MulPrime(x)) == x
  {
    var turns := (x * 0x0000_0100_0000_01b3) / 0x1_0000_0000_0000_0000;
    WholeTurns(x, x * 0xce9650590f - turns * 0xce96_5057_aff6_957b);
  }

  lemma PrimeUndoesInverse(x: U64)
    ensures MulPrime(MulInverse(x)) == x
  {
    var turns := (x * 0xce96_5057_aff6_957b) / 0x1_0000_0000_0000_0000;
    WholeTurns(x, x * 0xce9650590f - turns * 0x0000_0100_0000_01b3);
  }

  /** Appending one low bit to both operands. */
  lemma XorAppend(a: nat, b: nat, x: nat, y: nat, n: nat)
    requires x < 2 && y < 2
    ensures Xor(2 * a + x, 2 * b + y, n + 1) == 2 * Xor(a, b, n) + (x + y) % 2
  {
    assert (2 * a + x) / 2 == a && (2 * a + x) % 2 == x;
    assert (2 * b + y) / 2 == b && (2 * b + y) % 2 == y;
  }

  lemma BitTwice(x: nat, y: nat)
    requires x < 2 && y < 2
    ensures (x + y) % 2 < 2 && ((x + y) % 2 + y) % 2 == x
  {
  }

  lemma XorTwiceStep(h: nat, k: nat, x: nat, y: nat, n: nat, q: nat)
    requires x < 2 && y < 2 && q == Xor(h, k, n) && Xor(q, k, n) == h
    ensures Xor(Xor(2 * h + x, 2 * k + y, n + 1), 2 * k + y, n + 1) == 2 * h + x
  {
    BitTwice(x, y);
    XorAppend(h, k, x, y, n);
    XorAppend(q, k, (x + y) % 2, y, n);
  }

  lemma {:induction false} XorTwice(a: nat, b: nat, n: nat)
    requires a < Pow2(n)
    ensures Xor(Xor(a, b, n), b, n) == a
  {
    if n > 0 {
      XorTwice(a / 2, b / 2, n - 1);
      XorTwiceStep(a / 2, b / 2, a % 2, b % 2, n - 1, Xor(a / 2, b / 2, n - 1));
      assert a == 2 * (a / 2) + a % 2 && b == 2 * (b / 2) + b % 2;
    }
  }

  lemma LowBits(p: nat, q: nat, x: nat, a: nat, b: nat)
    requires x < 2 && a < 2 && b < 2 && 2 * p + (x + a) % 2 == 2 * q + (x + b) % 2
    ensures p == q && a == b
  {
  }

  lemma XorInjectiveStep(x: nat, a: nat, b: nat, n: nat)
    requires n > 0 && Xor(x, a, n) == Xor(x, b, n)
    ensures Xor(x / 2, a / 2, n - 1) == Xor(x / 2, b / 2, n - 1) && a % 2 == b % 2
  {
    LowBits(Xor(x / 2, a / 2, n - 1), Xor(x / 2, b / 2, n - 1), x % 2, a % 2, b % 2);
  }

  lemma {:induction false} XorInjective(x: nat, a: nat, b: nat, n: nat)
    requires a < Pow2(n) && b < Pow2(n) && Xor(x, a, n) == Xor(x, b, n)
    ensures a == b
  {
    if n > 0 {
      XorInjectiveStep(x, a, b, n);
      XorInjective(x / 2, a / 2, b / 2, n - 1);
      assert a == 2 * (a / 2) + a % 2 && b == 2 * (b / 2) + b % 2;
    }
  }

  lemma XorByteTwice(hash: U64, byte: Byte)
    ensures XorByte(XorByte(hash, byte), byte) == hash
  {
    TwoToThe64();
    XorTwice(hash, byte, 64);
  }

  /** For each byte the step is a bijection on 64-bit values. */
  lemma MixIsBijective(hash: U64, byte: Byte)
    ensures Unmix(Mix(hash, byte), byte) == hash
    ensures Mix(Unmix(hash, byte), byte) == hash
  {
    InverseUndoesPrime(XorByte(hash, byte));
    PrimeUndoesInverse(hash);
    XorByteTwice(hash, byte);
    XorByteTwice(MulInverse(hash), byte);
  }

  /** For each state the step is injective in the byte. */
  lemma MixInjectiveInByte(hash: U64, a: Byte, b: Byte)
    requires Mix(hash, a) == Mix(hash, b)
    ensures a == b
  {
    InverseUndoesPrime(XorByte(hash, a));
    InverseUndoesPrime(XorByte(hash, b));
    TwoToThe64();
    XorInjective(hash, a, b, 64);
  }

  /** Hashing the same suffix keeps different states different. */
  lemma {:induction false} SuffixKeepsDifference(h: U64, h': U64, suffix: seq<Byte>)
    requires h != h'
    ensures HashFrom(h, suffix) != HashFrom(h', suffix)
  {
    if suffix != [] {
      var n := |suffix| - 1;
      SuffixKeepsDifference(h, h', suffix[..n]);
      MixIsBijective(HashFrom(h, suffix[..n]), suffix[n]);
      MixIsBijective(HashFrom(h', suffix[..n]), suffix[n]);
    }
  }

  lemma {:induction false} HashFromConcat(h: U64, a: seq<Byte>, b: seq<Byte>)
    ensures HashFrom(h, a + b) == HashFrom(HashFrom(h, a), b)
  {
    if b == [] {
      assert a + b == a;
    } else {
      var n := |b| - 1;
      assert (a + b)[..|a + b| - 1] == a + b[..n];
      HashFromConcat(h, a, b[..n]);
    }
  }

  lemma OneByte(h: U64, b: Byte)
    ensures HashFrom(h, [b]) == Mix(h, b)
  {
    assert [b][..0] == [];
  }

  /** Two scripts of equal length that differ in exactly one byte never collide. */
  lemma OneByteChangeIsSeen(s: seq<Byte>, t: seq<Byte>, k: nat)
    requires |s| == |t| && k < |s| && s[k] != t[k]
    requires forall i :: 0 <= i < |s| && i != k ==> s[i] == t[i]
    ensures Hash(s) != Hash(t)
  {
    var prefix, suffix := s[..k], s[k + 1..];
    assert s == prefix + ([s[k]] + suffix) && t == prefix + ([t[k]] + suffix);
    var h := Hash(prefix);
    HashFromConcat(OFFSET_BASIS, prefix, [s[k]] + suffix);
    HashFromConcat(OFFSET_BASIS, prefix, [t[k]] + suffix);
    HashFromConcat(h, [s[k]], suffix);
    HashFromConcat(h, [t[k]], suffix);
    OneByte(h, s[k]);
    OneByte(h, t[k]);
    if Mix(h, s[k]) == Mix(h, t[k]) {
      MixInjectiveInByte(h, s[k], t[k]);
    }
    SuffixKeepsDifference(Mix(h, s[k]), Mix(h, t[k]), suffix);
  }

  lemma {:induction false} XorZero(a: nat, n: nat)
    requires a < Pow2(n)
    ensures Xor(a, 0, n) == a
  {
    if n > 0 {
      XorZero(a / 2, n - 1);
    }
  }

  lemma ZeroByte(hash: U64)
    ensures Mix(hash, 0) == MulPrime(hash)
  {
    TwoToThe64();
    XorZero(hash, 64);
  }

  lemma BasisProduct()
    ensures MulPrime(OFFSET_BASIS) == 0xaf63_bd4c_8601_b7df
  {
  }

  lemma HashOfZero(hash: U64)
    ensures HashFrom(hash, [0]) == MulPrime(hash)
  {
    OneByte(hash, 0);
    ZeroByte(hash);
  }

  /** The published values for the empty input and for a single zero byte. */
  lemma KnownVectors()
    ensures Hash([]) == 0xcbf2_9ce4_8422_2325
    ensures Hash([0]) == 0xaf63_bd4c_8601_b7df
  {
    BasisProduct();
    HashOfZero(OFFSET_BASIS);
  }

  // ---------------------------------------------------------------- collisions

  function Pow26(n: nat): nat {
    if n == 0 then 1 else 26 * Pow26(n - 1)
  }

  /** The word of len small letters with number n. */
  function Word(n: nat, len: nat): (w: seq<Byte>)
    ensures |w| == len && Letters(w)
  {
    if len == 0 then [] else Word(n / 26, len - 1) + ['a' as int + n % 26]
  }

  predicate Letters(w: seq<Byte>) {
    forall i :: 0 <= i < |w| ==> 'a' as int <= w[i] <= 'z' as int
  }

  lemma {:induction false} WordsDiffer(m: nat, n: nat, len: nat)
    requires m < Pow26(len) && n < Pow26(len) && m != n
    ensures Word(m, len) != Word(n, len)
  {
    var v, w := Word(m, len), Word(n, len);
    if m % 26 == n % 26 {
      assert m == 26 * (m / 26) + m % 26 && n == 26 * (n / 26) + n % 26;
      WordsDiffer(m / 26, n / 26, len - 1);
      assert v[..len - 1] == Word(m / 26, len - 1) && w[..len - 1] == Word(n / 26, len - 1);
    } else {
      assert v[len - 1] != w[len - 1];
    }
  }

  lemma EnoughWords()
    ensures Pow26(14) > 0x1_0000_0000_0000_0000
  {
    assert Pow26(2) == 26 * Pow26(1) == 676;
    assert Pow26(4) == 26 * Pow26(3) == 676 * Pow26(2);
    assert Pow26(6) == 26 * Pow26(5) == 676 * Pow26(4);
    assert Pow26(8) == 26 * Pow26(7) == 676 * Pow26(6);
    assert Pow26(10) == 26 * Pow26(9) == 676 * Pow26(8);
    assert Pow26(12) == 26 * Pow26(11) == 676 * Pow26(10);
    assert Pow26(14) == 26 * Pow26(13) == 676 * Pow26(12);
  }

  /** Different texts can have equal hashes: wherever fourteen letters of a text can be chosen, as in a comment, two
      choices give the same hash, whatever stands before and behind them. */
  lemma HashesCollide(before: seq<Byte>, behind: seq<Byte>)
    ensures exists v, w :: |v| == |w| == 14 && Letters(v) && Letters(w) && v != w
                           && Hash(before + v + behind) == Hash(before + w + behind)
  {
    var h := Hash(before);
    var i, j := Pigeonhole((n: nat) => HashFrom(h, Word(n, 14)), 0x1_0000_0000_0000_0000);
    var v, w := Word(i, 14), Word(j, 14);
    EnoughWords();
    WordsDiffer(i, j, 14);
    HashFromConcat(OFFSET_BASIS, before, v);
    HashFromConcat(OFFSET_BASIS, before, w);
    HashFromConcat(OFFSET_BASIS, before + v, behind);
    HashFromConcat(OFFSET_BASIS, before + w, behind);
  }
}
