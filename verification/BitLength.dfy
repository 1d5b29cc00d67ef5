/** RSA modulus strength: the bit length of a big-endian octet string. */
module BitLength {
  import opened Prelude

  type Byte = b: int | 0 <= b < 256

  function LeadingZeros(b: Byte): (z: nat)
    ensures z <= 8
  {
    if b >= 128 then 0 else if b >= 64 then 1 else if b >= 32 then 2 else if b >= 16 then 3
    else if b >= 8 then 4 else if b >= 4 then 5 else if b >= 2 then 6 else if b >= 1 then 7 else 8
  }

  function SkipZeros(n: seq<Byte>): (m: seq<Byte>)
    ensures |m| <= |n|
    ensures m != [] ==> m[0] != 0
  {
    if n != [] && n[0] == 0 then SkipZeros(n[1..]) else n
  }

  /** `rsa_modulus_bits` of `sts-jose`. */
  function ModulusBits(n: seq<Byte>): nat {
    var bytes := SkipZeros(n);
    if bytes == [] then 0 else (|bytes| - 1) * 8 + (8 - LeadingZeros(bytes[0]))
  }

  /** The computation in `rsa_modulus_bits_from_key` of `sts-cli`, which looks at the first octet only. */
  function CliModulusBits(n: seq<Byte>): Option<nat> {
    if SkipZeros(n) == [] then None else Some((|n| - 1) * 8 + (8 - LeadingZeros(n[0])))
  }

  // ---------------------------------------------------------------- specification

  function Pow2(k: nat): (p: nat)
    ensures p >= 1
  {
    if k == 0 then 1 else 2 * Pow2(k - 1)
  }

  /** The number that the octets denote, most significant first. */
  function Value(n: seq<Byte>): nat {
    if n == [] then 0 else Value(n[..|n| - 1]) * 256 + n[|n| - 1]
  }

  // ---------------------------------------------------------------- proofs

  lemma Doubling(x: nat, y: nat)
    ensures x * (2 * y) == 2 * (x * y)
  {
  }

  lemma {:induction false} Pow2Sum(a: nat, b: nat)
    ensures Pow2(a + b) == Pow2(a) * Pow2(b)
  {
    if b > 0 {
      Pow2Sum(a, b - 1);
      Doubling(Pow2(a), Pow2(b - 1));
      assert Pow2(a + b) == 2 * Pow2(a + (b - 1));
    }
  }

  lemma {:induction false} Pow2Monotone(a: nat, b: nat)
    requires a <= b
    ensures Pow2(a) <= Pow2(b)
  {
    if a < b {
      Pow2Monotone(a, b - 1);
    }
  }

  lemma ShiftOctet(x: nat, w: nat, v: nat)
    ensures (x * w + v) * 256 == x * (w * 256) + v * 256
  {
  }

  lemma Pow2Octet(k: nat)
    ensures Pow2(k + 8) == Pow2(k) * 256
  {
    Pow2Sum(k, 8);
  }

  /** The first octet carries weight `2^(8(|n|-1))`; the others together weigh less than that. */
  lemma {:induction false} ValueFromTheFront(n: seq<Byte>)
    requires n != []
    ensures Value(n) == n[0] * Pow2(8 * (|n| - 1)) + Value(n[1..])
    ensures Value(n[1..]) < Pow2(8 * (|n| - 1))
  {
    if |n| == 1 {
      assert n[..0] == [] && n[1..] == [];
    } else {
      var m, x := n[..|n| - 1], n[|n| - 1];
      ValueFromTheFront(m);
      assert n[1..][..|n| - 2] == m[1..];
      Pow2Octet(8 * (|m| - 1));
      ShiftOctet(n[0], Pow2(8 * (|m| - 1)), Value(m[1..]));
      assert 8 * (|n| - 1) == 8 * (|m| - 1) + 8;
    }
  }

  lemma {:induction false} ZerosHaveNoValue(n: seq<Byte>)
    ensures Value(n) == Value(SkipZeros(n))
  {
    if n != [] && n[0] == 0 {
      ValueFromTheFront(n);
      ZerosHaveNoValue(n[1..]);
    }
  }

  lemma OctetBits(b: Byte)
    requires b != 0
    ensures LeadingZeros(b) <= 7
    ensures Pow2(7 - LeadingZeros(b)) <= b < Pow2(8 - LeadingZeros(b))
  {
    assert Pow2(8) == 256 && Pow2(7) == 128 && Pow2(6) == 64 && Pow2(5) == 32;
    assert Pow2(4) == 16 && Pow2(3) == 8 && Pow2(2) == 4 && Pow2(1) == 2;
  }

  lemma ScaleBounds(lo: nat, a: nat, hi: nat, w: nat, rest: nat)
    requires lo <= a < hi && rest < w
    ensures w * lo <= a * w + rest < w * hi
  {
    assert lo * w <= a * w;
    assert (a + 1) * w <= hi * w;
  }

  /** An octet of `h + 1` bits in front of `k` further bits pins the bit length of the whole. */
  lemma OctetInFront(a: nat, h: nat, rest: nat, k: nat)
    requires Pow2(h) <= a < Pow2(h + 1) && rest < Pow2(k)
    ensures Pow2(k + h) <= a * Pow2(k) + rest < Pow2(k + (h + 1))
  {
    Pow2Sum(k, h);
    Pow2Sum(k, h + 1);
    ScaleBounds(Pow2(h), a, Pow2(h + 1), Pow2(k), rest);
  }

  lemma MinimalOctets(bytes: seq<Byte>, h: nat)
    requires bytes != [] && Pow2(h) <= bytes[0] < Pow2(h + 1)
    ensures var k := 8 * (|bytes| - 1); Pow2(k + h) <= Value(bytes) < Pow2(k + (h + 1))
  {
    ValueFromTheFront(bytes);
    OctetInFront(bytes[0], h, Value(bytes[1..]), 8 * (|bytes| - 1));
  }

  /** `ModulusBits` is the exact bit length of the number, for every octet string. */
  lemma ModulusBitsExact(n: seq<Byte>)
    ensures var bits := ModulusBits(n);
      if Value(n) == 0 then bits == 0 else bits > 0 && Pow2(bits - 1) <= Value(n) < Pow2(bits)
  {
    var bytes := SkipZeros(n);
    ZerosHaveNoValue(n);
    if bytes != [] {
      OctetBits(bytes[0]);
      var h := 7 - LeadingZeros(bytes[0]);
      MinimalOctets(bytes, h);
      assert ModulusBits(n) == 8 * (|bytes| - 1) + (h + 1);
    }
  }

  /** A minimum-strength test on the bits is a test on the number: with `t == 2048`, at least `2^2047`. */
  lemma StrengthTest(n: seq<Byte>, t: nat)
    requires t >= 1
    ensures ModulusBits(n) >= t <==> Value(n) >= Pow2(t - 1)
  {
    ModulusBitsExact(n);
    var bits := ModulusBits(n);
    if bits >= t {
      Pow2Monotone(t - 1, bits - 1);
    } else {
      Pow2Monotone(bits, t - 1);
    }
  }

  lemma {:induction false} SkipZerosKeepsSuffix(n: seq<Byte>)
    ensures SkipZeros(n) == n[|n| - |SkipZeros(n)|..]
    ensures forall i :: 0 <= i < |n| - |SkipZeros(n)| ==> n[i] == 0
  {
    if n != [] && n[0] == 0 {
      SkipZerosKeepsSuffix(n[1..]);
      assert forall i :: 0 < i < |n| ==> n[i] == n[1..][i - 1];
    }
  }

  /** Both computations refuse, or answer zero for, exactly the zero modulus. */
  lemma ZeroModulus(n: seq<Byte>)
    ensures CliModulusBits(n).None? <==> Value(n) == 0
    ensures ModulusBits(n) == 0 <==> Value(n) == 0
  {
    ModulusBitsExact(n);
    if SkipZeros(n) != [] {
      OctetBits(SkipZeros(n)[0]);
    }
  }

  /**
   * The command line's own computation agrees when the first octet is non-zero, and in one other case:
   * a single zero octet in front of an octet with its top bit set.
   */
  lemma CliAgreesExactlyWhen(n: seq<Byte>)
    ensures CliModulusBits(n) == Some(ModulusBits(n)) <==> n != [] && (n[0] != 0 || (|n| > 1 && n[1] >= 128))
  {
    SkipZerosKeepsSuffix(n);
    var bytes := SkipZeros(n);
    var zeros := |n| - |bytes|;
    if zeros == 0 {
      assert bytes == n;
    } else if bytes != [] {
      assert bytes[0] == n[zeros];
      assert (|n| - 1) * 8 == (|bytes| - 1) * 8 + 8 * zeros;
    }
  }
}
