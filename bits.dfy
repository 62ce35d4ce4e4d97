/** The driver's bit operations on bytes (`^`, `&`, `|`, `<<`, `>>` with
    constant masks) stated on the byte's eight bits, least significant
    first. A mask-and-shift such as `(x >> 2) & 3` is `Field(x, 2, 2)`, and a
    read-modify-write such as `x & 0xF3 | v << 2` is `WithField(x, 2, 2, v)`. */
module Bits {
  import opened Bytes

  function Pow2(n: nat): (p: nat)
    ensures p >= 1
  {
    if n == 0 then 1 else 2 * Pow2(n - 1)
  }

  /** The n lowest bits of v, least significant first. */
  function BitsOf(v: nat, n: nat): (bs: seq<bool>)
    ensures |bs| == n
  {
    if n == 0 then [] else [v % 2 == 1] + BitsOf(v / 2, n - 1)
  }

  /** The number whose bits, least significant first, are bs. */
  function Value(bs: seq<bool>): (v: nat)
    ensures v < Pow2(|bs|)
  {
    if |bs| == 0 then 0 else (if bs[0] then 1 else 0) + 2 * Value(bs[1..])
  }

  /** Reading back the bits of a number that fits gives the number. */
  lemma {:induction false} ValueOfBits(v: nat, n: nat)
    requires v < Pow2(n)
    ensures Value(BitsOf(v, n)) == v
  {
    if n > 0 {
      ValueOfBits(v / 2, n - 1);
      assert BitsOf(v, n)[1..] == BitsOf(v / 2, n - 1);
    }
  }

  /** Taking the bits of a value gives back the bits it was made of. */
  lemma {:induction false} BitsOfValue(bs: seq<bool>)
    ensures BitsOf(Value(bs), |bs|) == bs
  {
    if |bs| > 0 {
      BitsOfValue(bs[1..]);
      var v := Value(bs);
      assert v / 2 == Value(bs[1..]) && (v % 2 == 1) == bs[0];
    }
  }

  /** The eight bits of a byte. */
  function Octet(b: byte): (bs: seq<bool>)
    ensures |bs| == 8
  {
    BitsOf(b as nat, 8)
  }

  /** The byte with the given eight bits. */
  function OfOctet(bs: seq<bool>): (b: byte)
    requires |bs| == 8
  {
    assert Pow2(8) == 256;
    Value(bs) as byte
  }

  lemma OctetRoundTrip(b: byte)
    ensures OfOctet(Octet(b)) == b
  {
    assert Pow2(8) == 256;
    ValueOfBits(b as nat, 8);
  }

  lemma OfOctetRoundTrip(bs: seq<bool>)
    requires |bs| == 8
    ensures Octet(OfOctet(bs)) == bs
  {
    BitsOfValue(bs);
  }

  /** Bitwise exclusive or of two equally long bit strings. */
  function XorBits(x: seq<bool>, y: seq<bool>): (z: seq<bool>)
    requires |x| == |y|
    ensures |z| == |x| && forall i :: 0 <= i < |x| ==> z[i] == (x[i] != y[i])
  {
    seq(|x|, i requires 0 <= i < |x| => x[i] != y[i])
  }

  /** `a ^ k`. */
  function Xor(a: byte, k: byte): (r: byte)
  {
    OfOctet(XorBits(Octet(a), Octet(k)))
  }

  /** XORing the same byte twice gives the original back. */
  lemma XorCancel(a: byte, k: byte)
    ensures Xor(Xor(a, k), k) == a
  {
    OfOctetRoundTrip(XorBits(Octet(a), Octet(k)));
    assert XorBits(Octet(Xor(a, k)), Octet(k)) == Octet(a);
    OctetRoundTrip(a);
  }

  /** `(b >> lo) & (2**width - 1)`: the width-bit field of b starting at bit lo. */
  function Field(b: byte, lo: nat, width: nat): (v: nat)
    requires lo + width <= 8
    ensures v < Pow2(width)
  {
    Value(Octet(b)[lo..lo + width])
  }

  /** The bits of b with the width-bit field at lo replaced by the bits of v. */
  function Spliced(b: byte, lo: nat, width: nat, v: nat): (bs: seq<bool>)
    requires lo + width <= 8
    ensures |bs| == 8
  {
    Octet(b)[..lo] + BitsOf(v, width) + Octet(b)[lo + width..]
  }

  /** `b & ~mask | v << lo`, where mask covers bits lo..lo+width-1: the
      field is replaced by v and every other bit is kept. */
  function WithField(b: byte, lo: nat, width: nat, v: nat): (r: byte)
    requires lo + width <= 8 && v < Pow2(width)
  {
    OfOctet(Spliced(b, lo, width, v))
  }

  /** The bits of a byte after a field was written: the new field, and
      every other bit as it was. */
  lemma WithFieldBits(b: byte, lo: nat, width: nat, v: nat)
    requires lo + width <= 8 && v < Pow2(width)
    ensures Octet(WithField(b, lo, width, v)) == Spliced(b, lo, width, v)
  {
    OfOctetRoundTrip(Spliced(b, lo, width, v));
  }

  /** Reading a field back after writing it gives what was written. */
  lemma FieldOfWithField(b: byte, lo: nat, width: nat, v: nat)
    requires lo + width <= 8 && v < Pow2(width)
    ensures Field(WithField(b, lo, width, v), lo, width) == v
  {
    WithFieldBits(b, lo, width, v);
    var bs := Octet(WithField(b, lo, width, v));
    assert bs[lo..lo + width] == BitsOf(v, width);
    ValueOfBits(v, width);
  }

  /** Writing a field leaves every bit outside it alone. */
  lemma WithFieldKeeps(b: byte, lo: nat, width: nat, v: nat, i: nat)
    requires lo + width <= 8 && v < Pow2(width)
    requires i < 8 && !(lo <= i < lo + width)
    ensures Octet(WithField(b, lo, width, v))[i] == Octet(b)[i]
  {
    WithFieldBits(b, lo, width, v);
  }

  /** Writing a field leaves every field that does not overlap it alone. */
  lemma FieldKept(b: byte, lo: nat, width: nat, v: nat, lo2: nat, width2: nat)
    requires lo + width <= 8 && v < Pow2(width) && lo2 + width2 <= 8
    requires lo2 + width2 <= lo || lo + width <= lo2
    ensures Field(WithField(b, lo, width, v), lo2, width2) == Field(b, lo2, width2)
  {
    WithFieldBits(b, lo, width, v);
    assert Octet(WithField(b, lo, width, v))[lo2..lo2 + width2] == Octet(b)[lo2..lo2 + width2];
  }

  /** Writing back the value a field already holds changes nothing. */
  lemma WithFieldSame(b: byte, lo: nat, width: nat)
    requires lo + width <= 8
    ensures WithField(b, lo, width, Field(b, lo, width)) == b
  {
    var bs := Octet(b);
    BitsOfValue(bs[lo..lo + width]);
    assert Spliced(b, lo, width, Field(b, lo, width)) == bs;
    OctetRoundTrip(b);
  }

  /** The low m of the n lowest bits are the m lowest bits. */
  lemma {:induction false} BitsOfPrefix(v: nat, n: nat, m: nat)
    requires m <= n
    ensures BitsOf(v, n)[..m] == BitsOf(v, m)
  {
    if m > 0 {
      BitsOfPrefix(v / 2, n - 1, m - 1);
      assert BitsOf(v, n)[..m] == [v % 2 == 1] + BitsOf(v / 2, n - 1)[..m - 1];
    }
  }

  /** `i << 1` for a 3-bit i: bit 0 is clear and bits 1 to 3 hold i. */
  lemma ShiftedField(i: nat)
    requires i < 8
    ensures Field(ByteOf(2 * i), 1, 3) == i
  {
    var n := 2 * i;
    assert n % 2 == 0 && n / 2 == i;
    assert ByteOf(n) as nat == n;
    var bs := BitsOf(n, 8);
    assert bs[1..] == BitsOf(i, 7);
    BitsOfPrefix(i, 7, 3);
    assert bs[1..4] == BitsOf(i, 3);
    assert Pow2(3) == 8;
    ValueOfBits(i, 3);
  }
}
