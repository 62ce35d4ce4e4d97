/** CRC-16/XMODEM (polynomial 0x1021, initial value 0, no reflection, no
    final XOR) as `calculate_crc16_xmodem` computes it (uvk5.py:213-222):
    each byte is XORed into the high byte of the register, which is then
    shifted eight times; a bit carried out into bit 16 is reduced by the
    polynomial and the register masked back to 16 bits. The register is a
    `bv32` because the driver lets it reach 17 bits between the shift and
    the mask. */
module Checksum {
  import opened Bytes

  const Poly: bv32 := 0x1021
  const BitsPerByte: nat := 8

  /** The register holds no bit above bit 15. */
  predicate Fits16(c: bv32)
  {
    c & 0xFFFF_0000 == 0
  }

  /** One pass of the inner loop: shift left, and if bit 16 came out,
      XOR in the polynomial and mask back to 16 bits. */
  function Shift(crc: bv32): bv32
  {
    var c := crc << 1;
    if c & 0x10000 != 0 then (c ^ Poly) & 0xFFFF else c
  }

  function Shifts(crc: bv32, n: nat): bv32
  {
    if n == 0 then crc else Shift(Shifts(crc, n - 1))
  }

  /** The byte XORed into the high half of the register. */
  function High(b: byte): bv32
  {
    ((b as bv8) as bv32) << 8
  }

  /** What one input byte does to the register. */
  function Update(crc: bv32, b: byte): bv32
  {
    Shifts(crc ^ High(b), BitsPerByte)
  }

  /** The register after the whole of `data`, fed from the first byte on;
      it always fits the two bytes the frame gives it. */
  function Crc16(data: seq<byte>): (crc: bv32)
    ensures Fits16(crc)
  {
    if |data| == 0 then 0
    else
      var prev := Crc16(data[..|data| - 1]);
      var b := data[|data| - 1];
      HighFits(prev, b);
      ShiftsFit(prev ^ High(b), BitsPerByte);
      Update(prev, b)
  }

  lemma ShiftFits(crc: bv32)
    requires Fits16(crc)
    ensures Fits16(Shift(crc))
  {
  }

  lemma {:induction false} ShiftsFit(crc: bv32, n: nat)
    requires Fits16(crc)
    ensures Fits16(Shifts(crc, n))
  {
    if n > 0 {
      ShiftsFit(crc, n - 1);
      ShiftFits(Shifts(crc, n - 1));
    }
  }

  lemma HighFits(crc: bv32, b: byte)
    requires Fits16(crc)
    ensures Fits16(crc ^ High(b))
  {
  }

  lemma MaskKeeps(c: bv32)
    requires Fits16(c)
    ensures c & 0xFFFF == c
  {
  }

  /** Feeding one more byte runs the finished register through `Update`:
      the checksum of a longer message continues from that of its prefix. */
  lemma Crc16Append(data: seq<byte>, b: byte)
    ensures Crc16(data + [b]) == Update(Crc16(data), b)
  {
    assert (data + [b])[..|data|] == data;
  }

  /** `calculate_crc16_xmodem`: for each byte, XOR it into the high byte
      of the register, then run the eight-pass inner loop; finally mask. */
  method CalculateCrc16Xmodem(data: seq<byte>) returns (crc: bv32)
    ensures crc == Crc16(data)
  {
    crc := 0;
    for k := 0 to |data|
      invariant crc == Crc16(data[..k])
    {
      crc := crc ^ High(data[k]);
      ghost var start := crc;
      for i := 0 to BitsPerByte
        invariant crc == Shifts(start, i)
      {
        crc := Shift(crc);
      }
      Crc16Append(data[..k], data[k]);
      assert data[..k] + [data[k]] == data[..k + 1];
    }
    assert data[..|data|] == data;
    MaskKeeps(crc);
    crc := crc & 0xFFFF;
  }

  lemma ShiftsEight(c: bv32)
    ensures Shifts(c, BitsPerByte) == Shift(Shift(Shift(Shift(Shift(Shift(Shift(Shift(c))))))))
  {
    assert Shifts(c, 1) == Shift(c);
    assert Shifts(c, 2) == Shift(Shift(c));
    assert Shifts(c, 3) == Shift(Shift(Shift(c)));
    assert Shifts(c, 4) == Shift(Shift(Shift(Shift(c))));
    assert Shifts(c, 5) == Shift(Shift(Shift(Shift(Shift(c)))));
    assert Shifts(c, 6) == Shift(Shift(Shift(Shift(Shift(Shift(c))))));
    assert Shifts(c, 7) == Shift(Shift(Shift(Shift(Shift(Shift(Shift(c)))))));
  }

  /** The published check value of CRC-16/XMODEM: ASCII "123456789" gives
      0x31C3 (the register after each byte is given as it goes). */
  lemma CheckValue()
    ensures Crc16([0x31, 0x32, 0x33, 0x34, 0x35, 0x36, 0x37, 0x38, 0x39]) == 0x31C3
  {
    var p0: seq<byte> := [];
    KnownStep(p0, 0x31, 0x0000, 0x2672);
    var p1 := p0 + [0x31];
    KnownStep(p1, 0x32, 0x2672, 0x20B5);
    var p2 := p1 + [0x32];
    KnownStep(p2, 0x33, 0x20B5, 0x9752);
    var p3 := p2 + [0x33];
    KnownStep(p3, 0x34, 0x9752, 0xD789);
    var p4 := p3 + [0x34];
    KnownStep(p4, 0x35, 0xD789, 0x546C);
    var p5 := p4 + [0x35];
    KnownStep(p5, 0x36, 0x546C, 0x20E4);
    var p6 := p5 + [0x36];
    KnownStep(p6, 0x37, 0x20E4, 0x86D6);
    var p7 := p6 + [0x37];
    KnownStep(p7, 0x38, 0x86D6, 0x9015);
    var p8 := p7 + [0x38];
    KnownStep(p8, 0x39, 0x9015, 0x31C3);
    var p9 := p8 + [0x39];
    assert p9 == [0x31, 0x32, 0x33, 0x34, 0x35, 0x36, 0x37, 0x38, 0x39];
  }

  lemma KnownStep(prefix: seq<byte>, b: byte, before: bv32, after: bv32)
    requires Crc16(prefix) == before
    requires Shift(Shift(Shift(Shift(Shift(Shift(Shift(Shift(before ^ High(b))))))))) == after
    ensures Crc16(prefix + [b]) == after
  {
    Crc16Append(prefix, b);
    ShiftsEight(before ^ High(b));
  }
}
