/** The UV-K5's wire obfuscation: every frame payload is XORed with a
    fixed 16-byte key that repeats along the payload (uvk5.py:200-208).
    It is a device quirk, not cryptography, and it is its own inverse. */
module Obfuscation {
  import opened Bytes
  import opened Bits

  const XorKey: seq<byte> := [22, 108, 20, 230, 46, 145, 13, 64, 33, 53, 213, 64, 19, 3, 233, 128]

  /** The obfuscated form of `data`: byte i is XORed with key byte i mod 16. */
  function Xored(data: seq<byte>): (x: seq<byte>)
    ensures |x| == |data|
  {
    seq(|data|, i requires 0 <= i < |data| => Xor(data[i], XorKey[i % |XorKey|]))
  }

  /** `xorarr`: an accumulator and a key position that wraps after 16 bytes. */
  method XorArr(data: seq<byte>) returns (x: seq<byte>)
    ensures |x| == |data|
    ensures x == Xored(data)
  {
    x := [];
    var r := 0;
    assert |XorKey| == 16;
    for k := 0 to |data|
      invariant r == k % 16
      invariant x == Xored(data[..k])
    {
      XoredSnoc(data, k);
      x := x + [Xor(data[k], XorKey[r])];
      NextKeyPosition(k);
      r := (r + 1) % |XorKey|;
    }
    assert data[..|data|] == data;
  }

  lemma NextKeyPosition(k: nat)
    ensures (k % 16 + 1) % 16 == (k + 1) % 16
  {
  }

  /** Obfuscating one more byte appends that byte XORed with the key byte
      at its position. */
  lemma XoredSnoc(data: seq<byte>, k: nat)
    requires k < |data|
    ensures Xored(data[..k + 1]) == Xored(data[..k]) + [Xor(data[k], XorKey[k % 16])]
  {
    assert |XorKey| == 16;
    var longer := Xored(data[..k + 1]);
    var snoc := Xored(data[..k]) + [Xor(data[k], XorKey[k % 16])];
    forall i | 0 <= i < k + 1
      ensures longer[i] == snoc[i]
    {
      if i < k {
        assert data[..k + 1][i] == data[..k][i];
      }
    }
  }

  /** Obfuscating twice gives the input back, for every length,
      including the empty input and lengths that are not a multiple of 16. */
  lemma XoredInvolution(data: seq<byte>)
    ensures Xored(Xored(data)) == data
  {
    forall i | 0 <= i < |data|
      ensures Xored(Xored(data))[i] == data[i]
    {
      XorCancel(data[i], XorKey[i % |XorKey|]);
    }
  }

  /** The key position is counted from the start of the whole input, so
      obfuscating a prefix gives a prefix of the obfuscated whole. */
  lemma XoredPrefix(a: seq<byte>, b: seq<byte>)
    ensures Xored(a + b)[..|a|] == Xored(a)
  {
  }
}
