/** Bytes, the driver's failure modes, and the little-endian and slicing
    helpers that every other module of the UV-K5 model shares. */
module Bytes {

  /** One byte of the wire or of the radio's memory image. */
  newtype byte = x: int | 0 <= x < 256

  datatype Option<T> = None | Some(value: T)

  /** The exceptions the driver lets escape. The Python code raises them;
      here they are values. */
  datatype Fault =
    | BadResponseHeader   // RadioError("Bad response header")
    | BadResponseFooter   // RadioError("Bad response footer")
    | IndexOutOfRange     // IndexError: a reply or a table was shorter than the code assumed
    | NotInList           // ValueError: list.index was asked for a value the list lacks

  datatype Result<T> = Ok(value: T) | Err(fault: Fault) {
    predicate IsFailure() { Err? }
    function PropagateFailure<U>(): Result<U> requires Err? { Err(fault) }
    function Extract(): T requires Ok? { value }
  }

  /** `bytes([n])` for an n the caller keeps below 256. */
  function ByteOf(n: nat): (b: byte)
    requires n < 256
    ensures b as int == n
  {
    n as byte
  }

  /** `chr(b)`: the character whose code is the byte. */
  function CharOf(b: byte): (c: char)
    ensures c as int == b as int
  {
    (b as int) as char
  }

  /** The byte a one-byte character is stored as. */
  function ByteOfChar(c: char): (b: byte)
    requires c as int < 256
    ensures b as int == c as int
  {
    c as int as byte
  }

  function Chars(s: seq<byte>): (r: string)
    ensures |r| == |s| && forall i :: 0 <= i < |s| ==> r[i] as int == s[i] as int
  {
    seq(|s|, i requires 0 <= i < |s| => CharOf(s[i]))
  }

  predicate OneByteChars(s: string) {
    forall i :: 0 <= i < |s| ==> s[i] as int < 256
  }

  function BytesOfChars(s: string): (r: seq<byte>)
    requires OneByteChars(s)
    ensures |r| == |s| && forall i :: 0 <= i < |s| ==> r[i] as int == s[i] as int
  {
    seq(|s|, i requires 0 <= i < |s| => ByteOfChar(s[i]))
  }

  /** `offset & 0xff` and `(offset >> 8) & 0xff` for a non-negative offset. */
  function LowByte(v: nat): byte { (v % 256) as byte }
  function HighByte(v: nat): byte { ((v / 256) % 256) as byte }

  const U32Limit: nat := 0x1_0000_0000

  /** The four bytes of a `ul32` field, least significant first. */
  function U32Le(v: nat): (r: seq<byte>)
    requires v < U32Limit
    ensures |r| == 4
  {
    var q1 := v / 256;
    var q2 := q1 / 256;
    [(v % 256) as byte, (q1 % 256) as byte, (q2 % 256) as byte, (q2 / 256) as byte]
  }

  /** The `ul32` value stored little-endian at s[at..at+4]. */
  function U32At(s: seq<byte>, at: nat): (v: nat)
    requires at + 4 <= |s|
    ensures v < U32Limit
  {
    s[at] as int + 256 * (s[at + 1] as int + 256 * (s[at + 2] as int + 256 * (s[at + 3] as int)))
  }

  lemma U32RoundTrip(v: nat)
    requires v < U32Limit
    ensures U32At(U32Le(v), 0) == v
  {
    var q1 := v / 256;
    var q2 := q1 / 256;
    assert v == v % 256 + 256 * q1;
    assert q1 == q1 % 256 + 256 * q2;
    assert q2 == q2 % 256 + 256 * (q2 / 256);
    var b := U32Le(v);
    assert b[0] as int == v % 256 && b[1] as int == q1 % 256;
    assert b[2] as int == q2 % 256 && b[3] as int == q2 / 256;
  }

  /** A `ul32` field written into a longer sequence reads back. */
  lemma U32AtSplice(s: seq<byte>, at: nat, v: nat)
    requires at + 4 <= |s| && v < U32Limit
    ensures U32At(Splice(s, at, U32Le(v)), at) == v
  {
    U32RoundTrip(v);
    var r := Splice(s, at, U32Le(v));
    assert r[at..at + 4] == U32Le(v);
  }

  /** The value a ul32 field holds, written back, gives the four bytes
      that were there. */
  lemma U32LeAt(s: seq<byte>, at: nat)
    requires at + 4 <= |s|
    ensures U32Le(U32At(s, at)) == s[at..at + 4]
  {
    var b0, b1, b2, b3 := s[at] as int, s[at + 1] as int, s[at + 2] as int, s[at + 3] as int;
    var q2 := b2 + 256 * b3;
    var q1 := b1 + 256 * q2;
    var v := b0 + 256 * q1;
    assert U32At(s, at) == v;
    assert v % 256 == b0 && v / 256 == q1;
    assert q1 % 256 == b1 && q1 / 256 == q2;
    assert q2 % 256 == b2 && q2 / 256 == b3;
  }

  /** A ul32 field reads 0xFFFFFFFF exactly when its four bytes are 0xFF,
      and 0 exactly when they are 0. */
  lemma U32Sentinels(s: seq<byte>, at: nat)
    requires at + 4 <= |s|
    ensures U32At(s, at) == 0xFFFF_FFFF <==> s[at] == 0xFF && s[at + 1] == 0xFF && s[at + 2] == 0xFF && s[at + 3] == 0xFF
    ensures U32At(s, at) == 0 <==> s[at] == 0 && s[at + 1] == 0 && s[at + 2] == 0 && s[at + 3] == 0
  {
  }

  /** Python's clamping slice `s[lo:hi]` for 0 <= lo <= hi. */
  function Slice<T>(s: seq<T>, lo: nat, hi: nat): (r: seq<T>)
    requires lo <= hi
    ensures |r| == (if hi <= |s| then hi - lo else if lo <= |s| then |s| - lo else 0)
    ensures lo <= |s| ==> r == s[lo..if hi <= |s| then hi else |s|]
  {
    if lo >= |s| then [] else if hi <= |s| then s[lo..hi] else s[lo..]
  }

  /** `s[n:]`. */
  function Drop<T>(s: seq<T>, n: nat): (r: seq<T>)
    ensures |r| == if n <= |s| then |s| - n else 0
  {
    if n <= |s| then s[n..] else []
  }

  /** `s[:n]`: what a serial read of n bytes returns when only s is pending. */
  function Take<T>(s: seq<T>, n: nat): (r: seq<T>)
    ensures |r| == (if n <= |s| then n else |s|) && r == s[..|r|]
  {
    if n <= |s| then s[..n] else s
  }

  /** s with the bytes of t written over positions at..at+|t|. */
  function Splice(s: seq<byte>, at: nat, t: seq<byte>): (r: seq<byte>)
    requires at + |t| <= |s|
    ensures |r| == |s|
    ensures forall i :: 0 <= i < |s| ==> r[i] == if at <= i < at + |t| then t[i - at] else s[i]
  {
    s[..at] + t + s[at + |t|..]
  }

  /** Writing back the bytes that are already there changes nothing. */
  lemma SpliceSame(s: seq<byte>, at: nat, n: nat)
    requires at + n <= |s|
    ensures Splice(s, at, s[at..at + n]) == s
  {
    assert s[..at] + s[at..at + n] + s[at + n..] == s;
  }

  /** n copies of b. */
  function Repeat(b: byte, n: nat): (r: seq<byte>)
    ensures |r| == n && forall i :: 0 <= i < n ==> r[i] == b
  {
    seq(n, _ => b)
  }
}
