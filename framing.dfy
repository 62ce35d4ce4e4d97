/** The frame the UV-K5 speaks over its serial line (uvk5.py:225-267):
    `AB CD`, the payload length, `00`, the payload followed by its
    CRC-16/XMODEM low byte first, all obfuscated, then `DC BA`. The
    receiving side checks only the fixed header and footer bytes. */
module Framing {
  import opened Bytes
  import opened Obfuscation
  import opened Checksum
  import opened Bits

  /** `crc & 0xff` then `(crc >> 8) & 0xff`. */
  function CrcLe(crc: bv32): (r: seq<byte>)
    ensures |r| == 2
  {
    [LowByte(crc as int), HighByte(crc as int)]
  }

  /** The fixed bytes around an obfuscated body that announces n payload
      bytes. */
  function Envelope(n: byte, body: seq<byte>): (f: seq<byte>)
    ensures |f| == |body| + 6
  {
    [0xAB, 0xCD, n, 0x00] + body + [0xDC, 0xBA]
  }

  /** The bytes `_send_command` writes for the payload `data`: the
      envelope around the obfuscated payload and its checksum, low byte
      first. `bytes([n])` refuses a length of 256 or more, so callers keep
      below it. */
  function Frame(data: seq<byte>): (f: seq<byte>)
    requires |data| < 256
    ensures |f| == |data| + 8
    ensures f[2] as int == |data|
  {
    Envelope(ByteOf(|data|), Xored(data + CrcLe(Crc16(data))))
  }

  /** What a frame carries between its header and footer: once the
      obfuscation is undone, the payload and then its checksum, low byte
      first. */
  lemma FrameLayout(data: seq<byte>)
    requires |data| < 256
    ensures Frame(data)[..4] == [0xAB, 0xCD, ByteOf(|data|), 0x00]
    ensures Xored(Frame(data)[4..|data| + 6]) == data + CrcLe(Crc16(data))
    ensures Frame(data)[|data| + 6..] == [0xDC, 0xBA]
  {
    EnvelopeOpens(ByteOf(|data|), data + CrcLe(Crc16(data)));
  }

  lemma EnvelopeOpens(n: byte, body: seq<byte>)
    ensures Envelope(n, Xored(body))[..4] == [0xAB, 0xCD, n, 0x00]
    ensures Xored(Envelope(n, Xored(body))[4..|body| + 4]) == body
    ensures Envelope(n, Xored(body))[|body| + 4..] == [0xDC, 0xBA]
  {
    EnvelopeParts(n, Xored(body));
    XoredInvolution(body);
  }

  lemma EnvelopeParts(n: byte, body: seq<byte>)
    ensures Envelope(n, body)[..4] == [0xAB, 0xCD, n, 0x00]
    ensures Envelope(n, body)[4..|body| + 4] == body
    ensures Envelope(n, body)[|body| + 4..] == [0xDC, 0xBA]
  {
  }

  /** What the header checks of `_receive_reply` make of the four bytes
      read: Python's `or` tests byte 0, then byte 1, then byte 3, and a read
      that came back short fails with an IndexError at the first byte that
      is missing. Byte 2, the length, is not checked. */
  function HeaderFault(h: seq<byte>): (r: Option<Fault>)
    ensures r == None <==> |h| >= 4 && h[0] == 0xAB && h[1] == 0xCD && h[3] == 0x00
    ensures r == Some(IndexOutOfRange) <==>
      |h| == 0 || (h[0] == 0xAB && (|h| == 1 || (h[1] == 0xCD && |h| < 4)))
  {
    if |h| < 1 then Some(IndexOutOfRange)
    else if h[0] != 0xAB then Some(BadResponseHeader)
    else if |h| < 2 then Some(IndexOutOfRange)
    else if h[1] != 0xCD then Some(BadResponseHeader)
    else if |h| < 4 then Some(IndexOutOfRange)
    else if h[3] != 0x00 then Some(BadResponseHeader)
    else None
  }

  /** The footer checks: byte 2 must be DC and byte 3 BA; bytes 0 and 1,
      which carry the checksum, are never looked at. */
  function FooterFault(f: seq<byte>): (r: Option<Fault>)
    ensures r == None <==> |f| >= 4 && f[2] == 0xDC && f[3] == 0xBA
    ensures r == Some(IndexOutOfRange) <==> |f| < 3 || (f[2] == 0xDC && |f| == 3)
  {
    if |f| < 3 then Some(IndexOutOfRange)
    else if f[2] != 0xDC then Some(BadResponseFooter)
    else if |f| < 4 then Some(IndexOutOfRange)
    else if f[3] != 0xBA then Some(BadResponseFooter)
    else None
  }

  /** The outcome of `_receive_reply` and the bytes still unread after it. */
  datatype Reception = Reception(reply: Result<seq<byte>>, rest: seq<byte>)

  /** `_receive_reply` over the bytes the radio has sent: read four header
      bytes and check them, then read the rest of the reply. Each read takes
      what is pending when fewer bytes than asked for are there. */
  function Receive(input: seq<byte>): (r: Reception)
    ensures |r.rest| <= |input| && r.rest == input[|input| - |r.rest|..]
  {
    var header := Take(input, 4);
    match HeaderFault(header)
    case Some(f) => Reception(Err(f), input[|header|..])
    case None => ReceiveBody(input[4..], header[2] as int)
  }

  /** After a good header: read the n payload bytes the header announced,
      then four footer bytes and check them; the payload is returned with
      the obfuscation undone. */
  function ReceiveBody(after: seq<byte>, n: nat): (r: Reception)
    ensures |r.rest| <= |after| && r.rest == after[|after| - |r.rest|..]
  {
    var cmd := Take(after, n);
    var afterCmd := after[|cmd|..];
    var footer := Take(afterCmd, 4);
    var afterFooter := afterCmd[|footer|..];
    match FooterFault(footer)
    case Some(f) => Reception(Err(f), afterFooter)
    case None => Reception(Ok(Xored(cmd)), afterFooter)
  }

  lemma ReceiveBodyAccepts(after: seq<byte>, n: nat)
    ensures ReceiveBody(after, n).reply.Ok? <==>
      |after| >= n + 4 && after[n + 2] == 0xDC && after[n + 3] == 0xBA
    ensures ReceiveBody(after, n).reply.Ok? ==>
      ReceiveBody(after, n).reply.value == Xored(after[..n]) &&
      ReceiveBody(after, n).rest == after[n + 4..]
  {
    var cmd := Take(after, n);
    var afterCmd := after[|cmd|..];
    var footer := Take(afterCmd, 4);
    if |after| >= n + 4 {
      assert footer == after[n..n + 4];
      assert afterCmd[|footer|..] == after[n + 4..];
    } else {
      assert |footer| < 4;
    }
  }

  /** A reply is accepted exactly when the header bytes 0, 1 and 3, and the
      footer bytes 2 and 3 placed after the announced length, are right.
      Nothing else is checked, the checksum included. */
  lemma ReceiveAccepts(input: seq<byte>)
    ensures Receive(input).reply.Ok? <==> WellFramed(input)
  {
    if |input| >= 4 && HeaderFault(input[..4]) == None {
      ReceiveBodyAccepts(input[4..], input[2] as int);
    }
  }

  predicate WellFramed(input: seq<byte>)
  {
    |input| >= 4 && input[0] == 0xAB && input[1] == 0xCD && input[3] == 0x00 &&
    |input| >= input[2] as int + 8 &&
    input[input[2] as int + 6] == 0xDC && input[input[2] as int + 7] == 0xBA
  }

  /** An accepted reply is the de-obfuscated bytes between header and
      footer, and reading stops right after the footer. */
  lemma ReceivePayload(input: seq<byte>)
    requires WellFramed(input)
    ensures Receive(input) == Reception(Ok(Xored(input[4..input[2] as int + 4])), input[input[2] as int + 8..])
  {
    var n := input[2] as int;
    assert HeaderFault(input[..4]) == None;
    ReceiveBodyAccepts(input[4..], n);
    assert input[4..][..n] == input[4..n + 4];
    assert input[4..][n + 4..] == input[n + 8..];
  }

  /** `_receive_reply` undoes `_send_command`: a frame followed by anything
      yields exactly the payload, and the bytes after it stay unread. */
  lemma FrameRoundTrip(data: seq<byte>, rest: seq<byte>)
    requires |data| < 256
    ensures Receive(Frame(data) + rest) == Reception(Ok(data), rest)
  {
    EnvelopeRoundTrip(data, CrcLe(Crc16(data)), rest);
  }

  /** The same for any two bytes in the checksum's place. */
  lemma EnvelopeRoundTrip(data: seq<byte>, check: seq<byte>, rest: seq<byte>)
    requires |data| < 256 && |check| == 2
    ensures Receive(Envelope(ByteOf(|data|), Xored(data + check)) + rest) == Reception(Ok(data), rest)
  {
    var n := |data|;
    var input := Envelope(ByteOf(n), Xored(data + check)) + rest;
    EnvelopeParts(ByteOf(n), Xored(data + check));
    assert input[n + 6] == 0xDC && input[n + 7] == 0xBA;
    ReceivePayload(input);
    assert input[4..n + 4] == Xored(data + check)[..n];
    assert input[n + 8..] == rest;
    XoredPrefix(data, check);
    XoredInvolution(data);
  }

  /** The checksum is never verified: whatever two bytes stand where the
      obfuscated checksum belongs, the payload is accepted. */
  lemma AnyChecksumAccepted(data: seq<byte>, c0: byte, c1: byte, rest: seq<byte>)
    requires |data| < 256
    ensures Receive(Envelope(ByteOf(|data|), Xored(data) + [c0, c1]) + rest) == Reception(Ok(data), rest)
  {
    var n := |data|;
    var forged: seq<byte> := [Xor(c0, XorKey[n % 16]), Xor(c1, XorKey[(n + 1) % 16])];
    ForgedTail(data, c0, c1);
    EnvelopeRoundTrip(data, forged, rest);
  }

  /** The two bytes that, obfuscated after `data`, come out as c0 and c1. */
  lemma ForgedTail(data: seq<byte>, c0: byte, c1: byte)
    ensures Xored(data + [Xor(c0, XorKey[|data| % 16]), Xor(c1, XorKey[(|data| + 1) % 16])]) == Xored(data) + [c0, c1]
  {
    var n := |data|;
    XorCancel(c0, XorKey[n % 16]);
    XorCancel(c1, XorKey[(n + 1) % 16]);
    var forged: seq<byte> := [Xor(c0, XorKey[n % 16]), Xor(c1, XorKey[(n + 1) % 16])];
    assert Xored(data + forged)[n] == c0;
    assert Xored(data + forged)[n + 1] == c1;
    XoredPrefix(data, forged);
  }
}
