/** The UV-K5 command set as the driver uses it (uvk5.py:268-326): the
    four command payloads it builds, the firmware string it pulls out of
    the hello reply, and one exchange per command over the serial line. */
module Protocol {
  import opened Bytes
  import opened Framing
  import opened Transport

  /** The four bytes that end every command but the reset. */
  const Magic: seq<byte> := [0x6a, 0x39, 0x57, 0x64]

  /** `hellopacket`. */
  const HelloPacket: seq<byte> := [0x14, 0x05, 0x04, 0x00] + Magic

  /** `resetpacket`. */
  const ResetPacket: seq<byte> := [0xdd, 0x05, 0x00, 0x00]

  /** How many times `_sayhello` sends the hello packet at most. */
  const HelloTries: nat := 5

  /** The `readmem` payload asking for `length` bytes at `offset`; only the
      low 16 bits of the offset are sent, and `bytes([...])` refuses a
      length of 256 or more. */
  function ReadMemCommand(offset: nat, length: nat): (c: seq<byte>)
    requires length < 256
    ensures |c| == 12
  {
    [0x1b, 0x05, 0x08, 0x00, LowByte(offset), HighByte(offset), ByteOf(length), 0x00] + Magic
  }

  /** The `writemem` payload carrying `data` to `offset`. */
  function WriteMemCommand(offset: nat, data: seq<byte>): (c: seq<byte>)
    requires |data| + 8 < 256
    ensures |c| == |data| + 12
  {
    [0x1d, 0x05, ByteOf(|data| + 8), 0x00, LowByte(offset), HighByte(offset), ByteOf(|data|), 0x01] + Magic + data
  }

  /** What a command asks the radio for. */
  datatype Request =
    | HelloRequest
    | ReadRequest(offset: nat, length: nat)
    | WriteRequest(offset: nat, data: seq<byte>)
    | ResetRequest

  /** A reading of a command payload that fits all four builders: a
      command byte, 0x05, and a 16-bit little-endian count of the bytes
      that follow; read and write carry a 16-bit little-endian address, a
      length and the magic bytes. */
  function Decode(c: seq<byte>): Option<Request>
  {
    if |c| < 4 || c[1] != 0x05 || c[2] as int + 256 * c[3] as int != |c| - 4 then None
    else if c[0] == 0x14 && c[4..] == Magic then Some(HelloRequest)
    else if c[0] == 0x1b && |c| == 12 && c[7] == 0x00 && c[8..] == Magic then
      Some(ReadRequest(c[4] as int + 256 * c[5] as int, c[6] as int))
    else if c[0] == 0x1d && |c| >= 12 && c[6] as int == |c| - 12 && c[7] == 0x01 && c[8..12] == Magic then
      Some(WriteRequest(c[4] as int + 256 * c[5] as int, c[12..]))
    else if c[0] == 0xdd && |c| == 4 then Some(ResetRequest)
    else None
  }

  /** The two address bytes carry the offset modulo 65536. */
  lemma AddressBytes(offset: nat)
    ensures LowByte(offset) as int + 256 * HighByte(offset) as int == offset % 0x10000
  {
  }

  lemma DecodeHello()
    ensures Decode(HelloPacket) == Some(HelloRequest)
  {
  }

  lemma DecodeReset()
    ensures Decode(ResetPacket) == Some(ResetRequest)
  {
  }

  /** A read command asks for exactly the length given, at the offset
      given modulo 65536. */
  lemma DecodeReadMem(offset: nat, length: nat)
    requires length < 256
    ensures Decode(ReadMemCommand(offset, length)) == Some(ReadRequest(offset % 0x10000, length))
  {
    AddressBytes(offset);
    var c := ReadMemCommand(offset, length);
    assert c[8..] == Magic;
  }

  /** A write command carries exactly the data given, to the offset given
      modulo 65536. */
  lemma DecodeWriteMem(offset: nat, data: seq<byte>)
    requires |data| + 8 < 256
    ensures Decode(WriteMemCommand(offset, data)) == Some(WriteRequest(offset % 0x10000, data))
  {
    AddressBytes(offset);
    var c := WriteMemCommand(offset, data);
    assert c[8..12] == Magic;
    assert c[12..] == data;
  }

  /** The success test of `_writemem`: byte 0 is 0x1E and bytes 1 and 2
      echo the offset. Python's `and` stops at the first false test, and a
      reply too short for a byte it does look at raises an IndexError. */
  function WriteAcknowledged(o: seq<byte>, offset: nat): (r: Result<bool>)
    ensures r == Ok(true) <==>
      |o| >= 3 && o[0] == 0x1e && o[1] == LowByte(offset) && o[2] == HighByte(offset)
    ensures r.Err? <==>
      |o| == 0 || (o[0] == 0x1e && (|o| == 1 || (o[1] == LowByte(offset) && |o| == 2)))
  {
    if |o| < 1 then Err(IndexOutOfRange)
    else if o[0] != 0x1e then Ok(false)
    else if |o| < 2 then Err(IndexOutOfRange)
    else if o[1] != LowByte(offset) then Ok(false)
    else if |o| < 3 then Err(IndexOutOfRange)
    else Ok(o[2] == HighByte(offset))
  }

  predicate Printable(b: byte)
  {
    0x20 <= b <= 0x7e
  }

  /** The characters of the printable bytes at the front of s, up to the
      first byte that is not printable. */
  function PrintableRun(s: seq<byte>): (r: string)
  {
    if |s| == 0 || !Printable(s[0]) then "" else [CharOf(s[0])] + PrintableRun(s[1..])
  }

  /** The run is the longest printable prefix: every byte in it is
      printable, and it ends at the end or at a byte that is not. */
  lemma {:induction false} PrintableRunIsPrefix(s: seq<byte>)
    ensures |PrintableRun(s)| <= |s|
    ensures PrintableRun(s) == Chars(s[..|PrintableRun(s)|])
    ensures forall i :: 0 <= i < |PrintableRun(s)| ==> Printable(s[i])
    ensures |PrintableRun(s)| == |s| || !Printable(s[|PrintableRun(s)|])
  {
    if |s| > 0 && Printable(s[0]) {
      PrintableRunIsPrefix(s[1..]);
      assert s[..|PrintableRun(s)|] == [s[0]] + s[1..][..|PrintableRun(s[1..])|];
    }
  }

  /** Conversely, a printable prefix that ends at the end or at a byte that
      is not printable is the run. */
  lemma {:induction false} PrintableRunStops(s: seq<byte>, k: nat)
    requires k <= |s|
    ensures (forall i :: 0 <= i < k ==> Printable(s[i])) && (k == |s| || !Printable(s[k])) ==>
      PrintableRun(s) == Chars(s[..k])
  {
    if k > 0 && (forall i :: 0 <= i < k ==> Printable(s[i])) && (k == |s| || !Printable(s[k])) {
      PrintableRunStops(s[1..], k - 1);
      assert Chars(s[..k]) == [CharOf(s[0])] + Chars(s[1..][..k - 1]);
    }
  }

  /** Where `_getstring` starts reading: its counter is 1 at the first
      byte and bytes are skipped while it is below `begin`. */
  function StartOf(begin: int, n: nat): (i: nat)
    ensures i <= n
  {
    if begin <= 1 then 0 else if begin - 1 <= n then begin - 1 else n
  }

  /** The run from byte k is either empty, at a byte that is not
      printable, or that byte followed by the run from byte k + 1. */
  lemma RunStep(data: seq<byte>, k: nat)
    requires k < |data|
    ensures PrintableRun(data[k..]) ==
      if Printable(data[k]) then [CharOf(data[k])] + PrintableRun(data[k + 1..]) else ""
  {
    assert data[k..][1..] == data[k + 1..];
  }

  /** `_getstring(data, begin, maxlen)`: the printable run starting at
      byte begin - 1. `maxlen` is not used. */
  method GetString(data: seq<byte>, begin: int, maxlen: int) returns (s: string)
    ensures s == PrintableRun(data[StartOf(begin, |data|)..])
  {
    ghost var start := StartOf(begin, |data|);
    s := "";
    var c := 0;
    for k := 0 to |data|
      invariant c == k
      invariant k <= start ==> s == ""
      invariant start <= k ==> PrintableRun(data[start..]) == s + PrintableRun(data[k..])
    {
      c := c + 1;
      if c < begin {
        continue;
      }
      RunStep(data, k);
      if data[k] < 0x20 || data[k] > 0x7e {
        assert s + "" == s;
        break;
      }
      s := s + [CharOf(data[k])];
    }
    assert s + PrintableRun(data[|data|..]) == s;
  }

  /** The firmware version the hello reply carries: the printable run from
      its fifth byte on. */
  function Firmware(o: seq<byte>): (s: string)
    ensures StartOf(5, |o|) + |s| <= |o|
    ensures forall i :: 0 <= i < |s| ==> 0x20 <= s[i] as int <= 0x7e
  {
    var start := StartOf(5, |o|);
    PrintableRunIsPrefix(o[start..]);
    PrintableRun(o[start..])
  }

  /** How a hello handshake ends: `outcome` is the firmware version when
      the radio answered, None when every try got an empty reply, or the
      fault a reply raised; `attempts` is the number of hello packets sent,
      and as many replies were read. */
  datatype Hello = Hello(outcome: Result<Option<string>>, attempts: nat)

  /** What the reply that ends the handshake makes of it: a fault, the
      firmware version of a non-empty reply, or None for an empty one. */
  function Verdict(reply: Result<seq<byte>>): Result<Option<string>>
  {
    match reply
    case Err(f) => Err(f)
    case Ok(o) => if |o| > 0 then Ok(Some(Firmware(o))) else Ok(None)
  }

  /** The k-th outcome, counting from 0, or the IndexError of an empty read
      once the radio has nothing more to send. */
  function ReplyAt(ds: seq<Result<seq<byte>>>, k: nat): (r: Result<seq<byte>>)
    ensures k < |ds| ==> r == ds[k]
  {
    if k < |ds| then ds[k] else Err(IndexOutOfRange)
  }

  /** `_sayhello` over the replies the radio sends, from the hello with
      index `k` on (k hellos were sent before it): an empty reply is tried
      again while tries are left, a non-empty one ends the handshake, and a
      reply that fails its checks ends it with that fault. A radio that
      stays silent is not tried again: the empty header read raises at
      once. */
  function HelloFrom(ds: seq<Result<seq<byte>>>, k: nat): (h: Hello)
    requires k < HelloTries
    ensures k < h.attempts <= HelloTries
    ensures h.outcome == Ok(None) ==> h.attempts == HelloTries
    decreases HelloTries - k
  {
    match ReplyAt(ds, k)
    case Err(f) => Hello(Err(f), k + 1)
    case Ok(o) =>
      if |o| > 0 then Hello(Ok(Some(Firmware(o))), k + 1)
      else if k + 1 == HelloTries then Hello(Ok(None), k + 1)
      else HelloFrom(ds, k + 1)
  }

  /** The whole handshake. */
  function HelloExchange(ds: seq<Result<seq<byte>>>): (h: Hello)
    ensures 1 <= h.attempts <= HelloTries
    ensures |ds| == 0 ==> h == Hello(Err(IndexOutOfRange), 1)
  {
    HelloFrom(ds, 0)
  }

  /** The handshake read directly off the replies: when the replies from
      j up to k are empty payloads and reply k is not, or k is the last
      try, the handshake from j sends hellos up to k and ends with what
      reply k says. */
  lemma {:induction false} HelloEnds(ds: seq<Result<seq<byte>>>, j: nat, k: nat)
    requires j <= k < HelloTries
    requires forall i :: j <= i < k ==> ReplyAt(ds, i) == Ok([])
    requires k == HelloTries - 1 || ReplyAt(ds, k) != Ok([])
    ensures HelloFrom(ds, j) == Hello(Verdict(ReplyAt(ds, k)), k + 1)
    decreases k - j
  {
    if j < k {
      assert ReplyAt(ds, j) == Ok([]);
      HelloEnds(ds, j + 1, k);
    }
  }

  /** Five empty replies use up every try. */
  lemma HelloGivesUp(ds: seq<Result<seq<byte>>>)
    requires forall i :: 0 <= i < HelloTries ==> ReplyAt(ds, i) == Ok([])
    ensures HelloExchange(ds) == Hello(Ok(None), HelloTries)
  {
    HelloEnds(ds, 0, HelloTries - 1);
  }

  /** A radio that answers the first hello with a non-empty, well-formed
      frame gets exactly one hello, and the firmware comes from that
      frame's payload. */
  lemma HelloFirstTry(payload: seq<byte>, rest: seq<byte>, later: seq<Result<seq<byte>>>)
    requires 0 < |payload| < 256
    ensures HelloExchange([Receive(Frame(payload) + rest).reply] + later) == Hello(Ok(Some(Firmware(payload))), 1)
  {
    FrameRoundTrip(payload, rest);
  }

  /** The replies left after the first k. */
  function Skip(ds: seq<Result<seq<byte>>>, k: nat): (r: seq<Result<seq<byte>>>)
    ensures |r| == if k <= |ds| then |ds| - k else 0
    ensures k <= |ds| ==> r == ds[k..]
  {
    if k <= |ds| then ds[k..] else []
  }

  /** Reading the next reply after k of them reads reply k. */
  lemma SkipStep(ds: seq<Result<seq<byte>>>, k: nat)
    ensures First(Skip(ds, k)) == ReplyAt(ds, k)
    ensures Rest(Skip(ds, k)) == Skip(ds, k + 1)
  {
  }

  /** n copies of the same command. */
  function Copies(c: seq<byte>, n: nat): (cs: seq<seq<byte>>)
    ensures |cs| == n && forall i :: 0 <= i < n ==> cs[i] == c
  {
    if n == 0 then [] else Copies(c, n - 1) + [c]
  }

  /** One pass of `_sayhello`'s loop: send the hello packet, read one reply. */
  method HelloTry(port: Port) returns (reply: Result<seq<byte>>)
    requires port.Valid()
    modifies port
    ensures port.Valid()
    ensures reply == First(old(port.replies)) && port.replies == Rest(old(port.replies))
    ensures port.sent == old(port.sent) + [HelloPacket]
  {
    SendCommand(port, HelloPacket);
    reply := ReceiveReply(port);
  }

  /** `_sayhello`: send the hello packet until a reply is not empty or five
      tries are used up; on success, record the firmware string. Each hello
      sent reads one reply. */
  method SayHello(port: Port) returns (r: Result<Option<string>>)
    requires port.Valid()
    modifies port
    ensures port.Valid()
    ensures var h := HelloExchange(old(port.replies));
      r == h.outcome && port.replies == Skip(old(port.replies), h.attempts) &&
      port.sent == old(port.sent) + Copies(HelloPacket, h.attempts)
  {
    ghost var ds := port.replies;
    ghost var sent0 := port.sent;
    ghost var used: nat := 0;
    var tries := HelloTries;
    var o: seq<byte> := [];
    while true
      invariant 1 <= tries <= HelloTries && used == HelloTries - tries
      invariant port.Valid()
      invariant port.sent == sent0 + Copies(HelloPacket, used)
      invariant port.replies == Skip(ds, used)
      invariant HelloFrom(ds, 0) == HelloFrom(ds, used)
      decreases tries
    {
      SkipStep(ds, used);
      var reply := HelloTry(port);
      used := used + 1;
      if reply.Err? {
        return Err(reply.fault);
      }
      o := reply.value;
      if |o| > 0 {
        break;
      }
      tries := tries - 1;
      if tries == 0 {
        return Ok(None);
      }
    }
    var firmware := GetString(o, 5, 16);
    return Ok(Some(firmware));
  }

  /** What `_readmem` returns for a reply: the bytes after its first eight,
      which echo the request. */
  function ReadOutcome(reply: Result<seq<byte>>): Result<seq<byte>>
  {
    match reply
    case Err(f) => Err(f)
    case Ok(o) => Ok(Drop(o, 8))
  }

  /** `_readmem`: ask for `length` bytes at `offset`, return the reply past
      its eight-byte echo. */
  method ReadMem(port: Port, offset: nat, length: nat) returns (r: Result<seq<byte>>)
    requires length < 256 && port.Valid()
    modifies port
    ensures port.Valid()
    ensures port.output == old(port.output) + Frame(ReadMemCommand(offset, length))
    ensures port.sent == old(port.sent) + [ReadMemCommand(offset, length)]
    ensures r == ReadOutcome(First(old(port.replies)))
    ensures port.replies == Rest(old(port.replies))
  {
    var readmem := ReadMemCommand(offset, length);
    SendCommand(port, readmem);
    var o := ReceiveReply(port);
    if o.Err? {
      return Err(o.fault);
    }
    return Ok(Drop(o.value, 8));
  }

  /** What `_writemem` returns for a reply. */
  function WriteOutcome(reply: Result<seq<byte>>, offset: nat): Result<bool>
  {
    match reply
    case Err(f) => Err(f)
    case Ok(o) => WriteAcknowledged(o, offset)
  }

  /** `_writemem`: send `data` for `offset` and check the acknowledgement. */
  method WriteMem(port: Port, data: seq<byte>, offset: nat) returns (r: Result<bool>)
    requires |data| + 12 < 256 && port.Valid()
    modifies port
    ensures port.Valid()
    ensures port.output == old(port.output) + Frame(WriteMemCommand(offset, data))
    ensures port.sent == old(port.sent) + [WriteMemCommand(offset, data)]
    ensures r == WriteOutcome(First(old(port.replies)), offset)
    ensures port.replies == Rest(old(port.replies))
  {
    var writemem := WriteMemCommand(offset, data);
    SendCommand(port, writemem);
    var o := ReceiveReply(port);
    if o.Err? {
      return Err(o.fault);
    }
    r := WriteAcknowledged(o.value, offset);
  }

  /** `_resetradio`: send the reset packet; no reply is read. */
  method ResetRadio(port: Port)
    requires port.Valid()
    modifies port
    ensures port.Valid()
    ensures port.output == old(port.output) + Frame(ResetPacket)
    ensures port.sent == old(port.sent) + [ResetPacket]
    ensures port.replies == old(port.replies)
  {
    SendCommand(port, ResetPacket);
  }
}
