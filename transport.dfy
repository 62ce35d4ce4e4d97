/** The serial line as the driver uses it (`radio.pipe`), seen one reply
    at a time: the outcome `_receive_reply` has for each reply the radio
    will send, every byte the driver has written, and, as a ghost log, the
    command payloads the driver has framed and sent. `_send_command` and
    `_receive_reply` (uvk5.py:225-267) are the only places that touch it;
    how one reply's bytes become its outcome is `ReadReply`, proved against
    `Framing.Receive`. */
module Transport {
  import opened Bytes
  import opened Obfuscation
  import opened Checksum
  import opened Framing

  class Port {
    /** What `_receive_reply` will make of each reply the radio sends, in
        order. */
    var replies: seq<Result<seq<byte>>>
    /** Every byte the driver has written, oldest first. */
    var output: seq<byte>
    /** The payloads of the commands sent, oldest first. */
    ghost var sent: seq<seq<byte>>

    /** Everything written is the frames of the payloads sent, in order. */
    ghost predicate Valid()
      reads this
    {
      Framed(sent) && output == Frames(sent)
    }

    constructor(pending: seq<Result<seq<byte>>>)
      ensures Valid() && replies == pending && output == [] && sent == []
    {
      replies := pending;
      output := [];
      sent := [];
    }

    /** `serial.write`. */
    method Write(data: seq<byte>)
      modifies this
      ensures replies == old(replies) && output == old(output) + data && sent == old(sent)
    {
      output := output + data;
    }
  }

  /** Payloads short enough for the one-byte length of a frame. */
  predicate Framed(ps: seq<seq<byte>>)
  {
    |ps| == 0 || (Framed(ps[..|ps| - 1]) && |ps[|ps| - 1]| < 256)
  }

  /** The frames of the payloads, one after another. */
  function Frames(ps: seq<seq<byte>>): (bs: seq<byte>)
    requires Framed(ps)
  {
    if |ps| == 0 then [] else Frames(ps[..|ps| - 1]) + Frame(ps[|ps| - 1])
  }

  /** One more payload adds its frame to the frames before it. */
  lemma {:induction false} FramesSnoc(ps: seq<seq<byte>>, d: seq<byte>)
    requires Framed(ps) && |d| < 256
    ensures Framed(ps + [d]) && Frames(ps + [d]) == Frames(ps) + Frame(d)
  {
    assert (ps + [d])[..|ps|] == ps;
  }

  /** The frames of two runs of payloads are the frames of the first run
      followed by those of the second. */
  lemma {:induction false} FramesAppend(a: seq<seq<byte>>, b: seq<seq<byte>>)
    requires Framed(a) && Framed(b)
    ensures Framed(a + b) && Frames(a + b) == Frames(a) + Frames(b)
    decreases |b|
  {
    if |b| > 0 {
      var b0 := b[..|b| - 1];
      assert b == b0 + [b[|b| - 1]];
      FramesAppend(a, b0);
      FramesAppendStep(a, b0, b[|b| - 1]);
    } else {
      assert a + b == a;
    }
  }

  lemma {:induction false} FramesAppendStep(a: seq<seq<byte>>, b0: seq<seq<byte>>, last: seq<byte>)
    requires Framed(a) && Framed(b0) && |last| < 256
    requires Framed(a + b0) && Frames(a + b0) == Frames(a) + Frames(b0)
    ensures Framed(a + (b0 + [last])) && Frames(a + (b0 + [last])) == Frames(a) + Frames(b0 + [last])
  {
    var ab := a + (b0 + [last]);
    assert ab == (a + b0) + [last];
    FramesSnoc(b0, last);
    FramesSnoc(a + b0, last);
    Regroup(Frames(a), Frames(b0), Frame(last));
  }

  lemma Regroup(x: seq<byte>, y: seq<byte>, z: seq<byte>)
    ensures (x + y) + z == x + (y + z)
  {
  }

  /** The first outcome, or the IndexError of an empty header read. */
  function First(ds: seq<Result<seq<byte>>>): (r: Result<seq<byte>>)
    ensures |ds| > 0 ==> r == ds[0]
  {
    if |ds| == 0 then Err(IndexOutOfRange) else ds[0]
  }

  /** The outcomes after the first. */
  function Rest(ds: seq<Result<seq<byte>>>): (r: seq<Result<seq<byte>>>)
    ensures |ds| > 0 ==> r == ds[1..]
  {
    if |ds| == 0 then [] else ds[1..]
  }

  /** With nothing on the line, `_receive_reply` fails the way `First`
      says: the empty header read fails at its first byte. */
  lemma SilentLine()
    ensures Receive([]).reply == First([])
  {
    var none: seq<byte> := [];
    assert Take(none, 4) == none;
    assert HeaderFault(none) == Some(IndexOutOfRange);
  }

  /** `_send_command`: checksum the payload, append the checksum low byte
      first, obfuscate, and write it between header and footer. */
  method SendCommand(port: Port, data: seq<byte>)
    requires |data| < 256 && port.Valid()
    modifies port
    ensures port.Valid()
    ensures port.output == old(port.output) + Frame(data)
    ensures port.sent == old(port.sent) + [data]
    ensures port.replies == old(port.replies)
  {
    var crc := CalculateCrc16Xmodem(data);
    var data2 := data + [LowByte(crc as int), HighByte(crc as int)];
    var x := XorArr(data2);
    var command := [0xAB, 0xCD, ByteOf(|data|), 0x00] + x + [0xDC, 0xBA];
    port.Write(command);
    FramesSnoc(port.sent, data);
    port.sent := port.sent + [data];
  }

  /** `serial.read(n)` on what is left of a reply: up to n bytes, fewer
      when the radio has sent fewer before the timeout. */
  method Read(line: seq<byte>, n: nat) returns (got: seq<byte>, left: seq<byte>)
    ensures got == Take(line, n) && left == line[|got|..]
  {
    got := Take(line, n);
    left := line[|got|..];
  }

  /** `_receive_reply` on the bytes the radio sends: read and check the
      header, read the payload it announces, read and check the footer, and
      return the payload with the obfuscation undone, with what is left
      unread. */
  method ReadReply(line: seq<byte>) returns (reply: Result<seq<byte>>, rest: seq<byte>)
    ensures Reception(reply, rest) == Receive(line)
  {
    var header;
    header, rest := Read(line, 4);
    var fault := HeaderFault(header);
    if fault.Some? {
      return Err(fault.value), rest;
    }
    var cmd, footer;
    cmd, rest := Read(rest, header[2] as nat);
    footer, rest := Read(rest, 4);
    var footerFault := FooterFault(footer);
    if footerFault.Some? {
      return Err(footerFault.value), rest;
    }
    var payload := XorArr(cmd);
    return Ok(payload), rest;
  }

  /** `_receive_reply` on the port: take the next reply off the line. */
  method ReceiveReply(port: Port) returns (reply: Result<seq<byte>>)
    requires port.Valid()
    modifies port
    ensures port.Valid()
    ensures reply == First(old(port.replies))
    ensures port.replies == Rest(old(port.replies))
    ensures port.output == old(port.output) && port.sent == old(port.sent)
  {
    reply := First(port.replies);
    port.replies := Rest(port.replies);
  }
}
