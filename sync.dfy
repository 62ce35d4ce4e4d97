/** Cloning the radio's memory (uvk5.py:335-388): `do_download` reads the
    whole 8 KiB EEPROM in 128-byte blocks after a hello, and `do_upload`
    writes back its first 0x1D00 bytes in 128-byte blocks and then resets
    the radio. Every read and every write reads one reply. */
module Sync {
  import opened Bytes
  import opened Framing
  import opened Transport
  import opened Protocol
  import opened Layout

  /** How a block loop ends, and how many blocks it had asked for by then. */
  datatype Run<T> = Run(outcome: Result<T>, count: nat)

  /** The download loop from block k (address k * 128) on, with `image`
      the blocks kept so far: a block that is not exactly 128 bytes ends it
      with None (`return False`), a reply that raises ends it with that
      fault, and once the address reaches the end of memory the image is
      complete. */
  function DownloadFrom(ds: seq<Result<seq<byte>>>, k: nat, image: seq<byte>): (r: Run<Option<seq<byte>>>)
    ensures k < BlockCount ==> k < r.count <= BlockCount
    ensures k >= BlockCount ==> r == Run(Ok(Some(image)), k)
    ensures k <= BlockCount && r.outcome.Ok? && r.outcome.value.Some? ==>
      r.count == BlockCount && |r.outcome.value.value| == |image| + (BlockCount - k) * MemBlock
    decreases MemSize - k * MemBlock
  {
    if k * MemBlock >= MemSize then Run(Ok(Some(image)), k)
    else
      match ReadOutcome(ReplyAt(ds, k))
      case Err(f) => Run(Err(f), k + 1)
      case Ok(o) =>
        if |o| > 0 && |o| == MemBlock then DownloadFrom(ds, k + 1, image + o)
        else Run(Ok(None), k + 1)
  }

  /** The block loop of `do_download` over the replies it reads. */
  function Download(ds: seq<Result<seq<byte>>>): (r: Run<Option<seq<byte>>>)
    ensures 0 < r.count <= BlockCount
    ensures r.outcome.Ok? && r.outcome.value.Some? ==> r.count == BlockCount && |r.outcome.value.value| == MemSize
  {
    DownloadFrom(ds, 0, [])
  }

  /** The read commands of the first n blocks, in order. */
  function ReadCommands(n: nat): (cs: seq<seq<byte>>)
    ensures |cs| == n
  {
    seq(n, j requires 0 <= j < n => ReadMemCommand(j * MemBlock, MemBlock))
  }

  lemma ReadCommandsNext(k: nat)
    ensures ReadCommands(k + 1) == ReadCommands(k) + [ReadMemCommand(k * MemBlock, MemBlock)]
  {
    assert ReadCommands(k + 1)[..k] == ReadCommands(k);
  }

  /** The block loop of `do_download`: read 128 bytes at a time from
      address 0 up, keep each block of exactly 128 bytes, and give up on
      the first that is not. */
  method ReadBlocks(port: Port) returns (r: Result<Option<seq<byte>>>)
    requires port.Valid()
    modifies port
    ensures port.Valid()
    ensures var d := Download(old(port.replies));
      r == d.outcome && port.replies == Skip(old(port.replies), d.count) &&
      port.sent == old(port.sent) + ReadCommands(d.count)
  {
    ghost var ds := port.replies;
    ghost var sent0 := port.sent;
    var eeprom: seq<byte> := [];
    var addr := 0;
    ghost var k: nat := 0;
    while addr < MemSize
      invariant addr == k * MemBlock && |eeprom| == addr
      invariant port.Valid()
      invariant port.replies == Skip(ds, k)
      invariant port.sent == sent0 + ReadCommands(k)
      invariant Download(ds) == DownloadFrom(ds, k, eeprom)
      decreases MemSize - addr
    {
      SkipStep(ds, k);
      ReadCommandsNext(k);
      var o := ReadMem(port, addr, MemBlock);
      if o.Err? {
        return Err(o.fault);
      }
      if |o.value| > 0 && |o.value| == MemBlock {
        eeprom := eeprom + o.value;
        addr := addr + MemBlock;
        k := k + 1;
      } else {
        return Ok(None);
      }
    }
    return Ok(Some(eeprom));
  }

  /** `do_download`: a hello whose answer is ignored unless it raises,
      then the block loop over the replies that follow. `firmware` is the
      version a successful hello records on the radio. */
  method DoDownload(port: Port) returns (r: Result<Option<seq<byte>>>, firmware: Option<string>)
    requires port.Valid()
    modifies port
    ensures port.Valid()
    ensures var h := HelloExchange(old(port.replies));
      firmware == (if h.outcome.Ok? then h.outcome.value else None)
    ensures var h := HelloExchange(old(port.replies));
      var after := Skip(old(port.replies), h.attempts);
      var hellos := old(port.sent) + Copies(HelloPacket, h.attempts);
      if h.outcome.Err? then
        r == Err(h.outcome.fault) && port.replies == after && port.sent == hellos
      else
        var d := Download(after);
        r == d.outcome && port.replies == Skip(after, d.count) && port.sent == hellos + ReadCommands(d.count)
  {
    var hello := SayHello(port);
    if hello.Err? {
      return Err(hello.fault), None;
    }
    firmware := hello.value;
    r := ReadBlocks(port);
  }

  /** What reading block j yields: the reply past its eight-byte echo, or
      nothing when the reply raised. */
  function Payload(ds: seq<Result<seq<byte>>>, j: nat): seq<byte>
  {
    match ReadOutcome(ReplyAt(ds, j))
    case Ok(o) => o
    case Err(_) => []
  }

  /** Block j came back whole: no fault, and exactly 128 bytes. */
  predicate GoodBlock(ds: seq<Result<seq<byte>>>, j: nat)
  {
    ReadOutcome(ReplyAt(ds, j)).Ok? && |Payload(ds, j)| == MemBlock
  }

  /** The payloads of the first n blocks, one after the other. */
  function Blocks(ds: seq<Result<seq<byte>>>, n: nat): seq<byte>
  {
    if n == 0 then [] else Blocks(ds, n - 1) + Payload(ds, n - 1)
  }

  /** How many blocks make up the memory. */
  const BlockCount: nat := 64

  /** From block k on, with the first k blocks kept: the loop completes
      exactly when every remaining block is good, and then the image is
      all 64 payloads in order, after 64 reads. */
  lemma {:induction false} DownloadRest(ds: seq<Result<seq<byte>>>, k: nat)
    requires k <= BlockCount
    ensures (DownloadFrom(ds, k, Blocks(ds, k)).outcome.Ok? &&
      DownloadFrom(ds, k, Blocks(ds, k)).outcome.value.Some?) <==>
      forall j :: k <= j < BlockCount ==> GoodBlock(ds, j)
    ensures (forall j :: k <= j < BlockCount ==> GoodBlock(ds, j)) ==>
      DownloadFrom(ds, k, Blocks(ds, k)) == Run(Ok(Some(Blocks(ds, BlockCount))), BlockCount)
    decreases BlockCount - k
  {
    if k < BlockCount {
      assert k * MemBlock < MemSize;
      DownloadRest(ds, k + 1);
      if !GoodBlock(ds, k) {
        assert !(forall j :: k <= j < BlockCount ==> GoodBlock(ds, j));
      } else {
        assert Blocks(ds, k) + Payload(ds, k) == Blocks(ds, k + 1);
        if forall j :: k + 1 <= j < BlockCount ==> GoodBlock(ds, j) {
          assert forall j :: k <= j < BlockCount ==> GoodBlock(ds, j);
        }
      }
    } else {
      assert k * MemBlock >= MemSize;
    }
  }

  /** A download yields an image exactly when all 64 blocks come back
      whole, and the image is then their payloads in address order. */
  lemma DownloadImage(ds: seq<Result<seq<byte>>>)
    ensures (Download(ds).outcome.Ok? && Download(ds).outcome.value.Some?) <==>
      forall j :: 0 <= j < BlockCount ==> GoodBlock(ds, j)
    ensures (forall j :: 0 <= j < BlockCount ==> GoodBlock(ds, j)) ==>
      Download(ds) == Run(Ok(Some(Blocks(ds, BlockCount))), BlockCount)
  {
    DownloadRest(ds, 0);
  }

  /** The payloads of n good blocks are 128 bytes each. */
  lemma {:induction false} BlocksLength(ds: seq<Result<seq<byte>>>, n: nat)
    requires forall j :: 0 <= j < n ==> GoodBlock(ds, j)
    ensures |Blocks(ds, n)| == n * MemBlock
  {
    if n > 0 {
      BlocksLength(ds, n - 1);
      assert GoodBlock(ds, n - 1);
    }
  }

  /** The reply to the read of block j echoes eight bytes and then holds
      bytes j * 128 .. j * 128 + 127 of `mem`. */
  predicate Serves(ds: seq<Result<seq<byte>>>, mem: seq<byte>, j: nat)
    requires |mem| == MemSize && j < BlockCount
  {
    j < |ds| && ds[j].Ok? && |ds[j].value| == 8 + MemBlock &&
    ds[j].value[8..] == mem[j * MemBlock..j * MemBlock + MemBlock]
  }

  lemma {:induction false} BlocksOfMemory(ds: seq<Result<seq<byte>>>, mem: seq<byte>, n: nat)
    requires n <= BlockCount && |mem| == MemSize
    requires forall j :: 0 <= j < BlockCount ==> Serves(ds, mem, j)
    ensures Blocks(ds, n) == mem[..n * MemBlock]
  {
    if n > 0 {
      BlocksOfMemory(ds, mem, n - 1);
      var j := n - 1;
      assert Serves(ds, mem, j);
      assert Payload(ds, j) == mem[j * MemBlock..j * MemBlock + MemBlock];
      assert mem[..n * MemBlock] == mem[..j * MemBlock] + mem[j * MemBlock..j * MemBlock + MemBlock];
    }
  }

  /** A radio that answers every read with its own memory hands over
      exactly that memory. */
  lemma DownloadRoundTrip(ds: seq<Result<seq<byte>>>, mem: seq<byte>)
    requires |mem| == MemSize
    requires forall j :: 0 <= j < BlockCount ==> Serves(ds, mem, j)
    ensures Download(ds) == Run(Ok(Some(mem)), BlockCount)
  {
    forall j | 0 <= j < BlockCount
      ensures GoodBlock(ds, j)
    {
      assert Serves(ds, mem, j);
    }
    DownloadImage(ds);
    BlocksOfMemory(ds, mem, BlockCount);
    assert mem[..BlockCount * MemBlock] == mem;
  }

  /** Read j of a download asks for 128 bytes at address j * 128: the
      addresses are 0, 128, ..., 8064, in ascending order. */
  lemma DownloadAddresses(n: nat, j: nat)
    requires j < n && j < BlockCount
    ensures Decode(ReadCommands(n)[j]) == Some(ReadRequest(j * MemBlock, MemBlock))
  {
    DecodeReadMem(j * MemBlock, MemBlock);
  }

  /** The block of `image` written at `addr`, `image[addr:addr+128]`. */
  function BlockAt(image: seq<byte>, addr: nat): (b: seq<byte>)
    ensures |b| <= MemBlock
  {
    Slice(image, addr, addr + MemBlock)
  }

  /** The block of `image` written at block index j. */
  function BlockOf(image: seq<byte>, j: nat): (b: seq<byte>)
    ensures |b| <= MemBlock
  {
    BlockAt(image, j * MemBlock)
  }

  /** The upload loop from block k (address k * 128) on: a write whose
      reply raises ends it with that fault, and once an empty block has
      been written it ends with false. The acknowledgement itself is not
      looked at. When the address reaches `PROG_SIZE` the loop is done. */
  function UploadFrom(ds: seq<Result<seq<byte>>>, image: seq<byte>, k: nat): (r: Run<bool>)
    ensures k < ProgBlocks ==> k < r.count <= ProgBlocks
    ensures k >= ProgBlocks ==> r == Run(Ok(true), k)
    ensures k <= ProgBlocks && r.outcome == Ok(true) ==> r.count == ProgBlocks
    decreases ProgSize - k * MemBlock
  {
    if k * MemBlock >= ProgSize then Run(Ok(true), k)
    else
      match WriteOutcome(ReplyAt(ds, k), k * MemBlock)
      case Err(f) => Run(Err(f), k + 1)
      case Ok(_) =>
        if |BlockOf(image, k)| > 0 then UploadFrom(ds, image, k + 1)
        else Run(Ok(false), k + 1)
  }

  /** The block loop of `do_upload` over the replies it reads. */
  function Upload(ds: seq<Result<seq<byte>>>, image: seq<byte>): (r: Run<bool>)
    ensures 0 < r.count <= ProgBlocks
    ensures r.outcome == Ok(true) ==> r.count == ProgBlocks
  {
    UploadFrom(ds, image, 0)
  }

  /** The write commands of the first n blocks, in order. */
  function WriteCommands(image: seq<byte>, n: nat): (cs: seq<seq<byte>>)
    ensures |cs| == n
  {
    seq(n, j requires 0 <= j < n => WriteMemCommand(j * MemBlock, BlockOf(image, j)))
  }

  lemma WriteCommandsNext(image: seq<byte>, k: nat)
    ensures WriteCommands(image, k + 1) == WriteCommands(image, k) + [WriteMemCommand(k * MemBlock, BlockOf(image, k))]
  {
    assert WriteCommands(image, k + 1)[..k] == WriteCommands(image, k);
  }

  /** The block loop of `do_upload`: write `image[addr:addr+128]` from
      address 0 up to `PROG_SIZE`, stopping after the first empty block. */
  method WriteBlocks(port: Port, image: seq<byte>) returns (r: Result<bool>)
    requires port.Valid()
    modifies port
    ensures port.Valid()
    ensures var u := Upload(old(port.replies), image);
      r == u.outcome && port.replies == Skip(old(port.replies), u.count) &&
      port.sent == old(port.sent) + WriteCommands(image, u.count)
  {
    ghost var ds := port.replies;
    ghost var sent0 := port.sent;
    var addr := 0;
    ghost var k: nat := 0;
    while addr < ProgSize
      invariant addr == k * MemBlock
      invariant port.Valid()
      invariant port.replies == Skip(ds, k)
      invariant port.sent == sent0 + WriteCommands(image, k)
      invariant Upload(ds, image) == UploadFrom(ds, image, k)
      decreases ProgSize - addr
    {
      SkipStep(ds, k);
      WriteCommandsNext(image, k);
      var o := BlockAt(image, addr);
      var w := WriteMem(port, o, addr);
      if w.Err? {
        return Err(w.fault);
      }
      if |o| > 0 {
        addr := addr + MemBlock;
        k := k + 1;
      } else {
        assert Upload(ds, image) == Run(Ok(false), k + 1);
        return Ok(false);
      }
    }
    assert Upload(ds, image) == Run(Ok(true), k);
    return Ok(true);
  }

  /** `do_upload`: a hello whose answer is ignored unless it raises, the
      block loop, and, only when the loop got to the end, one reset. */
  method DoUpload(port: Port, image: seq<byte>) returns (r: Result<bool>)
    requires port.Valid()
    modifies port
    ensures port.Valid()
    ensures var h := HelloExchange(old(port.replies));
      var after := Skip(old(port.replies), h.attempts);
      var hellos := old(port.sent) + Copies(HelloPacket, h.attempts);
      if h.outcome.Err? then
        r == Err(h.outcome.fault) && port.replies == after && port.sent == hellos
      else
        var u := Upload(after, image);
        r == u.outcome && port.replies == Skip(after, u.count) &&
        port.sent == hellos + WriteCommands(image, u.count) + (if u.outcome == Ok(true) then [ResetPacket] else [])
  {
    var hello := SayHello(port);
    if hello.Err? {
      return Err(hello.fault);
    }
    r := WriteBlocks(port, image);
    if r == Ok(true) {
      ResetRadio(port);
    }
  }

  /** How many blocks make up the part that is written back. */
  const ProgBlocks: nat := 58

  /** With no write raising, an image that reaches into the last block
      before `PROG_SIZE` is written completely, 58 writes, whatever the
      radio acknowledges (the last block may be short). */
  lemma {:induction false} UploadWhole(ds: seq<Result<seq<byte>>>, image: seq<byte>, k: nat)
    requires |image| > ProgSize - MemBlock && k <= ProgBlocks
    requires forall j :: k <= j < ProgBlocks ==> WriteOutcome(ReplyAt(ds, j), j * MemBlock).Ok?
    ensures UploadFrom(ds, image, k) == Run(Ok(true), ProgBlocks)
    decreases ProgBlocks - k
  {
    if k < ProgBlocks {
      assert k * MemBlock < ProgSize;
      assert |BlockOf(image, k)| > 0;
      UploadWhole(ds, image, k + 1);
    } else {
      assert k * MemBlock >= ProgSize;
    }
  }

  /** Write j of an upload carries `image[j*128 : j*128+128]` to address
      j * 128: the 58 writes of a complete upload cover the first
      `PROG_SIZE` bytes, in ascending order. */
  lemma UploadAddresses(image: seq<byte>, n: nat, j: nat)
    requires |image| >= ProgSize && j < n && j < ProgBlocks
    ensures Decode(WriteCommands(image, n)[j]) ==
      Some(WriteRequest(j * MemBlock, image[j * MemBlock..j * MemBlock + MemBlock]))
  {
    DecodeWriteMem(j * MemBlock, BlockOf(image, j));
  }

  /** k is the quotient of n by 128 when n lies in k * 128 .. k * 128 + 127. */
  lemma Quotient(n: nat, k: nat)
    requires k * MemBlock <= n < k * MemBlock + MemBlock
    ensures n / MemBlock == k
  {
  }

  /** An image of at most 57 blocks, with no write raising: after the
      last non-empty block one more, empty, write is sent, and the upload
      ends with false, and so without a reset. */
  lemma {:induction false} UploadShort(ds: seq<Result<seq<byte>>>, image: seq<byte>, k: nat)
    requires |image| <= ProgSize - MemBlock && k * MemBlock <= |image| + MemBlock - 1
    requires forall j :: k <= j < ProgBlocks ==> WriteOutcome(ReplyAt(ds, j), j * MemBlock).Ok?
    ensures UploadFrom(ds, image, k) == Run(Ok(false), (|image| + MemBlock - 1) / MemBlock + 1)
    decreases |image| + MemBlock - k * MemBlock
  {
    assert k * MemBlock < ProgSize;
    if k * MemBlock < |image| {
      UploadShort(ds, image, k + 1);
    } else {
      assert |BlockOf(image, k)| == 0;
      Quotient(|image| + MemBlock - 1, k);
    }
  }
}
