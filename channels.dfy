/** A channel as `get_memory` reads it from the image and `set_memory`
    writes it back (uvk5.py:568-680, 1027-1118): the 16-byte record of
    the channel and, for the first 200 channels, its 16-character name.
    The encoder works on the record as the source does, one field and one
    flag at a time, so when it raises part of the record is already
    written. */
module Channels {
  import opened Bytes
  import opened Bits
  import opened Layout
  import opened Tables
  import opened Tones

  datatype Mode = FM | NFM | AM
  datatype Power = High | Med | Low
  /** CHIRP's duplex: "", "-", "+", "split" and "off". */
  datatype Duplex = Simplex | Minus | Plus | Split | DuplexOff

  /** The per-channel extras: BCLO, frequency reverse, PTT-ID, DTMF
      decode and scrambler, and any other named setting, which
      `set_memory` ignores. */
  datatype Extra =
    | Bclo(on: bool)
    | FreqReverse(on: bool)
    | PttId(choice: string)
    | DtmfDecode(on: bool)
    | Scrambler(choice: string)
    | OtherExtra(name: string)

  /** The part of CHIRP's memory object the driver reads and writes.
      Frequencies are in hertz and the tuning step in hundredths of a
      kilohertz. */
  datatype Memory = Memory(
    number: nat, empty: bool, name: string,
    freq: nat, offset: nat, duplex: Duplex,
    tones: ToneSides, mode: Mode, tuningStep: nat, power: Power,
    extra: seq<Extra>)

  // ---------------------------------------------------------------
  // Reading: `get_memory`

  /** Whitespace as Python's `str.isspace` sees it among the characters
      0-255. */
  predicate IsSpace(c: char)
  {
    9 <= c as int <= 13 || 28 <= c as int <= 32 || c as int == 0x85 || c as int == 0xa0
  }

  /** `s.rstrip()`: s without the whitespace at its end. */
  function RStrip(s: string): (r: string)
    ensures |r| <= |s| && r == s[..|r|]
    ensures |r| == 0 || !IsSpace(r[|r| - 1])
    ensures forall i :: |r| <= i < |s| ==> IsSpace(s[i])
  {
    if |s| == 0 || !IsSpace(s[|s| - 1]) then s else RStrip(s[..|s| - 1])
  }

  /** A byte that ends a stored name. */
  predicate Terminator(b: byte)
  {
    b == 0x00 || b == 0xff
  }

  /** The characters of a stored name up to the first 0x00 or 0xFF. */
  function NameRun(bs: seq<byte>): (r: string)
    ensures |r| <= |bs|
  {
    if |bs| == 0 || Terminator(bs[0]) then "" else [CharOf(bs[0])] + NameRun(bs[1..])
  }

  /** The run is the characters of the bytes before the first terminator:
      none of them is a terminator, and the run ends at the end of the
      bytes or at a terminator. */
  lemma {:induction false} NameRunShape(bs: seq<byte>)
    ensures var r := NameRun(bs);
      r == Chars(bs[..|r|]) && (forall i :: 0 <= i < |r| ==> !Terminator(bs[i])) &&
      (|r| == |bs| || Terminator(bs[|r|]))
  {
    if |bs| > 0 && !Terminator(bs[0]) {
      NameRunShape(bs[1..]);
      var r := NameRun(bs[1..]);
      assert bs[..|r| + 1] == [bs[0]] + bs[1..][..|r|];
    }
  }

  /** The run from byte k is empty at a terminator, and otherwise that
      byte's character followed by the run from byte k + 1. */
  lemma {:induction false} NameRunStep(bs: seq<byte>, k: nat)
    requires k < |bs|
    ensures NameRun(bs[k..]) == if Terminator(bs[k]) then "" else [CharOf(bs[k])] + NameRun(bs[k + 1..])
  {
    assert bs[k..][1..] == bs[k + 1..];
  }

  /** The name loop of `get_memory`: characters up to the first 0x00 or
      0xFF, then `rstrip()`. */
  method ReadName(bs: seq<byte>) returns (name: string)
    ensures name == RStrip(NameRun(bs))
  {
    name := "";
    var k := 0;
    while k < |bs| && !Terminator(bs[k])
      invariant k <= |bs|
      invariant NameRun(bs) == name + NameRun(bs[k..])
    {
      NameRunStep(bs, k);
      assert name + NameRun(bs[k..]) == (name + [CharOf(bs[k])]) + NameRun(bs[k + 1..]);
      name := name + [CharOf(bs[k])];
      k := k + 1;
    }
    if k < |bs| {
      NameRunStep(bs, k);
    }
    assert NameRun(bs[k..]) == "";
    assert name + "" == name;
    name := RStrip(name);
  }

  predicate Digits(s: string)
  {
    forall i :: 0 <= i < |s| ==> '0' <= s[i] <= '9'
  }

  /** The number a string of decimal digits spells, most significant
      digit first. */
  function DigitsValue(s: string): nat
    requires Digits(s)
  {
    if |s| == 0 then 0 else 10 * DigitsValue(s[..|s| - 1]) + (s[|s| - 1] as int - '0' as int)
  }

  /** `str(n)`: decimal digits without a leading zero that spell n. */
  function Decimal(n: nat): (s: string)
    ensures |s| > 0 && Digits(s) && DigitsValue(s) == n
    ensures |s| > 1 ==> s[0] != '0'
  {
    var digit := [('0' as int + n % 10) as char];
    if n < 10 then digit
    else
      var s := Decimal(n / 10) + digit;
      assert s[..|s| - 1] == Decimal(n / 10);
      s
  }

  /** The VFOs past the first 200 channels have no stored name: they are
      called VFO_1 to VFO_14. */
  function VfoName(index: nat): string
    requires index >= NamedChannels
  {
    "VFO_" + Decimal(index - (NamedChannels - 1))
  }

  /** The first VFO after the 200 named channels is VFO_1, the last VFO_14. */
  lemma VfoNames()
    ensures VfoName(NamedChannels) == "VFO_1" && VfoName(Channels - 1) == "VFO_14"
  {
    assert Decimal(1) == "1";
    assert Decimal(14) == Decimal(1) + "4";
  }

  /** The 16 name bytes of channel `index` (0-based). */
  function NameBytes(img: seq<byte>, index: nat): (bs: seq<byte>)
    requires |img| == MemSize && index < NamedChannels
    ensures |bs| == NameSize
  {
    img[NameAt(index)..NameAt(index) + NameSize]
  }

  /** The name `get_memory` shows for channel `index` (0-based). */
  function ChannelName(img: seq<byte>, index: nat): string
    requires |img| == MemSize && index < Channels
  {
    if index >= NamedChannels then VfoName(index) else RStrip(NameRun(NameBytes(img, index)))
  }

  /** A flag bit. */
  function Flag(b: byte, bit: nat): bool
    requires bit < 8
  {
    Field(b, bit, 1) == 1
  }

  /** `flags1` bit 4 is AM; otherwise `flags2` bit 1 is NFM. */
  function ModeOf(flags1: byte, flags2: byte): Mode
  {
    if Flag(flags1, 4) then AM else if Flag(flags2, 1) then NFM else FM
  }

  /** `flags2` bits 2-3: 0b10 is High, 0b01 is Med, anything else Low. */
  function PowerOf(flags2: byte): Power
  {
    var p := Field(flags2, 2, 2);
    if p == 2 then High else if p == 1 then Med else Low
  }

  /** `step` bits 1-3 index `STEPS`; past its end the step is 2.5 kHz. */
  function StepOf(step: byte): nat
  {
    var t := Field(step, 1, 3);
    if t < |Steps| then Steps[t] else 250
  }

  /** No offset is simplex; otherwise `flags1` bit 0 is "-". */
  function DuplexOf(offset: nat, flags1: byte): Duplex
  {
    if offset == 0 then Simplex else if Flag(flags1, 0) then Minus else Plus
  }

  /** The scrambler: the low nibble, or "off" past the end of the list. */
  function ScramblerOf(scrambler: byte): string
  {
    var enc := Field(scrambler, 0, 4);
    if enc < |ScramblerList| then ScramblerList[enc] else ScramblerList[0]
  }

  /** The extras `get_memory` attaches, in its order. */
  function ExtrasOf(rec: seq<byte>): seq<Extra>
    requires |rec| == RecordSize
  {
    assert Pow2(2) == 4;
    [Bclo(Flag(rec[Flags2Field], 4)), FreqReverse(Flag(rec[Flags2Field], 0)),
     PttId(PttidList[Field(rec[DtmfFlagsField], 1, 2)]), DtmfDecode(Flag(rec[DtmfFlagsField], 0)),
     Scrambler(ScramblerOf(rec[ScramblerField]))]
  }

  /** A channel is empty when its frequency is 0 or 0xFFFFFFFF. */
  predicate EmptyFreq(freq: nat)
  {
    freq == 0xffff_ffff || freq == 0
  }

  /** `get_memory` on one record: frequencies are stored in units of
      10 Hz. */
  function DecodeRecord(number: nat, name: string, rec: seq<byte>): (m: Memory)
    requires |rec| == RecordSize
    ensures m.freq % 10 == 0 && m.offset % 10 == 0
    ensures m.empty <==> EmptyFreq(m.freq / 10)
    ensures m.duplex == Simplex <==> m.offset == 0
  {
    var freq := U32At(rec, FreqField);
    var offset := U32At(rec, OffsetField);
    assert freq * 10 % 10 == 0 && freq * 10 / 10 == freq && offset * 10 % 10 == 0;
    Memory(number, EmptyFreq(freq), name, freq * 10, offset * 10, DuplexOf(offset * 10, rec[Flags1Field]),
      GetTone(rec[CodeFlagField], rec[RxCodeField], rec[TxCodeField]),
      ModeOf(rec[Flags1Field], rec[Flags2Field]), StepOf(rec[StepField]), PowerOf(rec[Flags2Field]),
      ExtrasOf(rec))
  }

  /** The record of channel `index` in the image. */
  function RecordOf(img: seq<byte>, index: nat): (rec: seq<byte>)
    requires |img| == MemSize && index < Channels
    ensures |rec| == RecordSize
  {
    img[RecordAt(index)..RecordAt(index) + RecordSize]
  }

  /** `get_memory(number)`, numbers counting from 1. */
  function GetMemory(img: seq<byte>, number: nat): (m: Memory)
    requires |img| == MemSize && 1 <= number <= Channels
    ensures m.number == number
    ensures number > NamedChannels ==> m.name == VfoName(number - 1)
  {
    DecodeRecord(number, ChannelName(img, number - 1), RecordOf(img, number - 1))
  }

  // ---------------------------------------------------------------
  // Writing: `set_memory`

  /** `_mem.x = (_mem.x & ~mask) | v << lo` on byte k of the record. */
  function SetField(rec: seq<byte>, k: nat, lo: nat, width: nat, v: nat): (r: seq<byte>)
    requires k < |rec| && lo + width <= 8 && v < Pow2(width)
    ensures |r| == |rec|
  {
    rec[k := WithField(rec[k], lo, width, v)]
  }

  function Bit(on: bool): nat
  {
    if on then 1 else 0
  }

  /** AM sets `flags1` bit 4 and clears the bandwidth bit; any other mode
      clears bit 4, and NFM sets the bandwidth bit. */
  function StoreMode(rec: seq<byte>, mode: Mode): (r: seq<byte>)
    requires |rec| == RecordSize
    ensures |r| == RecordSize
    ensures forall k :: 0 <= k < RecordSize && k != Flags1Field && k != Flags2Field ==> r[k] == rec[k]
  {
    var r1 := SetField(rec, Flags1Field, 4, 1, if mode == AM then 1 else 0);
    SetField(r1, Flags2Field, 1, 1, if mode == NFM then 1 else 0)
  }

  /** `freq` and `offset`, in units of 10 Hz. */
  function StoreFreq(rec: seq<byte>, freq: nat, offset: nat): (r: seq<byte>)
    requires |rec| == RecordSize && freq / 10 < U32Limit && offset / 10 < U32Limit
    ensures |r| == RecordSize
    ensures forall k :: OffsetField + 4 <= k < RecordSize ==> r[k] == rec[k]
  {
    Splice(Splice(rec, FreqField, U32Le(freq / 10)), OffsetField, U32Le(offset / 10))
  }

  /** "off" clears the offset, "-" sets `flags1` bit 0 and "+" clears
      it; "" and "split" leave the record alone. */
  function StoreDuplex(rec: seq<byte>, duplex: Duplex): (r: seq<byte>)
    requires |rec| == RecordSize
    ensures |r| == RecordSize
    ensures forall k :: 0 <= k < RecordSize && !(OffsetField <= k < OffsetField + 4) && k != Flags1Field ==> r[k] == rec[k]
    ensures duplex == Simplex || duplex == Split ==> r == rec
  {
    match duplex
    case DuplexOff => Splice(rec, OffsetField, U32Le(0))
    case Minus => SetField(rec, Flags1Field, 0, 1, 1)
    case Plus => SetField(rec, Flags1Field, 0, 1, 0)
    case _ => rec
  }

  /** `mem.name.ljust(16)[:16]` as bytes. */
  function NameField(name: string): (bs: seq<byte>)
    requires OneByteChars(name)
    ensures |bs| == NameSize
    ensures forall i :: 0 <= i < NameSize ==> bs[i] as int == if i < |name| then name[i] as int else ' ' as int
  {
    var padded := name + seq(NameSize, _ => ' ');
    BytesOfChars(padded[..NameSize])
  }

  function PowerCode(power: Power): (p: nat)
    ensures p < 4
  {
    match power
    case High => 2
    case Med => 1
    case Low => 0
  }

  /** Where an extra lives in the record: a byte and a bit field in it. */
  datatype Place = Place(at: nat, lo: nat, width: nat)

  /** BCLO is `flags2` bit 4 and frequency reverse bit 0; PTT-ID is bits
      1-2 of `dtmf_flags` and DTMF decode bit 0; the scrambler is the low
      nibble of its byte. */
  function PlaceOf(e: Extra): (p: Place)
    requires !e.OtherExtra?
    ensures p.at < RecordSize && p.lo + p.width <= 8
  {
    match e
    case Bclo(_) => Place(Flags2Field, 4, 1)
    case FreqReverse(_) => Place(Flags2Field, 0, 1)
    case PttId(_) => Place(DtmfFlagsField, 1, 2)
    case DtmfDecode(_) => Place(DtmfFlagsField, 0, 1)
    case Scrambler(_) => Place(ScramblerField, 0, 4)
  }

  /** Whether `get_memory` reads the value v of an extra's field as that
      extra. */
  predicate Shows(e: Extra, v: nat)
  {
    match e
    case Bclo(on) => (v == 1) == on
    case FreqReverse(on) => (v == 1) == on
    case PttId(c) => v < |PttidList| && PttidList[v] == c
    case DtmfDecode(on) => (v == 1) == on
    case Scrambler(c) => (if v < |ScramblerList| then ScramblerList[v] else ScramblerList[0]) == c
    case OtherExtra(_) => true
  }

  /** The value `set_memory` writes into an extra's field; PTT-ID and the
      scrambler raise ValueError on a choice missing from their lists. What
      is written reads back as the extra. */
  function ExtraCode(e: Extra): (r: Result<nat>)
    requires !e.OtherExtra?
    ensures r.Err? <==> (e.PttId? && e.choice !in PttidList) || (e.Scrambler? && e.choice !in ScramblerList)
    ensures r.Ok? ==> r.value < Pow2(PlaceOf(e).width) && Shows(e, r.value)
  {
    assert Pow2(1) == 2 && Pow2(2) == 4 && Pow2(4) == 16;
    match e
    case Bclo(on) => Ok(Bit(on))
    case FreqReverse(on) => Ok(Bit(on))
    case PttId(c) => IndexOf(PttidList, c)
    case DtmfDecode(on) => Ok(Bit(on))
    case Scrambler(c) => IndexOf(ScramblerList, c)
  }

  /** One pass of `set_memory`'s extras loop; settings it does not know are
      skipped. */
  function StoreExtra(rec: seq<byte>, e: Extra): (r: Result<seq<byte>>)
    requires |rec| == RecordSize
    ensures r.Ok? ==> |r.value| == RecordSize
    ensures r.Err? <==> !e.OtherExtra? && ExtraCode(e).Err?
  {
    if e.OtherExtra? then Ok(rec)
    else
      var p := PlaceOf(e);
      var v :- ExtraCode(e);
      Ok(SetField(rec, p.at, p.lo, p.width, v))
  }

  /** A record after an edit, and whether the edit got to the end. */
  datatype Edited = Edited(record: seq<byte>, outcome: Result<()>)

  /** An extra `set_memory` can store without raising. */
  predicate ExtraStorable(e: Extra)
  {
    e.OtherExtra? || ExtraCode(e).Ok?
  }

  /** The extras loop from extra k on; it stops at the first that raises,
      keeping the edits before it, so it runs to the end exactly when
      every extra from k on can be stored. */
  function ExtrasFrom(rec: seq<byte>, extra: seq<Extra>, k: nat): (e: Edited)
    requires |rec| == RecordSize
    ensures |e.record| == RecordSize
    ensures e.outcome.Ok? <==> forall i :: k <= i < |extra| ==> ExtraStorable(extra[i])
    ensures e.outcome.Err? ==> e.outcome.fault == NotInList
    decreases |extra| - k
  {
    if k >= |extra| then Edited(rec, Ok(()))
    else
      match StoreExtra(rec, extra[k])
      case Err(f) => Edited(rec, Err(f))
      case Ok(r) => ExtrasFrom(r, extra, k + 1)
  }

  /** What `set_memory` can store: the frequencies fit their 32-bit
      fields, and a name that is written has one-byte characters. */
  predicate Storable(m: Memory)
  {
    1 <= m.number <= Channels &&
    (m.empty || (m.freq / 10 < U32Limit && m.offset / 10 < U32Limit &&
                 (m.number > NamedChannels || OneByteChars(m.name))))
  }

  /** What `set_memory` leaves in a channel's record and name: the name is
      None where it is not written. */
  datatype Written = Written(record: seq<byte>, name: Option<seq<byte>>, outcome: Result<()>)

  const Blank: seq<byte> := Repeat(0xff, RecordSize)

  /** The first edits of `set_memory`, which cannot fail: mode,
      frequency, offset and duplex. */
  function StoreFields(rec: seq<byte>, m: Memory): (r: seq<byte>)
    requires |rec| == RecordSize && m.freq / 10 < U32Limit && m.offset / 10 < U32Limit
    ensures |r| == RecordSize
  {
    StoreDuplex(StoreFreq(StoreMode(rec, m.mode), m.freq, m.offset), m.duplex)
  }

  /** `_set_tone` on the record. */
  function StoreTone(rec: seq<byte>, tones: ToneSides): (r: Result<seq<byte>>)
    requires |rec| == RecordSize
    ensures r.Ok? ==> |r.value| == RecordSize
    ensures r.Ok? <==> EncodeSide(tones.tx).Ok? && EncodeSide(tones.rx).Ok?
    ensures r.Ok? ==> forall k :: 0 <= k < RecordSize && k != CodeFlagField && k != RxCodeField && k != TxCodeField ==> r.value[k] == rec[k]
  {
    var t :- SetToneBytes(rec[CodeFlagField], tones.tx, tones.rx);
    Ok(rec[CodeFlagField := t.codeFlag][RxCodeField := t.rxcode][TxCodeField := t.txcode])
  }

  /** `_mem.step = STEPS.index(step) << 1`. */
  function StoreStep(rec: seq<byte>, step: nat): (r: Result<seq<byte>>)
    requires |rec| == RecordSize
    ensures r.Ok? ==> |r.value| == RecordSize
    ensures r.Ok? <==> step in Steps
    ensures r.Err? ==> r.fault == NotInList
    ensures r.Ok? ==> forall k :: 0 <= k < RecordSize && k != StepField ==> r.value[k] == rec[k]
  {
    var i :- IndexOf(Steps, step);
    assert i < 7;
    Ok(rec[StepField := ByteOf(2 * i)])
  }

  /** What the rest of `set_memory` can store without raising: tones in
      their tables, a step in `STEPS`, and extras whose choices are in
      their lists. */
  predicate Encodable(m: Memory)
  {
    EncodeSide(m.tones.tx).Ok? && EncodeSide(m.tones.rx).Ok? && m.tuningStep in Steps &&
    forall i :: 0 <= i < |m.extra| ==> ExtraStorable(m.extra[i])
  }

  /** The rest of `set_memory` after the name: the tone, whose lookups may
      raise; then the step, whose lookup may raise; then the power and the
      extras. */
  function StoreCodes(rec: seq<byte>, m: Memory): (e: Edited)
    requires |rec| == RecordSize
    ensures |e.record| == RecordSize
    ensures e.outcome.Ok? <==> Encodable(m)
  {
    match StoreTone(rec, m.tones)
    case Err(f) => Edited(rec, Err(f))
    case Ok(r4) =>
      match StoreStep(r4, m.tuningStep)
      case Err(f) => Edited(r4, Err(f))
      case Ok(r5) => ExtrasFrom(SetField(r5, Flags2Field, 2, 2, PowerCode(m.power)), m.extra, 0)
  }

  /** `set_memory` on the channel's record `rec`. An empty channel gets
      16 bytes of 0xFF, and so does its name; otherwise the name is written
      between the first edits and the rest. */
  function EncodeMemory(rec: seq<byte>, m: Memory): (w: Written)
    requires |rec| == RecordSize && Storable(m)
    ensures |w.record| == RecordSize
    ensures w.name.Some? <==> m.number <= NamedChannels
    ensures w.name.Some? ==> |w.name.value| == NameSize
    ensures w.outcome.Ok? <==> m.empty || Encodable(m)
  {
    var named := m.number <= NamedChannels;
    if m.empty then Written(Blank, if named then Some(Blank) else None, Ok(()))
    else
      var e := StoreCodes(StoreFields(rec, m), m);
      Written(e.record, if named then Some(NameField(m.name)) else None, e.outcome)
  }

  /** The record and name bytes of channel `index` (0-based). */
  predicate InChannel(index: nat, i: nat)
    requires index < Channels
  {
    RecordAt(index) <= i < RecordAt(index) + RecordSize ||
    (index < NamedChannels && NameAt(index) <= i < NameAt(index) + NameSize)
  }

  /** The image after a channel's record, and its name when one was
      given, were stored: those bytes hold what was written, and no other
      byte changed. */
  function Patch(img: seq<byte>, index: nat, w: Written): (r: seq<byte>)
    requires |img| == MemSize && index < Channels && |w.record| == RecordSize
    requires w.name.Some? ==> index < NamedChannels && |w.name.value| == NameSize
    ensures |r| == MemSize
    ensures RecordOf(r, index) == w.record
    ensures w.name.Some? ==> NameBytes(r, index) == w.name.value
    ensures forall i {:trigger InChannel(index, i)} :: 0 <= i < MemSize && !InChannel(index, i) ==> r[i] == img[i]
  {
    RegionsInOrder();
    var r := Splice(img, RecordAt(index), w.record);
    match w.name
    case None => r
    case Some(n) => Splice(r, NameAt(index), n)
  }

  /** The image `set_memory` leaves, and whether it returned or raised. */
  datatype Saved = Saved(image: seq<byte>, outcome: Result<()>)

  /** `set_memory(mem)` on the image: the channel's record and, for the
      first 200 channels, its name. */
  function StoreMemory(img: seq<byte>, m: Memory): (s: Saved)
    requires |img| == MemSize && Storable(m)
    ensures |s.image| == MemSize
    ensures s.outcome.Ok? <==> m.empty || Encodable(m)
  {
    var w := EncodeMemory(RecordOf(img, m.number - 1), m);
    Saved(Patch(img, m.number - 1, w), w.outcome)
  }

  /** `set_memory` puts the record it encoded, and for the first 200
      channels the name, in the channel's place. */
  lemma {:induction false} StoreMemoryPlaces(img: seq<byte>, m: Memory)
    requires |img| == MemSize && Storable(m)
    ensures var w := EncodeMemory(RecordOf(img, m.number - 1), m);
      RecordOf(StoreMemory(img, m).image, m.number - 1) == w.record &&
      (m.number <= NamedChannels ==> NameBytes(StoreMemory(img, m).image, m.number - 1) == w.name.value)
  {
  }

  /** `set_memory` changes no byte outside the channel's record and name. */
  lemma {:induction false} StoreMemoryFrame(img: seq<byte>, m: Memory, i: nat)
    requires |img| == MemSize && Storable(m) && i < MemSize && !InChannel(m.number - 1, i)
    ensures StoreMemory(img, m).image[i] == img[i]
  {
  }

  // ---------------------------------------------------------------
  // What each edit touches, and what `get_memory` reads back

  /** What the extras loop leaves alone: every byte but `flags2`,
      `dtmf_flags` and `scrambler`, and the bandwidth and power bits of
      `flags2`. */
  predicate SameOutsideExtras(a: seq<byte>, b: seq<byte>)
    requires |a| == RecordSize && |b| == RecordSize
  {
    a[..Flags2Field] == b[..Flags2Field] && a[StepField] == b[StepField] &&
    Field(a[Flags2Field], 1, 1) == Field(b[Flags2Field], 1, 1) &&
    Field(a[Flags2Field], 2, 2) == Field(b[Flags2Field], 2, 2)
  }

  /** A write to a field of `flags2` outside the bandwidth and power bits,
      or to `dtmf_flags` or `scrambler`, is one the extras may make. */
  lemma {:induction false} SetFieldOutsideExtras(rec: seq<byte>, k: nat, lo: nat, width: nat, v: nat)
    requires |rec| == RecordSize && lo + width <= 8 && v < Pow2(width)
    requires k == DtmfFlagsField || k == ScramblerField || (k == Flags2Field && (lo + width <= 1 || 4 <= lo))
    ensures SameOutsideExtras(rec, SetField(rec, k, lo, width, v))
  {
    if k == Flags2Field {
      FieldKept(rec[k], lo, width, v, 1, 1);
      FieldKept(rec[k], lo, width, v, 2, 2);
    }
  }

  /** No extra reaches past its own bits. */
  lemma {:induction false} StoreExtraFootprint(rec: seq<byte>, e: Extra)
    requires |rec| == RecordSize && StoreExtra(rec, e).Ok?
    ensures SameOutsideExtras(rec, StoreExtra(rec, e).value)
  {
    if !e.OtherExtra? {
      var p := PlaceOf(e);
      SetFieldOutsideExtras(rec, p.at, p.lo, p.width, ExtraCode(e).value);
    }
  }

  lemma {:induction false} ExtrasFootprint(rec: seq<byte>, extra: seq<Extra>, k: nat)
    requires |rec| == RecordSize
    ensures SameOutsideExtras(rec, ExtrasFrom(rec, extra, k).record)
    decreases |extra| - k
  {
    if k < |extra| {
      match StoreExtra(rec, extra[k])
      case Err(_) =>
      case Ok(r) =>
        StoreExtraFootprint(rec, extra[k]);
        ExtrasFootprint(r, extra, k + 1);
    }
  }

  /** The record shows the extra: its field reads back as it. */
  predicate Reads(rec: seq<byte>, e: Extra)
    requires |rec| == RecordSize
  {
    e.OtherExtra? || (var p := PlaceOf(e); Shows(e, Field(rec[p.at], p.lo, p.width)))
  }

  /** Two extras of different kinds live in bits that do not overlap. */
  predicate Apart(e: Extra, f: Extra)
  {
    e.OtherExtra? || f.OtherExtra? || PlaceOf(e) != PlaceOf(f)
  }

  lemma {:induction false} StoreExtraReads(rec: seq<byte>, e: Extra)
    requires |rec| == RecordSize && StoreExtra(rec, e).Ok?
    ensures Reads(StoreExtra(rec, e).value, e)
  {
    if !e.OtherExtra? {
      var p := PlaceOf(e);
      FieldOfWithField(rec[p.at], p.lo, p.width, ExtraCode(e).value);
    }
  }

  lemma {:induction false} StoreExtraKeeps(rec: seq<byte>, e: Extra, f: Extra)
    requires |rec| == RecordSize && StoreExtra(rec, e).Ok?
    requires Apart(e, f) && Reads(rec, f)
    ensures Reads(StoreExtra(rec, e).value, f)
  {
    if !e.OtherExtra? && !f.OtherExtra? {
      var p, q := PlaceOf(e), PlaceOf(f);
      if p.at == q.at {
        FieldKept(rec[p.at], p.lo, p.width, ExtraCode(e).value, q.lo, q.width);
      }
    }
  }

  /** Extras of other kinds later in the loop leave an extra's field
      alone. */
  lemma {:induction false} ExtrasKeep(rec: seq<byte>, extra: seq<Extra>, k: nat, f: Extra)
    requires |rec| == RecordSize && Reads(rec, f)
    requires forall i :: k <= i < |extra| ==> Apart(extra[i], f)
    ensures Reads(ExtrasFrom(rec, extra, k).record, f)
    decreases |extra| - k
  {
    if k < |extra| {
      match StoreExtra(rec, extra[k])
      case Err(_) =>
      case Ok(r) =>
        StoreExtraKeeps(rec, extra[k], f);
        ExtrasKeep(r, extra, k + 1, f);
    }
  }

  /** When the loop runs to the end, every extra that is the last of its
      kind in the list shows in the record. */
  lemma {:induction false} ExtrasLastWins(rec: seq<byte>, extra: seq<Extra>, k: nat, j: nat)
    requires |rec| == RecordSize && k <= j < |extra|
    requires ExtrasFrom(rec, extra, k).outcome.Ok?
    requires forall i :: j < i < |extra| ==> Apart(extra[i], extra[j])
    ensures Reads(ExtrasFrom(rec, extra, k).record, extra[j])
    decreases |extra| - k
  {
    var r := StoreExtra(rec, extra[k]).value;
    if k == j {
      StoreExtraReads(rec, extra[k]);
      ExtrasKeep(r, extra, k + 1, extra[j]);
    } else {
      ExtrasLastWins(r, extra, k + 1, j);
    }
  }

  /** The extras as `get_memory` lists them: BCLO, frequency reverse,
      PTT-ID, DTMF decode and scrambler, once each and in that order. */
  predicate Complete(extra: seq<Extra>)
  {
    |extra| == 5 && extra[0].Bclo? && extra[1].FreqReverse? && extra[2].PttId? &&
    extra[3].DtmfDecode? && extra[4].Scrambler?
  }

  /** A record that shows each of a complete list of extras decodes to
      that list. */
  lemma {:induction false} ReadsAll(rec: seq<byte>, extra: seq<Extra>)
    requires |rec| == RecordSize && Complete(extra)
    requires Reads(rec, extra[0]) && Reads(rec, extra[1]) && Reads(rec, extra[2])
    requires Reads(rec, extra[3]) && Reads(rec, extra[4])
    ensures ExtrasOf(rec) == extra
  {
    var x := ExtrasOf(rec);
    assert x[0] == extra[0] && x[1] == extra[1];
    assert x[2] == extra[2];
    assert x[3] == extra[3];
    assert x[4] == extra[4];
  }

  /** The extras of a complete list are of five different kinds. */
  lemma {:induction false} CompleteApart(extra: seq<Extra>, j: nat)
    requires Complete(extra) && j < |extra|
    ensures forall i :: j < i < |extra| ==> Apart(extra[i], extra[j])
  {
  }

  /** Extras stored without error read back as they were given. */
  lemma {:induction false} ExtrasReadBack(rec: seq<byte>, extra: seq<Extra>)
    requires |rec| == RecordSize && Complete(extra)
    requires ExtrasFrom(rec, extra, 0).outcome.Ok?
    ensures ExtrasOf(ExtrasFrom(rec, extra, 0).record) == extra
  {
    for j := 0 to 5
      invariant forall i :: 0 <= i < j ==> Reads(ExtrasFrom(rec, extra, 0).record, extra[i])
    {
      CompleteApart(extra, j);
      ExtrasLastWins(rec, extra, 0, j);
    }
    ReadsAll(ExtrasFrom(rec, extra, 0).record, extra);
  }

  /** The mode reads back as it was stored. */
  lemma {:induction false} StoreModeReads(rec: seq<byte>, mode: Mode)
    requires |rec| == RecordSize
    ensures var r := StoreMode(rec, mode);
      ModeOf(r[Flags1Field], r[Flags2Field]) == mode && Flag(r[Flags1Field], 0) == Flag(rec[Flags1Field], 0)
  {
    var am := if mode == AM then 1 else 0;
    var nfm := if mode == NFM then 1 else 0;
    var r1 := SetField(rec, Flags1Field, 4, 1, am);
    var r := SetField(r1, Flags2Field, 1, 1, nfm);
    assert r[Flags1Field] == WithField(rec[Flags1Field], 4, 1, am);
    assert r[Flags2Field] == WithField(rec[Flags2Field], 1, 1, nfm);
    FieldOfWithField(rec[Flags1Field], 4, 1, am);
    FieldOfWithField(rec[Flags2Field], 1, 1, nfm);
    FieldKept(rec[Flags1Field], 4, 1, am, 0, 1);
    assert Flag(r[Flags1Field], 4) == (mode == AM);
    assert Flag(r[Flags2Field], 1) == (mode == NFM);
  }

  /** Frequency and offset read back in units of 10 Hz; the bytes past
      them are untouched. */
  lemma {:induction false} StoreFreqReads(rec: seq<byte>, freq: nat, offset: nat)
    requires |rec| == RecordSize && freq / 10 < U32Limit && offset / 10 < U32Limit
    ensures var r := StoreFreq(rec, freq, offset);
      U32At(r, FreqField) == freq / 10 && U32At(r, OffsetField) == offset / 10 &&
      r[RxCodeField..] == rec[RxCodeField..]
  {
    var r1 := Splice(rec, FreqField, U32Le(freq / 10));
    U32AtSplice(rec, FreqField, freq / 10);
    U32AtSplice(r1, OffsetField, offset / 10);
    var r := StoreFreq(rec, freq, offset);
    assert r[..4] == r1[..4];
  }

  /** "off" reads back as no offset and "-" and "+" as the direction of the
      shift; the frequency and the mode bit stay as they were. */
  lemma {:induction false} StoreDuplexReads(rec: seq<byte>, duplex: Duplex)
    requires |rec| == RecordSize
    ensures var r := StoreDuplex(rec, duplex);
      U32At(r, FreqField) == U32At(rec, FreqField) &&
      U32At(r, OffsetField) == (if duplex == DuplexOff then 0 else U32At(rec, OffsetField)) &&
      Flag(r[Flags1Field], 4) == Flag(rec[Flags1Field], 4) && r[Flags2Field] == rec[Flags2Field] &&
      (duplex == Minus || duplex == Plus ==> Flag(r[Flags1Field], 0) == (duplex == Minus))
  {
    var r := StoreDuplex(rec, duplex);
    match duplex
    case DuplexOff =>
      U32AtSplice(rec, OffsetField, 0);
      assert r[..4] == rec[..4];
    case Minus =>
      FieldOfWithField(rec[Flags1Field], 0, 1, 1);
      FieldKept(rec[Flags1Field], 0, 1, 1, 4, 1);
    case Plus =>
      FieldOfWithField(rec[Flags1Field], 0, 1, 0);
      FieldKept(rec[Flags1Field], 0, 1, 0, 4, 1);
    case _ =>
  }

  /** The first edits read back: the frequency and offset in units of
      10 Hz, the mode, and the direction of a "+" or "-" shift. */
  lemma {:induction false} StoreFieldsReadBack(rec: seq<byte>, m: Memory)
    requires |rec| == RecordSize && m.freq / 10 < U32Limit && m.offset / 10 < U32Limit
    ensures var r := StoreFields(rec, m);
      U32At(r, FreqField) == m.freq / 10 &&
      U32At(r, OffsetField) == (if m.duplex == DuplexOff then 0 else m.offset / 10) &&
      ModeOf(r[Flags1Field], r[Flags2Field]) == m.mode &&
      (m.duplex == Minus || m.duplex == Plus ==> Flag(r[Flags1Field], 0) == (m.duplex == Minus)) &&
      (m.duplex == Simplex || m.duplex == Split ==> Flag(r[Flags1Field], 0) == Flag(rec[Flags1Field], 0))
  {
    var r1 := StoreMode(rec, m.mode);
    var r2 := StoreFreq(r1, m.freq, m.offset);
    StoreModeReads(rec, m.mode);
    StoreFreqReads(r1, m.freq, m.offset);
    assert r2[Flags1Field] == r1[Flags1Field] && r2[Flags2Field] == r1[Flags2Field];
    StoreDuplexReads(r2, m.duplex);
  }

  /** `_set_tone` reads back as `Stored` and writes bytes 8 to 10 only. */
  lemma {:induction false} StoreToneReads(rec: seq<byte>, tones: ToneSides)
    requires |rec| == RecordSize && StoreTone(rec, tones).Ok?
    ensures var r := StoreTone(rec, tones).value;
      r[..RxCodeField] == rec[..RxCodeField] && r[Flags1Field..] == rec[Flags1Field..] &&
      GetTone(r[CodeFlagField], r[RxCodeField], r[TxCodeField]) == ToneSides(Stored(tones.tx), Stored(tones.rx))
  {
    var t := SetToneBytes(rec[CodeFlagField], tones.tx, tones.rx).value;
    var r := rec[CodeFlagField := t.codeFlag][RxCodeField := t.rxcode][TxCodeField := t.txcode];
    assert StoreTone(rec, tones).value == r;
    assert r[..RxCodeField] == rec[..RxCodeField];
    assert r[Flags1Field..] == rec[Flags1Field..];
    ToneRoundTrip(rec[CodeFlagField], tones.tx, tones.rx);
  }

  /** The step reads back and only the step byte changes. */
  lemma {:induction false} StoreStepReads(rec: seq<byte>, step: nat)
    requires |rec| == RecordSize && StoreStep(rec, step).Ok?
    ensures var r := StoreStep(rec, step).value;
      StepOf(r[StepField]) == step && r == rec[StepField := r[StepField]]
  {
    var i := IndexOf(Steps, step).value;
    ShiftedField(i);
  }

  /** The power reads back and the bandwidth bit stays as it was. */
  lemma {:induction false} StorePowerReads(rec: seq<byte>, power: Power)
    requires |rec| == RecordSize
    ensures var r := SetField(rec, Flags2Field, 2, 2, PowerCode(power));
      PowerOf(r[Flags2Field]) == power && Field(r[Flags2Field], 1, 1) == Field(rec[Flags2Field], 1, 1)
  {
    assert Pow2(2) == 4;
    FieldOfWithField(rec[Flags2Field], 2, 2, PowerCode(power));
    FieldKept(rec[Flags2Field], 2, 2, PowerCode(power), 1, 1);
  }

  /** The record before the step, power and extras are stored. */
  function AfterStep(rec: seq<byte>, m: Memory): (r: seq<byte>)
    requires |rec| == RecordSize && StoreStep(rec, m.tuningStep).Ok?
    ensures |r| == RecordSize
  {
    SetField(StoreStep(rec, m.tuningStep).value, Flags2Field, 2, 2, PowerCode(m.power))
  }

  /** The step, the power and the extras leave the bytes before `flags2`
      and the bandwidth bit as they were. */
  lemma {:induction false} AfterStepKeeps(rec: seq<byte>, m: Memory)
    requires |rec| == RecordSize && StoreStep(rec, m.tuningStep).Ok?
    ensures var r := ExtrasFrom(AfterStep(rec, m), m.extra, 0).record;
      r[..Flags2Field] == rec[..Flags2Field] && Field(r[Flags2Field], 1, 1) == Field(rec[Flags2Field], 1, 1)
  {
    var r5 := StoreStep(rec, m.tuningStep).value;
    StoreStepReads(rec, m.tuningStep);
    StorePowerReads(r5, m.power);
    ExtrasFootprint(AfterStep(rec, m), m.extra, 0);
  }

  /** The step, the power and, when the loop runs to the end, the extras
      read back. */
  lemma {:induction false} AfterStepShows(rec: seq<byte>, m: Memory)
    requires |rec| == RecordSize && StoreStep(rec, m.tuningStep).Ok?
    ensures var r := ExtrasFrom(AfterStep(rec, m), m.extra, 0);
      StepOf(r.record[StepField]) == m.tuningStep && PowerOf(r.record[Flags2Field]) == m.power &&
      (Complete(m.extra) && r.outcome.Ok? ==> ExtrasOf(r.record) == m.extra)
  {
    var r5 := StoreStep(rec, m.tuningStep).value;
    StoreStepReads(rec, m.tuningStep);
    StorePowerReads(r5, m.power);
    var r6 := AfterStep(rec, m);
    ExtrasFootprint(r6, m.extra, 0);
    if Complete(m.extra) && ExtrasFrom(r6, m.extra, 0).outcome.Ok? {
      ExtrasReadBack(r6, m.extra);
    }
  }

  /** When `set_memory` runs to the end, the record is the tone, the step,
      the power and the extras stored in turn. */
  lemma {:induction false} StoreCodesOk(rec: seq<byte>, m: Memory)
    requires |rec| == RecordSize && StoreCodes(rec, m).outcome.Ok?
    ensures StoreTone(rec, m.tones).Ok? && StoreStep(StoreTone(rec, m.tones).value, m.tuningStep).Ok?
    ensures StoreCodes(rec, m) == ExtrasFrom(AfterStep(StoreTone(rec, m.tones).value, m), m.extra, 0)
  {
  }

  /** The edits after the name leave the frequency, the offset, `flags1`
      and the bandwidth bit as they were. */
  lemma {:induction false} StoreCodesKeeps(rec: seq<byte>, m: Memory)
    requires |rec| == RecordSize && StoreCodes(rec, m).outcome.Ok?
    ensures var r := StoreCodes(rec, m).record;
      r[..RxCodeField] == rec[..RxCodeField] && r[Flags1Field] == rec[Flags1Field] &&
      Field(r[Flags2Field], 1, 1) == Field(rec[Flags2Field], 1, 1)
  {
    StoreCodesOk(rec, m);
    var r4 := StoreTone(rec, m.tones).value;
    StoreToneReads(rec, m.tones);
    AfterStepKeeps(r4, m);
    var r := StoreCodes(rec, m).record;
    assert r[..RxCodeField] == r[..Flags2Field][..RxCodeField];
    assert r4[..RxCodeField] == r4[..Flags2Field][..RxCodeField];
    assert r[Flags1Field] == r[..Flags2Field][Flags1Field] == r4[..Flags2Field][Flags1Field];
    assert r4[Flags1Field] == r4[Flags1Field..][0] == rec[Flags1Field..][0];
  }

  /** The edits after the name read back as given: the tones as `Stored`,
      the step, the power, and a complete list of extras. */
  lemma {:induction false} StoreCodesReadBack(rec: seq<byte>, m: Memory)
    requires |rec| == RecordSize && StoreCodes(rec, m).outcome.Ok?
    ensures var r := StoreCodes(rec, m).record;
      GetTone(r[CodeFlagField], r[RxCodeField], r[TxCodeField]) == ToneSides(Stored(m.tones.tx), Stored(m.tones.rx)) &&
      StepOf(r[StepField]) == m.tuningStep && PowerOf(r[Flags2Field]) == m.power &&
      (Complete(m.extra) ==> ExtrasOf(r) == m.extra)
  {
    StoreCodesOk(rec, m);
    var r4 := StoreTone(rec, m.tones).value;
    StoreToneReads(rec, m.tones);
    AfterStepKeeps(r4, m);
    AfterStepShows(r4, m);
    var r := StoreCodes(rec, m).record;
    assert r[CodeFlagField] == r[..Flags2Field][CodeFlagField] == r4[..Flags2Field][CodeFlagField];
    assert r[RxCodeField] == r[..Flags2Field][RxCodeField] == r4[..Flags2Field][RxCodeField];
    assert r[TxCodeField] == r[..Flags2Field][TxCodeField] == r4[..Flags2Field][TxCodeField];
  }

  /** A shift `set_memory` keeps: "-", "+" and "off" are stored, and ""
      and "split" leave the direction bit alone, which is only read when
      there is an offset. */
  predicate DuplexKept(m: Memory)
  {
    m.duplex == Minus || m.duplex == Plus || m.duplex == DuplexOff || m.offset / 10 == 0
  }

  /** What `get_memory` shows for a channel `set_memory` stored without
      error, given the name it reads: the frequencies rounded down to
      10 Hz, no offset for "off", a shift without an offset as simplex,
      a stored frequency of 0 or 0xFFFFFFFF as an empty channel, the tones
      as `Stored`, and the rest as it was given. */
  function Normalized(m: Memory, name: string): Memory
  {
    var freq := m.freq / 10 * 10;
    var offset := if m.duplex == DuplexOff then 0 else m.offset / 10 * 10;
    Memory(m.number, EmptyFreq(m.freq / 10), name, freq, offset,
      if offset == 0 then Simplex else m.duplex,
      ToneSides(Stored(m.tones.tx), Stored(m.tones.rx)), m.mode, m.tuningStep, m.power, m.extra)
  }

  /** Records that agree on the frequencies, `flags1` and the bandwidth
      bit agree on what `get_memory` makes of them. */
  lemma {:induction false} KeptFields(a: seq<byte>, b: seq<byte>)
    requires |a| == RecordSize && |b| == RecordSize
    requires a[..RxCodeField] == b[..RxCodeField] && a[Flags1Field] == b[Flags1Field]
    requires Field(a[Flags2Field], 1, 1) == Field(b[Flags2Field], 1, 1)
    ensures U32At(a, FreqField) == U32At(b, FreqField) && U32At(a, OffsetField) == U32At(b, OffsetField)
    ensures ModeOf(a[Flags1Field], a[Flags2Field]) == ModeOf(b[Flags1Field], b[Flags2Field])
  {
    assert forall k :: 0 <= k < RxCodeField ==> a[k] == a[..RxCodeField][k] == b[k];
  }

  /** A record whose fields read back as m's decodes to `Normalized`. */
  lemma {:induction false} DecodeStored(r: seq<byte>, m: Memory, name: string)
    requires |r| == RecordSize && DuplexKept(m)
    requires U32At(r, FreqField) == m.freq / 10
    requires U32At(r, OffsetField) == (if m.duplex == DuplexOff then 0 else m.offset / 10)
    requires m.duplex == Minus || m.duplex == Plus ==> Flag(r[Flags1Field], 0) == (m.duplex == Minus)
    requires ModeOf(r[Flags1Field], r[Flags2Field]) == m.mode
    requires GetTone(r[CodeFlagField], r[RxCodeField], r[TxCodeField]) == ToneSides(Stored(m.tones.tx), Stored(m.tones.rx))
    requires StepOf(r[StepField]) == m.tuningStep && PowerOf(r[Flags2Field]) == m.power
    requires ExtrasOf(r) == m.extra
    ensures DecodeRecord(m.number, name, r) == Normalized(m, name)
  {
  }

  /** `get_memory` reads back the record `set_memory` wrote, when it ran to
      the end, kept the shift, and was given the extras `get_memory` lists. */
  lemma {:induction false} EncodeDecode(rec: seq<byte>, m: Memory, name: string)
    requires |rec| == RecordSize && Storable(m) && !m.empty
    requires Encodable(m) && DuplexKept(m) && Complete(m.extra)
    ensures DecodeRecord(m.number, name, EncodeMemory(rec, m).record) == Normalized(m, name)
  {
    var r3 := StoreFields(rec, m);
    StoreFieldsReadBack(rec, m);
    var r := StoreCodes(r3, m).record;
    assert EncodeMemory(rec, m).record == r;
    StoreCodesKeeps(r3, m);
    StoreCodesReadBack(r3, m);
    KeptFields(r, r3);
    DecodeStored(r, m, name);
  }

  /** A record whose fields read back as m's, where m is a "" or "split"
      shift with an offset, decodes to `Normalized` but for the shift:
      that is "-" or "+" as bit 0 of `flags1` says, and the bit is the one
      the record had before. */
  lemma {:induction false} DecodeShifted(r: seq<byte>, m: Memory, name: string, flags1: byte)
    requires |r| == RecordSize && !DuplexKept(m)
    requires U32At(r, FreqField) == m.freq / 10 && U32At(r, OffsetField) == m.offset / 10
    requires Flag(r[Flags1Field], 0) == Flag(flags1, 0)
    requires ModeOf(r[Flags1Field], r[Flags2Field]) == m.mode
    requires GetTone(r[CodeFlagField], r[RxCodeField], r[TxCodeField]) == ToneSides(Stored(m.tones.tx), Stored(m.tones.rx))
    requires StepOf(r[StepField]) == m.tuningStep && PowerOf(r[Flags2Field]) == m.power
    requires ExtrasOf(r) == m.extra
    ensures DecodeRecord(m.number, name, r) == Normalized(m, name).(duplex := DuplexOf(m.offset / 10 * 10, flags1))
  {
  }

  /** `get_memory` reads back a "" or "split" shift that was stored with
      an offset as "-" or "+", according to the direction bit the record
      held before; `set_memory` does not write that bit for either. */
  lemma {:induction false} EncodeDecodeShifted(rec: seq<byte>, m: Memory, name: string)
    requires |rec| == RecordSize && Storable(m) && !m.empty
    requires Encodable(m) && !DuplexKept(m) && Complete(m.extra)
    ensures DecodeRecord(m.number, name, EncodeMemory(rec, m).record) ==
      Normalized(m, name).(duplex := DuplexOf(m.offset / 10 * 10, rec[Flags1Field]))
  {
    var r3 := StoreFields(rec, m);
    StoreFieldsReadBack(rec, m);
    var r := StoreCodes(r3, m).record;
    assert EncodeMemory(rec, m).record == r;
    StoreCodesKeeps(r3, m);
    StoreCodesReadBack(r3, m);
    KeptFields(r, r3);
    DecodeShifted(r, m, name, rec[Flags1Field]);
  }

  // ---------------------------------------------------------------
  // Names

  /** A name none of whose characters ends a stored name. */
  predicate PlainName(name: string)
  {
    forall i :: 0 <= i < |name| ==> name[i] as int != 0x00 && name[i] as int != 0xff
  }

  /** n spaces. */
  function Spaces(n: nat): (s: string)
    ensures |s| == n && forall i :: 0 <= i < n ==> s[i] == ' '
  {
    seq(n, _ => ' ')
  }

  /** Trailing spaces make no difference to `rstrip()`. */
  lemma {:induction false} RStripSpaces(s: string, n: nat)
    ensures RStrip(s + Spaces(n)) == RStrip(s)
  {
    if n > 0 {
      var t := s + Spaces(n);
      assert t[..|t| - 1] == s + Spaces(n - 1);
      assert t[|t| - 1] == ' ';
      RStripSpaces(s, n - 1);
    } else {
      assert s + Spaces(0) == s;
    }
  }

  /** `rstrip()` of a stripped string changes nothing. */
  lemma RStripTwice(s: string)
    ensures RStrip(RStrip(s)) == RStrip(s)
  {
  }

  /** The bytes of a name with no terminator in them are read back whole. */
  lemma {:induction false} NameRunWhole(bs: seq<byte>)
    requires forall i :: 0 <= i < |bs| ==> !Terminator(bs[i])
    ensures NameRun(bs) == Chars(bs)
  {
    NameRunShape(bs);
  }

  /** What `get_memory` shows of a name `set_memory` wrote: its first 16
      characters, without trailing whitespace. */
  lemma {:induction false} NameRoundTrip(name: string)
    requires OneByteChars(name) && PlainName(name)
    ensures RStrip(NameRun(NameField(name))) == RStrip(Take(name, NameSize))
  {
    var padded := (name + Spaces(NameSize))[..NameSize];
    var bs := NameField(name);
    assert name + seq(NameSize, _ => ' ') == name + Spaces(NameSize);
    assert forall i :: 0 <= i < |bs| ==> bs[i] as int == padded[i] as int;
    NameRunWhole(bs);
    assert Chars(bs) == padded;
    var t := Take(name, NameSize);
    assert padded == t + Spaces(NameSize - |t|);
    RStripSpaces(t, NameSize - |t|);
  }

  /** A name as `get_memory` shows it is plain, one byte per character,
      at most 16 long and already stripped, so writing it back and reading
      it again gives the same name. */
  lemma {:induction false} NameStable(bs: seq<byte>)
    requires |bs| == NameSize
    ensures var name := RStrip(NameRun(bs));
      OneByteChars(name) && PlainName(name) && RStrip(NameRun(NameField(name))) == name
  {
    var run := NameRun(bs);
    var name := RStrip(run);
    NameRunShape(bs);
    assert forall i :: 0 <= i < |name| ==> name[i] == run[i];
    NameRoundTrip(name);
    RStripTwice(run);
  }

  // ---------------------------------------------------------------
  // `get_memory` after `set_memory`, and the other way round

  /** The name `get_memory` shows for a channel `set_memory` stored. */
  function StoredName(m: Memory): string
    requires Storable(m) && !m.empty
  {
    if m.number > NamedChannels then VfoName(m.number - 1) else RStrip(NameRun(NameField(m.name)))
  }

  /** The name `get_memory` shows for a channel whose name bytes are the
      ones `set_memory` writes for `m`. */
  lemma {:induction false} NameShown(img: seq<byte>, m: Memory)
    requires |img| == MemSize && Storable(m) && !m.empty
    requires m.number <= NamedChannels ==> NameBytes(img, m.number - 1) == NameField(m.name)
    ensures ChannelName(img, m.number - 1) == StoredName(m)
  {
  }

  /** The name `set_memory` writes is the name padded or cut to 16
      characters. */
  lemma {:induction false} EncodedName(rec: seq<byte>, m: Memory)
    requires |rec| == RecordSize && Storable(m) && !m.empty && m.number <= NamedChannels
    ensures EncodeMemory(rec, m).name == Some(NameField(m.name))
  {
  }

  /** `get_memory` on a channel holding `rec` and showing `name` decodes
      `rec` under that name. */
  lemma {:induction false} GetAt(img: seq<byte>, number: nat, rec: seq<byte>, name: string)
    requires |img| == MemSize && 1 <= number <= Channels
    requires RecordOf(img, number - 1) == rec && ChannelName(img, number - 1) == name
    ensures GetMemory(img, number) == DecodeRecord(number, name, rec)
  {
  }

  /** After `set_memory`, the channel holds the record it encoded and
      shows the name it stored. */
  lemma {:induction false} StoredRecordName(img: seq<byte>, m: Memory)
    requires |img| == MemSize && Storable(m) && !m.empty
    ensures var r := StoreMemory(img, m).image;
      RecordOf(r, m.number - 1) == EncodeMemory(RecordOf(img, m.number - 1), m).record &&
      ChannelName(r, m.number - 1) == StoredName(m)
  {
    StoreMemoryPlaces(img, m);
    if m.number <= NamedChannels {
      EncodedName(RecordOf(img, m.number - 1), m);
    }
    NameShown(StoreMemory(img, m).image, m);
  }

  /** `get_memory` after `set_memory` decodes the record `set_memory`
      encoded, under the name it stored. */
  lemma {:induction false} GetStored(img: seq<byte>, m: Memory)
    requires |img| == MemSize && Storable(m) && !m.empty
    ensures GetMemory(StoreMemory(img, m).image, m.number) ==
      DecodeRecord(m.number, StoredName(m), EncodeMemory(RecordOf(img, m.number - 1), m).record)
  {
    StoredRecordName(img, m);
    GetAt(StoreMemory(img, m).image, m.number, EncodeMemory(RecordOf(img, m.number - 1), m).record, StoredName(m));
  }

  /** `get_memory` after `set_memory` shows the channel as `Normalized`,
      when the edits run to the end, the shift is kept, and the extras are
      the ones `get_memory` lists. */
  lemma {:induction false} SetGetMemory(img: seq<byte>, m: Memory)
    requires |img| == MemSize && Storable(m) && !m.empty
    requires Encodable(m) && DuplexKept(m) && Complete(m.extra)
    ensures GetMemory(StoreMemory(img, m).image, m.number) == Normalized(m, StoredName(m))
  {
    GetStored(img, m);
    EncodeDecode(RecordOf(img, m.number - 1), m, StoredName(m));
  }

  /** `get_memory` after `set_memory` of a "" or "split" shift with an
      offset shows the channel as `Normalized`, but with the shift "-" or
      "+" as the channel's direction bit was before. */
  lemma {:induction false} SetGetShifted(img: seq<byte>, m: Memory)
    requires |img| == MemSize && Storable(m) && !m.empty
    requires Encodable(m) && !DuplexKept(m) && Complete(m.extra)
    ensures GetMemory(StoreMemory(img, m).image, m.number) ==
      Normalized(m, StoredName(m)).(duplex := DuplexOf(m.offset / 10 * 10, RecordOf(img, m.number - 1)[Flags1Field]))
  {
    GetStored(img, m);
    EncodeDecodeShifted(RecordOf(img, m.number - 1), m, StoredName(m));
  }

  /** Both tone codes of a record are read without a fallback. */
  predicate TonesReadable(rec: seq<byte>)
    requires |rec| == RecordSize
  {
    Readable(Field(rec[CodeFlagField], 4, 2), rec[TxCodeField]) &&
    Readable(Field(rec[CodeFlagField], 0, 2), rec[RxCodeField])
  }

  /** Every PTT-ID choice `get_memory` shows can be stored again. */
  lemma {:induction false} PttIdStorable(p: nat)
    requires p < |PttidList|
    ensures ExtraStorable(PttId(PttidList[p]))
  {
    assert IndexOf(PttidList, PttidList[p]).Ok?;
  }

  /** Every scrambler choice `get_memory` shows can be stored again. */
  lemma {:induction false} ScramblerStorable(b: byte)
    ensures ExtraStorable(Scrambler(ScramblerOf(b)))
  {
    var enc := Field(b, 0, 4);
    var c := if enc < |ScramblerList| then enc else 0;
    assert ScramblerOf(b) == ScramblerList[c];
    assert IndexOf(ScramblerList, ScramblerList[c]).Ok?;
  }

  /** The on/off extras `get_memory` lists can be stored again. */
  lemma {:induction false} SwitchesStable(rec: seq<byte>)
    requires |rec| == RecordSize
    ensures ExtraStorable(ExtrasOf(rec)[0]) && ExtraStorable(ExtrasOf(rec)[1]) && ExtraStorable(ExtrasOf(rec)[3])
  {
  }

  /** The PTT-ID `get_memory` lists can be stored again. */
  lemma {:induction false} PttIdStable(rec: seq<byte>)
    requires |rec| == RecordSize
    ensures ExtraStorable(ExtrasOf(rec)[2])
  {
    assert Pow2(2) == 4;
    PttIdStorable(Field(rec[DtmfFlagsField], 1, 2));
  }

  /** The scrambler `get_memory` lists can be stored again. */
  lemma {:induction false} ScramblerStable(rec: seq<byte>)
    requires |rec| == RecordSize
    ensures ExtraStorable(ExtrasOf(rec)[4])
  {
    ScramblerStorable(rec[ScramblerField]);
  }

  /** The extras `get_memory` lists can all be stored again. */
  lemma {:induction false} ExtrasStable(rec: seq<byte>)
    requires |rec| == RecordSize
    ensures var x := ExtrasOf(rec);
      Complete(x) && forall i :: 0 <= i < |x| ==> ExtraStorable(x[i])
  {
    SwitchesStable(rec);
    PttIdStable(rec);
    ScramblerStable(rec);
    FiveStorable(ExtrasOf(rec));
  }

  lemma {:induction false} FiveStorable(x: seq<Extra>)
    requires |x| == 5 && ExtraStorable(x[0]) && ExtraStorable(x[1]) && ExtraStorable(x[2])
    requires ExtraStorable(x[3]) && ExtraStorable(x[4])
    ensures forall i :: 0 <= i < |x| ==> ExtraStorable(x[i])
  {
    AllFive(x, ExtraStorable);
  }

  /** What holds of each of five elements holds of all of them. */
  lemma {:induction false} AllFive<T>(x: seq<T>, P: T -> bool)
    requires |x| == 5 && P(x[0]) && P(x[1]) && P(x[2]) && P(x[3]) && P(x[4])
    ensures forall i :: 0 <= i < |x| ==> P(x[i])
  {
    forall i | 0 <= i < |x|
      ensures P(x[i])
    {
      if i == 0 {
      } else if i == 1 {
      } else if i == 2 {
      } else if i == 3 {
      } else {
      }
    }
  }

  /** A channel whose fields are as `get_memory` makes them is its own
      normal form. */
  lemma {:induction false} NormalizedSelf(m: Memory, name: string)
    requires m.name == name && m.freq % 10 == 0 && m.offset % 10 == 0
    requires m.duplex != DuplexOff && (m.offset == 0 <==> m.duplex == Simplex)
    requires m.empty == EmptyFreq(m.freq / 10)
    requires Stored(m.tones.tx) == m.tones.tx && Stored(m.tones.rx) == m.tones.rx
    ensures Normalized(m, name) == m
  {
  }

  /** The frequencies `get_memory` reads are whole multiples of 10 Hz
      that fit their 32-bit fields again. */
  lemma {:induction false} RecordFits(number: nat, name: string, rec: seq<byte>)
    requires |rec| == RecordSize
    ensures var m := DecodeRecord(number, name, rec);
      m.freq / 10 < U32Limit && m.offset / 10 < U32Limit && m.freq % 10 == 0 && m.offset % 10 == 0
  {
    var freq := U32At(rec, FreqField);
    var offset := U32At(rec, OffsetField);
    assert freq * 10 / 10 == freq && freq * 10 % 10 == 0;
    assert offset * 10 / 10 == offset && offset * 10 % 10 == 0;
  }

  /** A record `get_memory` decodes without a tone fallback gives a
      channel whose tones, step and extras `set_memory` can all store. */
  lemma {:induction false} RecordEncodable(number: nat, name: string, rec: seq<byte>)
    requires |rec| == RecordSize && TonesReadable(rec)
    ensures var m := DecodeRecord(number, name, rec);
      Encodable(m) && Complete(m.extra) && Stored(m.tones.tx) == m.tones.tx && Stored(m.tones.rx) == m.tones.rx
  {
    ToneStable(rec[CodeFlagField], rec[RxCodeField], rec[TxCodeField]);
    ExtrasStable(rec);
    StepListed(rec[StepField]);
  }

  /** Every step `get_memory` reads is in `STEPS`. */
  lemma {:induction false} StepListed(step: byte)
    ensures StepOf(step) in Steps
  {
    var t := Field(step, 1, 3);
    if t < |Steps| {
      assert Steps[t] in Steps;
    } else {
      assert Steps[0] == 250;
    }
  }

  /** The shift `get_memory` reads is simplex exactly when there is no
      offset, and never "off" or "split". */
  lemma {:induction false} RecordShift(number: nat, name: string, rec: seq<byte>)
    requires |rec| == RecordSize
    ensures var m := DecodeRecord(number, name, rec);
      m.duplex != DuplexOff && (m.offset == 0 <==> m.duplex == Simplex) && DuplexKept(m)
  {
  }

  /** A record `get_memory` decodes without a tone fallback gives a
      channel `set_memory` stores in full, and whose normal form is the
      channel itself. */
  lemma {:induction false} RecordStable(number: nat, name: string, rec: seq<byte>)
    requires |rec| == RecordSize && TonesReadable(rec)
    ensures var m := DecodeRecord(number, name, rec);
      m.freq / 10 < U32Limit && m.offset / 10 < U32Limit &&
      Encodable(m) && DuplexKept(m) && Complete(m.extra) && Normalized(m, name) == m
  {
    RecordFits(number, name, rec);
    RecordEncodable(number, name, rec);
    RecordShift(number, name, rec);
    NormalizedSelf(DecodeRecord(number, name, rec), name);
  }

  /** A channel `get_memory` shows as in use can be given back to
      `set_memory`, and the name `get_memory` would show for it after that
      is the name it has. */
  lemma {:induction false} GetStorable(img: seq<byte>, number: nat)
    requires |img| == MemSize && 1 <= number <= Channels && !GetMemory(img, number).empty
    ensures var m := GetMemory(img, number); Storable(m) && StoredName(m) == m.name
  {
    var m := GetMemory(img, number);
    GetNumberName(img, number);
    GetFits(img, number);
    if number <= NamedChannels {
      ChannelNameStable(img, number - 1);
    } else {
      assert m.name == VfoName(number - 1);
    }
    ShownStorable(m);
  }

  /** `get_memory` shows the channel's number and stored name. */
  lemma {:induction false} GetNumberName(img: seq<byte>, number: nat)
    requires |img| == MemSize && 1 <= number <= Channels
    ensures GetMemory(img, number).number == number && GetMemory(img, number).name == ChannelName(img, number - 1)
  {
  }

  /** The frequencies `get_memory` shows fit their 32-bit fields again. */
  lemma {:induction false} GetFits(img: seq<byte>, number: nat)
    requires |img| == MemSize && 1 <= number <= Channels
    ensures GetMemory(img, number).freq / 10 < U32Limit && GetMemory(img, number).offset / 10 < U32Limit
  {
    RecordFits(number, ChannelName(img, number - 1), RecordOf(img, number - 1));
  }

  /** A channel in use whose frequencies fit, and whose name shows again
      once stored, can be given back to `set_memory`. */
  lemma {:induction false} ShownStorable(m: Memory)
    requires 1 <= m.number <= Channels && !m.empty && m.freq / 10 < U32Limit && m.offset / 10 < U32Limit
    requires m.number <= NamedChannels ==> OneByteChars(m.name) && RStrip(NameRun(NameField(m.name))) == m.name
    requires m.number > NamedChannels ==> m.name == VfoName(m.number - 1)
    ensures Storable(m) && StoredName(m) == m.name
  {
  }

  /** A name `get_memory` shows for one of the first 200 channels has
      one-byte characters, and storing it shows it again. */
  lemma {:induction false} ChannelNameStable(img: seq<byte>, index: nat)
    requires |img| == MemSize && index < NamedChannels
    ensures var name := ChannelName(img, index);
      OneByteChars(name) && RStrip(NameRun(NameField(name))) == name
  {
    NameStable(NameBytes(img, index));
  }

  /** `set_memory` of what `get_memory` shows for a channel in use, when
      neither tone code fell back, runs to the end, and `get_memory` then
      shows the same channel. */
  lemma {:induction false} GetSetMemory(img: seq<byte>, number: nat)
    requires |img| == MemSize && 1 <= number <= Channels && !GetMemory(img, number).empty
    requires TonesReadable(RecordOf(img, number - 1))
    ensures var m := GetMemory(img, number);
      Storable(m) && StoreMemory(img, m).outcome.Ok? && GetMemory(StoreMemory(img, m).image, number) == m
  {
    var m := GetMemory(img, number);
    GetStorable(img, number);
    assert m == DecodeRecord(number, m.name, RecordOf(img, number - 1));
    RecordStable(number, m.name, RecordOf(img, number - 1));
    SetGetMemory(img, m);
  }

  /** A record of 0xFF bytes decodes as an empty channel. */
  lemma {:induction false} BlankIsEmpty(number: nat, name: string)
    ensures DecodeRecord(number, name, Blank).empty
  {
    U32Sentinels(Blank, FreqField);
  }

  /** `set_memory` of an empty channel runs to the end, fills the record,
      and for the first 200 channels the name, with 0xFF, and `get_memory`
      then shows the channel as empty with no name. */
  lemma {:induction false} EmptyStored(img: seq<byte>, m: Memory)
    requires |img| == MemSize && Storable(m) && m.empty
    ensures var r := StoreMemory(img, m);
      r.outcome == Ok(()) && RecordOf(r.image, m.number - 1) == Blank &&
      (m.number <= NamedChannels ==> NameBytes(r.image, m.number - 1) == Blank) &&
      GetMemory(r.image, m.number).empty
  {
    var r := StoreMemory(img, m);
    StoreMemoryPlaces(img, m);
    GetAt(r.image, m.number, Blank, ChannelName(r.image, m.number - 1));
    BlankIsEmpty(m.number, ChannelName(r.image, m.number - 1));
    if m.number <= NamedChannels {
      BlankName();
    }
  }

  /** A name field of 0xFF bytes shows as no name. */
  lemma {:induction false} BlankName()
    ensures RStrip(NameRun(Blank)) == ""
  {
    assert Terminator(Blank[0]);
  }

  // ---------------------------------------------------------------
  // Byte for byte: `set_memory` of what `get_memory` read

  /** A record `get_memory` reads without losing anything: both tone codes
      in their tables, and 0 where there is no tone; no bandwidth bit
      under AM; a step byte that is an index into `STEPS` shifted left by
      one; a power code other than 0b11; and a scrambler nibble in its
      list. */
  predicate CanonicalRecord(rec: seq<byte>)
    requires |rec| == RecordSize
  {
    Canonical(Field(rec[CodeFlagField], 4, 2), rec[TxCodeField]) &&
    Canonical(Field(rec[CodeFlagField], 0, 2), rec[RxCodeField]) &&
    (Flag(rec[Flags1Field], 4) ==> !Flag(rec[Flags2Field], 1)) &&
    (rec[StepField] as int) % 2 == 0 && (rec[StepField] as int) < 2 * |Steps| &&
    Field(rec[Flags2Field], 2, 2) != 3 &&
    Field(rec[ScramblerField], 0, 4) < |ScramblerList|
  }

  /** Writing back the value a field holds leaves the record as it was. */
  lemma {:induction false} SetFieldSame(rec: seq<byte>, k: nat, lo: nat, width: nat)
    requires k < |rec| && lo + width <= 8
    ensures SetField(rec, k, lo, width, Field(rec[k], lo, width)) == rec
  {
    WithFieldSame(rec[k], lo, width);
  }

  /** A flag written back as 1 when set and 0 when clear is the bit it was. */
  lemma {:induction false} FlagBit(b: byte, bit: nat)
    requires bit < 8
    ensures Bit(Flag(b, bit)) == Field(b, bit, 1)
  {
    assert Pow2(1) == 2;
  }

  /** Storing the mode `get_memory` read changes nothing, unless the
      bandwidth bit was set under AM. */
  lemma {:induction false} StoreModeSame(rec: seq<byte>)
    requires |rec| == RecordSize && (Flag(rec[Flags1Field], 4) ==> !Flag(rec[Flags2Field], 1))
    ensures StoreMode(rec, ModeOf(rec[Flags1Field], rec[Flags2Field])) == rec
  {
    var mode := ModeOf(rec[Flags1Field], rec[Flags2Field]);
    FlagBit(rec[Flags1Field], 4);
    FlagBit(rec[Flags2Field], 1);
    assert (if mode == AM then 1 else 0) == Field(rec[Flags1Field], 4, 1);
    SetFieldSame(rec, Flags1Field, 4, 1);
    assert (if mode == NFM then 1 else 0) == Field(rec[Flags2Field], 1, 1);
    SetFieldSame(rec, Flags2Field, 1, 1);
  }

  /** Storing the frequencies `get_memory` read changes nothing. */
  lemma {:induction false} StoreFreqSame(rec: seq<byte>)
    requires |rec| == RecordSize
    ensures StoreFreq(rec, U32At(rec, FreqField) * 10, U32At(rec, OffsetField) * 10) == rec
  {
    var freq := U32At(rec, FreqField);
    var offset := U32At(rec, OffsetField);
    assert freq * 10 / 10 == freq && offset * 10 / 10 == offset;
    U32LeAt(rec, FreqField);
    SpliceSame(rec, FreqField, 4);
    U32LeAt(rec, OffsetField);
    SpliceSame(rec, OffsetField, 4);
  }

  /** Storing the shift `get_memory` read changes nothing. */
  lemma {:induction false} StoreDuplexSame(rec: seq<byte>)
    requires |rec| == RecordSize
    ensures StoreDuplex(rec, DuplexOf(U32At(rec, OffsetField) * 10, rec[Flags1Field])) == rec
  {
    FlagBit(rec[Flags1Field], 0);
    SetFieldSame(rec, Flags1Field, 0, 1);
  }

  /** Storing the tones `get_memory` read changes nothing when both codes
      are canonical. */
  lemma {:induction false} StoreToneSame(rec: seq<byte>)
    requires |rec| == RecordSize
    requires Canonical(Field(rec[CodeFlagField], 4, 2), rec[TxCodeField])
    requires Canonical(Field(rec[CodeFlagField], 0, 2), rec[RxCodeField])
    ensures StoreTone(rec, GetTone(rec[CodeFlagField], rec[RxCodeField], rec[TxCodeField])) == Ok(rec)
  {
    ToneBytesRoundTrip(rec[CodeFlagField], rec[RxCodeField], rec[TxCodeField]);
    ToneBytesSame(rec);
  }

  lemma ToneBytesSame(rec: seq<byte>)
    requires |rec| == RecordSize
    ensures rec[CodeFlagField := rec[CodeFlagField]][RxCodeField := rec[RxCodeField]][TxCodeField := rec[TxCodeField]] == rec
  {
  }

  /** Storing the step `get_memory` read changes nothing when the byte is
      an index into `STEPS` shifted left by one. */
  lemma {:induction false} StoreStepSame(rec: seq<byte>)
    requires |rec| == RecordSize && (rec[StepField] as int) % 2 == 0 && (rec[StepField] as int) < 2 * |Steps|
    ensures StoreStep(rec, StepOf(rec[StepField])) == Ok(rec)
  {
    var i := rec[StepField] as int / 2;
    assert ByteOf(2 * i) == rec[StepField];
    ShiftedField(i);
    StepsTable();
    IndexOfEntry(Steps, i);
    assert rec[StepField := ByteOf(2 * i)] == rec;
  }

  /** Storing the power `get_memory` read changes nothing unless the power
      code was 0b11. */
  lemma {:induction false} StorePowerSame(rec: seq<byte>)
    requires |rec| == RecordSize && Field(rec[Flags2Field], 2, 2) != 3
    ensures SetField(rec, Flags2Field, 2, 2, PowerCode(PowerOf(rec[Flags2Field]))) == rec
  {
    assert Pow2(2) == 4;
    SetFieldSame(rec, Flags2Field, 2, 2);
  }

  /** Storing any of the extras `get_memory` read changes nothing when the
      scrambler nibble is in its list. */
  lemma {:induction false} StoreExtraSame(rec: seq<byte>, i: nat)
    requires |rec| == RecordSize && Field(rec[ScramblerField], 0, 4) < |ScramblerList| && i < 5
    ensures StoreExtra(rec, ExtrasOf(rec)[i]) == Ok(rec)
  {
    var e := ExtrasOf(rec)[i];
    var p := PlaceOf(e);
    var v := Field(rec[p.at], p.lo, p.width);
    ExtraLists();
    if i == 2 {
      assert Pow2(2) == 4;
      IndexOfEntry(PttidList, v);
    } else if i == 4 {
      IndexOfEntry(ScramblerList, v);
    } else {
      FlagBit(rec[p.at], p.lo);
    }
    assert ExtraCode(e) == Ok(v);
    SetFieldSame(rec, p.at, p.lo, p.width);
  }

  /** The extras loop over what `get_memory` read, from extra k on, runs
      to the end and changes nothing. */
  lemma {:induction false} ExtrasSame(rec: seq<byte>, k: nat)
    requires |rec| == RecordSize && Field(rec[ScramblerField], 0, 4) < |ScramblerList| && k <= 5
    ensures ExtrasFrom(rec, ExtrasOf(rec), k) == Edited(rec, Ok(()))
    decreases 5 - k
  {
    if k < 5 {
      StoreExtraSame(rec, k);
      ExtrasSame(rec, k + 1);
    }
  }

  /** The first edits of `set_memory`, given what `get_memory` read from a
      canonical record, leave it as it was. */
  lemma {:induction false} StoreFieldsSame(number: nat, name: string, rec: seq<byte>)
    requires |rec| == RecordSize && CanonicalRecord(rec)
    ensures var m := DecodeRecord(number, name, rec);
      m.freq / 10 < U32Limit && m.offset / 10 < U32Limit && StoreFields(rec, m) == rec
  {
    RecordFits(number, name, rec);
    StoreModeSame(rec);
    StoreFreqSame(rec);
    StoreDuplexSame(rec);
  }

  /** The rest of `set_memory`, given what `get_memory` read from a
      canonical record, runs to the end and leaves it as it was. */
  lemma {:induction false} StoreCodesSame(number: nat, name: string, rec: seq<byte>)
    requires |rec| == RecordSize && CanonicalRecord(rec)
    ensures StoreCodes(rec, DecodeRecord(number, name, rec)) == Edited(rec, Ok(()))
  {
    StoreToneSame(rec);
    StoreStepSame(rec);
    StorePowerSame(rec);
    ExtrasSame(rec, 0);
  }

  /** `set_memory` of what `get_memory` read from a canonical record of a
      channel in use writes back every byte of that record. */
  lemma {:induction false} RecordRoundTrip(number: nat, name: string, rec: seq<byte>)
    requires |rec| == RecordSize && CanonicalRecord(rec)
    ensures var m := DecodeRecord(number, name, rec);
      m.freq / 10 < U32Limit && m.offset / 10 < U32Limit &&
      StoreCodes(StoreFields(rec, m), m) == Edited(rec, Ok(()))
  {
    StoreFieldsSame(number, name, rec);
    StoreCodesSame(number, name, rec);
  }

  /** `set_memory` of what `get_memory` read from a canonical record of a
      channel in use runs to the end and writes back the record as it was. */
  lemma {:induction false} EncodeSame(number: nat, name: string, rec: seq<byte>)
    requires |rec| == RecordSize && CanonicalRecord(rec)
    requires Storable(DecodeRecord(number, name, rec)) && !DecodeRecord(number, name, rec).empty
    ensures var w := EncodeMemory(rec, DecodeRecord(number, name, rec)); w.record == rec && w.outcome.Ok?
  {
    RecordRoundTrip(number, name, rec);
  }

  /** `set_memory` whose encoding writes back the channel's record as it
      was, without raising, leaves that record in the image unchanged. */
  lemma {:induction false} StoreSameRecord(img: seq<byte>, m: Memory)
    requires |img| == MemSize && Storable(m)
    requires var w := EncodeMemory(RecordOf(img, m.number - 1), m);
      w.record == RecordOf(img, m.number - 1) && w.outcome.Ok?
    ensures StoreMemory(img, m).outcome.Ok? && RecordOf(StoreMemory(img, m).image, m.number - 1) == RecordOf(img, m.number - 1)
  {
    StoreMemoryPlaces(img, m);
  }

  /** In the image: `set_memory` of what `get_memory` shows for a channel
      in use whose record is canonical runs to the end and leaves the
      channel's record byte for byte as it was. */
  lemma {:induction false} GetSetRecord(img: seq<byte>, number: nat)
    requires |img| == MemSize && 1 <= number <= Channels && !GetMemory(img, number).empty
    requires CanonicalRecord(RecordOf(img, number - 1))
    ensures var m := GetMemory(img, number);
      Storable(m) && StoreMemory(img, m).outcome.Ok? &&
      RecordOf(StoreMemory(img, m).image, number - 1) == RecordOf(img, number - 1)
  {
    var m := GetMemory(img, number);
    var rec := RecordOf(img, number - 1);
    var name := ChannelName(img, number - 1);
    GetStorable(img, number);
    assert m == DecodeRecord(number, name, rec);
    EncodeSame(number, name, rec);
    assert m.number == number && EncodeMemory(rec, m).record == rec && EncodeMemory(rec, m).outcome.Ok?;
    StoreSameRecord(img, m);
  }
}
