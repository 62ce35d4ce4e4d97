/** The radio object of the driver (`class TemplateRadio`, uvk5.py:396-1118):
    the memory image that every edit reads and writes in place, and the
    firmware version the last hello reported. Channel records are read out
    of the image, edited as values and written back; settings are written
    byte by byte. */
module Radio {
  import opened Bytes
  import opened Bits
  import opened Layout
  import opened Tones
  import opened Transport
  import opened Sync
  import opened Channels
  import Settings
  import Tables
  import Protocol

  /** The extras loop of `set_memory` on a record: each extra edits its
      bits in turn, and the first whose choice is not in its list raises,
      leaving the edits before it. */
  method EditExtras(rec: seq<byte>, extra: seq<Extra>) returns (e: Edited)
    requires |rec| == RecordSize
    ensures e == ExtrasFrom(rec, extra, 0)
  {
    var r := rec;
    for k := 0 to |extra|
      invariant |r| == RecordSize
      invariant ExtrasFrom(r, extra, k) == ExtrasFrom(rec, extra, 0)
    {
      var stored := StoreExtra(r, extra[k]);
      if stored.Err? {
        return Edited(r, Err(stored.fault));
      }
      r := stored.value;
    }
    return Edited(r, Ok(()));
  }

  /** The edits of `set_memory` after the name: the tone, the step, the
      power, then the extras; a lookup that raises stops them. */
  method EditCodes(rec: seq<byte>, m: Memory) returns (e: Edited)
    requires |rec| == RecordSize
    ensures e == StoreCodes(rec, m)
  {
    var toned := StoreTone(rec, m.tones);
    if toned.Err? {
      return Edited(rec, Err(toned.fault));
    }
    var stepped := StoreStep(toned.value, m.tuningStep);
    if stepped.Err? {
      return Edited(toned.value, Err(stepped.fault));
    }
    e := EditExtras(SetField(stepped.value, Flags2Field, 2, 2, PowerCode(m.power)), m.extra);
  }

  /** What `set_memory` writes for a channel in use: the record read
      out of the image with the edits made to it, and for the first 200
      channels the name padded with spaces. */
  method EncodeChannel(rec: seq<byte>, m: Memory) returns (w: Written)
    requires |rec| == RecordSize && Storable(m) && !m.empty
    ensures w == EncodeMemory(rec, m)
  {
    var name := if m.number <= NamedChannels then Some(NameField(m.name)) else None;
    var edited := EditCodes(StoreFields(rec, m), m);
    w := Written(edited.record, name, edited.outcome);
  }

  class Radio {
    /** `self._mmap`, the image `self._memobj` is laid over. */
    var mmap: array<byte>
    /** `FIRMWARE_VERSION`, empty until a hello has reported one. */
    var firmware: string

    predicate Valid()
      reads this
    {
      mmap.Length == MemSize
    }

    /** A radio over a loaded image (`process_mmap`). */
    constructor(image: seq<byte>)
      requires |image| == MemSize
      ensures Valid() && mmap[..] == image && firmware == "" && fresh(mmap)
    {
      mmap := new byte[MemSize](i => if 0 <= i < |image| then image[i] else 0);
      firmware := "";
    }

    /** Assigning bytes of the image, one at a time. */
    method WriteBytes(at: nat, bs: seq<byte>)
      requires Valid() && at + |bs| <= MemSize
      modifies mmap
      ensures mmap[..] == Splice(old(mmap[..]), at, bs)
    {
      ghost var before := mmap[..];
      for i := 0 to |bs|
        invariant forall j :: 0 <= j < MemSize ==> mmap[j] == if at <= j < at + i then bs[j - at] else before[j]
      {
        mmap[at + i] := bs[i];
      }
      assert mmap[..] == Splice(before, at, bs);
    }

    /** `sync_in`: download the image and, when every block came back,
        lay the radio over it. The hello's firmware version is recorded
        even when the blocks then fail. */
    method SyncIn(port: Port) returns (r: Result<bool>)
      requires Valid() && port.Valid()
      modifies this, port
      ensures Valid() && port.Valid()
      ensures var h := Protocol.HelloExchange(old(port.replies));
        var after := Protocol.Skip(old(port.replies), h.attempts);
        var hellos := old(port.sent) + Protocol.Copies(Protocol.HelloPacket, h.attempts);
        if h.outcome.Err? then port.replies == after && port.sent == hellos
        else
          var d := Download(after);
          port.replies == Protocol.Skip(after, d.count) && port.sent == hellos + ReadCommands(d.count)
      ensures var h := Protocol.HelloExchange(old(port.replies));
        firmware == (if h.outcome.Ok? && h.outcome.value.Some? then h.outcome.value.value else old(firmware))
      ensures var h := Protocol.HelloExchange(old(port.replies));
        var d := Download(Protocol.Skip(old(port.replies), h.attempts));
        if h.outcome.Err? then r == Err(h.outcome.fault) && mmap == old(mmap)
        else if d.outcome.Err? then r == Err(d.outcome.fault) && mmap == old(mmap)
        else if d.outcome.value.None? then r == Ok(false) && mmap == old(mmap)
        else r == Ok(true) && mmap[..] == d.outcome.value.value && fresh(mmap)
    {
      var image, version := DoDownload(port);
      if version.Some? {
        firmware := version.value;
      }
      if image.Err? {
        return Err(image.fault);
      }
      if image.value.None? {
        return Ok(false);
      }
      var loaded := image.value.value;
      mmap := new byte[MemSize](i => if 0 <= i < |loaded| then loaded[i] else 0);
      return Ok(true);
    }

    /** `sync_out`: upload the image. */
    method SyncOut(port: Port) returns (r: Result<bool>)
      requires Valid() && port.Valid()
      modifies port
      ensures port.Valid()
      ensures var h := Protocol.HelloExchange(old(port.replies));
        var after := Protocol.Skip(old(port.replies), h.attempts);
        var hellos := old(port.sent) + Protocol.Copies(Protocol.HelloPacket, h.attempts);
        if h.outcome.Err? then r == Err(h.outcome.fault) && port.replies == after && port.sent == hellos
        else
          var u := Upload(after, mmap[..]);
          r == u.outcome && port.replies == Protocol.Skip(after, u.count) &&
          port.sent == hellos + WriteCommands(mmap[..], u.count) + (if u.outcome == Ok(true) then [Protocol.ResetPacket] else [])
    {
      r := DoUpload(port, mmap[..]);
    }

    /** `get_memory(number)`: what it shows can be given back to
        `set_memory` when the channel is in use, under its own number and
        name. */
    function GetMemory(number: nat): (m: Memory)
      requires Valid() && 1 <= number <= Layout.Channels
      reads this, mmap
      ensures m.number == number
      ensures !m.empty ==> Storable(m) && StoredName(m) == m.name
    {
      GetNumberName(mmap[..], number);
      var m := Channels.GetMemory(mmap[..], number);
      if m.empty then m
      else GetStorable(mmap[..], number); m
    }

    /** `set_memory(mem)`: the channel's record, and for the first 200
        channels its name, in place; an empty channel is 0xFF throughout.
        When a lookup raises, the edits made before it stay in the
        image. */
    method SetMemory(m: Memory) returns (outcome: Result<()>)
      requires Valid() && Storable(m)
      modifies mmap
      ensures mmap[..] == StoreMemory(old(mmap[..]), m).image
      ensures outcome == StoreMemory(old(mmap[..]), m).outcome
    {
      if m.empty {
        outcome := ClearChannel(m);
      } else {
        outcome := WriteChannel(m);
      }
    }

    /** `set_raw` of 0xFF over the record and, for the first 200
        channels, over the name. */
    method ClearChannel(m: Memory) returns (outcome: Result<()>)
      requires Valid() && Storable(m) && m.empty
      modifies mmap
      ensures mmap[..] == StoreMemory(old(mmap[..]), m).image
      ensures outcome == StoreMemory(old(mmap[..]), m).outcome
    {
      var w := Written(Blank, if m.number <= NamedChannels then Some(Blank) else None, Ok(()));
      PatchChannel(m.number - 1, w);
      outcome := w.outcome;
    }

    /** The edits of `set_memory` on a channel in use: the record is read
        out, edited and written back, and the name is written for the
        first 200 channels. */
    method WriteChannel(m: Memory) returns (outcome: Result<()>)
      requires Valid() && Storable(m) && !m.empty
      modifies mmap
      ensures mmap[..] == StoreMemory(old(mmap[..]), m).image
      ensures outcome == StoreMemory(old(mmap[..]), m).outcome
    {
      var w := EncodeChannel(RecordOf(mmap[..], m.number - 1), m);
      PatchChannel(m.number - 1, w);
      outcome := w.outcome;
    }

    /** Writing what `set_memory` encoded over the channel's record and,
        when there is one, its name. */
    method PatchChannel(index: nat, w: Written)
      requires Valid() && index < Layout.Channels && |w.record| == RecordSize
      requires w.name.Some? ==> index < NamedChannels && |w.name.value| == NameSize
      modifies mmap
      ensures mmap[..] == Patch(old(mmap[..]), index, w)
    {
      RegionsInOrder();
      WriteBytes(RecordAt(index), w.record);
      if w.name.Some? {
        WriteBytes(NameAt(index), w.name.value);
      }
    }

    /** One setting of `set_settings`, stored in place. */
    method SetSetting(s: Settings.Setting) returns (outcome: Result<()>)
      requires Valid() && Settings.Kinded(s)
      modifies mmap
      ensures var r := Settings.ApplySetting(old(mmap[..]), s);
        if r.Ok? then mmap[..] == r.value && outcome == Ok(())
        else mmap[..] == old(mmap[..]) && outcome == Err(r.fault)
    {
      Settings.TargetSane(s.name);
      RegionsInOrder();
      outcome := Ok(());
      match Settings.TargetOf(s.name)
      case Number(at, _, _, bias) =>
        mmap[at] := ByteOf(s.value.n - bias);
      case Switch(at) =>
        mmap[at] := if s.value.on then 1 else 0;
      case Pick(at, list) =>
        var i := Tables.IndexOf(list, s.value.choice);
        if i.Err? {
          return Err(i.fault);
        }
        mmap[at] := ByteOf(i.value);
      case LogoLine(at) =>
        WriteBytes(at, Settings.LogoField(s.value.text));
      case Ignored =>
    }

    /** `set_settings(settings)`: settings in order, groups by the same
        method on their items; the first ValueError stops it with the
        settings before it stored. */
    method SetSettings(es: seq<Settings.Element>) returns (outcome: Result<()>)
      requires Valid() && Settings.AllKinded(es)
      modifies mmap
      ensures mmap[..] == Settings.ApplyFrom(old(mmap[..]), es, 0).image
      ensures outcome == Settings.ApplyFrom(old(mmap[..]), es, 0).outcome
      decreases es
    {
      var k := 0;
      while k < |es|
        invariant 0 <= k <= |es|
        invariant Settings.ApplyFrom(mmap[..], es, k) == Settings.ApplyFrom(old(mmap[..]), es, 0)
        decreases |es| - k
      {
        var done: Result<()>;
        match es[k] {
          case Item(s) =>
            done := SetSetting(s);
          case Group(_, items) =>
            done := SetSettings(items);
        }
        if done.Err? {
          return done;
        }
        k := k + 1;
      }
      return Ok(());
    }

    /** `get_settings()`: it raises IndexError exactly when the
        battery-save byte is past the end of its list. */
    function GetSettings(): (r: Result<seq<Settings.Element>>)
      requires Valid()
      reads this, mmap
      ensures r.Err? <==> mmap[BatterySaveAt] as int >= |Tables.BatSaveList|
    {
      Settings.GetSettings(mmap[..], firmware)
    }
  }
}
