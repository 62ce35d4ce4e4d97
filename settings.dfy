/** The radio's settings as `get_settings` shows them and `set_settings`
    stores them (uvk5.py:682-1023): single bytes of the settings area at
    0xE70-0xF46, and the two 16-character logo lines. `get_settings`
    clamps what it reads into the range it shows; `set_settings` stores
    what it is given, looking choices up in their lists. */
module Settings {
  import opened Bytes
  import opened Layout
  import opened Tables

  /** The settings, by the names CHIRP knows them by (in the comments).
      `set_settings` stores "unknown1", a name `get_settings` never shows:
      it shows the same byte as "unknown11", which `set_settings` ignores,
      and so it does "screen" and the two read-only strings. */
  datatype Name =
    | CallChannel              // "call_channel"
    | Squelch                  // "squelch"
    | Tot                      // "tot"
    | NoaaAutoscan             // "noaa_autoscan"
    | VoxLevel                 // "vox_level"
    | MicGain                  // "mic_gain"
    | ChannelDisplayMode       // "channel_display_mode"
    | Crossband                // "crossband"
    | BatterySave              // "battery_save"
    | DualWatch                // "dualwatch"
    | TailNoteElimination      // "tail_note_elimination"
    | VfoOpen                  // "vfo_open"
    | BeepControl              // "beep_control"
    | ScanResumeMode           // "scan_resume_mode"
    | AutoKeypadLock           // "auto_keypad_lock"
    | WelcomeMode              // "welcome_mode"
    | KeypadTone               // "keypad_tone"
    | Language                 // "language"
    | AlarmMode                // "alarm_mode"
    | RemindingOfEndTalk       // "reminding_of_end_talk"
    | RepeaterTailElimination  // "repeater_tail_elimination"
    | Logo1                    // "logo1"
    | Logo2                    // "logo2"
    | Flock                    // "flock"
    | Tx350                    // "350tx"
    | Unknown1                 // "unknown1"
    | Unknown11                // "unknown11"
    | Tx200                    // "200tx"
    | Tx500                    // "500tx"
    | En350                    // "350en"
    | Screen                   // "screen"
    | FwVer                    // "fw_ver"
    | DriverVer                // "driver_ver"

  /** A setting's value: an integer, a boolean, a choice from a list, or
      a string. */
  datatype Value = Int(n: int) | Bool(on: bool) | Choice(choice: string) | Text(text: string)

  datatype Setting = Setting(name: Name, value: Value)

  /** What `set_settings` walks: settings, and groups it descends into. */
  datatype Element = Item(setting: Setting) | Group(title: string, items: seq<Element>)

  // ---------------------------------------------------------------
  // The logo lines

  /** The characters the logo code strips: space, NUL and 0xFF. */
  predicate Pad(c: char)
  {
    c == ' ' || c == 0 as char || c == 0xff as char
  }

  /** `s.rstrip("\x20\xff\x00")`. */
  function RStripPad(s: string): (r: string)
    ensures |r| <= |s| && r == s[..|r|]
    ensures |r| == 0 || !Pad(r[|r| - 1])
    ensures forall i :: |r| <= i < |s| ==> Pad(s[i])
  {
    if |s| == 0 || !Pad(s[|s| - 1]) then s else RStripPad(s[..|s| - 1])
  }

  /** `s.lstrip("\x20\x00\xff")`. */
  function LStripPad(s: string): (r: string)
    ensures |r| <= |s| && r == s[|s| - |r|..]
    ensures |r| == 0 || !Pad(r[0])
    ensures forall i :: 0 <= i < |s| - |r| ==> Pad(s[i])
  {
    if |s| == 0 || !Pad(s[0]) then s else LStripPad(s[1..])
  }

  /** `s.strip("\x20\x00\xff")`. */
  function StripPad(s: string): string
  {
    LStripPad(RStripPad(s))
  }

  const Nul: char := 0 as char
  const Ff: char := 0xff as char

  /** n NUL characters. */
  function Nuls(n: nat): (s: string)
    ensures |s| == n && forall i :: 0 <= i < n ==> s[i] == Nul
  {
    seq(n, _ => Nul)
  }

  /** What follows a stored logo line of 12 - n characters: n NULs and
      four 0xFF characters, all of them padding. */
  function Filler(n: nat): (s: string)
    ensures |s| == n + 4 && forall i :: 0 <= i < |s| ==> Pad(s[i])
  {
    Nuls(n) + [Ff, Ff, Ff, Ff]
  }

  /** The 16 characters `set_settings` stores for a logo line: the line
      without its trailing padding, cut or padded with NULs to 12
      characters, then four 0xFF characters. */
  function StoredLine(text: string): (line: string)
    requires OneByteChars(text)
    ensures |line| == LogoSize && OneByteChars(line)
    ensures line[12..] == [Ff, Ff, Ff, Ff]
    ensures forall i :: 0 <= i < 12 ==> line[i] == if i < |RStripPad(text)| then text[i] else Nul
  {
    var r := RStripPad(text);
    var padded := r + Nuls(12);
    padded[..12] + [Ff, Ff, Ff, Ff]
  }

  /** The bytes of the stored logo line. */
  function LogoField(text: string): (bs: seq<byte>)
    requires OneByteChars(text)
    ensures |bs| == LogoSize
    ensures bs[12..] == [0xff, 0xff, 0xff, 0xff]
    ensures var r := RStripPad(text);
      forall i :: 0 <= i < 12 ==> bs[i] as int == if i < |r| then r[i] as int else 0
  {
    var line := StoredLine(text);
    var bs := BytesOfChars(line);
    assert bs[12..] == [0xff, 0xff, 0xff, 0xff] by {
      assert forall i :: 12 <= i < LogoSize ==> bs[i] as int == 0xff;
    }
    bs
  }

  /** The logo line `get_settings` shows for 16 stored bytes: their
      characters stripped of padding at both ends, cut to 12. */
  function LogoShown(bs: seq<byte>): (s: string)
    ensures |s| <= 12
  {
    Take(StripPad(Chars(bs)), 12)
  }

  /** Stripping from the right looks through padding appended to a line. */
  lemma {:induction false} RStripPadAppend(a: string, b: string)
    requires forall i :: 0 <= i < |b| ==> Pad(b[i])
    ensures RStripPad(a + b) == RStripPad(a)
  {
    if |b| > 0 {
      var c := b[..|b| - 1];
      assert Pad((a + b)[|a + b| - 1]);
      assert (a + b)[..|a + b| - 1] == a + c;
      assert RStripPad(a + b) == RStripPad(a + c);
      assert forall i :: 0 <= i < |c| ==> c[i] == b[i];
      RStripPadAppend(a, c);
    } else {
      assert a + b == a;
    }
  }

  /** The characters of the stored logo bytes are the stored line. */
  lemma {:induction false} LogoChars(text: string)
    requires OneByteChars(text)
    ensures var t := Take(RStripPad(text), 12);
      Chars(LogoField(text)) == t + Filler(12 - |t|)
  {
    var t := Take(RStripPad(text), 12);
    var c := t + Filler(12 - |t|);
    var d := Chars(LogoField(text));
    forall i | 0 <= i < 16
      ensures d[i] == c[i]
    {
      if i < 12 && i < |t| {
        assert c[i] == t[i];
      }
    }
  }

  /** Stripping the stored logo bytes gives the stored line stripped. */
  lemma {:induction false} LogoStripped(text: string)
    requires OneByteChars(text)
    ensures StripPad(Chars(LogoField(text))) == StripPad(Take(RStripPad(text), 12))
  {
    var t := Take(RStripPad(text), 12);
    LogoChars(text);
    StripPadAppend(t, Filler(12 - |t|));
  }

  /** Stripping looks through padding appended to a line. */
  lemma {:induction false} StripPadAppend(a: string, b: string)
    requires forall i :: 0 <= i < |b| ==> Pad(b[i])
    ensures StripPad(a + b) == StripPad(a)
  {
    RStripPadAppend(a, b);
  }

  /** A logo line read back after `set_settings` stored it is the line
      cut to 12 characters, without padding at either end. */
  lemma {:induction false} LogoRoundTrip(text: string)
    requires OneByteChars(text)
    ensures LogoShown(LogoField(text)) == StripPad(Take(RStripPad(text), 12))
  {
    LogoStripped(text);
    StripShorter(Take(RStripPad(text), 12));
  }

  lemma StripShorter(s: string)
    ensures |StripPad(s)| <= |s|
  {
  }

  /** A line of at most 12 characters with no padding at either end
      reads back unchanged. */
  lemma {:induction false} LogoKept(text: string)
    requires OneByteChars(text) && |text| <= 12
    requires |text| == 0 || (!Pad(text[0]) && !Pad(text[|text| - 1]))
    ensures LogoShown(LogoField(text)) == text
  {
    LogoRoundTrip(text);
    assert RStripPad(text) == text;
    assert Take(text, 12) == text;
  }

  // ---------------------------------------------------------------
  // Storing: `set_settings`

  /** Where and how `set_settings` stores a setting: an integer minus a
      bias, with the bounds the setting is shown with; a switch as 1 or 0;
      a choice as its position in a list; a logo line; or nothing. */
  datatype Target =
    | Number(at: nat, lo: nat, hi: nat, bias: nat)
    | Switch(at: nat)
    | Pick(at: nat, list: seq<string>)
    | LogoLine(at: nat)
    | Ignored

  /** The branches of `set_settings`, one per name it knows. */
  function TargetOf(n: Name): Target
  {
    match n
    case CallChannel => Number(CallChannelAt, 1, 200, 1)
    case Squelch => Number(SquelchAt, 0, 9, 0)
    case Tot => Number(MaxTalkTimeAt, 0, 10, 0)
    case NoaaAutoscan => Switch(NoaaAutoscanAt)
    case VoxLevel => Number(VoxLevelAt, 1, 10, 1)
    case MicGain => Number(MicGainAt, 0, 4, 0)
    case ChannelDisplayMode => Pick(ChannelDisplayModeAt, ChannelDispList)
    case Crossband => Pick(CrossbandAt, CrossbandList)
    case BatterySave => Pick(BatterySaveAt, BatSaveList)
    case DualWatch => Pick(DualWatchAt, DualwatchList)
    case TailNoteElimination => Switch(TailNoteEliminationAt)
    case VfoOpen => Switch(VfoOpenAt)
    case BeepControl => Switch(BeepControlAt)
    case ScanResumeMode => Pick(ScanResumeModeAt, ScanResumeList)
    case AutoKeypadLock => Switch(AutoKeypadLockAt)
    case WelcomeMode => Pick(PowerOnDispmodeAt, WelcomeList)
    case KeypadTone => Pick(KeypadToneAt, KeypadToneList)
    case Language => Pick(LanguageAt, LanguageList)
    case AlarmMode => Pick(AlarmModeAt, AlarmModeList)
    case RemindingOfEndTalk => Pick(RemindingOfEndTalkAt, RemEndOfTalkList)
    case RepeaterTailElimination => Pick(RepeaterTailEliminationAt, RteList)
    case Logo1 => LogoLine(LogoLine1At)
    case Logo2 => LogoLine(LogoLine2At)
    case Flock => Pick(IntFlockAt, FlockList)
    case Tx350 => Switch(Int350txAt)
    case Unknown1 => Switch(IntUnknown1At)
    case Tx200 => Switch(Int200txAt)
    case Tx500 => Switch(Int500txAt)
    case En350 => Switch(Int350enAt)
    case Unknown11 => Ignored
    case Screen => Ignored
    case FwVer => Ignored
    case DriverVer => Ignored
  }

  /** The bytes a target stores into lie in the settings area, an integer
      fits its byte once the bias is taken off, and a list position fits
      a byte. */
  predicate Sane(t: Target)
  {
    match t
    case Number(at, lo, hi, bias) => SettingsStart <= at < SettingsEnd && bias <= lo <= hi && hi - bias < 256
    case Switch(at) => SettingsStart <= at < SettingsEnd
    case Pick(at, list) => SettingsStart <= at < SettingsEnd && 0 < |list| <= 256
    case LogoLine(at) => SettingsStart <= at && at + LogoSize <= SettingsEnd
    case Ignored => true
  }

  lemma TargetSane(n: Name)
    ensures Sane(TargetOf(n))
  {
  }

  /** A value of the kind the target stores: an integer within the bounds
      the setting is shown with, a boolean, a string for a choice, or a
      line of one-byte characters. */
  predicate Fits(t: Target, v: Value)
  {
    match t
    case Number(_, lo, hi, _) => v.Int? && lo <= v.n <= hi
    case Switch(_) => v.Bool?
    case Pick(_, _) => v.Choice?
    case LogoLine(_) => v.Text? && OneByteChars(v.text)
    case Ignored => true
  }

  /** A setting of the kind `get_settings` gives its name. */
  predicate Kinded(s: Setting)
  {
    Fits(TargetOf(s.name), s.value)
  }

  /** The bytes a target may change. */
  predicate Touches(t: Target, i: nat)
  {
    match t
    case Number(at, _, _, _) => i == at
    case Switch(at) => i == at
    case Pick(at, _) => i == at
    case LogoLine(at) => at <= i < at + LogoSize
    case Ignored => false
  }

  /** One branch of `set_settings` on the image: it raises ValueError
      exactly for a choice its list lacks, and it changes no byte but its
      own. */
  function Store(img: seq<byte>, t: Target, v: Value): (r: Result<seq<byte>>)
    requires |img| == MemSize && Sane(t) && Fits(t, v)
    ensures r.Ok? <==> !(t.Pick? && v.choice !in t.list)
    ensures r.Err? ==> r.fault == NotInList
    ensures r.Ok? ==> |r.value| == MemSize
    ensures r.Ok? ==> forall i :: 0 <= i < MemSize && !Touches(t, i) ==> r.value[i] == img[i]
  {
    RegionsInOrder();
    match t
    case Number(at, _, _, bias) => Ok(img[at := ByteOf(v.n - bias)])
    case Switch(at) => Ok(img[at := if v.on then 1 else 0])
    case Pick(at, list) =>
      var i :- IndexOf(list, v.choice);
      Ok(img[at := ByteOf(i)])
    case LogoLine(at) => Ok(Splice(img, at, LogoField(v.text)))
    case Ignored => Ok(img)
  }

  /** `set_settings` on one setting. */
  function ApplySetting(img: seq<byte>, s: Setting): (r: Result<seq<byte>>)
    requires |img| == MemSize && Kinded(s)
    ensures r.Ok? ==> |r.value| == MemSize
  {
    TargetSane(s.name);
    Store(img, TargetOf(s.name), s.value)
  }

  /** Every setting of an element, in every group, is of its kind. */
  predicate KindedElement(e: Element)
    decreases e
  {
    match e
    case Item(s) => Kinded(s)
    case Group(_, items) => forall i :: 0 <= i < |items| ==> KindedElement(items[i])
  }

  predicate AllKinded(es: seq<Element>)
  {
    forall i :: 0 <= i < |es| ==> KindedElement(es[i])
  }

  /** The image `set_settings` leaves, and whether it returned or raised. */
  datatype Applied = Applied(image: seq<byte>, outcome: Result<()>)

  /** `set_settings` from element k on: settings in order, groups by
      descending into them, stopping at the first ValueError with the
      earlier settings stored. */
  function ApplyFrom(img: seq<byte>, es: seq<Element>, k: nat): (a: Applied)
    requires |img| == MemSize && AllKinded(es)
    ensures |a.image| == MemSize
    ensures a.outcome.Err? ==> a.outcome.fault == NotInList
    decreases es, |es| - k
  {
    if k >= |es| then Applied(img, Ok(()))
    else
      var a := ApplyElement(img, es[k]);
      if a.outcome.Err? then a else ApplyFrom(a.image, es, k + 1)
  }

  function ApplyElement(img: seq<byte>, e: Element): (a: Applied)
    requires |img| == MemSize && KindedElement(e)
    ensures |a.image| == MemSize
    ensures a.outcome.Err? ==> a.outcome.fault == NotInList
    decreases e
  {
    match e
    case Item(s) =>
      (match ApplySetting(img, s)
       case Ok(r) => Applied(r, Ok(()))
       case Err(f) => Applied(img, Err(f)))
    case Group(_, items) => ApplyFrom(img, items, 0)
  }

  /** `set_settings(settings)`. */
  function ApplySettings(img: seq<byte>, es: seq<Element>): (a: Applied)
    requires |img| == MemSize && AllKinded(es)
    ensures |a.image| == MemSize
    ensures a.outcome.Err? ==> a.outcome.fault == NotInList
    ensures forall i :: 0 <= i < MemSize && !(SettingsStart <= i < SettingsEnd) ==> a.image[i] == img[i]
  {
    ApplyFromKeeps(img, es);
    ApplyFrom(img, es, 0)
  }

  lemma ApplyFromKeeps(img: seq<byte>, es: seq<Element>)
    requires |img| == MemSize && AllKinded(es)
    ensures forall i :: 0 <= i < MemSize && !(SettingsStart <= i < SettingsEnd) ==> ApplyFrom(img, es, 0).image[i] == img[i]
  {
    forall i | 0 <= i < MemSize && !(SettingsStart <= i < SettingsEnd)
      ensures ApplyFrom(img, es, 0).image[i] == img[i]
    {
      ApplyFromFrame(img, es, 0, i);
    }
  }

  /** `set_settings` changes no byte outside the settings area: the
      channels, their names and the rest of the image are kept. */
  lemma {:induction false} ApplyFromFrame(img: seq<byte>, es: seq<Element>, k: nat, i: nat)
    requires |img| == MemSize && AllKinded(es) && i < MemSize && !(SettingsStart <= i < SettingsEnd)
    ensures ApplyFrom(img, es, k).image[i] == img[i]
    decreases es, |es| - k
  {
    if k < |es| {
      ApplyElementFrame(img, es[k], i);
      var a := ApplyElement(img, es[k]);
      if a.outcome.Ok? {
        ApplyFromFrame(a.image, es, k + 1, i);
      }
    }
  }

  lemma {:induction false} ApplyElementFrame(img: seq<byte>, e: Element, i: nat)
    requires |img| == MemSize && KindedElement(e) && i < MemSize && !(SettingsStart <= i < SettingsEnd)
    ensures ApplyElement(img, e).image[i] == img[i]
    decreases e
  {
    match e
    case Item(s) =>
      TargetSane(s.name);
    case Group(_, items) =>
      ApplyFromFrame(img, items, 0, i);
  }

  // ---------------------------------------------------------------
  // Reading: `get_settings`

  /** How `get_settings` shows a byte: plus a bias, with a fallback past
      a maximum; plus a bias, capped at a maximum; as a switch that is on
      above zero; as a list entry, the first past the end of the list, or
      an IndexError past the end (battery save); as a logo line; or not
      at all. */
  datatype Reading =
    | Wrapped(at: nat, bias: nat, hi: nat, fallback: nat)
    | Capped(at: nat, bias: nat, hi: nat)
    | Flag(at: nat)
    | Listed(at: nat, list: seq<string>)
    | Strict(at: nat, list: seq<string>)
    | LogoText(at: nat)
    | Unshown

  /** The settings `get_settings` builds, one per name it shows. */
  function ReadingOf(n: Name): Reading
  {
    match n
    case CallChannel => Wrapped(CallChannelAt, 1, 200, 1)
    case Squelch => Wrapped(SquelchAt, 0, 9, 1)
    case Tot => Capped(MaxTalkTimeAt, 0, 10)
    case NoaaAutoscan => Flag(NoaaAutoscanAt)
    case VoxLevel => Capped(VoxLevelAt, 1, 10)
    case MicGain => Capped(MicGainAt, 0, 4)
    case ChannelDisplayMode => Listed(ChannelDisplayModeAt, ChannelDispList)
    case Crossband => Listed(CrossbandAt, CrossbandList)
    case BatterySave => Strict(BatterySaveAt, BatSaveList)
    case DualWatch => Listed(DualWatchAt, DualwatchList)
    case TailNoteElimination => Flag(TailNoteEliminationAt)
    case VfoOpen => Flag(VfoOpenAt)
    case BeepControl => Flag(BeepControlAt)
    case ScanResumeMode => Listed(ScanResumeModeAt, ScanResumeList)
    case AutoKeypadLock => Flag(AutoKeypadLockAt)
    case WelcomeMode => Listed(PowerOnDispmodeAt, WelcomeList)
    case KeypadTone => Listed(KeypadToneAt, KeypadToneList)
    case Language => Listed(LanguageAt, LanguageList)
    case AlarmMode => Listed(AlarmModeAt, AlarmModeList)
    case RemindingOfEndTalk => Listed(RemindingOfEndTalkAt, RemEndOfTalkList)
    case RepeaterTailElimination => Listed(RepeaterTailEliminationAt, RteList)
    case Logo1 => LogoText(LogoLine1At)
    case Logo2 => LogoText(LogoLine2At)
    case Flock => Listed(IntFlockAt, FlockList)
    case Tx350 => Flag(Int350txAt)
    case Unknown11 => Flag(IntUnknown1At)
    case Tx200 => Flag(Int200txAt)
    case Tx500 => Flag(Int500txAt)
    case En350 => Flag(Int350enAt)
    case Screen => Flag(IntScreenAt)
    case Unknown1 => Unshown
    case FwVer => Unshown
    case DriverVer => Unshown
  }

  /** What a reading reads lies in the image, and a list it shows from
      has a first entry. */
  predicate Readable(r: Reading)
  {
    match r
    case Wrapped(at, _, _, _) => at < MemSize
    case Capped(at, _, _) => at < MemSize
    case Flag(at) => at < MemSize
    case Listed(at, list) => at < MemSize && |list| > 0
    case Strict(at, _) => at < MemSize
    case LogoText(at) => at + LogoSize <= MemSize
    case Unshown => true
  }

  lemma ReadingReadable(n: Name)
    ensures Readable(ReadingOf(n))
  {
  }

  /** The value a reading shows, None for a name not read from the
      image, or the IndexError of battery save past its list. */
  function Read(img: seq<byte>, r: Reading): (v: Result<Option<Value>>)
    requires |img| == MemSize && Readable(r)
    ensures v.Err? <==> r.Strict? && img[r.at] as int >= |r.list|
    ensures v.Err? ==> v.fault == IndexOutOfRange
  {
    match r
    case Wrapped(at, bias, hi, fallback) =>
      var v := img[at] as int + bias;
      Ok(Some(Int(if v > hi then fallback else v)))
    case Capped(at, bias, hi) =>
      var v := img[at] as int + bias;
      Ok(Some(Int(if v > hi then hi else v)))
    case Flag(at) => Ok(Some(Bool(img[at] > 0)))
    case Listed(at, list) =>
      Ok(Some(Choice(list[if img[at] as int < |list| then img[at] as int else 0])))
    case Strict(at, list) =>
      if img[at] as int < |list| then Ok(Some(Choice(list[img[at]]))) else Err(IndexOutOfRange)
    case LogoText(at) => Ok(Some(Text(LogoShown(img[at..at + LogoSize]))))
    case Unshown => Ok(None)
  }

  /** The setting `get_settings` shows under a name. */
  function Shown(img: seq<byte>, n: Name): Result<Option<Value>>
    requires |img| == MemSize
  {
    ReadingReadable(n);
    Read(img, ReadingOf(n))
  }

  const BasicNames: seq<Name> := [
    CallChannel, Squelch, Tot, NoaaAutoscan, VoxLevel, MicGain, ChannelDisplayMode, Crossband,
    BatterySave, DualWatch, TailNoteElimination, VfoOpen, BeepControl, ScanResumeMode,
    AutoKeypadLock, WelcomeMode, KeypadTone, Language, AlarmMode, RemindingOfEndTalk,
    RepeaterTailElimination, Logo1, Logo2]
  const UnlockNames: seq<Name> := [Flock, Tx350, Unknown11, Tx200, Tx500, En350, Screen]

  const DriverVersion: string := "Quansheng UV-K5 driver v20230512 (c) Jacek Lipkowski SQ5BPF"
  const NoFirmware: string := "To get the firmware version please download the image from the radio first"

  /** The settings of a group, in order, each with the value it shows. */
  function ShownItems(img: seq<byte>, names: seq<Name>): (r: Result<seq<Element>>)
    requires |img| == MemSize
    ensures r.Err? ==> r.fault == IndexOutOfRange
  {
    if |names| == 0 then Ok([])
    else
      var v :- Shown(img, names[0]);
      var rest :- ShownItems(img, names[1..]);
      Ok((if v.Some? then [Item(Setting(names[0], v.value))] else []) + rest)
  }

  /** `get_settings`: the basic, unlock, FM radio and read-only groups;
      `firmware` is what the last download read from the radio. */
  function GetSettings(img: seq<byte>, firmware: string): (r: Result<seq<Element>>)
    requires |img| == MemSize
    ensures r.Err? <==> img[BatterySaveAt] as int >= |BatSaveList|
    ensures r.Err? ==> r.fault == IndexOutOfRange
    ensures r.Ok? ==> |r.value| == 4
  {
    ShownItemsFail(img, BasicNames);
    ShownItemsFail(img, UnlockNames);
    BatteryShownOnce();
    match ShownItems(img, BasicNames)
    case Err(f) => Err(f)
    case Ok(basic) =>
      match ShownItems(img, UnlockNames)
      case Err(f) => Err(f)
      case Ok(unlock) => Ok(Groups(basic, unlock, firmware))
  }

  /** The groups `get_settings` returns around the settings it read. */
  function Groups(basic: seq<Element>, unlock: seq<Element>, firmware: string): (es: seq<Element>)
    ensures |es| == 4
  {
    var fw := if firmware == "" then NoFirmware else firmware;
    [Group("basic", basic), Group("unlock", unlock), Group("fmradio", []),
     Group("roinfo", [Item(Setting(FwVer, Text(fw))), Item(Setting(DriverVer, Text(DriverVersion)))])]
  }

  // ---------------------------------------------------------------
  // Reading back what was stored, and storing what was shown

  /** The name `get_settings` shows a stored setting under: "unknown1"
      comes back as "unknown11"; every other name as itself. */
  function ShownAs(n: Name): Name
  {
    if n == Unknown1 then Unknown11 else n
  }

  /** A store and a reading of the same bytes that undo each other: the
      same bias and maximum, a fallback within the bounds, the same list. */
  predicate Agrees(t: Target, r: Reading)
  {
    match t
    case Number(at, lo, hi, bias) =>
      lo == bias &&
      ((r.Wrapped? && r.at == at && r.bias == bias && r.hi == hi && lo <= r.fallback <= hi) ||
       (r.Capped? && r.at == at && r.bias == bias && r.hi == hi))
    case Switch(at) => r == Flag(at)
    case Pick(at, list) => r == Listed(at, list) || r == Strict(at, list)
    case LogoLine(at) => r == LogoText(at)
    case Ignored => false
  }

  /** Each setting `set_settings` stores is read back by `get_settings`
      under the name it shows it as, and every name `get_settings` shows
      is shown as itself. */
  lemma TablesAgree(n: Name)
    ensures TargetOf(n).Ignored? || Agrees(TargetOf(n), ReadingOf(ShownAs(n)))
    ensures ReadingOf(n).Unshown? || ShownAs(n) == n
  {
  }

  /** What `get_settings` shows after a store: the value itself, except a
      logo line, which shows cut to 12 characters and stripped. */
  function Normal(t: Target, v: Value): Value
    requires Fits(t, v)
  {
    if t.LogoLine? then Text(StripPad(Take(RStripPad(v.text), 12))) else v
  }

  /** A stored value reads back as its normal form. */
  lemma {:induction false} StoreRead(img: seq<byte>, t: Target, r: Reading, v: Value)
    requires |img| == MemSize && Sane(t) && Fits(t, v) && Agrees(t, r) && Readable(r)
    requires Store(img, t, v).Ok?
    ensures Read(Store(img, t, v).value, r) == Ok(Some(Normal(t, v)))
  {
    var img' := Store(img, t, v).value;
    match t
    case Number(at, lo, hi, bias) =>
      assert img'[at] as int + bias == v.n;
    case Switch(at) =>
    case Pick(at, list) =>
      var i := IndexOf(list, v.choice).value;
      assert img'[at] as int == i;
    case LogoLine(at) =>
      assert img'[at..at + LogoSize] == LogoField(v.text);
      LogoRoundTrip(v.text);
  }

  /** `get_settings` after `set_settings` of one setting shows what was
      stored, under the name it shows it as. */
  lemma {:induction false} SetShown(img: seq<byte>, s: Setting)
    requires |img| == MemSize && Kinded(s) && !TargetOf(s.name).Ignored?
    requires ApplySetting(img, s).Ok?
    ensures Shown(ApplySetting(img, s).value, ShownAs(s.name)) == Ok(Some(Normal(TargetOf(s.name), s.value)))
  {
    TargetSane(s.name);
    TablesAgree(s.name);
    ReadingReadable(ShownAs(s.name));
    StoreRead(img, TargetOf(s.name), ReadingOf(ShownAs(s.name)), s.value);
  }

  /** A value `set_settings` stores without a ValueError. */
  predicate Accepted(t: Target, v: Value)
  {
    Fits(t, v) && (t.Pick? ==> v.choice in t.list)
  }

  /** Whatever a reading shows is a value its store accepts: integers
      within the bounds they are shown with, and choices from the list. */
  lemma {:induction false} ReadAccepted(img: seq<byte>, t: Target, r: Reading)
    requires |img| == MemSize && Sane(t) && Agrees(t, r) && Readable(r)
    requires Read(img, r).Ok? && Read(img, r).value.Some?
    ensures Accepted(t, Read(img, r).value.value)
  {
    if r.Listed? || r.Strict? {
      ChoiceAccepted(img, t, r);
    } else if r.LogoText? {
      LogoShownOneByte(img[r.at..r.at + LogoSize]);
    } else if t.Number? {
      NumberAccepted(img, t, r);
    }
  }

  /** A choice shown from a list is in that list. */
  lemma {:induction false} ChoiceAccepted(img: seq<byte>, t: Target, r: Reading)
    requires |img| == MemSize && Sane(t) && Agrees(t, r) && Readable(r) && (r.Listed? || r.Strict?)
    requires Read(img, r).Ok?
    ensures Accepted(t, Read(img, r).value.value)
  {
    var k := if img[r.at] as int < |r.list| then img[r.at] as int else 0;
    assert Read(img, r).value.value == Choice(r.list[k]);
    assert r.list[k] in r.list;
  }

  /** An integer shown with a fallback or a cap lies within the bounds
      it is shown with. */
  lemma {:induction false} NumberAccepted(img: seq<byte>, t: Target, r: Reading)
    requires |img| == MemSize && Sane(t) && Agrees(t, r) && Readable(r) && t.Number?
    ensures Read(img, r).Ok? && Accepted(t, Read(img, r).value.value)
  {
  }

  /** A logo line shown from bytes has one-byte characters. */
  lemma {:induction false} LogoShownOneByte(bs: seq<byte>)
    ensures OneByteChars(LogoShown(bs))
  {
    var c := Chars(bs);
    var r := RStripPad(c);
    var l := LStripPad(r);
    var t := Take(l, 12);
    forall i | 0 <= i < |t|
      ensures t[i] as int < 256
    {
      assert t[i] == l[i] == r[|r| - |l| + i] == c[|r| - |l| + i];
    }
  }

  /** Every setting `get_settings` shows from the image is of the kind
      `set_settings` takes, stores without error, and, but for the logo
      lines, shows the same value again once stored. */
  lemma {:induction false} ShownStored(img: seq<byte>, n: Name)
    requires |img| == MemSize && Shown(img, n).Ok? && Shown(img, n).value.Some?
    ensures var s := Setting(n, Shown(img, n).value.value);
      Kinded(s) && Accepted(TargetOf(n), s.value) && ApplySetting(img, s).Ok? &&
      (TargetOf(n).Ignored? || TargetOf(n).LogoLine? || Shown(ApplySetting(img, s).value, n) == Shown(img, n))
  {
    TargetSane(n);
    TablesAgree(n);
    ReadingReadable(n);
    var v := Shown(img, n).value.value;
    if !TargetOf(n).Ignored? {
      ReadAccepted(img, TargetOf(n), ReadingOf(n));
      SetShown(img, Setting(n, v));
    }
  }

  /** Battery save is among the basic settings and not the unlock ones. */
  lemma BatteryShownOnce()
    ensures BatterySave in BasicNames && BatterySave !in UnlockNames
  {
    assert BasicNames[8] == BatterySave;
  }

  /** A group fails exactly when it shows battery save past its list. */
  lemma {:induction false} ShownItemsFail(img: seq<byte>, names: seq<Name>)
    requires |img| == MemSize
    ensures ShownItems(img, names).Err? <==> BatterySave in names && img[BatterySaveAt] as int >= |BatSaveList|
  {
    if |names| > 0 {
      ShownItemsFail(img, names[1..]);
      assert names == [names[0]] + names[1..];
    }
  }

  // ---------------------------------------------------------------
  // Storing everything `get_settings` shows

  /** Every setting of an element, in every group, is one `set_settings`
      stores without a ValueError. */
  predicate AcceptedElement(e: Element)
    decreases e
  {
    match e
    case Item(s) => Accepted(TargetOf(s.name), s.value)
    case Group(_, items) => forall i :: 0 <= i < |items| ==> AcceptedElement(items[i])
  }

  predicate AllAccepted(es: seq<Element>)
  {
    forall i :: 0 <= i < |es| ==> AcceptedElement(es[i])
  }

  /** An accepted element is of the kind `set_settings` takes. */
  lemma {:induction false} AcceptedKinded(e: Element)
    requires AcceptedElement(e)
    ensures KindedElement(e)
    decreases e
  {
    match e
    case Item(s) =>
    case Group(_, items) =>
      forall i | 0 <= i < |items|
        ensures KindedElement(items[i])
      {
        AcceptedKinded(items[i]);
      }
  }

  lemma {:induction false} AllAcceptedKinded(es: seq<Element>)
    requires AllAccepted(es)
    ensures AllKinded(es)
  {
    forall i | 0 <= i < |es|
      ensures KindedElement(es[i])
    {
      AcceptedKinded(es[i]);
    }
  }

  /** `set_settings` of accepted elements returns without a ValueError. */
  lemma {:induction false} ApplyFromAccepted(img: seq<byte>, es: seq<Element>, k: nat)
    requires |img| == MemSize && AllKinded(es) && AllAccepted(es)
    ensures ApplyFrom(img, es, k).outcome.Ok?
    decreases es, |es| - k
  {
    if k < |es| {
      ApplyElementAccepted(img, es[k]);
      ApplyFromAccepted(ApplyElement(img, es[k]).image, es, k + 1);
    }
  }

  lemma {:induction false} ApplyElementAccepted(img: seq<byte>, e: Element)
    requires |img| == MemSize && KindedElement(e) && AcceptedElement(e)
    ensures ApplyElement(img, e).outcome.Ok?
    decreases e
  {
    match e
    case Item(s) =>
      TargetSane(s.name);
      assert ApplySetting(img, s).Ok?;
    case Group(_, items) =>
      ApplyFromAccepted(img, items, 0);
  }

  /** The items of a group that `get_settings` shows are all accepted. */
  lemma {:induction false} ShownItemsAccepted(img: seq<byte>, names: seq<Name>)
    requires |img| == MemSize && ShownItems(img, names).Ok?
    ensures AllAccepted(ShownItems(img, names).value)
  {
    if |names| > 0 {
      ShownItemsAccepted(img, names[1..]);
      var v := Shown(img, names[0]).value;
      var rest := ShownItems(img, names[1..]).value;
      var head := if v.Some? then [Item(Setting(names[0], v.value))] else [];
      if v.Some? {
        ShownStored(img, names[0]);
      }
      assert AllAccepted(head);
      assert ShownItems(img, names).value == head + rest;
    }
  }

  /** Whatever `get_settings` returns, `set_settings` takes and stores
      without a ValueError. */
  lemma {:induction false} SettingsAccepted(img: seq<byte>, firmware: string)
    requires |img| == MemSize && GetSettings(img, firmware).Ok?
    ensures AllKinded(GetSettings(img, firmware).value)
    ensures ApplySettings(img, GetSettings(img, firmware).value).outcome.Ok?
  {
    var basic := ShownItems(img, BasicNames).value;
    var unlock := ShownItems(img, UnlockNames).value;
    ShownItemsAccepted(img, BasicNames);
    ShownItemsAccepted(img, UnlockNames);
    GroupsAccepted(basic, unlock, firmware);
    var es := Groups(basic, unlock, firmware);
    assert GetSettings(img, firmware).value == es;
    AllAcceptedKinded(es);
    ApplyFromAccepted(img, es, 0);
  }

  /** The groups around accepted settings are accepted: the read-only
      settings are ones `set_settings` skips. */
  lemma GroupsAccepted(basic: seq<Element>, unlock: seq<Element>, firmware: string)
    requires AllAccepted(basic) && AllAccepted(unlock)
    ensures AllAccepted(Groups(basic, unlock, firmware))
  {
    var es := Groups(basic, unlock, firmware);
    ReadOnlySkipped();
    assert AcceptedElement(es[3]);
  }

  lemma ReadOnlySkipped()
    ensures TargetOf(FwVer) == Ignored && TargetOf(DriverVer) == Ignored
  {
  }

  /** The names `set_settings` skips leave the image as it was. */
  lemma IgnoredKept(img: seq<byte>, s: Setting)
    requires |img| == MemSize && TargetOf(s.name).Ignored?
    ensures ApplySetting(img, s) == Ok(img)
  {
  }
}
