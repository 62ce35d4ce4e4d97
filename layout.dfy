/** Where things live in the radio's 8 KiB memory image (the `MEM_FORMAT`
    of uvk5.py:46-113, and the sizes at uvk5.py:195-197), as explicit
    addresses. */
module Layout {

  /** `MEM_SIZE`: the whole EEPROM image. */
  const MemSize: nat := 0x2000
  /** `PROG_SIZE`: the part of it an upload writes back. */
  const ProgSize: nat := 0x1d00
  /** `MEM_BLOCK`: the size of one read or write. */
  const MemBlock: nat := 0x80

  /** `channel[214]` at 0x0000: 16-byte records. */
  const Channels: nat := 214
  const RecordSize: nat := 16
  /** `channelname[200]` at 0xF50: 16 characters each; the 14 channels
      past the first 200 are the VFOs and have no name. */
  const NamedChannels: nat := 200
  const NameBase: nat := 0xf50
  const NameSize: nat := 16

  /** The record of channel `index` (0-based). */
  function RecordAt(index: nat): (a: nat)
    requires index < Channels
    ensures a + RecordSize <= ChannelsEnd
  {
    index * RecordSize
  }

  /** The name of channel `index` (0-based). */
  function NameAt(index: nat): (a: nat)
    requires index < NamedChannels
    ensures NameBase <= a && a + NameSize <= NamesEnd
  {
    NameBase + index * NameSize
  }

  const ChannelsEnd: nat := 0xd60
  const NamesEnd: nat := 0x1bd0

  /** The fields of a channel record, as offsets into it. */
  const FreqField: nat := 0       // ul32 freq, in units of 10 Hz
  const OffsetField: nat := 4     // ul32 offset, in units of 10 Hz
  const RxCodeField: nat := 8
  const TxCodeField: nat := 9
  const CodeFlagField: nat := 10
  const Flags1Field: nat := 11
  const Flags2Field: nat := 12
  const DtmfFlagsField: nat := 13
  const StepField: nat := 14
  const ScramblerField: nat := 15

  /** The settings bytes. */
  const CallChannelAt: nat := 0xe70
  const SquelchAt: nat := 0xe71
  const MaxTalkTimeAt: nat := 0xe72
  const NoaaAutoscanAt: nat := 0xe73
  const VoxLevelAt: nat := 0xe76
  const MicGainAt: nat := 0xe77
  const ChannelDisplayModeAt: nat := 0xe79
  const CrossbandAt: nat := 0xe7a
  const BatterySaveAt: nat := 0xe7b
  const DualWatchAt: nat := 0xe7c
  const TailNoteEliminationAt: nat := 0xe7d
  const VfoOpenAt: nat := 0xe7e
  const BeepControlAt: nat := 0xe90
  const ScanResumeModeAt: nat := 0xe95
  const AutoKeypadLockAt: nat := 0xe96
  const PowerOnDispmodeAt: nat := 0xe97
  const KeypadToneAt: nat := 0xea0
  const LanguageAt: nat := 0xea1
  const AlarmModeAt: nat := 0xea8
  const RemindingOfEndTalkAt: nat := 0xea9
  const RepeaterTailEliminationAt: nat := 0xeaa
  /** `logo_line1` and `logo_line2`: 16 characters each. */
  const LogoLine1At: nat := 0xeb0
  const LogoLine2At: nat := 0xec0
  const LogoSize: nat := 16
  /** The unlock bytes. */
  const IntFlockAt: nat := 0xf40
  const Int350txAt: nat := 0xf41
  const IntUnknown1At: nat := 0xf42
  const Int200txAt: nat := 0xf43
  const Int500txAt: nat := 0xf44
  const Int350enAt: nat := 0xf45
  const IntScreenAt: nat := 0xf46

  /** The settings area, from `call_channel` to `int_screen`. */
  const SettingsStart: nat := 0xe70
  const SettingsEnd: nat := 0xf47

  /** The channel records, the settings and the names follow each other
      without overlapping, and all of them lie in the part of memory that
      an upload writes back. */
  lemma RegionsInOrder()
    ensures RecordAt(Channels - 1) + RecordSize == ChannelsEnd
    ensures NameAt(NamedChannels - 1) + NameSize == NamesEnd
    ensures ChannelsEnd <= SettingsStart
    ensures LogoLine2At + LogoSize <= IntFlockAt && IntScreenAt < SettingsEnd <= NameBase
    ensures NamesEnd <= ProgSize <= MemSize
  {
  }

  /** Two channels' records, and two channels' names, never overlap. */
  lemma RecordsApart(i: nat, j: nat)
    requires i < j < Channels
    ensures RecordAt(i) + RecordSize <= RecordAt(j)
  {
  }

  lemma NamesApart(i: nat, j: nat)
    requires i < j < NamedChannels
    ensures NameAt(i) + NameSize <= NameAt(j)
  {
  }
}
