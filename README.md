# Quansheng UV-K5 clone-mode driver, modelled in Dafny

This project models the CHIRP driver for the Quansheng UV-K5 handheld
(`uvk5.py`). It covers five parts of the driver:

- **The serial protocol.** Every command is framed as `AB CD len 00`, then
  a payload and CRC-16/XMODEM obfuscated by a 16-byte XOR table, then
  `DC BA`. A reply is de-obfuscated, but its checksum is never checked.
  The hello is retried up to five times, then come the `readmem`/`writemem`
  blocks and the reset packet.
- **Download and upload.** The download reads the whole 8 KiB image in
  64 blocks of 128 bytes. The upload writes the first 0x1D00 bytes back in
  58 blocks, and the radio is reset afterwards.
- **The memory layout.** There are 214 channel records of 16 bytes, 200
  channel names, the settings area at 0xE70–0xF46 and the two logo lines.
- **Channels.** `get_memory` decodes a record and its name into CHIRP's
  channel. `set_memory` encodes a channel into its record: mode,
  frequency, offset, duplex, name, tones, step, power and the five
  per-channel extras.
- **Settings.** `get_settings` shows each setting byte under its name.
  `set_settings` stores a tree of settings back.

The radio object (`Radio.Radio`) keeps the image as an `array<byte>` that
`set_memory` and `set_settings` edit in place, plus the firmware version
the last hello reported. Each method is proved equal to a function on the
image (`Channels.StoreMemory`, `Settings.ApplyFrom`). The properties are
stated about those functions:

- **The channel round trip.** A channel in use that `get_memory` shows can
  be stored again without error, and reads back the same (`GetSetMemory`).
  Storing a channel and reading it back gives the channel normalised to
  what the record can hold (`SetGetMemory`).
- **The settings round trip.** Every list `get_settings` shows can be
  given back to `set_settings` without a `ValueError` (`SettingsAccepted`).
  A setting stored is shown back, normalised (`SetShown`).
- **Framing.** It round-trips. A reply with any checksum bytes at all is
  accepted.
- **The download.** It yields exactly the radio's memory when every block
  is served.
- **Frames and footprints.** Each write touches only its channel's record
  and name, or only the settings area.

The serial line is modelled at two levels:

- `Transport.ReadReply` turns the bytes of one reply into what
  `_receive_reply` returns, proved equal to `Framing.Receive`.
- `Transport.Port` holds the sequence of those outcomes that the radio
  will produce. The protocol methods consume the outcomes one by one and
  log the payloads they send. The bytes written to the port are always
  the frames of the logged payloads, in order (`Port.Valid`).

Python exceptions become `Result` errors:

| Python exception | Raised by | `Result` error |
|---|---|---|
| `RadioError` | a bad header or footer | `BadResponseHeader` or `BadResponseFooter` |
| `IndexError` | a short read, a short reply, or a battery-save byte past its list | `IndexOutOfRange` |
| `ValueError` | `list.index` | `NotInList` |

Two behaviours of the source are modelled as written:

- `set_memory` is not atomic. The edits made before a failing lookup stay
  in the image.
- `set_settings` stores "unknown1", but `get_settings` shows that byte as
  "unknown11", a name `set_settings` ignores (`Settings.ShownAs`).

## Model

| member | source | states |
|---|---|---|
| Bytes.U32At | uvk5.py:48-49 | a `ul32` field read from the image is below 2^32 |
| Bytes.U32RoundTrip | uvk5.py:48-49 | reading back the four little-endian bytes of a value below 2^32 gives the value |
| Bytes.U32LeAt | uvk5.py:48-49 | the four little-endian bytes of the value read from a field are that field's bytes |
| Bytes.SpliceSame | uvk5.py:1054-1055 | writing back the bytes already in a field changes nothing |
| Bytes.U32AtSplice | uvk5.py:1054-1055 | after the frequency or offset field is written, reading it back gives the value written |
| Bytes.U32Sentinels | uvk5.py:641 | a `ul32` is 0xFFFFFFFF exactly when its four bytes are 0xFF, and 0 exactly when they are 0 |
| Obfuscation.XorArr | uvk5.py:200-208 | the loop over the data equals `Xored`: byte k is XORed with table entry k mod 16 |
| Obfuscation.Xored | uvk5.py:200-208 | obfuscation keeps the length; what each byte becomes is stated by `XorArr` and `XoredInvolution` |
| Obfuscation.XoredInvolution | uvk5.py:200-208 | obfuscating twice gives the data back, so the same routine both encodes and decodes |
| Obfuscation.XoredPrefix | uvk5.py:200-208 | the obfuscation of a prefix is the prefix of the obfuscation, because the key position depends only on the byte's index |
| Obfuscation.XoredSnoc | uvk5.py:205-207 | one more byte adds one byte, XORed with the next key entry |
| Checksum.CalculateCrc16Xmodem | uvk5.py:213-222 | the byte loop, with its 8-step inner loop, equals the CRC function `Crc16` |
| Checksum.Crc16 | uvk5.py:213-222 | the CRC register, fed one byte at a time, always fits in 16 bits |
| Checksum.Crc16Append | uvk5.py:216-221 | the CRC of data plus one byte is that byte's update of the CRC of the data |
| Checksum.CheckValue | uvk5.py:213-222 | the CRC of "123456789" is 0x31C3, the CRC-16/XMODEM check value |
| Framing.Frame | uvk5.py:225-235 | a frame is 8 bytes longer than its payload and carries the payload's length in byte 2 |
| Framing.FrameLayout | uvk5.py:230-233 | a frame is the header `AB CD len 00`, then the payload and its little-endian CRC obfuscated, then `DC BA` |
| Framing.EnvelopeOpens | uvk5.py:233 | de-obfuscating the body of an envelope gives back what was obfuscated into it |
| Framing.HeaderFault | uvk5.py:244-248 | a header is accepted exactly when it has 4 bytes `AB CD _ 00`; a short read fails with IndexError exactly where the byte checks reach past it, otherwise RadioError |
| Framing.FooterFault | uvk5.py:253-258 | a footer is accepted exactly when its bytes 2-3 are `DC BA`; IndexError exactly where the check reaches past a short read |
| Framing.Receive | uvk5.py:237-267 | a reply consumes a prefix of the line and leaves the rest |
| Framing.ReceiveBodyAccepts | uvk5.py:252-267 | the body of a reply is accepted exactly when the footer follows it, and it is returned de-obfuscated |
| Framing.ReceiveAccepts | uvk5.py:237-267 | `_receive_reply` returns a payload exactly when the line holds a well-framed reply |
| Framing.ReceivePayload | uvk5.py:252-267 | for a well-framed reply, the payload is the de-obfuscated body, and reading stops after the footer |
| Framing.FrameRoundTrip | uvk5.py:225-267 | receiving a frame gives back its payload and leaves the rest of the line untouched |
| Framing.EnvelopeRoundTrip | uvk5.py:237-267 | any two trailing check bytes are de-obfuscated and ignored |
| Framing.AnyChecksumAccepted | uvk5.py:237-267 | a reply is accepted whatever its checksum bytes are: the CRC of replies is never verified |
| Framing.ForgedTail | uvk5.py:200-208 | obfuscating the pre-images of chosen checksum bytes yields exactly those bytes, so any tail can be forged |
| Layout.RecordAt | uvk5.py:47-58 | each of the 214 records lies inside the channel array |
| Layout.NameAt | uvk5.py:110-113 | each of the 200 names lies inside the name array |
| Layout.RegionsInOrder | uvk5.py:45-114 | the channels, settings, logo lines and names follow one another without overlapping, and all of them lie within `PROG_SIZE` and `MEM_SIZE` |
| Layout.RecordsApart | uvk5.py:47-58 | distinct channels' records do not overlap |
| Layout.NamesApart | uvk5.py:110-113 | distinct channels' names do not overlap |
| Transport.Port.Write | uvk5.py:235 | `serial.write` appends to the output and changes nothing else |
| Transport.SendCommand | uvk5.py:225-235 | sending writes exactly the frame of the payload and logs the payload, so the output stays the frames of the logged payloads |
| Transport.FramesSnoc | uvk5.py:225-235 | sending one more payload appends its frame to the output |
| Transport.FramesAppend | uvk5.py:225-235 | the frames of two runs of commands, one after the other, are the output of the first followed by that of the second |
| Transport.Read | uvk5.py:244-253 | `serial.read(n)` returns at most n bytes from the front of the line, the timeout giving fewer |
| Transport.ReadReply | uvk5.py:237-267 | reading the header, the body and the footer from the line equals `Framing.Receive` |
| Transport.ReceiveReply | uvk5.py:237-267 | a reply consumes one outcome from the line and writes nothing, and an empty line fails with IndexError |
| Transport.SilentLine | uvk5.py:244-245 | with nothing on the line, `header[0]` raises IndexError |
| Protocol.ReadMemCommand | uvk5.py:304 | a `readmem` command is 12 bytes |
| Protocol.DecodeReadMem | uvk5.py:303-305 | a `readmem` command decodes to a read of `length` bytes at the offset, modulo 2^16 |
| Protocol.WriteMemCommand | uvk5.py:314 | a `writemem` command is the data plus 12 bytes |
| Protocol.DecodeWriteMem | uvk5.py:312-315 | a `writemem` command decodes to a write of exactly the data at the offset, modulo 2^16 |
| Protocol.AddressBytes | uvk5.py:304 | the two address bytes hold the offset modulo 2^16, low byte first |
| Protocol.DecodeHello | uvk5.py:284 | the hello packet decodes as the hello request |
| Protocol.DecodeReset | uvk5.py:325 | the reset packet decodes as the reset request |
| Protocol.WriteAcknowledged | uvk5.py:319-321 | a write is acknowledged exactly when the reply starts `1E lo hi` for the offset; IndexError exactly when the comparison reaches past a short reply |
| Protocol.PrintableRunIsPrefix | uvk5.py:270-280 | the firmware string is the longest prefix of printable ASCII (space to '~') |
| Protocol.PrintableRunStops | uvk5.py:270-280 | any prefix that is all printable and ends at an unprintable byte or at the end is that string |
| Protocol.GetString | uvk5.py:270-280 | the counting loop skips `begin - 1` bytes and then collects the printable run |
| Protocol.HelloFrom | uvk5.py:287-296 | the hello stops at the first reply that is not empty, and gives up only after all five tries |
| Protocol.HelloExchange | uvk5.py:283-301 | the hello takes one to five attempts, and a silent line fails at the first with IndexError |
| Protocol.HelloEnds | uvk5.py:287-296 | after empty replies, the first non-empty reply decides the hello's outcome and its number of attempts |
| Protocol.HelloGivesUp | uvk5.py:293-296 | five empty replies make the hello give up with no firmware |
| Protocol.HelloFirstTry | uvk5.py:288-300 | a radio that answers the first hello has its firmware read from the reply, in one attempt |
| Protocol.SayHello | uvk5.py:283-301 | `_sayhello` sends the hello once per attempt and consumes one reply per attempt, with the outcome `HelloExchange` gives; the output is the frames of what was sent |
| Protocol.HelloTry | uvk5.py:288-289 | one try sends the hello packet and consumes one reply |
| Protocol.Firmware | uvk5.py:297 | the firmware string lies within the reply from its fifth byte on and is printable ASCII |
| Protocol.ReadMem | uvk5.py:303-309 | `_readmem` writes the frame of one `readmem` command, consumes one reply, and returns its bytes from 8 on |
| Protocol.WriteMem | uvk5.py:312-321 | `_writemem` writes the frame of one `writemem` command, consumes one reply, and checks it for the acknowledgement |
| Protocol.ResetRadio | uvk5.py:324-326 | the reset writes the frame of the reset packet and reads nothing |
| Sync.ReadCommands | uvk5.py:348-350 | the download sends one `readmem` per block read |
| Sync.ReadCommandsNext | uvk5.py:349-350 | block k is read at address k * 128 |
| Sync.ReadBlocks | uvk5.py:348-358 | the block loop equals `Download`: the replies it consumes and the commands it sends, whose frames are the output |
| Sync.DoDownload | uvk5.py:337-360 | the hello, then the blocks; a failed hello raises, the firmware it read is returned, and the output is the frames of every command sent |
| Sync.DownloadFrom | uvk5.py:348-358 | from block k on, the loop reads at least one more block and at most up to block 64; an image comes back only after all 64 blocks, 128 bytes for each block read |
| Sync.Download | uvk5.py:348-360 | the download reads 1 to 64 blocks, and an image it yields has all 64 blocks and is `MEM_SIZE` bytes |
| Sync.DownloadRest | uvk5.py:349-358 | the remaining blocks yield an image exactly when every one of them is a full 128-byte block |
| Sync.DownloadImage | uvk5.py:349-360 | the download yields an image exactly when all 64 blocks are good, and then it is their concatenation |
| Sync.DownloadRoundTrip | uvk5.py:337-360 | a radio that serves its memory block by block is downloaded exactly |
| Sync.DownloadAddresses | uvk5.py:349-350 | the j-th command reads 128 bytes at j * 128 |
| Sync.BlockAt | uvk5.py:381 | a slice of the image is at most 128 bytes |
| Sync.WriteCommands | uvk5.py:380-382 | the upload sends one `writemem` per block written |
| Sync.WriteCommandsNext | uvk5.py:381-382 | block k is written at address k * 128 |
| Sync.WriteBlocks | uvk5.py:379-388 | the block loop equals `Upload`: the replies it consumes and the commands it sends, whose frames are the output |
| Sync.DoUpload | uvk5.py:364-394 | the hello, the blocks, and the reset only after a full upload; the output is the frames of every command sent |
| Sync.UploadFrom | uvk5.py:379-388 | from block k on, the loop writes at least one more block and at most up to block 58, and `True` comes only after block 58 |
| Sync.Upload | uvk5.py:379-388 | the upload writes 1 to 58 blocks, and returns `True` only after all 58 |
| Sync.UploadWhole | uvk5.py:380-388 | an image reaching into the last block is uploaded in all 58 blocks, and `True` is returned |
| Sync.UploadAddresses | uvk5.py:380-382 | the j-th write carries the image's bytes j * 128 up to (j + 1) * 128 |
| Sync.UploadShort | uvk5.py:385-388 | a shorter image stops at its first empty slice, and `False` is returned |
| Tables.IndexOf | uvk5.py:714 | `list.index` gives the first position holding the value, and a ValueError exactly when the value is absent |
| Tables.IndexOfEntry | uvk5.py:714 | in a list without repeats, looking up entry i gives i |
| Tables.CtcssTable | uvk5.py:162-172 | there are 50 CTCSS tones, in ascending order, with no repeats |
| Tables.DtcsTable | uvk5.py:173-185 | there are 104 DCS codes, in ascending order, with no repeats |
| Tables.StepsTable | uvk5.py:152 | there are 7 tuning steps, with no repeats |
| Tables.ExtraLists | uvk5.py:131-140 | there are 4 PTT-ID choices and 11 scrambler choices, with no repeats |
| Tones.DecodeSide | uvk5.py:523-559 | the polarity is R exactly for type 3; a tone is shown exactly when the type is 1 and the code is in range, DCS exactly when the type is 2 or 3 and the code is in range |
| Tones.GetTone | uvk5.py:523-562 | each side shows no tone exactly when its two type bits are 0, and polarity R exactly when they are 3 (tx from bits 4-5, rx from bits 0-1) |
| Tones.ToneIndex | uvk5.py:497-512 | a tone's index exists exactly when the tone is in the table, and it points at the tone |
| Tones.EncodeSide | uvk5.py:497-515 | encoding a side raises ValueError exactly when its tone is not in its table |
| Tones.SetToneBytes | uvk5.py:493-520 | `_set_tone` raises exactly when either side fails to encode |
| Tones.SetToneKeepsBits | uvk5.py:517 | bits 2, 3, 6 and 7 of `code_flag` are kept |
| Tones.SideRoundTrip | uvk5.py:493-559 | decoding an encoded side gives the side as stored |
| Tones.ToneRoundTrip | uvk5.py:493-562 | `_get_tone` after `_set_tone` gives both sides as stored |
| Tones.SideBytesRoundTrip | uvk5.py:523-559 | encoding a decoded canonical side gives back its type and code |
| Tones.ToneBytesRoundTrip | uvk5.py:493-562 | `_set_tone` after `_get_tone` on canonical bytes rewrites the same bytes |
| Tones.SideStable | uvk5.py:523-559 | a side `_get_tone` reads from readable bytes can be encoded and is already in stored form |
| Tones.ToneStable | uvk5.py:523-562 | both sides read from readable bytes encode and are already in stored form |
| Channels.RStrip | uvk5.py:594 | `rstrip()` removes exactly the trailing whitespace |
| Channels.NameRunShape | uvk5.py:590-593 | the name is the characters up to the first 0x00 or 0xFF |
| Channels.ReadName | uvk5.py:589-594 | the name loop equals the run up to a terminator, right-stripped |
| Channels.Decimal | uvk5.py:587 | `str(n)`: a non-empty string of decimal digits, without a leading zero, whose value is n |
| Channels.VfoNames | uvk5.py:586-587 | channels 201 and 214 are named "VFO_1" and "VFO_14" |
| Channels.NameBytes | uvk5.py:589 | a channel's name field is 16 bytes |
| Channels.RecordOf | uvk5.py:572 | a channel's record is 16 bytes |
| Channels.DecodeRecord | uvk5.py:599-680 | the frequency and offset shown are multiples of 10, the channel is empty exactly when the stored frequency is 0 or 0xFFFFFFFF, and the duplex is "" exactly when the offset is 0 |
| Channels.GetMemory | uvk5.py:568-680 | the channel shown has the requested number, and channels past 200 are named "VFO_n" |
| Channels.StoreMode | uvk5.py:1043-1051 | the mode edit touches only `flags1` and `flags2` |
| Channels.StoreFreq | uvk5.py:1053-1055 | the frequency and offset edit touches only the first 8 bytes |
| Channels.StoreDuplex | uvk5.py:1057-1062 | the duplex edit touches only the offset and `flags1`, and "" and "split" leave the record alone |
| Channels.NameField | uvk5.py:1065-1067 | the name field is the name padded with spaces and cut to 16 bytes |
| Channels.StoreTone | uvk5.py:1071-1072 | the tone edit fails exactly when either side is not in its table, and touches only `code_flag`, `rxcode` and `txcode` |
| Channels.StoreStep | uvk5.py:1074-1075 | the step edit raises ValueError exactly when the step is not in `STEPS`, and touches only the step byte |
| Channels.StoreModeReads | uvk5.py:616-622 | the mode `set_memory` writes is the mode `get_memory` reads |
| Channels.StoreFreqReads | uvk5.py:600-601 | the frequency and offset are stored divided by 10 and read back as stored |
| Channels.StoreDuplexReads | uvk5.py:604-610 | "off" clears the offset; "-" and "+" set and clear the offset bit; nothing else is touched |
| Channels.StoreFieldsReadBack | uvk5.py:1042-1062 | after the mode, frequency, offset and duplex edits, each reads back as written |
| Channels.StoreToneReads | uvk5.py:1072 | after the tone edit, the tones read back as stored and the other fields are untouched |
| Channels.StoreStepReads | uvk5.py:624-629 | after the step edit, the step reads back and only the step byte changed |
| Channels.StorePowerReads | uvk5.py:632-638 | after the power edit, the power reads back and the bandwidth bit is kept |
| Channels.ExtraCode | uvk5.py:1091-1113 | an extra's code fails exactly for a PTT-ID or scrambler choice that is not in its list, and otherwise is the code `get_memory` shows as that extra |
| Channels.PlaceOf | uvk5.py:1086-1113 | each extra lives in a bit field inside the record |
| Channels.StoreExtra | uvk5.py:1086-1113 | one extra raises exactly when its list lookup fails; other names are ignored |
| Channels.ExtrasFrom | uvk5.py:1086-1113 | the extras loop completes exactly when every extra can be stored, and otherwise raises ValueError |
| Channels.ExtrasFootprint | uvk5.py:1086-1113 | the extras touch only the extras bits |
| Channels.ExtrasKeep | uvk5.py:1086-1113 | an extra whose bits no later extra touches keeps its value |
| Channels.ExtrasLastWins | uvk5.py:1086-1113 | the last write to an extra's bits is what is read back |
| Channels.ExtrasReadBack | uvk5.py:1086-1113 | the full list of five extras, stored, is exactly what `get_memory` shows |
| Channels.StoreCodes | uvk5.py:1071-1113 | the edits after the name complete exactly when the tones, the step and every extra are storable |
| Channels.StoreCodesReadBack | uvk5.py:1071-1113 | after the edits, the tones, step, power and extras read back |
| Channels.StoreCodesKeeps | uvk5.py:1071-1113 | the edits after the name keep the frequency, offset and mode bits |
| Channels.EncodeMemory | uvk5.py:1027-1113 | a name is written exactly for the first 200 channels, and the edits fail exactly when a channel in use is not encodable |
| Channels.Patch | uvk5.py:1033-1069 | the record and the name land at the channel's places, and no other byte changes |
| Channels.StoreMemory | uvk5.py:1027-1118 | `set_memory` keeps the image size, and completes exactly when the channel is empty or encodable |
| Channels.StoreMemoryPlaces | uvk5.py:1027-1069 | the channel's record and name hold what was encoded for them |
| Channels.StoreMemoryFrame | uvk5.py:1027-1118 | `set_memory` changes no byte outside its channel's record and name |
| Channels.EncodeDecode | uvk5.py:568-680 | decoding the record `set_memory` encoded gives the channel normalised to what the record holds |
| Channels.EncodeDecodeShifted | uvk5.py:604-610 | a simplex or split channel with an offset decodes as "+" or "-" according to the `flags1` bit it found, and otherwise normalised |
| Channels.DecodeShifted | uvk5.py:604-610 | once the other fields read back, the duplex shown follows the kept `flags1` bit |
| Channels.RStripSpaces | uvk5.py:1067 | padding with spaces and right-stripping gives the right-stripped name |
| Channels.NameRoundTrip | uvk5.py:1065-1069 | a name without 0x00/0xFF, stored and read back, is its first 16 characters, right-stripped |
| Channels.NameStable | uvk5.py:589-594 | a name read from any 16 bytes is stored and read back unchanged |
| Channels.NameShown | uvk5.py:586-594 | the name `get_memory` shows is the stored name: the 16-character name for the first 200 channels, and "VFO_n" after them |
| Channels.GetAt | uvk5.py:568-572 | `get_memory` decodes the channel's record under its name |
| Channels.StoredRecordName | uvk5.py:1027-1069 | after `set_memory`, the record is the encoded one and the name shown is the stored one |
| Channels.GetStored | uvk5.py:568-680 | `get_memory` after `set_memory` decodes the encoded record under the stored name |
| Channels.SetGetMemory | uvk5.py:1027-1118 | `get_memory` after `set_memory` of an encodable channel gives the channel normalised |
| Channels.SetGetShifted | uvk5.py:1057-1062 | `get_memory` after `set_memory` of a simplex or split channel with an offset shows "+" or "-" according to the old `flags1` bit |
| Channels.PttIdStorable | uvk5.py:660-663 | every PTT-ID choice shown can be stored |
| Channels.ScramblerStorable | uvk5.py:671-678 | every scrambler choice shown can be stored |
| Channels.ExtrasStable | uvk5.py:646-678 | the extras `get_memory` shows are the complete five, and each can be stored |
| Channels.RecordFits | uvk5.py:600-601 | a frequency and an offset read from a record are multiples of 10 whose tenths fit a `ul32` |
| Channels.RecordEncodable | uvk5.py:568-680 | a channel read from a record with readable tones can be encoded, and its tones are already in stored form |
| Channels.StepListed | uvk5.py:625-629 | every step shown is a listed step |
| Channels.RecordShift | uvk5.py:604-610 | the duplex shown is never "off", and is simplex exactly when the offset is 0 |
| Channels.RecordStable | uvk5.py:568-680 | a channel read from a record is already normalised and encodable |
| Channels.GetStorable | uvk5.py:568-680 | a channel in use that `get_memory` shows can be given to `set_memory` and keeps its name |
| Channels.GetNumberName | uvk5.py:584-594 | `get_memory` shows the requested number and the channel's name |
| Channels.GetFits | uvk5.py:600-601 | the frequency and offset shown fit their fields again |
| Channels.ChannelNameStable | uvk5.py:589-594 | the name of one of the first 200 channels is stored and read back unchanged |
| Channels.GetSetMemory | uvk5.py:568-680 | storing a channel in use exactly as `get_memory` shows it completes and reads back the same |
| Channels.BlankIsEmpty | uvk5.py:641-644 | a record of 0xFF shows an empty channel |
| Channels.EmptyStored | uvk5.py:1035-1040 | storing an empty channel sets its record and name to 0xFF, and it reads back empty |
| Channels.BlankName | uvk5.py:591 | a name of 0xFF reads as "" |
| Channels.SetFieldSame | uvk5.py:1043-1113 | writing a bit field's own value back leaves the record unchanged |
| Channels.FlagBit | uvk5.py:1091-1110 | a flag read as a boolean and written back is its one-bit field |
| Channels.StoreModeSame | uvk5.py:616-622 | storing the mode read from a record rewrites the same bytes, unless AM and the bandwidth bit are both set |
| Channels.StoreFreqSame | uvk5.py:600-601 | storing the frequency and offset read from a record rewrites the same bytes |
| Channels.StoreDuplexSame | uvk5.py:604-610 | storing the duplex read from a record rewrites the same bytes |
| Channels.StoreToneSame | uvk5.py:1072 | storing the tones read from canonical tone bytes rewrites the same bytes |
| Channels.ToneBytesSame | uvk5.py:1072 | writing back the three tone bytes already there changes nothing |
| Channels.StoreStepSame | uvk5.py:624-629 | storing the step read from a step byte `2 * i`, i < 7, rewrites the same byte |
| Channels.StorePowerSame | uvk5.py:632-638 | storing the power read from a record rewrites the same bits, unless the power bits are `0b11` |
| Channels.StoreExtraSame | uvk5.py:646-678 | storing any one extra read from a record rewrites the same bytes when the scrambler code is in its list |
| Channels.ExtrasSame | uvk5.py:1086-1113 | storing the five extras read from a record completes and rewrites the same bytes |
| Channels.StoreFieldsSame | uvk5.py:1043-1062 | the mode, frequency, offset and duplex edits of a decoded canonical record rewrite it unchanged |
| Channels.StoreCodesSame | uvk5.py:1071-1113 | the tone, step, power and extras edits of a decoded canonical record complete and rewrite it unchanged |
| Channels.RecordRoundTrip | uvk5.py:568-680 | decoding a canonical 16-byte record and encoding the channel again gives the same bytes |
| Channels.EncodeSame | uvk5.py:1042-1113 | encoding a storable channel decoded from a canonical record gives back that record without error |
| Channels.StoreSameRecord | uvk5.py:1027-1118 | when a channel encodes to the record it already has, `set_memory` completes and leaves that record |
| Channels.GetSetRecord | uvk5.py:568-680 | `set_memory` of a channel in use exactly as `get_memory` shows it, from a canonical record, leaves the record byte for byte |
| Settings.RStripPad | uvk5.py:773 | `rstrip` of space, NUL and 0xFF removes exactly those trailing characters |
| Settings.LStripPad | uvk5.py:961 | `strip` removes exactly those leading characters |
| Settings.StoredLine | uvk5.py:773-774 | the stored logo line is the stripped text, cut or NUL-padded to 12 characters, then four 0xFF |
| Settings.LogoField | uvk5.py:772-780 | the logo bytes are the stripped text, cut or NUL-padded to 12 characters, then four 0xFF |
| Settings.LogoShown | uvk5.py:961-962 | a logo line is shown as at most 12 characters |
| Settings.LogoChars | uvk5.py:773-774 | the stored line is the first 12 stripped characters, followed by padding |
| Settings.LogoRoundTrip | uvk5.py:961-962 | a stored logo is shown back as its first 12 stripped characters, stripped again |
| Settings.LogoKept | uvk5.py:961-962 | a logo of at most 12 characters without padding at either end is shown back unchanged |
| Settings.TargetSane | uvk5.py:689-811 | every setting name stores into a byte of the settings area, or into a logo line |
| Settings.Store | uvk5.py:689-781 | a store raises ValueError exactly for a list choice that is not in the list, and changes no byte but its own |
| Settings.ApplySetting | uvk5.py:689-811 | one setting keeps the image size |
| Settings.ApplyFrom | uvk5.py:682-687 | the walk over a settings tree keeps the image size and can only raise ValueError |
| Settings.ApplyElement | uvk5.py:684-687 | a group is walked recursively, a setting stored |
| Settings.ApplyFromFrame | uvk5.py:682-811 | `set_settings` changes no byte outside the settings area |
| Settings.ApplySettings | uvk5.py:682-811 | `set_settings` keeps the image size, can only raise ValueError, and changes no byte outside the settings area |
| Settings.ApplyFromKeeps | uvk5.py:682-811 | the walk over a whole settings tree keeps every byte outside the settings area |
| Settings.Read | uvk5.py:828-1008 | a setting is shown without error except battery save past the end of its list, which raises IndexError |
| Settings.TablesAgree | uvk5.py:682-1008 | each stored name is shown from the same byte, with the same list or bias, under `ShownAs` |
| Settings.StoreRead | uvk5.py:689-1008 | a value stored is read back, normalised |
| Settings.SetShown | uvk5.py:682-1008 | after `set_settings` of one setting, `get_settings` shows it normalised |
| Settings.ReadAccepted | uvk5.py:828-1008 | every value shown is accepted by the store of the same name |
| Settings.ChoiceAccepted | uvk5.py:873-983 | a list choice shown is in the list the store looks it up in |
| Settings.NumberAccepted | uvk5.py:831-866 | a number shown is within the bounds the store accepts |
| Settings.ShownStored | uvk5.py:828-1008 | a shown setting can be stored, and storing it leaves it shown the same |
| Settings.GetSettings | uvk5.py:818-1023 | `get_settings` raises IndexError exactly when the battery-save byte is past the end of its list, and otherwise returns four groups |
| Settings.BatteryShownOnce | uvk5.py:884 | battery save is in the basic group, not the unlock group |
| Settings.ShownItemsFail | uvk5.py:884 | a group fails exactly when it holds battery save and the battery-save byte is past the end of its list |
| Settings.Groups | uvk5.py:821-826 | the settings are four groups: basic, unlock, FM radio and read-only info |
| Settings.ApplyFromAccepted | uvk5.py:682-687 | a tree whose every value is accepted is stored without error |
| Settings.ApplyElementAccepted | uvk5.py:684-687 | an accepted group or setting is stored without error |
| Settings.ShownItemsAccepted | uvk5.py:828-1008 | every setting a group shows is accepted |
| Settings.GroupsAccepted | uvk5.py:1010-1021 | the four groups are accepted when the basic and unlock groups are |
| Settings.ReadOnlySkipped | uvk5.py:1010-1021 | the firmware and driver version are not stored by `set_settings` |
| Settings.IgnoredKept | uvk5.py:682-811 | a name `set_settings` does not handle leaves the image unchanged |
| Settings.SettingsAccepted | uvk5.py:682-1023 | the settings `get_settings` returns can be given back to `set_settings` without error |
| Radio.EditExtras | uvk5.py:1086-1113 | the extras loop on the record equals `ExtrasFrom` |
| Radio.EditCodes | uvk5.py:1071-1113 | the tone, step, power and extras edits equal `StoreCodes` |
| Radio.EncodeChannel | uvk5.py:1042-1113 | the edits of a channel in use equal `EncodeMemory` |
| Radio.Radio.constructor | uvk5.py:478-479 | a radio over a loaded image holds that image, and no firmware yet |
| Radio.Radio.WriteBytes | uvk5.py:1069 | assigning bytes in place splices them into the image |
| Radio.Radio.SyncIn | uvk5.py:469-471 | the firmware is recorded after a good hello; a complete download replaces the image, and any other outcome keeps it; the port has sent the hellos and then one `readmem` per block read, and consumed one reply for each |
| Radio.Radio.SyncOut | uvk5.py:474-475 | the image is uploaded as `Upload` says: the port has sent the hellos, one `writemem` per block written and, only after a full upload, the reset packet, and consumed one reply per hello and block |
| Radio.Radio.GetMemory | uvk5.py:568-680 | the channel shown has the requested number and, when in use, can be stored back under its own name |
| Radio.Radio.SetMemory | uvk5.py:1027-1118 | the image in place becomes `StoreMemory` of the old image, with the same outcome |
| Radio.Radio.ClearChannel | uvk5.py:1035-1040 | an empty channel's record and name are set to 0xFF in place |
| Radio.Radio.WriteChannel | uvk5.py:1042-1113 | a channel in use is encoded and written in place, as `StoreMemory` says |
| Radio.Radio.PatchChannel | uvk5.py:1033-1069 | writing the record and the name in place is `Patch` |
| Radio.Radio.SetSetting | uvk5.py:689-811 | one setting is stored in place; on a ValueError the image is unchanged |
| Radio.Radio.SetSettings | uvk5.py:682-687 | the recursive walk in place equals `ApplyFrom`, stopping at the first ValueError with the settings before it stored |
| Radio.Radio.GetSettings | uvk5.py:818-1023 | `get_settings` raises exactly when the battery-save byte is past the end of its list |

## Left out

- The serial port's timeout, baud rate and byte-level reads are reduced to
  `Transport.Read`. The port's timing is not modelled: a short read simply
  yields fewer bytes.
- `Transport.Port` is modelled one reply at a time. The bytes of each
  reply are related to its outcome by `ReadReply`/`Framing.Receive`, but a
  reply that spills over into the next one is not modelled.
- Status callbacks (`status_fn`), logging, `PRINT_CONSOLE` printing,
  `get_prompts`, `get_features`, `get_raw_memory` and `validate_memory`
  are not modelled. They are user-interface metadata or delegate to CHIRP.
- `warnfirmware` is defined but never called by the driver. It is not
  modelled.
- `chirp_common.split_tone_encode`/`split_tone_decode` are not part of this
  model. Tones are modelled per side, as the (mode, tone, polarity)
  triples those helpers exchange with `_set_tone`/`_get_tone`.
- `mem.comment`, the text `get_memory` builds from the extras, is not
  modelled. The extras themselves are.
- `bitwise.parse`/`memmap` are modelled by fixed offsets into the image
  (`Layout`). The `fmfreq`, `password` and unknown bytes are not read or
  written by the core, and the FM radio settings group is always empty.
- Protocol.GetString: the `maxlen` argument is ignored, as the source
  ignores it.
- Protocol.SayHello: the `False` of a hello that gave up is returned but
  ignored by its callers, as in the source. A timeout (empty header)
  raises IndexError at once instead of being retried, as in the source.
- Sync.DoUpload: the result of each `_writemem` is ignored, as in the
  source. An image of 7297 to 7423 bytes still completes the upload,
  because its last slice is not empty.
- Radio.Radio.SyncIn: when the download returns `False`, the source
  assigns `False` to `_mmap`, and `process_mmap` then fails on it. That
  failure is not modelled: the radio keeps its old image and `Ok(false)`
  is returned.
- Radio.Radio.SetMemory: the source edits the record through `bitwise`
  field by field. The model reads the record out, edits it as a value and
  writes the bytes back. The final image is the same, but the order of the
  single-byte writes is not captured.
- Channels.Storable: the frequency and offset divided by 10 must fit a
  `ul32`. The model does not capture what `bitwise` does with a larger
  value. `mem.freq/10` is taken as floor division (Python 3 would assign a
  float).
- Channels.Storable: the name of one of the first 200 channels must be
  one-byte characters, because names are stored as bytes. Other Unicode
  characters are not modelled.
- Channels.StoreDuplex: "" and "split" store the offset but leave the
  offset-direction bit of `flags1` unchanged, as the source does. Such a
  channel with an offset of 10 Hz or more is read back as "+" or "-",
  according to the bit the record held before (`SetGetShifted`), not as
  "" or "split". `SetGetMemory` covers the other channels (`DuplexKept`).
- Channels.GetSetRecord: the byte-for-byte round trip holds for canonical
  records (`CanonicalRecord`): tone codes in their canonical form, AM
  without the bandwidth bit, a step byte `2 * i` with i below 7, power
  bits other than `0b11`, and a scrambler code within its list. Any other
  record is shown normalised, and storing it rewrites those bits.
- Channels.SetGetMemory: it assumes the complete list of five extras that
  `get_memory` builds, and encodable tones. A partial list of extras
  keeps the old bits of the missing ones.
- Channels.GetSetMemory: it assumes that the stored tone codes are within
  their tables (`TonesReadable`). An out-of-range code is shown as no
  tone, and storing that rewrites the record differently.
- Settings.Kinded: settings values are typed as CHIRP's UI types
  (integer, boolean, list choice, text). The integer bounds of
  `RadioSettingValueInteger` are taken as given, because CHIRP checks
  them before `set_settings` is called.
- Settings.LogoRoundTrip: storing a logo and reading it back is not
  idempotent for text with leading padding or more than 12 characters,
  as the source strips only trailing padding before storing.
- Settings.ShownAs: a value shown under "unknown11" and given back is
  ignored by `set_settings`. The model reproduces this as written; "screen"
  and the read-only strings are ignored too.
