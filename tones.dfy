/** CTCSS and DCS squelch codes of a channel (uvk5.py:493-562): the low two
    bits of `code_flag` give the receive type and bits 4-5 the transmit
    type (0 none, 1 CTCSS, 2 DCS, 3 DCS inverted), and `rxcode`/`txcode`
    index the tone tables. Both sides are in the split form of CHIRP's tone
    helpers: a mode, a tone and a polarity. */
module Tones {
  import opened Bytes
  import opened Bits
  import opened Tables

  /** `TMODES`: "", "Tone", "DTCS". */
  datatype TMode = NoTone | Tone | Dtcs

  /** "N" or "R". */
  datatype Polarity = N | R

  /** One side of a channel's squelch: the tone is a CTCSS tone in tenths
      of a hertz or a DCS code; `_get_tone` leaves it None when the type
      is 0. */
  datatype ToneSide = ToneSide(mode: TMode, tone: Option<nat>, polarity: Polarity)

  datatype ToneSides = ToneSides(tx: ToneSide, rx: ToneSide)

  /** `TMODES[t]`. */
  function ModeOfType(t: nat): TMode
    requires t < 4
  {
    if t == 0 then NoTone else if t == 1 then Tone else Dtcs
  }

  /** One side of `_get_tone`: the mode the type names, and the table
      entry the code indexes; a code past the end of its table gives mode
      "" and tone 0 rather than an error. The polarity is "R" for type 3
      only. */
  function DecodeSide(t: nat, code: byte): (s: ToneSide)
    requires t < 4
    ensures s.polarity == (if t == 3 then R else N)
    ensures t == 0 <==> s.tone == None
    ensures s.mode == Tone <==> t == 1 && (code as int) < |CtcssTones|
    ensures s.mode == Dtcs <==> t >= 2 && (code as int) < |DtcsCodes|
  {
    var polarity := if t == 3 then R else N;
    match ModeOfType(t)
    case NoTone => ToneSide(NoTone, None, polarity)
    case Tone =>
      if (code as int) < |CtcssTones| then ToneSide(Tone, Some(CtcssTones[code]), polarity)
      else ToneSide(NoTone, Some(0), polarity)
    case Dtcs =>
      if (code as int) < |DtcsCodes| then ToneSide(Dtcs, Some(DtcsCodes[code]), polarity)
      else ToneSide(NoTone, Some(0), polarity)
  }

  /** `_get_tone` on a record's `code_flag`, `rxcode` and `txcode`. */
  function GetTone(codeFlag: byte, rxcode: byte, txcode: byte): (s: ToneSides)
    ensures s.tx.tone.None? <==> Field(codeFlag, 4, 2) == 0
    ensures s.rx.tone.None? <==> Field(codeFlag, 0, 2) == 0
    ensures (s.tx.polarity == R) == (Field(codeFlag, 4, 2) == 3) && (s.rx.polarity == R) == (Field(codeFlag, 0, 2) == 3)
  {
    ToneSides(DecodeSide(Field(codeFlag, 4, 2), txcode), DecodeSide(Field(codeFlag, 0, 2), rxcode))
  }

  /** A side as `_set_tone` stores it: its two-bit type and its code. */
  datatype Code = Code(kind: nat, index: nat)

  /** `CTCSS_TONES.index(tone)` or `DTCS_CODES.index(tone)`; a missing
      tone is never in a table. */
  function ToneIndex(table: seq<nat>, tone: Option<nat>): (r: Result<nat>)
    ensures r.Ok? <==> tone.Some? && tone.value in table
    ensures r.Ok? ==> r.value < |table| && table[r.value] == tone.value
  {
    match tone
    case None => Err(NotInList)
    case Some(t) => IndexOf(table, t)
  }

  /** One side of `_set_tone`: "Tone" is type 1 with the CTCSS index,
      "DTCS" is type 3 for polarity "R" and 2 otherwise with the DCS
      index, and anything else is type 0 with code 0. A tone missing from
      its table raises ValueError. */
  function EncodeSide(s: ToneSide): (r: Result<Code>)
    ensures r.Err? <==>
      (s.mode == Tone && !(s.tone.Some? && s.tone.value in CtcssTones)) ||
      (s.mode == Dtcs && !(s.tone.Some? && s.tone.value in DtcsCodes))
    ensures r.Err? ==> r.fault == NotInList
    ensures r.Ok? ==> r.value.kind < 4 && r.value.index < 256
  {
    CtcssTable();
    DtcsTable();
    match s.mode
    case Tone =>
      (match ToneIndex(CtcssTones, s.tone)
       case Err(f) => Err(f)
       case Ok(i) => Ok(Code(1, i)))
    case Dtcs =>
      (match ToneIndex(DtcsCodes, s.tone)
       case Err(f) => Err(f)
       case Ok(i) => Ok(Code(if s.polarity == R then 3 else 2, i)))
    case NoTone => Ok(Code(0, 0))
  }

  /** The three bytes `_set_tone` writes. */
  datatype ToneBytes = ToneBytes(codeFlag: byte, rxcode: byte, txcode: byte)

  /** `_set_tone` on a record whose `code_flag` is `codeFlag`: both indices
      are looked up before anything is written, so a missing tone leaves
      the record as it was; otherwise the transmit type goes to bits 4-5,
      the receive type to bits 0-1, and the codes to `rxcode`/`txcode`. */
  function SetToneBytes(codeFlag: byte, tx: ToneSide, rx: ToneSide): (r: Result<ToneBytes>)
    ensures r.Err? <==> EncodeSide(tx).Err? || EncodeSide(rx).Err?
  {
    match EncodeSide(tx)
    case Err(f) => Err(f)
    case Ok(t) =>
      match EncodeSide(rx)
      case Err(f) => Err(f)
      case Ok(x) =>
        assert Pow2(2) == 4;
        Ok(ToneBytes(WithField(WithField(codeFlag, 0, 2, x.kind), 4, 2, t.kind), ByteOf(x.index), ByteOf(t.index)))
  }

  /** `_set_tone` touches bits 0-1 and 4-5 of `code_flag` only: bits 2, 3,
      6 and 7 are kept. */
  lemma SetToneKeepsBits(codeFlag: byte, tx: ToneSide, rx: ToneSide, i: nat)
    requires SetToneBytes(codeFlag, tx, rx).Ok?
    requires i in {2, 3, 6, 7}
    ensures Octet(SetToneBytes(codeFlag, tx, rx).value.codeFlag)[i] == Octet(codeFlag)[i]
  {
    var t := EncodeSide(tx).value;
    var x := EncodeSide(rx).value;
    assert Pow2(2) == 4;
    WithFieldKeeps(codeFlag, 0, 2, x.kind, i);
    WithFieldKeeps(WithField(codeFlag, 0, 2, x.kind), 4, 2, t.kind, i);
  }

  /** What a side reads back as after it was stored: the polarity of a
      CTCSS side, and everything but the mode of an empty side, are not
      stored. */
  function Stored(s: ToneSide): ToneSide
  {
    match s.mode
    case NoTone => ToneSide(NoTone, None, N)
    case Tone => ToneSide(Tone, s.tone, N)
    case Dtcs => s
  }

  lemma SideRoundTrip(s: ToneSide)
    requires EncodeSide(s).Ok?
    ensures EncodeSide(s).value.index < 256
    ensures DecodeSide(EncodeSide(s).value.kind, ByteOf(EncodeSide(s).value.index)) == Stored(s)
  {
    CtcssTable();
    DtcsTable();
  }

  /** `_get_tone` reads back what `_set_tone` wrote. */
  lemma ToneRoundTrip(codeFlag: byte, tx: ToneSide, rx: ToneSide)
    requires SetToneBytes(codeFlag, tx, rx).Ok?
    ensures var b := SetToneBytes(codeFlag, tx, rx).value;
      GetTone(b.codeFlag, b.rxcode, b.txcode) == ToneSides(Stored(tx), Stored(rx))
  {
    var t := EncodeSide(tx).value;
    var x := EncodeSide(rx).value;
    assert Pow2(2) == 4;
    var c1 := WithField(codeFlag, 0, 2, x.kind);
    FieldOfWithField(c1, 4, 2, t.kind);
    FieldKept(c1, 4, 2, t.kind, 0, 2);
    FieldOfWithField(codeFlag, 0, 2, x.kind);
    SideRoundTrip(tx);
    SideRoundTrip(rx);
  }

  /** A side's type and code are canonical when `_get_tone` reads them
      without a fallback and the code of type 0 is 0. */
  predicate Canonical(t: nat, code: byte)
  {
    if t == 0 then code == 0
    else if t == 1 then (code as int) < |CtcssTones|
    else (code as int) < |DtcsCodes|
  }

  lemma SideBytesRoundTrip(t: nat, code: byte)
    requires t < 4 && Canonical(t, code)
    ensures EncodeSide(DecodeSide(t, code)) == Ok(Code(t, code as nat))
  {
    CtcssTable();
    DtcsTable();
    if t == 1 {
      IndexOfEntry(CtcssTones, code as nat);
    } else if t >= 2 {
      IndexOfEntry(DtcsCodes, code as nat);
    }
  }

  /** Conversely, `_set_tone` writes back the very bytes `_get_tone` read,
      when they are canonical. */
  lemma ToneBytesRoundTrip(codeFlag: byte, rxcode: byte, txcode: byte)
    requires Canonical(Field(codeFlag, 4, 2), txcode) && Canonical(Field(codeFlag, 0, 2), rxcode)
    ensures var s := GetTone(codeFlag, rxcode, txcode);
      SetToneBytes(codeFlag, s.tx, s.rx) == Ok(ToneBytes(codeFlag, rxcode, txcode))
  {
    var tt := Field(codeFlag, 4, 2);
    var rt := Field(codeFlag, 0, 2);
    assert Pow2(2) == 4;
    SideBytesRoundTrip(tt, txcode);
    SideBytesRoundTrip(rt, rxcode);
    WithFieldSame(codeFlag, 0, 2);
    WithFieldSame(codeFlag, 4, 2);
  }

  /** A side's type and code are readable when `_get_tone` finds the code
      in its table, so that it takes no fallback. */
  predicate Readable(t: nat, code: byte)
  {
    t == 0 || (t == 1 && (code as int) < |CtcssTones|) || (t >= 2 && (code as int) < |DtcsCodes|)
  }

  /** A side `_get_tone` read without a fallback can be stored again, and
      reads back as itself. */
  lemma SideStable(t: nat, code: byte)
    requires t < 4 && Readable(t, code)
    ensures var s := DecodeSide(t, code); EncodeSide(s).Ok? && Stored(s) == s
  {
    var s := DecodeSide(t, code);
    if t == 1 {
      assert s.tone.value == CtcssTones[code];
    } else if t >= 2 {
      assert s.tone.value == DtcsCodes[code];
    }
  }

  /** Both sides of what `_get_tone` read without a fallback can be
      stored again and read back as they are. */
  lemma ToneStable(codeFlag: byte, rxcode: byte, txcode: byte)
    requires Readable(Field(codeFlag, 4, 2), txcode) && Readable(Field(codeFlag, 0, 2), rxcode)
    ensures var s := GetTone(codeFlag, rxcode, txcode);
      EncodeSide(s.tx).Ok? && EncodeSide(s.rx).Ok? && ToneSides(Stored(s.tx), Stored(s.rx)) == s
  {
    assert Pow2(2) == 4;
    SideStable(Field(codeFlag, 4, 2), txcode);
    SideStable(Field(codeFlag, 0, 2), rxcode);
  }
}
