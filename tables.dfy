/** The driver's constant tables (uvk5.py:126-192): the CTCSS tones, the
    DCS codes, the tuning steps, the tone modes and the option lists of the
    settings, with `list.index` and the facts about the tables that make
    it invertible. Tones are in tenths of a hertz and steps in hundredths
    of a kilohertz, so that every table is one of whole numbers. */
module Tables {
  import opened Bytes

  /** `list.index(v)`: the position of the first v in the list, or the
      ValueError the source raises when there is none. */
  function IndexOf<T(==)>(list: seq<T>, v: T): (r: Result<nat>)
    ensures r.Ok? <==> v in list
    ensures r.Ok? ==> r.value < |list| && list[r.value] == v && v !in list[..r.value]
    ensures r.Err? ==> r.fault == NotInList
  {
    if |list| == 0 then Err(NotInList)
    else if list[0] == v then Ok(0)
    else
      match IndexOf(list[1..], v)
      case Err(f) => Err(f)
      case Ok(i) =>
        assert list[..i + 1] == [list[0]] + list[1..][..i];
        Ok(i + 1)
  }

  /** No value occurs twice. */
  predicate Distinct<T(==)>(list: seq<T>)
  {
    forall i, j :: 0 <= i < j < |list| ==> list[i] != list[j]
  }

  /** In a list without repetitions, `index` finds every entry at its own
      position. */
  lemma IndexOfEntry<T>(list: seq<T>, i: nat)
    requires Distinct(list) && i < |list|
    ensures IndexOf(list, list[i]) == Ok(i)
  {
    var k := IndexOf(list, list[i]).value;
    assert forall j :: 0 <= j < k ==> list[..k][j] == list[j];
  }

  /** Each entry is larger than the one before. */
  predicate Ascending(s: seq<nat>)
  {
    forall i :: 0 < i < |s| ==> s[i - 1] < s[i]
  }

  lemma {:induction false} AscendingJoin(a: seq<nat>, b: seq<nat>)
    requires Ascending(a) && Ascending(b) && |a| > 0 && |b| > 0 && a[|a| - 1] < b[0]
    ensures Ascending(a + b)
  {
    forall i | 0 < i < |a + b|
      ensures (a + b)[i - 1] < (a + b)[i]
    {
      if i == |a| {
      } else if i < |a| {
        assert (a + b)[i] == a[i];
      } else {
        assert (a + b)[i] == b[i - |a|];
      }
    }
  }

  lemma {:induction false} AscendingChain(s: seq<nat>, i: nat, j: nat)
    requires Ascending(s) && i < j < |s|
    ensures s[i] < s[j]
    decreases j - i
  {
    if i + 1 < j {
      AscendingChain(s, i, j - 1);
    }
  }

  lemma AscendingDistinct(s: seq<nat>)
    requires Ascending(s)
    ensures Distinct(s)
  {
    forall i, j | 0 <= i < j < |s|
      ensures s[i] != s[j]
    {
      AscendingChain(s, i, j);
    }
  }

  /** `CTCSS_TONES`, in tenths of a hertz, in rows of eight. */
  const CtcssRow1: seq<nat> := [670, 693, 719, 744, 770, 797, 825, 854]
  const CtcssRow2: seq<nat> := [885, 915, 948, 974, 1000, 1035, 1072, 1109]
  const CtcssRow3: seq<nat> := [1148, 1188, 1230, 1273, 1318, 1365, 1413, 1462]
  const CtcssRow4: seq<nat> := [1514, 1567, 1598, 1622, 1655, 1679, 1713, 1738]
  const CtcssRow5: seq<nat> := [1773, 1799, 1835, 1862, 1899, 1928, 1966, 1995]
  const CtcssRow6: seq<nat> := [2035, 2065, 2107, 2181, 2257, 2291, 2336, 2418]
  const CtcssRow7: seq<nat> := [2503, 2541]
  const CtcssFirst: seq<nat> := CtcssRow1 + CtcssRow2 + CtcssRow3 + CtcssRow4
  const CtcssSecond: seq<nat> := CtcssRow5 + CtcssRow6 + CtcssRow7
  const CtcssTones: seq<nat> := CtcssFirst + CtcssSecond

  /** `DTCS_CODES`, written as the source writes them, in rows of eleven. */
  const DtcsRow1: seq<nat> := [23, 25, 26, 31, 32, 36, 43, 47, 51, 53, 54]
  const DtcsRow2: seq<nat> := [65, 71, 72, 73, 74, 114, 115, 116, 122, 125, 131]
  const DtcsRow3: seq<nat> := [132, 134, 143, 145, 152, 155, 156, 162, 165, 172, 174]
  const DtcsRow4: seq<nat> := [205, 212, 223, 225, 226, 243, 244, 245, 246, 251, 252]
  const DtcsRow5: seq<nat> := [255, 261, 263, 265, 266, 271, 274, 306, 311, 315, 325]
  const DtcsRow6: seq<nat> := [331, 332, 343, 346, 351, 356, 364, 365, 371, 411, 412]
  const DtcsRow7: seq<nat> := [413, 423, 431, 432, 445, 446, 452, 454, 455, 462, 464]
  const DtcsRow8: seq<nat> := [465, 466, 503, 506, 516, 523, 526, 532, 546, 565, 606]
  const DtcsRow9: seq<nat> := [612, 624, 627, 631, 632, 654, 662, 664, 703, 712, 723]
  const DtcsRow10: seq<nat> := [731, 732, 734, 743, 754]
  const DtcsFirst: seq<nat> := DtcsRow1 + DtcsRow2 + DtcsRow3 + DtcsRow4 + DtcsRow5
  const DtcsSecond: seq<nat> := DtcsRow6 + DtcsRow7 + DtcsRow8 + DtcsRow9 + DtcsRow10
  const DtcsCodes: seq<nat> := DtcsFirst + DtcsSecond

  /** `STEPS`, in hundredths of a kilohertz; 8.33 kHz comes last. */
  const Steps: seq<nat> := [250, 500, 625, 1000, 1250, 2500, 833]

  /** The tables have the sizes the source gives them, and no repeated
      entries, so `index` inverts indexing into each of them. */
  lemma CtcssTable()
    ensures |CtcssTones| == 50 && Ascending(CtcssTones) && Distinct(CtcssTones)
  {
    CtcssFirstHalf();
    CtcssSecondHalf();
    AscendingJoin(CtcssFirst, CtcssSecond);
    AscendingDistinct(CtcssTones);
  }

  lemma CtcssFirstHalf()
    ensures Ascending(CtcssFirst)
  {
    assert Ascending(CtcssRow1) && Ascending(CtcssRow2) && Ascending(CtcssRow3) && Ascending(CtcssRow4);
    AscendingJoin(CtcssRow1, CtcssRow2);
    AscendingJoin(CtcssRow1 + CtcssRow2, CtcssRow3);
    AscendingJoin(CtcssRow1 + CtcssRow2 + CtcssRow3, CtcssRow4);
  }

  lemma CtcssSecondHalf()
    ensures Ascending(CtcssSecond)
  {
    assert Ascending(CtcssRow5) && Ascending(CtcssRow6) && Ascending(CtcssRow7);
    AscendingJoin(CtcssRow5, CtcssRow6);
    AscendingJoin(CtcssRow5 + CtcssRow6, CtcssRow7);
  }

  lemma DtcsFirstHalf()
    ensures Ascending(DtcsFirst)
  {
    assert Ascending(DtcsRow1) && Ascending(DtcsRow2) && Ascending(DtcsRow3);
    assert Ascending(DtcsRow4) && Ascending(DtcsRow5);
    AscendingJoin(DtcsRow1, DtcsRow2);
    AscendingJoin(DtcsRow1 + DtcsRow2, DtcsRow3);
    AscendingJoin(DtcsRow1 + DtcsRow2 + DtcsRow3, DtcsRow4);
    AscendingJoin(DtcsRow1 + DtcsRow2 + DtcsRow3 + DtcsRow4, DtcsRow5);
  }

  lemma DtcsSecondHalf()
    ensures Ascending(DtcsSecond)
  {
    assert Ascending(DtcsRow6) && Ascending(DtcsRow7) && Ascending(DtcsRow8);
    assert Ascending(DtcsRow9) && Ascending(DtcsRow10);
    AscendingJoin(DtcsRow6, DtcsRow7);
    AscendingJoin(DtcsRow6 + DtcsRow7, DtcsRow8);
    AscendingJoin(DtcsRow6 + DtcsRow7 + DtcsRow8, DtcsRow9);
    AscendingJoin(DtcsRow6 + DtcsRow7 + DtcsRow8 + DtcsRow9, DtcsRow10);
  }

  lemma DtcsTable()
    ensures |DtcsCodes| == 104 && Ascending(DtcsCodes) && Distinct(DtcsCodes)
  {
    DtcsFirstHalf();
    DtcsSecondHalf();
    AscendingJoin(DtcsFirst, DtcsSecond);
    AscendingDistinct(DtcsCodes);
  }

  lemma StepsTable()
    ensures |Steps| == 7 && Distinct(Steps)
  {
  }

  /** The option lists the settings and the channel extras choose from. */
  const PttidList: seq<string> := ["off", "BOT", "EOT", "BOTH"]
  const ScramblerList: seq<string> := ["off", "1", "2", "3", "4", "5", "6", "7", "8", "9", "10"]
  const ChannelDispList: seq<string> := ["Frequency", "Channel No", "Channel Name"]
  const BatSaveList: seq<string> := ["OFF", "1:1", "1:2", "1:3", "1:4"]
  const CrossbandList: seq<string> := ["Off", "Band A", "Band B"]
  const DualwatchList: seq<string> := CrossbandList
  const FlockList: seq<string> := ["Off", "FCC", "CE", "GB", "430", "438"]
  const ScanResumeList: seq<string> := [
    "TO: Resume after 5 seconds",
    "CO: Resume after signal dissapears",
    "SE: Stop scanning after receiving a signal"]
  const WelcomeList: seq<string> := ["Full Screen", "Welcome Info", "Voltage"]
  const KeypadToneList: seq<string> := ["Off", "Chinese", "English"]
  const LanguageList: seq<string> := ["Chinese", "English"]
  const AlarmModeList: seq<string> := ["SITE", "TONE"]
  const RemEndOfTalkList: seq<string> := ["Off", "ROGER", "MDC"]
  const RteList: seq<string> := ["Off", "100ms", "200ms", "300ms", "400ms", "500ms", "600ms", "700ms", "800ms", "900ms"]

  /** The channel extras' lists have no repeated entries. */
  lemma ExtraLists()
    ensures |PttidList| == 4 && Distinct(PttidList) && |ScramblerList| == 11 && Distinct(ScramblerList)
  {
  }
}
