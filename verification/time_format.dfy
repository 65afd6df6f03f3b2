/** Twelve-hour times with a Malay time-of-day suffix, in the two copies
    the project keeps: the document generator's (which passes text with
    letters through and normalises the minutes) and the minutes form's
    preview (which keeps the minute text verbatim). */
module TimeFormat {
  import opened Wrappers
  import opened JsText

  const Pagi := "Pagi"
  const TengahHari := "Tengah Hari"
  const Petang := "Petang"
  const Malam := "Malam"

  /** The suffix for an hour of the day: morning from 5, midday from 12,
      afternoon from 15, night from 19 until 5. Every comparison with NaN
      is false, so NaN is night. */
  function TimeSuffix(hours: JsNum): (r: string)
    ensures hours.NaN? ==> r == Malam
    ensures hours.Int? ==> (r == Pagi <==> 5 <= hours.value < 12)
    ensures hours.Int? ==> (r == TengahHari <==> 12 <= hours.value < 15)
    ensures hours.Int? ==> (r == Petang <==> 15 <= hours.value < 19)
    ensures hours.Int? ==> (r == Malam <==> hours.value < 5 || hours.value >= 19)
  {
    match hours
    case NaN => Malam
    case Int(h) =>
      if 5 <= h < 12 then Pagi
      else if 12 <= h < 15 then TengahHari
      else if 15 <= h < 19 then Petang
      else Malam
  }

  /** `hours > 12 ? hours - 12 : (hours === 0 ? 12 : hours)`. */
  function DisplayHour(hours: JsNum): (r: JsNum)
    ensures hours.NaN? <==> r.NaN?
  {
    match hours
    case NaN => NaN
    case Int(h) => if h > 12 then Int(h - 12) else if h == 0 then Int(12) else Int(h)
  }

  /** On a clock hour the display hour is in 1..12 and names the same hour
      modulo 12. */
  lemma DisplayHourRange(h: int)
    requires 0 <= h < 24
    ensures DisplayHour(Int(h)).Int? && 1 <= DisplayHour(Int(h)).value <= 12
    ensures DisplayHour(Int(h)).value % 12 == h % 12
  {
  }

  /** The hour of the day a display hour and its suffix stand for. */
  function HourOf(display: int, suffix: string): int {
    if suffix == Pagi then display
    else if suffix == TengahHari then (if display == 12 then 12 else display + 12)
    else if suffix == Petang then display + 12
    else if display == 12 then 0
    else if display >= 7 then display + 12
    else display
  }

  /** The twelve-hour text loses nothing: display hour and suffix together
      give the hour of the day back. */
  lemma SuffixRoundTrip(h: int)
    requires 0 <= h < 24
    ensures HourOf(DisplayHour(Int(h)).value, TimeSuffix(Int(h))) == h
  {
  }

  // ---------------------------------------------------------------- document generator

  /** `String(minutes).padStart(2, '0')` where `minutes` may be `undefined`
      (no `:` in the text). */
  function MinuteText(minutes: Option<JsNum>): string {
    match minutes
    case None => "undefined"
    case Some(m) => PadStart2(NumToString(m))
  }

  /** The generator's template literal for numeric hours and minutes. */
  function TimeLine(hours: JsNum, minutes: Option<JsNum>): string {
    NumToString(DisplayHour(hours)) + "." + MinuteText(minutes) + " " + TimeSuffix(hours)
  }

  /** `Number` of the first two `:`-separated fields; the minute is absent
      when there is no `:`. */
  function ClockFields(timeStr: string): (JsNum, Option<JsNum>) {
    var parts := Split(timeStr, ':');
    (NumberOf(parts[0]), if |parts| > 1 then Some(NumberOf(parts[1])) else None)
  }

  /** `formatTimeWithSuffix` of the document generator: "" stays "", text
      with an ASCII letter is already formatted and passes through, and
      anything else is read as `hours:minutes`. */
  function FormatTimeWithSuffix(timeStr: string): (r: string)
    ensures timeStr == "" ==> r == ""
    ensures timeStr != "" && HasLetter(timeStr) ==> r == timeStr
    ensures timeStr != "" && !HasLetter(timeStr) ==> r != "" && r != timeStr
  {
    if timeStr == "" then ""
    else if HasLetter(timeStr) then timeStr
    else
      var (h, m) := ClockFields(timeStr);
      LineHasLetter(h, m);
      TimeLine(h, m)
  }

  /** Every generated line ends in a suffix, so it has a letter. */
  lemma LineHasLetter(h: JsNum, m: Option<JsNum>)
    ensures HasLetter(TimeLine(h, m))
  {
    var line := TimeLine(h, m);
    var suffix := TimeSuffix(h);
    assert line[|line| - |suffix|] == suffix[0];
  }

  /** A value `HH:MM` from a time picker reads as its hour and minute. */
  lemma ClockFieldsOfPicker(h: nat, m: nat)
    ensures ClockFields(PadStart2(NatToString(h)) + ":" + PadStart2(NatToString(m))) == (Int(h), Some(Int(m)))
  {
    PaddedDigits(h);
    PaddedDigits(m);
    ClockDigits(PadStart2(NatToString(h)), PadStart2(NatToString(m)), h, m);
  }

  /** What both readers see in `hs:ms` when both fields are numerals. */
  lemma ClockDigits(hs: string, ms: string, h: nat, m: nat)
    requires AllDigitsOf(hs, 10) && hs != [] && DigitsValue(hs, 10) == h
    requires AllDigitsOf(ms, 10) && ms != [] && DigitsValue(ms, 10) == m
    ensures Split(hs + ":" + ms, ':') == [hs, ms]
    ensures NumberOf(hs) == Int(h) && NumberOf(ms) == Int(m) && ParseInt(hs) == Int(h)
  {
    DigitsExclude(hs, ':');
    DigitsExclude(ms, ':');
    ClockSplit(hs, ms);
    FieldNumber(hs, h);
    FieldNumber(ms, m);
    ParseIntDigits(hs, h);
  }

  lemma ClockSplit(a: string, b: string)
    requires ':' !in a && ':' !in b
    ensures Split(a + ":" + b, ':') == [a, b]
  {
    SplitAfterPiece(a, ':', b);
    SplitNoSep(b, ':');
    assert a + [':'] + b == a + ":" + b;
  }

  /** The generator on a time picker value: twelve-hour hour, zero-padded
      minute, suffix. */
  lemma FormatPickerTime(h: nat, m: nat)
    requires h < 24 && m < 60
    ensures FormatTimeWithSuffix(PadStart2(NatToString(h)) + ":" + PadStart2(NatToString(m))) ==
      NatToString(DisplayHour(Int(h)).value) + "." + PadStart2(NatToString(m)) + " " + TimeSuffix(Int(h))
  {
    var s := PadStart2(NatToString(h)) + ":" + PadStart2(NatToString(m));
    ClockFieldsOfPicker(h, m);
    PickerHasNoLetter(h, m);
    DisplayHourRange(h);
    PickerLine(h, m);
  }

  lemma PickerHasNoLetter(h: nat, m: nat)
    ensures PadStart2(NatToString(h)) + ":" + PadStart2(NatToString(m)) != ""
    ensures !HasLetter(PadStart2(NatToString(h)) + ":" + PadStart2(NatToString(m)))
  {
    PaddedDigits(h);
    PaddedDigits(m);
    ClockNoLetter(PadStart2(NatToString(h)), PadStart2(NatToString(m)));
  }

  /** Two numerals around a `:` hold no letter. */
  lemma ClockNoLetter(hs: string, ms: string)
    requires AllDigitsOf(hs, 10) && AllDigitsOf(ms, 10)
    ensures !HasLetter(hs + ":" + ms)
  {
    var s := hs + ":" + ms;
    forall i | 0 <= i < |s| ensures !IsAsciiLetter(s[i]) {
      if i < |hs| {
        assert s[i] == hs[i];
      } else if i > |hs| {
        assert s[i] == ms[i - |hs| - 1];
      }
    }
  }

  lemma PickerLine(h: nat, m: nat)
    requires 0 <= h < 24
    ensures TimeLine(Int(h), Some(Int(m))) ==
      NatToString(DisplayHour(Int(h)).value) + "." + PadStart2(NatToString(m)) + " " + TimeSuffix(Int(h))
  {
    DisplayHourRange(h);
  }

  // ---------------------------------------------------------------- minutes form preview

  /** `getTimeSuffix` of the minutes form: "" for no time, else the suffix
      of `Number` of the text before the first `:`. */
  function FormTimeSuffix(time: string): (r: string)
    ensures time == "" <==> r == ""
    ensures time != "" ==> r in [Pagi, TengahHari, Petang, Malam]
  {
    if time == "" then "" else TimeSuffix(NumberOf(Split(time, ':')[0]))
  }

  /** `formatTimeWithSuffix` of the minutes form: the hour is read with
      `parseInt`, the minute text is kept as typed (`undefined` when there
      is no `:`), the suffix comes from `getTimeSuffix`, and there is no
      pass-through for text with letters. */
  function FormFormatTimeWithSuffix(time: string): (r: string)
    ensures time == "" <==> r == ""
  {
    if time == "" then ""
    else
      var parts := Split(time, ':');
      var minutes := if |parts| > 1 then parts[1] else "undefined";
      NumToString(DisplayHour(ParseInt(parts[0]))) + "." + minutes + " " + FormTimeSuffix(time)
  }

  /** Without a `:` the form preview prints the word `undefined` for the
      minutes. */
  lemma FormNoColon(time: string)
    requires time != "" && ':' !in time
    ensures FormFormatTimeWithSuffix(time) ==
      NumToString(DisplayHour(ParseInt(time))) + "." + "undefined" + " " + TimeSuffix(NumberOf(time))
  {
    SplitNoSep(time, ':');
    assert Split(time, ':')[0] == time;
  }

  /** Without a `:` and without letters the generated document prints
      `undefined` for the minutes too. */
  lemma DocumentNoColon(time: string)
    requires time != "" && ':' !in time && !HasLetter(time)
    ensures FormatTimeWithSuffix(time) ==
      NumToString(DisplayHour(NumberOf(time))) + "." + "undefined" + " " + TimeSuffix(NumberOf(time))
  {
    SplitNoSep(time, ':');
    assert Split(time, ':')[0] == time;
  }

  /** On every time picker value the form preview and the generated
      document print the same text. */
  lemma PreviewMatchesDocument(h: nat, m: nat)
    requires h < 24 && m < 60
    ensures FormFormatTimeWithSuffix(PadStart2(NatToString(h)) + ":" + PadStart2(NatToString(m))) ==
      FormatTimeWithSuffix(PadStart2(NatToString(h)) + ":" + PadStart2(NatToString(m)))
  {
    FormatPickerTime(h, m);
    FormPickerLine(h, m);
  }

  lemma FormPickerLine(h: nat, m: nat)
    requires h < 24 && m < 60
    ensures FormFormatTimeWithSuffix(PadStart2(NatToString(h)) + ":" + PadStart2(NatToString(m))) ==
      NatToString(DisplayHour(Int(h)).value) + "." + PadStart2(NatToString(m)) + " " + TimeSuffix(Int(h))
  {
    PickerFields(h, m);
    FormLineOfFields(PadStart2(NatToString(h)) + ":" + PadStart2(NatToString(m)),
      PadStart2(NatToString(h)), PadStart2(NatToString(m)), h);
  }

  /** What both readers see in a time picker value. */
  lemma PickerFields(h: nat, m: nat)
    ensures var hs, ms := PadStart2(NatToString(h)), PadStart2(NatToString(m));
      hs + ":" + ms != "" && Split(hs + ":" + ms, ':') == [hs, ms] &&
      ParseInt(hs) == Int(h) && NumberOf(hs) == Int(h)
  {
    PaddedDigits(h);
    PaddedDigits(m);
    ClockDigits(PadStart2(NatToString(h)), PadStart2(NatToString(m)), h, m);
  }

  /** The form preview once the split and the hour are known. */
  lemma FormLineOfFields(s: string, hs: string, ms: string, h: nat)
    requires 0 <= h < 24
    requires s != "" && Split(s, ':') == [hs, ms]
    requires ParseInt(hs) == Int(h) && NumberOf(hs) == Int(h)
    ensures FormFormatTimeWithSuffix(s) ==
      NatToString(DisplayHour(Int(h)).value) + "." + ms + " " + TimeSuffix(Int(h))
  {
    assert FormTimeSuffix(s) == TimeSuffix(Int(h));
    DisplayHourRange(h);
  }
}
