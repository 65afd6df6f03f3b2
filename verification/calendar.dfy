/** Malay calendar text: the ISO date parser both renderers use, the
    weekday names, and the two `formatDate` helpers (the document
    generator's, which validates the month, and the one-page-report
    template's, which does not). */
module Calendar {
  import opened Wrappers
  import opened JsText

  const MalayMonths: seq<string> :=
    ["Januari", "Februari", "Mac", "April", "Mei", "Jun", "Julai", "Ogos",
     "September", "Oktober", "November", "Disember"]

  /** Indexed by `Date.getDay()`: Sunday first. */
  const MalayDays: seq<string> :=
    ["Ahad", "Isnin", "Selasa", "Rabu", "Khamis", "Jumaat", "Sabtu"]

  /** A local calendar date as a JavaScript `Date` reports it:
      `getFullYear()`, `getMonth()` (0-based) and `getDate()`. */
  datatype CivilDate = CivilDate(year: int, month0: int, day: int)

  predicate IsLeap(y: int) {
    y % 4 == 0 && (y % 100 != 0 || y % 400 == 0)
  }

  function DaysInMonth(y: int, m0: int): (r: int)
    requires 0 <= m0 < 12
    ensures 28 <= r <= 31
  {
    if m0 == 1 then (if IsLeap(y) then 29 else 28)
    else if m0 == 3 || m0 == 5 || m0 == 8 || m0 == 10 then 30
    else 31
  }

  predicate IsValid(d: CivilDate) {
    0 <= d.month0 < 12 && 1 <= d.day <= DaysInMonth(d.year, d.month0)
  }

  /** Months counted from year 0, to order dates by month. */
  function MonthIndex(y: int, m0: int): int {
    y * 12 + m0
  }

  /** The day-of-month carry of `new Date(y, m, d)`: a day before the 1st
      moves into earlier months, a day past the month's end into later
      ones. */
  function Normalize(y: int, m0: int, d: int): (r: CivilDate)
    requires 0 <= m0 < 12
    ensures IsValid(r)
    ensures 1 <= d <= DaysInMonth(y, m0) ==> r == CivilDate(y, m0, d)
    ensures d < 1 ==> MonthIndex(r.year, r.month0) < MonthIndex(y, m0)
    ensures d > DaysInMonth(y, m0) ==> MonthIndex(r.year, r.month0) > MonthIndex(y, m0)
    decreases (if d < 1 then 1 - d else 0), d
  {
    if d < 1 then
      var py := if m0 == 0 then y - 1 else y;
      var pm := if m0 == 0 then 11 else m0 - 1;
      Normalize(py, pm, d + DaysInMonth(py, pm))
    else if d > DaysInMonth(y, m0) then
      var ny := if m0 == 11 then y + 1 else y;
      var nm := if m0 == 11 then 0 else m0 + 1;
      Normalize(ny, nm, d - DaysInMonth(y, m0))
    else CivilDate(y, m0, d)
  }

  /** Days from 1970-01-01 to a valid date in the proleptic Gregorian
      calendar. */
  function DayNumber(d: CivilDate): int
    requires IsValid(d)
  {
    var m := d.month0 + 1;
    var y := if m <= 2 then d.year - 1 else d.year;
    var era := y / 400;
    var yoe := y - era * 400;
    var mp := (m + 9) % 12;
    var doy := (153 * mp + 2) / 5 + d.day - 1;
    var doe := yoe * 365 + yoe / 4 - yoe / 100 + doy;
    era * 146097 + doe - 719468
  }

  /** The largest distance in days from the epoch a `Date` can hold. */
  const MaxEpochDays: int := 100000000

  /** `new Date(y, m, d)` read back in local time; `None` is an invalid
      date. A year in 0..99 means 1900..1999, the month carries into the
      year, and the day carries into the month. */
  function MakeDate(y: int, m: int, d: int): (r: Option<CivilDate>)
    ensures r.Some? ==> IsValid(r.value)
  {
    var n := Normalize(FullYear(y) + m / 12, m % 12, d);
    if InRange(n) then Some(n) else None
  }

  /** The constructor's reading of a year argument. */
  function FullYear(y: int): int {
    if 0 <= y <= 99 then 1900 + y else y
  }

  predicate InRange(d: CivilDate)
    requires IsValid(d)
  {
    -MaxEpochDays <= DayNumber(d) <= MaxEpochDays
  }

  /** The round-trip test of `parseIsoDateLocal`: building a date from
      year, 0-based month and day and reading it back gives the same three
      numbers exactly when they name a real day, the year is not one the
      constructor reinterprets as 19xx, and the day is in the `Date` range. */
  lemma MakeDateRoundTrip(y: int, m: int, d: int)
    ensures MakeDate(y, m, d) == Some(CivilDate(y, m, d)) <==>
      IsValid(CivilDate(y, m, d)) && !(0 <= y <= 99) && InRange(CivilDate(y, m, d))
  {
    if MakeDate(y, m, d) == Some(CivilDate(y, m, d)) {
      RoundTripNeedsValid(y, m, d);
    } else if IsValid(CivilDate(y, m, d)) && !(0 <= y <= 99) {
      assert m / 12 == 0 && m % 12 == m;
      assert Normalize(FullYear(y) + m / 12, m % 12, d) == CivilDate(y, m, d);
    }
  }

  lemma RoundTripNeedsValid(y: int, m: int, d: int)
    requires MakeDate(y, m, d) == Some(CivilDate(y, m, d))
    ensures IsValid(CivilDate(y, m, d)) && !(0 <= y <= 99)
  {
    var fy := FullYear(y);
    var n := Normalize(fy + m / 12, m % 12, d);
    assert n == CivilDate(y, m, d);
    assert 0 <= m < 12;
    assert m / 12 == 0 && m % 12 == m;
    assert fy >= y;
  }

  // ---------------------------------------------------------------- parsing

  /** Element `i` of a destructured array: `undefined` past the end. */
  function Piece(parts: seq<string>, i: nat): Option<string> {
    if i < |parts| then Some(parts[i]) else None
  }

  /** `Number(x)` where `x` may be `undefined` (which gives NaN). */
  function NumberOfPiece(p: Option<string>): JsNum {
    match p
    case None => NaN
    case Some(s) => NumberOf(s)
  }

  /** `Number` of the year, month and day fields. */
  datatype IsoNumbers = IsoNumbers(year: JsNum, month: JsNum, day: JsNum)

  /** The year, month and day numbers of `input.split('-')`. */
  function IsoFields(input: string): IsoNumbers {
    var parts := Split(input, '-');
    IsoNumbers(NumberOfPiece(Piece(parts, 0)), NumberOfPiece(Piece(parts, 1)), NumberOfPiece(Piece(parts, 2)))
  }

  /** The round-trip step shared by both copies of `parseIsoDateLocal`. */
  function CheckedDate(year: int, month: int, day: int): Option<CivilDate> {
    var date := MakeDate(year, month - 1, day);
    if date.Some? && date.value == CivilDate(year, month - 1, day) then date else None
  }

  /** The checks of the document generator's `parseIsoDateLocal` on the
      field numbers: integers, month in 1..12, day in 1..31, then the
      round trip. */
  function CheckFields(f: IsoNumbers): Option<CivilDate> {
    if !f.year.Int? || !f.month.Int? || !f.day.Int? then None
    else if f.month.value < 1 || f.month.value > 12 || f.day.value < 1 || f.day.value > 31 then None
    else CheckedDate(f.year.value, f.month.value, f.day.value)
  }

  /** The checks of the report template's copy: integers and the round trip. */
  function CheckFieldsOpr(f: IsoNumbers): Option<CivilDate> {
    if !f.year.Int? || !f.month.Int? || !f.day.Int? then None
    else CheckedDate(f.year.value, f.month.value, f.day.value)
  }

  /** `parseIsoDateLocal` of the document generator. */
  function ParseIsoDateLocal(input: string): Option<CivilDate> {
    if input == "" then None else CheckFields(IsoFields(input))
  }

  /** `parseIsoDateLocal` of the one-page-report template. */
  function ParseIsoDateLocalOpr(input: string): Option<CivilDate> {
    if input == "" then None else CheckFieldsOpr(IsoFields(input))
  }

  /** The field numbers are integers naming a real day of a year outside
      0..99 inside the `Date` range. */
  predicate NamesDay(f: IsoNumbers) {
    f.year.Int? && f.month.Int? && f.day.Int? &&
    var d := CivilDate(f.year.value, f.month.value - 1, f.day.value);
    IsValid(d) && !(0 <= d.year <= 99) && InRange(d)
  }

  lemma CheckFieldsMeaning(f: IsoNumbers)
    ensures CheckFields(f).Some? <==> NamesDay(f)
    ensures CheckFields(f).Some? ==> CheckFields(f).value == CivilDate(f.year.value, f.month.value - 1, f.day.value)
    ensures CheckFieldsOpr(f) == CheckFields(f)
  {
    if f.year.Int? && f.month.Int? && f.day.Int? {
      MakeDateRoundTrip(f.year.value, f.month.value - 1, f.day.value);
    }
  }

  /** What a successful parse means: the first three `-`-separated fields
      are integers naming a real day of a year outside 0..99. */
  lemma ParseIsoMeaning(input: string)
    ensures ParseIsoDateLocal(input).Some? <==> input != "" && NamesDay(IsoFields(input))
    ensures ParseIsoDateLocal(input).Some? ==>
      ParseIsoDateLocal(input).value ==
        CivilDate(IsoFields(input).year.value, IsoFields(input).month.value - 1, IsoFields(input).day.value)
  {
    if input != "" {
      var f := IsoFields(input);
      CheckFieldsMeaning(f);
      assert ParseIsoDateLocal(input) == CheckFields(f);
    }
  }

  /** The range checks the document generator adds are implied by the round
      trip, so both parsers accept the same strings with the same result. */
  lemma ParseIsoCopiesAgree(input: string)
    ensures ParseIsoDateLocal(input) == ParseIsoDateLocalOpr(input)
  {
    if input != "" {
      var f := IsoFields(input);
      CheckFieldsMeaning(f);
      assert ParseIsoDateLocal(input) == CheckFields(f);
      assert ParseIsoDateLocalOpr(input) == CheckFieldsOpr(f);
    }
  }

  // ---------------------------------------------------------------- weekday and year

  /** `Date.getDay()`: 1970-01-01 was a Thursday. */
  function Weekday(d: CivilDate): (r: int)
    requires IsValid(d)
    ensures 0 <= r < 7
  {
    (DayNumber(d) + 4) % 7
  }

  /** `getDayNameMalay`: the Malay weekday of a parseable date, else `-`. */
  function DayNameMalay(tarikh: string): (r: string)
    ensures r == "-" <==> ParseIsoDateLocal(tarikh).None?
    ensures r != "-" ==> r in MalayDays
    ensures r != ""
  {
    if tarikh == "" then "-"
    else
      var date := ParseIsoDateLocal(tarikh);
      if date.None? then "-"
      else
        var w := Weekday(date.value);
        DayNameNotDash(w);
        MalayDays[w]
  }

  lemma DayNameNotDash(w: int)
    requires 0 <= w < 7
    ensures MalayDays[w] != "-" && MalayDays[w] != ""
  {
    assert |MalayDays[w]| >= 3;
  }

  /** `getYearFromDate`: the year of a parseable date, else the current
      year (the clock is a parameter). */
  function YearFromDate(tarikh: string, currentYear: int): (r: string)
    ensures ParseIsoDateLocal(tarikh).Some? ==> r == IntToString(ParseIsoDateLocal(tarikh).value.year)
    ensures ParseIsoDateLocal(tarikh).None? ==> r == IntToString(currentYear)
  {
    var date := ParseIsoDateLocal(tarikh);
    if date.Some? then IntToString(date.value.year) else IntToString(currentYear)
  }

  // ---------------------------------------------------------------- formatDate

  /** The year text and the month and day numbers of `dateStr.split('-')`. */
  datatype DateText = DateText(year: string, month: JsNum, day: JsNum)

  /** The three fields, when all three are present and non-empty. */
  function DateTextOf(dateStr: string): Option<DateText> {
    var parts := Split(dateStr, '-');
    if |parts| >= 3 && parts[0] != "" && parts[1] != "" && parts[2] != "" then
      Some(DateText(parts[0], NumberOf(parts[1]), NumberOf(parts[2])))
    else None
  }

  /** The fields name a month of the table and a numeric day. */
  predicate Printable(t: DateText) {
    t.month.Int? && 1 <= t.month.value <= 12 && t.day.Int?
  }

  /** `"<day> <Malay month> <year>"` for fields that name a month. */
  function DateLine(t: DateText): string
    requires Printable(t)
  {
    IntToString(t.day.value) + " " + MalayMonths[t.month.value - 1] + " " + t.year
  }

  /** `formatDate` of the document generator: the date line, or "" unless
      the three fields are present, month and day are numbers and the month
      is in 1..12. The year is kept as written. This is also the intended
      behaviour of the report template's copy, which does not check the
      month (see `FormatDateOprAsWritten`). */
  function FormatDate(dateStr: string): (r: string)
    ensures r == "" <==> DateTextOf(dateStr).None? || !Printable(DateTextOf(dateStr).value)
  {
    if dateStr == "" then ""
    else match DateTextOf(dateStr)
      case None => ""
      case Some(t) =>
        if t.month.NaN? || t.day.NaN? || t.month.value < 1 || t.month.value > 12 then ""
        else DateLine(t)
  }

  /** `months[monthNum - 1]`: past either end of the table the lookup is
      `undefined`, which the template literal prints as that word. */
  function MonthText(month: JsNum): string {
    if month.Int? && 1 <= month.value <= 12 then MalayMonths[month.value - 1] else "undefined"
  }

  /** `formatDate` of the one-page-report template as written: the month is
      never checked, so a month outside 1..12 prints `undefined`, and a
      non-numeric day prints `NaN`. */
  function FormatDateOprAsWritten(dateStr: string): string {
    if dateStr == "" then ""
    else match DateTextOf(dateStr)
      case None => ""
      case Some(t) => NumToString(t.day) + " " + MonthText(t.month) + " " + t.year
  }

  /** Every date whose month field is a number outside 1..12 prints the
      word `undefined` in the report as written, where the document
      generator prints nothing. */
  lemma FormatDateOprAsWrittenUndefined(s: string, y: string, m: int, d: int)
    requires s != "" && DateTextOf(s) == Some(DateText(y, Int(m), Int(d))) && !(1 <= m <= 12)
    ensures FormatDateOprAsWritten(s) == IntToString(d) + " undefined " + y
    ensures FormatDate(s) == ""
  {
    AsWrittenFields(s, DateText(y, Int(m), Int(d)));
    UndefinedWord(IntToString(d), y);
  }

  /** What the report as written prints for a date with three fields. */
  lemma AsWrittenFields(s: string, t: DateText)
    requires s != "" && DateTextOf(s) == Some(t)
    ensures FormatDateOprAsWritten(s) == NumToString(t.day) + " " + MonthText(t.month) + " " + t.year
  {
  }

  lemma UndefinedWord(a: string, y: string)
    ensures a + " " + "undefined" + " " + y == a + " undefined " + y
  {
  }

  /** The validated `formatDate` is the intended report behaviour: wherever
      it prints, the report as written prints the same line, and wherever it
      blanks a date the report as written printed either nothing or a line
      with `undefined` for the month or `NaN` for the day. */
  lemma FormatDateOprCorrection(dateStr: string)
    ensures FormatDate(dateStr) != "" ==> FormatDateOprAsWritten(dateStr) == FormatDate(dateStr)
    ensures FormatDate(dateStr) == "" && FormatDateOprAsWritten(dateStr) != "" ==>
      MonthText(DateTextOf(dateStr).value.month) == "undefined" || NumToString(DateTextOf(dateStr).value.day) == "NaN"
  {
    if dateStr != "" && DateTextOf(dateStr).Some? {
      var t := DateTextOf(dateStr).value;
      if Printable(t) {
        assert FormatDate(dateStr) == DateLine(t);
        assert FormatDateOprAsWritten(dateStr) == NumToString(t.day) + " " + MonthText(t.month) + " " + t.year;
      }
    }
  }

  /** The discrepancy on the values a date picker produces: a report
      dated `<y>-13-05` (any month number past 12, any day) reads
      `5 undefined <y>`. */
  lemma FormatDateOprIsoUndefined(y: string, m: nat, d: nat)
    requires y != "" && '-' !in y && m > 12
    ensures FormatDateOprAsWritten(y + "-" + NatToString(m) + "-" + PadStart2(NatToString(d))) ==
      NatToString(d) + " undefined " + y
    ensures FormatDate(y + "-" + NatToString(m) + "-" + PadStart2(NatToString(d))) == ""
  {
    var ms, ds := NatToString(m), PadStart2(NatToString(d));
    PlainNumber(m);
    PaddedNumber(d);
    IsoDateText(y, ms, ds);
    FormatDateOprAsWrittenUndefined(y + "-" + ms + "-" + ds, y, m, d);
  }

  /** Splitting `y-m-d` on `-` gives the three fields back. */
  lemma IsoSplit(y: string, ms: string, ds: string)
    requires '-' !in y && '-' !in ms && '-' !in ds
    ensures Split(y + "-" + ms + "-" + ds, '-') == [y, ms, ds]
  {
    var p := [y, ms, ds];
    assert p[1..] == [ms, ds] && [ms, ds][1..] == [ds];
    assert Join([ms, ds], "-") == ms + "-" + ds;
    assert Join(p, "-") == y + "-" + (ms + "-" + ds);
    assert y + "-" + (ms + "-" + ds) == y + "-" + ms + "-" + ds;
    SplitJoin(p, '-');
  }

  lemma IsoDateText(y: string, ms: string, ds: string)
    requires '-' !in y && '-' !in ms && '-' !in ds
    requires y != "" && ms != "" && ds != ""
    ensures DateTextOf(y + "-" + ms + "-" + ds) == Some(DateText(y, NumberOf(ms), NumberOf(ds)))
    ensures IsoFields(y + "-" + ms + "-" + ds) == IsoNumbers(NumberOf(y), NumberOf(ms), NumberOf(ds))
  {
    IsoSplit(y, ms, ds);
    FieldsOfSplit(y + "-" + ms + "-" + ds, y, ms, ds);
  }

  lemma FieldsOfSplit(s: string, y: string, ms: string, ds: string)
    requires Split(s, '-') == [y, ms, ds] && y != "" && ms != "" && ds != ""
    ensures DateTextOf(s) == Some(DateText(y, NumberOf(ms), NumberOf(ds)))
    ensures IsoFields(s) == IsoNumbers(NumberOf(y), NumberOf(ms), NumberOf(ds))
  {
  }

  /** What `formatDate` prints for fields it accepts. */
  lemma FormatDatePrints(s: string, t: DateText)
    requires s != "" && DateTextOf(s) == Some(t) && Printable(t)
    ensures FormatDate(s) == DateLine(t)
  {
  }

  /** An `<input type="date">` value `YYYY-MM-DD` formats as the day
      without its leading zero, the Malay month name and the year. */
  lemma FormatDateIso(y: string, m: nat, d: nat)
    requires y != "" && '-' !in y && 1 <= m <= 12
    ensures FormatDate(y + "-" + PadStart2(NatToString(m)) + "-" + PadStart2(NatToString(d))) ==
      NatToString(d) + " " + MalayMonths[m - 1] + " " + y
  {
    var ms, ds := PadStart2(NatToString(m)), PadStart2(NatToString(d));
    PaddedNumber(m);
    PaddedNumber(d);
    IsoDateText(y, ms, ds);
    FormatDatePrints(y + "-" + ms + "-" + ds, DateText(y, Int(m), Int(d)));
    DateLineNat(y, m, d);
  }

  lemma DateLineNat(y: string, m: int, d: nat)
    requires 1 <= m <= 12
    ensures DateLine(DateText(y, Int(m), Int(d))) == NatToString(d) + " " + MalayMonths[m - 1] + " " + y
  {
  }

  /** A date the parser accepts always formats to non-empty text. */
  lemma ParsedDateFormats(tarikh: string)
    requires ParseIsoDateLocal(tarikh).Some?
    ensures FormatDate(tarikh) != ""
  {
    ParseIsoMeaning(tarikh);
    NamedDayHasText(tarikh);
  }

  /** Fields that name a day are present and non-empty: an empty field
      reads as 0, which no year, month or day the parser accepts can be. */
  lemma NamedDayHasText(s: string)
    requires NamesDay(IsoFields(s))
    ensures DateTextOf(s).Some? && Printable(DateTextOf(s).value)
  {
    var parts := Split(s, '-');
    var f := IsoFields(s);
    assert |parts| >= 3;
    assert f == IsoNumbers(NumberOf(parts[0]), NumberOf(parts[1]), NumberOf(parts[2]));
    EmptyFieldIsZero(parts[0]);
    EmptyFieldIsZero(parts[1]);
    EmptyFieldIsZero(parts[2]);
    assert DateTextOf(s) == Some(DateText(parts[0], f.month, f.day));
  }

  /** `Number("")` is 0. */
  lemma EmptyFieldIsZero(p: string)
    ensures p == "" ==> NumberOf(p) == Int(0)
  {
  }

  /** A parse of integer fields that name a real day. */
  lemma ParseIsoAccepts(input: string, y: int, m: int, d: int)
    requires input != "" && IsoFields(input) == IsoNumbers(Int(y), Int(m), Int(d))
    requires IsValid(CivilDate(y, m - 1, d)) && !(0 <= y <= 99) && InRange(CivilDate(y, m - 1, d))
    ensures ParseIsoDateLocal(input) == Some(CivilDate(y, m - 1, d))
  {
    var f := IsoNumbers(Int(y), Int(m), Int(d));
    CheckFieldsMeaning(f);
    ParseOfFields(input, f);
    assert NamesDay(f);
  }

  lemma ParseOfFields(input: string, f: IsoNumbers)
    requires input != "" && IsoFields(input) == f
    ensures ParseIsoDateLocal(input) == CheckFields(f)
  {
  }

  /** A parse of integer fields that do not name a real day fails. */
  lemma ParseIsoRejects(input: string, y: int, m: int, d: int)
    requires IsoFields(input) == IsoNumbers(Int(y), Int(m), Int(d)) && !IsValid(CivilDate(y, m - 1, d))
    ensures ParseIsoDateLocal(input).None?
  {
    if input != "" {
      CheckFieldsMeaning(IsoNumbers(Int(y), Int(m), Int(d)));
      assert ParseIsoDateLocal(input) == CheckFields(IsoNumbers(Int(y), Int(m), Int(d)));
    }
  }

  lemma DayNameOfParsed(tarikh: string, date: CivilDate)
    requires ParseIsoDateLocal(tarikh) == Some(date)
    ensures IsValid(date) && DayNameMalay(tarikh) == MalayDays[Weekday(date)]
  {
  }

  /** The weekday of a date picker value `YYYY-MM-DD` that names a real
      day. */
  lemma DayNameIso(y: nat, m: nat, d: nat)
    requires y >= 100 && IsValid(CivilDate(y, m - 1, d)) && InRange(CivilDate(y, m - 1, d))
    ensures DayNameMalay(NatToString(y) + "-" + PadStart2(NatToString(m)) + "-" + PadStart2(NatToString(d))) ==
      MalayDays[Weekday(CivilDate(y, m - 1, d))]
  {
    var ys, ms, ds := NatToString(y), PadStart2(NatToString(m)), PadStart2(NatToString(d));
    PlainNumber(y);
    PaddedNumber(m);
    PaddedNumber(d);
    IsoDateText(ys, ms, ds);
    ParseIsoAccepts(ys + "-" + ms + "-" + ds, y, m, d);
    DayNameOfParsed(ys + "-" + ms + "-" + ds, CivilDate(y, m - 1, d));
  }

  /** A date picker value for a day the month does not have gives `-`. */
  lemma DayNameIsoInvalid(y: nat, m: nat, d: nat)
    requires !IsValid(CivilDate(y, m - 1, d))
    ensures DayNameMalay(NatToString(y) + "-" + PadStart2(NatToString(m)) + "-" + PadStart2(NatToString(d))) == "-"
  {
    var ys, ms, ds := NatToString(y), PadStart2(NatToString(m)), PadStart2(NatToString(d));
    PlainNumber(y);
    PaddedNumber(m);
    PaddedNumber(d);
    IsoDateText(ys, ms, ds);
    ParseIsoRejects(ys + "-" + ms + "-" + ds, y, m, d);
  }

  /** A month number past 12 names no day, so the weekday is `-`. */
  lemma DayNameOfUndefinedMonth(y: nat, m: nat, d: nat)
    requires m > 12
    ensures DayNameMalay(NatToString(y) + "-" + NatToString(m) + "-" + PadStart2(NatToString(d))) == "-"
  {
    var ys, ms, ds := NatToString(y), NatToString(m), PadStart2(NatToString(d));
    PlainNumber(y);
    PlainNumber(m);
    PaddedNumber(d);
    IsoDateText(ys, ms, ds);
    ParseIsoRejects(ys + "-" + ms + "-" + ds, y, m, d);
  }

  /** 2025-01-01 is 20089 days after the epoch, a Wednesday (Rabu), and
      2023 has no 29 February. */
  lemma CalendarExamples()
    ensures IsValid(CivilDate(2025, 0, 1)) && DayNumber(CivilDate(2025, 0, 1)) == 20089
    ensures InRange(CivilDate(2025, 0, 1)) && MalayDays[Weekday(CivilDate(2025, 0, 1))] == "Rabu"
    ensures !IsValid(CivilDate(2023, 1, 29)) && IsValid(CivilDate(2024, 1, 29))
  {
  }
}
