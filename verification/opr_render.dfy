/** The values the one-page report (OPR) template selects from the report
    data: the density preset, the gallery layout, the numbered officer list,
    the activity list, the date line and the sanitised header fields. The
    CSS and the markup around these values are not modelled. */
module OprRender {
  import opened Wrappers
  import opened Seqs
  import opened JsText
  import opened HtmlEscape
  import Calendar

  /** The report data; an optional text field that is absent is "", and an
      absent list is []. */
  datatype OprData = OprData(
    namaProgram: string,
    tarikh: string,
    masa: string,
    tempat: string,
    kehadiranSasaran: string,
    isuMasalah: string,
    aktiviti: seq<string>,
    gambar: seq<string>,
    schoolName: string,
    schoolCode: string,
    schoolAddress: string,
    pegawaiTerlibat: seq<string>,
    namaPgb: string,
    preparedBy: string)

  // ---------------------------------------------------------------- density

  datatype Density = Normal | Compact | Tight

  function Rank(d: Density): nat {
    match d
    case Normal => 0
    case Compact => 1
    case Tight => 2
  }

  /** `getDensityPreset`: `tight` once any count reaches its high mark,
      else `compact` once any reaches its middle mark, else `normal`. */
  function DensityPreset(images: int, activities: int, officers: int, textWeight: int): (r: Density)
    ensures r == Tight <==> images >= 7 || activities >= 8 || officers >= 10 || textWeight > 1000
    ensures r == Normal <==> images < 5 && activities < 6 && officers < 8 && textWeight <= 750
  {
    if images >= 7 || activities >= 8 || officers >= 10 || textWeight > 1000 then Tight
    else if images >= 5 || activities >= 6 || officers >= 8 || textWeight > 750 then Compact
    else Normal
  }

  /** More content never makes the page less dense. */
  lemma DensityMonotone(i: int, a: int, o: int, t: int, i2: int, a2: int, o2: int, t2: int)
    requires i <= i2 && a <= a2 && o <= o2 && t <= t2
    ensures Rank(DensityPreset(i, a, o, t)) <= Rank(DensityPreset(i2, a2, o2, t2))
  {
    var lo := DensityPreset(i, a, o, t);
    var hi := DensityPreset(i2, a2, o2, t2);
    if lo == Tight {
      assert hi == Tight;
    } else if lo == Compact {
      assert hi != Normal;
    }
  }

  // ---------------------------------------------------------------- counts and text weight

  /** `filter(Boolean).length` on the raw entries: no trimming, no cap. */
  function TruthyCount(xs: seq<string>): nat {
    |Filter(xs, NonEmpty)|
  }

  /** The UTF-16 lengths of the entries, added up. */
  function TotalLength(xs: seq<string>): nat
    decreases |xs|
  {
    if xs == [] then 0 else Utf16Length(xs[0]) + TotalLength(xs[1..])
  }

  /** `xs.join(' ').length` is the sum of the entry lengths plus one
      separator between each two entries. */
  lemma {:induction false} JoinLength(xs: seq<string>, sep: string)
    ensures Utf16Length(Join(xs, sep)) == TotalLength(xs) + (if xs == [] then 0 else Utf16Length(sep) * (|xs| - 1))
    decreases |xs|
  {
    if |xs| > 1 {
      var u := Utf16Length(sep);
      JoinLength(xs[1..], sep);
      assert Join(xs, sep) == xs[0] + sep + Join(xs[1..], sep);
      Utf16LengthConcat(xs[0] + sep, Join(xs[1..], sep));
      Utf16LengthConcat(xs[0], sep);
      MulStep(u, |xs| - 1);
    } else if |xs| == 1 {
      assert TotalLength(xs[1..]) == 0;
    }
  }

  lemma MulStep(u: int, m: int)
    ensures u * m == u + u * (m - 1)
  {
  }

  /** The text-weight score of the density preset; every `.length` counts
      UTF-16 code units. */
  function TextWeight(d: OprData): nat {
    Utf16Length(d.namaProgram) + Utf16Length(d.tempat) + Utf16Length(d.namaPgb)
      + Utf16Length(d.kehadiranSasaran) + Utf16Length(d.isuMasalah) + Utf16Length(d.preparedBy)
      + Utf16Length(Join(d.aktiviti, " "))
  }

  /** The score counts every code unit of the six fields and of the
      activities, and one space between each two activities; a character
      outside the Basic Multilingual Plane counts twice. */
  lemma TextWeightCounts(d: OprData)
    ensures TextWeight(d) ==
      Utf16Length(d.namaProgram) + Utf16Length(d.tempat) + Utf16Length(d.namaPgb)
      + Utf16Length(d.kehadiranSasaran) + Utf16Length(d.isuMasalah) + Utf16Length(d.preparedBy)
      + TotalLength(d.aktiviti) + (if d.aktiviti == [] then 0 else |d.aktiviti| - 1)
    ensures (InBmp(d.namaProgram) && InBmp(d.tempat) && InBmp(d.namaPgb) && InBmp(d.kehadiranSasaran)
        && InBmp(d.isuMasalah) && InBmp(d.preparedBy)) ==>
      TextWeight(d) == |d.namaProgram| + |d.tempat| + |d.namaPgb| + |d.kehadiranSasaran|
        + |d.isuMasalah| + |d.preparedBy| + TotalLength(d.aktiviti) + (if d.aktiviti == [] then 0 else |d.aktiviti| - 1)
  {
    JoinLength(d.aktiviti, " ");
    assert Utf16Length(" ") == 1;
    Utf16LengthBmp(d.namaProgram);
    Utf16LengthBmp(d.tempat);
    Utf16LengthBmp(d.namaPgb);
    Utf16LengthBmp(d.kehadiranSasaran);
    Utf16LengthBmp(d.isuMasalah);
    Utf16LengthBmp(d.preparedBy);
  }

  /** The photos the report uses: the first eight. */
  function Images(d: OprData): (r: seq<string>)
    ensures |r| <= 8 && r <= d.gambar
    ensures |d.gambar| <= 8 ==> r == d.gambar
  {
    Take(d.gambar, 8)
  }

  /** The preset of the report, from the photo count after the cap and the
      raw entry counts. */
  function DensityOf(d: OprData): Density {
    DensityPreset(|Images(d)|, TruthyCount(d.aktiviti), TruthyCount(d.pegawaiTerlibat), TextWeight(d))
  }

  /** Extra photos beyond eight do not change the preset. */
  lemma DensityCapsImages(d: OprData, extra: seq<string>)
    requires |d.gambar| >= 8
    ensures DensityOf(d.(gambar := d.gambar + extra)) == DensityOf(d)
  {
    assert (d.gambar + extra)[..8] == d.gambar[..8];
  }

  // ---------------------------------------------------------------- sanitising

  /** `v => sanitizeText(v)` over a list. */
  function SanitizeAll(xs: seq<string>): (r: seq<string>)
    ensures |r| == |xs|
    ensures forall i :: 0 <= i < |xs| ==> r[i] == SanitizeText(Some(xs[i]))
    decreases |xs|
  {
    if xs == [] then [] else [SanitizeText(Some(xs[0]))] + SanitizeAll(xs[1..])
  }

  predicate HasText(s: string) {
    !AllSpace(s)
  }

  /** Sanitising and then dropping the empty results is the same as
      dropping the whitespace-only entries and then sanitising. */
  lemma {:induction false} SanitizeFilterCommute(xs: seq<string>)
    ensures Filter(SanitizeAll(xs), NonEmpty) == SanitizeAll(Filter(xs, HasText))
    decreases |xs|
  {
    if xs != [] {
      SanitizeFilterCommute(xs[1..]);
      SanitizeEmpty(Some(xs[0]));
      assert SanitizeAll(xs)[1..] == SanitizeAll(xs[1..]);
      if HasText(xs[0]) {
        assert Filter(xs, HasText) == [xs[0]] + Filter(xs[1..], HasText);
        assert SanitizeAll(Filter(xs, HasText))[1..] == SanitizeAll(Filter(xs[1..], HasText));
      } else {
        assert Filter(xs, HasText) == Filter(xs[1..], HasText);
      }
    }
  }

  /** An entry with text other than whitespace is truthy. */
  lemma {:induction false} TextCountBound(xs: seq<string>)
    ensures |Filter(xs, HasText)| <= |Filter(xs, NonEmpty)|
    decreases |xs|
  {
    if xs != [] {
      TextCountBound(xs[1..]);
    }
  }

  // ---------------------------------------------------------------- officers and activities

  /** A rendered list entry: an officer's numbered line, an activity, or
      the single `-` entry of an empty list. */
  datatype ListItem = Numbered(n: nat, text: string) | Bullet(text: string) | Dash

  /** The officers shown: sanitised, blanks dropped, at most twelve. */
  function Officers(d: OprData): (r: seq<string>)
    ensures |r| <= 12
    ensures forall i :: 0 <= i < |r| ==> r[i] != ""
  {
    Take(Filter(SanitizeAll(d.pegawaiTerlibat), NonEmpty), 12)
  }

  /** The officer lines, numbered from 1 in input order; an empty list
      shows one `-` line. */
  function NumberedItems(o: seq<string>): (r: seq<ListItem>)
    ensures |r| >= 1
    ensures o == [] ==> r == [Dash]
    ensures o != [] ==> (|r| == |o| && forall i :: 0 <= i < |r| ==> r[i] == Numbered(i + 1, o[i]))
  {
    if o == [] then [Dash] else seq(|o|, i requires 0 <= i < |o| => Numbered(i + 1, o[i]))
  }

  function OfficerItems(d: OprData): (r: seq<ListItem>)
    ensures 1 <= |r| <= 12
  {
    NumberedItems(Officers(d))
  }

  /** The officers shown are the first twelve entries with text, each
      sanitised, in input order. */
  lemma OfficersAreWritten(d: OprData)
    ensures Officers(d) == Take(SanitizeAll(Filter(d.pegawaiTerlibat, HasText)), 12)
    ensures |Officers(d)| <= TruthyCount(d.pegawaiTerlibat)
  {
    SanitizeFilterCommute(d.pegawaiTerlibat);
    TextCountBound(d.pegawaiTerlibat);
  }

  /** The activities shown: sanitised, blanks dropped, at most eight. */
  function Activities(d: OprData): (r: seq<string>)
    ensures |r| <= 8
    ensures forall i :: 0 <= i < |r| ==> r[i] != ""
  {
    Take(Filter(SanitizeAll(d.aktiviti), NonEmpty), 8)
  }

  /** The summary list; an empty one shows a single `-` entry. */
  function BulletItems(a: seq<string>): (r: seq<ListItem>)
    ensures |r| >= 1
    ensures a == [] ==> r == [Dash]
    ensures a != [] ==> (|r| == |a| && forall i :: 0 <= i < |r| ==> r[i] == Bullet(a[i]))
  {
    if a == [] then [Dash] else seq(|a|, i requires 0 <= i < |a| => Bullet(a[i]))
  }

  function SummaryItems(d: OprData): (r: seq<ListItem>)
    ensures 1 <= |r| <= 8
  {
    BulletItems(Activities(d))
  }

  /** The activities shown are the first eight with text, sanitised, in
      order; the density count is never below the number shown. */
  lemma ActivitiesAreWritten(d: OprData)
    ensures Activities(d) == Take(SanitizeAll(Filter(d.aktiviti, HasText)), 8)
    ensures |Activities(d)| <= TruthyCount(d.aktiviti)
  {
    SanitizeFilterCommute(d.aktiviti);
    TextCountBound(d.aktiviti);
  }

  // ---------------------------------------------------------------- gallery

  /** `Math.min(Math.max(n, 1), 8)`. */
  function GalleryIndex(n: int): (r: int)
    ensures 1 <= r <= 8
    ensures 1 <= n <= 8 ==> r == n
    ensures n < 1 ==> r == 1
    ensures n > 8 ==> r == 8
  {
    var atLeastOne := if n > 1 then n else 1;
    if atLeastOne < 8 then atLeastOne else 8
  }

  /** The gallery: the photo slots under their layout class, or the single
      "Tiada Gambar" slot under `layout-1`. */
  datatype Gallery = Photos(layout: int, slots: seq<string>) | Placeholder

  const PlaceholderText := "Tiada Gambar"

  function LayoutClass(g: Gallery): int {
    if g.Placeholder? then 1 else g.layout
  }

  function GalleryOf(d: OprData): (r: Gallery)
    ensures r.Placeholder? <==> d.gambar == []
    ensures r.Photos? ==> r.slots == Images(d) && r.layout == |r.slots| && 1 <= r.layout <= 8
    ensures 1 <= LayoutClass(r) <= 8
  {
    var images := Images(d);
    if images == [] then Placeholder else Photos(GalleryIndex(|images|), images)
  }

  /** The gallery section carries the `no-images` class. */
  predicate NoImagesSection(d: OprData) {
    |Images(d)| == 0
  }

  /** The section is marked empty exactly when the placeholder is shown. */
  lemma NoImagesIffPlaceholder(d: OprData)
    ensures NoImagesSection(d) <==> GalleryOf(d).Placeholder?
    ensures NoImagesSection(d) ==> LayoutClass(GalleryOf(d)) == 1
  {
  }

  // ---------------------------------------------------------------- date line

  /** The parts of `formatOprDateTimeDay`, in order: the uppercased date,
      time and weekday, each only when present. */
  function Parts(dateText: string, time: string, dayText: string): seq<string> {
    (if dateText != "" then [dateText] else [])
      + (if time != "" then [time] else [])
      + (if dayText != "" && dayText != "-" then [dayText] else [])
  }

  /** The parts joined with " / ", or `-` when there are none. */
  function PartsLine(dateText: string, time: string, dayText: string): (r: string)
    ensures r != ""
  {
    var parts := Parts(dateText, time, dayText);
    if parts == [] then "-"
    else
      JoinNonEmpty(parts, " / ");
      Join(parts, " / ")
  }

  lemma {:induction false} JoinNonEmpty(parts: seq<string>, sep: string)
    requires parts != [] && parts[0] != ""
    ensures Join(parts, sep) != ""
  {
  }

  /** `formatOprDateTimeDay` of the report template, which every report
      export renders through. Its date part is the template's own
      `formatDate` as written, so a month outside 1..12 prints `UNDEFINED`
      (see `Calendar.FormatDateOprAsWritten`). */
  function FormatOprDateTimeDay(tarikh: string, masa: string): (r: string)
    ensures r != ""
  {
    PartsLine(ToUpper(Calendar.FormatDateOprAsWritten(tarikh)), ToUpper(masa), ToUpper(Calendar.DayNameMalay(tarikh)))
  }

  /** Which parts appear and how they are joined. */
  lemma PartsLineCases(a: string, b: string, c: string)
    ensures a != "" && b != "" && c != "" && c != "-" ==> PartsLine(a, b, c) == a + " / " + b + " / " + c
    ensures a != "" && b != "" && c == "-" ==> PartsLine(a, b, c) == a + " / " + b
    ensures a != "" && b == "" && c == "-" ==> PartsLine(a, b, c) == a
    ensures a == "" && c == "-" ==> PartsLine(a, b, c) == if b == "" then "-" else b
  {
    if a != "" && b != "" && c != "" && c != "-" {
      assert Parts(a, b, c) == [a, b, c];
      assert Join([b, c], " / ") == b + " / " + c;
      assert Join([a, b, c], " / ") == a + " / " + (b + " / " + c);
    } else if a != "" && b != "" && c == "-" {
      assert Parts(a, b, c) == [a, b];
      assert Join([a, b], " / ") == a + " / " + b;
    } else if a != "" && b == "" && c == "-" {
      assert Parts(a, b, c) == [a];
    } else if a == "" && c == "-" {
      assert Parts(a, b, c) == if b == "" then [] else [b];
    }
  }

  lemma UpperDash(s: string)
    ensures ToUpper(s) == "-" <==> s == "-"
  {
    if ToUpper(s) == "-" {
      assert UpperChar(s[0]) == '-';
    }
  }

  lemma UpperEmpty(s: string)
    ensures ToUpper(s) == "" <==> s == ""
  {
  }

  /** Three present parts, for any texts. */
  lemma LineOfTexts(date: string, time: string, day: string)
    requires date != "" && time != "" && day != "" && day != "-"
    ensures PartsLine(ToUpper(date), ToUpper(time), ToUpper(day)) ==
      ToUpper(date) + " / " + ToUpper(time) + " / " + ToUpper(day)
  {
    UpperDash(day);
    UpperEmpty(date);
    UpperEmpty(time);
    UpperEmpty(day);
    PartsLineCases(ToUpper(date), ToUpper(time), ToUpper(day));
  }

  /** Where the validated `formatDate` prints, the template prints the
      same date. */
  lemma AsWrittenDate(tarikh: string)
    requires Calendar.FormatDate(tarikh) != ""
    ensures Calendar.FormatDateOprAsWritten(tarikh) == Calendar.FormatDate(tarikh)
  {
    Calendar.FormatDateOprCorrection(tarikh);
  }

  /** A date that formats, a weekday and a time give all three parts. */
  lemma DateTimeDayThree(tarikh: string, masa: string)
    requires Calendar.FormatDate(tarikh) != "" && Calendar.DayNameMalay(tarikh) != "-" && masa != ""
    ensures FormatOprDateTimeDay(tarikh, masa) ==
      ToUpper(Calendar.FormatDate(tarikh)) + " / " + ToUpper(masa) + " / " + ToUpper(Calendar.DayNameMalay(tarikh))
  {
    AsWrittenDate(tarikh);
    LineOfTexts(Calendar.FormatDate(tarikh), masa, Calendar.DayNameMalay(tarikh));
  }

  /** A date the parser accepts and a time give all three parts. */
  lemma DateTimeDayFull(tarikh: string, masa: string)
    requires Calendar.ParseIsoDateLocal(tarikh).Some? && masa != ""
    ensures FormatOprDateTimeDay(tarikh, masa) ==
      ToUpper(Calendar.FormatDate(tarikh)) + " / " + ToUpper(masa) + " / " + ToUpper(Calendar.DayNameMalay(tarikh))
  {
    Calendar.ParsedDateFormats(tarikh);
    DateTimeDayThree(tarikh, masa);
  }

  /** Without a date and a time the line is `-`; without a date it is the
      time alone. */
  lemma DateTimeDayNoDate(masa: string)
    ensures FormatOprDateTimeDay("", masa) == if masa == "" then "-" else ToUpper(masa)
  {
    UpperDash("-");
    UpperEmpty(masa);
    PartsLineCases(ToUpper(Calendar.FormatDateOprAsWritten("")), ToUpper(masa), ToUpper(Calendar.DayNameMalay("")));
  }

  /** A date that formats but does not exist on the calendar (the 30th of
      February) shows no weekday. */
  lemma DateTimeDayNoWeekday(tarikh: string)
    requires Calendar.ParseIsoDateLocal(tarikh).None? && Calendar.FormatDate(tarikh) != ""
    ensures FormatOprDateTimeDay(tarikh, "") == ToUpper(Calendar.FormatDate(tarikh))
  {
    var date := Calendar.FormatDate(tarikh);
    AsWrittenDate(tarikh);
    assert Calendar.DayNameMalay(tarikh) == "-";
    UpperDash("-");
    UpperEmpty(date);
    PartsLineCases(ToUpper(date), ToUpper(""), ToUpper("-"));
  }

  /** The document generator's own `formatOprDateTimeDay`, written case
      by case over the upper-cased date, time and weekday (the weekday ""
      unless it names a day); `blank` means neither a date nor a time was
      given. */
  function CaseLine(blank: bool, dateText: string, upperTime: string, upperDay: string): string {
    if blank then "-"
    else if dateText == "" && upperTime != "" && upperDay != "" then upperTime + " / " + upperDay
    else if dateText == "" && upperTime != "" then upperTime
    else if upperTime == "" && upperDay != "" then dateText + " / " + upperDay
    else if upperTime == "" then (if dateText != "" then dateText else "-")
    else if upperDay == "" then dateText + " / " + upperTime
    else dateText + " / " + upperTime + " / " + upperDay
  }

  function FormatOprDateTimeDayCopy(tarikh: string, masa: string): string {
    var dayText := Calendar.DayNameMalay(tarikh);
    CaseLine(tarikh == "" && masa == "", ToUpper(Calendar.FormatDate(tarikh)), ToUpper(masa),
      if dayText != "" && dayText != "-" then ToUpper(dayText) else "")
  }

  /** The case-by-case line is the joined parts whenever a weekday comes
      with a date. */
  lemma CaseLineIsPartsLine(blank: bool, a: string, b: string, c: string)
    requires blank ==> a == "" && b == "" && (c == "" || c == "-")
    requires c != "" && c != "-" ==> a != ""
    ensures CaseLine(blank, a, b, if c != "" && c != "-" then c else "") == PartsLine(a, b, c)
  {
    var day := c != "" && c != "-";
    if a != "" && b != "" && day {
      PartsLineCases(a, b, c);
    } else if a != "" && b != "" {
      assert Parts(a, b, c) == [a, b];
      assert Join([a, b], " / ") == a + " / " + b;
    } else if a != "" && day {
      assert Parts(a, b, c) == [a, c];
      assert Join([a, c], " / ") == a + " / " + c;
    } else if b != "" && day {
      assert false;
    } else if a != "" {
      assert Parts(a, b, c) == [a];
    } else if b != "" {
      assert Parts(a, b, c) == [b];
    } else {
      assert Parts(a, b, c) == [];
    }
  }

  /** The generator's copy, which is built on the validated `formatDate`,
      and the template's function print the same line wherever the two
      `formatDate` copies agree: whenever the validated one prints, and
      whenever the template's prints nothing. That covers every date the
      date picker produces. */
  lemma DateTimeDayCopiesAgree(tarikh: string, masa: string)
    ensures Calendar.FormatDate(tarikh) != "" || Calendar.FormatDateOprAsWritten(tarikh) == "" ==>
      FormatOprDateTimeDayCopy(tarikh, masa) == FormatOprDateTimeDay(tarikh, masa)
  {
    Calendar.FormatDateOprCorrection(tarikh);
    if Calendar.FormatDate(tarikh) != "" || Calendar.FormatDateOprAsWritten(tarikh) == "" {
      assert Calendar.FormatDateOprAsWritten(tarikh) == Calendar.FormatDate(tarikh);
      CopiesOnOneDate(tarikh, masa);
    }
  }

  lemma CopiesOnOneDate(tarikh: string, masa: string)
    requires Calendar.FormatDateOprAsWritten(tarikh) == Calendar.FormatDate(tarikh)
    ensures FormatOprDateTimeDayCopy(tarikh, masa) == FormatOprDateTimeDay(tarikh, masa)
  {
    var date := Calendar.FormatDate(tarikh);
    var dayText := Calendar.DayNameMalay(tarikh);
    UpperDash(dayText);
    UpperEmpty(dayText);
    UpperEmpty(date);
    UpperEmpty(masa);
    if dayText != "-" {
      Calendar.ParsedDateFormats(tarikh);
    }
    if tarikh == "" {
      assert dayText == "-";
    }
    CaseLineIsPartsLine(tarikh == "" && masa == "", ToUpper(date), ToUpper(masa), ToUpper(dayText));
  }

  /** Where the copies part: a date with a month number past 12 reads
      `<d> UNDEFINED <y>` in the template's line, which the report shows,
      and is dropped from the generator's copy. */
  lemma DateTimeDayCopiesDiffer(y: nat, m: nat, d: nat, masa: string)
    requires m > 12
    ensures FormatOprDateTimeDay(IsoText(y, m, d), masa) ==
      if masa == "" then ToUpper(UndefinedLine(y, d)) else ToUpper(UndefinedLine(y, d)) + " / " + ToUpper(masa)
    ensures FormatOprDateTimeDayCopy(IsoText(y, m, d), masa) == if masa == "" then "-" else ToUpper(masa)
  {
    UnprintedIso(y, m, d);
    TemplateLineOfUnprintedDate(IsoText(y, m, d), UndefinedLine(y, d), masa);
    CopyLineOfUnprintedDate(IsoText(y, m, d), masa);
  }

  /** The date picker's text for a year, a month number and a day. */
  function IsoText(y: nat, m: nat, d: nat): string {
    NatToString(y) + "-" + NatToString(m) + "-" + PadStart2(NatToString(d))
  }

  /** What the template's `formatDate` prints for such a date past
      December. */
  function UndefinedLine(y: nat, d: nat): string {
    NatToString(d) + " undefined " + NatToString(y)
  }

  lemma UnprintedIso(y: nat, m: nat, d: nat)
    requires m > 12
    ensures IsoText(y, m, d) != "" && UndefinedLine(y, d) != ""
    ensures Calendar.FormatDateOprAsWritten(IsoText(y, m, d)) == UndefinedLine(y, d)
    ensures Calendar.FormatDate(IsoText(y, m, d)) == "" && Calendar.DayNameMalay(IsoText(y, m, d)) == "-"
  {
    PlainNumber(y);
    Calendar.FormatDateOprIsoUndefined(NatToString(y), m, d);
    Calendar.DayNameOfUndefinedMonth(y, m, d);
    assert IsoText(y, m, d)[|NatToString(y)|] == '-';
  }

  /** The template's line for a date only the template prints and that
      names no day. */
  lemma TemplateLineOfUnprintedDate(tarikh: string, date: string, masa: string)
    requires date != "" && Calendar.FormatDateOprAsWritten(tarikh) == date && Calendar.DayNameMalay(tarikh) == "-"
    ensures FormatOprDateTimeDay(tarikh, masa) == if masa == "" then ToUpper(date) else ToUpper(date) + " / " + ToUpper(masa)
  {
    UpperDash("-");
    UpperEmpty(date);
    UpperEmpty(masa);
    PartsLineCases(ToUpper(date), ToUpper(masa), ToUpper("-"));
  }

  /** The generator's line for a date it does not print and that names no
      day. */
  lemma CopyLineOfUnprintedDate(tarikh: string, masa: string)
    requires tarikh != "" && Calendar.FormatDate(tarikh) == "" && Calendar.DayNameMalay(tarikh) == "-"
    ensures FormatOprDateTimeDayCopy(tarikh, masa) == if masa == "" then "-" else ToUpper(masa)
  {
    UpperEmpty(masa);
    assert ToUpper("") == "";
  }

  // ---------------------------------------------------------------- header fields

  /** `sanitizeText(value || fallback)`. */
  function Field(value: string, fallback: string): (r: string)
    ensures value == "" ==> r == SanitizeText(Some(fallback))
    ensures value != "" ==> r == SanitizeText(Some(value))
  {
    SanitizeText(Some(if value != "" then value else fallback))
  }

  /** A field shows nothing only when its value is all whitespace: the
      fallback applies to the empty value alone, and trimming comes after
      it. */
  lemma FieldBlank(value: string, fallback: string)
    requires HasText(fallback)
    ensures Field(value, fallback) == "" <==> value != "" && AllSpace(value)
  {
    SanitizeEmpty(Some(if value != "" then value else fallback));
  }

  /** The fallbacks of the template all have text. */
  lemma FallbacksHaveText()
    ensures HasText("-") && HasText("NAMA SEKOLAH") && HasText("BERJALAN SEPERTI TELAH DIRANCANG")
  {
    assert !IsSpace("-"[0]);
    assert !IsSpace("NAMA SEKOLAH"[0]);
    assert !IsSpace("BERJALAN SEPERTI TELAH DIRANCANG"[0]);
  }

  // ---------------------------------------------------------------- the report

  /** The selected values of one report. The year is the date's year, or
      `currentYear` (the clock) when the date does not parse. */
  datatype OprView = OprView(
    title: string,
    year: string,
    dateLine: string,
    schoolName: string,
    schoolAddress: string,
    schoolCode: string,
    namaProgram: string,
    tempat: string,
    namaPgb: string,
    kehadiranSasaran: string,
    isuMasalah: string,
    preparedBy: string,
    officers: seq<ListItem>,
    summary: seq<ListItem>,
    gallery: Gallery,
    noImages: bool,
    density: Density)

  function RenderOpr(d: OprData, currentYear: int): (r: OprView)
    ensures r.noImages <==> r.gallery.Placeholder?
    ensures r.gallery.Photos? ==> r.gallery.layout == |r.gallery.slots| <= 8
    ensures |r.officers| >= 1 && |r.summary| >= 1
    ensures r.title == "One Page Report - " + r.schoolName
  {
    var schoolName := Field(d.schoolName, "NAMA SEKOLAH");
    var g := GalleryOf(d);
    OprView(
      "One Page Report - " + schoolName,
      SanitizeText(Some(Calendar.YearFromDate(d.tarikh, currentYear))),
      SanitizeText(Some(FormatOprDateTimeDay(d.tarikh, d.masa))),
      schoolName,
      Field(d.schoolAddress, "-"),
      Field(d.schoolCode, "-"),
      Field(d.namaProgram, "-"),
      Field(d.tempat, "-"),
      Field(d.namaPgb, "-"),
      Field(d.kehadiranSasaran, "-"),
      Field(d.isuMasalah, "BERJALAN SEPERTI TELAH DIRANCANG"),
      Field(d.preparedBy, "-"),
      OfficerItems(d),
      SummaryItems(d),
      g,
      NoImagesSection(d),
      DensityOf(d))
  }
}
