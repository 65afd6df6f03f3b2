/** The export buttons of the main page: the checks before a document is
    generated, the file names, and the progress states shown meanwhile. The
    generators themselves are outside the model; whether one of them fails
    is a parameter. */
module Export {
  import opened Wrappers
  import opened Seqs
  import opened JsText
  import opened Settings
  import OprForm
  import OprRender

  // ---------------------------------------------------------------- generation state

  datatype Status = Idle | Generating | Success | Error

  datatype Format = Docx | Pdf | Png

  datatype GenerationState = GenerationState(status: Status, format: Option<Format>, progress: int)

  const IdleState := GenerationState(Idle, None, 0)

  /** How a run ends: it completes, or it throws after the progress update
      with index `step` (0 for 10 %, 1 for 30 %, 2 for 80 %). */
  datatype Outcome = Completes | FailsAfter(step: nat)

  /** The states a started run goes through: the progress updates, then
      success at 100 % or an error at 0 %, then idle again once the
      notification timer has run. */
  function RunStates(fmt: Format, marks: seq<int>, outcome: Outcome): (r: seq<GenerationState>)
    requires |marks| >= 1
    ensures 3 <= |r| <= |marks| + 2 && r[|r| - 1] == IdleState
    ensures r[0] == GenerationState(Generating, Some(fmt), marks[0])
    ensures outcome.Completes? ==> |r| == |marks| + 2 && r[|r| - 2] == GenerationState(Success, Some(fmt), 100)
    ensures outcome.FailsAfter? ==> r[|r| - 2] == GenerationState(Error, Some(fmt), 0)
    ensures forall i :: 0 <= i < |r| - 2 ==> r[i] == GenerationState(Generating, Some(fmt), marks[i])
  {
    var shown := match outcome
      case Completes => marks
      case FailsAfter(k) => if k < |marks| then marks[..k + 1] else marks;
    var last := if outcome.Completes? then GenerationState(Success, Some(fmt), 100) else GenerationState(Error, Some(fmt), 0);
    seq(|shown|, i requires 0 <= i < |shown| => GenerationState(Generating, Some(fmt), shown[i])) + [last, IdleState]
  }

  predicate Increasing(marks: seq<int>) {
    forall i, j :: 0 <= i < j < |marks| ==> marks[i] < marks[j]
  }

  /** While a run is generating its progress only grows, and it stays below
      the 100 % of success. */
  lemma RunProgressGrows(fmt: Format, marks: seq<int>, outcome: Outcome)
    requires |marks| >= 1 && Increasing(marks) && marks[|marks| - 1] < 100
    ensures var r := RunStates(fmt, marks, outcome);
      forall i, j :: 0 <= i < j < |r| - 1 && r[j].status == Generating ==> r[i].progress < r[j].progress
    ensures var r := RunStates(fmt, marks, outcome);
      forall i :: 0 <= i < |r| - 1 && r[i].status == Generating ==> r[i].progress < 100
  {
    var r := RunStates(fmt, marks, outcome);
    forall i | 0 <= i < |r| - 2 ensures r[i].progress <= marks[|marks| - 1] {
      if i < |marks| - 1 {
        assert marks[i] < marks[|marks| - 1];
      }
    }
  }

  const MinitMarks: seq<int> := [10, 30, 80]

  /** `handleGenerateMinit`: without form data nothing changes; otherwise
      10 %, 30 %, 80 %, then success or error. */
  function MinitRun(hasData: bool, fmt: Format, outcome: Outcome): (r: seq<GenerationState>)
    requires fmt != Png
    ensures !hasData ==> r == []
    ensures hasData && outcome.Completes? ==> r == [
      GenerationState(Generating, Some(fmt), 10), GenerationState(Generating, Some(fmt), 30),
      GenerationState(Generating, Some(fmt), 80), GenerationState(Success, Some(fmt), 100), IdleState]
  {
    if !hasData then [] else RunStates(fmt, MinitMarks, outcome)
  }

  /** Why an OPR export is refused before anything starts. */
  datatype Refusal = NoData | NoPhoto | TooManyPhotos

  /** The checks of `handleGenerateOpr`, in their order. */
  function OprGuard(hasData: bool, photos: nat): (r: Option<Refusal>)
    ensures r.None? <==> hasData && 1 <= photos <= OprForm.MaxImages
  {
    if !hasData then Some(NoData)
    else if photos < 1 then Some(NoPhoto)
    else if photos > 8 then Some(TooManyPhotos)
    else None
  }

  /** `handleGenerateOpr`: a refused export changes no state; the image
      export reports 10 %, 30 % and 80 %, the print export 10 % and 30 %. */
  function OprRun(hasData: bool, photos: nat, fmt: Format, outcome: Outcome): (r: seq<GenerationState>)
    requires fmt != Docx
    ensures OprGuard(hasData, photos).Some? ==> r == []
    ensures OprGuard(hasData, photos).None? ==> |r| >= 3 && r[0] == GenerationState(Generating, Some(fmt), 10)
  {
    if OprGuard(hasData, photos).Some? then []
    else RunStates(fmt, if fmt == Png then [10, 30, 80] else [10, 30], outcome)
  }

  /** Both exports report growing progress below 100 % until they end. */
  lemma ExportProgressGrows(fmt: Format, outcome: Outcome)
    ensures fmt != Png ==> var r := MinitRun(true, fmt, outcome);
      forall i, j :: 0 <= i < j < |r| - 1 && r[j].status == Generating ==> r[i].progress < r[j].progress
    ensures fmt != Docx ==> var r := OprRun(true, 1, fmt, outcome);
      forall i, j :: 0 <= i < j < |r| - 1 && r[j].status == Generating ==> r[i].progress < r[j].progress
  {
    if fmt != Png {
      RunProgressGrows(fmt, MinitMarks, outcome);
    }
    if fmt != Docx {
      RunProgressGrows(fmt, if fmt == Png then [10, 30, 80] else [10, 30], outcome);
    }
  }

  // ---------------------------------------------------------------- file names

  function Extension(fmt: Format): string {
    match fmt
    case Docx => "docx"
    case Pdf => "pdf"
    case Png => "png"
  }

  /** The year of the minutes' file name: the year `new Date(tarikh)`
      gives (a parameter, `NaN` for text it cannot read), or the current
      year when no date was entered. */
  function MinitYear(tarikh: string, parsedYear: JsNum, currentYear: int): (r: string)
    ensures tarikh == "" ==> r == IntToString(currentYear)
    ensures tarikh != "" && parsedYear.NaN? ==> r == "NaN"
    ensures tarikh != "" && parsedYear.Int? ==> r == IntToString(parsedYear.value)
  {
    if tarikh != "" then NumToString(parsedYear) else IntToString(currentYear)
  }

  /** `MINIT_MESYUARAT_<bilangan>_<year>.<format>`. */
  function MinitFilename(bilangan: string, year: string, fmt: Format): string {
    "MINIT_MESYUARAT_" + bilangan + "_" + year + "." + Extension(fmt)
  }

  /** With no `_` in the meeting number and the year, the name splits at
      `_` into the two fixed words, the number, and the year with the
      extension. */
  lemma MinitFilenameParts(bilangan: string, year: string, fmt: Format)
    requires '_' !in bilangan && '_' !in year
    ensures Split(MinitFilename(bilangan, year, fmt), '_') ==
      ["MINIT", "MESYUARAT", bilangan, year + "." + Extension(fmt)]
  {
    var tail := year + "." + Extension(fmt);
    assert '_' !in tail by {
      assert '_' !in Extension(fmt);
    }
    assert '_' !in "MINIT" && '_' !in "MESYUARAT";
    assert MinitFilename(bilangan, year, fmt) == "MINIT" + ['_'] + ("MESYUARAT" + ['_'] + (bilangan + ['_'] + tail));
    SplitFour("MINIT", "MESYUARAT", bilangan, tail, '_');
  }

  lemma SplitFour(a: string, b: string, c: string, d: string, sep: char)
    requires sep !in a && sep !in b && sep !in c && sep !in d
    ensures Split(a + [sep] + (b + [sep] + (c + [sep] + d)), sep) == [a, b, c, d]
  {
    SplitNoSep(d, sep);
    SplitAfterPiece(c, sep, d);
    SplitAfterPiece(b, sep, c + [sep] + d);
    SplitAfterPiece(a, sep, b + [sep] + (c + [sep] + d));
  }

  /** The characters `[A-Za-z0-9_-]` kept in an OPR file name. */
  predicate SafeChar(c: char) {
    ('a' <= c <= 'z') || ('A' <= c <= 'Z') || ('0' <= c <= '9') || c == '_' || c == '-'
  }

  /** What `replace(/[^a-zA-Z0-9_-]/g, '_')` makes of one character. The
      pattern has no `u` flag, so it matches UTF-16 code units one at a
      time, and a character outside the Basic Multilingual Plane (a
      surrogate pair) becomes two `_`. */
  function StemPiece(c: char): (r: string)
    ensures |r| == CodeUnits(c)
  {
    if SafeChar(c) then [c] else if c as int > 0xFFFF then "__" else "_"
  }

  /** `replace(/[^a-zA-Z0-9_-]/g, '_')`: one safe character per UTF-16 code
      unit of `s`. */
  function SanitizeStem(s: string): (r: string)
    ensures |r| == Utf16Length(s)
    ensures forall i :: 0 <= i < |r| ==> SafeChar(r[i])
    decreases |s|
  {
    if s == [] then []
    else
      var head, tail := StemPiece(s[0]), SanitizeStem(s[1..]);
      assert forall i :: 0 <= i < |head| ==> SafeChar(head[i]);
      head + tail
  }

  /** The replacement works character by character. */
  lemma {:induction false} SanitizeStemConcat(a: string, b: string)
    ensures SanitizeStem(a + b) == SanitizeStem(a) + SanitizeStem(b)
    decreases |a|
  {
    if a == [] {
      assert a + b == b;
    } else {
      assert (a + b)[0] == a[0] && (a + b)[1..] == a[1..] + b;
      SanitizeStemConcat(a[1..], b);
    }
  }

  /** On text inside the Basic Multilingual Plane each character is kept
      when safe and becomes one `_` otherwise. */
  lemma {:induction false} SanitizeStemBmp(s: string)
    requires InBmp(s)
    ensures |SanitizeStem(s)| == |s|
    ensures forall i :: 0 <= i < |s| ==> SanitizeStem(s)[i] == if SafeChar(s[i]) then s[i] else '_'
    decreases |s|
  {
    Utf16LengthBmp(s);
    if s != [] {
      assert InBmp(s[1..]) by {
        forall i | 0 <= i < |s[1..]| ensures s[1..][i] as int <= 0xFFFF {
          assert s[1..][i] == s[i + 1];
        }
      }
      SanitizeStemBmp(s[1..]);
      var r := SanitizeStem(s);
      assert r == StemPiece(s[0]) + SanitizeStem(s[1..]);
      forall i | 0 <= i < |s| ensures r[i] == if SafeChar(s[i]) then s[i] else '_' {
        if i > 0 {
          assert r[i] == SanitizeStem(s[1..])[i - 1];
          assert s[i] == s[1..][i - 1];
        }
      }
    }
  }

  /** A character outside the Basic Multilingual Plane, such as an emoji,
      becomes `__`; so a programme named by one emoji is saved as
      `OPR___`. */
  lemma SanitizeStemAstral(c: char)
    requires c as int > 0xFFFF
    ensures SanitizeStem([c]) == "__"
    ensures OprStem([c]) == "OPR___"
  {
    assert [c][1..] == [];
    assert !SafeChar(c);
  }

  /** A name comes through unchanged exactly when it is safe already, so
      sanitising twice is sanitising once. */
  lemma {:induction false} SanitizeStemFixes(s: string)
    ensures SanitizeStem(s) == s <==> forall i :: 0 <= i < |s| ==> SafeChar(s[i])
    ensures SanitizeStem(SanitizeStem(s)) == SanitizeStem(s)
    decreases |s|
  {
    if s != [] {
      SanitizeStemFixes(s[1..]);
      var r := SanitizeStem(s);
      assert r == StemPiece(s[0]) + SanitizeStem(s[1..]);
      if SafeChar(s[0]) {
        if forall i :: 0 <= i < |s| ==> SafeChar(s[i]) {
          assert forall i :: 0 <= i < |s[1..]| ==> SafeChar(s[1..][i]) by {
            forall i | 0 <= i < |s[1..]| ensures SafeChar(s[1..][i]) {
              assert s[1..][i] == s[i + 1];
            }
          }
        }
        if r == s {
          assert SanitizeStem(s[1..]) == s[1..];
          forall i | 0 <= i < |s| ensures SafeChar(s[i]) {
            if i > 0 {
              assert s[i] == s[1..][i - 1];
            }
          }
        }
      } else {
        assert r[0] == '_' && s[0] != '_';
      }
    }
    var r := SanitizeStem(s);
    assert SanitizeStem(r) == r by {
      SafeStemFixed(r);
    }
  }

  /** Safe text is its own sanitised form. */
  lemma {:induction false} SafeStemFixed(s: string)
    requires forall i :: 0 <= i < |s| ==> SafeChar(s[i])
    ensures SanitizeStem(s) == s
    decreases |s|
  {
    if s != [] {
      assert forall i :: 0 <= i < |s[1..]| ==> SafeChar(s[1..][i]) by {
        forall i | 0 <= i < |s[1..]| ensures SafeChar(s[1..][i]) {
          assert s[1..][i] == s[i + 1];
        }
      }
      SafeStemFixed(s[1..]);
      assert s == [s[0]] + s[1..];
    }
  }

  /** `OPR_` and the sanitised programme name, `LAPORAN` when it is empty. */
  function OprStem(namaProgram: string): (r: string)
    ensures |r| == 4 + (if namaProgram == "" then 7 else Utf16Length(namaProgram))
    ensures r[..4] == "OPR_" && forall i :: 0 <= i < |r| ==> SafeChar(r[i])
  {
    var name := if namaProgram == "" then DefaultStem else namaProgram;
    DefaultStemLength();
    SafePrefix(SanitizeStem(name));
    "OPR_" + SanitizeStem(name)
  }

  const DefaultStem := "LAPORAN"

  lemma DefaultStemLength()
    ensures Utf16Length(DefaultStem) == 7
  {
  }

  lemma SafePrefix(stem: string)
    requires forall i :: 0 <= i < |stem| ==> SafeChar(stem[i])
    ensures ("OPR_" + stem)[..4] == "OPR_" && forall i :: 0 <= i < |"OPR_" + stem| ==> SafeChar(("OPR_" + stem)[i])
  {
    var r := "OPR_" + stem;
    assert forall i :: 4 <= i < |r| ==> r[i] == stem[i - 4];
  }

  /** The image export's name: the stem and `.png`. */
  function OprPngFilename(namaProgram: string): (r: string)
    ensures |r| == |OprStem(namaProgram)| + 4
  {
    OprStem(namaProgram) + ".png"
  }

  /** The stem has no dot, so the image name has exactly one: the one before
      `png`; and the stem is the name less its last four characters. */
  lemma OprPngFilenameParts(namaProgram: string)
    ensures Split(OprPngFilename(namaProgram), '.') == [OprStem(namaProgram), "png"]
    ensures OprPngFilename(namaProgram)[..|OprPngFilename(namaProgram)| - 4] == OprStem(namaProgram)
  {
    var stem := OprStem(namaProgram);
    assert '.' !in stem by {
      forall i | 0 <= i < |stem| ensures stem[i] != '.' {
        assert SafeChar(stem[i]);
      }
    }
    assert OprPngFilename(namaProgram) == stem + ['.'] + "png";
    SplitAfterPiece(stem, '.', "png");
    SplitNoSep("png", '.');
  }

  // ---------------------------------------------------------------- the OPR document data

  /** The report data handed to the template: the form, the school from the
      settings, and the preparer line as `preparedBy`. */
  function OprDocData(f: OprForm.OprFormData, st: ProfileSettings): OprRender.OprData {
    OprRender.OprData(f.namaProgram, f.tarikh, f.masa, f.tempat, f.kehadiranSasaran, f.isuMasalah,
      f.aktiviti, f.gambar, st.schoolName, st.schoolCode, st.schoolAddress,
      f.pegawaiTerlibat, f.namaPgb, f.disediakanOleh)
  }

  /** An export the checks let through shows every attached photo, in
      order, under the layout for their number. */
  lemma ExportedGalleryShowsAll(f: OprForm.OprFormData, st: ProfileSettings)
    requires OprGuard(true, |f.gambar|).None?
    ensures OprRender.GalleryOf(OprDocData(f, st)) == OprRender.Photos(|f.gambar|, f.gambar)
    ensures !OprRender.NoImagesSection(OprDocData(f, st))
  {
  }

  /** The report's officers and activities are the form's, and its
      preparer is the form's preparer line. */
  lemma ExportedListsAreTheForm(f: OprForm.OprFormData, st: ProfileSettings)
    ensures OprRender.Officers(OprDocData(f, st)) == Take(OprRender.SanitizeAll(Filter(f.pegawaiTerlibat, OprRender.HasText)), 12)
    ensures OprRender.Activities(OprDocData(f, st)) == Take(OprRender.SanitizeAll(Filter(f.aktiviti, OprRender.HasText)), 8)
    ensures OprDocData(f, st).preparedBy == f.disediakanOleh && OprDocData(f, st).schoolName == st.schoolName
  {
    OprRender.OfficersAreWritten(OprDocData(f, st));
    OprRender.ActivitiesAreWritten(OprDocData(f, st));
  }
}
