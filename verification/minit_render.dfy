/** What the generated minutes contain, line by line, for the DOCX and the
    PDF output: which sections, agenda items and sub-items appear, with
    which numbers and labels, and which "Tindakan" lines follow them.
    Fonts, sizes, spacing, page breaks and images are not modelled. */
module MinitRender {
  import opened Wrappers
  import opened Seqs
  import opened JsText
  import opened SectionNumbering
  import opened MinitData
  import Calendar
  import TimeFormat

  datatype Format = Docx | Pdf

  /** One paragraph or drawn line of the document. */
  datatype Block =
    | Title(text: string)
    | Meta(text: string)
    | Label(text: string)
    | Attendee(index: nat, nama: string, jawatan: string)
    | Heading(num: nat, title: string)
    | Item(num: nat, sub: nat, text: string)
    | Note(text: string)
    | Action(text: string)
    | SignatureBox(caption: string, name: string, titles: seq<string>)

  /** The DOCX output puts two spaces after a number, the PDF one. */
  function Gap(f: Format): string {
    if f == Docx then "  " else " "
  }

  /** The text of a one-line block. */
  function BlockText(b: Block, f: Format): string {
    match b
    case Title(t) => t
    case Meta(t) => t
    case Label(t) => t
    case Attendee(i, n, j) => NatToString(i) + "." + Gap(f) + n + " (" + j + ")"
    case Heading(n, t) => NatToString(n) + "." + Gap(f) + t
    case Item(n, k, t) => NatToString(n) + "." + NatToString(k) + Gap(f) + t
    case Note(t) => t
    case Action(t) => "Tindakan: " + t
    case SignatureBox(l, _, _) => l
  }

  const PengerusiTitle := "UCAPAN PENGERUSI / KETUA PANITIA"
  const PenasihatTitle := "UCAPAN PENASIHAT"
  const MinitLaluTitle := "MEMBENTANGKAN DAN MENGESAHKAN MINIT MESYUARAT YANG LALU"
  const BerbangkitTitle := "PERKARA BERBANGKIT"
  const HalHalLainTitle := "HAL-HAL LAIN"
  const PenangguhanTitle := "UCAPAN PENANGGUHAN"
  const DibentangDefault := "Minit mesyuarat telah dibentangkan dan disahkan"
  const SemuaGba := "Semua GBA"
  const Makluman := "Makluman"

  // ---------------------------------------------------------------- titles and sub-items

  /** `getSectionTitle`: the custom title in upper case, or the default
      when there is none (an absent title reads as ""). */
  function SectionTitle(custom: string, default: string): (r: string)
    ensures custom != "" ==> r == ToUpper(custom)
    ensures custom == "" ==> r == default
  {
    var upper := ToUpper(custom);
    if upper != "" then upper else default
  }

  /** The numbered lines `num.(k+1)` for the non-empty items from index `k`
      on; an empty item is skipped but keeps its index. */
  function SubItemsFrom(num: nat, items: seq<string>, k: nat): seq<Block>
    requires k <= |items|
    decreases |items| - k
  {
    if k == |items| then []
    else (if items[k] != "" then [Item(num, k + 1, items[k])] else []) + SubItemsFrom(num, items, k + 1)
  }

  function SubItems(num: nat, items: seq<string>): seq<Block> {
    SubItemsFrom(num, items, 0)
  }

  /** Item `j` of `items` is printed as sub-item line `b` of section `num`. */
  predicate ItemAs(num: nat, items: seq<string>, j: int, b: Block) {
    0 <= j < |items| && items[j] != "" && b == Item(num, j + 1, items[j])
  }

  lemma SubItemHead(num: nat, items: seq<string>, k: nat, b: Block)
    requires k < |items|
    ensures b in (if items[k] != "" then [Item(num, k + 1, items[k])] else []) <==> ItemAs(num, items, k, b)
  {
  }

  /** A sub-item line appears exactly for each non-empty item, labelled
      with the item's position in the unfiltered list. */
  lemma {:induction false} SubItemsFromMembership(num: nat, items: seq<string>, k: nat, b: Block)
    requires k <= |items|
    ensures b in SubItemsFrom(num, items, k) <==> exists j :: k <= j && ItemAs(num, items, j, b)
    decreases |items| - k
  {
    if k < |items| {
      SubItemsFromMembership(num, items, k + 1, b);
      SubItemHead(num, items, k, b);
      if exists j :: k <= j && ItemAs(num, items, j, b) {
        var j :| k <= j && ItemAs(num, items, j, b);
        assert j == k || (k + 1 <= j && ItemAs(num, items, j, b));
      }
    }
  }

  lemma SubItemMembership(num: nat, items: seq<string>, b: Block)
    ensures b in SubItems(num, items) <==> exists j :: ItemAs(num, items, j, b)
  {
    SubItemsFromMembership(num, items, 0, b);
  }

  /** Sub-item lists hold item lines only. */
  lemma {:induction false} SubItemsAreItems(num: nat, items: seq<string>, k: nat)
    requires k <= |items|
    ensures forall i :: 0 <= i < |SubItemsFrom(num, items, k)| ==> SubItemsFrom(num, items, k)[i].Item?
    decreases |items| - k
  {
    if k < |items| {
      SubItemsAreItems(num, items, k + 1);
    }
  }

  // ---------------------------------------------------------------- sections

  /** `addSection`: nothing for a disabled section, else its heading, its
      sub-items and a closing "Tindakan" line. */
  function SectionBlocks(num: Option<nat>, title: string, items: seq<string>, tindakan: string): seq<Block> {
    if num.None? then []
    else [Heading(num.value, title)] + SubItems(num.value, items) + [Action(tindakan)]
  }

  /** The previous-minutes section: one fixed sub-item, the proposer and
      seconder when given, and "Tindakan: Semua GBA". */
  function MinitLaluBlocks(num: Option<nat>, title: string, m: MinitLalu): seq<Block> {
    if num.None? then []
    else
      [Heading(num.value, title),
       Item(num.value, 1, if m.dibentang != "" then m.dibentang else DibentangDefault)] +
      (if m.dicadangkan != "" then [Note("Dicadangkan oleh: " + m.dicadangkan)] else []) +
      (if m.disokong != "" then [Note("Disokong oleh: " + m.disokong)] else []) +
      [Action(SemuaGba)]
  }

  /** The adjournment section: heading and sub-items, no "Tindakan". */
  function PenangguhanBlocks(num: Option<nat>, title: string, items: seq<string>): seq<Block> {
    if num.None? then [] else [Heading(num.value, title)] + SubItems(num.value, items)
  }

  // ---------------------------------------------------------------- agenda

  /** An agenda item is printed when it is included and its title is not
      blank. */
  predicate Emits(a: AgendaItem) {
    a.included && Trim(a.perkara) != ""
  }

  /** The lines of one printed agenda item: the DOCX output adds the
      "Tindakan" line only for a non-empty action, the PDF output always. */
  function AgendaItemBlocks(a: AgendaItem, num: nat, f: Format): seq<Block> {
    var title := ToUpper(a.perkara);
    match f
    case Docx =>
      [Heading(num, title)] + SubItems(num, a.butiran) +
      (if a.tindakan != "" then [Action(a.tindakan)] else [])
    case Pdf =>
      SectionBlocks(Some(num), title, a.butiran, if a.tindakan != "" then a.tindakan else SemuaGba)
  }

  /** A printed agenda item starts with its upper-cased title under its
      number and has no other heading. The PDF output always closes it with
      a "Tindakan" line, "Semua GBA" when the action is empty; the DOCX
      output has a "Tindakan" line exactly when the action is not empty. */
  lemma AgendaItemShape(a: AgendaItem, num: nat, f: Format)
    ensures var r := AgendaItemBlocks(a, num, f);
      |r| >= 1 && r[0] == Heading(num, ToUpper(a.perkara)) &&
      (forall i :: 1 <= i < |r| ==> !r[i].Heading?) &&
      (f == Pdf ==> r[|r| - 1] == Action(if a.tindakan != "" then a.tindakan else SemuaGba)) &&
      (f == Docx ==> ((exists i :: 0 <= i < |r| && r[i].Action?) <==> a.tindakan != "")) &&
      (f == Docx && a.tindakan != "" ==> r[|r| - 1] == Action(a.tindakan))
  {
    SubItemsAreItems(num, a.butiran, 0);
    var subs := SubItems(num, a.butiran);
    var r := AgendaItemBlocks(a, num, f);
    assert forall i :: 1 <= i < |r| - 1 ==> r[i] == subs[i - 1];
    if f == Docx {
      assert a.tindakan == "" ==> forall i :: 1 <= i < |r| ==> r[i] == subs[i - 1];
      assert a.tindakan != "" ==> r[|r| - 1].Action?;
    }
  }

  /** The agenda loop: the counter advances once per item, printed or not. */
  function AgendaBlocks(items: seq<AgendaItem>, agendaNum: nat, f: Format): seq<Block>
    decreases |items|
  {
    if items == [] then []
    else
      (if Emits(items[0]) then AgendaItemBlocks(items[0], agendaNum, f) else []) +
      AgendaBlocks(items[1..], agendaNum + 1, f)
  }

  // ---------------------------------------------------------------- body

  /** The numbered sections before the agenda. */
  function OpeningBlocks(d: Minit): seq<Block> {
    var r := GetSectionNumbers(d.sections, |d.agendaItems|);
    var t := d.sectionTitles;
    SectionBlocks(r.ucapanPengerusi, SectionTitle(t.ucapanPengerusi, PengerusiTitle), d.ucapanPengerusi, Makluman) +
    SectionBlocks(r.ucapanPenasihat, SectionTitle(t.ucapanPenasihat, PenasihatTitle), d.ucapanPenasihat, Makluman) +
    MinitLaluBlocks(r.minitLalu, SectionTitle(t.minitLalu, MinitLaluTitle), d.minitLalu) +
    SectionBlocks(r.perkaraBerbangkit, SectionTitle(t.perkaraBerbangkit, BerbangkitTitle),
      Take(d.perkaraBerbangkit, 1), SemuaGba)
  }

  /** The numbered sections after the agenda. */
  function ClosingBlocks(d: Minit): seq<Block> {
    var r := GetSectionNumbers(d.sections, |d.agendaItems|);
    var t := d.sectionTitles;
    SectionBlocks(r.halHalLain, SectionTitle(t.halHalLain, HalHalLainTitle), d.halHalLain, SemuaGba) +
    PenangguhanBlocks(r.ucapanPenangguhan, SectionTitle(t.ucapanPenangguhan, PenangguhanTitle), d.ucapanPenangguhan)
  }

  /** The numbered part of the minutes. A section is printed when its
      toggle is on, which is exactly when it has a number. */
  function Body(d: Minit, f: Format): seq<Block> {
    var r := GetSectionNumbers(d.sections, |d.agendaItems|);
    OpeningBlocks(d) + AgendaBlocks(d.agendaItems, r.agendaStart, f) + ClosingBlocks(d)
  }

  // ---------------------------------------------------------------- header, attendance, signatures

  predicate HasName(a: Ahli) {
    a.nama != ""
  }

  /** `ahli.filter(a => a.nama).length`. */
  function AttendanceCount(ahli: seq<Ahli>): nat {
    |Filter(ahli, HasName)|
  }

  /** The attendance lines from index `k` on, numbered by the unfiltered
      position. */
  function AttendeesFrom(ahli: seq<Ahli>, k: nat): seq<Block>
    requires k <= |ahli|
    decreases |ahli| - k
  {
    if k == |ahli| then []
    else
      (if ahli[k].nama != "" then [Attendee(k + 1, ahli[k].nama, ahli[k].jawatan)] else []) +
      AttendeesFrom(ahli, k + 1)
  }

  function Attendees(ahli: seq<Ahli>): seq<Block> {
    AttendeesFrom(ahli, 0)
  }

  /** The name printed under a signature: DOCX falls back to "-" for an
      empty name, PDF prints it as it is. */
  function SignatureName(sig: Signature, f: Format): string {
    if f == Docx then ToUpper(if sig.name != "" then sig.name else "-") else ToUpper(sig.name)
  }

  function SignatureBlock(caption: string, sig: Signature, f: Format): Block {
    SignatureBox(caption, SignatureName(sig, f), Filter([sig.title1, sig.title2, sig.title3], NonEmpty))
  }

  /** The three header lines; the session year comes from outside. */
  function HeaderBlocks(d: Minit, sessionYear: string): seq<Block> {
    [Title("MINIT MESYUARAT PANITIA"),
     Title(ToUpper(d.panitia)),
     Title("BIL. " + d.bilangan + " SESI " + sessionYear)]
  }

  /** The five meeting-detail lines. */
  function MetaBlocks(d: Minit): seq<Block> {
    [Meta("TARIKH: " + Calendar.FormatDate(d.tarikh)),
     Meta("HARI: " + ToUpper(d.hari)),
     Meta("MASA: " + ToUpper(TimeFormat.FormatTimeWithSuffix(d.masa))),
     Meta("TEMPAT: " + ToUpper(d.tempat)),
     Meta("KEHADIRAN: " + NatToString(AttendanceCount(d.ahli)) + " ORANG")]
  }

  function SignatureBlocks(d: Minit, f: Format): seq<Block> {
    [SignatureBlock("Disediakan oleh,", d.setiausaha, f),
     SignatureBlock("Disemak oleh,", d.ketuaPanitia, f),
     SignatureBlock("Disahkan oleh,", d.guruBesar, f)]
  }

  /** Everything before the numbered sections. */
  function Preamble(d: Minit, sessionYear: string): seq<Block> {
    HeaderBlocks(d, sessionYear) + MetaBlocks(d) + [Label("Kehadiran:")] + Attendees(d.ahli)
  }

  /** The whole document. */
  function Document(d: Minit, f: Format, sessionYear: string): seq<Block> {
    Preamble(d, sessionYear) + Body(d, f) + SignatureBlocks(d, f)
  }
}
