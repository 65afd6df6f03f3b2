/** Properties of the generated minutes: heading numbers strictly
    increase, exactly the printable agenda items appear with their slot
    numbers, DOCX and PDF differ only in "Tindakan" lines, and the
    attendance count matches the attendance list. */
module MinitProperties {
  import opened Wrappers
  import opened Seqs
  import opened JsText
  import opened SectionNumbering
  import opened MinitData
  import opened MinitRender

  /** The numbers of the headings, in document order. */
  function HeadingNums(bs: seq<Block>): seq<nat>
    decreases |bs|
  {
    if bs == [] then []
    else (if bs[0].Heading? then [bs[0].num] else []) + HeadingNums(bs[1..])
  }

  lemma {:induction false} HeadingNumsConcat(a: seq<Block>, b: seq<Block>)
    ensures HeadingNums(a + b) == HeadingNums(a) + HeadingNums(b)
    decreases |a|
  {
    if a == [] {
      assert a + b == b;
    } else {
      var ab := a + b;
      assert ab[0] == a[0];
      assert ab[1..] == a[1..] + b;
      HeadingNumsConcat(a[1..], b);
      assert HeadingNums(ab) == (if a[0].Heading? then [a[0].num] else []) + HeadingNums(a[1..] + b);
    }
  }

  lemma {:induction false} NoHeadings(bs: seq<Block>)
    requires forall i :: 0 <= i < |bs| ==> !bs[i].Heading?
    ensures HeadingNums(bs) == []
    decreases |bs|
  {
    if bs != [] {
      NoHeadings(bs[1..]);
    }
  }

  lemma SubItemsNoHeadings(num: nat, items: seq<string>)
    ensures HeadingNums(SubItems(num, items)) == []
  {
    SubItemsAreItems(num, items, 0);
    NoHeadings(SubItems(num, items));
  }

  /** A section contributes its own number as its only heading. */
  lemma SectionHeadings(num: Option<nat>, title: string, items: seq<string>, tindakan: string)
    ensures HeadingNums(SectionBlocks(num, title, items, tindakan)) == Listed(num)
  {
    if num.Some? {
      var n := num.value;
      SubItemsNoHeadings(n, items);
      HeadingNumsConcat([Heading(n, title)] + SubItems(n, items), [Action(tindakan)]);
      HeadingNumsConcat([Heading(n, title)], SubItems(n, items));
    }
  }

  lemma MinitLaluHeadings(num: Option<nat>, title: string, m: MinitLalu)
    ensures HeadingNums(MinitLaluBlocks(num, title, m)) == Listed(num)
  {
    if num.Some? {
      var bs := MinitLaluBlocks(num, title, m);
      NoHeadings(bs[1..]);
      assert bs == [bs[0]] + bs[1..];
      HeadingNumsConcat([bs[0]], bs[1..]);
    }
  }

  lemma PenangguhanHeadings(num: Option<nat>, title: string, items: seq<string>)
    ensures HeadingNums(PenangguhanBlocks(num, title, items)) == Listed(num)
  {
    if num.Some? {
      SubItemsNoHeadings(num.value, items);
      HeadingNumsConcat([Heading(num.value, title)], SubItems(num.value, items));
    }
  }

  lemma AgendaItemHeadings(a: AgendaItem, num: nat, f: Format)
    ensures HeadingNums(AgendaItemBlocks(a, num, f)) == [num]
  {
    AgendaItemShape(a, num, f);
    var bs := AgendaItemBlocks(a, num, f);
    NoHeadings(bs[1..]);
    assert bs == [bs[0]] + bs[1..];
    HeadingNumsConcat([bs[0]], bs[1..]);
  }

  /** The agenda's headings increase and stay within the agenda's slots. */
  lemma {:induction false} AgendaHeadingsIncrease(items: seq<AgendaItem>, start: nat, f: Format)
    ensures var hs := HeadingNums(AgendaBlocks(items, start, f));
      Increasing(hs) && Within(hs, start, start + |items|)
    decreases |items|
  {
    if items != [] {
      var first := if Emits(items[0]) then AgendaItemBlocks(items[0], start, f) else [];
      var rest := AgendaBlocks(items[1..], start + 1, f);
      AgendaHeadingsIncrease(items[1..], start + 1, f);
      HeadingNumsConcat(first, rest);
      if Emits(items[0]) {
        AgendaItemHeadings(items[0], start, f);
      }
      IncreasingConcat(HeadingNums(first), HeadingNums(rest), start, start + 1, start + |items|);
    }
  }

  /** The headings of the opening sections are their numbers. */
  lemma OpeningHeadings(d: Minit)
    ensures var r := GetSectionNumbers(d.sections, |d.agendaItems|);
      HeadingNums(OpeningBlocks(d)) == OpeningList(r)
  {
    var r := GetSectionNumbers(d.sections, |d.agendaItems|);
    var t := d.sectionTitles;
    var b1 := SectionBlocks(r.ucapanPengerusi, SectionTitle(t.ucapanPengerusi, PengerusiTitle), d.ucapanPengerusi, Makluman);
    var b2 := SectionBlocks(r.ucapanPenasihat, SectionTitle(t.ucapanPenasihat, PenasihatTitle), d.ucapanPenasihat, Makluman);
    var b3 := MinitLaluBlocks(r.minitLalu, SectionTitle(t.minitLalu, MinitLaluTitle), d.minitLalu);
    var b4 := SectionBlocks(r.perkaraBerbangkit, SectionTitle(t.perkaraBerbangkit, BerbangkitTitle),
      Take(d.perkaraBerbangkit, 1), SemuaGba);
    HeadingNumsConcat(b1, b2);
    HeadingNumsConcat(b1 + b2, b3);
    HeadingNumsConcat(b1 + b2 + b3, b4);
    SectionHeadings(r.ucapanPengerusi, SectionTitle(t.ucapanPengerusi, PengerusiTitle), d.ucapanPengerusi, Makluman);
    SectionHeadings(r.ucapanPenasihat, SectionTitle(t.ucapanPenasihat, PenasihatTitle), d.ucapanPenasihat, Makluman);
    MinitLaluHeadings(r.minitLalu, SectionTitle(t.minitLalu, MinitLaluTitle), d.minitLalu);
    SectionHeadings(r.perkaraBerbangkit, SectionTitle(t.perkaraBerbangkit, BerbangkitTitle),
      Take(d.perkaraBerbangkit, 1), SemuaGba);
  }

  /** The headings of the closing sections are their numbers. */
  lemma ClosingHeadings(d: Minit)
    ensures var r := GetSectionNumbers(d.sections, |d.agendaItems|);
      HeadingNums(ClosingBlocks(d)) == ClosingList(r)
  {
    var r := GetSectionNumbers(d.sections, |d.agendaItems|);
    var t := d.sectionTitles;
    var b6 := SectionBlocks(r.halHalLain, SectionTitle(t.halHalLain, HalHalLainTitle), d.halHalLain, SemuaGba);
    var b7 := PenangguhanBlocks(r.ucapanPenangguhan, SectionTitle(t.ucapanPenangguhan, PenangguhanTitle), d.ucapanPenangguhan);
    HeadingNumsConcat(b6, b7);
    SectionHeadings(r.halHalLain, SectionTitle(t.halHalLain, HalHalLainTitle), d.halHalLain, SemuaGba);
    PenangguhanHeadings(r.ucapanPenangguhan, SectionTitle(t.ucapanPenangguhan, PenangguhanTitle), d.ucapanPenangguhan);
  }

  /** Heading numbers strictly increase through the numbered part of both
      outputs. */
  lemma HeadingsIncrease(d: Minit, f: Format)
    ensures Increasing(HeadingNums(Body(d, f)))
  {
    var r := GetSectionNumbers(d.sections, |d.agendaItems|);
    var agenda := HeadingNums(AgendaBlocks(d.agendaItems, r.agendaStart, f));
    BodyHeadings(d, f);
    AgendaHeadingsIncrease(d.agendaItems, r.agendaStart, f);
    SelectAgendaSlots(d.sections, |d.agendaItems|, agenda);
  }

  /** The body's headings: the opening sections', the agenda's, the closing
      sections'. */
  lemma BodyHeadings(d: Minit, f: Format)
    ensures var r := GetSectionNumbers(d.sections, |d.agendaItems|);
      HeadingNums(Body(d, f)) ==
        OpeningList(r) + HeadingNums(AgendaBlocks(d.agendaItems, r.agendaStart, f)) + ClosingList(r)
  {
    var r := GetSectionNumbers(d.sections, |d.agendaItems|);
    var agenda := AgendaBlocks(d.agendaItems, r.agendaStart, f);
    HeadingNumsConcat(OpeningBlocks(d), agenda);
    HeadingNumsConcat(OpeningBlocks(d) + agenda, ClosingBlocks(d));
    OpeningHeadings(d);
    ClosingHeadings(d);
  }

  // ---------------------------------------------------------------- which agenda items appear

  /** The heading of the first item, if it is printed. */
  lemma FirstItemHeading(a: AgendaItem, start: nat, f: Format, k: nat, title: string)
    ensures Heading(k, title) in (if Emits(a) then AgendaItemBlocks(a, start, f) else []) <==>
      Emits(a) && k == start && title == ToUpper(a.perkara)
  {
    if Emits(a) {
      AgendaItemShape(a, start, f);
      var bs := AgendaItemBlocks(a, start, f);
      if Heading(k, title) in bs {
        var i :| 0 <= i < |bs| && bs[i] == Heading(k, title);
        assert i == 0;
      }
      if k == start && title == ToUpper(a.perkara) {
        assert bs[0] == Heading(k, title);
      }
    }
  }

  /** A predicate for "item `i` of `items` is printed as heading `k`". */
  predicate PrintedAs(items: seq<AgendaItem>, start: nat, i: int, k: nat, title: string) {
    0 <= i < |items| && Emits(items[i]) && k == start + i && title == ToUpper(items[i].perkara)
  }

  lemma ShiftPrinted(items: seq<AgendaItem>, tail: seq<AgendaItem>, start: nat, next: nat, k: nat, title: string)
    requires items != [] && tail == items[1..] && next == start + 1
    ensures (exists i :: PrintedAs(items, start, i, k, title)) <==>
      PrintedAs(items, start, 0, k, title) || (exists i :: PrintedAs(tail, next, i, k, title))
  {
    if exists i :: PrintedAs(tail, next, i, k, title) {
      var i :| PrintedAs(tail, next, i, k, title);
      assert PrintedAs(items, start, i + 1, k, title);
    }
    if exists i :: PrintedAs(items, start, i, k, title) {
      var i :| PrintedAs(items, start, i, k, title);
      if i > 0 {
        assert PrintedAs(tail, next, i - 1, k, title);
      }
    }
  }

  /** An agenda heading appears exactly for each included item with a
      non-blank title, numbered by the item's slot whether or not the
      items before it were printed. */
  lemma {:induction false} AgendaHeadingMembership(items: seq<AgendaItem>, start: nat, f: Format, k: nat, title: string)
    ensures Heading(k, title) in AgendaBlocks(items, start, f) <==>
      exists i :: PrintedAs(items, start, i, k, title)
    decreases |items|
  {
    if items != [] {
      AgendaHeadingMembership(items[1..], start + 1, f, k, title);
      FirstItemHeading(items[0], start, f, k, title);
      ShiftPrinted(items, items[1..], start, start + 1, k, title);
    }
  }

  // ---------------------------------------------------------------- DOCX against PDF

  predicate NotAction(b: Block) {
    !b.Action?
  }

  predicate IsAction(b: Block) {
    b.Action?
  }

  lemma SubItemsKept(num: nat, items: seq<string>)
    ensures Filter(SubItems(num, items), NotAction) == SubItems(num, items)
    ensures Filter(SubItems(num, items), IsAction) == []
  {
    SubItemsAreItems(num, items, 0);
    var bs := SubItems(num, items);
    var none := Filter(bs, IsAction);
    if none != [] {
      FilterMembership(bs, IsAction, none[0]);
    }
  }

  /** One printed agenda item reads the same in both outputs once the
      "Tindakan" lines are removed. */
  lemma AgendaItemStripped(a: AgendaItem, num: nat)
    ensures Filter(AgendaItemBlocks(a, num, Docx), NotAction) == Filter(AgendaItemBlocks(a, num, Pdf), NotAction)
  {
    var title := ToUpper(a.perkara);
    var subs := SubItems(num, a.butiran);
    var act := if a.tindakan != "" then [Action(a.tindakan)] else [];
    SubItemsKept(num, a.butiran);
    FilterConcat([Heading(num, title)], subs, NotAction);
    FilterConcat([Heading(num, title)] + subs, act, NotAction);
    var pdfAct := [Action(if a.tindakan != "" then a.tindakan else SemuaGba)];
    FilterConcat([Heading(num, title)] + subs, pdfAct, NotAction);
    assert Filter(act, NotAction) == [] by {
      if act != [] {
        assert act == [act[0]];
      }
    }
  }

  lemma {:induction false} AgendaStripped(items: seq<AgendaItem>, start: nat)
    ensures Filter(AgendaBlocks(items, start, Docx), NotAction) == Filter(AgendaBlocks(items, start, Pdf), NotAction)
    decreases |items|
  {
    if items != [] {
      AgendaStripped(items[1..], start + 1);
      var docxFirst := if Emits(items[0]) then AgendaItemBlocks(items[0], start, Docx) else [];
      var pdfFirst := if Emits(items[0]) then AgendaItemBlocks(items[0], start, Pdf) else [];
      FilterConcat(docxFirst, AgendaBlocks(items[1..], start + 1, Docx), NotAction);
      FilterConcat(pdfFirst, AgendaBlocks(items[1..], start + 1, Pdf), NotAction);
      if Emits(items[0]) {
        AgendaItemStripped(items[0], start);
      }
    }
  }

  /** The two outputs carry the same headings and sub-items in the same
      order; they differ only in their "Tindakan" lines. */
  lemma DocxPdfSameContent(d: Minit)
    ensures Filter(Body(d, Docx), NotAction) == Filter(Body(d, Pdf), NotAction)
  {
    var start := GetSectionNumbers(d.sections, |d.agendaItems|).agendaStart;
    AgendaStripped(d.agendaItems, start);
    FilterConcat(OpeningBlocks(d), AgendaBlocks(d.agendaItems, start, Docx), NotAction);
    FilterConcat(OpeningBlocks(d) + AgendaBlocks(d.agendaItems, start, Docx), ClosingBlocks(d), NotAction);
    FilterConcat(OpeningBlocks(d), AgendaBlocks(d.agendaItems, start, Pdf), NotAction);
    FilterConcat(OpeningBlocks(d) + AgendaBlocks(d.agendaItems, start, Pdf), ClosingBlocks(d), NotAction);
  }

  predicate EmitsWithAction(a: AgendaItem) {
    Emits(a) && a.tindakan != ""
  }

  lemma AgendaItemActions(a: AgendaItem, num: nat)
    ensures |Filter(AgendaItemBlocks(a, num, Pdf), IsAction)| == 1
    ensures |Filter(AgendaItemBlocks(a, num, Docx), IsAction)| == (if a.tindakan != "" then 1 else 0)
  {
    var title := ToUpper(a.perkara);
    var subs := SubItems(num, a.butiran);
    SubItemsKept(num, a.butiran);
    var act := if a.tindakan != "" then [Action(a.tindakan)] else [];
    HeadedActions(Heading(num, title), subs, act);
    var pdfAct := [Action(if a.tindakan != "" then a.tindakan else SemuaGba)];
    HeadedActions(Heading(num, title), subs, pdfAct);
  }

  /** A heading and sub-items carry no action: the count is the tail's. */
  lemma HeadedActions(heading: Block, subs: seq<Block>, tail: seq<Block>)
    requires !heading.Action? && Filter(subs, IsAction) == []
    ensures |Filter([heading] + subs + tail, IsAction)| == |Filter(tail, IsAction)|
  {
    FilterConcat([heading], subs, IsAction);
    FilterConcat([heading] + subs, tail, IsAction);
  }

  lemma FilterCountConcat<T>(a: seq<T>, b: seq<T>, p: T -> bool)
    ensures |Filter(a + b, p)| == |Filter(a, p)| + |Filter(b, p)|
  {
    FilterConcat(a, b, p);
  }

  lemma FirstItemActions(a: AgendaItem, start: nat)
    ensures |Filter(if Emits(a) then AgendaItemBlocks(a, start, Pdf) else [], IsAction)| == |Filter([a], Emits)|
    ensures |Filter(if Emits(a) then AgendaItemBlocks(a, start, Docx) else [], IsAction)| == |Filter([a], EmitsWithAction)|
  {
    AgendaItemActions(a, start);
  }

  /** One recursion step of the action counts, over abstract parts. */
  lemma CountStep(whole: seq<Block>, first: seq<Block>, rest: seq<Block>, items: seq<AgendaItem>,
                  p: AgendaItem -> bool)
    requires items != [] && whole == first + rest
    requires |Filter(first, IsAction)| == |Filter([items[0]], p)|
    requires |Filter(rest, IsAction)| == |Filter(items[1..], p)|
    ensures |Filter(whole, IsAction)| == |Filter(items, p)|
  {
    FilterCountConcat(first, rest, IsAction);
    assert items == [items[0]] + items[1..];
    FilterCountConcat([items[0]], items[1..], p);
  }

  /** The agenda's blocks: the first item's, then the rest's. */
  lemma AgendaUnfold(items: seq<AgendaItem>, start: nat, f: Format)
    requires items != []
    ensures AgendaBlocks(items, start, f) ==
      (if Emits(items[0]) then AgendaItemBlocks(items[0], start, f) else []) + AgendaBlocks(items[1..], start + 1, f)
  {
  }

  /** The PDF agenda has one "Tindakan" line per printed item. */
  lemma {:induction false} PdfAgendaActions(items: seq<AgendaItem>, start: nat)
    ensures |Filter(AgendaBlocks(items, start, Pdf), IsAction)| == |Filter(items, Emits)|
    decreases |items|
  {
    if items != [] {
      PdfAgendaActions(items[1..], start + 1);
      FirstItemActions(items[0], start);
      AgendaUnfold(items, start, Pdf);
      CountStep(AgendaBlocks(items, start, Pdf),
        if Emits(items[0]) then AgendaItemBlocks(items[0], start, Pdf) else [],
        AgendaBlocks(items[1..], start + 1, Pdf), items, Emits);
    }
  }

  /** The DOCX agenda has one "Tindakan" line per printed item with a
      non-empty action. */
  lemma {:induction false} DocxAgendaActions(items: seq<AgendaItem>, start: nat)
    ensures |Filter(AgendaBlocks(items, start, Docx), IsAction)| == |Filter(items, EmitsWithAction)|
    decreases |items|
  {
    if items != [] {
      DocxAgendaActions(items[1..], start + 1);
      FirstItemActions(items[0], start);
      AgendaUnfold(items, start, Docx);
      CountStep(AgendaBlocks(items, start, Docx),
        if Emits(items[0]) then AgendaItemBlocks(items[0], start, Docx) else [],
        AgendaBlocks(items[1..], start + 1, Docx), items, EmitsWithAction);
    }
  }

  // ---------------------------------------------------------------- the rest of the document

  /** Only the first "Perkara Berbangkit" entry is ever printed: dropping
      the others changes nothing. */
  lemma BerbangkitFirstOnly(d: Minit, f: Format)
    ensures Body(d.(perkaraBerbangkit := Take(d.perkaraBerbangkit, 1)), f) == Body(d, f)
  {
    var d' := d.(perkaraBerbangkit := Take(d.perkaraBerbangkit, 1));
    assert Take(d'.perkaraBerbangkit, 1) == Take(d.perkaraBerbangkit, 1);
    assert OpeningBlocks(d') == OpeningBlocks(d);
    assert ClosingBlocks(d') == ClosingBlocks(d);
  }

  predicate AttendsAs(ahli: seq<Ahli>, j: int, b: Block) {
    0 <= j < |ahli| && ahli[j].nama != "" && b == Attendee(j + 1, ahli[j].nama, ahli[j].jawatan)
  }

  lemma AttendeeHead(ahli: seq<Ahli>, k: nat, b: Block)
    requires k < |ahli|
    ensures b in (if ahli[k].nama != "" then [Attendee(k + 1, ahli[k].nama, ahli[k].jawatan)] else []) <==>
      AttendsAs(ahli, k, b)
  {
  }

  /** An attendance line appears for each member with a name, numbered by
      the member's position in the full list. */
  lemma {:induction false} AttendeesFromMembership(ahli: seq<Ahli>, k: nat, b: Block)
    requires k <= |ahli|
    ensures b in AttendeesFrom(ahli, k) <==> exists j :: k <= j && AttendsAs(ahli, j, b)
    decreases |ahli| - k
  {
    if k < |ahli| {
      AttendeesFromMembership(ahli, k + 1, b);
      AttendeeHead(ahli, k, b);
      if exists j :: k <= j && AttendsAs(ahli, j, b) {
        var j :| k <= j && AttendsAs(ahli, j, b);
        assert j == k || (k + 1 <= j && AttendsAs(ahli, j, b));
      }
    }
  }

  lemma AttendeeMembership(ahli: seq<Ahli>, b: Block)
    ensures b in Attendees(ahli) <==> exists j :: AttendsAs(ahli, j, b)
  {
    AttendeesFromMembership(ahli, 0, b);
  }

  lemma {:induction false} AttendeesFromCount(ahli: seq<Ahli>, k: nat)
    requires k <= |ahli|
    ensures |AttendeesFrom(ahli, k)| == |Filter(ahli[k..], HasName)|
    decreases |ahli| - k
  {
    if k < |ahli| {
      AttendeesFromCount(ahli, k + 1);
      assert ahli[k..] == [ahli[k]] + ahli[k + 1..];
      FilterConcat([ahli[k]], ahli[k + 1..], HasName);
    }
  }

  lemma InMiddle(a: seq<Block>, b: seq<Block>, c: seq<Block>, x: Block)
    requires x in b
    ensures x in a + b + c
  {
    var i :| 0 <= i < |b| && b[i] == x;
    assert (a + b + c)[|a| + i] == x;
  }

  lemma MetaCount(d: Minit)
    ensures Meta("KEHADIRAN: " + NatToString(AttendanceCount(d.ahli)) + " ORANG") in MetaBlocks(d)
  {
    assert MetaBlocks(d)[4] == Meta("KEHADIRAN: " + NatToString(AttendanceCount(d.ahli)) + " ORANG");
  }

  /** The "KEHADIRAN" count is the number of attendance lines. */
  lemma AttendanceCountMatches(d: Minit, sessionYear: string)
    ensures Meta("KEHADIRAN: " + NatToString(|Attendees(d.ahli)|) + " ORANG") in Preamble(d, sessionYear)
  {
    AttendeesFromCount(d.ahli, 0);
    assert d.ahli[0..] == d.ahli;
    MetaCount(d);
    InMiddle(HeaderBlocks(d, sessionYear), MetaBlocks(d), [Label("Kehadiran:")] + Attendees(d.ahli),
      Meta("KEHADIRAN: " + NatToString(AttendanceCount(d.ahli)) + " ORANG"));
  }

  /** The two outputs print the same signature name exactly when the name
      is not empty (DOCX shows "-" for an empty one, PDF shows nothing). */
  lemma SignatureNamesAgree(sig: Signature)
    ensures SignatureName(sig, Docx) == SignatureName(sig, Pdf) <==> sig.name != ""
    ensures sig.name == "" ==> SignatureName(sig, Docx) == "-" && SignatureName(sig, Pdf) == ""
  {
    if sig.name == "" {
      assert ToUpper("-")[0] == UpperChar('-');
    }
  }
}
