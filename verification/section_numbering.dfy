/** Dynamic numbering of the minutes' sections: the four optional sections
    before the agenda, one number per agenda slot, then the two optional
    closing sections. The document generator and the minutes form compute
    the same numbers; the form also reports where the agenda ends. */
module SectionNumbering {
  import opened Wrappers
  import opened Seqs

  /** The six section toggles, in declaration order. */
  datatype Sections = Sections(
    ucapanPengerusi: bool,
    ucapanPenasihat: bool,
    minitLalu: bool,
    perkaraBerbangkit: bool,
    halHalLain: bool,
    ucapanPenangguhan: bool)

  /** The numbers of the enabled sections; `None` for a disabled one. */
  datatype SectionNumbers = SectionNumbers(
    ucapanPengerusi: Option<nat>,
    ucapanPenasihat: Option<nat>,
    minitLalu: Option<nat>,
    perkaraBerbangkit: Option<nat>,
    agendaStart: nat,
    halHalLain: Option<nat>,
    ucapanPenangguhan: Option<nat>)

  /** `if (on) numbers[key] = currentNum++`: the number given out and the
      counter afterwards. */
  function Assign(on: bool, next: nat): (Option<nat>, nat) {
    if on then (Some(next), next + 1) else (None, next)
  }

  /** `getSectionNumbers` of the document generator. */
  function GetSectionNumbers(s: Sections, agendaCount: nat): (r: SectionNumbers)
    ensures r.agendaStart >= 1
    ensures r.halHalLain.Some? <==> s.halHalLain
    ensures s.halHalLain ==> r.halHalLain == Some(r.agendaStart + agendaCount)
  {
    var (p1, n1) := Assign(s.ucapanPengerusi, 1);
    var (p2, n2) := Assign(s.ucapanPenasihat, n1);
    var (p3, n3) := Assign(s.minitLalu, n2);
    var (p4, n4) := Assign(s.perkaraBerbangkit, n3);
    var n5 := n4 + agendaCount;
    var (p6, n6) := Assign(s.halHalLain, n5);
    var (p7, _) := Assign(s.ucapanPenangguhan, n6);
    SectionNumbers(p1, p2, p3, p4, n4, p6, p7)
  }

  // ---------------------------------------------------------------- reference definition

  function Bit(b: bool): nat { if b then 1 else 0 }

  /** How many numbers each slot takes, in order: one per enabled section,
      and one per agenda item for the agenda slot (index 4). */
  function Widths(s: Sections, agendaCount: nat): (r: seq<nat>)
    ensures |r| == 7
  {
    [Bit(s.ucapanPengerusi), Bit(s.ucapanPenasihat), Bit(s.minitLalu), Bit(s.perkaraBerbangkit),
     agendaCount, Bit(s.halHalLain), Bit(s.ucapanPenangguhan)]
  }

  /** `ws[0] + ... + ws[k - 1]`. */
  function PrefixSum(ws: seq<nat>, k: nat): nat
    requires k <= |ws|
  {
    if k == 0 then 0 else PrefixSum(ws, k - 1) + ws[k - 1]
  }

  /** The first number of slot `k`: one more than all numbers before it. */
  function SlotStart(s: Sections, agendaCount: nat, k: nat): nat
    requires k < 7
  {
    1 + PrefixSum(Widths(s, agendaCount), k)
  }

  /** The number of slot `k` when it is a section that is enabled. */
  function SlotNumber(s: Sections, agendaCount: nat, k: nat): Option<nat>
    requires k < 7 && k != 4
  {
    if Widths(s, agendaCount)[k] == 1 then Some(SlotStart(s, agendaCount, k)) else None
  }

  /** Every section gets the next number after all slots before it, and
      the agenda starts after the four opening sections. */
  lemma NumbersMatchReference(s: Sections, n: nat)
    ensures var r := GetSectionNumbers(s, n);
      r.ucapanPengerusi == SlotNumber(s, n, 0) &&
      r.ucapanPenasihat == SlotNumber(s, n, 1) &&
      r.minitLalu == SlotNumber(s, n, 2) &&
      r.perkaraBerbangkit == SlotNumber(s, n, 3) &&
      r.agendaStart == SlotStart(s, n, 4) &&
      r.halHalLain == SlotNumber(s, n, 5) &&
      r.ucapanPenangguhan == SlotNumber(s, n, 6)
  {
    PrefixSums(s, n);
  }

  lemma PrefixSums(s: Sections, n: nat)
    ensures var ws := Widths(s, n);
      PrefixSum(ws, 1) == ws[0] &&
      PrefixSum(ws, 2) == ws[0] + ws[1] &&
      PrefixSum(ws, 3) == ws[0] + ws[1] + ws[2] &&
      PrefixSum(ws, 4) == ws[0] + ws[1] + ws[2] + ws[3] &&
      PrefixSum(ws, 5) == ws[0] + ws[1] + ws[2] + ws[3] + ws[4] &&
      PrefixSum(ws, 6) == ws[0] + ws[1] + ws[2] + ws[3] + ws[4] + ws[5] &&
      PrefixSum(ws, 7) == ws[0] + ws[1] + ws[2] + ws[3] + ws[4] + ws[5] + ws[6]
  {
    var ws := Widths(s, n);
    assert PrefixSum(ws, 1) == ws[0];
    assert PrefixSum(ws, 2) == PrefixSum(ws, 1) + ws[1];
    assert PrefixSum(ws, 3) == PrefixSum(ws, 2) + ws[2];
    assert PrefixSum(ws, 4) == PrefixSum(ws, 3) + ws[3];
    assert PrefixSum(ws, 5) == PrefixSum(ws, 4) + ws[4];
    assert PrefixSum(ws, 6) == PrefixSum(ws, 5) + ws[5];
    assert PrefixSum(ws, 7) == PrefixSum(ws, 6) + ws[6];
  }

  // ---------------------------------------------------------------- all numbers are 1..N

  function Listed(o: Option<nat>): seq<nat> {
    if o.Some? then [o.value] else []
  }

  /** The numbers of the four sections before the agenda, in order. */
  function OpeningList(r: SectionNumbers): seq<nat> {
    Listed(r.ucapanPengerusi) + Listed(r.ucapanPenasihat) + Listed(r.minitLalu) + Listed(r.perkaraBerbangkit)
  }

  /** The numbers of the two sections after the agenda, in order. */
  function ClosingList(r: SectionNumbers): seq<nat> {
    Listed(r.halHalLain) + Listed(r.ucapanPenangguhan)
  }

  /** Every number handed out, in declaration order, the agenda slots
      included. */
  function AllNumbers(r: SectionNumbers, agendaCount: nat): seq<nat> {
    Listed(r.ucapanPengerusi) + Listed(r.ucapanPenasihat) + Listed(r.minitLalu) +
    Listed(r.perkaraBerbangkit) + Range(r.agendaStart, agendaCount) +
    Listed(r.halHalLain) + Listed(r.ucapanPenangguhan)
  }

  /** The number of numbers handed out. */
  function Total(s: Sections, agendaCount: nat): nat {
    PrefixSum(Widths(s, agendaCount), 7)
  }

  lemma RangeConcat(lo: nat, a: nat, b: nat)
    ensures Range(lo, a) + Range(lo + a, b) == Range(lo, a + b)
  {
  }

  /** One assignment step extends the run of consecutive numbers by its
      width. */
  lemma AssignExtends(acc: seq<nat>, on: bool, next: nat)
    requires next >= 1 && acc == Range(1, next - 1)
    ensures acc + Listed(Assign(on, next).0) == Range(1, Assign(on, next).1 - 1)
    ensures Assign(on, next).1 == next + Bit(on)
  {
    if on {
      RangeConcat(1, next - 1, 1);
    }
  }

  /** The agenda slots extend the run by their count. */
  lemma AgendaExtends(acc: seq<nat>, next: nat, n: nat)
    requires next >= 1 && acc == Range(1, next - 1)
    ensures acc + Range(next, n) == Range(1, next + n - 1)
  {
    RangeConcat(1, next - 1, n);
  }

  /** The numbers handed out are exactly 1, 2, ..., N in declaration order:
      no number repeats, none is skipped, and they strictly increase. */
  lemma NumbersAreConsecutive(s: Sections, n: nat)
    ensures AllNumbers(GetSectionNumbers(s, n), n) == Range(1, Total(s, n))
  {
    var r := GetSectionNumbers(s, n);
    var opening := Listed(r.ucapanPengerusi) + Listed(r.ucapanPenasihat) + Listed(r.minitLalu) +
      Listed(r.perkaraBerbangkit);
    OpeningNumbers(s, n);
    ClosingNumbersRun(s, n, opening);
  }

  /** The four opening sections take 1 .. agendaStart - 1. */
  lemma OpeningNumbers(s: Sections, n: nat)
    ensures var r := GetSectionNumbers(s, n);
      Listed(r.ucapanPengerusi) + Listed(r.ucapanPenasihat) + Listed(r.minitLalu) +
      Listed(r.perkaraBerbangkit) == Range(1, r.agendaStart - 1)
  {
    var (p1, n1) := Assign(s.ucapanPengerusi, 1);
    var (p2, n2) := Assign(s.ucapanPenasihat, n1);
    var (p3, n3) := Assign(s.minitLalu, n2);
    var (p4, n4) := Assign(s.perkaraBerbangkit, n3);
    var a0: seq<nat> := [];
    AssignExtends(a0, s.ucapanPengerusi, 1);
    assert a0 + Listed(p1) == Listed(p1);
    AssignExtends(Listed(p1), s.ucapanPenasihat, n1);
    AssignExtends(Listed(p1) + Listed(p2), s.minitLalu, n2);
    AssignExtends(Listed(p1) + Listed(p2) + Listed(p3), s.perkaraBerbangkit, n3);
  }

  /** After the opening run, the agenda slots and the closing sections
      continue it up to the total. */
  lemma ClosingNumbersRun(s: Sections, n: nat, opening: seq<nat>)
    requires opening == Range(1, GetSectionNumbers(s, n).agendaStart - 1)
    ensures var r := GetSectionNumbers(s, n);
      opening + Range(r.agendaStart, n) + Listed(r.halHalLain) + Listed(r.ucapanPenangguhan) ==
      Range(1, Total(s, n))
  {
    var r := GetSectionNumbers(s, n);
    TotalIsSum(s, n);
    ClosingAssigned(s, n);
    TailRun(opening, r.agendaStart, n, s.halHalLain, s.ucapanPenangguhan);
  }

  /** The closing sections' numbers as steps of the assignment after the
      agenda, and the total as the agenda's end plus the closing widths. */
  lemma ClosingAssigned(s: Sections, n: nat)
    ensures var r := GetSectionNumbers(s, n);
      var (p6, n6) := Assign(s.halHalLain, r.agendaStart + n);
      r.halHalLain == p6 && r.ucapanPenangguhan == Assign(s.ucapanPenangguhan, n6).0 &&
      r.agendaStart == 1 + Bit(s.ucapanPengerusi) + Bit(s.ucapanPenasihat) + Bit(s.minitLalu) + Bit(s.perkaraBerbangkit)
  {
  }

  /** The agenda slots and two closing steps continue a run `1 .. start-1`. */
  lemma TailRun(opening: seq<nat>, start: nat, n: nat, hal: bool, pen: bool)
    requires start >= 1 && opening == Range(1, start - 1)
    ensures var (p6, n6) := Assign(hal, start + n);
      opening + Range(start, n) + Listed(p6) + Listed(Assign(pen, n6).0) ==
      Range(1, start + n - 1 + Bit(hal) + Bit(pen))
  {
    AgendaExtends(opening, start, n);
    var (p6, n6) := Assign(hal, start + n);
    AssignExtends(opening + Range(start, n), hal, start + n);
    AssignExtends(opening + Range(start, n) + Listed(p6), pen, n6);
  }

  lemma TotalIsSum(s: Sections, n: nat)
    ensures Total(s, n) == Bit(s.ucapanPengerusi) + Bit(s.ucapanPenasihat) + Bit(s.minitLalu) +
      Bit(s.perkaraBerbangkit) + n + Bit(s.halHalLain) + Bit(s.ucapanPenangguhan)
  {
    PrefixSums(s, n);
  }

  predicate Increasing(a: seq<nat>) {
    forall i, j :: 0 <= i < j < |a| ==> a[i] < a[j]
  }

  /** Every element of `a` lies in `lo .. hi - 1`. */
  predicate Within(a: seq<nat>, lo: int, hi: int) {
    forall i :: 0 <= i < |a| ==> lo <= a[i] < hi
  }

  /** Consequently the assigned numbers strictly increase in declaration
      order. */
  lemma NumbersIncrease(s: Sections, n: nat)
    ensures Increasing(AllNumbers(GetSectionNumbers(s, n), n))
  {
    NumbersAreConsecutive(s, n);
  }

  /** Two increasing runs in adjacent ranges make one increasing run. */
  lemma IncreasingConcat(a: seq<nat>, b: seq<nat>, lo: int, mid: int, hi: int)
    requires lo <= mid <= hi
    requires Increasing(a) && Within(a, lo, mid)
    requires Increasing(b) && Within(b, mid, hi)
    ensures Increasing(a + b) && Within(a + b, lo, hi)
  {
    var c := a + b;
    forall i, j | 0 <= i < j < |c| ensures c[i] < c[j] {
      if j < |a| {
        assert c[i] == a[i] && c[j] == a[j];
      } else if i >= |a| {
        assert c[i] == b[i - |a|] && c[j] == b[j - |a|];
      } else {
        assert c[i] == a[i] && c[j] == b[j - |a|];
      }
    }
    forall i | 0 <= i < |c| ensures lo <= c[i] < hi {
      if i < |a| {
        assert c[i] == a[i] && lo <= a[i] < mid;
      } else {
        assert c[i] == b[i - |a|] && mid <= b[i - |a|] < hi;
      }
    }
  }

  /** An increasing run lies in its own range. */
  lemma RangeRun(lo: nat, n: nat)
    ensures Increasing(Range(lo, n)) && Within(Range(lo, n), lo, lo + n)
  {
  }

  /** Replacing the agenda slots of the numbering by any increasing
      selection of them keeps the whole numbering increasing. */
  lemma SelectAgendaSlots(s: Sections, n: nat, selected: seq<nat>)
    requires var r := GetSectionNumbers(s, n); Increasing(selected) && Within(selected, r.agendaStart, r.agendaStart + n)
    ensures var r := GetSectionNumbers(s, n); Increasing(OpeningList(r) + selected + ClosingList(r))
  {
    var r := GetSectionNumbers(s, n);
    var opening := Listed(r.ucapanPengerusi) + Listed(r.ucapanPenasihat) + Listed(r.minitLalu) +
      Listed(r.perkaraBerbangkit);
    var closing := Listed(r.halHalLain) + Listed(r.ucapanPenangguhan);
    OpeningNumbers(s, n);
    ClosingNumbersRun(s, n, opening);
    var start := r.agendaStart;
    RangeRun(1, start - 1);
    ClosingRun(s, n);
    IncreasingConcat(opening, selected, 1, start, start + n);
    IncreasingConcat(opening + selected, closing, 1, start + n, start + n + 2);
  }

  /** The closing sections' numbers follow the agenda slots in order. */
  lemma ClosingRun(s: Sections, n: nat)
    ensures var r := GetSectionNumbers(s, n);
      var closing := Listed(r.halHalLain) + Listed(r.ucapanPenangguhan);
      Increasing(closing) && Within(closing, r.agendaStart + n, r.agendaStart + n + 2)
  {
  }

  /** The closing sections follow the agenda: Hal-hal Lain takes the number
      after the last agenda slot and Ucapan Penangguhan the one after that. */
  lemma ClosingNumbers(s: Sections, n: nat)
    ensures var r := GetSectionNumbers(s, n);
      (s.ucapanPenangguhan <==> r.ucapanPenangguhan.Some?) &&
      (s.ucapanPenangguhan ==> r.ucapanPenangguhan == Some(r.agendaStart + n + Bit(s.halHalLain)))
    ensures GetSectionNumbers(s, n).agendaStart ==
      1 + Bit(s.ucapanPengerusi) + Bit(s.ucapanPenasihat) + Bit(s.minitLalu) + Bit(s.perkaraBerbangkit)
  {
  }

  // ---------------------------------------------------------------- minutes form

  /** The form's numbers: the generator's plus the last agenda number. */
  datatype FormNumbers = FormNumbers(numbers: SectionNumbers, agendaEnd: int)

  /** `getSectionNumbers` of the minutes form. */
  function FormSectionNumbers(s: Sections, agendaCount: nat): (r: FormNumbers)
    ensures r.numbers == GetSectionNumbers(s, agendaCount)
    ensures r.agendaEnd - r.numbers.agendaStart + 1 == agendaCount
  {
    var g := GetSectionNumbers(s, agendaCount);
    FormNumbers(g, g.agendaStart + agendaCount - 1)
  }

  /** With at least one agenda item, the closing sections come after
      `agendaEnd`; with none, `agendaEnd` is one below `agendaStart`. */
  lemma AgendaEndBounds(s: Sections, n: nat)
    ensures var f := FormSectionNumbers(s, n);
      (n == 0 ==> f.agendaEnd == f.numbers.agendaStart - 1) &&
      (f.numbers.halHalLain.Some? ==> f.numbers.halHalLain.value == f.agendaEnd + 1) &&
      (f.numbers.ucapanPenangguhan.Some? ==> f.numbers.ucapanPenangguhan.value > f.agendaEnd)
  {
  }

  /** The form preview's number for the agenda card at `agendaIndex`:
      start at `agendaStart` and count one per earlier card, whatever the
      cards' inclusion flags. */
  method PreviewAgendaNumber(agendaStart: nat, agendaIndex: nat) returns (agendaNum: nat)
    ensures agendaNum == agendaStart + agendaIndex
  {
    agendaNum := agendaStart;
    var i := 0;
    while i < agendaIndex
      invariant 0 <= i <= agendaIndex
      invariant agendaNum == agendaStart + i
    {
      agendaNum := agendaNum + 1;
      i := i + 1;
    }
  }

  /** Every preview number of an agenda card lies between `agendaStart`
      and `agendaEnd`. */
  lemma PreviewWithinAgenda(s: Sections, n: nat, agendaIndex: nat)
    requires agendaIndex < n
    ensures var f := FormSectionNumbers(s, n);
      f.numbers.agendaStart <= f.numbers.agendaStart + agendaIndex <= f.agendaEnd
  {
  }
}
