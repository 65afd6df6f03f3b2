/** The minutes form's edits: each handler is a function from form state to
    form state, and its contract says which part changes and that nothing
    else does. */
module MinitForm {
  import opened Wrappers
  import opened Seqs
  import opened JsText
  import opened MinitData
  import opened Settings

  /** The form data together with the ids of the ticked members. */
  datatype Form = Form(data: Minit, selected: seq<string>)

  // ---------------------------------------------------------------- attendance

  function NotAhliId(id: string): Ahli -> bool {
    (a: Ahli) => a.id != id
  }

  function NotSelf(id: string): string -> bool {
    (x: string) => x != id
  }

  /** The attendance entry for a member of the settings. */
  function AhliOf(m: Member): Ahli {
    Ahli(m.id, m.nama, m.jawatan, false)
  }

  /** `toggleMember`: an unknown id changes nothing; a ticked member is
      unticked and its attendance entries go; an unticked one is ticked and
      appended to the attendance. */
  function ToggleMember(f: Form, members: seq<Member>, id: string): (r: Form)
    ensures MemberIndex(members, id) < 0 ==> r == f
    ensures MemberIndex(members, id) >= 0 && id in f.selected ==>
      r.data == f.data.(ahli := Filter(f.data.ahli, NotAhliId(id))) &&
      r.selected == Filter(f.selected, NotSelf(id)) && id !in r.selected
    ensures MemberIndex(members, id) >= 0 && id !in f.selected ==>
      r.data == f.data.(ahli := f.data.ahli + [AhliOf(members[MemberIndex(members, id)])]) &&
      r.selected == f.selected + [id]
  {
    var k := MemberIndex(members, id);
    if k < 0 then f
    else if id in f.selected then
      FilterMembership(f.selected, NotSelf(id), id);
      Form(f.data.(ahli := Filter(f.data.ahli, NotAhliId(id))), Filter(f.selected, NotSelf(id)))
    else
      Form(f.data.(ahli := f.data.ahli + [AhliOf(members[k])]), f.selected + [id])
  }

  /** Ticking a member and unticking it again restores the form, when the
      member had no attendance entry before. */
  lemma ToggleTwice(f: Form, members: seq<Member>, id: string)
    requires id !in f.selected
    requires forall i :: 0 <= i < |f.data.ahli| ==> f.data.ahli[i].id != id
    ensures ToggleMember(ToggleMember(f, members, id), members, id) == f
  {
    var k := MemberIndex(members, id);
    if k >= 0 {
      var g := ToggleMember(f, members, id);
      FilterConcat(f.data.ahli, [AhliOf(members[k])], NotAhliId(id));
      FilterConcat(f.selected, [id], NotSelf(id));
      assert Filter(f.selected, NotSelf(id)) == f.selected by {
        forall i | 0 <= i < |f.selected| ensures NotSelf(id)(f.selected[i]) {
          assert f.selected[i] in f.selected;
        }
      }
      assert Filter([AhliOf(members[k])], NotAhliId(id)) == [];
      assert Filter([id], NotSelf(id)) == [];
      assert g.data.ahli + [] == g.data.ahli;
      assert f.data.ahli + [] == f.data.ahli;
      assert f.selected + [] == f.selected;
    }
  }

  datatype SignatureRole = Setiausaha | KetuaPanitia | GuruBesar

  function SignatureOf(d: Minit, role: SignatureRole): Signature {
    match role
    case Setiausaha => d.setiausaha
    case KetuaPanitia => d.ketuaPanitia
    case GuruBesar => d.guruBesar
  }

  function WithSignature(d: Minit, role: SignatureRole, sig: Signature): Minit {
    match role
    case Setiausaha => d.(setiausaha := sig)
    case KetuaPanitia => d.(ketuaPanitia := sig)
    case GuruBesar => d.(guruBesar := sig)
  }

  /** `selectSignatureMember`: the role's signature takes the member's name
      and position as its first title line, and its other title lines are
      cleared; an unknown id changes nothing. */
  function SelectSignatureMember(f: Form, members: seq<Member>, role: SignatureRole, id: string): (r: Form)
    ensures MemberIndex(members, id) < 0 ==> r == f
    ensures MemberIndex(members, id) >= 0 ==>
      var m := members[MemberIndex(members, id)];
      r.selected == f.selected &&
      SignatureOf(r.data, role) == Signature(m.nama, m.jawatan, "", "") &&
      forall other :: other != role ==> SignatureOf(r.data, other) == SignatureOf(f.data, other)
    ensures WithSignature(r.data, role, SignatureOf(f.data, role)) == f.data
  {
    var k := MemberIndex(members, id);
    if k < 0 then f
    else
      var m := members[k];
      var sig := SignatureOf(f.data, role).(name := m.nama, title1 := m.jawatan, title2 := "", title3 := "");
      f.(data := WithSignature(f.data, role, sig))
  }

  // ---------------------------------------------------------------- agenda

  function ItemIds(items: seq<AgendaItem>): (r: seq<string>)
    ensures |r| == |items| && forall i :: 0 <= i < |items| ==> r[i] == items[i].id
  {
    seq(|items|, i requires 0 <= i < |items| => items[i].id)
  }

  /** `addAgendaItem`: appends a fresh item. */
  function AddAgendaItem(f: Form, id: string): (r: Form)
    ensures r.selected == f.selected && r.data == f.data.(agendaItems := r.data.agendaItems)
    ensures r.data.agendaItems == f.data.agendaItems + [NewAgendaItem(id)]
  {
    f.(data := f.data.(agendaItems := f.data.agendaItems + [NewAgendaItem(id)]))
  }

  function NotItemId(id: string): AgendaItem -> bool {
    (a: AgendaItem) => a.id != id
  }

  /** `removeAgendaItem`: a no-op while one item (or none) is left;
      otherwise the items with the id are dropped and the rest keep their
      order. */
  function RemoveAgendaItem(f: Form, id: string): (r: Form)
    ensures |f.data.agendaItems| <= 1 ==> r == f
    ensures |f.data.agendaItems| > 1 ==>
      r.selected == f.selected && r.data == f.data.(agendaItems := r.data.agendaItems) &&
      r.data.agendaItems == Filter(f.data.agendaItems, NotItemId(id)) &&
      forall a :: a in r.data.agendaItems <==> a in f.data.agendaItems && a.id != id
  {
    if |f.data.agendaItems| <= 1 then f
    else
      var rest := Filter(f.data.agendaItems, NotItemId(id));
      forall a ensures a in rest <==> a in f.data.agendaItems && a.id != id {
        FilterMembership(f.data.agendaItems, NotItemId(id), a);
      }
      f.(data := f.data.(agendaItems := rest))
  }

  /** Adding an item with a fresh id and removing it again restores the
      form. */
  lemma AddThenRemoveAgenda(f: Form, id: string)
    requires |f.data.agendaItems| >= 1 && id !in ItemIds(f.data.agendaItems)
    ensures RemoveAgendaItem(AddAgendaItem(f, id), id) == f
  {
    var items := f.data.agendaItems;
    FilterConcat(items, [NewAgendaItem(id)], NotItemId(id));
    assert Filter(items, NotItemId(id)) == items by {
      forall i | 0 <= i < |items| ensures NotItemId(id)(items[i]) {
        assert ItemIds(items)[i] == items[i].id;
      }
    }
    assert Filter([NewAgendaItem(id)], NotItemId(id)) == [];
    assert items + [] == items;
  }

  /** The agenda with `g` applied to the items whose id is `id`. */
  function EditAgenda(f: Form, id: string, g: AgendaItem -> AgendaItem): (r: Form)
    ensures r.selected == f.selected && r.data == f.data.(agendaItems := r.data.agendaItems)
    ensures |r.data.agendaItems| == |f.data.agendaItems|
    ensures forall i :: 0 <= i < |f.data.agendaItems| ==>
      r.data.agendaItems[i] == (if f.data.agendaItems[i].id == id then g(f.data.agendaItems[i]) else f.data.agendaItems[i])
  {
    f.(data := f.data.(agendaItems := MapWhere(f.data.agendaItems, (a: AgendaItem) => a.id == id, g)))
  }

  /** The fields `updateAgendaItem` can set. */
  datatype AgendaField = Perkara(text: string) | Tindakan(text: string) | Included(on: bool)

  function SetField(a: AgendaItem, v: AgendaField): AgendaItem {
    match v
    case Perkara(t) => a.(perkara := t)
    case Tindakan(t) => a.(tindakan := t)
    case Included(b) => a.(included := b)
  }

  /** `updateAgendaItem`. */
  function UpdateAgendaItem(f: Form, id: string, v: AgendaField): (r: Form)
    ensures r.selected == f.selected && r.data == f.data.(agendaItems := r.data.agendaItems)
    ensures |r.data.agendaItems| == |f.data.agendaItems|
    ensures forall i :: 0 <= i < |f.data.agendaItems| ==>
      r.data.agendaItems[i] == (if f.data.agendaItems[i].id == id then SetField(f.data.agendaItems[i], v) else f.data.agendaItems[i])
  {
    EditAgenda(f, id, (a: AgendaItem) => SetField(a, v))
  }

  /** Setting a field twice is setting it once. */
  lemma UpdateAgendaTwice(f: Form, id: string, v: AgendaField)
    ensures UpdateAgendaItem(UpdateAgendaItem(f, id, v), id, v) == UpdateAgendaItem(f, id, v)
  {
    var g := UpdateAgendaItem(f, id, v);
    var h := UpdateAgendaItem(g, id, v);
    assert h.data.agendaItems == g.data.agendaItems;
  }

  function FlipIncluded(a: AgendaItem): AgendaItem {
    a.(included := !a.included)
  }

  /** `toggleAgendaIncluded`: flips `included` on the matching items only. */
  function ToggleAgendaIncluded(f: Form, id: string): (r: Form)
    ensures r.selected == f.selected && r.data == f.data.(agendaItems := r.data.agendaItems)
    ensures |r.data.agendaItems| == |f.data.agendaItems|
    ensures forall i :: 0 <= i < |f.data.agendaItems| ==>
      var a := f.data.agendaItems[i];
      r.data.agendaItems[i] == (if a.id == id then a.(included := !a.included) else a)
  {
    EditAgenda(f, id, FlipIncluded)
  }

  /** Toggling twice restores the form. */
  lemma ToggleIncludedTwice(f: Form, id: string)
    ensures ToggleAgendaIncluded(ToggleAgendaIncluded(f, id), id) == f
  {
    var g := ToggleAgendaIncluded(ToggleAgendaIncluded(f, id), id);
    assert g.data.agendaItems == f.data.agendaItems;
  }

  // ---------------------------------------------------------------- sub-items

  function AppendButiran(a: AgendaItem): AgendaItem {
    a.(butiran := a.butiran + [""])
  }

  /** `addButiran`: one empty sub-item more on the matching agenda items. */
  function AddButiran(f: Form, agendaId: string): (r: Form)
    ensures r.selected == f.selected && r.data == f.data.(agendaItems := r.data.agendaItems)
    ensures |r.data.agendaItems| == |f.data.agendaItems|
    ensures forall i :: 0 <= i < |f.data.agendaItems| ==>
      var a := f.data.agendaItems[i];
      r.data.agendaItems[i] == (if a.id == agendaId then a.(butiran := a.butiran + [""]) else a)
  {
    EditAgenda(f, agendaId, AppendButiran)
  }

  /** `removeButiran`: drops sub-item `k` of the matching agenda items (the
      handler itself has no guard; the button is disabled at one item). */
  function RemoveButiran(f: Form, agendaId: string, k: int): (r: Form)
    ensures r.selected == f.selected && r.data == f.data.(agendaItems := r.data.agendaItems)
    ensures |r.data.agendaItems| == |f.data.agendaItems|
    ensures forall i :: 0 <= i < |f.data.agendaItems| ==>
      var a := f.data.agendaItems[i];
      r.data.agendaItems[i] == (if a.id == agendaId then a.(butiran := RemoveAt(a.butiran, k)) else a)
  {
    EditAgenda(f, agendaId, (a: AgendaItem) => a.(butiran := RemoveAt(a.butiran, k)))
  }

  /** `updateButiran`: replaces sub-item `k` of the matching agenda items;
      their length stays. */
  function UpdateButiran(f: Form, agendaId: string, k: int, v: string): (r: Form)
    ensures r.selected == f.selected && r.data == f.data.(agendaItems := r.data.agendaItems)
    ensures |r.data.agendaItems| == |f.data.agendaItems|
    ensures forall i :: 0 <= i < |f.data.agendaItems| ==>
      var a := f.data.agendaItems[i];
      r.data.agendaItems[i] == (if a.id == agendaId then a.(butiran := UpdateAt(a.butiran, k, v)) else a)
  {
    EditAgenda(f, agendaId, (a: AgendaItem) => a.(butiran := UpdateAt(a.butiran, k, v)))
  }

  /** Adding a sub-item and removing the last one restores an agenda item
      whose id is unique. */
  lemma AddThenRemoveButiran(f: Form, j: nat)
    requires j < |f.data.agendaItems|
    requires forall i :: 0 <= i < |f.data.agendaItems| && i != j ==> f.data.agendaItems[i].id != f.data.agendaItems[j].id
    ensures var a := f.data.agendaItems[j];
      RemoveButiran(AddButiran(f, a.id), a.id, |a.butiran|) == f
  {
    var a := f.data.agendaItems[j];
    var g := AddButiran(f, a.id);
    var h := RemoveButiran(g, a.id, |a.butiran|);
    assert RemoveAt(a.butiran + [""], |a.butiran|) == a.butiran by {
      assert (a.butiran + [""])[..|a.butiran|] == a.butiran;
    }
    forall i | 0 <= i < |f.data.agendaItems| ensures h.data.agendaItems[i] == f.data.agendaItems[i] {
      if i == j {
        assert g.data.agendaItems[i] == a.(butiran := a.butiran + [""]);
      }
    }
    assert h.data.agendaItems == f.data.agendaItems;
  }

  // ---------------------------------------------------------------- speeches and frequent content

  /** The lists edited entry by entry in the form. */
  datatype SpeechList = PengerusiList | PenasihatList | HalHalLainList

  function SpeechOf(d: Minit, l: SpeechList): seq<string> {
    match l
    case PengerusiList => d.ucapanPengerusi
    case PenasihatList => d.ucapanPenasihat
    case HalHalLainList => d.halHalLain
  }

  function WithSpeech(d: Minit, l: SpeechList, xs: seq<string>): (r: Minit)
    ensures SpeechOf(r, l) == xs
    ensures forall other :: other != l ==> SpeechOf(r, other) == SpeechOf(d, other)
  {
    match l
    case PengerusiList => d.(ucapanPengerusi := xs)
    case PenasihatList => d.(ucapanPenasihat := xs)
    case HalHalLainList => d.(halHalLain := xs)
  }

  /** Typing into entry `k`. */
  function UpdateSpeech(f: Form, l: SpeechList, k: int, v: string): (r: Form)
    ensures SpeechOf(r.data, l) == UpdateAt(SpeechOf(f.data, l), k, v)
    ensures WithSpeech(r.data, l, SpeechOf(f.data, l)) == f.data && r.selected == f.selected
  {
    f.(data := WithSpeech(f.data, l, UpdateAt(SpeechOf(f.data, l), k, v)))
  }

  /** The delete button: refused while one entry is left. */
  function RemoveSpeech(f: Form, l: SpeechList, k: int): (r: Form)
    ensures |SpeechOf(f.data, l)| <= 1 ==> r == f
    ensures |SpeechOf(f.data, l)| > 1 ==> SpeechOf(r.data, l) == RemoveAt(SpeechOf(f.data, l), k)
    ensures |SpeechOf(f.data, l)| >= 1 ==> |SpeechOf(r.data, l)| >= 1
    ensures WithSpeech(r.data, l, SpeechOf(f.data, l)) == f.data && r.selected == f.selected
  {
    var xs := SpeechOf(f.data, l);
    if |xs| <= 1 then f
    else f.(data := WithSpeech(f.data, l, RemoveAt(xs, k)))
  }

  /** "Tambah Butiran": one empty entry more. */
  function AppendSpeech(f: Form, l: SpeechList): (r: Form)
    ensures SpeechOf(r.data, l) == SpeechOf(f.data, l) + [""]
    ensures WithSpeech(r.data, l, SpeechOf(f.data, l)) == f.data && r.selected == f.selected
  {
    f.(data := WithSpeech(f.data, l, SpeechOf(f.data, l) + [""]))
  }

  /** Appending an entry and deleting it again restores the form. */
  lemma AppendThenRemoveSpeech(f: Form, l: SpeechList)
    requires |SpeechOf(f.data, l)| >= 1
    ensures RemoveSpeech(AppendSpeech(f, l), l, |SpeechOf(f.data, l)|) == f
  {
    var xs := SpeechOf(f.data, l);
    assert (xs + [""])[..|xs|] == xs;
    assert RemoveAt(xs + [""], |xs|) == xs;
  }

  /** Where `insertFrequentContent` puts a template. */
  datatype InsertTarget = IntoPengerusi | IntoPenasihat | IntoPenangguhan

  /** The pengerusi and penasihat lists drop their empty entries and gain
      the content at the end. */
  function Appended(xs: seq<string>, content: string): (r: seq<string>)
    ensures |r| >= 1 && r[|r| - 1] == content
    ensures forall i :: 0 <= i < |r| - 1 ==> r[i] != ""
  {
    Filter(xs, NonEmpty) + [content]
  }

  /** `insertFrequentContent`. */
  function InsertFrequentContent(f: Form, target: InsertTarget, content: string): (r: Form)
    ensures target == IntoPengerusi ==> r.data == f.data.(ucapanPengerusi := Appended(f.data.ucapanPengerusi, content))
    ensures target == IntoPenasihat ==> r.data == f.data.(ucapanPenasihat := Appended(f.data.ucapanPenasihat, content))
    ensures target == IntoPenangguhan ==> r.data == f.data.(ucapanPenangguhan := [content])
    ensures r.selected == f.selected
  {
    match target
    case IntoPengerusi => f.(data := f.data.(ucapanPengerusi := Appended(f.data.ucapanPengerusi, content)))
    case IntoPenasihat => f.(data := f.data.(ucapanPenasihat := Appended(f.data.ucapanPenasihat, content)))
    case IntoPenangguhan => f.(data := f.data.(ucapanPenangguhan := [content]))
  }

  /** The entries that were written survive in order, and the content comes
      after them. */
  lemma AppendedKeepsWritten(xs: seq<string>, content: string)
    ensures Filter(Appended(xs, content), NonEmpty) ==
      Filter(xs, NonEmpty) + (if content != "" then [content] else [])
  {
    var kept := Filter(xs, NonEmpty);
    FilterConcat(kept, [content], NonEmpty);
    assert Filter(kept, NonEmpty) == kept;
  }

  /** Inserting a second template keeps the first one in front of it. */
  lemma InsertTwice(xs: seq<string>, c1: string, c2: string)
    requires c1 != ""
    ensures Appended(Appended(xs, c1), c2) == Filter(xs, NonEmpty) + [c1, c2]
  {
    AppendedKeepsWritten(xs, c1);
    assert Filter(xs, NonEmpty) + [c1] + [c2] == Filter(xs, NonEmpty) + [c1, c2];
  }

  // ---------------------------------------------------------------- other fields

  /** Which of the six section titles is being edited. */
  datatype TitleKey = PengerusiTitleKey | PenasihatTitleKey | MinitLaluTitleKey |
    BerbangkitTitleKey | HalHalLainTitleKey | PenangguhanTitleKey

  function TitleOf(t: SectionTitles, key: TitleKey): string {
    match key
    case PengerusiTitleKey => t.ucapanPengerusi
    case PenasihatTitleKey => t.ucapanPenasihat
    case MinitLaluTitleKey => t.minitLalu
    case BerbangkitTitleKey => t.perkaraBerbangkit
    case HalHalLainTitleKey => t.halHalLain
    case PenangguhanTitleKey => t.ucapanPenangguhan
  }

  /** `updateSectionTitle`: sets one title and keeps the other five. */
  function UpdateSectionTitle(f: Form, key: TitleKey, value: string): (r: Form)
    ensures TitleOf(r.data.sectionTitles, key) == value
    ensures forall other :: other != key ==> TitleOf(r.data.sectionTitles, other) == TitleOf(f.data.sectionTitles, other)
    ensures r.data == f.data.(sectionTitles := r.data.sectionTitles) && r.selected == f.selected
  {
    var t := f.data.sectionTitles;
    var t' := match key
      case PengerusiTitleKey => t.(ucapanPengerusi := value)
      case PenasihatTitleKey => t.(ucapanPenasihat := value)
      case MinitLaluTitleKey => t.(minitLalu := value)
      case BerbangkitTitleKey => t.(perkaraBerbangkit := value)
      case HalHalLainTitleKey => t.(halHalLain := value)
      case PenangguhanTitleKey => t.(ucapanPenangguhan := value);
    f.(data := f.data.(sectionTitles := t'))
  }

  /** The date picker sets the date and the weekday name computed from it
      (the weekday comes from outside). */
  function SetTarikh(f: Form, tarikh: string, hari: string): (r: Form)
    ensures r.data == f.data.(tarikh := tarikh, hari := hari) && r.selected == f.selected
  {
    f.(data := f.data.(tarikh := tarikh, hari := hari))
  }

  /** The single-field editors of Perkara Berbangkit and Ucapan Penangguhan
      replace the whole list by one entry. */
  function SetBerbangkit(f: Form, v: string): (r: Form)
    ensures r.data.perkaraBerbangkit == [v] && r.data == f.data.(perkaraBerbangkit := [v])
  {
    f.(data := f.data.(perkaraBerbangkit := [v]))
  }

  function SetPenangguhan(f: Form, v: string): (r: Form)
    ensures r.data.ucapanPenangguhan == [v] && r.data == f.data.(ucapanPenangguhan := [v])
  {
    f.(data := f.data.(ucapanPenangguhan := [v]))
  }

  // ---------------------------------------------------------------- the previous-minutes template

  /** `parseInt(bilangan) - 1`; NaN stays NaN. */
  function PreviousNumber(bilangan: string): JsNum {
    match ParseInt(bilangan)
    case NaN => NaN
    case Int(n) => Int(n - 1)
  }

  /** The template text with the first `[bil]` and the first `[tahun]`
      filled in, with the replacement semantics of `String.replace`. */
  function FillTemplate(content: string, bilangan: string, tahun: string): string {
    ReplaceFirst(ReplaceFirst(content, "[bil]", NumToString(PreviousNumber(bilangan))), "[tahun]", tahun)
  }

  /** The template button: only `dibentang` changes. */
  function ApplyMinitLaluTemplate(f: Form, content: string): (r: Form)
    ensures r.data == f.data.(minitLalu := f.data.minitLalu.(dibentang := r.data.minitLalu.dibentang))
    ensures r.data.minitLalu.dibentang == FillTemplate(content, f.data.bilangan, f.data.tahun)
    ensures r.selected == f.selected
  {
    f.(data := f.data.(minitLalu := f.data.minitLalu.(dibentang := FillTemplate(content, f.data.bilangan, f.data.tahun))))
  }

  predicate NoDollar(s: string) {
    forall i :: 0 <= i < |s| ==> s[i] != '$'
  }

  /** On a template `a[bil]b[tahun]c` with no `[` before the placeholders
      and a meeting number `n`, the previous meeting is `n - 1` of the year. */
  lemma FillTemplateNumber(a: string, b: string, c: string, n: int, tahun: string)
    requires '[' !in a && '[' !in b && NoDollar(tahun)
    ensures FillTemplate(a + "[bil]" + b + "[tahun]" + c, IntToString(n), tahun) ==
      a + IntToString(n - 1) + b + tahun + c
  {
    ParseIntIntToString(n);
    assert PreviousNumber(IntToString(n)) == Int(n - 1);
    IntTextNoDollar(n - 1);
    IntTextNoBracket(n - 1);
    FillParts(a, b, c, IntToString(n - 1), tahun);
  }

  /** The two replacements on a template whose placeholders are found
      first, for any replacement texts without `$`. */
  lemma FillParts(a: string, b: string, c: string, bil: string, tahun: string)
    requires '[' !in a && '[' !in b && '[' !in bil && NoDollar(bil) && NoDollar(tahun)
    ensures ReplaceFirst(ReplaceFirst(a + "[bil]" + b + "[tahun]" + c, "[bil]", bil), "[tahun]", tahun) ==
      a + bil + b + tahun + c
  {
    assert a + "[bil]" + b + "[tahun]" + c == a + "[bil]" + (b + "[tahun]" + c);
    ReplaceFirstPlain(a, "[bil]", b + "[tahun]" + c, bil);
    assert a + bil + (b + "[tahun]" + c) == (a + bil + b) + "[tahun]" + c;
    ReplaceFirstPlain(a + bil + b, "[tahun]", c, tahun);
    assert (a + bil + b) + tahun + c == a + bil + b + tahun + c;
  }

  /** A meeting number that is not a number leaves `NaN` in the text. */
  lemma FillTemplateNaN(a: string, b: string, bilangan: string)
    requires '[' !in a && ParseInt(bilangan).NaN?
    ensures ReplaceFirst(a + "[bil]" + b, "[bil]", NumToString(PreviousNumber(bilangan))) == a + "NaN" + b
  {
    assert NoDollar("NaN");
    ReplaceFirstPlain(a, "[bil]", b, "NaN");
  }

  lemma IntTextNoDollar(i: int)
    ensures NoDollar(IntToString(i))
  {
    var d := NatToString(if i < 0 then -i else i);
    DigitsExclude(d, '$');
  }

  lemma IntTextNoBracket(i: int)
    ensures '[' !in IntToString(i)
  {
    var d := NatToString(if i < 0 then -i else i);
    DigitsExclude(d, '[');
  }

  // ---------------------------------------------------------------- populating from the settings

  /** A signature filled from an optional member: the member's name (or
      `fallbackName`), its position as the first title line (or the old
      one), and the other lines cleared. */
  function FillSignature(sig: Signature, m: Option<Member>, fallbackName: string): (r: Signature)
    ensures r.title2 == "" && r.title3 == ""
    ensures m.Some? && m.value.nama != "" ==> r.name == m.value.nama
    ensures m.Some? && m.value.nama == "" ==> r.name == fallbackName
    ensures m.Some? && m.value.jawatan != "" ==> r.title1 == m.value.jawatan
    ensures m.Some? && m.value.jawatan == "" ==> r.title1 == sig.title1
    ensures m.None? ==> r.name == fallbackName && r.title1 == sig.title1
  {
    Signature(
      if m.Some? && m.value.nama != "" then m.value.nama else fallbackName,
      if m.Some? && m.value.jawatan != "" then m.value.jawatan else sig.title1,
      "", "")
  }

  /** The one-off fill from the settings once members exist: every member
      attends and is ticked, and the three signatures take the user, the
      first "ketua panitia" and the first "guru besar" member. */
  function PopulateFromSettings(f: Form, st: ProfileSettings): (r: Form)
    ensures st.members == [] ==> r == f
    ensures st.members != [] ==>
      |r.data.ahli| == |st.members| && |r.selected| == |st.members| &&
      (forall i :: 0 <= i < |st.members| ==> r.data.ahli[i] == AhliOf(st.members[i]) && r.selected[i] == st.members[i].id)
    ensures st.members != [] ==>
      r.data == f.data.(ahli := r.data.ahli, setiausaha := r.data.setiausaha,
        ketuaPanitia := r.data.ketuaPanitia, guruBesar := r.data.guruBesar)
  {
    if st.members == [] then f
    else
      var ms := st.members;
      var d := f.data;
      var d' := d.(
        ahli := seq(|ms|, i requires 0 <= i < |ms| => AhliOf(ms[i])),
        setiausaha := FillSignature(d.setiausaha, UserMember(ms, st.userMemberId), ""),
        ketuaPanitia := FillSignature(d.ketuaPanitia, MemberWithRole(ms, "ketua panitia"), ""),
        guruBesar := FillSignature(d.guruBesar, MemberWithRole(ms, "guru besar"), d.guruBesar.name));
      Form(d', seq(|ms|, i requires 0 <= i < |ms| => ms[i].id))
  }

  /** After the fill, unticking a member drops exactly its attendance
      entries (and ticking it again puts one back at the end). */
  lemma PopulatedToggle(f: Form, st: ProfileSettings, id: string)
    requires st.members != [] && MemberIndex(st.members, id) >= 0
    ensures var g := PopulateFromSettings(f, st);
      id in g.selected &&
      ToggleMember(g, st.members, id).data.ahli == Filter(g.data.ahli, NotAhliId(id))
  {
    var g := PopulateFromSettings(f, st);
    var k := MemberIndex(st.members, id);
    assert g.selected[k] == id;
  }
}
