/** The profile store behind the settings context: a list of profiles, the
    id of the current one, and the operations that edit them. Every
    operation is a function from store to store; ids and timestamps come
    from outside. */
module Settings {
  import opened Wrappers
  import opened Seqs
  import opened JsText

  datatype Member = Member(id: string, nama: string, jawatan: string)

  /** The form section a piece of frequent content is offered for. */
  datatype Category = PengerusiContent | MinitLaluContent | PenangguhanContent

  datatype FrequentContent = FrequentContent(id: string, name: string, category: Category, content: string)

  datatype Font = Calibri | Times | Poppins

  datatype ProfileType = School | Society

  datatype ProfileSettings = ProfileSettings(
    schoolName: string,
    schoolCode: string,
    schoolAddress: string,
    font: Font,
    members: seq<Member>,
    userMemberId: Option<string>,
    logo1: Option<string>,
    logo2: Option<string>,
    setiausahaSignature: Option<string>,
    ketuaPanitiaSignature: Option<string>,
    frequentContent: seq<FrequentContent>)

  datatype Profile = Profile(
    id: string,
    name: string,
    kind: ProfileType,
    createdAt: string,
    updatedAt: string,
    settings: ProfileSettings)

  /** All profiles and the id of the current one (`null` as `None`). */
  datatype Store = Store(profiles: seq<Profile>, currentId: Option<string>)

  // ---------------------------------------------------------------- defaults

  const DefaultMembers: seq<Member> := [
    Member("1", "Megat Nor Shahfiee bin Megat Hussin", "Guru Besar"),
    Member("2", "Nor Laili binti Razali", "PK Pentadbiran"),
    Member("3", "Roslawati binti Ismail", "PK HEM"),
    Member("4", "Muhamad Nor bin Samsudin", "PK Kokurikulum"),
    Member("5", "Kharidah Bahiah binti Sarkawi", "Penyelaras PPKI"),
    Member("6", "Norhayu binti Rasid", "Ketua Panitia Bahasa Arab"),
    Member("7", "Nurul Athifah binti Azammudin", "Setiausaha Panitia Bahasa Arab"),
    Member("8", "Afifah binti Ramli", "Bendahari Panitia Bahasa Arab"),
    Member("9", "Mohamad Ridhuan bin Hasan", "GBA/GPI"),
    Member("10", "Ifa Yusnani binti Ismail", "GBA/GPI"),
    Member("11", "Khadijah binti Ibrahim", "GBA/GPI"),
    Member("12", "Nur Amal 'Adilah binti Mohd Yusoff", "GBA/GPI"),
    Member("13", "Zaiton binti Ahmad", "GBA/GPI")]

  const DefaultFrequentContent: seq<FrequentContent> := [
    FrequentContent("1", "Bacaan Al-Fatihah", PengerusiContent,
      "Pengerusi memulakan mesyuarat dengan meminta semua hadirin membaca surah Al-Fatihah."),
    FrequentContent("2", "Ucapan Alu-aluan", PengerusiContent,
      "Pengerusi mengucapkan terima kasih kepada semua ahli Panitia yang hadir dan berharap mesyuarat berjalan dengan lancar."),
    FrequentContent("3", "Halatuju Panitia", PengerusiContent,
      "Pengerusi merangkumi halatuju Panitia Bahasa Arab untuk tahun semasa dan menekankan kepentingan kerjasama semua pihak."),
    FrequentContent("4", "Minit Lalu Standard", MinitLaluContent,
      "Minit mesyuarat Panitia Bahasa Arab bil [bil]/[tahun] telah dibentangkan oleh setiausaha dan disahkan tanpa pembetulan."),
    FrequentContent("5", "Penangguhan Standard", PenangguhanContent,
      "Mesyuarat ditangguhkan pada tarikh yang akan ditentukan kelak. Mesyuarat diakhiri dengan bacaan surah Al-Asr dan tasbih kaffarah."),
    FrequentContent("6", "Penangguhan dengan Doa", PenangguhanContent,
      "Mesyuarat diakhiri dengan doa penutup oleh Pengerusi dan selawat ke atas Nabi Muhammad SAW.")]

  const DefaultSettings := ProfileSettings(
    "SEKOLAH KEBANGSAAN AYER TAWAR", "ABA 1006", "32400 AYER TAWAR, PERAK", Calibri,
    DefaultMembers, Some("7"), None, None, None, None, DefaultFrequentContent)

  /** The profile a fresh store starts with. */
  function DefaultProfile(now: string): Profile {
    Profile("default", "Panitia Bahasa Arab", Society, now, now, DefaultSettings)
  }

  function InitialStore(now: string): (r: Store)
    ensures |r.profiles| == 1 && r.currentId == Some(r.profiles[0].id)
  {
    Store([DefaultProfile(now)], Some("default"))
  }

  // ---------------------------------------------------------------- partial updates

  /** A `Partial<ProfileSettings>`: an absent field is left alone. A nullable
      field takes `Some(None)` to be cleared. */
  datatype SettingsUpdate = SettingsUpdate(
    schoolName: Option<string>,
    schoolCode: Option<string>,
    schoolAddress: Option<string>,
    font: Option<Font>,
    members: Option<seq<Member>>,
    userMemberId: Option<Option<string>>,
    logo1: Option<Option<string>>,
    logo2: Option<Option<string>>,
    setiausahaSignature: Option<Option<string>>,
    ketuaPanitiaSignature: Option<Option<string>>,
    frequentContent: Option<seq<FrequentContent>>)

  const NoUpdate := SettingsUpdate(None, None, None, None, None, None, None, None, None, None, None)

  /** The update that writes every field of `t`. */
  function FullUpdate(t: ProfileSettings): SettingsUpdate {
    SettingsUpdate(Some(t.schoolName), Some(t.schoolCode), Some(t.schoolAddress), Some(t.font),
      Some(t.members), Some(t.userMemberId), Some(t.logo1), Some(t.logo2),
      Some(t.setiausahaSignature), Some(t.ketuaPanitiaSignature), Some(t.frequentContent))
  }

  function MembersUpdate(ms: seq<Member>): SettingsUpdate {
    NoUpdate.(members := Some(ms))
  }

  function ContentUpdate(cs: seq<FrequentContent>): SettingsUpdate {
    NoUpdate.(frequentContent := Some(cs))
  }

  /** `{ ...s, ...u }`. */
  function Merge(s: ProfileSettings, u: SettingsUpdate): ProfileSettings {
    ProfileSettings(
      u.schoolName.GetOr(s.schoolName),
      u.schoolCode.GetOr(s.schoolCode),
      u.schoolAddress.GetOr(s.schoolAddress),
      u.font.GetOr(s.font),
      u.members.GetOr(s.members),
      u.userMemberId.GetOr(s.userMemberId),
      u.logo1.GetOr(s.logo1),
      u.logo2.GetOr(s.logo2),
      u.setiausahaSignature.GetOr(s.setiausahaSignature),
      u.ketuaPanitiaSignature.GetOr(s.ketuaPanitiaSignature),
      u.frequentContent.GetOr(s.frequentContent))
  }

  /** The empty update changes nothing, a full update replaces everything,
      and merging the same update twice is merging it once. */
  lemma MergeLaws(s: ProfileSettings, t: ProfileSettings, u: SettingsUpdate)
    ensures Merge(s, NoUpdate) == s
    ensures Merge(s, FullUpdate(t)) == t
    ensures Merge(Merge(s, u), u) == Merge(s, u)
  {
  }

  /** A members-only update replaces the members and keeps every other
      field. */
  lemma MergeMembers(s: ProfileSettings, ms: seq<Member>)
    ensures Merge(s, MembersUpdate(ms)) == s.(members := ms)
  {
  }

  lemma MergeContent(s: ProfileSettings, cs: seq<FrequentContent>)
    ensures Merge(s, ContentUpdate(cs)) == s.(frequentContent := cs)
  {
  }

  // ---------------------------------------------------------------- the current profile

  /** The index of the first profile whose id is `cur`, or -1 (`null` never
      matches a string id). */
  function IndexOfId(ps: seq<Profile>, cur: Option<string>): (r: int)
    ensures -1 <= r < |ps|
    ensures r >= 0 ==> cur == Some(ps[r].id)
    ensures r < 0 <==> forall i :: 0 <= i < |ps| ==> cur != Some(ps[i].id)
    ensures r >= 0 ==> forall i :: 0 <= i < r ==> cur != Some(ps[i].id)
    decreases |ps|
  {
    if ps == [] then -1
    else if cur == Some(ps[0].id) then 0
    else
      var j := IndexOfId(ps[1..], cur);
      if j < 0 then -1
      else
        assert forall i :: 1 <= i < j + 1 ==> ps[i] == ps[1..][i - 1];
        j + 1
  }

  /** `profiles.find(p => p.id === currentProfileId) || profiles[0]`. */
  function CurrentProfile(s: Store): (r: Option<Profile>)
    ensures r.None? <==> s.profiles == []
    ensures r.Some? ==> r.value in s.profiles
    ensures IndexOfId(s.profiles, s.currentId) >= 0 ==> r.Some? && s.currentId == Some(r.value.id)
    ensures s.profiles != [] && IndexOfId(s.profiles, s.currentId) < 0 ==> r == Some(s.profiles[0])
    ensures IndexOfId(s.profiles, s.currentId) >= 0 ==> r == Some(s.profiles[IndexOfId(s.profiles, s.currentId)])
  {
    if s.profiles == [] then None
    else
      var k := IndexOfId(s.profiles, s.currentId);
      Some(if k >= 0 then s.profiles[k] else s.profiles[0])
  }

  /** `currentProfile?.settings || defaultSettings`. */
  function CurrentSettings(s: Store): (r: ProfileSettings)
    ensures s.profiles == [] ==> r == DefaultSettings
    ensures s.profiles != [] ==> r == CurrentProfile(s).value.settings
  {
    match CurrentProfile(s)
    case None => DefaultSettings
    case Some(p) => p.settings
  }

  /** The current id names a profile of the store. */
  predicate Resolved(s: Store) {
    IndexOfId(s.profiles, s.currentId) >= 0
  }

  /** The ids of the profiles, in order. */
  function Ids(ps: seq<Profile>): (r: seq<string>)
    ensures |r| == |ps| && forall i :: 0 <= i < |ps| ==> r[i] == ps[i].id
  {
    seq(|ps|, i requires 0 <= i < |ps| => ps[i].id)
  }

  /** Lists with the same ids resolve the same id to the same index. */
  lemma {:induction false} IndexOfSameIds(ps: seq<Profile>, qs: seq<Profile>, cur: Option<string>)
    requires Ids(ps) == Ids(qs)
    ensures IndexOfId(ps, cur) == IndexOfId(qs, cur)
    decreases |ps|
  {
    assert |ps| == |Ids(ps)| == |qs|;
    if ps != [] {
      assert ps[0].id == Ids(ps)[0] == qs[0].id;
      assert Ids(ps[1..]) == Ids(qs[1..]) by {
        forall i | 0 <= i < |ps| - 1 ensures Ids(ps[1..])[i] == Ids(qs[1..])[i] {
          assert Ids(ps)[i + 1] == Ids(qs)[i + 1];
        }
      }
      IndexOfSameIds(ps[1..], qs[1..], cur);
    }
  }

  /** Appending a profile keeps the index of an id that was found, and finds
      the new one when the id was not there. */
  lemma {:induction false} IndexOfAppend(ps: seq<Profile>, p: Profile, cur: Option<string>)
    ensures IndexOfId(ps, cur) >= 0 ==> IndexOfId(ps + [p], cur) == IndexOfId(ps, cur)
    ensures IndexOfId(ps, cur) < 0 ==> IndexOfId(ps + [p], cur) == (if cur == Some(p.id) then |ps| else -1)
    decreases |ps|
  {
    if ps == [] {
      assert ps + [p] == [p];
    } else {
      assert (ps + [p])[1..] == ps[1..] + [p];
      IndexOfAppend(ps[1..], p, cur);
    }
  }

  // ---------------------------------------------------------------- updateSettings

  /** The current profile with the update merged in and a new timestamp. */
  function Touched(p: Profile, u: SettingsUpdate, now: string): Profile {
    p.(settings := Merge(p.settings, u), updatedAt := now)
  }

  /** `updateSettings`: merges `u` into the settings of every profile whose
      id is the current id; the others are unchanged. */
  function UpdateSettings(s: Store, u: SettingsUpdate, now: string): (r: Store)
    ensures r.currentId == s.currentId && Ids(r.profiles) == Ids(s.profiles)
    ensures forall i :: 0 <= i < |s.profiles| && s.currentId != Some(s.profiles[i].id) ==>
      r.profiles[i] == s.profiles[i]
    ensures forall i :: 0 <= i < |s.profiles| && s.currentId == Some(s.profiles[i].id) ==>
      r.profiles[i].settings == Merge(s.profiles[i].settings, u) && r.profiles[i].updatedAt == now &&
      r.profiles[i].name == s.profiles[i].name && r.profiles[i].kind == s.profiles[i].kind &&
      r.profiles[i].createdAt == s.profiles[i].createdAt
  {
    var cur := s.currentId;
    s.(profiles := MapWhere(s.profiles, (p: Profile) => cur == Some(p.id), (p: Profile) => Touched(p, u, now)))
  }

  /** On a resolved store the update lands on exactly the settings the app
      shows: the shown settings after the update are the merge of the shown
      settings before it. */
  lemma UpdateShownSettings(s: Store, u: SettingsUpdate, now: string)
    requires Resolved(s)
    ensures Resolved(UpdateSettings(s, u, now))
    ensures CurrentSettings(UpdateSettings(s, u, now)) == Merge(CurrentSettings(s), u)
  {
    var r := UpdateSettings(s, u, now);
    var k := IndexOfId(s.profiles, s.currentId);
    IndexOfSameIds(r.profiles, s.profiles, s.currentId);
    assert CurrentProfile(s) == Some(s.profiles[k]);
    assert CurrentProfile(r) == Some(r.profiles[k]);
    assert r.profiles[k].settings == Merge(s.profiles[k].settings, u);
  }

  /** An unresolved store (the current id names no profile) is not changed
      by `updateSettings` at all. */
  lemma UpdateUnresolved(s: Store, u: SettingsUpdate, now: string)
    requires !Resolved(s)
    ensures UpdateSettings(s, u, now) == s
  {
    var r := UpdateSettings(s, u, now);
    assert r.profiles == s.profiles;
  }

  // ---------------------------------------------------------------- profiles

  /** `switchProfile`. */
  function SwitchProfile(s: Store, id: string): (r: Store)
    ensures r.profiles == s.profiles && r.currentId == Some(id)
  {
    s.(currentId := Some(id))
  }

  /** Switching to an existing id makes that profile the current one. */
  lemma SwitchResolves(s: Store, id: string)
    requires id in Ids(s.profiles)
    ensures CurrentProfile(SwitchProfile(s, id)).Some? && CurrentProfile(SwitchProfile(s, id)).value.id == id
  {
    var k :| 0 <= k < |s.profiles| && Ids(s.profiles)[k] == id;
    assert Some(id) == Some(s.profiles[k].id);
  }

  /** The settings a new profile starts with: the defaults, with the school
      fields blanked for a school profile and copied from the shown settings
      for a society, the members copied only for a society, and the
      frequent content always copied. */
  function NewProfileSettings(base: ProfileSettings, kind: ProfileType): (r: ProfileSettings)
    ensures kind == School ==> r.schoolName == "" && r.schoolCode == "" && r.schoolAddress == "" && r.members == []
    ensures kind == Society ==>
      (r.schoolName == base.schoolName && r.schoolCode == base.schoolCode &&
       r.schoolAddress == base.schoolAddress && r.members == base.members)
    ensures r.frequentContent == base.frequentContent
    ensures r.(schoolName := DefaultSettings.schoolName, schoolCode := DefaultSettings.schoolCode,
      schoolAddress := DefaultSettings.schoolAddress, members := DefaultSettings.members,
      frequentContent := DefaultSettings.frequentContent) == DefaultSettings
  {
    DefaultSettings.(
      schoolName := if kind == School then "" else base.schoolName,
      schoolCode := if kind == School then "" else base.schoolCode,
      schoolAddress := if kind == School then "" else base.schoolAddress,
      members := if kind == Society then base.members else [],
      frequentContent := base.frequentContent)
  }

  /** `createProfile`: appends one profile and makes it current; returns its
      id. */
  function CreateProfile(s: Store, name: string, kind: ProfileType, id: string, now: string): (r: (Store, string))
    ensures r.1 == id && r.0.currentId == Some(id)
    ensures |r.0.profiles| == |s.profiles| + 1 && r.0.profiles[..|s.profiles|] == s.profiles
    ensures var p := r.0.profiles[|s.profiles|];
      p.id == id && p.name == name && p.kind == kind && p.createdAt == now && p.updatedAt == now &&
      p.settings == NewProfileSettings(CurrentSettings(s), kind)
  {
    var p := Profile(id, name, kind, now, now, NewProfileSettings(CurrentSettings(s), kind));
    assert (s.profiles + [p])[..|s.profiles|] == s.profiles;
    (Store(s.profiles + [p], Some(id)), id)
  }

  /** With a fresh id the created profile is the one the app then shows. */
  lemma CreateMakesCurrent(s: Store, name: string, kind: ProfileType, id: string, now: string)
    requires id !in Ids(s.profiles)
    ensures var r := CreateProfile(s, name, kind, id, now).0;
      CurrentProfile(r) == Some(r.profiles[|s.profiles|])
  {
    var r := CreateProfile(s, name, kind, id, now).0;
    var p := r.profiles[|s.profiles|];
    assert r.profiles == s.profiles + [p];
    assert IndexOfId(s.profiles, Some(id)) < 0 by {
      forall i | 0 <= i < |s.profiles| ensures Some(id) != Some(s.profiles[i].id) {
        assert Ids(s.profiles)[i] == s.profiles[i].id;
      }
    }
    IndexOfAppend(s.profiles, p, Some(id));
  }

  /** `updateProfile`: merges a new name and type into the matching
      profiles. */
  function UpdateProfile(s: Store, id: string, name: Option<string>, kind: Option<ProfileType>, now: string): (r: Store)
    ensures r.currentId == s.currentId && Ids(r.profiles) == Ids(s.profiles)
    ensures forall i :: 0 <= i < |s.profiles| && s.profiles[i].id != id ==> r.profiles[i] == s.profiles[i]
    ensures forall i :: 0 <= i < |s.profiles| && s.profiles[i].id == id ==>
      r.profiles[i] == s.profiles[i].(name := name.GetOr(s.profiles[i].name),
        kind := kind.GetOr(s.profiles[i].kind), updatedAt := now)
  {
    s.(profiles := MapWhere(s.profiles, (p: Profile) => p.id == id,
      (p: Profile) => p.(name := name.GetOr(p.name), kind := kind.GetOr(p.kind), updatedAt := now)))
  }

  function NotId(id: string): Profile -> bool {
    (p: Profile) => p.id != id
  }

  /** `deleteProfile`: refused while at most one profile exists; otherwise
      the profiles with that id go, and when the current one went the first
      remaining profile becomes current (`null` when its id is "", which the
      `|| null` of the source turns into null). */
  function DeleteProfile(s: Store, id: string): (r: Store)
    ensures |s.profiles| <= 1 ==> r == s
    ensures |s.profiles| > 1 ==> r.profiles == Filter(s.profiles, NotId(id))
    ensures |s.profiles| > 1 ==> forall p :: p in r.profiles <==> p in s.profiles && p.id != id
    ensures |s.profiles| > 1 && s.currentId != Some(id) ==> r.currentId == s.currentId
    ensures |s.profiles| > 1 && s.currentId == Some(id) ==>
      r.currentId == (if r.profiles != [] && r.profiles[0].id != "" then Some(r.profiles[0].id) else None)
  {
    if |s.profiles| <= 1 then s
    else
      var rest := Filter(s.profiles, NotId(id));
      DeleteMembership(s.profiles, id);
      var cur := if s.currentId == Some(id) then
        (if rest != [] && rest[0].id != "" then Some(rest[0].id) else None)
      else s.currentId;
      Store(rest, cur)
  }

  lemma DeleteMembership(ps: seq<Profile>, id: string)
    ensures forall p :: p in Filter(ps, NotId(id)) <==> p in ps && p.id != id
  {
    forall p ensures p in Filter(ps, NotId(id)) <==> p in ps && p.id != id {
      FilterMembership(ps, NotId(id), p);
    }
  }

  /** Deleting the current profile hands the store to the first remaining
      profile. */
  lemma DeleteCurrent(s: Store, id: string)
    requires |s.profiles| > 1 && s.currentId == Some(id)
    ensures var r := DeleteProfile(s, id);
      r.profiles != [] ==> CurrentProfile(r) == Some(r.profiles[0])
  {
    var r := DeleteProfile(s, id);
    if r.profiles != [] && r.profiles[0].id != "" {
      assert IndexOfId(r.profiles, r.currentId) == 0;
    }
  }

  /** Deleting another profile leaves the shown profile as it was. */
  lemma DeleteOther(s: Store, id: string)
    requires |s.profiles| > 1 && Resolved(s) && s.currentId != Some(id)
    ensures CurrentProfile(DeleteProfile(s, id)) == CurrentProfile(s)
  {
    IndexOfFilter(s.profiles, id, s.currentId);
  }

  /** Removing profiles of another id keeps the first profile with `cur`. */
  lemma {:induction false} IndexOfFilter(ps: seq<Profile>, id: string, cur: Option<string>)
    requires cur != Some(id) && IndexOfId(ps, cur) >= 0
    ensures var k := IndexOfId(Filter(ps, NotId(id)), cur);
      k >= 0 && Filter(ps, NotId(id))[k] == ps[IndexOfId(ps, cur)]
    decreases |ps|
  {
    if cur != Some(ps[0].id) {
      IndexOfFilter(ps[1..], id, cur);
    }
  }

  /** `duplicateProfile`: nothing happens and "" comes back for an unknown
      id; otherwise a copy of the first profile with the id, under the new id
      and name, is appended, and the current id is kept. */
  function DuplicateProfile(s: Store, id: string, newName: string, newId: string, now: string): (r: (Store, string))
    ensures (forall i :: 0 <= i < |s.profiles| ==> s.profiles[i].id != id) ==> r == (s, "")
    ensures (exists i :: 0 <= i < |s.profiles| && s.profiles[i].id == id) ==>
      r.1 == newId && r.0.currentId == s.currentId &&
      |r.0.profiles| == |s.profiles| + 1 && r.0.profiles[..|s.profiles|] == s.profiles &&
      var q := r.0.profiles[|s.profiles|];
      q.id == newId && q.name == newName && q.createdAt == now && q.updatedAt == now &&
      q.settings == s.profiles[IndexOfId(s.profiles, Some(id))].settings &&
      q.kind == s.profiles[IndexOfId(s.profiles, Some(id))].kind
  {
    var k := IndexOfId(s.profiles, Some(id));
    if k < 0 then (s, "")
    else
      var q := s.profiles[k].(id := newId, name := newName, createdAt := now, updatedAt := now);
      assert (s.profiles + [q])[..|s.profiles|] == s.profiles;
      (Store(s.profiles + [q], s.currentId), newId)
  }

  /** Duplicating leaves the shown profile as it was, unless the new id is
      the current id that named no profile before. */
  lemma DuplicateKeepsCurrent(s: Store, id: string, newName: string, newId: string, now: string)
    requires s.currentId != Some(newId)
    ensures CurrentProfile(DuplicateProfile(s, id, newName, newId, now).0) == CurrentProfile(s)
  {
    var r := DuplicateProfile(s, id, newName, newId, now).0;
    if r != s {
      var q := r.profiles[|s.profiles|];
      assert r.profiles == s.profiles + [q];
      IndexOfAppend(s.profiles, q, s.currentId);
    }
  }

  // ---------------------------------------------------------------- members and frequent content

  function HasMemberId(id: string): Member -> bool {
    (m: Member) => m.id == id
  }

  function NotMemberId(id: string): Member -> bool {
    (m: Member) => m.id != id
  }

  /** `addMember`: the shown members plus one with the fresh id. */
  function AddMember(s: Store, nama: string, jawatan: string, id: string, now: string): Store {
    UpdateSettings(s, MembersUpdate(CurrentSettings(s).members + [Member(id, nama, jawatan)]), now)
  }

  /** `updateMember`: merges the given fields into the members with the id. */
  function UpdateMember(s: Store, id: string, nama: Option<string>, jawatan: Option<string>, now: string): Store {
    var ms := MapWhere(CurrentSettings(s).members, HasMemberId(id),
      (m: Member) => m.(nama := nama.GetOr(m.nama), jawatan := jawatan.GetOr(m.jawatan)));
    UpdateSettings(s, MembersUpdate(ms), now)
  }

  /** `removeMember`. */
  function RemoveMember(s: Store, id: string, now: string): Store {
    UpdateSettings(s, MembersUpdate(Filter(CurrentSettings(s).members, NotMemberId(id))), now)
  }

  /** The members the app shows after an edit on a resolved store, and that
      nothing else in the shown settings changes. */
  lemma ShownMembers(s: Store, ms: seq<Member>, now: string)
    requires Resolved(s)
    ensures CurrentSettings(UpdateSettings(s, MembersUpdate(ms), now)) == CurrentSettings(s).(members := ms)
  {
    UpdateShownSettings(s, MembersUpdate(ms), now);
    MergeMembers(CurrentSettings(s), ms);
  }

  /** `addMember` appends exactly one member, with the fresh id. */
  lemma AddMemberAppends(s: Store, nama: string, jawatan: string, id: string, now: string)
    requires Resolved(s)
    ensures CurrentSettings(AddMember(s, nama, jawatan, id, now)).members ==
      CurrentSettings(s).members + [Member(id, nama, jawatan)]
  {
    ShownMembers(s, CurrentSettings(s).members + [Member(id, nama, jawatan)], now);
  }

  /** `updateMember` rewrites only the members with the id, and keeps their
      id. */
  lemma UpdateMemberOnly(s: Store, id: string, nama: Option<string>, jawatan: Option<string>, now: string)
    requires Resolved(s)
    ensures var before := CurrentSettings(s).members;
      var after := CurrentSettings(UpdateMember(s, id, nama, jawatan, now)).members;
      |after| == |before| &&
      (forall i :: 0 <= i < |before| && before[i].id != id ==> after[i] == before[i]) &&
      (forall i :: 0 <= i < |before| && before[i].id == id ==>
        after[i] == Member(id, nama.GetOr(before[i].nama), jawatan.GetOr(before[i].jawatan)))
  {
    var ms := MapWhere(CurrentSettings(s).members, HasMemberId(id),
      (m: Member) => m.(nama := nama.GetOr(m.nama), jawatan := jawatan.GetOr(m.jawatan)));
    ShownMembers(s, ms, now);
  }

  /** `removeMember` removes exactly the members with the id and keeps the
      others in order. */
  lemma RemoveMemberExactly(s: Store, id: string, now: string)
    requires Resolved(s)
    ensures var before := CurrentSettings(s).members;
      var after := CurrentSettings(RemoveMember(s, id, now)).members;
      (forall m :: m in after <==> m in before && m.id != id) &&
      after == Filter(before, NotMemberId(id))
  {
    var before := CurrentSettings(s).members;
    ShownMembers(s, Filter(before, NotMemberId(id)), now);
    forall m ensures m in Filter(before, NotMemberId(id)) <==> m in before && m.id != id {
      FilterMembership(before, NotMemberId(id), m);
    }
  }

  function HasContentId(id: string): FrequentContent -> bool {
    (c: FrequentContent) => c.id == id
  }

  function NotContentId(id: string): FrequentContent -> bool {
    (c: FrequentContent) => c.id != id
  }

  /** A `Partial<FrequentContent>` without the id. */
  datatype ContentChange = ContentChange(name: Option<string>, category: Option<Category>, content: Option<string>)

  function ApplyChange(c: FrequentContent, u: ContentChange): FrequentContent {
    c.(name := u.name.GetOr(c.name), category := u.category.GetOr(c.category), content := u.content.GetOr(c.content))
  }

  function AddFrequentContent(s: Store, name: string, category: Category, content: string, id: string, now: string): Store {
    UpdateSettings(s, ContentUpdate(CurrentSettings(s).frequentContent + [FrequentContent(id, name, category, content)]), now)
  }

  function UpdateFrequentContent(s: Store, id: string, u: ContentChange, now: string): Store {
    var cs := MapWhere(CurrentSettings(s).frequentContent, HasContentId(id), (c: FrequentContent) => ApplyChange(c, u));
    UpdateSettings(s, ContentUpdate(cs), now)
  }

  function RemoveFrequentContent(s: Store, id: string, now: string): Store {
    UpdateSettings(s, ContentUpdate(Filter(CurrentSettings(s).frequentContent, NotContentId(id))), now)
  }

  lemma ShownContent(s: Store, cs: seq<FrequentContent>, now: string)
    requires Resolved(s)
    ensures CurrentSettings(UpdateSettings(s, ContentUpdate(cs), now)) == CurrentSettings(s).(frequentContent := cs)
  {
    UpdateShownSettings(s, ContentUpdate(cs), now);
    MergeContent(CurrentSettings(s), cs);
  }

  /** `addFrequentContent` appends exactly one entry, with the fresh id. */
  lemma AddContentAppends(s: Store, name: string, category: Category, content: string, id: string, now: string)
    requires Resolved(s)
    ensures CurrentSettings(AddFrequentContent(s, name, category, content, id, now)).frequentContent ==
      CurrentSettings(s).frequentContent + [FrequentContent(id, name, category, content)]
  {
    ShownContent(s, CurrentSettings(s).frequentContent + [FrequentContent(id, name, category, content)], now);
  }

  /** `updateFrequentContent` merges the change into the entries with the id
      only. */
  lemma UpdateContentOnly(s: Store, id: string, u: ContentChange, now: string)
    requires Resolved(s)
    ensures var before := CurrentSettings(s).frequentContent;
      var after := CurrentSettings(UpdateFrequentContent(s, id, u, now)).frequentContent;
      |after| == |before| &&
      forall i :: 0 <= i < |before| ==> after[i] == (if before[i].id == id then ApplyChange(before[i], u) else before[i])
  {
    var before := CurrentSettings(s).frequentContent;
    ShownContent(s, MapWhere(before, HasContentId(id), (c: FrequentContent) => ApplyChange(c, u)), now);
  }

  /** `removeFrequentContent` removes exactly the entries with the id. */
  lemma RemoveContentExactly(s: Store, id: string, now: string)
    requires Resolved(s)
    ensures var before := CurrentSettings(s).frequentContent;
      forall c :: c in CurrentSettings(RemoveFrequentContent(s, id, now)).frequentContent <==> c in before && c.id != id
  {
    var before := CurrentSettings(s).frequentContent;
    ShownContent(s, Filter(before, NotContentId(id)), now);
    forall c ensures c in Filter(before, NotContentId(id)) <==> c in before && c.id != id {
      FilterMembership(before, NotContentId(id), c);
    }
  }

  /** `resetCurrentProfile`. */
  function ResetCurrentProfile(s: Store, now: string): Store {
    UpdateSettings(s, FullUpdate(DefaultSettings), now)
  }

  /** After a reset the app shows exactly the default settings. */
  lemma ResetShowsDefaults(s: Store, now: string)
    requires Resolved(s)
    ensures CurrentSettings(ResetCurrentProfile(s, now)) == DefaultSettings
  {
    UpdateShownSettings(s, FullUpdate(DefaultSettings), now);
    MergeLaws(CurrentSettings(s), DefaultSettings, NoUpdate);
  }

  // ---------------------------------------------------------------- member lookups

  /** The index of the first member with the id, or -1. */
  function MemberIndex(members: seq<Member>, id: string): (r: int)
    ensures -1 <= r < |members|
    ensures r >= 0 ==> members[r].id == id && forall i :: 0 <= i < r ==> members[i].id != id
    ensures r < 0 <==> forall i :: 0 <= i < |members| ==> members[i].id != id
    decreases |members|
  {
    if members == [] then -1
    else if members[0].id == id then 0
    else
      var j := MemberIndex(members[1..], id);
      if j < 0 then -1
      else
        assert members[j + 1] == members[1..][j];
        j + 1
  }

  function HasRole(role: string): Member -> bool {
    (m: Member) => Includes(ToLower(m.jawatan), role)
  }

  /** `members.find(m => m.jawatan.toLowerCase().includes(role))`: the
      first member whose position, lower-cased, contains `role`. */
  function MemberWithRole(members: seq<Member>, role: string): (r: Option<Member>)
    ensures r.Some? ==> r.value in members && Includes(ToLower(r.value.jawatan), role)
    ensures r.None? <==> forall i :: 0 <= i < |members| ==> !Includes(ToLower(members[i].jawatan), role)
    ensures forall k :: (0 <= k < |members| && Includes(ToLower(members[k].jawatan), role)
        && forall i :: 0 <= i < k ==> !Includes(ToLower(members[i].jawatan), role)) ==> r == Some(members[k])
  {
    var k := FindIndex(members, HasRole(role));
    if k < 0 then None else Some(members[k])
  }

  /** `members.find(m => m.id === userMemberId)`: the first member with the
      user's id, and nothing when no member has it or no id is set. */
  function UserMember(members: seq<Member>, userId: Option<string>): (r: Option<Member>)
    ensures r.Some? ==> r.value in members && userId == Some(r.value.id)
    ensures r.None? <==> forall i :: 0 <= i < |members| ==> userId != Some(members[i].id)
    ensures forall k :: (0 <= k < |members| && userId == Some(members[k].id)
        && forall i :: 0 <= i < k ==> userId != Some(members[i].id)) ==> r == Some(members[k])
  {
    if userId.None? then None
    else
      var k := MemberIndex(members, userId.value);
      if k < 0 then None else Some(members[k])
  }
}
