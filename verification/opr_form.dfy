/** The one-page report form: its defaults from the settings, the officer
    text box, the activity list and the photo upload rules. */
module OprForm {
  import opened Wrappers
  import opened Seqs
  import opened JsText
  import opened Settings

  /** The report form's data. */
  datatype OprFormData = OprFormData(
    namaProgram: string,
    tarikh: string,
    masa: string,
    tempat: string,
    kehadiranSasaran: string,
    isuMasalah: string,
    aktiviti: seq<string>,
    gambar: seq<string>,
    pegawaiTerlibat: seq<string>,
    namaPgb: string,
    disediakanOleh: string)

  /** The data and the raw text of the officer box. */
  datatype Form = Form(data: OprFormData, pegawaiInput: string)

  // ---------------------------------------------------------------- defaults

  predicate NotHead(m: Member) {
    !Includes(ToLower(m.jawatan), "guru besar")
  }

  /** The default officers: the members who are not the head teacher, at
      most ten, their names uppercased. */
  function DefaultMembers(members: seq<Member>): (r: seq<string>)
    ensures |r| <= 10 && |r| <= |members|
  {
    var ms := Take(Filter(members, NotHead), 10);
    seq(|ms|, i requires 0 <= i < |ms| => ToUpper(ms[i].nama))
  }

  /** The default officers are the first ten members who are not the head
      teacher (all of them when there are fewer), in order, uppercased. */
  lemma DefaultMembersFrom(members: seq<Member>)
    ensures |DefaultMembers(members)| ==
      if |Filter(members, NotHead)| <= 10 then |Filter(members, NotHead)| else 10
    ensures forall i :: 0 <= i < |DefaultMembers(members)| ==>
      i < |Filter(members, NotHead)| && DefaultMembers(members)[i] == ToUpper(Filter(members, NotHead)[i].nama)
    ensures forall i :: 0 <= i < |DefaultMembers(members)| ==>
      exists m :: m in members && NotHead(m) && DefaultMembers(members)[i] == ToUpper(m.nama)
    ensures |Filter(members, NotHead)| <= 10 ==>
      |DefaultMembers(members)| == |Filter(members, NotHead)| &&
      forall i :: 0 <= i < |DefaultMembers(members)| ==> DefaultMembers(members)[i] == ToUpper(Filter(members, NotHead)[i].nama)
  {
    var fs := Filter(members, NotHead);
    var ms := Take(fs, 10);
    var r := DefaultMembers(members);
    forall i | 0 <= i < |r|
      ensures exists m :: m in members && NotHead(m) && r[i] == ToUpper(m.nama)
    {
      assert ms[i] == fs[i];
      var m := fs[i];
      assert m in members && NotHead(m) && r[i] == ToUpper(m.nama);
    }
  }

  const DefaultKehadiran := "SEMUA MURID PERGERAKAN PUTERI ISLAM MALAYSIA (PPIM)\nSK AYER TAWAR"
  const DefaultIsu := "Berjalan seperti telah dirancang"
  const DefaultAktiviti: seq<string> := [
    "Guru-guru penasihat dan murid-murid berkumpul di surau dan mengambil kehadiran.",
    "Kata aluan daripada ketua guru penasihat.",
    "Nyanyian Asma Ul-Husna dan lagu PPIM.",
    "Perlantikan Jawatankuasa PPIM (murid).",
    "Perbincangan aktiviti tahunan.",
    "Hal-hal lain.",
    "Ucapan penutupan."]

  /** The preparer line: `NAME / POSITION` of the user's member, or "". */
  function PreparedByOf(user: Option<Member>): (r: string)
    ensures user.None? ==> r == ""
    ensures user.Some? ==> r == ToUpper(user.value.nama) + " / " + ToUpper(user.value.jawatan)
  {
    if user.Some? then ToUpper(user.value.nama) + " / " + ToUpper(user.value.jawatan) else ""
  }

  /** The form as it opens. */
  function DefaultForm(st: ProfileSettings): (r: Form)
    ensures r.data.gambar == [] && |r.data.aktiviti| == 7
    ensures r.data.pegawaiTerlibat == DefaultMembers(st.members)
    ensures r.pegawaiInput == Join(DefaultMembers(st.members), "\n")
  {
    var head := MemberWithRole(st.members, "guru besar");
    var officers := DefaultMembers(st.members);
    Form(OprFormData("", "", "", "", DefaultKehadiran, DefaultIsu, DefaultAktiviti, [],
      officers,
      if head.Some? then ToUpper(head.value.nama) else "",
      PreparedByOf(UserMember(st.members, st.userMemberId))),
      Join(officers, "\n"))
  }

  // ---------------------------------------------------------------- officers box

  predicate LineHasText(line: string) {
    Trim(line) != ""
  }

  /** `handlePegawaiChange`: keeps the text and takes its non-blank lines. */
  function HandlePegawaiChange(f: Form, text: string): (r: Form)
    ensures r.pegawaiInput == text
    ensures r.data == f.data.(pegawaiTerlibat := Filter(Split(text, '\n'), LineHasText))
    ensures forall i :: 0 <= i < |r.data.pegawaiTerlibat| ==> !AllSpace(r.data.pegawaiTerlibat[i])
  {
    var lines := Filter(Split(text, '\n'), LineHasText);
    forall i | 0 <= i < |lines| ensures !AllSpace(lines[i]) {
      TrimEmptyIffAllSpace(lines[i]);
    }
    Form(f.data.(pegawaiTerlibat := lines), text)
  }

  /** The opening text box and the opening officer list agree: re-reading
      the text gives the list back when every name has text and no line
      break. */
  lemma DefaultBoxAgrees(st: ProfileSettings)
    requires forall i :: 0 <= i < |DefaultMembers(st.members)| ==>
      '\n' !in DefaultMembers(st.members)[i] && !AllSpace(DefaultMembers(st.members)[i])
    ensures var f := DefaultForm(st);
      HandlePegawaiChange(f, f.pegawaiInput).data == f.data
  {
    var names := DefaultMembers(st.members);
    forall i | 0 <= i < |names| ensures LineHasText(names[i]) {
      TrimEmptyIffAllSpace(names[i]);
    }
    if names == [] {
      assert Join(names, "\n") == "";
      assert Split("", '\n') == [""];
      assert Filter([""], LineHasText) == [];
    } else {
      SplitJoin(names, '\n');
    }
  }

  // ---------------------------------------------------------------- activities

  /** `addAktiviti`. */
  function AddAktiviti(f: Form): (r: Form)
    ensures r == f.(data := f.data.(aktiviti := r.data.aktiviti))
    ensures |r.data.aktiviti| == |f.data.aktiviti| + 1 && r.data.aktiviti[|f.data.aktiviti|] == ""
    ensures r.data.aktiviti[..|f.data.aktiviti|] == f.data.aktiviti
  {
    f.(data := f.data.(aktiviti := f.data.aktiviti + [""]))
  }

  /** `removeAktiviti`: refused while one entry is left. */
  function RemoveAktiviti(f: Form, k: int): (r: Form)
    ensures r == f.(data := f.data.(aktiviti := r.data.aktiviti))
    ensures |f.data.aktiviti| <= 1 || !(0 <= k < |f.data.aktiviti|) ==> r == f
    ensures |f.data.aktiviti| > 1 && 0 <= k < |f.data.aktiviti| ==>
      (|r.data.aktiviti| == |f.data.aktiviti| - 1 &&
      (forall i :: 0 <= i < k ==> r.data.aktiviti[i] == f.data.aktiviti[i]) &&
      (forall i :: k <= i < |r.data.aktiviti| ==> r.data.aktiviti[i] == f.data.aktiviti[i + 1]))
    ensures |f.data.aktiviti| >= 1 ==> |r.data.aktiviti| >= 1
  {
    if |f.data.aktiviti| > 1 then f.(data := f.data.(aktiviti := RemoveAt(f.data.aktiviti, k))) else f
  }

  /** `updateAktiviti`. */
  function UpdateAktiviti(f: Form, k: int, v: string): (r: Form)
    ensures r == f.(data := f.data.(aktiviti := r.data.aktiviti))
    ensures |r.data.aktiviti| == |f.data.aktiviti|
    ensures forall i :: 0 <= i < |f.data.aktiviti| && i != k ==> r.data.aktiviti[i] == f.data.aktiviti[i]
    ensures 0 <= k < |f.data.aktiviti| ==> r.data.aktiviti[k] == v
  {
    f.(data := f.data.(aktiviti := UpdateAt(f.data.aktiviti, k, v)))
  }

  /** Adding an entry and deleting it again restores the form. */
  lemma AddThenRemoveAktiviti(f: Form)
    requires |f.data.aktiviti| >= 1
    ensures RemoveAktiviti(AddAktiviti(f), |f.data.aktiviti|) == f
  {
    var xs := f.data.aktiviti;
    assert (xs + [""])[..|xs|] == xs;
  }

  /** Writing an entry and then writing back its old text restores the
      form. */
  lemma UpdateAktivitiUndo(f: Form, k: int, v: string)
    requires 0 <= k < |f.data.aktiviti|
    ensures UpdateAktiviti(UpdateAktiviti(f, k, v), k, f.data.aktiviti[k]) == f
  {
    var r := UpdateAktiviti(UpdateAktiviti(f, k, v), k, f.data.aktiviti[k]);
    assert r.data.aktiviti == f.data.aktiviti;
  }

  // ---------------------------------------------------------------- photos

  /** A chosen file: its name, MIME type, size in bytes and the data URL it
      reads as. */
  datatype Upload = Upload(name: string, mime: string, size: int, dataUrl: string)

  const AllowedTypes: seq<string> := ["image/jpeg", "image/jpg", "image/png", "image/webp", "image/heic", "image/heif"]
  const MaxImages := 8
  const MaxSizeBytes := 5 * 1024 * 1024

  predicate Admissible(u: Upload) {
    u.mime in AllowedTypes && u.size <= MaxSizeBytes
  }

  /** What the upload reports to the user. */
  datatype Notice = Full | Unsupported(file: string) | TooLarge(file: string) | Uploaded(count: nat)

  /** The rejection notice of one considered file. */
  function Rejection(u: Upload): (r: seq<Notice>)
    ensures Admissible(u) <==> r == []
  {
    if u.mime !in AllowedTypes then [Unsupported(u.name)]
    else if u.size > MaxSizeBytes then [TooLarge(u.name)]
    else []
  }

  function Rejections(files: seq<Upload>): (r: seq<Notice>)
    ensures |r| == |files| - |Filter(files, Admissible)|
    decreases |files|
  {
    if files == [] then [] else Rejection(files[0]) + Rejections(files[1..])
  }

  function DataUrls(files: seq<Upload>): (r: seq<string>)
    ensures |r| == |files| && forall i :: 0 <= i < |files| ==> r[i] == files[i].dataUrl
  {
    seq(|files|, i requires 0 <= i < |files| => files[i].dataUrl)
  }

  /** The files looked at: as many as there are free slots. */
  function Considered(f: Form, files: seq<Upload>): (r: seq<Upload>)
    requires |f.data.gambar| < MaxImages
    ensures |r| <= MaxImages - |f.data.gambar| && r <= files
  {
    Take(files, MaxImages - |f.data.gambar|)
  }

  /** `handleImageUpload`, with each file read successfully: nothing when no
      file was chosen; a `Full` notice when eight photos are attached;
      otherwise only as many files as there are free slots are considered,
      each is admitted when its type is allowed and it is at most 5 MiB, and
      the admitted ones are appended in order. */
  function HandleImageUpload(f: Form, files: seq<Upload>): (r: (Form, seq<Notice>))
    ensures files == [] ==> r == (f, [])
    ensures files != [] && |f.data.gambar| >= MaxImages ==> r == (f, [Full])
    ensures files != [] && |f.data.gambar| < MaxImages ==>
      r.0 == f.(data := f.data.(gambar := f.data.gambar + DataUrls(Filter(Considered(f, files), Admissible))))
    ensures files != [] && |f.data.gambar| < MaxImages ==>
      var n := |Filter(Considered(f, files), Admissible)|;
      r.1 == Rejections(Considered(f, files)) + (if n == 0 then [] else [Uploaded(n)])
  {
    if files == [] then (f, [])
    else if |f.data.gambar| >= MaxImages then (f, [Full])
    else
      var considered := Considered(f, files);
      var admitted := Filter(considered, Admissible);
      var errors := Rejections(considered);
      if admitted == [] then (f, errors)
      else (f.(data := f.data.(gambar := f.data.gambar + DataUrls(admitted))), errors + [Uploaded(|admitted|)])
  }

  /** The photo is the data URL of an admissible chosen file. */
  predicate ReadFrom(photo: string, files: seq<Upload>) {
    exists u :: u in files && Admissible(u) && photo == u.dataUrl
  }

  /** An upload never takes the photos past eight, never drops or reorders
      the attached ones, and adds only admissible files. */
  lemma UploadBounded(f: Form, files: seq<Upload>)
    ensures f.data.gambar <= HandleImageUpload(f, files).0.data.gambar
    ensures |f.data.gambar| <= MaxImages ==> |HandleImageUpload(f, files).0.data.gambar| <= MaxImages
    ensures var g := HandleImageUpload(f, files).0.data.gambar;
      forall i :: |f.data.gambar| <= i < |g| ==> ReadFrom(g[i], files)
  {
    var g := HandleImageUpload(f, files).0.data.gambar;
    if files != [] && |f.data.gambar| < MaxImages {
      var considered := Considered(f, files);
      var admitted := Filter(considered, Admissible);
      assert g == f.data.gambar + DataUrls(admitted);
      forall i | |f.data.gambar| <= i < |g|
        ensures ReadFrom(g[i], files)
      {
        var u := admitted[i - |f.data.gambar|];
        assert u in considered;
        assert u in files by {
          var j :| 0 <= j < |considered| && considered[j] == u;
          assert files[j] == u;
        }
        assert Admissible(u);
        assert g[i] == u.dataUrl by {
          assert g[i] == DataUrls(admitted)[i - |f.data.gambar|];
        }
      }
    }
  }

  /** Every considered file that is admissible is added, and every one that
      is not is reported. */
  lemma {:induction false} UploadAdmitsAll(files: seq<Upload>, u: Upload)
    ensures u in files && Admissible(u) <==> u in Filter(files, Admissible)
    ensures u in files && !Admissible(u) ==> Rejection(u)[0] in Rejections(files)
    decreases |files|
  {
    FilterMembership(files, Admissible, u);
    if files != [] && u in files && !Admissible(u) {
      if files[0] != u {
        assert u in files[1..];
        UploadAdmitsAll(files[1..], u);
      }
    }
  }

  /** `removeImage`: drops exactly photo `k`. */
  function RemoveImage(f: Form, k: int): (r: Form)
    ensures r == f.(data := f.data.(gambar := r.data.gambar))
    ensures !(0 <= k < |f.data.gambar|) ==> r == f
    ensures 0 <= k < |f.data.gambar| ==> (|r.data.gambar| == |f.data.gambar| - 1 &&
      (forall i :: 0 <= i < k ==> r.data.gambar[i] == f.data.gambar[i]) &&
      (forall i :: k <= i < |r.data.gambar| ==> r.data.gambar[i] == f.data.gambar[i + 1]))
  {
    f.(data := f.data.(gambar := RemoveAt(f.data.gambar, k)))
  }

  /** After removing a photo from a full gallery an upload can add one
      again. */
  lemma RemoveFreesSlot(f: Form, k: int, u: Upload)
    requires |f.data.gambar| == MaxImages && 0 <= k < MaxImages && Admissible(u)
    ensures HandleImageUpload(RemoveImage(f, k), [u]).0.data.gambar == RemoveImage(f, k).data.gambar + [u.dataUrl]
  {
    var g := RemoveImage(f, k);
    assert Take([u], MaxImages - |g.data.gambar|) == [u];
    assert Filter([u], Admissible) == [u];
  }
}
