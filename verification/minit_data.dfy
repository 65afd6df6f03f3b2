/** The meeting-minutes record the form edits and the generator renders. */
module MinitData {
  import opened SectionNumbering

  /** One attendee of the meeting. */
  datatype Ahli = Ahli(id: string, nama: string, jawatan: string, isCustom: bool)

  /** A signature block: a name and up to three title lines. */
  datatype Signature = Signature(name: string, title1: string, title2: string, title3: string)

  /** Confirmation of the previous meeting's minutes. */
  datatype MinitLalu = MinitLalu(dibentang: string, dicadangkan: string, disokong: string)

  /** One agenda item; `butiran` are its numbered sub-items. */
  datatype AgendaItem = AgendaItem(
    id: string,
    perkara: string,
    butiran: seq<string>,
    tindakan: string,
    included: bool)

  /** The editable titles of the six optional sections ("" for none). */
  datatype SectionTitles = SectionTitles(
    ucapanPengerusi: string,
    ucapanPenasihat: string,
    minitLalu: string,
    perkaraBerbangkit: string,
    halHalLain: string,
    ucapanPenangguhan: string)

  /** The minutes form's state. */
  datatype Minit = Minit(
    bilangan: string,
    tahun: string,
    tarikh: string,
    hari: string,
    masa: string,
    tempat: string,
    panitia: string,
    kehadiran: int,
    ahli: seq<Ahli>,
    ucapanPengerusi: seq<string>,
    ucapanPenasihat: seq<string>,
    minitLalu: MinitLalu,
    perkaraBerbangkit: seq<string>,
    agendaItems: seq<AgendaItem>,
    halHalLain: seq<string>,
    ucapanPenangguhan: seq<string>,
    setiausaha: Signature,
    ketuaPanitia: Signature,
    guruBesar: Signature,
    sections: Sections,
    sectionTitles: SectionTitles)

  const DibentangTemplate := "Minit mesyuarat Panitia bil [bil]/[tahun] telah dibentangkan oleh setiausaha dan disahkan."
  const PenangguhanDefault := "Mesyuarat diakhiri dengan bacaan surah Al Asr dan Tasbih Kaffarah"

  /** A fresh agenda item: empty, one empty sub-item, included. */
  function NewAgendaItem(id: string): (r: AgendaItem)
    ensures r.id == id && r.included && r.butiran == [""]
    ensures r.perkara == "" && r.tindakan == ""
  {
    AgendaItem(id, "", [""], "", true)
  }

  /** The form's initial state; the year, the profile name and the first
      agenda id come from outside. */
  function InitialMinit(tahun: string, profileName: string, agendaId: string): (r: Minit)
    ensures |r.agendaItems| == 1 && r.agendaItems[0] == NewAgendaItem(agendaId)
    ensures r.sections == Sections(true, true, true, true, true, true)
    ensures r.panitia == (if profileName != "" then profileName else "Organisasi")
    ensures r.ahli == [] && r.tarikh == "" && r.masa == "" && r.bilangan == "1"
  {
    Minit(
      "1", tahun, "", "", "", "Bilik j-QAF",
      if profileName != "" then profileName else "Organisasi",
      0, [], [""], [""],
      MinitLalu(DibentangTemplate, "", ""),
      ["Tiada"],
      [NewAgendaItem(agendaId)],
      [""],
      [PenangguhanDefault],
      Signature("", "Setiausaha Panitia", "", ""),
      Signature("", "Ketua Panitia", "", ""),
      Signature("GURU BESAR", "", "", ""),
      Sections(true, true, true, true, true, true),
      SectionTitles(
        "Ucapan Pengerusi / Ketua Panitia",
        "Ucapan Penasihat",
        "Membentangkan dan Mengesahkan Minit Mesyuarat Yang Lalu",
        "Perkara Berbangkit",
        "Hal-hal Lain",
        "Ucapan Penangguhan"))
  }
}
