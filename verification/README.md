# programkoku: a Dafny model of the document generator's core

programkoku is a browser app that fills in two school documents. One is the
meeting minutes ("Minit Mesyuarat"), exported as DOCX or PDF. The other is
the One Page Report ("OPR"), exported as an image or printed to PDF. This
project models the logic behind both documents as pure Dafny functions over
immutable data, and proves what that logic promises:

- **Section numbering** of the minutes (`getSectionNumbers`, in both copies).
  The form preview's agenda numbers are covered too.
- **Minutes content**: the lines the DOCX and PDF generators emit, in order.
  This covers section headings, sub-items, "Tindakan" lines, the attendance
  list and count, and the signature names.
- **Text formatters**: the Malay date, the 12-hour time with its Malay suffix
  (in the generator's copy and the form's copy), the ISO date parser, the
  Malay weekday, the report year, HTML escaping and `sanitizeText`.
- **OPR selection**: the density preset, the image cap, the gallery layout
  and no-images fallback, the officer and activity lists, the
  date/time/weekday line and the header fields with their fallbacks.
  `getImageFrameLayoutForCount` (document-generator.ts:833-848) is modelled
  too, though nothing in the source calls it, so its frame table shapes no
  export.
- **Form and profile state**: the minutes form's reducers and the OPR
  form's handlers. Profile and settings changes go through the settings
  context.
- **Photo upload admission**: free slots, allowed types and the 5 MB limit.
- **Export**: the guards before an export, the progress states an export
  passes through, and the file names.

Module layout:

- `wrappers.dfy`, `seqs.dfy` and `js_text.dfy` hold `Option` and the
  JavaScript array, string and number operations the source relies on.
- `calendar.dfy`, `time_format.dfy` and `html_escape.dfy` hold the formatters.
- `section_numbering.dfy`, `minit_data.dfy`, `minit_render.dfy` and
  `minit_properties.dfy` hold the minutes.
- `opr_render.dfy` and `frame_layout.dfy` hold the report.
- `settings.dfy`, `minit_form.dfy`, `opr_form.dfy` and `export.dfy` hold the
  application state.

The document generator repeats several helpers of the report template
(document-generator.ts:763-848), but every report export renders through
the template's `getOprHtmlParts` (document-generator.ts:875, 946), so the
generator's own `formatOprDateTimeDay` is never called. The copies are
handled as follows:

- `parseIsoDateLocal`: one definition per copy. A lemma proves that the
  two accept the same strings with the same result.
- `formatOprDateTimeDay`: one definition per copy. The template's is built
  on the template's unvalidated `formatDate`, and the generator's on the
  generator's validated one. Lemmas prove where the two lines agree and
  exhibit a date on which they differ (see Findings).
- `getDayNameMalay`: both copies return `-` early for the empty string
  and differ only in how the ternary is spelled, so one definition serves.
- `getYearFromDate`: the generator's copy has an early return for the
  empty string (document-generator.ts:814), which the template's copy
  (opr-html-template.ts:71-74) reaches anyway through the failed parse, so
  one definition serves.
- `sanitizeText`: the copies are textually the same
  (opr-html-template.ts:86, document-generator.ts:830). They differ only
  in which `escapeHtml` they call.
- `escapeHtml`: the template's copy turns a missing value into "" with
  `(value || '')` (opr-html-template.ts:77), and the generator's has no
  such guard (document-generator.ts:820-827). Both are only reached
  through `sanitizeText`, which always passes a string.

Sub-items and attendees are numbered by their index in the unfiltered
list (document-generator.ts:207-211, 216-218), so an empty entry leaves a gap in
the numbering.

JavaScript's `.length` and a regular expression without the `u` flag work
on UTF-16 code units, while a Dafny `string` is a sequence of Unicode
characters. The model counts code units explicitly (`JsText.Utf16Length`)
in the report's text weight and in the OPR file name.

## Model

| member | source | states |
|---|---|---|
| Seqs.FilterMembership | src/lib/opr-html-template.ts:104-105 | an element survives `filter` exactly when it was present and satisfies the predicate |
| Seqs.Filter | src/lib/opr-html-template.ts:104-105 | `filter` keeps only elements that satisfy the predicate and occur in the input, never lengthens it, and keeps everything when all satisfy it |
| Seqs.FilterConcat | src/lib/opr-html-template.ts:135-138 | `filter` distributes over concatenation, so it keeps the relative order |
| Seqs.Take | src/lib/opr-html-template.ts:102 | `slice(0, n)` is the prefix of length min(n, length) |
| Seqs.RemoveAt | src/components/opr-form.tsx:112 | filtering out index k drops exactly that element; any other index leaves the list unchanged |
| Seqs.UpdateAt | src/components/opr-form.tsx:119 | the index-conditional `map` changes only index k and keeps the length: it is `xs[..k] + [v] + xs[k+1..]` for an index in range and the list itself otherwise |
| Seqs.MapWhere | src/components/minit-mesyuarat-form.tsx:313-318 | the id-conditional `map` rewrites exactly the matching elements and keeps the rest; with no match it is the identity, and every element of the result is an old element or the rewrite of a matching one |
| Seqs.FindIndex | src/components/minit-mesyuarat-form.tsx:121 | the index of the first element satisfying the predicate, or -1 exactly when none does |
| JsText.ToUpper | src/lib/document-generator.ts:258 | upper-casing keeps the length and maps each letter to its capital |
| JsText.ToLower | src/components/minit-mesyuarat-form.tsx:122-123 | lower-casing keeps the length and maps each letter to its small form |
| JsText.Trim | src/lib/opr-html-template.ts:86 | `trim()` is a slice `s[k..k + n]` of the text with only whitespace before and after it, which starts and ends with a non-space character and is empty exactly when the text is all whitespace |
| JsText.TrimEmptyIffAllSpace | src/components/opr-form.tsx:98 | a trimmed line is empty exactly when it is all whitespace |
| JsText.Utf16Length | src/lib/opr-html-template.ts:107-114 | `.length` counts UTF-16 code units: at least one and at most two per character |
| JsText.Utf16LengthConcat | src/lib/opr-html-template.ts:114 | the length of a concatenation is the sum of the lengths |
| JsText.Utf16LengthBmp | src/lib/opr-html-template.ts:107-114 | `.length` equals the number of characters exactly when no character lies outside the Basic Multilingual Plane |
| JsText.IndexOf | src/components/minit-mesyuarat-form.tsx:707-709 | the position found is an occurrence of the pattern, and none occurs earlier; nothing exactly when none occurs |
| JsText.Split | src/lib/document-generator.ts:10 | `split(c)` yields at least one piece, and no piece contains c |
| JsText.ReplaceFirst | src/components/minit-mesyuarat-form.tsx:707-709 | `replace` with a string pattern rewrites only the first occurrence, and expands `$` patterns in the replacement |
| JsText.ReplaceFirstPlain | src/components/minit-mesyuarat-form.tsx:707-709 | with no `$` in the replacement and the pattern first found after a prefix, the result is prefix + replacement + the rest |
| JsText.JoinSplit | src/lib/document-generator.ts:10 | joining the pieces of `split(c)` with c restores the text |
| JsText.SplitJoin | src/lib/document-generator.ts:10 | splitting a join of separator-free pieces gives the pieces back |
| JsText.NumberOf | src/lib/document-generator.ts:12-13 | `Number(s)` reads empty or all-whitespace text as 0 |
| JsText.NumberOfIntToString | src/lib/document-generator.ts:12-16 | `Number(String(i)) === i` for every integer |
| JsText.NatToString | src/lib/document-generator.ts:27 | `String(n)` is a non-empty decimal numeral whose value is n, with no leading zero |
| JsText.ParseIntIntToString | src/components/minit-mesyuarat-form.tsx:111 | `parseInt(String(i)) === i` for every integer |
| JsText.PadStart2 | src/lib/document-generator.ts:27 | `padStart(2, '0')` yields at least two characters and prefixes a single character with `0` |
| JsText.PaddedNumber | src/lib/document-generator.ts:27 | `Number` reads back a zero-padded two-digit numeral as its value |
| JsText.ParseIntPadded | src/components/minit-mesyuarat-form.tsx:110-111 | `parseInt` reads back a zero-padded two-digit numeral as its value |
| HtmlEscape.EscapeHtmlNullable | src/lib/opr-html-template.ts:76-83 | a missing value escapes to "", and a present value escapes as the text itself does |
| HtmlEscape.EscapeIsCharwise | src/lib/opr-html-template.ts:77-82 | the five chained global replacements escape each character on its own: the `&amp;` added first is not escaped again |
| HtmlEscape.EscapeHtmlConcat | src/lib/opr-html-template.ts:77-82 | escaping a concatenation is the concatenation of the escaped parts |
| HtmlEscape.UnescapeEscape | src/lib/document-generator.ts:820-827 | escaping loses nothing: decoding the five entities gives the input back |
| HtmlEscape.EscapedHasNoMarkup | src/lib/document-generator.ts:820-827 | no `<`, `>`, `"` or `'` survives escaping |
| HtmlEscape.EscapeEmpty | src/lib/opr-html-template.ts:76-83 | escaping never shortens text, and only the empty text escapes to "" |
| HtmlEscape.SanitizeEmpty | src/lib/opr-html-template.ts:85-87 | `sanitizeText` gives "" exactly when the value is missing or all whitespace |
| Calendar.Normalize | src/lib/opr-html-template.ts:46 | `new Date(y, m, d)` carries an out-of-range day into an earlier or later month, and keeps a real day unchanged |
| Calendar.MakeDate | src/lib/opr-html-template.ts:46 | a constructed date, when inside the `Date` range, is a real calendar day |
| Calendar.MakeDateRoundTrip | src/lib/opr-html-template.ts:46-47 | building a date and reading back year, month and day gives the same numbers iff they name a real day, the year is not in 0..99, and the day is inside the `Date` range |
| Calendar.ParseIsoMeaning | src/lib/document-generator.ts:777-803 | `parseIsoDateLocal` succeeds iff the input is non-empty and its first three `-` fields are integers naming a real day; the result is that day |
| Calendar.CheckFieldsMeaning | src/lib/document-generator.ts:783-802 | the generator's field checks accept exactly the integer fields naming a real, representable day with a year outside 0..99, and yield that day; the template's checks without the month and day ranges give the same answer |
| Calendar.ParseIsoCopiesAgree | src/lib/opr-html-template.ts:39-49 | the report template's copy, which lacks the month and day range checks, accepts exactly the same strings as the generator's and returns the same date |
| Calendar.ParseIsoAccepts | src/lib/document-generator.ts:777-803 | integer fields that name a real, representable day with a year outside 0..99 parse to that day |
| Calendar.ParseIsoRejects | src/lib/document-generator.ts:795-801 | integer fields that do not name a real day (for example 30 February) are rejected |
| Calendar.DayNameMalay | src/lib/opr-html-template.ts:51-56 | the result is `-` iff the date does not parse; otherwise it is one of the seven Malay weekday names; it is never empty |
| Calendar.DayNameOfParsed | src/lib/opr-html-template.ts:51-56 | a date that parses gets the Malay name of its own weekday |
| Calendar.DayNameIso | src/lib/opr-html-template.ts:51-56 | a date-picker value `YYYY-MM-DD` for a real day gets the weekday of that day, counted from Thursday 1 January 1970 |
| Calendar.DayNameIsoInvalid | src/lib/opr-html-template.ts:51-56 | a date-picker value for a day the month does not have gets `-` |
| Calendar.DayNameOfUndefinedMonth | src/lib/opr-html-template.ts:51-56 | a `<y>-<m>-<dd>` value with a month number past 12 gets `-` |
| Calendar.CalendarExamples | src/lib/opr-html-template.ts:53-55 | 1 January 2025 is a Rabu (Wednesday); 2023 has no 29 February and 2024 has one |
| Calendar.YearFromDate | src/lib/opr-html-template.ts:71-74 | the year of a date that parses; otherwise the current year |
| Calendar.FormatDate | src/lib/document-generator.ts:8-17 | the date line is "" exactly when a field is missing or empty, the month or day is NaN, or the month is outside 1..12 |
| Calendar.FormatDateIso | src/lib/document-generator.ts:8-17 | a date-picker value `YYYY-MM-DD` prints as the day without its leading zero, the Malay month name and the year |
| Calendar.ParsedDateFormats | src/lib/document-generator.ts:8-17 | every date the ISO parser accepts formats to non-empty text |
| Calendar.FormatDateOprAsWrittenUndefined | src/lib/opr-html-template.ts:30-37 | as written, the report prints `<day> undefined <year>` for any month number outside 1..12, where the generator prints "" |
| Calendar.FormatDateOprIsoUndefined | src/lib/opr-html-template.ts:30-37 | as written, the report prints `<d> undefined <y>` for a `<y>-<m>-<dd>` value with a month past 12 |
| Calendar.FormatDateOprCorrection | src/lib/opr-html-template.ts:30-37 | wherever the validated `formatDate` prints, the report as written prints the same; wherever it blanks a date, the report as written printed "" or a line with `undefined` or `NaN` in it |
| TimeFormat.TimeSuffix | src/lib/document-generator.ts:33-38 | Pagi exactly for hours 5..11, Tengah Hari for 12..14, Petang for 15..18, and Malam otherwise, including NaN |
| TimeFormat.DisplayHour | src/lib/document-generator.ts:26 | the 12-hour hour is NaN exactly when the hour is NaN |
| TimeFormat.DisplayHourRange | src/lib/document-generator.ts:26 | on a clock hour the display hour is in 1..12 and is the same hour modulo 12 |
| TimeFormat.SuffixRoundTrip | src/lib/document-generator.ts:25-27 | the display hour together with the suffix determines the 24-hour hour |
| TimeFormat.FormatTimeWithSuffix | src/lib/document-generator.ts:19-31 | "" stays "", text with a letter is returned as is, and any other text is rewritten |
| TimeFormat.LineHasLetter | src/lib/document-generator.ts:27 | every rewritten time contains a letter, so the formatter leaves its own output unchanged |
| TimeFormat.FormatPickerTime | src/lib/document-generator.ts:19-31 | a time-picker value `HH:MM` prints as the 12-hour hour, `.`, the two-digit minute and the suffix of the hour |
| TimeFormat.FormTimeSuffix | src/components/minit-mesyuarat-form.tsx:95-106 | the form's suffix is "" exactly for no time, and otherwise one of the four suffixes |
| TimeFormat.FormFormatTimeWithSuffix | src/components/minit-mesyuarat-form.tsx:108-115 | the form preview is "" exactly for no time |
| TimeFormat.FormNoColon | src/components/minit-mesyuarat-form.tsx:110-114 | a time without `:` shows the word `undefined` for the minutes in the form preview |
| TimeFormat.DocumentNoColon | src/lib/document-generator.ts:24-27 | a time without `:` and without letters shows `undefined` for the minutes in the document as well |
| TimeFormat.PreviewMatchesDocument | src/components/minit-mesyuarat-form.tsx:108-115 | on every time-picker value the form preview and the generated document print the same time |
| SectionNumbering.GetSectionNumbers | src/lib/document-generator.ts:122-139 | the agenda starts at 1 or later; Hal-hal Lain is numbered iff enabled, and then right after the agenda slots |
| SectionNumbering.NumbersMatchReference | src/lib/document-generator.ts:122-139 | each enabled section gets 1 + the total width of the slots before it; a disabled one gets no number |
| SectionNumbering.NumbersAreConsecutive | src/lib/document-generator.ts:122-139 | the numbers handed out are exactly 1, 2, …, N in declaration order, with the agenda taking one number per item |
| SectionNumbering.NumbersIncrease | src/lib/document-generator.ts:122-139 | the numbers strictly increase in declaration order |
| SectionNumbering.SelectAgendaSlots | src/lib/document-generator.ts:254-265 | any increasing choice of agenda slots keeps the opening, agenda and closing numbers increasing |
| SectionNumbering.ClosingNumbers | src/lib/document-generator.ts:132-136 | the agenda starts after the enabled opening sections; Penangguhan is numbered iff enabled, right after the agenda and Hal-hal Lain |
| SectionNumbering.FormSectionNumbers | src/components/minit-mesyuarat-form.tsx:375-394 | the form computes the generator's numbers, and its agendaEnd covers exactly the agenda items |
| SectionNumbering.AgendaEndBounds | src/components/minit-mesyuarat-form.tsx:375-394 | with no agenda items agendaEnd is agendaStart − 1; Hal-hal Lain takes agendaEnd + 1; Penangguhan comes after agendaEnd |
| SectionNumbering.PreviewAgendaNumber | src/components/minit-mesyuarat-form.tsx:789-794 | the preview's counting loop numbers card i as agendaStart + i |
| SectionNumbering.PreviewWithinAgenda | src/components/minit-mesyuarat-form.tsx:789-794 | every agenda card's preview number lies between agendaStart and agendaEnd |
| MinitRender.SectionTitle | src/lib/document-generator.ts:224-226 | a custom title is printed in upper case; an empty one falls back to the default |
| MinitRender.SubItemMembership | src/lib/document-generator.ts:214-221 | a sub-item line appears exactly for each non-empty item, labelled `num.(index + 1)` by its unfiltered index |
| MinitRender.AgendaItemShape | src/lib/document-generator.ts:256-263 | a printed agenda item opens with its upper-cased title under its number and has no other heading; DOCX adds "Tindakan" iff the action is set; PDF always does, with "Semua GBA" as fallback |
| MinitData.NewAgendaItem | src/components/minit-mesyuarat-form.tsx:143 | a new agenda item is included, untitled, without action, and has one empty sub-item |
| MinitData.InitialMinit | src/components/minit-mesyuarat-form.tsx:124-180 | the form opens as meeting 1 with no date, time or attendees, one new agenda item, every section enabled, and the profile name or "Organisasi" as the organisation |
| MinitProperties.HeadingsIncrease | src/lib/document-generator.ts:228-279 | heading numbers strictly increase through the numbered part of the minutes, in both outputs |
| MinitProperties.BodyHeadings | src/lib/document-generator.ts:228-279 | the body's headings are the opening sections' numbers, then the printed agenda items', then the closing sections' |
| MinitProperties.AgendaHeadingsIncrease | src/lib/document-generator.ts:254-265 | the agenda's headings increase and stay within the agenda's slots |
| MinitProperties.AgendaHeadingMembership | src/lib/document-generator.ts:254-265 | an agenda heading appears exactly for each included item with a title, numbered agendaStart + its index |
| MinitProperties.DocxPdfSameContent | src/lib/document-generator.ts:524-592 | the PDF's body and the DOCX's body carry the same headings and sub-items in the same order once their "Tindakan" lines are set aside |
| MinitProperties.AgendaItemStripped | src/lib/document-generator.ts:256-263 | for one agenda item, DOCX and PDF agree once the "Tindakan" lines are removed |
| MinitProperties.PdfAgendaActions | src/lib/document-generator.ts:564-570 | the PDF agenda has exactly one "Tindakan" line per printed item |
| MinitProperties.AgendaItemActions | src/lib/document-generator.ts:256-263 | a printed item has one "Tindakan" line in PDF, and one in DOCX iff its action is set |
| MinitProperties.DocxAgendaActions | src/lib/document-generator.ts:254-265 | the DOCX agenda has exactly one "Tindakan" line per printed item with an action |
| MinitProperties.BerbangkitFirstOnly | src/lib/document-generator.ts:250-252 | only the first "Perkara Berbangkit" entry is ever printed |
| MinitProperties.AttendeeMembership | src/lib/document-generator.ts:206-211 | an attendance line appears exactly for each member with a name, numbered by their unfiltered index |
| MinitProperties.AttendeesFromCount | src/lib/document-generator.ts:206-211 | the attendance lines are as many as the members with a name |
| MinitProperties.AttendanceCountMatches | src/lib/document-generator.ts:202 | the "KEHADIRAN" count in the header equals the number of attendance lines |
| MinitProperties.SignatureNamesAgree | src/lib/document-generator.ts:305 | DOCX and PDF print the same signature name iff it is non-empty; an empty one is `-` in DOCX and "" in PDF |
| Settings.InitialStore | src/lib/settings-context.tsx:96-103 | the store starts with one default profile, and that profile is current |
| Settings.MergeLaws | src/lib/settings-context.tsx:214-220 | merging the empty update changes nothing, a full update replaces everything, and merging an update twice is merging it once |
| Settings.MergeMembers | src/lib/settings-context.tsx:281-292 | a members update replaces only the member list |
| Settings.MergeContent | src/lib/settings-context.tsx:294-305 | a content update replaces only the frequent-content list |
| Settings.IndexOfId | src/lib/settings-context.tsx:200-203 | the position of the first profile with the current id, or -1 exactly when none has it |
| Settings.CurrentProfile | src/lib/settings-context.tsx:200-203 | the first profile with the current id, as `find` returns it, if one exists; otherwise the first profile; nothing only for an empty list |
| Settings.CurrentSettings | src/lib/settings-context.tsx:205-207 | the current profile's settings, or the defaults when there are no profiles |
| Settings.UpdateSettings | src/lib/settings-context.tsx:214-220 | the merge lands on the profiles with the current id only; ids and the current id are kept |
| Settings.UpdateShownSettings | src/lib/settings-context.tsx:214-220 | on a resolved store, the settings the app shows afterwards are the old shown settings merged with the update |
| Settings.UpdateUnresolved | src/lib/settings-context.tsx:214-220 | when the current id names no profile, an update changes nothing, though the app shows the first profile |
| Settings.SwitchProfile | src/lib/settings-context.tsx:210-212 | switching sets the current id and leaves the profiles alone |
| Settings.SwitchResolves | src/lib/settings-context.tsx:210-212 | switching to an existing id makes that profile the one shown |
| Settings.NewProfileSettings | src/lib/settings-context.tsx:228-238 | a school profile starts with empty school fields and no members; a society profile copies them from the current settings; both keep the current content, and everything else is the default |
| Settings.CreateProfile | src/lib/settings-context.tsx:222-243 | appends exactly one profile, makes it current and returns its id |
| Settings.CreateMakesCurrent | src/lib/settings-context.tsx:222-243 | with a fresh id, the created profile is the one the app then shows |
| Settings.UpdateProfile | src/lib/settings-context.tsx:245-249 | renames or retypes exactly the profiles with the id and keeps the others |
| Settings.DeleteProfile | src/lib/settings-context.tsx:251-260 | refused while at most one profile exists; otherwise the remaining profiles are the input's profiles without the id, in their order, and the current id moves to the first of them when the current one is deleted |
| Settings.DeleteCurrent | src/lib/settings-context.tsx:251-260 | after deleting the current profile, the app shows the first remaining one |
| Settings.DeleteOther | src/lib/settings-context.tsx:251-260 | deleting another profile leaves the shown profile as it was |
| Settings.DuplicateProfile | src/lib/settings-context.tsx:262-279 | an unknown id changes nothing and returns ""; otherwise it appends a copy of the settings and kind of the first profile with the id, under the new id and name |
| Settings.DuplicateKeepsCurrent | src/lib/settings-context.tsx:262-279 | duplicating leaves the shown profile as it was |
| Settings.ShownMembers | src/lib/settings-context.tsx:281-292 | on a resolved store, a member-list edit changes only the members the app shows |
| Settings.AddMemberAppends | src/lib/settings-context.tsx:281-284 | `addMember` appends exactly one member, with the fresh id |
| Settings.UpdateMemberOnly | src/lib/settings-context.tsx:286-288 | `updateMember` rewrites only the members with the id; their ids and the order are kept |
| Settings.RemoveMemberExactly | src/lib/settings-context.tsx:290-292 | `removeMember` removes exactly the members with the id |
| Settings.ShownContent | src/lib/settings-context.tsx:294-305 | on a resolved store, a content-list edit changes only the content the app shows |
| Settings.AddContentAppends | src/lib/settings-context.tsx:294-297 | `addFrequentContent` appends exactly one entry, with the fresh id |
| Settings.UpdateContentOnly | src/lib/settings-context.tsx:299-301 | `updateFrequentContent` merges the change into the entries with the id only |
| Settings.RemoveContentExactly | src/lib/settings-context.tsx:303-305 | `removeFrequentContent` removes exactly the entries with the id |
| Settings.ResetShowsDefaults | src/lib/settings-context.tsx:307-309 | after a reset the app shows exactly the default settings |
| Settings.MemberIndex | src/components/minit-mesyuarat-form.tsx:259 | the first member with the id, or -1 exactly when none has it |
| Settings.MemberWithRole | src/components/minit-mesyuarat-form.tsx:122-123 | a member found has a lower-cased position containing the role; nothing exactly when no member does; and when member k is the first that does, the result is member k |
| Settings.UserMember | src/components/minit-mesyuarat-form.tsx:121 | a member found has the user's id; nothing exactly when no member has it (or no id is set); and when member k is the first with it, the result is member k |
| MinitForm.ToggleMember | src/components/minit-mesyuarat-form.tsx:258-277 | an unknown id changes nothing; a ticked member is unticked and loses their attendance entry; an unticked member is ticked and appended |
| MinitForm.ToggleTwice | src/components/minit-mesyuarat-form.tsx:258-277 | ticking and then unticking a member who was neither ticked nor attending restores the form |
| MinitForm.SelectSignatureMember | src/components/minit-mesyuarat-form.tsx:279-295 | an unknown id changes nothing; otherwise only the chosen signature changes, taking the member's name and position |
| MinitForm.AddAgendaItem | src/components/minit-mesyuarat-form.tsx:297-302 | appends the new item for the fresh id and changes nothing else |
| MinitForm.RemoveAgendaItem | src/components/minit-mesyuarat-form.tsx:304-311 | a no-op while one item or none is left; otherwise exactly the items with the id are removed |
| MinitForm.EditAgenda | src/components/minit-mesyuarat-form.tsx:313-352 | an edit by id rewrites exactly the items with that id and keeps the length, the order and the rest of the form |
| MinitForm.AddThenRemoveAgenda | src/components/minit-mesyuarat-form.tsx:297-311 | adding an item with a fresh id and removing it again restores the form |
| MinitForm.UpdateAgendaItem | src/components/minit-mesyuarat-form.tsx:313-318 | sets the field on the items with the id only |
| MinitForm.UpdateAgendaTwice | src/components/minit-mesyuarat-form.tsx:313-318 | setting a field twice is the same as setting it once |
| MinitForm.ToggleAgendaIncluded | src/components/minit-mesyuarat-form.tsx:320-325 | flips `included` on the matching items only |
| MinitForm.ToggleIncludedTwice | src/components/minit-mesyuarat-form.tsx:320-325 | toggling twice restores the form |
| MinitForm.AddButiran | src/components/minit-mesyuarat-form.tsx:327-334 | the matching items gain one empty sub-item; the other items are unchanged |
| MinitForm.RemoveButiran | src/components/minit-mesyuarat-form.tsx:336-343 | the matching items lose sub-item k; the other items are unchanged |
| MinitForm.UpdateButiran | src/components/minit-mesyuarat-form.tsx:345-352 | the matching items get the new text at sub-item k; the other items are unchanged |
| MinitForm.AddThenRemoveButiran | src/components/minit-mesyuarat-form.tsx:327-343 | adding a sub-item and removing the last one restores an item whose id is unique |
| MinitForm.UpdateSpeech | src/components/minit-mesyuarat-form.tsx:597-601 | typing into entry k of a speech list changes that entry only |
| MinitForm.RemoveSpeech | src/components/minit-mesyuarat-form.tsx:611-616 | the delete button is refused while one entry is left, so a list never becomes empty |
| MinitForm.AppendSpeech | src/components/minit-mesyuarat-form.tsx:628 | "Tambah Butiran" appends one empty entry to that list only |
| MinitForm.AppendThenRemoveSpeech | src/components/minit-mesyuarat-form.tsx:596-628 | appending an entry and deleting it again restores the form |
| MinitForm.Appended | src/components/minit-mesyuarat-form.tsx:354-365 | inserted content comes last, and no empty entry precedes it |
| MinitForm.InsertFrequentContent | src/components/minit-mesyuarat-form.tsx:354-365 | content is appended to the written pengerusi or penasihat entries, and replaces the penangguhan text outright |
| MinitForm.AppendedKeepsWritten | src/components/minit-mesyuarat-form.tsx:354-365 | the written entries survive in order, ahead of the inserted content |
| MinitForm.InsertTwice | src/components/minit-mesyuarat-form.tsx:354-365 | a second insertion keeps the first one in front of it |
| MinitForm.UpdateSectionTitle | src/components/minit-mesyuarat-form.tsx:367-372 | sets one title and keeps the other five |
| MinitForm.SetTarikh | src/components/minit-mesyuarat-form.tsx:483-486 | the date picker sets the date and the weekday computed from it, and nothing else |
| MinitForm.SetBerbangkit | src/components/minit-mesyuarat-form.tsx:779 | the editor replaces the list by its single entry |
| MinitForm.SetPenangguhan | src/components/minit-mesyuarat-form.tsx:972 | the editor replaces the list by its single entry |
| MinitForm.ApplyMinitLaluTemplate | src/components/minit-mesyuarat-form.tsx:706-710 | the template button changes only `dibentang` |
| MinitForm.FillTemplateNumber | src/components/minit-mesyuarat-form.tsx:707-709 | a template `a[bil]b[tahun]c` becomes a + (meeting number − 1) + b + year + c |
| MinitForm.FillTemplateNaN | src/components/minit-mesyuarat-form.tsx:708 | a meeting number that does not parse leaves `NaN` in the text |
| MinitForm.FillSignature | src/components/minit-mesyuarat-form.tsx:198-218 | titles 2 and 3 are cleared; a found member signs with their name, or the fallback name when it is empty; title 1 is the member's position, or the old title 1 when the position is empty or no member was found |
| MinitForm.PopulateFromSettings | src/components/minit-mesyuarat-form.tsx:186-222 | with no members nothing changes; otherwise every member attends and is ticked, in order, and only the attendance and the three signatures change |
| MinitForm.PopulatedToggle | src/components/minit-mesyuarat-form.tsx:258-277 | after the fill, unticking a member drops exactly their attendance entry |
| OprRender.DensityPreset | src/lib/opr-html-template.ts:89-99 | `tight` exactly when a count reaches its upper mark; `normal` exactly when every count is below its lower mark |
| OprRender.DensityMonotone | src/lib/opr-html-template.ts:89-99 | more content never makes the page less dense |
| OprRender.JoinLength | src/lib/opr-html-template.ts:114 | the UTF-16 length of `join(sep)` is the entries' lengths plus one separator length per gap |
| OprRender.TextWeightCounts | src/lib/opr-html-template.ts:107-114 | the text weight counts the UTF-16 code units of the six fields and of the activities, plus one per gap between activities; on text inside the Basic Multilingual Plane that is the number of characters |
| OprRender.Images | src/lib/opr-html-template.ts:102 | the report uses at most the first eight photos, and all of them when there are at most eight |
| OprRender.DensityCapsImages | src/lib/opr-html-template.ts:102-121 | photos beyond the eighth never change the preset |
| OprRender.SanitizeAll | src/lib/opr-html-template.ts:136 | each entry is sanitised in place |
| OprRender.SanitizeFilterCommute | src/lib/opr-html-template.ts:135-137 | sanitising and then dropping empty results equals dropping the blank entries first |
| OprRender.TextCountBound | src/lib/opr-html-template.ts:104-105 | the entries with non-space text are no more than the truthy entries |
| OprRender.Officers | src/lib/opr-html-template.ts:135-138 | at most twelve officers, none empty |
| OprRender.OfficersAreWritten | src/lib/opr-html-template.ts:135-138 | the officers shown are the first twelve entries with text, sanitised, in order |
| OprRender.NumberedItems | src/lib/opr-html-template.ts:140-142 | officers are numbered from 1 in order; an empty list shows a single `-` |
| OprRender.OfficerItems | src/lib/opr-html-template.ts:135-142 | the officer list shows between one and twelve lines |
| OprRender.Activities | src/lib/opr-html-template.ts:144-147 | at most eight activities, none empty |
| OprRender.ActivitiesAreWritten | src/lib/opr-html-template.ts:144-147 | the activities shown are the first eight entries with text, sanitised, in order |
| OprRender.BulletItems | src/lib/opr-html-template.ts:149-151 | one bullet per activity; an empty list shows a single `-` |
| OprRender.SummaryItems | src/lib/opr-html-template.ts:144-151 | the activity list shows between one and eight lines |
| OprRender.GalleryIndex | src/lib/opr-html-template.ts:103 | the layout class is the photo count clamped to 1..8 |
| OprRender.GalleryOf | src/lib/opr-html-template.ts:569-575 | the placeholder shows exactly when there is no photo; otherwise the slots are the used photos and the layout is their count |
| OprRender.NoImagesIffPlaceholder | src/lib/opr-html-template.ts:569-575 | the section is marked `no-images` exactly when the placeholder is shown, and the placeholder uses layout 1 |
| OprRender.PartsLineCases | src/lib/opr-html-template.ts:63-68 | which of date, time and weekday appear, and the ` / ` joins between them |
| OprRender.FormatOprDateTimeDay | src/lib/opr-html-template.ts:58-69 | the date line, built on the template's own unvalidated `formatDate`, is never empty |
| OprRender.DateTimeDayThree | src/lib/opr-html-template.ts:58-69 | a printable date with a weekday, and a time, give `DATE / TIME / WEEKDAY` in upper case |
| OprRender.DateTimeDayFull | src/lib/opr-html-template.ts:58-69 | a date that parses, together with a time, gives `DATE / TIME / WEEKDAY` |
| OprRender.DateTimeDayNoDate | src/lib/opr-html-template.ts:58-69 | with no date the line is the time, or `-` when the time is empty too |
| OprRender.DateTimeDayNoWeekday | src/lib/opr-html-template.ts:58-69 | a date that formats but names no real day shows no weekday |
| OprRender.CaseLineIsPartsLine | src/lib/document-generator.ts:763-775 | the generator's case-by-case line equals the joined parts whenever a weekday comes with a date |
| OprRender.DateTimeDayCopiesAgree | src/lib/document-generator.ts:763-775 | the generator's copy of `formatOprDateTimeDay` and the template's print the same line whenever the validated `formatDate` prints or the template's prints nothing |
| OprRender.DateTimeDayCopiesDiffer | src/lib/opr-html-template.ts:58-69 | for a date with a month number past 12 the template prints `<D> UNDEFINED <Y>` (and ` / ` and the time when there is one), while the generator's copy prints only the time, or `-` |
| OprRender.Field | src/lib/opr-html-template.ts:125-133 | an empty value shows the sanitised fallback; any other value shows itself sanitised |
| OprRender.FieldBlank | src/lib/opr-html-template.ts:125-133 | a field shows nothing exactly when its value is non-empty but all whitespace |
| OprRender.FallbacksHaveText | src/lib/opr-html-template.ts:125-132 | the template's fallbacks all have text |
| OprRender.RenderOpr | src/lib/opr-html-template.ts:101-591 | the page is marked empty iff it shows the placeholder; a gallery has at most eight slots with a matching layout; both lists are non-empty; the title is "One Page Report - " + the school name |
| FrameLayout.FrameLayoutForCount | src/lib/document-generator.ts:833-848 | no rows for a count of 0 or less, and never more than two rows |
| FrameLayout.FrameLayoutIsBalanced | src/lib/document-generator.ts:838-847 | the table is the balanced arrangement: one row up to three photos, two rows with the longer first up to eight, and two rows of three beyond |
| FrameLayout.FramesCoverPhotos | src/lib/document-generator.ts:838-847 | for 1..8 photos every photo gets exactly one frame, in order; beyond eight, only the first six are framed |
| OprForm.DefaultMembers | src/components/opr-form.tsx:51-57 | at most ten default officers, and no more than there are members |
| OprForm.DefaultMembersFrom | src/components/opr-form.tsx:51-57 | the defaults are the upper-cased names of the first ten members who are not the head teacher (all of them when fewer qualify), in order |
| OprForm.PreparedByOf | src/components/opr-form.tsx:78 | the preparer line is `NAME / POSITION` of the user's member, or "" when there is none |
| OprForm.DefaultForm | src/components/opr-form.tsx:59-82 | the form opens with no photos, seven activities and the default officers, and the officer box holds their names one per line |
| OprForm.HandlePegawaiChange | src/components/opr-form.tsx:96-100 | keeps the typed text and takes its non-blank lines as the officers; no officer is blank |
| OprForm.DefaultBoxAgrees | src/components/opr-form.tsx:82-100 | re-reading the opening officer box gives the opening officer list |
| OprForm.AddAktiviti | src/components/opr-form.tsx:106-108 | appends one empty activity and keeps the rest |
| OprForm.RemoveAktiviti | src/components/opr-form.tsx:110-114 | refused while one entry is left; otherwise drops exactly entry k; never empties the list |
| OprForm.UpdateAktiviti | src/components/opr-form.tsx:116-121 | entry k takes the new text; all other entries are unchanged |
| OprForm.AddThenRemoveAktiviti | src/components/opr-form.tsx:106-114 | adding an entry and deleting it again restores the form |
| OprForm.UpdateAktivitiUndo | src/components/opr-form.tsx:116-121 | writing back an entry's old text restores the form |
| OprForm.Rejection | src/components/opr-form.tsx:139-147 | a file gets no notice exactly when its type is allowed and it is at most 5 MB |
| OprForm.Rejections | src/components/opr-form.tsx:138-152 | one notice per considered file that is not admitted |
| OprForm.Considered | src/components/opr-form.tsx:138 | only as many files are considered as there are free slots, and they come from the front of the selection |
| OprForm.HandleImageUpload | src/components/opr-form.tsx:123-171 | no files: nothing; a full gallery: only the "full" notice; otherwise the admitted files' data are appended in order, with one notice per rejected file and an "uploaded" notice when any was admitted |
| OprForm.UploadBounded | src/components/opr-form.tsx:125-166 | an upload never takes the photos past eight, never drops or reorders existing photos, and every new photo was read from a selected file |
| OprForm.UploadAdmitsAll | src/components/opr-form.tsx:138-148 | each considered file is admitted iff admissible, and each inadmissible one produces its notice |
| OprForm.RemoveImage | src/components/opr-form.tsx:173-178 | drops exactly photo k; an index out of range changes nothing |
| OprForm.RemoveFreesSlot | src/components/opr-form.tsx:125-178 | after removing a photo from a full gallery, an upload of an admissible file adds it |
| Export.RunStates | src/app/page.tsx:53-108 | a started run shows its progress marks while generating, then success at 100 or error at 0, and ends idle |
| Export.RunProgressGrows | src/app/page.tsx:53-86 | while a run is generating its progress only grows, and it stays below 100 |
| Export.MinitRun | src/app/page.tsx:45-108 | without form data nothing happens; a completed run goes through 10, 30 and 80, then success at 100, then idle |
| Export.OprGuard | src/app/page.tsx:113-124 | an OPR export is allowed exactly when form data exists and there are 1..8 photos |
| Export.OprRun | src/app/page.tsx:112-190 | a refused export changes no state; an allowed one starts generating at 10 |
| Export.ExportProgressGrows | src/app/page.tsx:53-168 | both exports report strictly growing progress while generating |
| Export.MinitYear | src/app/page.tsx:83 | the file-name year is the current year without a date, `NaN` for a date the host cannot read, and that date's year otherwise |
| Export.MinitFilenameParts | src/app/page.tsx:84 | the file name splits at `_` into MINIT, MESYUARAT, the meeting number and `year.ext` |
| Export.SanitizeStem | src/app/page.tsx:147 | the result is all `[a-zA-Z0-9_-]`, one character per UTF-16 code unit of the name |
| Export.SanitizeStemConcat | src/app/page.tsx:147 | the replacement works character by character: sanitising a concatenation sanitises each part |
| Export.SanitizeStemBmp | src/app/page.tsx:147 | on text inside the Basic Multilingual Plane each safe character is kept and every other becomes `_` |
| Export.SanitizeStemAstral | src/app/page.tsx:147 | a character outside the Basic Multilingual Plane (an emoji) becomes `__`, so a programme named by one emoji is saved as `OPR___` |
| Export.SanitizeStemFixes | src/app/page.tsx:147 | a name comes through unchanged exactly when it is all safe characters, so sanitising twice is the same as once |
| Export.OprStem | src/app/page.tsx:147 | `OPR_` followed by one safe character per UTF-16 code unit of the programme name, or of `LAPORAN` when it is empty |
| Export.OprPngFilename | src/app/page.tsx:147-151 | the image file name is the stem plus four characters (`.png`) |
| Export.OprPngFilenameParts | src/app/page.tsx:147-151 | the image file name has exactly one dot, which separates the stem from `png` |
| Export.ExportedGalleryShowsAll | src/app/page.tsx:117-143 | an export the guards let through shows every attached photo, in order, with no placeholder |
| Export.ExportedListsAreTheForm | src/app/page.tsx:132-143 | the report's officers and activities come from the form's lists, the preparer is `disediakanOleh`, and the school is the profile's |

## Left out

- Rendering is out of scope. This covers docx, jsPDF, html2canvas, the DOM,
  fonts, CSS, logos, signature images and exact markup. The model covers
  which values and lines are emitted, in which order.
- `localStorage`, `fetch`, `FileReader` and timers are out of scope.
  - Every file read is taken to succeed.
  - The idle state that timers restore is the last state of a run.
  - Toasts appear only as notices.
- Ids and timestamps (`Date.now()`, `generateId`, `new Date().toISOString()`)
  are parameters. The current year is a parameter too.
- JsText.NumberOf: reads decimal integers, signs and `0x`/`0o`/`0b`
  literals. Fractions, exponents and `Infinity` read as NaN, because no
  field the model reads carries them from a picker. Numbers are unbounded
  integers, not IEEE doubles: integers beyond 2^53 are not rounded, and
  magnitudes from 1e21 up are not printed in exponent form.
- JsText.NumberOfIntToString: stated for every integer. In JavaScript it
  holds only for integers a double represents exactly (below 2^53 in
  magnitude) and printed without an exponent (below 1e21).
- JsText.NatToString: prints the decimal numeral for every natural number.
  JavaScript's `String(n)` rounds beyond 2^53 and prints `1e+21` and up in
  exponent form.
- JsText.ParseIntIntToString: stated for every integer. In JavaScript
  `parseInt(String(i)) === i` holds only below 2^53 in magnitude.
- MinitForm.FillTemplateNumber: prints the exact meeting number minus
  one. The meeting number is free text (minit-mesyuarat-form.tsx:472), and
  for a number beyond 2^53 JavaScript's `parseInt(bilangan) - 1` rounds
  (`"99999999999999999999"` gives `100000000000000000000`). Doubles are not
  modelled.
- JsText.ToUpper maps only the ASCII letters. Unicode case mapping is not
  modelled.
- JsText.ToLower maps only the ASCII letters. Unicode case mapping is not
  modelled.
- Calendar.MakeDate: the `Date` range is taken as ±10⁸ days from the
  epoch, counted in whole days. Time zones are not modelled: the local
  date is taken as the calendar date.
- The host's date-string parsing is not modelled. This covers
  `new Date(tarikh)` in `getYearFromTarikh` (document-generator.ts:49-56),
  in `getHariFromTarikh` (minit-mesyuarat-form.tsx:85-93) and in the
  minutes file name (page.tsx:83).
  - The weekday that `SetTarikh` stores is a parameter.
  - The session year and the parsed file-name year are parameters.
- The `imageLayout` mode argument of `getImageFrameLayoutForCount` is
  ignored by the source, so it is not modelled.
- An absent `sectionTitles` entry is modelled as "", which falls back to
  the default title just as `undefined` does.
- The page's `minitData.setiausaha || userMember?.nama` fallback
  (page.tsx:68-69) is not modelled. The form always holds a signature
  object, so that fallback can never apply.
- Concurrency is not modelled. The asynchronous upload appends to the
  state current when its reads finish; the model applies it to the state
  it started from.
- The settings panel and settings dialog are UI around the settings
  context, so they are not modelled. The settings context itself is.
- TimeFormat.FormatTimeWithSuffix does not model the `try`/`catch`
  (document-generator.ts:23-30). Nothing in its body can throw on a
  string input.

## Findings

| source | as written | input that shows it | evidently intended | confidence | as-written member | corrected member |
|---|---|---|---|---|---|---|
| src/lib/opr-html-template.ts:30-37 | `formatDate` indexes the month table without checking the month, so a month outside 1..12 prints the word `undefined` (and a non-numeric day prints `NaN`) | `"2025-13-05"` prints `5 undefined 2025` in the report, where the minutes generator prints nothing | blank the date, as the generator's `formatDate` (document-generator.ts:8-17) does | not executed | Calendar.FormatDateOprAsWritten | Calendar.FormatDate |

Calendar.FormatDateOprAsWritten is the template's `formatDate` as written.
The discrepancy is exhibited by Calendar.FormatDateOprAsWrittenUndefined
and by Calendar.FormatDateOprIsoUndefined, which covers the `<y>-13-<dd>`
input. Calendar.FormatDate is the validated definition: it is "" exactly when
the fields are missing or do not name a month and a numeric day.
Calendar.FormatDateOprCorrection proves that it agrees with the template's
copy wherever it prints, and that wherever it blanks a date the copy prints
"" or a line holding `undefined` or `NaN`. The minutes and the generator's copy of the
report's date line, OprRender.FormatOprDateTimeDayCopy, use the corrected
definition. The report itself renders through the template, so
OprRender.FormatOprDateTimeDay and OprRender.RenderOpr keep the template's
`formatDate` as written. OprRender.DateTimeDayCopiesDiffer exhibits the
line the report prints for `<y>-13-<dd>`, and OprRender.DateTimeDayCopiesAgree
proves that the two lines agree wherever the two `formatDate` copies do.
