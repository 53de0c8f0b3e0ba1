# Tamil Nadu change rally site — a Dafny model of its logic

The site promotes a political rally in Tamil Nadu. Behind its pages sits a
small amount of real logic, and this project models that logic and proves
what it promises:

- **Candidate CSV upload** (`CandidateCsv`): quote-aware CSV parsing of an uploaded
  candidate list, one candidate per data row, with defaults for missing
  optional columns, and refusal of a file with no usable row.
- **Registration export** (`RegistrationExport`): stored registrations become a CSV
  file with a byte-order mark, a fixed header and one quoted line per
  registration.
- **2016 election page** (`Election`): the district-to-constituency table,
  the constituency options for the selected district, the generated
  candidate directory, the uploaded list that overrides it, and the
  district/constituency filter.
- **District ranking panel** (`RegistrationStats`): total, count and
  rounded average of the registrations, the in-place sort by registrations,
  the selected district's rank, and the click that selects or clears a
  district.
- **Countdown** (`Countdown`): the split of the remaining milliseconds into
  days, hours, minutes and seconds, and their two-digit display.
- **Member sign-up** (`Register`): form state, password validation, the
  error message for each sign-up failure, and the profile record stored.
- **Attendance card** (`Attendance`): form state, when the preview opens,
  the card's file name and the card layout.
- **Interactive map** (`InteractiveMap`): matching SVG labels to districts, label
  styling, shading areas by their share of the largest registration count,
  and greying out areas without data.

`Text` models the JavaScript string operations the pages rely on: `trim`,
`split` with a one-character separator, and `join`. `Options` holds the
option type. `Arith` holds a few facts about integer division.

The pages' state becomes classes whose methods update their fields. The
loops that build lists or update arrays become methods with loop
invariants. Each is proved against a specification function, and the
specification functions carry the lemmas. Data tables are copied exactly as
written, including their quirks. For example, the ranking panel's
`Tirunelveli` has the Tamil name of Tenkasi. The constituency list holds 228
names, although a comment above it says 234.

## Model

| member | source | states |
|---|---|---|
| Text.TrimSpec | src/components/CandidateCSVUpload.tsx:28 | `trim` removes exactly the leading and trailing white space: the result is a slice of the input, everything cut off is white space, the result neither starts nor ends with white space, and it is empty exactly when the input is all white space |
| Text.TrimIdempotent | src/components/CandidateCSVUpload.tsx:33 | trimming a trimmed line changes nothing |
| Text.SplitCount | src/components/CandidateCSVUpload.tsx:28 | `split('\n')` yields one piece more than there are line breaks |
| Text.SplitPiecesFree | src/components/CandidateCSVUpload.tsx:28 | no piece of a split contains the separator |
| Text.JoinSplit | src/components/ExportRegistrations.tsx:80 | joining the pieces of a split with the separator gives back the original string |
| Text.SplitJoin | src/components/ExportRegistrations.tsx:80 | splitting a join of separator-free pieces gives back the pieces |
| Text.JoinFree | src/components/ExportRegistrations.tsx:77 | a join of pieces and a separator that all avoid a character avoids that character |
| CandidateCsv.SplitFields | src/components/CandidateCSVUpload.tsx:36-53 | the character loop with the in-quotes flag yields exactly the reference field split `Fields(line)`, each field trimmed |
| CandidateCsv.FieldCount | src/components/CandidateCSVUpload.tsx:41-53 | a line has one field more than it has commas outside quotes |
| CandidateCsv.FieldsJoin | src/components/CandidateCSVUpload.tsx:41-52 | joining the raw fields with commas gives back the line without its double quotes: every other character is kept |
| CandidateCsv.FieldsQuoteFree | src/components/CandidateCSVUpload.tsx:44-45 | a double quote is never copied into a field |
| CandidateCsv.FieldsShape | src/components/CandidateCSVUpload.tsx:47-53 | the number of fields is the number of commas outside quotes plus one, and every field is trimmed and free of double quotes |
| CandidateCsv.FromFields | src/components/CandidateCSVUpload.tsx:57-61 | the candidate has the row's id, and district, constituency and name are fields 0, 1 and 2 |
| CandidateCsv.FromFieldsDefaults | src/components/CandidateCSVUpload.tsx:62-67 | missing or empty optional fields take their defaults and present ones are kept, so joined year, phone, e-mail and bio are never empty |
| CandidateCsv.KeepNonBlankExact | src/components/CandidateCSVUpload.tsx:28 | exactly the lines that are not blank after trimming survive the filter, each as many times as it occurs in the input, and blank lines not at all |
| CandidateCsv.KeepNonBlankAppend | src/components/CandidateCSVUpload.tsx:28 | the filter keeps the input's order: filtering two pieces one after the other gives the filtered whole, and a single line is kept, unchanged, exactly when it is not blank |
| CandidateCsv.RowsSpec | src/components/CandidateCSVUpload.tsx:32-69 | there are at most n − 1 candidates; each comes from a data row with at least three fields and is built from that row's fields; ids strictly increase; every data row gives a candidate |
| CandidateCsv.RowsEmpty | src/components/CandidateCSVUpload.tsx:86-88 | the parse yields no candidate exactly when no line after the header has three fields |
| CandidateCsv.ParseCsv | src/components/CandidateCSVUpload.tsx:27-73 | the header-skipping loop over the non-blank lines returns exactly `Rows` of the lines' fields |
| CandidateCsv.HandleFileUpload | src/components/CandidateCSVUpload.tsx:75-109 | no file means nothing happens and no status; a read that fails reports the error's message, or the generic upload message when the failure is not an `Error`; a file without a data row fails with the fixed message; nothing is imported on any failure; otherwise exactly the parsed candidates are imported and their non-zero count is reported |
| RegistrationExport.FetchedSpec | src/components/ExportRegistrations.tsx:27-38 | registration k is made from document k: present fields are copied, absent ones become empty, and the timestamp is carried over |
| RegistrationExport.FetchRegistrations | src/components/ExportRegistrations.tsx:25-43 | the fetch loop returns `Fetched(docs)`, one registration per document in order |
| RegistrationExport.UnescapeEscape | src/components/ExportRegistrations.tsx:69 | doubling the double quotes is undone by collapsing `""` |
| RegistrationExport.QuoteRoundTrip | src/components/ExportRegistrations.tsx:69-74 | a quoted cell reads back as the text it was made from |
| RegistrationExport.EscapeShape | src/components/ExportRegistrations.tsx:69 | escaping adds one character per double quote and introduces no line break |
| RegistrationExport.CellsSpec | src/components/ExportRegistrations.tsx:68-76 | the six text cells read back as the six fields in header order, and the seventh is the timestamp or `N/A` |
| RegistrationExport.HeaderColumns | src/components/ExportRegistrations.tsx:64-65 | the header line splits at commas into exactly the seven column names and has no line break |
| RegistrationExport.DataLinesAt | src/components/ExportRegistrations.tsx:67-78 | data line k is the line of registration k |
| RegistrationExport.DataLineSingle | src/components/ExportRegistrations.tsx:68-77 | a registration without line breaks gives a data line without one |
| RegistrationExport.DataLinesSingle | src/components/ExportRegistrations.tsx:67-78 | registrations without line breaks give data lines without one |
| RegistrationExport.SplitHeaded | src/components/ExportRegistrations.tsx:80 | a header and lines without line breaks, joined by line breaks, split back into the header and the lines |
| RegistrationExport.CsvLinesSplit | src/components/ExportRegistrations.tsx:63-80 | when no field holds a line break, splitting the CSV text at line breaks gives back the header and the data lines, so there are 1 + n lines |
| RegistrationExport.BuildCsv | src/components/ExportRegistrations.tsx:63-80 | the row-pushing loop produces the header and the data lines in order, joined by line breaks |
| RegistrationExport.ExportToCsv | src/components/ExportRegistrations.tsx:50-98 | a failed fetch gives the failure outcome and no file; no registrations gives no file; otherwise the file is the byte-order mark followed by the CSV text, and the count is the number of documents |
| Election.EntryIndexSpec | src/pages/Election2016.tsx:118 | the lookup finds the first entry with the district's name, and every entry before it has a different name |
| Election.FilteredConstituenciesSpec | src/pages/Election2016.tsx:114-119 | `'all'` gives the full list, a listed district gives its own list, and any other value gives the empty list |
| Election.CandidateNameSpec | src/pages/Election2016.tsx:152 | the leader's name is given to that one constituency and no other; every other name is the prefix followed by the constituency, which can be read back |
| Election.EntrySeats | src/pages/Election2016.tsx:149 | one seat per constituency of the entry, in order, each carrying the entry's district |
| Election.SeatsAppend | src/pages/Election2016.tsx:148 | the seats of two tables put together are the seats of each in turn |
| Election.SeatsAt | src/pages/Election2016.tsx:148-149 | constituency j of entry i is the seat at position (seats before entry i) + j |
| Election.NumberedAt | src/pages/Election2016.tsx:146-151 | candidate k is made for seat k with id k + 1 |
| Election.GenerateAllCandidates | src/pages/Election2016.tsx:144-166 | the nested loops with a running id return exactly `Numbered(Seats(table))`: one candidate per seat of the table in seat order, numbered from 1 |
| Election.Filter | src/pages/Election2016.tsx:182 | a filter never lengthens the list |
| Election.FilterSpec | src/pages/Election2016.tsx:182 | a filter keeps exactly the elements that satisfy its predicate, in their order |
| Election.FilterAll | src/pages/Election2016.tsx:179-189 | a filter whose predicate holds everywhere changes nothing |
| Election.FilterAgree | src/pages/Election2016.tsx:181-186 | filters by predicates that agree on the list give the same result |
| Election.FilterFilter | src/pages/Election2016.tsx:181-186 | filtering twice is filtering once by the conjunction |
| Election.FilteredCandidatesSpec | src/pages/Election2016.tsx:178-190 | the two-stage filter equals one filter by "matches both selections"; the result is an ordered subsequence holding exactly the matching candidates; `'all'`/`'all'` keeps the list unchanged |
| Election.ElectionPage.constructor | src/pages/Election2016.tsx:21-28 | both selections start at `'all'`, and the uploaded list is the stored one |
| Election.ElectionPage.HandleDistrictChange | src/pages/Election2016.tsx:124-127 | selects the district, resets the constituency to `'all'` and keeps the uploaded list |
| Election.ElectionPage.HandleConstituencyChange | src/pages/Election2016.tsx:313 | only the constituency selection changes |
| Election.ElectionPage.HandleCandidatesImport | src/pages/Election2016.tsx:171-175 | the imported list replaces the uploaded one, and the selections are kept |
| Election.DisplayedSpec | src/pages/Election2016.tsx:168-192 | the page shows, in order, exactly the candidates of the list in use that match both selections; the list in use is the uploaded one when it is non-empty, otherwise the one generated from the page's own district table |
| Election.AfterDistrictChange | src/pages/Election2016.tsx:124-127 | after a district change every candidate of that district is shown |
| RegistrationStats.TotalAppend | src/components/TamilNaduMap.tsx:45 | the total of two lists put together is the sum of their totals |
| RegistrationStats.TotalBounds | src/components/TamilNaduMap.tsx:45 | no district has more registrations than the total |
| RegistrationStats.TotalPermutation | src/components/TamilNaduMap.tsx:45-87 | any reordering of the districts, such as the sort, keeps the total |
| RegistrationStats.RoundedAverageSpec | src/components/TamilNaduMap.tsx:47 | the average is undefined exactly when there are no districts; otherwise it is the unique integer nearest to total/count, with halves rounded up |
| RegistrationStats.PanelFigures | src/components/TamilNaduMap.tsx:7-47 | the panel lists 35 districts with 37716 registrations in all, and the rounded average of that total over that count is 1078 |
| RegistrationStats.SortByRegistrations | src/components/TamilNaduMap.tsx:87 | the in-place sort leaves the districts in descending order of registrations and as a permutation of the input; an already-sorted array is left unchanged |
| RegistrationStats.SwapAdjacent | src/components/TamilNaduMap.tsx:87 | exchanging two neighbours keeps the multiset |
| RegistrationStats.IndexOf | src/components/TamilNaduMap.tsx:194 | the index is −1 or a position of the list |
| RegistrationStats.RankSpec | src/components/TamilNaduMap.tsx:194 | the rank is the 1-based position of the first district with the selected name; it is 0 exactly when nothing is selected or the name is not listed |
| RegistrationStats.RankOrder | src/components/TamilNaduMap.tsx:194 | in the sorted ranking, every district with more registrations ranks ahead of the selected one |
| RegistrationStats.SelectedRegistrations | src/components/TamilNaduMap.tsx:187 | the shown count exists exactly when the rank is non-zero, and it is the count of the district at that rank |
| RegistrationStats.ToggleSpec | src/components/TamilNaduMap.tsx:91 | a click clears the selection exactly when the clicked district was selected, and otherwise selects it; a second click on it clears it |
| RegistrationStats.RankingPanel.constructor | src/components/TamilNaduMap.tsx:7-43 | the panel holds the given districts and nothing is selected |
| RegistrationStats.RankingPanel.Click | src/components/TamilNaduMap.tsx:91 | the selection becomes its toggle by the clicked name |
| RegistrationStats.RankingPanel.Ranking | src/components/TamilNaduMap.tsx:87 | the rendered ranking is the sorted array: descending, a permutation of the districts, and with the same total |
| RegistrationStats.RankingPanel.SelectedRank | src/components/TamilNaduMap.tsx:194 | sorting again leaves the already-sorted array unchanged, and the rank shown is that of the selected district in the sorted array |
| Countdown.SecondsSplit | src/components/CountdownTimer.tsx:42-45 | whole seconds are exactly days·86400 + hours·3600 + minutes·60 + seconds of the split |
| Countdown.OnTickSpec | src/components/CountdownTimer.tsx:36-51 | a positive distance splits into in-range hours, minutes and seconds that add up to its whole seconds, with days its whole days, and the timer keeps running; any other distance shows zeros and stops the timer |
| Countdown.OnTickInverse | src/components/CountdownTimer.tsx:40-46 | a tick at any instant within a second of a normal time left shows that time left: the split inverts `TotalSeconds` |
| Countdown.Decimal | src/components/CountdownTimer.tsx:60 | `String(n)` is never empty |
| Countdown.DigitRoundTrip | src/components/CountdownTimer.tsx:60 | each digit's character is a digit that reads back as it |
| Countdown.DecimalSpec | src/components/CountdownTimer.tsx:60 | `String(n)` has only digits, starts with `0` exactly for 0, and reads back as n |
| Countdown.PadStartSpec | src/components/CountdownTimer.tsx:60 | `padStart` keeps the string at the end, pads only with the fill character, and reaches the width unless the string is already longer |
| Countdown.ParseLeadingZero | src/components/CountdownTimer.tsx:60 | a leading zero does not change the value read |
| Countdown.DisplaySpec | src/components/CountdownTimer.tsx:60 | the shown text is all digits, at least two long, exactly two for values below 100, and reads back as the value |
| Register.WithFieldSpec | src/pages/Register.tsx:31-35 | changing one input sets that field and leaves every other field as it was |
| Register.ValidateSpec | src/pages/Register.tsx:44-55 | mismatched passwords give the mismatch error first; otherwise a password shorter than 6 gives the length error; submission goes ahead exactly when the passwords match and are at least 6 long |
| Register.AuthErrorMessageSpec | src/pages/Register.tsx:81-90 | each known failure code gets its own message, and every other code gets the generic one |
| Register.RegisterPage.constructor | src/pages/Register.tsx:11-20 | the form starts empty with no error and not loading |
| Register.RegisterPage.HandleChange | src/pages/Register.tsx:31-37 | one field changes and the error is cleared |
| Register.RegisterPage.HandleSubmit | src/pages/Register.tsx:39-94 | loading ends in every case; an account is attempted exactly when validation passes; a failed validation sets its error and saves nothing; success saves the member record with the form's details, the time and the `member` role, and only success navigates to the home page; a failed sign-up sets its code's message |
| Attendance.WithFieldSpec | src/components/AttendanceForm.tsx:25-28 | changing one input sets that field, leaves every other field as it was, and leaves the photo alone |
| Attendance.CardFileNameSpec | src/components/AttendanceForm.tsx:94-110 | the card file is a `.png` named with the member's name just before the extension, prefixed by the district and a dash when there is a photo and by `Rally-Card-` when there is none |
| Attendance.AttendancePage.constructor | src/components/AttendanceForm.tsx:14-23 | the form starts empty and the preview is closed |
| Attendance.AttendancePage.HandleChange | src/components/AttendanceForm.tsx:25-28 | only the named input changes |
| Attendance.AttendancePage.HandlePhotoLoaded | src/components/AttendanceForm.tsx:34-40 | only the photo changes, to the loaded data URL |
| Attendance.AttendancePage.HandleSubmit | src/components/AttendanceForm.tsx:45-50 | the preview opens exactly when name, e-mail, phone and district are all filled in; otherwise nothing changes |
| Attendance.AttendancePage.ClosePreview | src/components/AttendanceForm.tsx:269 | the preview closes and the form is kept |
| Attendance.PreviewAfterEdit | src/components/AttendanceForm.tsx:263 | clearing any required input hides an open preview; the member id is not required |
| Attendance.CardLayout | src/components/AttendanceForm.tsx:53-107 | the photo lies wholly on the 480×550 card, every text anchor lies on the card, and with a photo the name and district lines sit below it |
| InteractiveMap.MaxRegistrations | src/components/InteractiveTNMap.tsx:18 | there is a maximum exactly when the list is non-empty |
| InteractiveMap.MaxRegistrationsSpec | src/components/InteractiveTNMap.tsx:18 | the maximum bounds every count and is the count of some district |
| InteractiveMap.ToLower | src/components/InteractiveTNMap.tsx:29 | lowering keeps the length and maps each character on its own |
| InteractiveMap.FirstMatchSpec | src/components/InteractiveTNMap.tsx:28-31 | the search stops at the first district the text names, and no earlier district is named by it |
| InteractiveMap.MatchLabelSpec | src/components/InteractiveTNMap.tsx:23-31 | a blank label matches nothing; otherwise a label matches the first district whose English name, in any letter case, or Tamil name equals its trimmed text, and it matches nothing exactly when no district is so named |
| InteractiveMap.ToLowerIdempotent | src/components/InteractiveTNMap.tsx:29 | lowering twice is lowering once |
| InteractiveMap.LabelCaseInsensitive | src/components/InteractiveTNMap.tsx:29 | a label whose text equals a district's English name up to letter case, written in lower case, still names that district |
| InteractiveMap.StyleLabels | src/components/InteractiveTNMap.tsx:23-57 | the label loop turns every label into `StyleLabel` of what it was |
| InteractiveMap.StyleLabelSpec | src/components/InteractiveTNMap.tsx:33-57 | an unmatched label is untouched; a matched one shows the Tamil name in bold at 28px, and it is red exactly when its district is selected |
| InteractiveMap.FillColorMatchesShare | src/components/InteractiveTNMap.tsx:91-100 | the integer comparisons choose the same shade as comparing the share registrations/max with 0.7 and 0.4 |
| InteractiveMap.ShareAbove | src/components/InteractiveTNMap.tsx:96-98 | for a positive denominator, r/m > t exactly when r > t·m |
| InteractiveMap.FillColorExtremes | src/components/InteractiveTNMap.tsx:91-100 | unless it is selected, the district with the most registrations is shaded high and a district with none is shaded low, also when every count is 0 |
| InteractiveMap.MatchedStyle | src/components/InteractiveTNMap.tsx:102-105 | an area near a matched label always gets a fill, and never the no-data style |
| InteractiveMap.FillUnmatched | src/components/InteractiveTNMap.tsx:135-144 | every area without a fill gets the grey no-data style, shaded areas are untouched, and afterwards every area has a fill |

## Left out

- Firebase (the registration query, account creation, the profile update and the profile write), `localStorage`, `FileReader`, `file.text()` and the timer are not modelled. Their results are parameters: the fetched documents or a failure, the sign-up outcome, the stored list, the file text or the read's failure, the photo's data URL, and the distance in milliseconds.
- Canvas drawing, `toDataURL`, the download links and `alert` are not modelled. Only the card's geometry and the downloaded file names are.
- The JSON export of the registrations page is not modelled; the CSV export is.
- The export's file name (it holds the current date) and `toLocaleString` of the timestamp are not modelled. The timestamp arrives as the text it would be shown as. The model writes that cell unquoted, as the source does.
- The map's geometry is not modelled: the bounding boxes, the distance-below-200 test that picks the areas near a label, and which areas that test selects. `MatchedStyle` gives the style such an area receives.
- Event listeners, hover effects, cursors, transitions, animations and the loading flags of the upload dialog are not modelled.
- RegistrationStats.SortByRegistrations: proves descending order, that the result is a permutation, and that an already-sorted input is unchanged. It does not prove stability on general input.
- Floating point is not modelled. Shares are compared exactly, by cross-multiplication. `Math.round` of total/count is computed exactly on integers. The countdown's floors of fractional quotients are integer division, which agrees for positive distances.
- InteractiveMap.ToLower: lowers only the ASCII letters. `toLowerCase` on other scripts is not modelled; Tamil has no letter case.
- Register.ValidateSpec: string lengths count code points, where JavaScript counts UTF-16 code units. The two agree for the Basic Multilingual Plane, which includes Tamil.
- `districtConstituencies[selectedDistrict]` is modelled as a lookup in the table. Keys inherited from the object prototype are not modelled.
- Register.RegisterPage.HandleSubmit: the three writes after validation are one outcome. A failure after the account was created but before the profile was written is not modelled separately.
- Login, the video upload and the purely presentational components (header, footer, hero, location, updates, video promo) are not part of this model.
