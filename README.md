# Attendance record logic, modelled in Dafny

The application is a single-page browser app in which students check in
for a lesson. Staff see the check-ins on a filterable dashboard, export
them as CSV, and delete them from an admin panel. Every record lives in one
ordered list, `{name, studentId, note, date}`, stored as a whole under one
`localStorage` key. This project models the logic the event handlers in
`app.js` run over that list and proves what the code promises about it:

- **Check-in** (`handleCheckIn`). The three inputs are trimmed. A blank
  name or student id is silently ignored. A same-day repeat by the same
  student is refused. Otherwise one record stamped with the current ISO
  time is appended and the list is written back. The duplicate test
  compares the first ten characters of the stored `date` with those of
  the current time. The model proves that this guard keeps the invariant
  "no two records of one student on one calendar day". No assumption on
  the length of stored dates is needed, because the new record's day is
  the same ten-character prefix the guard compared.
- **Dashboard filter** (`filterDashboard`). An optional exact match of the
  date's day part is ANDed with an optional case-insensitive name
  substring match. The stored order is kept.
- **CSV export** (`exportCSV`). A fixed header row comes first, then one
  row per stored record. Every cell is wrapped in `"`. Cells are joined
  with `,` and rows with `\n`. Only the note has its quotes doubled. A
  small reader for this format is modelled too, and the export is proved
  to read back as the header plus every record's four fields.
- **Admin maintenance**. Delete by index is guarded by a bounds check and
  a confirmation. Clear-all after a confirmation leaves the list empty.

Files:

- `text.dfy` (module `Text`): `trim`, `toLowerCase`, `includes` and
  `slice(0, n)`.
- `records.dfy` (module `Records`): the record type, the calendar day of a
  timestamp, the `records.some(...)` duplicate scan, the per-day
  uniqueness invariant and removal by index.
- `dashboard.dfy` (module `Dashboard`): the two chained `filter` calls and
  their one-pass equivalent.
- `csv.dfy` (module `Csv`): the export text, the file name and the reader
  used to state the round trip.
- `store.dfy` (module `Store`): the class `AttendanceStore`. Its `records`
  field is the stored list, and its methods are the handlers that read or
  replace it.

The current time enters as the ISO string `nowIso`. The confirmation
dialogs enter as a boolean `confirmed`. The host's locale-dependent date
formatting enters as a function parameter `formatDate`.

Three points of the code's behaviour shape the model:

- Malformed stored text makes `JSON.parse` throw (app.js:7). Only a
  missing value, or a stored empty string, gives `[]` through
  `getItem(...) || '[]'`. The constructor therefore takes either a stored
  list or None for those two cases, and malformed text is not modelled.
- An empty or absent note exports as an empty cell (app.js:147), not as
  the dashboard's `-` placeholder. The export always reads the whole
  stored list (app.js:143), whatever the dashboard filter shows.
- The day is the UTC day taken from `toISOString()` (app.js:62). The model
  uses the first ten characters of `nowIso`, exactly as the code does.

## Model

| member | source | states |
|---|---|---|
| `Text.Trim` | app.js:54-56 | the trimmed input is a contiguous piece of the input, everything cut off is whitespace, it neither starts nor ends with whitespace, and it is empty exactly when the input is all whitespace |
| `Text.Prefix` | app.js:62 | `slice(0, n)` gives the first `n` characters, or the whole string when it is shorter, and is a prefix of it |
| `Text.Lower` | app.js:135 | `toLowerCase` keeps the length, leaves no ASCII capital, and changes a character only by turning an ASCII capital into its small letter |
| `Text.Contains` | app.js:138 | `includes` finds the empty string in every string and every prefix of a string in it, and never finds a string longer than the one searched |
| `Records.Day` | app.js:62 | the day of a timestamp is a prefix of it of at most ten characters, exactly ten when the timestamp has at least ten |
| `Records.AlreadyChecked` | app.js:64-66 | defines the `records.some(...)` scan: front to back, true at the first record with the same student id and the same day |
| `Records.AlreadyCheckedIff` | app.js:64-66 | the `some` scan answers yes exactly when some stored record has the same student id and the same first ten date characters as today |
| `Records.AppendKeepsNoDuplicates` | app.js:61-77 | appending a record that passed the duplicate scan for its own day keeps "no two records of one student on one day" |
| `Records.RemoveAt` | app.js:250 | `splice(i, 1)` leaves one element fewer; elements before `i` keep their positions and those after move down by one |
| `Records.RemoveKeepsNoDuplicates` | app.js:248-251 | removing a record keeps the one-per-student-per-day invariant |
| `Dashboard.Keep` | app.js:137-138 | `filter`: the result is no longer than the input and every kept record meets the criterion |
| `Dashboard.FilterDashboard` | app.js:133-139 | defines the view: the date filter when `dateVal` is non-empty, then the name filter when the trimmed, lower-cased name input is non-empty |
| `Dashboard.KeepIsSubsequence` | app.js:137-138 | a `filter` result is an order-preserving subsequence of its input |
| `Dashboard.KeepMembers` | app.js:137-138 | a record is in a `filter` result exactly when it is in the input and meets the criterion |
| `Dashboard.KeepCounts` | app.js:137-138 | a `filter` result holds each record that meets the criterion as many times as the input does, and no other record |
| `Dashboard.KeepAll` | app.js:137-138 | filtering a list whose every record meets the criterion returns the list unchanged |
| `Dashboard.KeepKeep` | app.js:137-138 | two filters in a row equal one filter by the conjunction of their criteria |
| `Dashboard.FilterDashboardIsQuery` | app.js:133-139 | the conditional date filter followed by the conditional name filter equals one pass that applies each part only when its input is non-empty |
| `Dashboard.FilterDashboardSelects` | app.js:134-138 | the view is a subsequence of the stored list in stored order; each record whose day is `dateVal` (if given) and whose lower-cased name contains the trimmed, lower-cased name input (if non-blank) occurs in it as many times as it is stored, and no other record occurs |
| `Dashboard.NoFilterIsIdentity` | app.js:137-138 | with an empty date and a blank name input the view is the whole list, in order |
| `Dashboard.FilterDashboardIdempotent` | app.js:134-138 | filtering the view again with the same inputs gives the same view |
| `Csv.Escape` | app.js:147 | defines `replace(/"/g, '""')`: every `"` becomes `""`, every other character is kept |
| `Csv.NoteCell` | app.js:147 | defines the note cell `r.note?.replace(...) \|\| ''`: the escaped note, or empty for an absent note |
| `Csv.Cells` | app.js:146-147 | defines a record's four cells: formatted date, name, student id as stored, and the note cell |
| `Csv.Row` | app.js:149 | defines a line: each cell wrapped in `"`, cells joined by `,` |
| `Csv.JoinLines` | app.js:149 | defines `join('\n')` over the lines |
| `Csv.Export` | app.js:143-149 | defines the file text: the header line and one line per stored record, joined by `\n` |
| `Csv.Lines` | app.js:144-148 | the export has the header line plus exactly one line per stored record |
| `Csv.CollapseEscape` | app.js:147 | turning every `""` of an escaped note back into `"` recovers the note exactly |
| `Csv.NoteCellReadsBack` | app.js:147 | the note cell reads back as the note; an absent or empty note gives an empty cell |
| `Csv.EscapeQuoteFree` | app.js:147 | doubling quotes leaves quote-free text unchanged |
| `Csv.SplitJoin` | app.js:149 | joining lines without line breaks by `\n` and splitting at `\n` gives the same lines back |
| `Csv.ParseEscapedCell` | app.js:149 | a quoted cell with doubled inner quotes reads back as the original cell, stopping at its closing quote |
| `Csv.ParseEscapedRow` | app.js:149 | a row of quoted, escaped cells joined by `,` reads back as the cells |
| `Csv.ExportLines` | app.js:143-149 | when no field holds a line break, splitting the export at `\n` gives exactly the header row followed by each stored record's row in stored order, so N+1 lines |
| `Csv.HeaderReadsBack` | app.js:145 | the header line reads back as `Date/Time`, `Name`, `Student ID`, `Note` |
| `Csv.RowReadsBack` | app.js:146-149 | when the unescaped date, name and student-id cells hold no `"`, a record's line reads back as its formatted date, name, student id and note, the note with its quotes restored; line breaks inside cells do no harm to reading one line |
| `Csv.ExportReadsBack` | app.js:143-149 | reading the exported text back gives N+1 lines: the header, then each stored record's four fields in stored order |
| `Csv.FileName` | app.js:155 | defines the download name, `attendance-` + the first ten characters of the current ISO time + `.csv` |
| `Csv.FileNameNamesTheDay` | app.js:155 | the day can be read back from the file name, and two exports get the same name exactly when they fall on the same day |
| `Store.AttendanceStore.constructor` | app.js:6-8 | a missing stored value or a stored empty string opens as the empty list; a stored list opens as itself |
| `Store.AttendanceStore.CheckIn` | app.js:51-82 | a blank trimmed name or id leaves the list unchanged; a same-day record of the same trimmed id gives "already checked in" and leaves the list unchanged; otherwise the list gains exactly one record at the end, `{trim(name), trim(id), trim(note), nowIso}`, with every earlier record in place; the per-day uniqueness invariant is kept |
| `Store.AttendanceStore.Delete` | app.js:246-254 | a valid, confirmed index removes exactly that record and keeps the order of the rest; an out-of-range index or a refusal changes nothing; the invariant is kept |
| `Store.AttendanceStore.ClearAll` | app.js:218-222 | after confirmation the list is empty; without it nothing changes |
| `Store.AttendanceStore.View` | app.js:133-139 | the dashboard view is the one-pass filter of the stored list by the combined date and name criterion, and a subsequence of that list |
| `Store.AttendanceStore.ExportCsv` | app.js:142-155 | the export covers the whole stored list, whatever the dashboard shows, and the file name carries the current day |

## Left out

- HTML templating and DOM wiring are not modelled, because they are
  presentation, not record logic. This covers the page markup,
  `getElementById`, the navigation handlers, `form.reset`, the message
  elements, and the table rendering with its `-` placeholder and "No
  records found." row.
- `localStorage` and the JSON encoding are not modelled; the store's
  `records` field stands for the stored list. Reading malformed stored
  text, which makes `JSON.parse` throw, is not modelled.
- `Date`, `toISOString` and the locale formatting in `formatDate` depend on
  the host clock, time zone and locale. The current time is the parameter
  `nowIso`, and `formatDate` is a function parameter with no assumed
  behaviour.
- The download itself (`Blob`, object URLs, the anchor click) is browser
  I/O. Only its text and file name are modelled.
- The confirmation dialogs are booleans passed in.
- The admin password comparison is a plain string equality, with no
  behaviour worth proving.
- `Text.Lower`: `toLowerCase` is modelled only for the ASCII letters
  `A`-`Z`. Other characters are left as they are, so non-ASCII case folding
  in the name filter is not captured. `trim` uses the full ECMAScript
  whitespace and line-terminator set.
- `Csv.ExportReadsBack`: the round trip is proved only for records whose
  formatted date, name and student id hold no `"`, and whose fields hold no
  line break. The code doubles quotes only in the note, so a quote in a name
  or student id gives a row that does not read back as its fields.
