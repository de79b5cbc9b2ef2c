# Kua AgroApp record lifecycle, in Dafny

Kua AgroApp collects fruit-bagging and harvest counts from growers. Each
grower logs in with a code. The grower fills in a draft record for the current
ISO week. The app derives two quantities from the draft: `embolse` (bagged)
and `faltante` (missing). It writes the grower's whole ledger to one remote
document, and it shows the ledger the store sends back. The ledger can be
exported as comma-separated text.

This project models that core, which lives in `src/App.jsx`:

- `Calendar` (calendar.dfy): dates, day numbers since 1970-01-01, and
  `getWeekNumber`. It is proved equal to the week number of section 4.1.4 of
  ISO 8601:2004: weeks start on Monday, and week 1 holds the year's first
  Thursday.
- `Decimal` (decimal.dfy): the keystroke pattern `^\d*\.?\d*$` as an
  automaton, `parseFloat(x) || 0` over the text that pattern accepts, and
  `String(n)` for integers below 10^21 in magnitude.
- `Form` (form.dfy): the draft (`formData`), `handleInputChange`'s filter, and
  `calculatedFields`.
- `Ledger` (ledger.dfy): records, the week value, building a record on commit,
  and how a document snapshot becomes the ledger.
- `Csv` (csv.dfy): `exportToExcel`'s text, plus a splitter that shows when the
  text can be read back.
- `Login` (login.dfy): the login form's empty check and `trim().toUpperCase()`.
- `KuaApp` (app.dfy): the `App` component as a class whose fields are its
  state, and the remote store as a class that maps grower codes to ledgers.
  The handlers are methods.

Clock reads (`Date.now()`, `new Date()`) are method parameters. So are the
store's answer to a write (succeeded or rejected) and the sign-in state.

Where the intended behaviour and the code disagree, the model follows the
code:

- After a manual edit the week is the text of the number input, not a number
  (`Ledger.WeekValue.Entered`). That text is stored in the record and exported
  verbatim.
- Logging in with a new code does not clear the ledger on screen. Only the next
  snapshot replaces it (`KuaApp.App.HandleLogin`).
- `handleAddRecord` does not touch the ledger on screen. It only writes
  `[record, ...records]` to the store. The ledger changes when the echo of
  that write arrives (`KuaApp.CommitThenEcho`).
- `lote` and `color` accept any text. They stay among the offered options only
  while the selects send those options (`Form.UpdateFieldKeepsOptions`).
- A rejected write throws out of `await setDoc`. The draft and the view then
  stay as they were, and no message is shown.

## Model

| member | source | states |
|---|---|---|
| `Calendar.DayNumber` | src/App.jsx:73-76 | `Date.UTC(...) / 86400000` counts days from 1970-01-01, which is day 0. |
| `Calendar.DayOfYearBounds` | src/App.jsx:75-76 | A date's day number minus that of 1 January of its year lies between 0 and the length of the year minus 1. |
| `Calendar.UtcDay` | src/App.jsx:74 | `getUTCDay()` lies in 0..6, and it is 4 (Thursday) exactly on the days a multiple of 7 away from 1970-01-01. |
| `Calendar.WeekNumber` | src/App.jsx:72-77 | The week number of any valid date is between 1 and 53. |
| `Calendar.WeekNumberIsIsoWeek` | src/App.jsx:72-77 | For every date, the result is its ISO 8601 week, and the ISO week-numbering year is the year of that week's Thursday. This covers 31 December in week 1 and 1 January in week 52 or 53. |
| `Calendar.IsoWeekUnique` | src/App.jsx:72-77 | A date has only one ISO week and week-numbering year, so the week in the previous row is the only right answer. |
| `Calendar.ThursdayOf` | src/App.jsx:73-74 | Moving by `4 - (getUTCDay() \|\| 7)` days gives a valid date that is a Thursday, in the same Monday-to-Sunday week. |
| `Calendar.AddDays` | src/App.jsx:74 | `setUTCDate` with an overflowing or underflowing day moves into the neighbouring month or year. The result is a valid date exactly k days later. |
| `Calendar.UtcDayOrSevenIsIsoWeekday` | src/App.jsx:74 | `getUTCDay() \|\| 7` is the ISO weekday: Monday is 1 and Sunday is 7. |
| `Calendar.YearOfDayNumber` | src/App.jsx:75 | A date's year is the one whose span of day numbers holds it, which fixes the year that `yearStart` is taken from. |
| `Calendar.WeekNumberFromThursday` | src/App.jsx:72-77 | Once the year holding the Thursday is known, the week number is that Thursday's rounded-up ordinal in its year. |
| `Calendar.WeekNumberOfNewYear2024` | src/App.jsx:72-77 | 2024-01-01 is in week 1. |
| `Calendar.WeekNumberOfNewYearsEve2023` | src/App.jsx:72-77 | 2023-12-31 is in week 52. |
| `Calendar.WeekNumberOfMarch15th2024` | src/App.jsx:72-77 | 2024-03-15 is in week 11. |
| `Calendar.WeekNumberOfJanuary3rd2021` | src/App.jsx:72-77 | 2021-01-03 is in week 53 of 2020. |
| `Calendar.WeekNumberOfDecember30th2024` | src/App.jsx:72-77 | 2024-12-30 is in week 1 of 2025. |
| `Decimal.IsPartialDecimal` | src/App.jsx:165 | The pattern test holds exactly when the text before the first dot and the text after it are both runs of digits. |
| `Decimal.PartialDecimalShape` | src/App.jsx:165 | The pattern accepts a string exactly when it is digits, then optionally one dot and more digits. |
| `Decimal.PatternExamples` | src/App.jsx:165 | `"12.3.4"` and `"1a"` are refused. `"12."`, `".5"`, `""` and `"."` are accepted. |
| `Decimal.ParseFloat` | src/App.jsx:126-128 | On accepted text, `parseFloat` gives NaN exactly when there is no digit, and otherwise a non-negative value. |
| `Decimal.FractionValue` | src/App.jsx:126-128 | The k digits after the dot stand for a number in [0, 1) that 10^k multiplies into the value of those digits. |
| `Decimal.ParseFloatValue` | src/App.jsx:126-128 | The number read has the digits before the dot as its whole part (its floor), and the rest is the fraction written after the dot. |
| `Decimal.ParseAmount` | src/App.jsx:126-128 | `parseFloat(x) \|\| 0` is never negative, is 0 when `parseFloat` gives NaN, and is otherwise the number `parseFloat` read. |
| `Decimal.ParseExamples` | src/App.jsx:126-128 | `""` and `"."` read as 0, `"12."` as 12, `".5"` as 0.5 and `"10"` as 10. |
| `Decimal.NatToString` | src/App.jsx:196 | `String(n)` for a natural number n < 10^21 is a non-empty run of digits whose value is n. It has no leading zero, so 0 prints as the single digit `0`. |
| `Decimal.IntToString` | src/App.jsx:196 | `String(n)` for an integer of magnitude below 10^21 is a minus sign exactly when n is negative, followed by digits whose value is the magnitude of n. Together with `OneDigitString` and `TwoDigitString` this fixes the text of every week 1..53. |
| `Decimal.TwoDigitString` | src/App.jsx:196 | `String(n)` for 10 <= n < 100 is its tens digit followed by its units digit. |
| `Decimal.NatToStringParses` | src/App.jsx:126-128 | The printed digits of n are accepted by the pattern and read back as n. |
| `Form.UpdateField` | src/App.jsx:163-167 | A numeric field refuses text outside the pattern and leaves the draft unchanged. Otherwise the named field takes the value verbatim and every other field keeps its value. `lote` and `color` skip the check. |
| `Form.UpdateFieldPreservesWellFormed` | src/App.jsx:163-167 | Whatever is typed, all four numeric fields stay accepted text. |
| `Form.UpdateFieldKeepsOptions` | src/App.jsx:163-167 | If the selects send only offered options, `lote` and `color` stay among the options. |
| `Form.UpdateFieldExamples` | src/App.jsx:165-166 | `"12.3.4"` leaves the draft as it was. `"12."`, `".5"` and `""` are stored. A lot name is stored without a check. |
| `Form.InitialDraftWellFormed` | src/App.jsx:85-92 | The initial draft (`Lote 1`, `Blanco`, empty counts) is well formed and uses offered options. |
| `Form.DerivedFields` | src/App.jsx:125-132 | For every well-formed draft, `embolse` is the sum of the amounts read from `presente` and `novedades`, and `faltante` is `embolse` minus the amount read from `cosecha`. So `embolse` is non-negative. |
| `Form.DerivedFieldsIgnoreOtherFields` | src/App.jsx:125-132 | `lote`, `color` and `prematuro` do not affect the derived values. |
| `Form.DerivedFieldsOfCounts` | src/App.jsx:125-132 | For whole counts p, n and c, `embolse` is p + n and `faltante` is p + n - c. |
| `Form.DerivedFieldsExample` | src/App.jsx:125-132 | Presente 10, novedades 2 and cosecha 9 give embolse 12 and faltante 3. |
| `Form.ClearAmounts` | src/App.jsx:151-159 | After a commit the four numeric fields are `""`, `lote` and `color` are kept, and the draft stays well formed. |
| `Form.DerivedFieldsOfClearedDraft` | src/App.jsx:125-132 | A cleared draft derives 0 and 0. |
| `Ledger.NewRecord` | src/App.jsx:140-146 | The record holds the given time, week and code. Its six draft fields equal the draft, and its two derived values equal those of the draft. |
| `Ledger.Prepend` | src/App.jsx:147 | The written ledger is one longer than the old one. It has the new record first and the old ledger as its tail. |
| `Ledger.Ingest` | src/App.jsx:114-120 | A missing document gives `[]`. An existing one gives its `records`, or `[]` when the field is absent. The old ledger plays no part. |
| `Ledger.IngestEchoOfCommit` | src/App.jsx:147-150 | Taking in the document just written gives the record in front of the old ledger. |
| `Csv.HeaderCellsPlain` | src/App.jsx:180-191 | No header cell contains a comma or a line break. |
| `Csv.RecordFields` | src/App.jsx:194-206 | Each record gives exactly as many cells as the header has columns. |
| `Csv.Rows` | src/App.jsx:194-207 | There is one line per record, in ledger order. Line i is record i's cells joined by commas. |
| `Csv.SplitJoin` | src/App.jsx:206-209 | Joining parts that do not contain the separator, then splitting, gives the parts back. |
| `Csv.ExportCsv` | src/App.jsx:192-209 | The text opens with the header line. It is the header line alone exactly when there is no record, and otherwise a line break follows the header line. |
| `Csv.JoinEnds` | src/App.jsx:206-209 | `join` puts the first part at the start, a separator right after it when more parts follow, and the last part at the end. |
| `Csv.ExportLines` | src/App.jsx:192-209 | If no cell contains a line break, the text splits into the header line followed by one line per record: n + 1 lines. |
| `Csv.ExportRowSplitsBack` | src/App.jsx:192-209 | If no cell contains a comma or a line break, line i + 1 splits back into exactly record i's ten cells. |
| `Csv.ExportExampleRow` | src/App.jsx:194-206 | Grower A7, week 11 computed on 2024-03-15, `Lote 2`, `Azul`, counts `""`, 10, 2 and 9 give the line `11,A7,Lote 2,Azul,,10,2,9,12,3`. |
| `Csv.CommaInCellBreaksColumns` | src/App.jsx:194-206 | Cells are not quoted. A comma in the lot cell makes the line read back as eleven cells, not ten. |
| `Login.Trim` | src/App.jsx:135 | The result is the slice of the input that starts at its first non-space. Everything before and after that slice is white space, and the slice neither starts nor ends with white space. |
| `Login.TrimEmptyIffBlank` | src/App.jsx:135 | The trimmed code is empty exactly when the input is all white space. |
| `Login.ToUpper` | src/App.jsx:135 | Each character is upper-cased in place, and the length is kept. |
| `Login.Normalize` | src/App.jsx:134-136 | The stored code is the trimmed input, upper-cased. It has no surrounding white space and no lower-case letter. |
| `Login.NormalizeIdempotent` | src/App.jsx:134-136 | Normalizing a stored code changes nothing. |
| `Login.NormalizeExample` | src/App.jsx:134-136 | `" a7 "` is stored as `"A7"`. |
| `Login.Submit` | src/App.jsx:282-290 | Only the empty input is refused (with the message). Any other input is passed on untouched. |
| `Login.BlankCodePassesThenEmpties` | src/App.jsx:284-289 | An input of blanks passes the empty check but becomes the empty code. |
| `KuaApp.DocumentStore.SetDoc` | src/App.jsx:148-150 | A successful write replaces the whole document under the key. Nothing is merged, and the last writer wins. A rejected write changes nothing. |
| `KuaApp.DocumentStore.SnapshotOf` | src/App.jsx:113-116 | The snapshot for a key exists exactly when the key has a document, and then it carries that document's records. |
| `KuaApp.App.constructor` | src/App.jsx:80-94 | Initial state: no code, form view, the computed week of today (not overridden), the initial draft, an empty ledger, and not ready. |
| `KuaApp.App.OnAuthStateChanged` | src/App.jsx:98-105 | A signed-in user makes the app ready. Otherwise nothing changes. |
| `KuaApp.App.HandleLogin` | src/App.jsx:134-136 | The code becomes the normalized input, and the ledger on screen is kept. |
| `KuaApp.App.HandleInputChange` | src/App.jsx:163-167 | The draft becomes `UpdateField` of the old draft, and the app invariant is kept. |
| `KuaApp.App.HandleWeekChange` | src/App.jsx:169-172 | The week becomes the entered text verbatim, without range clamping, and it is marked overridden. |
| `KuaApp.App.ResetToCurrentWeek` | src/App.jsx:174-177 | The week becomes the computed week of today, and the override flag is cleared. |
| `KuaApp.App.OnSnapshot` | src/App.jsx:114-120 | The ledger on screen is replaced wholesale by what the snapshot carries. |
| `KuaApp.App.HandleAddRecord` | src/App.jsx:138-161 | Without store, code or readiness nothing changes. Otherwise `[record] + ledger` is written under the code. The record carries the current week, the code, the draft and its derived values. Only on success are the counts cleared (lot and colour kept) and the view switched to `data`. The ledger on screen is not touched. |
| `KuaApp.CommitThenEcho` | src/App.jsx:138-161 | A successful commit followed by its echoed snapshot leaves a ledger one longer. Its first record carries the time, week, code, all draft fields and derived values, and the rest is the old ledger. |

## Left out

- Firebase setup and parsing of the configuration (src/App.jsx:16-38) are out. So is the collection path: the store is keyed by the grower code alone. `store == null` stands for a failed configuration.
- The auth subscription and the anonymous sign-in retry (src/App.jsx:96-108) are out. Sign-in state is a boolean parameter.
- The lifetime of the `onSnapshot` subscription (src/App.jsx:110-123) is out: subscribing, unsubscribing and resubscribing when the code or readiness changes. `OnSnapshot` models only the callback, with the snapshot as a parameter. `Connected` states the subscription's condition.
- Clock reads are parameters. Record ids are therefore not proved unique.
- Blob creation, the download link and the file name (src/App.jsx:210-220) are browser I/O and are out.
- Decimal.NatToString: prints plain digits for every natural number. JavaScript's `String` switches to exponent form (`1e+21`) from 10^21 on, and is exact only below 2^53. Only weeks 1..53 reach this conversion.
- Decimal.IntToString: plain digits for every integer, through `NatToString`. The 10^21 bound of the line above applies to the magnitude.
- Csv.RecordFields: JavaScript's number-to-text conversion is a parameter `show`, because it is floating-point formatting. `ShowWhole` matches it only for whole numbers below 10^21 in magnitude.
- Decimal.ParseFloat: the value is an exact real, not an IEEE-754 double. `parseFloat`'s handling of signs, exponents, leading white space and `Infinity` is not modelled. Its precondition is the pattern, and `App.Valid` proves that every numeric draft field meets it.
- Form.DerivedFields: the sums are exact, not rounded to doubles.
- Calendar.WeekNumber: `Date.UTC` reads the years 0 to 99 as 1900 to 1999. The model takes every year as written, and it has no bound on the year, where JavaScript dates stop at about 275760.
- Login.Trim: only ASCII white space is removed. Unicode spaces are not.
- Login.ToUpper: only `a` to `z` are upper-cased. Full Unicode case mapping (`ñ`, `ß`, ...) is out.
- `activeTab`, the tab bar resetting the view to `form` (src/App.jsx:269-272) and the buttons that switch views (src/App.jsx:253, 260) are presentation and are out. So are all rendering components (src/App.jsx:40-70, 223-609).
- The export button being disabled on an empty ledger (src/App.jsx:511) is UI. `Csv.ExportCsv` of `[]` is the header line alone.
- KuaApp.App.HandleAddRecord: the handler runs as one step. Events that arrive while `await setDoc` is pending are not modelled: lot and colour are restored to their values at call time (src/App.jsx:153-154).
- Change events whose `name` is not one of the six inputs are not modelled. The form only has those six.
