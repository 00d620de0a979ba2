# Dashboard-OT overtime scheduling core, in Dafny

Dashboard-OT is a web dashboard that plans mandatory overtime ("lembur") for a
crew of workers (`pekerja`) across several overtime types (`jenis overtime`).
This project models the computational core of the dashboard and proves its
properties:

- **Weekday rotation** (`rotation.dfy`, module `Rotation`). The active workers
  are split into three contiguous groups of `ceil(n/3)`. Day `i` of the range
  is served by group `floor(i/3) mod 3`. Each overtime type gets, on each day,
  the first `alokasi_pekerja` members of the serving group.
- **Holiday calendar and work-day scan** (`holidays.dfy`, module `Holidays`).
  This covers:
  - the 2026 national holiday table and the collective-leave (`cuti bersama`)
    table;
  - the Sunday test and the skip rule;
  - the `YYYY-MM-DD` key format;
  - the inclusive scan that keeps the work days.

  Dates are integer day numbers (0 is 1970-01-01, a Thursday), so the weekday
  is `(n + 4) % 7`. The year, month and day of a date come from the
  proleptic Gregorian calendar.
- **Rest-day schedule** (`jadwal_libur.dfy`, module `JadwalLibur`). This covers
  the classification of each day of a range as Sunday (`Minggu`), listed
  holiday (`Libur Nasional`) or neither. It also covers the validation and the
  one-entry-per-rest-day-and-type generation of `handleGenerate`.
- **Performance ranking** (`ranking.dfy`, module `Ranking`). This covers:
  - per-worker planned and actual hours and the attendance counts;
  - the percentage and the `Optimal` / `Baik` / `Kurang` category;
  - the filter and the stable descending sort by the rounded percentage;
  - the three category lists.
- **Export tables** (`export.dfy`, module `Export`). This covers the header and
  the rows of the PDF and spreadsheet exports:
  - the worker and overtime-type filters;
  - the `'-'` placeholder;
  - dropping workers with nothing scheduled.
- **Preview grouping** (`rotation_plan.dfy`, module `RotationPlan`). The
  generated entries are bucketed by date, and the dates are kept in
  first-occurrence order.
- **Actual-attendance editing** (`actual_input.dfy`, module `ActualInput`).
  This covers the initial rows, the single-field edit, the normalisation of
  the duration field, and the payload of the save, with its guard.

Shared parts:

- `domain.dfy` holds the records of `src/types/index.ts` (`Pekerja`,
  `JenisOvertime`, the generated schedule entry).
- `text.dfy` holds decimal rendering and parsing of integers and two-digit
  padding.
- `seqs.dfy` holds `Array.prototype.filter` and `slice`.
- `wrappers.dfy` holds `Option` and `Result`.

The source's loops are modelled as methods with loop invariants, each proved
equal to a recursive specification function: `generateRotationSchedule`,
`getWorkDays`, `findLiburDays`, `handleGenerate`, the export row loop and
`groupByDate`. The properties are proved as lemmas about those functions. The
source's `map`/`filter`/`reduce` code is modelled as functions.

`generateRotationSchedule` is a fixed rule: the active workers are split into
three groups, and the groups take turns in three-day blocks. Rest days always
go to the first selected workers. That rule is what is modelled and proved.

## Model

| member | source | states |
|---|---|---|
| Rotation.GenerateRotationSchedule | src/utils/rotation.ts:5-46 | The nested day/type loop emits exactly the specification sequence `RotationSchedule` over the active workers' three groups, and a negative day count gives no entries |
| Rotation.PekerjaPerGrup | src/utils/rotation.ts:15 | The group size `k` is the ceiling of n/3: `n <= 3k < n + 3` |
| Rotation.GrupPekerja | src/utils/rotation.ts:15-20 | There are three groups, and they concatenate to the active workers in order |
| Rotation.GroupSplit | src/utils/rotation.ts:15-18 | The three groups concatenate to the active list in order. Groups 1 and 2 take `min(k, remaining)` workers, and group 3 takes the rest, at most `k` |
| Rotation.GroupBounds | src/utils/rotation.ts:16-18 | The groups are the slices `[..b1]`, `[b1..b2]` and `[b2..]` of the active list, for some `b1 <= b2 <= n` |
| Rotation.GroupPositions | src/utils/rotation.ts:16-18 | Position `x` of group 2 is active worker `len(g1) + x`, and position `x` of group 3 is `len(g1) + len(g2) + x` |
| Rotation.GroupsDisjoint | src/utils/rotation.ts:16-18 | With distinct worker ids, no id is in two groups and each group has distinct ids |
| Rotation.SmallTeams | src/utils/rotation.ts:15-18 | Group 1 is empty iff n = 0, and group 2 is empty iff n <= 1. Group 3 is empty iff n <= 2 or n = 4 |
| Rotation.GroupMembers | src/utils/rotation.ts:12-18 | Every group member is in the worker list and is active |
| Rotation.GrupIndex | src/utils/rotation.ts:27 | The serving group is in 0..2 and is the 3-day block of the day within its 9-day cycle: `(i mod 9) div 3` |
| Rotation.GrupIndexPeriod | src/utils/rotation.ts:27 | The serving group repeats every 9 days |
| Rotation.GrupIndexBlocks | src/utils/rotation.ts:27 | A day is served by the group of the first day of its 3-day block, and the next block is served by the next group, cyclically |
| Rotation.RotationScheduleLength | src/utils/rotation.ts:22-43 | The schedule has exactly days × types entries |
| Rotation.RotationScheduleAt | src/utils/rotation.ts:22-43 | Entry `i * T + k` (T types) is the entry of day `i` and type `k`, ordered by day and then by type |
| Rotation.RotationEntries | src/utils/rotation.ts:24-41 | Every entry has a date `start + i` for some `i < days` and one of the types. Its `grup_rotasi` is `floor(i/3) mod 3 + 1`, in 1..3, and `is_minggu` says whether the date is a Sunday. The type id and hours are copied from the type, and the workers are a slice of the serving group |
| Rotation.EntryAt | src/utils/rotation.ts:24-41 | The same property as `RotationEntries`, for one entry |
| Rotation.SameDateAgree | src/utils/rotation.ts:24-37 | All entries of one date share `grup_rotasi` and `is_minggu` |
| Rotation.SameBlockSameWorkers | src/utils/rotation.ts:27-31 | For one type, two days in the same 3-day block, or 9 days apart, get identical worker lists |
| Rotation.AssignedPrefix | src/utils/rotation.ts:31 | Every assigned list is a prefix of one of the three groups |
| Rotation.SlicePrefix | src/utils/rotation.ts:31 | `slice(0, a)` of a group is its first `min(a, len(group))` members for `a >= 0`. A negative `a` counts from the end, as in JavaScript |
| Rotation.OnlyAktifAssigned | src/utils/rotation.ts:12-31 | Only active workers from the list are ever assigned |
| Rotation.AssignedDistinct | src/utils/rotation.ts:12-31 | With distinct worker ids, no assigned list holds an id twice |
| Holidays.Weekday | src/utils/holidays.ts:91-93 | The weekday of a day number is in 0..6 |
| Holidays.EpochIsThursday | src/utils/holidays.ts:91-93 | Day 0 is 1970-01-01 and has weekday 4 (Thursday) |
| Holidays.GetMonth | src/utils/holidays.ts:114-119 | `getMonth()` lies in 0..11 |
| Holidays.GetDate | src/utils/holidays.ts:114-119 | `getDate()` lies in 1..31 |
| Holidays.GetAllHolidays | src/utils/holidays.ts:14-78 | The combined list holds the national entries first, then the collective-leave ones. Every date is a 10-character `2026-..` key |
| Holidays.HolidayDatesDistinct | src/utils/holidays.ts:14-78 | No date appears twice in the combined tables |
| Holidays.FormatDateForHoliday | src/utils/holidays.ts:114-119 | The key reads back as (year, `getMonth()+1`, `getDate()`), with the month and day zero-padded to two digits |
| Holidays.ParseFormatIsoDate | src/utils/holidays.ts:114-119 | Reading a formatted civil date gives the date back |
| Holidays.FormatIsoDateInjective | src/utils/holidays.ts:114-119 | Distinct civil dates have distinct keys |
| Holidays.FindByDate | src/utils/holidays.ts:105-109 | `find` by date gives nothing iff no entry has the date, and otherwise the first entry with it |
| Holidays.FindByDateAppend | src/utils/holidays.ts:76-109 | Searching the combined list searches the national list first, then collective leave |
| Holidays.HolidayIffFound | src/utils/holidays.ts:83-86 | `isHoliday` holds iff `find` on the combined tables by the date key succeeds, and the entry found has that key |
| Holidays.IsSunday | src/utils/holidays.ts:91-93 | A day is a Sunday iff it is 3 more than a multiple of 7 (1970-01-04 was the first Sunday) |
| Holidays.SkipDateIffSundayOrNamed | src/utils/holidays.ts:98-100 | A day is skipped iff it is a Sunday or `getHolidayName` gives a name |
| Holidays.GetHolidayName | src/utils/holidays.ts:105-109 | The name is non-null iff `isHoliday` holds, and it is the name of a table entry listed under the date key |
| Holidays.HolidayNameOfListedDate | src/utils/holidays.ts:105-109 | A date listed at position `i` gets that entry's name. The name is the national match if there is one, else the collective-leave match |
| Holidays.WorkDaysSpec | src/utils/holidays.ts:124-136 | The work days lie in `[s, e]`, are never skipped days and strictly increase. Every unskipped day of the range is among them |
| Holidays.WorkDaysEmptyRange | src/utils/holidays.ts:128 | An inverted range has no work days |
| Holidays.GetWorkDays | src/utils/holidays.ts:124-136 | The while loop returns `WorkDays(s, e)`: a day is in it iff it is in range and not skipped, and it is strictly increasing |
| Holidays.WorkDaysSplit | src/utils/holidays.ts:124-136 | Scanning a range equals scanning its two halves one after the other |
| Holidays.CountWorkDays | src/utils/holidays.ts:141-143 | The count is the number of unskipped days of the range, which is at most the range's length |
| Holidays.WorkDaysLength | src/utils/holidays.ts:141-143 | The scan returns at most the range's length |
| Holidays.NewYear2026IsHoliday | src/utils/holidays.ts:16 | 2026-01-01 (day 20454) is not a Sunday, is a holiday and is named "Tahun Baru Masehi" |
| Holidays.Hijri1448IsSundayAndHoliday | src/utils/holidays.ts:24 | 2026-03-22 (day 20534) is both a Sunday and a listed holiday |
| JadwalLibur.LiburOf | src/components/JadwalLibur.tsx:53-74 | A day is a rest day iff `shouldSkipDate` holds. A Sunday is `Minggu` / "Hari Minggu" even when listed. Otherwise a listed day is `Libur Nasional` with the holiday's name. The day name is the Indonesian weekday |
| JadwalLibur.ClassifyDay | src/components/JadwalLibur.tsx:55-73 | One loop step's classification is `LiburOf(day)` |
| JadwalLibur.FindLiburDays | src/components/JadwalLibur.tsx:46-77 | The loop over `totalDays + 1` days returns `LiburRange(start, end)` |
| JadwalLibur.LiburFirstRange | src/components/JadwalLibur.tsx:49-54 | Scanning `n` days from the start is the inclusive range up to `start + n - 1` |
| JadwalLibur.LiburRangeSnoc | src/components/JadwalLibur.tsx:53-74 | Extending the range by one day appends that day's classification, if any |
| JadwalLibur.LiburRangeSpec | src/components/JadwalLibur.tsx:49-74 | The rest days lie in range, are each their day's classification and come in strictly ascending order. Every skipped day of the range is among them |
| JadwalLibur.WorkAndRestDays | src/components/JadwalLibur.tsx:53-74 | Work days plus rest days of a range are exactly its days |
| JadwalLibur.SundayHolidayIsMinggu | src/components/JadwalLibur.tsx:59-65 | The Sunday holiday 2026-03-22 is tagged `Minggu` / "Hari Minggu" |
| JadwalLibur.PickCount | src/components/JadwalLibur.tsx:107 | The number picked is `min(alokasi_pekerja, n)`, or 0 for a negative allocation |
| JadwalLibur.PickPekerja | src/components/JadwalLibur.tsx:106-109 | The index loop with `i % n` picks exactly the first `PickCount` selected workers |
| JadwalLibur.HandleGenerate | src/components/JadwalLibur.tsx:79-127 | The validation and the nested loops return exactly `GenerateLibur` |
| JadwalLibur.GenerateLibur | src/components/JadwalLibur.tsx:79-127 | Generation fails iff no worker, no type or no rest day is selected, with the message of the first failing check in that order. On success the schedules are `LiburSchedule` of the rest days, the selected types and the selected workers, rest days × types entries, with the success message counting both |
| JadwalLibur.LiburScheduleLength | src/components/JadwalLibur.tsx:101-122 | The schedule has rest days × types entries |
| JadwalLibur.LiburScheduleAt | src/components/JadwalLibur.tsx:101-122 | Entry `i * T + k` (T types) belongs to rest day `i` and type `k`. It has group 0, `is_minggu` iff the day is `Minggu`, the type's id and hours, and the first `PickCount` selected workers |
| JadwalLibur.SelectedPekerjaMembers | src/components/JadwalLibur.tsx:97 | The selected workers are exactly the listed workers whose id is selected, with no active filter |
| JadwalLibur.AssignedDistinct | src/components/JadwalLibur.tsx:97-109 | With distinct ids in the list, the assigned workers have distinct ids |
| Ranking.OrZero | src/components/RankingPerforma.tsx:60-72 | A missing duration counts 0 |
| Ranking.SumAktualAttended | src/components/RankingPerforma.tsx:66-72 | `totalAktual` is the sum of durations over the attended rows only |
| Ranking.PekerjaStats | src/components/RankingPerforma.tsx:58-106 | The record is the worker's. The actual total sums attended rows only. The attended and missed counts are the numbers of attended and of missed rows, together all the actual rows. The shown share is the rounded `Persentase`, and the category is `KategoriOf` the unrounded share, agreeing with the shown one up to the 90 and 70 boundaries |
| Ranking.Persentase | src/components/RankingPerforma.tsx:78 | The percentage is 0 without planned hours, and `totalAktual / totalRencana × 100` otherwise |
| Ranking.KategoriOf | src/components/RankingPerforma.tsx:81-93 | `Optimal` iff p >= 90, `Baik` iff 70 <= p < 90, `Kurang` iff p < 70 |
| Ranking.Round | src/components/RankingPerforma.tsx:101 | The rounded value lies within one half of the input, rounding halves up |
| Ranking.RoundMonotone | src/components/RankingPerforma.tsx:101 | Rounding is monotone |
| Ranking.RoundedNinetyCanBeBaik | src/components/RankingPerforma.tsx:81-101 | 179 of 200 hours is 89.5 %, shown as 90 but categorised `Baik` |
| Ranking.AllStats | src/components/RankingPerforma.tsx:58-106 | One stats record per worker, in worker order |
| Ranking.InsertPermutes | src/components/RankingPerforma.tsx:111 | Inserting into the sorted list adds exactly that element |
| Ranking.InsertSorted | src/components/RankingPerforma.tsx:111 | Inserting keeps the list sorted non-increasingly by the rounded percentage |
| Ranking.SortByPersentase | src/components/RankingPerforma.tsx:111 | The sort returns a non-increasing permutation of its input |
| Ranking.InsertStable | src/components/RankingPerforma.tsx:111 | Insertion keeps the order of records with equal percentage |
| Ranking.SortStable | src/components/RankingPerforma.tsx:111 | The sort is stable: equal-percentage records keep their input order |
| Ranking.Rankings | src/components/RankingPerforma.tsx:108-111 | The rankings are sorted non-increasingly and are a permutation of the stats with `totalRencana > 0` |
| Ranking.RankingsSpec | src/components/RankingPerforma.tsx:109-110 | A stats record is ranked iff it is some worker's record and its planned total is positive |
| Ranking.FetchRanking | src/components/RankingPerforma.tsx:32-114 | When the worker query gives `null` the rankings stay as they were. Otherwise they are `Rankings` of the fetched rows: sorted non-increasingly and holding exactly the records with planned hours |
| Ranking.RankedWorkers | src/components/RankingPerforma.tsx:60-110 | A worker's stats are ranked iff their planned hours are positive |
| Ranking.CategorySplit | src/components/RankingPerforma.tsx:118-120 | The three category lists partition the rankings |
| Export.DayName | src/utils/rotation.ts:98-100 | The weekday name has at least six letters, so the PDF's three-letter abbreviation is always a prefix |
| Export.FormatDdMm | src/utils/export.ts:47 | `dd/MM` is five characters: the day, a slash and `getMonth()+1`, both zero-padded (spreadsheet header: line 124) |
| Export.Headers | src/utils/export.ts:47 | The PDF header is "Pekerja", then column `1 + i` is the heading of date `i`. The spreadsheet header is "Pekerja", "NIK", then column `2 + i` is the heading of date `i` (spreadsheet header: line 124) |
| Export.DateColumnParts | src/utils/export.ts:47 | A PDF date heading is the weekday's first three letters, a line break and `dd/MM`. A spreadsheet one is the full weekday, a space and `dd/MM` (spreadsheet: line 124) |
| Export.KeptItems | src/utils/export.ts:59-64 | An item is kept iff it is scheduled that day and the type filter is empty or names its type. An empty filter keeps the day's list as it is (spreadsheet: lines 137-142) |
| Export.ItemText | src/utils/export.ts:70 | An item's text is its type name, then `(`, the hours text and `j`, then `)`. The spreadsheet adds `, G` and the group before `)` (spreadsheet: line 148) |
| Export.CellText | src/utils/export.ts:66-72 | A cell is `'-'` exactly when no item is kept. Otherwise it starts with the first item's text, and a single item's cell is that text (spreadsheet: lines 144-150) |
| Export.CellTextCons | src/utils/export.ts:70 | A cell of several items is the first item's text, the separator, then the cell of the remaining items, so the texts appear in item order (spreadsheet: line 148) |
| Export.Cells | src/utils/export.ts:59-73 | One cell per date, in date order: cell `i` is the cell of the items kept on date `i` (spreadsheet: lines 136-151) |
| Export.RowPrefix | src/utils/export.ts:132 | The PDF row starts with the name. The spreadsheet row starts with the name and then the NIK, or `''` when there is none (PDF: line 54) |
| Export.RowMatchesHeader | src/utils/export.ts:124-132 | Every row has as many cells as the header: 1 + dates in the PDF, 2 + dates in the spreadsheet (PDF: lines 47 and 54) |
| Export.EmittedRowHasEntry | src/utils/export.ts:75-78 | A row that is emitted has a date cell other than `'-'` (spreadsheet: lines 153-156) |
| Export.BuildRow | src/utils/export.ts:132-157 | The per-date loop builds `RowOf`, and `hasAnySchedule` holds iff some date keeps an item (PDF: lines 54-78) |
| Export.CellsSnoc | src/utils/export.ts:57-73 | Each loop step appends the cell of the next date |
| Export.BuildExcelData | src/utils/export.ts:118-157 | The spreadsheet is the header followed by the rows of the selected workers |
| Export.RowsOf | src/utils/export.ts:49-78 | At most one row per worker, each as wide as the header (spreadsheet: lines 128-157) |
| Export.RowsOfSpec | src/utils/export.ts:49-78 | The rows are those of the workers that have a schedule entry and a non-empty cell, in list order, one row each (spreadsheet: lines 128-157) |
| Export.PdfRows | src/utils/export.ts:34-78 | At most one row per listed worker, each with the name and one cell per date |
| Export.ExportPdf | src/utils/export.ts:43-82 | No table for an empty date range, where formatting the first date throws. Otherwise the header, then the PDF rows, every row 1 + dates wide |
| Export.PdfRowWorkers | src/utils/export.ts:34-78 | A worker gets a row iff listed and selected, present in the schedule data and with some non-empty cell (spreadsheet: lines 118-157) |
| RotationPlan.GroupByDate | src/components/RotationPlan.tsx:69-78 | The keys are the distinct dates in first-occurrence order, and each key's bucket holds that date's entries in input order |
| RotationPlan.DateKeysMembers | src/components/RotationPlan.tsx:72-74 | A date is a key iff some entry has it |
| RotationPlan.DateKeysOrder | src/components/RotationPlan.tsx:72-74 | Keys are distinct, and a key listed before another first occurs in the input before the other's first occurrence (read in this order at line 136) |
| RotationPlan.BucketNonEmpty | src/components/RotationPlan.tsx:72-75 | No bucket is empty, and a bucket holds exactly the entries of its date |
| RotationPlan.BucketsCoverInput | src/components/RotationPlan.tsx:71-76 | The bucket sizes add up to the input length |
| RotationPlan.PreviewSundayFlag | src/components/RotationPlan.tsx:136-137 | For a rotation plan, the Sunday flag the preview reads off a bucket's first entry is shared by the whole bucket and says whether the date is a Sunday |
| ActualInput.InitialAktual | src/components/ActualInput.tsx:62-69 | One row per worker, in order, attended, with no duration, as planned and with an empty note |
| ActualInput.HandleInputChange | src/components/ActualInput.tsx:74-80 | Same length and order. The worker's rows get the edit and every other row is unchanged |
| ActualInput.ApplyField | src/components/ActualInput.tsx:76-78 | An edit sets the named field to the new value and keeps the worker and every other field |
| ActualInput.LastEditWins | src/components/ActualInput.tsx:74-80 | Two edits of the same field of a worker leave the later value |
| ActualInput.EditsCommute | src/components/ActualInput.tsx:74-80 | Edits of different workers or different fields commute |
| ActualInput.NormaliseDurasi | src/components/ActualInput.tsx:221 | A typed duration that parses to NaN or 0 is stored as null, and any other number is kept |
| ActualInput.SaveAktualPayload | src/components/ActualInput.tsx:83-100 | The save is refused with the message iff no plan is selected. Otherwise it sends one row per attendance row |
| ActualInput.PayloadRow | src/components/ActualInput.tsx:92-100 | A payload row carries the plan, the date, the worker and the flags. The duration is kept only when attended, and the note is null iff it is empty |
| ActualInput.PayloadRows | src/components/ActualInput.tsx:92-100 | Each payload row carries the plan, the date, the worker and the flags. The duration is null when absent, and an empty note becomes null |
| ActualInput.DurasiOfAbsentIgnored | src/components/ActualInput.tsx:97 | Editing the duration of a worker marked absent does not change the payload (the edit of line 221) |
| ActualInput.SaveInitial | src/components/ActualInput.tsx:62-100 | Saving the initial rows sends every worker as attended, with null duration and null note |
| Text.ParseIntToString | src/utils/holidays.ts:115 | The decimal text of an integer reads back as that integer |
| Text.ParsePadded2 | src/utils/holidays.ts:116-117 | `padStart(2, '0')` of a number below 100 is two digits reading back as the number |
| Text.JoinCons | src/utils/export.ts:70 | `join` read left to right: the first part, the separator, then the join of the rest |
| Domain.FilterDistinctIds | src/utils/rotation.ts:12 | Filtering a list with distinct ids keeps the ids distinct |

## Left out

- The Supabase reads and writes are not modelled. This covers
  `saveRotationSchedule`, `handleSave`, the upsert of actual records, every
  `fetch*` query and the ranking query's join filters. They are network I/O.
  The model takes the fetched rows as parameters, as `Option` where the code
  tests for `null` (the worker query of `fetchRanking`, the plan and actual
  queries, which fall back to an empty list).
- `Management.tsx`, `Dashboard.tsx`, `App.tsx` and all JSX, React state and
  rendering are not modelled. The category badge colours and icons are not
  modelled either.
- The jsPDF, autoTable and XLSX calls are not modelled: fonts, column widths,
  the title, the "Periode" and "Dicetak" lines and the file names. Only the
  header and row matrices are modelled.
- JavaScript `Date` parsing and time zones are not modelled. A date is a day
  number, and `getDay`, `getFullYear`, `getMonth` and `getDate` are the
  proleptic Gregorian calendar of that number.
- date-fns `format(d, 'yyyy-MM-dd')` keys are modelled as the day numbers
  themselves. `getDayName` uses date-fns' default English locale.
- Floating point is not modelled. Durations, sums and percentages are exact
  reals, and `Math.round` is `floor(x + 0.5)` on reals.
- The text of a number in an export cell (`${durasi_jam}`) is the JavaScript
  runtime's number formatting. It is a parameter (`durasiText`).
- `parseFloat` is not modelled. `NormaliseDurasi` receives its result as a
  `JsNumber` (NaN or a number). `Infinity` is not distinguished from other
  numbers.
- `handleInputChange` accepts any field name at run time. The model allows only
  the four fields the form edits (`dilaksanakan`, `durasi_aktual`,
  `sesuai_rencana`, `keterangan`).
- `JadwalLibur.HandleGenerate` takes the rest days as already found, as the
  component does with its `liburDays` state. The texts it passes to
  `setMessage` (the three errors and the success line) are its result. The
  loading flag is not modelled.
- `Rotation.GenerateRotationSchedule` takes the start date as a day number and
  the day count as an integer. A fractional `days` argument is not modelled.
- `Ranking.PekerjaStats`: the category is computed from the unrounded
  percentage and the ranking shows the rounded one, so the two agree only up to
  the 90 and 70 boundaries (`RoundedNinetyCanBeBaik` is the witness). The
  contract states that weaker agreement, as the code behaves.
