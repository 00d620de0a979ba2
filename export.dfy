/**
 * The cell matrix of the schedule export. Both the PDF and the spreadsheet
 * list the selected workers that have at least one kept overtime item in the
 * exported dates, one column per date; a cell lists the day's kept items or
 * shows "-". The spreadsheet adds the worker's registration number and the
 * group of every item.
 *
 * How a duration is printed is JavaScript's number formatting; it is a
 * parameter of the model (`durasiText`).
 */
module Export {
  import opened Wrappers
  import opened Domain
  import opened Seqs
  import opened Text
  import Holidays

  /** One overtime item of a worker's day. */
  datatype ScheduleItem = ScheduleItem(jenis: string, durasi: real, grup: int)

  /** A worker's name and their overtime items by date. */
  datatype WorkerSchedule = WorkerSchedule(nama: string, schedule: map<Day, seq<ScheduleItem>>)

  datatype ExportFormat = Pdf | Excel

  /* ----- Headers ----- */

  /** The English weekday names that date-fns prints for the `EEEE` pattern. */
  const EnglishDayNames: seq<string> := ["Sunday", "Monday", "Tuesday", "Wednesday", "Thursday", "Friday", "Saturday"]

  /** `getDayName`: the weekday name of a date. */
  function DayName(d: Day): (r: string)
    ensures 6 <= |r|
  {
    EnglishDayNames[Holidays.Weekday(d)]
  }

  /** `format(d, 'dd/MM')`. */
  function FormatDdMm(d: Day): (r: string)
    ensures |r| == 5 && r[2] == '/'
    ensures IsDigits(r[..2]) && ParseDigits(r[..2]) == Holidays.GetDate(d)
    ensures IsDigits(r[3..]) && ParseDigits(r[3..]) == Holidays.GetMonth(d) + 1
  {
    var dd := PadStart2(IntToString(Holidays.GetDate(d)));
    var mm := PadStart2(IntToString(Holidays.GetMonth(d) + 1));
    ParsePadded2(Holidays.GetDate(d));
    ParsePadded2(Holidays.GetMonth(d) + 1);
    assert (dd + "/" + mm)[..2] == dd;
    assert (dd + "/" + mm)[3..] == mm;
    dd + "/" + mm
  }

  /**
   * The heading of one date's column: the abbreviated weekday over `dd/MM`
   * in the PDF, the full weekday and `dd/MM` in the spreadsheet.
   */
  function DateColumn(fmt: ExportFormat, d: Day): string
  {
    match fmt
    case Pdf => DayName(d)[..3] + "\n" + FormatDdMm(d)
    case Excel => DayName(d) + " " + FormatDdMm(d)
  }

  /**
   * A PDF date heading is nine characters: the weekday's first three
   * letters, a line break and `dd/MM`. A spreadsheet one is the full weekday,
   * a space and `dd/MM`.
   */
  lemma DateColumnParts(fmt: ExportFormat, d: Day)
    ensures fmt == Pdf ==> var c := DateColumn(fmt, d);
      |c| == 9 && c[..3] == DayName(d)[..3] && c[3] == '\n' && c[4..] == FormatDdMm(d)
    ensures fmt == Excel ==> var c := DateColumn(fmt, d); var n := |DayName(d)|;
      |c| == n + 6 && c[..n] == DayName(d) && c[n] == ' ' && c[n + 1..] == FormatDdMm(d)
  {
    var name, ddmm := DayName(d), FormatDdMm(d);
    if fmt == Pdf {
      var c := name[..3] + "\n" + ddmm;
      assert c[..3] == name[..3];
      assert c[4..] == ddmm;
    } else {
      var c := name + " " + ddmm;
      assert c[..|name|] == name;
      assert c[|name| + 1..] == ddmm;
    }
  }

  /**
   * The header row: "Pekerja", then (spreadsheet only) "NIK", then one
   * column per date, in date order.
   */
  function Headers(fmt: ExportFormat, dates: seq<Day>): (h: seq<string>)
    ensures fmt == Pdf ==> |h| == 1 + |dates| && h[0] == "Pekerja"
    ensures fmt == Excel ==> |h| == 2 + |dates| && h[..2] == ["Pekerja", "NIK"]
    ensures fmt == Pdf ==> forall i {:trigger DateColumn(Pdf, dates[i])} :: 0 <= i < |dates| ==>
      h[1 + i] == DateColumn(Pdf, dates[i])
    ensures fmt == Excel ==> forall i {:trigger DateColumn(Excel, dates[i])} :: 0 <= i < |dates| ==>
      h[2 + i] == DateColumn(Excel, dates[i])
  {
    match fmt
    case Pdf => ["Pekerja"] + seq(|dates|, i requires 0 <= i < |dates| => DateColumn(Pdf, dates[i]))
    case Excel => ["Pekerja", "NIK"] + seq(|dates|, i requires 0 <= i < |dates| => DateColumn(Excel, dates[i]))
  }

  /* ----- Cells ----- */

  /**
   * The items of a day that pass the overtime filter, in their order: an
   * item is kept exactly when it is listed for the day and the filter is
   * empty or names its type.
   */
  function KeptItems(ws: WorkerSchedule, d: Day, overtimeFilter: seq<string>): (r: seq<ScheduleItem>)
    ensures forall item :: item in r <==>
      d in ws.schedule && item in ws.schedule[d] && (overtimeFilter == [] || item.jenis in overtimeFilter)
    ensures overtimeFilter == [] ==> r == (if d in ws.schedule then ws.schedule[d] else [])
  {
    var daySchedule := if d in ws.schedule then ws.schedule[d] else [];
    if |overtimeFilter| > 0 then
      FilterMembers(daySchedule, (item: ScheduleItem) => item.jenis in overtimeFilter);
      Filter(daySchedule, (item: ScheduleItem) => item.jenis in overtimeFilter)
    else daySchedule
  }

  /** The text of one item: `jenis (durasij)`, and in the spreadsheet `jenis (durasij, Ggrup)`. */
  function ItemText(fmt: ExportFormat, item: ScheduleItem, durasiText: real -> string): (r: string)
    ensures |item.jenis| + 4 <= |r|
    ensures r[..|item.jenis| + 2] == item.jenis + " ("
    ensures r[|r| - 1] == ')'
    ensures fmt == Pdf ==> r[|item.jenis| + 2..|r| - 1] == durasiText(item.durasi) + "j"
    ensures fmt == Excel ==> r[|item.jenis| + 2..|r| - 1] == durasiText(item.durasi) + "j, G" + IntToString(item.grup)
  {
    match fmt
    case Pdf => item.jenis + " (" + durasiText(item.durasi) + "j)"
    case Excel => item.jenis + " (" + durasiText(item.durasi) + "j, G" + IntToString(item.grup) + ")"
  }

  function Separator(fmt: ExportFormat): string
  {
    match fmt
    case Pdf => "\n"
    case Excel => "; "
  }

  /**
   * A cell: "-" for no items, else the item texts joined, in item order. No
   * item text is "-", so a cell shows "-" exactly when no item is kept; a
   * cell with items starts with the first item's text.
   */
  function CellText(fmt: ExportFormat, items: seq<ScheduleItem>, durasiText: real -> string): (r: string)
    ensures r == "-" <==> items == []
    ensures items != [] ==> ItemText(fmt, items[0], durasiText) <= r
    ensures |items| == 1 ==> r == ItemText(fmt, items[0], durasiText)
  {
    if items == [] then "-"
    else
      var parts := seq(|items|, i requires 0 <= i < |items| => ItemText(fmt, items[i], durasiText));
      assert |parts[0]| >= 4;
      Join(parts, Separator(fmt))
  }

  /**
   * Read left to right, a cell of several items is the first item's text,
   * the separator, and the cell of the remaining items.
   */
  lemma CellTextCons(fmt: ExportFormat, items: seq<ScheduleItem>, durasiText: real -> string)
    requires |items| >= 2
    ensures CellText(fmt, items, durasiText)
      == ItemText(fmt, items[0], durasiText) + Separator(fmt) + CellText(fmt, items[1..], durasiText)
  {
    var parts := seq(|items|, i requires 0 <= i < |items| => ItemText(fmt, items[i], durasiText));
    var rest := items[1..];
    JoinCons(parts, Separator(fmt));
    assert parts[1..] == seq(|rest|, i requires 0 <= i < |rest| => ItemText(fmt, rest[i], durasiText));
  }

  /** The date cells of a worker, one per date, in date order. */
  function Cells(fmt: ExportFormat, ws: WorkerSchedule, dates: seq<Day>, overtimeFilter: seq<string>, durasiText: real -> string): (r: seq<string>)
    ensures |r| == |dates|
    ensures forall i {:trigger r[i]} :: 0 <= i < |dates| ==> r[i] == CellText(fmt, KeptItems(ws, dates[i], overtimeFilter), durasiText)
  {
    seq(|dates|, i requires 0 <= i < |dates| => CellText(fmt, KeptItems(ws, dates[i], overtimeFilter), durasiText))
  }

  /** Whether some date keeps at least one item: the condition for the worker to get a row. */
  predicate HasAnySchedule(ws: WorkerSchedule, dates: seq<Day>, overtimeFilter: seq<string>)
  {
    exists i :: 0 <= i < |dates| && KeptItems(ws, dates[i], overtimeFilter) != []
  }

  /** The leading cells: the name, and in the spreadsheet the registration number (`nik || ''`). */
  function RowPrefix(fmt: ExportFormat, p: PekerjaInfo): (r: seq<string>)
    ensures fmt == Pdf ==> r == [p.nama]
    ensures fmt == Excel ==> |r| == 2 && r[0] == p.nama
    ensures fmt == Excel && p.nik.None? ==> r[1] == ""
    ensures fmt == Excel && p.nik.Some? ==> r[1] == p.nik.value
  {
    match fmt
    case Pdf => [p.nama]
    case Excel => [p.nama, match p.nik case Some(n) => n case None => ""]
  }

  /** A worker's row: the leading cells, then one cell per date. */
  function RowOf(fmt: ExportFormat, p: PekerjaInfo, ws: WorkerSchedule, dates: seq<Day>, overtimeFilter: seq<string>, durasiText: real -> string): seq<string>
  {
    RowPrefix(fmt, p) + Cells(fmt, ws, dates, overtimeFilter, durasiText)
  }

  /** A row has as many cells as the header. */
  lemma RowMatchesHeader(fmt: ExportFormat, p: PekerjaInfo, ws: WorkerSchedule, dates: seq<Day>, overtimeFilter: seq<string>, durasiText: real -> string)
    ensures |RowOf(fmt, p, ws, dates, overtimeFilter, durasiText)| == |Headers(fmt, dates)|
    ensures fmt == Pdf ==> |RowOf(fmt, p, ws, dates, overtimeFilter, durasiText)| == 1 + |dates|
    ensures fmt == Excel ==> |RowOf(fmt, p, ws, dates, overtimeFilter, durasiText)| == 2 + |dates|
  {
  }

  /** An emitted row shows at least one date cell that is not "-". */
  lemma EmittedRowHasEntry(fmt: ExportFormat, ws: WorkerSchedule, dates: seq<Day>, overtimeFilter: seq<string>, durasiText: real -> string)
    requires HasAnySchedule(ws, dates, overtimeFilter)
    ensures exists i :: 0 <= i < |dates| && Cells(fmt, ws, dates, overtimeFilter, durasiText)[i] != "-"
  {
    var i :| 0 <= i < |dates| && KeptItems(ws, dates[i], overtimeFilter) != [];
    assert Cells(fmt, ws, dates, overtimeFilter, durasiText)[i] == CellText(fmt, KeptItems(ws, dates[i], overtimeFilter), durasiText);
  }

  /**
   * The row of one worker: walk the dates, push a cell for each, and note
   * whether any date kept an item.
   */
  method BuildRow(fmt: ExportFormat, p: PekerjaInfo, ws: WorkerSchedule, dates: seq<Day>, overtimeFilter: seq<string>, durasiText: real -> string)
    returns (row: seq<string>, hasAnySchedule: bool)
    ensures row == RowOf(fmt, p, ws, dates, overtimeFilter, durasiText)
    ensures hasAnySchedule <==> HasAnySchedule(ws, dates, overtimeFilter)
  {
    row := RowPrefix(fmt, p);
    hasAnySchedule := false;
    for k := 0 to |dates|
      invariant row == RowPrefix(fmt, p) + Cells(fmt, ws, dates[..k], overtimeFilter, durasiText)
      invariant hasAnySchedule <==> exists i :: 0 <= i < k && KeptItems(ws, dates[i], overtimeFilter) != []
    {
      var tanggal := dates[k];
      var filteredSchedule := KeptItems(ws, tanggal, overtimeFilter);
      BuildRowStep(fmt, p, ws, dates, overtimeFilter, durasiText, k, row);
      KeptSomewhereSnoc(ws, dates, overtimeFilter, k);
      if |filteredSchedule| == 0 {
        row := row + ["-"];
      } else {
        hasAnySchedule := true;
        var text := CellText(fmt, filteredSchedule, durasiText);
        row := row + [text];
      }
    }
    assert dates[..|dates|] == dates;
  }

  /** Pushing the next date's cell keeps the row equal to the prefix and the cells so far. */
  lemma BuildRowStep(
    fmt: ExportFormat, p: PekerjaInfo, ws: WorkerSchedule, dates: seq<Day>, overtimeFilter: seq<string>,
    durasiText: real -> string, k: nat, row: seq<string>)
    requires k < |dates|
    requires row == RowPrefix(fmt, p) + Cells(fmt, ws, dates[..k], overtimeFilter, durasiText)
    ensures row + [CellText(fmt, KeptItems(ws, dates[k], overtimeFilter), durasiText)]
         == RowPrefix(fmt, p) + Cells(fmt, ws, dates[..k + 1], overtimeFilter, durasiText)
  {
    CellsSnoc(fmt, ws, dates, overtimeFilter, durasiText, k);
  }

  /** One more date keeps an item somewhere iff it did before or the new date keeps one. */
  lemma KeptSomewhereSnoc(ws: WorkerSchedule, dates: seq<Day>, overtimeFilter: seq<string>, k: nat)
    requires k < |dates|
    ensures (exists i :: 0 <= i < k + 1 && KeptItems(ws, dates[i], overtimeFilter) != [])
        <==> (exists i :: 0 <= i < k && KeptItems(ws, dates[i], overtimeFilter) != []) || KeptItems(ws, dates[k], overtimeFilter) != []
  {
  }

  lemma CellsSnoc(fmt: ExportFormat, ws: WorkerSchedule, dates: seq<Day>, overtimeFilter: seq<string>, durasiText: real -> string, k: nat)
    requires k < |dates|
    ensures Cells(fmt, ws, dates[..k + 1], overtimeFilter, durasiText)
         == Cells(fmt, ws, dates[..k], overtimeFilter, durasiText) + [CellText(fmt, KeptItems(ws, dates[k], overtimeFilter), durasiText)]
  {
    var longer := Cells(fmt, ws, dates[..k + 1], overtimeFilter, durasiText);
    var shorter := Cells(fmt, ws, dates[..k], overtimeFilter, durasiText);
    var cell := CellText(fmt, KeptItems(ws, dates[k], overtimeFilter), durasiText);
    assert dates[..k + 1] == dates[..k] + [dates[k]];
    assert longer == shorter + [cell];
  }

  /* ----- Rows ----- */

  /** Whether a worker gets a row: they have a schedule and it keeps some item. */
  function HasRow(scheduleData: map<Id, WorkerSchedule>, dates: seq<Day>, overtimeFilter: seq<string>): PekerjaInfo -> bool
  {
    (p: PekerjaInfo) => p.id in scheduleData && HasAnySchedule(scheduleData[p.id], dates, overtimeFilter)
  }

  /**
   * The rows of the given workers, in their order, skipping workers without
   * a row; every row is as wide as the header.
   */
  function RowsOf(
    fmt: ExportFormat, ps: seq<PekerjaInfo>, scheduleData: map<Id, WorkerSchedule>,
    dates: seq<Day>, overtimeFilter: seq<string>, durasiText: real -> string): (r: seq<seq<string>>)
    ensures |r| <= |ps|
    ensures forall i :: 0 <= i < |r| ==> |r[i]| == |Headers(fmt, dates)|
  {
    if ps == [] then []
    else
      var p := ps[|ps| - 1];
      var rest := RowsOf(fmt, ps[..|ps| - 1], scheduleData, dates, overtimeFilter, durasiText);
      if HasRow(scheduleData, dates, overtimeFilter)(p) then
        RowMatchesHeader(fmt, p, scheduleData[p.id], dates, overtimeFilter, durasiText);
        rest + [RowOf(fmt, p, scheduleData[p.id], dates, overtimeFilter, durasiText)]
      else rest
  }

  /** The selected workers, in list order. */
  function SelectedPekerja(pekerjaList: seq<PekerjaInfo>, selectedPekerjaFilter: seq<Id>): seq<PekerjaInfo>
  {
    Filter(pekerjaList, (p: PekerjaInfo) => p.id in selectedPekerjaFilter)
  }

  /**
   * The body of the PDF table: the rows of the selected workers that have
   * one, at most one per listed worker, each with the name and one cell per
   * date.
   */
  function PdfRows(
    scheduleData: map<Id, WorkerSchedule>, dates: seq<Day>, pekerjaList: seq<PekerjaInfo>,
    selectedPekerjaFilter: seq<Id>, selectedOvertimeFilter: seq<string>, durasiText: real -> string): (r: seq<seq<string>>)
    ensures |r| <= |pekerjaList|
    ensures forall i :: 0 <= i < |r| ==> |r[i]| == 1 + |dates|
  {
    RowsOf(Pdf, SelectedPekerja(pekerjaList, selectedPekerjaFilter), scheduleData, dates, selectedOvertimeFilter, durasiText)
  }

  /**
   * `exportToPDF`'s table: the header and the rows. The title line formats
   * the first and the last date, and formatting the missing first date of
   * an empty range throws, so no table is produced for no dates.
   */
  function ExportPdf(
    scheduleData: map<Id, WorkerSchedule>, dates: seq<Day>, pekerjaList: seq<PekerjaInfo>,
    selectedPekerjaFilter: seq<Id>, selectedOvertimeFilter: seq<string>, durasiText: real -> string): (r: Option<seq<seq<string>>>)
    ensures r.None? <==> dates == []
    ensures r.Some? ==> |r.value| >= 1 && r.value[0] == Headers(Pdf, dates)
    ensures r.Some? ==> forall i :: 0 <= i < |r.value| ==> |r.value[i]| == 1 + |dates|
    ensures r.Some? ==> r.value[1..] == PdfRows(scheduleData, dates, pekerjaList, selectedPekerjaFilter, selectedOvertimeFilter, durasiText)
  {
    if dates == [] then None
    else Some([Headers(Pdf, dates)] + PdfRows(scheduleData, dates, pekerjaList, selectedPekerjaFilter, selectedOvertimeFilter, durasiText))
  }

  /** The spreadsheet's cell matrix: the header row, then one row per worker with a kept item. */
  method BuildExcelData(
    scheduleData: map<Id, WorkerSchedule>, dates: seq<Day>, pekerjaList: seq<PekerjaInfo>,
    selectedPekerjaFilter: seq<Id>, selectedOvertimeFilter: seq<string>, durasiText: real -> string)
    returns (data: seq<seq<string>>)
    ensures data == [Headers(Excel, dates)]
      + RowsOf(Excel, SelectedPekerja(pekerjaList, selectedPekerjaFilter), scheduleData, dates, selectedOvertimeFilter, durasiText)
  {
    var filteredPekerja := SelectedPekerja(pekerjaList, selectedPekerjaFilter);
    data := [Headers(Excel, dates)];
    for k := 0 to |filteredPekerja|
      invariant data == [Headers(Excel, dates)]
        + RowsOf(Excel, filteredPekerja[..k], scheduleData, dates, selectedOvertimeFilter, durasiText)
    {
      var pekerja := filteredPekerja[k];
      assert filteredPekerja[..k + 1][..k] == filteredPekerja[..k];
      if pekerja.id in scheduleData {
        var row, hasAnySchedule := BuildRow(Excel, pekerja, scheduleData[pekerja.id], dates, selectedOvertimeFilter, durasiText);
        if hasAnySchedule {
          data := data + [row];
        }
      }
    }
    assert filteredPekerja[..|filteredPekerja|] == filteredPekerja;
  }

  /**
   * The rows are those of the workers that have one, in list order: row `i`
   * is the row of the `i`-th such worker.
   */
  lemma {:induction false} RowsOfSpec(
    fmt: ExportFormat, ps: seq<PekerjaInfo>, scheduleData: map<Id, WorkerSchedule>,
    dates: seq<Day>, overtimeFilter: seq<string>, durasiText: real -> string)
    ensures var e := Filter(ps, HasRow(scheduleData, dates, overtimeFilter));
      |RowsOf(fmt, ps, scheduleData, dates, overtimeFilter, durasiText)| == |e| &&
      forall i :: 0 <= i < |e| ==> e[i].id in scheduleData
    ensures var e := Filter(ps, HasRow(scheduleData, dates, overtimeFilter));
      forall i :: 0 <= i < |e| ==>
        RowsOf(fmt, ps, scheduleData, dates, overtimeFilter, durasiText)[i]
          == RowOf(fmt, e[i], scheduleData[e[i].id], dates, overtimeFilter, durasiText)
  {
    if ps != [] {
      var init := ps[..|ps| - 1];
      RowsOfSpec(fmt, init, scheduleData, dates, overtimeFilter, durasiText);
    }
  }

  /**
   * A worker's row is emitted exactly when they are listed, selected, have a
   * schedule and keep some item in the exported dates.
   */
  lemma PdfRowWorkers(
    scheduleData: map<Id, WorkerSchedule>, dates: seq<Day>, pekerjaList: seq<PekerjaInfo>,
    selectedPekerjaFilter: seq<Id>, selectedOvertimeFilter: seq<string>, p: PekerjaInfo)
    ensures p in Filter(SelectedPekerja(pekerjaList, selectedPekerjaFilter), HasRow(scheduleData, dates, selectedOvertimeFilter))
      <==> p in pekerjaList && p.id in selectedPekerjaFilter && p.id in scheduleData &&
           HasAnySchedule(scheduleData[p.id], dates, selectedOvertimeFilter)
  {
    var sel := SelectedPekerja(pekerjaList, selectedPekerjaFilter);
    FilterMembership(sel, HasRow(scheduleData, dates, selectedOvertimeFilter), p);
    FilterMembership(pekerjaList, (q: PekerjaInfo) => q.id in selectedPekerjaFilter, p);
  }
}
