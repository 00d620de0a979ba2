/**
 * The rest-day ("libur") schedule: the Sundays and listed holidays of a date
 * range, and the overtime plan that puts the selected workers on every rest
 * day for every selected overtime type, outside the rotation groups.
 */
module JadwalLibur {
  import opened Wrappers
  import opened Domain
  import opened Seqs
  import opened Holidays
  import Text

  /** The Indonesian weekday names, indexed by `getDay()`. */
  const DayNames: seq<string> := ["Minggu", "Senin", "Selasa", "Rabu", "Kamis", "Jumat", "Sabtu"]

  /**
   * How one day of the range is classified. A day is a rest day exactly when
   * it is skipped as a work day. A Sunday is tagged `Minggu` with the name
   * "Hari Minggu", even when it is also a holiday; any other rest day is a
   * holiday and carries its listed name.
   */
  function LiburOf(d: Day): (r: Option<LiburDay>)
    ensures r.Some? <==> ShouldSkipDate(d)
    ensures r.Some? ==> r.value.tanggal == d && r.value.dayName == DayNames[Weekday(d)]
    ensures r.Some? ==> (r.value.liburType == Minggu <==> IsSunday(d))
    ensures r.Some? && IsSunday(d) ==> r.value.name == Some("Hari Minggu")
    ensures r.Some? && !IsSunday(d) ==> r.value.name == GetHolidayName(d) && r.value.name.Some?
  {
    var dayName := DayNames[Weekday(d)];
    if IsSunday(d) then Some(LiburDay(d, dayName, Minggu, Some("Hari Minggu")))
    else if IsHoliday(d) then Some(LiburDay(d, dayName, LiburNasional, GetHolidayName(d)))
    else None
  }

  /** The rest days of `[start, end]`, in date order. */
  function LiburRange(start: Day, end: Day): seq<LiburDay>
    decreases end - start
  {
    if start > end then []
    else (match LiburOf(start) case Some(l) => [l] case None => []) + LiburRange(start + 1, end)
  }

  /** The rest days among the first `n` days from `start`, in date order. */
  function LiburFirst(start: Day, n: nat): seq<LiburDay>
  {
    if n == 0 then []
    else LiburFirst(start, n - 1) + match LiburOf(start + n - 1) case Some(l) => [l] case None => []
  }

  /**
   * `findLiburDays`: scan the `end - start + 1` days from `startDate` and keep
   * the Sundays and holidays.
   */
  method FindLiburDays(startDate: Day, endDate: Day) returns (libur: seq<LiburDay>)
    ensures libur == LiburRange(startDate, endDate)
  {
    var totalDays := endDate - startDate + 1;
    libur := [];
    var i := 0;
    while i < totalDays
      invariant 0 <= i <= if totalDays < 0 then 0 else totalDays
      invariant libur == LiburFirst(startDate, i)
    {
      var current := startDate + i;
      var entry := ClassifyDay(current);
      if entry.Some? {
        libur := libur + [entry.value];
      }
      i := i + 1;
    }
    LiburFirstRange(startDate, i);
  }

  /** The body of the scan for one day: a Sunday first, else a listed holiday, else no entry. */
  method ClassifyDay(current: Day) returns (entry: Option<LiburDay>)
    ensures entry == LiburOf(current)
  {
    var dayName := DayNames[Weekday(current)];
    if IsSunday(current) {
      entry := Some(LiburDay(current, dayName, Minggu, Some("Hari Minggu")));
    } else if IsHoliday(current) {
      entry := Some(LiburDay(current, dayName, LiburNasional, GetHolidayName(current)));
    } else {
      entry := None;
    }
  }

  /** The first `n` days from `start` are the range `[start, start + n - 1]`. */
  lemma {:induction false} LiburFirstRange(start: Day, n: nat)
    ensures LiburFirst(start, n) == LiburRange(start, start + n - 1)
  {
    if n > 0 {
      LiburFirstRange(start, n - 1);
      LiburRangeSnoc(start, start + n - 2);
    }
  }

  /** Extending a range by one day appends that day's entry, if any. */
  lemma {:induction false} LiburRangeSnoc(start: Day, end: Day)
    requires start <= end + 1
    ensures LiburRange(start, end + 1)
         == LiburRange(start, end) + match LiburOf(end + 1) case Some(l) => [l] case None => []
    decreases end + 1 - start
  {
    if start <= end {
      LiburRangeSnoc(start + 1, end);
      var head := match LiburOf(start) case Some(l) => [l] case None => [];
      var tail := match LiburOf(end + 1) case Some(l) => [l] case None => [];
      assert LiburRange(start, end + 1) == head + LiburRange(start + 1, end + 1);
      assert head + (LiburRange(start + 1, end) + tail) == (head + LiburRange(start + 1, end)) + tail;
    }
  }

  /**
   * The rest days are in strictly increasing date order, lie in the range and
   * are skipped days classified by `LiburOf`; every skipped day of the range is
   * one of them.
   */
  lemma LiburRangeSpec(start: Day, end: Day)
    ensures forall i :: 0 <= i < |LiburRange(start, end)| ==>
      start <= LiburRange(start, end)[i].tanggal <= end &&
      LiburOf(LiburRange(start, end)[i].tanggal) == Some(LiburRange(start, end)[i])
    ensures forall i, j :: 0 <= i < j < |LiburRange(start, end)| ==>
      LiburRange(start, end)[i].tanggal < LiburRange(start, end)[j].tanggal
    ensures forall d :: start <= d <= end && ShouldSkipDate(d) ==>
      exists i :: 0 <= i < |LiburRange(start, end)| && LiburRange(start, end)[i].tanggal == d
  {
    LiburRangeMembers(start, end);
    LiburRangeAscending(start, end);
    LiburRangeComplete(start, end);
  }

  /** A range's entries are its first day's entry, if any, then those of the rest of the range. */
  lemma LiburRangeCons(start: Day, end: Day)
    requires start <= end
    ensures var head := match LiburOf(start) case Some(l) => [l] case None => [];
      LiburRange(start, end) == head + LiburRange(start + 1, end) &&
      (forall j :: 0 <= j < |head| ==> head[j].tanggal == start && LiburOf(start) == Some(head[j]))
  {
  }

  lemma {:induction false} LiburRangeMembers(start: Day, end: Day)
    ensures forall i :: 0 <= i < |LiburRange(start, end)| ==>
      start <= LiburRange(start, end)[i].tanggal <= end &&
      LiburOf(LiburRange(start, end)[i].tanggal) == Some(LiburRange(start, end)[i])
    decreases end - start
  {
    if start <= end {
      LiburRangeMembers(start + 1, end);
      LiburRangeCons(start, end);
      var r := LiburRange(start, end);
      var rest := LiburRange(start + 1, end);
      var head := match LiburOf(start) case Some(l) => [l] case None => [];
      forall i | 0 <= i < |r| ensures start <= r[i].tanggal <= end && LiburOf(r[i].tanggal) == Some(r[i]) {
        if i < |head| {
          assert r[i] == head[i];
        } else {
          assert r[i] == rest[i - |head|];
        }
      }
    }
  }

  lemma {:induction false} LiburRangeAscending(start: Day, end: Day)
    ensures forall i, j :: 0 <= i < j < |LiburRange(start, end)| ==>
      LiburRange(start, end)[i].tanggal < LiburRange(start, end)[j].tanggal
    decreases end - start
  {
    if start <= end {
      LiburRangeAscending(start + 1, end);
      LiburRangeMembers(start + 1, end);
      LiburRangeCons(start, end);
      var r := LiburRange(start, end);
      var rest := LiburRange(start + 1, end);
      var head := match LiburOf(start) case Some(l) => [l] case None => [];
      forall i, j | 0 <= i < j < |r| ensures r[i].tanggal < r[j].tanggal {
        assert r[j] == rest[j - |head|];
        if i < |head| {
          assert r[i] == head[i];
        } else {
          assert r[i] == rest[i - |head|];
        }
      }
    }
  }

  lemma {:induction false} LiburRangeComplete(start: Day, end: Day)
    ensures forall d :: start <= d <= end && ShouldSkipDate(d) ==>
      exists i :: 0 <= i < |LiburRange(start, end)| && LiburRange(start, end)[i].tanggal == d
    decreases end - start
  {
    if start <= end {
      LiburRangeComplete(start + 1, end);
      LiburRangeCons(start, end);
      var r := LiburRange(start, end);
      var rest := LiburRange(start + 1, end);
      var head := match LiburOf(start) case Some(l) => [l] case None => [];
      forall d | start <= d <= end && ShouldSkipDate(d)
        ensures exists i :: 0 <= i < |r| && r[i].tanggal == d
      {
        if d == start {
          assert r[0] == head[0];
        } else {
          var i :| 0 <= i < |rest| && rest[i].tanggal == d;
          assert r[|head| + i] == rest[i];
        }
      }
    }
  }

  /** Every day of a range is either a work day or a rest day, never both. */
  lemma {:induction false} WorkAndRestDays(start: Day, end: Day)
    ensures |WorkDays(start, end)| + |LiburRange(start, end)| == if start <= end then end - start + 1 else 0
    decreases end - start
  {
    if start <= end {
      WorkAndRestDays(start + 1, end);
    }
  }

  /* ----- Generating the schedule ----- */

  const NoPekerjaMessage: string := "Error: Pilih minimal 1 pekerja"
  const NoOvertimeMessage: string := "Error: Pilih minimal 1 jenis overtime"
  const NoLiburMessage: string := "Error: Tidak ada hari libur dalam periode yang dipilih"

  /** A generated schedule and the confirmation shown with it. */
  datatype Generated = Generated(schedules: seq<GeneratedSchedule>, message: string)

  /** The confirmation: the number of rest days and of schedule entries. */
  function SuccessMessage(liburCount: nat, scheduleCount: nat): string
  {
    "\U{2705} Jadwal libur berhasil dibuat! Total " + Text.IntToString(liburCount) + " hari libur, "
    + Text.IntToString(scheduleCount) + " jadwal."
  }

  /** The workers whose id was selected, in the order of the worker list (active or not). */
  function SelectedPekerja(pekerjaList: seq<Pekerja>, selectedIds: seq<Id>): seq<Pekerja>
  {
    Filter(pekerjaList, (p: Pekerja) => p.id in selectedIds)
  }

  /** The overtime types whose id was selected, in list order. */
  function SelectedOvertime(jenisOvertimeList: seq<JenisOvertime>, selectedIds: seq<Id>): seq<JenisOvertime>
  {
    Filter(jenisOvertimeList, (j: JenisOvertime) => j.id in selectedIds)
  }

  /** How many workers an overtime type takes: `min(alokasi, n)`, and none when that is negative. */
  function PickCount(alokasi: int, n: nat): (c: nat)
    ensures c <= n
    ensures 0 <= alokasi ==> c == Min(alokasi, n)
    ensures alokasi < 0 ==> c == 0
  {
    if Min(alokasi, n) < 0 then 0 else Min(alokasi, n)
  }

  /**
   * The "round-robin" pick: worker `i % n` for `i` below `min(alokasi, n)`.
   * Since `i < n`, the modulus never wraps, and the pick is a prefix of the
   * selected workers.
   */
  lemma ModBelow(i: nat, n: nat)
    requires i < n
    ensures i % n == i
  {
  }

  method PickPekerja(selectedPekerja: seq<Pekerja>, alokasi: int) returns (assignedPekerja: seq<Pekerja>)
    ensures assignedPekerja == selectedPekerja[..PickCount(alokasi, |selectedPekerja|)]
  {
    assignedPekerja := [];
    var i := 0;
    while i < Min(alokasi, |selectedPekerja|)
      invariant 0 <= i <= PickCount(alokasi, |selectedPekerja|)
      invariant assignedPekerja == selectedPekerja[..i]
    {
      ModBelow(i, |selectedPekerja|);
      assignedPekerja := assignedPekerja + [selectedPekerja[i % |selectedPekerja|]];
      assert selectedPekerja[..i + 1] == selectedPekerja[..i] + [selectedPekerja[i]];
      i := i + 1;
    }
  }

  /** The entry for one rest day and one overtime type: group 0, the day's Sunday flag, the type's duration. */
  function LiburEntry(libur: LiburDay, jenis: JenisOvertime, selectedPekerja: seq<Pekerja>): GeneratedSchedule
  {
    GeneratedSchedule(
      libur.tanggal, jenis.id, 0, libur.liburType == Minggu, jenis.durasiJam,
      selectedPekerja[..PickCount(jenis.alokasiPekerja, |selectedPekerja|)], jenis, Some(libur))
  }

  function LiburDayEntries(libur: LiburDay, ots: seq<JenisOvertime>, selectedPekerja: seq<Pekerja>): (r: seq<GeneratedSchedule>)
    ensures |r| == |ots|
  {
    seq(|ots|, k requires 0 <= k < |ots| => LiburEntry(libur, ots[k], selectedPekerja))
  }

  /** The entries of all rest days, day by day and, within a day, type by type. */
  function LiburSchedule(liburDays: seq<LiburDay>, ots: seq<JenisOvertime>, selectedPekerja: seq<Pekerja>): seq<GeneratedSchedule>
  {
    if liburDays == [] then []
    else LiburSchedule(liburDays[..|liburDays| - 1], ots, selectedPekerja)
         + LiburDayEntries(liburDays[|liburDays| - 1], ots, selectedPekerja)
  }

  /**
   * What `handleGenerate` produces. It fails exactly when a selection is
   * empty, with the message of the first check that fails, in the order
   * workers, overtime types, rest days; otherwise it gives one entry per rest
   * day and selected type.
   */
  function GenerateLibur(
    selectedPekerjaIds: seq<Id>, selectedOvertimeIds: seq<Id>,
    pekerjaList: seq<Pekerja>, jenisOvertimeList: seq<JenisOvertime>, liburDays: seq<LiburDay>): (r: Result<Generated, string>)
    ensures r.Failure? <==> |selectedPekerjaIds| == 0 || |selectedOvertimeIds| == 0 || |liburDays| == 0
    ensures |selectedPekerjaIds| == 0 ==> r == Failure(NoPekerjaMessage)
    ensures |selectedPekerjaIds| != 0 && |selectedOvertimeIds| == 0 ==> r == Failure(NoOvertimeMessage)
    ensures |selectedPekerjaIds| != 0 && |selectedOvertimeIds| != 0 && |liburDays| == 0 ==> r == Failure(NoLiburMessage)
    ensures r.Success? ==>
      r.value.schedules == LiburSchedule(liburDays, SelectedOvertime(jenisOvertimeList, selectedOvertimeIds), SelectedPekerja(pekerjaList, selectedPekerjaIds))
    ensures r.Success? ==>
      |r.value.schedules| == |liburDays| * |SelectedOvertime(jenisOvertimeList, selectedOvertimeIds)|
    ensures r.Success? ==> r.value.message == SuccessMessage(|liburDays|, |r.value.schedules|)
  {
    if |selectedPekerjaIds| == 0 then Failure(NoPekerjaMessage)
    else if |selectedOvertimeIds| == 0 then Failure(NoOvertimeMessage)
    else if |liburDays| == 0 then Failure(NoLiburMessage)
    else
      var ots := SelectedOvertime(jenisOvertimeList, selectedOvertimeIds);
      var sp := SelectedPekerja(pekerjaList, selectedPekerjaIds);
      var schedules := LiburSchedule(liburDays, ots, sp);
      LiburScheduleLength(liburDays, ots, sp);
      Success(Generated(schedules, SuccessMessage(|liburDays|, |schedules|)))
  }

  /** `handleGenerate`: check the selections, then build one entry per rest day and selected type. */
  method HandleGenerate(
    selectedPekerjaIds: seq<Id>, selectedOvertimeIds: seq<Id>,
    pekerjaList: seq<Pekerja>, jenisOvertimeList: seq<JenisOvertime>, liburDays: seq<LiburDay>)
    returns (r: Result<Generated, string>)
    ensures r == GenerateLibur(selectedPekerjaIds, selectedOvertimeIds, pekerjaList, jenisOvertimeList, liburDays)
  {
    if |selectedPekerjaIds| == 0 {
      return Failure(NoPekerjaMessage);
    }
    if |selectedOvertimeIds| == 0 {
      return Failure(NoOvertimeMessage);
    }
    if |liburDays| == 0 {
      return Failure(NoLiburMessage);
    }
    var schedules := [];
    var selectedPekerja := SelectedPekerja(pekerjaList, selectedPekerjaIds);
    var selectedOvertime := SelectedOvertime(jenisOvertimeList, selectedOvertimeIds);
    for d := 0 to |liburDays|
      invariant schedules == LiburSchedule(liburDays[..d], selectedOvertime, selectedPekerja)
    {
      var libur := liburDays[d];
      ghost var before := schedules;
      for k := 0 to |selectedOvertime|
        invariant schedules == before + LiburDayEntries(libur, selectedOvertime[..k], selectedPekerja)
      {
        var jenisOT := selectedOvertime[k];
        var assignedPekerja := PickPekerja(selectedPekerja, jenisOT.alokasiPekerja);
        schedules := schedules + [GeneratedSchedule(
          libur.tanggal, jenisOT.id, 0, libur.liburType == Minggu, jenisOT.durasiJam,
          assignedPekerja, jenisOT, Some(libur))];
        assert selectedOvertime[..k + 1] == selectedOvertime[..k] + [jenisOT];
      }
      assert selectedOvertime[..|selectedOvertime|] == selectedOvertime;
      assert liburDays[..d + 1][..d] == liburDays[..d];
    }
    assert liburDays[..|liburDays|] == liburDays;
    r := Success(Generated(schedules, SuccessMessage(|liburDays|, |schedules|)));
  }

  /* ----- Properties of the generated schedule ----- */

  lemma {:induction false} LiburScheduleLength(liburDays: seq<LiburDay>, ots: seq<JenisOvertime>, sp: seq<Pekerja>)
    ensures |LiburSchedule(liburDays, ots, sp)| == |liburDays| * |ots|
  {
    if liburDays != [] {
      var n := |liburDays|;
      LiburScheduleLength(liburDays[..n - 1], ots, sp);
      assert n * |ots| == (n - 1) * |ots| + |ots|;
    }
  }

  /**
   * Entry `i * |ots| + k` is rest day `i` with type `k`: group 0, a Sunday
   * flag that is the rest day's type, the type's id and duration, and the first
   * `min(alokasi, n)` selected workers, the same on every rest day.
   */
  lemma {:induction false} LiburScheduleAt(liburDays: seq<LiburDay>, ots: seq<JenisOvertime>, sp: seq<Pekerja>, i: nat, k: nat)
    requires i < |liburDays| && k < |ots|
    ensures i * |ots| + k < |LiburSchedule(liburDays, ots, sp)|
    ensures var s := LiburSchedule(liburDays, ots, sp)[i * |ots| + k];
      s.tanggal == liburDays[i].tanggal && s.liburInfo == Some(liburDays[i]) &&
      s.grupRotasi == 0 && (s.isMinggu <==> liburDays[i].liburType == Minggu) &&
      s.jenisOvertime == ots[k] && s.jenisOvertimeId == ots[k].id && s.durasiJam == ots[k].durasiJam &&
      s.assignedPekerja == sp[..PickCount(ots[k].alokasiPekerja, |sp|)]
  {
    var n := |liburDays|;
    LiburScheduleLength(liburDays[..n - 1], ots, sp);
    LiburScheduleLength(liburDays, ots, sp);
    if i < n - 1 {
      LiburScheduleAt(liburDays[..n - 1], ots, sp, i, k);
    } else {
      assert i * |ots| + k == (n - 1) * |ots| + k;
    }
  }

  /** The selected workers are exactly the listed workers whose id was selected, active or not. */
  lemma SelectedPekerjaMembers(pekerjaList: seq<Pekerja>, selectedIds: seq<Id>, p: Pekerja)
    ensures p in SelectedPekerja(pekerjaList, selectedIds) <==> p in pekerjaList && p.id in selectedIds
  {
    FilterMembership(pekerjaList, (q: Pekerja) => q.id in selectedIds, p);
  }

  /** With distinct worker ids, no entry lists a worker twice. */
  lemma AssignedDistinct(pekerjaList: seq<Pekerja>, selectedIds: seq<Id>, alokasi: int)
    requires DistinctIds(pekerjaList)
    ensures var sp := SelectedPekerja(pekerjaList, selectedIds);
      DistinctIds(sp[..PickCount(alokasi, |sp|)])
  {
    var sp := SelectedPekerja(pekerjaList, selectedIds);
    FilterDistinctIds(pekerjaList, (q: Pekerja) => q.id in selectedIds);
  }

  /**
   * 2026-03-22 is both a Sunday and a listed holiday; it is classified as a
   * Sunday. A single date: it checks that the day-number calendar lines up
   * with the holiday table's keys where the Sunday rule takes precedence.
   */
  lemma SundayHolidayIsMinggu()
    ensures LiburOf(20534) == Some(LiburDay(20534, "Minggu", Minggu, Some("Hari Minggu")))
  {
    Hijri1448IsSundayAndHoliday();
  }
}
