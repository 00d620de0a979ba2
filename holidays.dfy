/**
 * The 2026 Indonesian holiday calendar and the work-day filter built on it.
 *
 * A date is a day number (0 = 1970-01-01, a Thursday). The year, month and
 * day of the month that JavaScript's `Date` getters report are computed by
 * `CivilFromDays`, so that a date can be written as `YYYY-MM-DD` and compared
 * with the holiday tables, which keep the dates as strings.
 */
module Holidays {
  import opened Wrappers
  import opened Domain
  import opened Text
  import Seqs

  /* ----- Calendar arithmetic ----- */

  /** The day of the week as `Date.getDay()` reports it: 0 is Sunday, 6 is Saturday. */
  function Weekday(d: Day): (w: nat)
    ensures w < 7
  {
    (d + 4) % 7
  }

  /** A year, a month (1 to 12) and a day of the month. */
  datatype CivilDate = CivilDate(year: int, month: int, day: int)

  /**
   * The Gregorian date of day number `d`. Days are counted from 0000-03-01,
   * so that the leap day is the last day of a (March-based) year; the count is
   * split into 400-year eras, centuries, four-year blocks and years.
   */
  function CivilFromDays(d: Day): (c: CivilDate)
    ensures 1 <= c.month <= 12
    ensures 1 <= c.day <= 31
  {
    var z := d + 719468;
    var era := z / 146097;
    var doe := z % 146097;
    var century := Seqs.Min(doe / 36524, 3);
    var doc := doe - 36524 * century;
    var block := doc / 1461;
    var dob := doc - 1461 * block;
    var yob := Seqs.Min(dob / 365, 3);
    var doy := dob - 365 * yob;
    var mp := (5 * doy + 2) / 153;
    var m := if mp < 10 then mp + 3 else mp - 9;
    var y := 400 * era + 100 * century + 4 * block + yob + (if m <= 2 then 1 else 0);
    assert 0 <= doy <= 365;
    assert 0 <= mp <= 11;
    CivilDate(y, m, doy - (153 * mp + 2) / 5 + 1)
  }

  /** `date.getFullYear()`. */
  function GetFullYear(d: Day): int { CivilFromDays(d).year }

  /** `date.getMonth()`: 0 for January up to 11 for December. */
  function GetMonth(d: Day): (m: int)
    ensures 0 <= m < 12
  {
    CivilFromDays(d).month - 1
  }

  /** `date.getDate()`: the day of the month. */
  function GetDate(d: Day): (m: int)
    ensures 1 <= m <= 31
  {
    CivilFromDays(d).day
  }

  /* ----- The holiday tables ----- */

  datatype Holiday = Holiday(date: string, name: string, isNational: bool)

  /** National holidays of 2026. */
  const IndonesiaHolidays2026: seq<Holiday> := [
    Holiday("2026-01-01", "Tahun Baru Masehi", true),
    Holiday("2026-02-17", "Tahun Baru Imlek 2577 Kongzili", true),
    Holiday("2026-03-14", "Hari Suci Nyepi Tahun Baru Saka 1948", true),
    Holiday("2026-03-22", "Tahun Baru Hijriyah 1448 H", true),
    Holiday("2026-04-03", "Wafat Isa Al-Masih", true),
    Holiday("2026-05-01", "Hari Buruh Internasional", true),
    Holiday("2026-05-14", "Kenaikan Isa Al-Masih", true),
    Holiday("2026-05-26", "Hari Raya Waisak 2570 BE", true),
    Holiday("2026-06-01", "Hari Lahir Pancasila", true),
    Holiday("2026-08-17", "Hari Kemerdekaan RI", true),
    Holiday("2026-10-24", "Maulid Nabi Muhammad SAW", true),
    Holiday("2026-12-25", "Hari Raya Natal", true),
    Holiday("2026-03-20", "Idul Fitri 1447 H (Hari Pertama)", true),
    Holiday("2026-03-21", "Idul Fitri 1447 H (Hari Kedua)", true),
    Holiday("2026-06-06", "Idul Adha 1447 H", true)
  ]

  /** Collective leave days ("cuti bersama") of 2026. */
  const IndonesiaCutiBersama2026: seq<Holiday> := [
    Holiday("2026-03-19", "Cuti Bersama Idul Fitri", false),
    Holiday("2026-03-23", "Cuti Bersama Idul Fitri", false),
    Holiday("2026-03-24", "Cuti Bersama Idul Fitri", false),
    Holiday("2026-12-24", "Cuti Bersama Natal", false)
  ]

  /** Both tables, national holidays first. */
  function GetAllHolidays(): (hs: seq<Holiday>)
    ensures |hs| == |IndonesiaHolidays2026| + |IndonesiaCutiBersama2026|
    ensures forall i :: 0 <= i < |hs| ==> (hs[i].isNational <==> i < |IndonesiaHolidays2026|)
    ensures forall i :: 0 <= i < |hs| ==> |hs[i].date| == 10 && hs[i].date[..5] == "2026-"
  {
    IndonesiaHolidays2026 + IndonesiaCutiBersama2026
  }

  /** No date is listed twice, so the lookup by date is unambiguous. */
  lemma HolidayDatesDistinct()
    ensures forall i, j :: 0 <= i < j < |GetAllHolidays()| ==>
      GetAllHolidays()[i].date != GetAllHolidays()[j].date
  {
    var hs := GetAllHolidays();
    forall i, j | 0 <= i < j < |hs| ensures hs[i].date != hs[j].date {
      assert hs[i].date[5..] != hs[j].date[5..];
    }
  }

  /* ----- Formatting a date for the lookup ----- */

  /** `${year}-${month}-${day}` with month and day padded to two digits. */
  function FormatIsoDate(c: CivilDate): string
  {
    IntToString(c.year) + "-" + PadStart2(IntToString(c.month)) + "-" + PadStart2(IntToString(c.day))
  }

  /** The inverse of `FormatIsoDate`: the year is everything before the last six characters. */
  function ParseIsoDate(s: string): Option<CivilDate>
  {
    if |s| < 7 || s[|s| - 6] != '-' || s[|s| - 3] != '-' then None
    else
      var mm := s[|s| - 5..|s| - 3];
      var dd := s[|s| - 2..];
      match ParseInt(s[..|s| - 6])
      case None => None
      case Some(y) =>
        if IsDigits(mm) && IsDigits(dd) then Some(CivilDate(y, ParseDigits(mm), ParseDigits(dd)))
        else None
  }

  lemma ParseFormatIsoDate(c: CivilDate)
    requires 1 <= c.month <= 12 && 1 <= c.day <= 31
    ensures ParseIsoDate(FormatIsoDate(c)) == Some(c)
  {
    var ys := IntToString(c.year);
    var ms := PadStart2(IntToString(c.month));
    var ds := PadStart2(IntToString(c.day));
    ParsePadded2(c.month);
    ParsePadded2(c.day);
    ParseIntToString(c.year);
    ParseDashed(ys, ms, ds);
  }

  /** A year, a dash, two digits, a dash and two digits read back as those three numbers. */
  lemma ParseDashed(y: string, m: string, d: string)
    requires |m| == 2 && |d| == 2 && IsDigits(m) && IsDigits(d) && ParseInt(y).Some?
    ensures ParseIsoDate(y + "-" + m + "-" + d) == Some(CivilDate(ParseInt(y).value, ParseDigits(m), ParseDigits(d)))
  {
    var s := y + "-" + m + "-" + d;
    assert s[|s| - 6] == '-' && s[|s| - 3] == '-';
    assert s[..|s| - 6] == y && s[|s| - 5..|s| - 3] == m && s[|s| - 2..] == d;
  }

  /** Two dates are formatted alike only when they are the same date. */
  lemma FormatIsoDateInjective(a: CivilDate, b: CivilDate)
    requires 1 <= a.month <= 12 && 1 <= a.day <= 31
    requires 1 <= b.month <= 12 && 1 <= b.day <= 31
    ensures FormatIsoDate(a) == FormatIsoDate(b) ==> a == b
  {
    ParseFormatIsoDate(a);
    ParseFormatIsoDate(b);
  }

  /**
   * `formatDateForHoliday`: year, `getMonth() + 1` and day of the month,
   * joined by dashes; the string reads back as the date's calendar fields.
   */
  function FormatDateForHoliday(d: Day): (s: string)
    ensures ParseIsoDate(s) == Some(CivilDate(GetFullYear(d), GetMonth(d) + 1, GetDate(d)))
    ensures |s| == |IntToString(GetFullYear(d))| + 6
  {
    var c := CivilDate(GetFullYear(d), GetMonth(d) + 1, GetDate(d));
    ParseFormatIsoDate(c);
    ParsePadded2(c.month);
    ParsePadded2(c.day);
    FormatIsoDate(c)
  }

  /* ----- Lookups ----- */

  /** `hs.find(h => h.date === date)`: the first entry listed for the date. */
  function FindByDate(hs: seq<Holiday>, date: string): (r: Option<Holiday>)
    ensures r.None? <==> forall i :: 0 <= i < |hs| ==> hs[i].date != date
    ensures r.Some? ==> exists i :: 0 <= i < |hs| && hs[i] == r.value && hs[i].date == date &&
                                    forall j :: 0 <= j < i ==> hs[j].date != date
  {
    if hs == [] then None
    else if hs[0].date == date then Some(hs[0])
    else
      var r := FindByDate(hs[1..], date);
      assert r.Some? ==> exists i :: 0 <= i < |hs| && hs[i] == r.value && hs[i].date == date &&
                                      forall j :: 0 <= j < i ==> hs[j].date != date by {
        if r.Some? {
          var i :| 0 <= i < |hs[1..]| && hs[1..][i] == r.value && hs[1..][i].date == date &&
                   forall j :: 0 <= j < i ==> hs[1..][j].date != date;
          assert hs[i + 1] == r.value;
          assert forall j :: 0 <= j < i + 1 ==> hs[j].date != date by {
            forall j | 0 <= j < i + 1 ensures hs[j].date != date {
              if j > 0 { assert hs[j] == hs[1..][j - 1]; }
            }
          }
        }
      }
      r
  }

  /** Searching two tables one after the other: the first table wins. */
  lemma {:induction false} FindByDateAppend(a: seq<Holiday>, b: seq<Holiday>, date: string)
    ensures FindByDate(a + b, date) == if FindByDate(a, date).Some? then FindByDate(a, date) else FindByDate(b, date)
  {
    if a != [] {
      assert (a + b)[1..] == a[1..] + b;
      FindByDateAppend(a[1..], b, date);
    } else {
      assert a + b == b;
    }
  }

  /** `isHoliday`: the formatted date is listed in either table (`some`). */
  predicate IsHoliday(d: Day)
  {
    exists i :: 0 <= i < |GetAllHolidays()| && GetAllHolidays()[i].date == FormatDateForHoliday(d)
  }

  /**
   * `some` and `find` agree: a day is a holiday exactly when `find`, which
   * `getHolidayName` uses, returns an entry, and that entry has the day's key.
   */
  lemma HolidayIffFound(d: Day)
    ensures IsHoliday(d) <==> FindByDate(GetAllHolidays(), FormatDateForHoliday(d)).Some?
    ensures IsHoliday(d) ==> FindByDate(GetAllHolidays(), FormatDateForHoliday(d)).value.date == FormatDateForHoliday(d)
  {
  }

  /** `isSunday`: `getDay() === 0`; the Sundays are the days 7k + 3 (1970-01-04 was the first). */
  predicate IsSunday(d: Day): (b: bool)
    ensures b <==> (d - 3) % 7 == 0
  {
    Weekday(d) == 0
  }

  /** `shouldSkipDate`: Sundays and listed holidays are not work days. */
  predicate ShouldSkipDate(d: Day)
  {
    IsSunday(d) || IsHoliday(d)
  }

  /** A day is skipped exactly when it is a Sunday or has a holiday name. */
  lemma SkipDateIffSundayOrNamed(d: Day)
    ensures ShouldSkipDate(d) <==> (d - 3) % 7 == 0 || GetHolidayName(d).Some?
  {
  }

  /**
   * `getHolidayName`: `null` exactly for a day that is not a holiday, and
   * otherwise the name of a listed entry for the date.
   */
  function GetHolidayName(d: Day): (r: Option<string>)
    ensures r.Some? <==> IsHoliday(d)
    ensures r.Some? ==>
      exists i :: 0 <= i < |GetAllHolidays()| &&
        GetAllHolidays()[i].date == FormatDateForHoliday(d) && GetAllHolidays()[i].name == r.value
  {
    match FindByDate(GetAllHolidays(), FormatDateForHoliday(d))
    case None => None
    case Some(h) => Some(h.name)
  }

  /**
   * The name is that of the entry listed for the date, and the national table
   * is searched before the collective-leave table.
   */
  lemma HolidayNameOfListedDate(d: Day, i: nat)
    requires i < |GetAllHolidays()| && GetAllHolidays()[i].date == FormatDateForHoliday(d)
    ensures GetHolidayName(d) == Some(GetAllHolidays()[i].name)
    ensures GetHolidayName(d) ==
      match FindByDate(IndonesiaHolidays2026, FormatDateForHoliday(d))
      case Some(h) => Some(h.name)
      case None => match FindByDate(IndonesiaCutiBersama2026, FormatDateForHoliday(d))
                   case Some(h) => Some(h.name)
                   case None => None
  {
    HolidayDatesDistinct();
    FindByDateAppend(IndonesiaHolidays2026, IndonesiaCutiBersama2026, FormatDateForHoliday(d));
  }

  /* ----- Work days ----- */

  /** The days of `[start, end]` that are neither Sundays nor holidays, in increasing order. */
  function WorkDays(start: Day, end: Day): seq<Day>
    decreases end - start
  {
    if start > end then []
    else (if ShouldSkipDate(start) then [] else [start]) + WorkDays(start + 1, end)
  }

  /**
   * The work days of a range are increasing, lie in the range and are not
   * skipped; every day of the range that is not skipped is one of them.
   */
  lemma {:induction false} WorkDaysSpec(start: Day, end: Day)
    ensures var r := WorkDays(start, end);
      && (forall i :: 0 <= i < |r| ==> start <= r[i] <= end && !ShouldSkipDate(r[i]))
      && (forall i, j :: 0 <= i < j < |r| ==> r[i] < r[j])
      && (forall d :: start <= d <= end && !ShouldSkipDate(d) ==> d in r)
    decreases end - start
  {
    if start <= end {
      WorkDaysSpec(start + 1, end);
    }
  }

  /** An empty or inverted range has no work days. */
  lemma WorkDaysEmptyRange(start: Day, end: Day)
    requires end < start
    ensures WorkDays(start, end) == []
  {
  }

  /** `getWorkDays`: walk from `startDate` to `endDate` inclusive, keeping the days not skipped. */
  method GetWorkDays(startDate: Day, endDate: Day) returns (workDays: seq<Day>)
    ensures workDays == WorkDays(startDate, endDate)
    ensures forall d :: d in workDays <==> startDate <= d <= endDate && !ShouldSkipDate(d)
    ensures forall i, j :: 0 <= i < j < |workDays| ==> workDays[i] < workDays[j]
  {
    workDays := [];
    var current := startDate;
    while current <= endDate
      invariant workDays + WorkDays(current, endDate) == WorkDays(startDate, endDate)
      decreases endDate - current
    {
      assert WorkDays(current, endDate) == (if ShouldSkipDate(current) then [] else [current]) + WorkDays(current + 1, endDate);
      if !ShouldSkipDate(current) {
        workDays := workDays + [current];
      }
      current := current + 1;
    }
    assert WorkDays(current, endDate) == [];
    WorkDaysSpec(startDate, endDate);
  }

  /** The work days of adjacent ranges join up. */
  lemma {:induction false} WorkDaysSplit(start: Day, mid: Day, end: Day)
    requires start <= mid + 1 && mid <= end
    ensures WorkDays(start, end) == WorkDays(start, mid) + WorkDays(mid + 1, end)
    decreases mid - start
  {
    if start <= mid {
      var head := if ShouldSkipDate(start) then [] else [start];
      WorkDaysSplit(start + 1, mid, end);
      assert WorkDays(start, end) == head + WorkDays(start + 1, end);
      assert WorkDays(start, mid) == head + WorkDays(start + 1, mid);
      assert head + (WorkDays(start + 1, mid) + WorkDays(mid + 1, end))
          == (head + WorkDays(start + 1, mid)) + WorkDays(mid + 1, end);
    }
  }

  /** The elements of a strictly increasing sequence are as many as its length. */
  lemma {:induction false} IncreasingCard(s: seq<Day>)
    requires forall i, j :: 0 <= i < j < |s| ==> s[i] < s[j]
    ensures |set x | x in s| == |s|
  {
    if s != [] {
      var init := s[..|s| - 1];
      IncreasingCard(init);
      assert (set x | x in s) == (set x | x in init) + {s[|s| - 1]};
      assert s[|s| - 1] !in init;
    }
  }

  /** `countWorkDays`: the number of days in `[start, end]` that are not skipped. */
  function CountWorkDays(start: Day, end: Day): (n: nat)
    ensures n == |set d | start <= d <= end && !ShouldSkipDate(d)|
    ensures n <= if start <= end then end - start + 1 else 0
  {
    var w := WorkDays(start, end);
    WorkDaysSpec(start, end);
    IncreasingCard(w);
    assert (set x | x in w) == (set d | start <= d <= end && !ShouldSkipDate(d));
    WorkDaysLength(start, end);
    |w|
  }

  lemma {:induction false} WorkDaysLength(start: Day, end: Day)
    ensures |WorkDays(start, end)| <= if start <= end then end - start + 1 else 0
    decreases end - start
  {
    if start <= end {
      WorkDaysLength(start + 1, end);
    }
  }

  /* ----- Checks of the calendar against known dates ----- */

  /** Day 0 is Thursday 1970-01-01. */
  lemma EpochIsThursday()
    ensures CivilFromDays(0) == CivilDate(1970, 1, 1)
    ensures Weekday(0) == 4
  {
    assert 719468 / 146097 == 4 && 719468 % 146097 == 135080;
    assert 135080 / 36524 == 3 && 25508 / 1461 == 17 && 671 / 365 == 1;
    assert (5 * 306 + 2) / 153 == 10 && (153 * 10 + 2) / 5 == 306;
  }

  /** Day 20454 is 2026-01-01, a Thursday. */
  lemma NewYear2026Date()
    ensures CivilFromDays(20454) == CivilDate(2026, 1, 1)
  {
    assert 739922 / 146097 == 5 && 739922 % 146097 == 9437;
    assert 9437 / 36524 == 0 && 9437 / 1461 == 6 && 671 / 365 == 1;
    assert (5 * 306 + 2) / 153 == 10 && (153 * 10 + 2) / 5 == 306;
  }

  lemma Year2026Text()
    ensures IntToString(2026) == "2026"
  {
    assert NatToString(2) == "2";
    assert NatToString(20) == "20";
    assert NatToString(202) == "202";
  }

  /** 2026-01-01 is formatted as the table writes it. */
  lemma NewYear2026Format()
    ensures FormatDateForHoliday(20454) == "2026-01-01"
  {
    NewYear2026Date();
    Year2026Text();
    assert PadStart2(IntToString(1)) == "01";
    assert FormatIsoDate(CivilDate(2026, 1, 1)) == "2026-01-01";
    assert GetFullYear(20454) == 2026 && GetMonth(20454) == 0 && GetDate(20454) == 1;
  }

  /**
   * So 2026-01-01 is a holiday, found under its name, and a skipped day
   * although not a Sunday. A single date: it checks that the day-number
   * calendar lines up with the `yyyy-MM-dd` keys of the holiday table.
   */
  lemma NewYear2026IsHoliday()
    ensures !IsSunday(20454)
    ensures IsHoliday(20454)
    ensures GetHolidayName(20454) == Some("Tahun Baru Masehi")
  {
    assert !IsSunday(20454);
    NewYear2026Listed();
    NewYear2026Name();
  }

  lemma NewYear2026Listed()
    ensures IsHoliday(20454)
  {
    NewYear2026Format();
    assert GetAllHolidays()[0].date == FormatDateForHoliday(20454);
  }

  lemma NewYear2026Name()
    ensures GetHolidayName(20454) == Some("Tahun Baru Masehi")
  {
    NewYear2026Format();
    assert GetAllHolidays()[0].date == FormatDateForHoliday(20454);
    HolidayNameOfListedDate(20454, 0);
  }

  lemma Hijri1448Date()
    ensures CivilFromDays(20534) == CivilDate(2026, 3, 22)
  {
    assert 740002 / 146097 == 5 && 740002 % 146097 == 9517;
    assert 9517 / 36524 == 0 && 9517 / 1461 == 6 && 751 / 365 == 2;
    assert (5 * 21 + 2) / 153 == 0 && (153 * 0 + 2) / 5 == 0;
  }

  lemma Hijri1448Format()
    ensures FormatDateForHoliday(20534) == "2026-03-22"
  {
    Hijri1448Date();
    Year2026Text();
    assert PadStart2(IntToString(3)) == "03";
    assert NatToString(22) == "22" by {
      assert NatToString(2) == "2";
    }
    assert PadStart2(IntToString(22)) == "22";
    assert FormatIsoDate(CivilDate(2026, 3, 22)) == "2026-03-22";
    assert GetFullYear(20534) == 2026 && GetMonth(20534) == 2 && GetDate(20534) == 22;
  }

  /**
   * 2026-03-22 (day 20534) is both a Sunday and a listed national holiday.
   * A single date: it checks that the weekday and the table key computed
   * from the day number agree with the calendar.
   */
  lemma Hijri1448IsSundayAndHoliday()
    ensures IsSunday(20534)
    ensures IsHoliday(20534)
    ensures GetHolidayName(20534) == Some("Tahun Baru Hijriyah 1448 H")
  {
    assert IsSunday(20534);
    Hijri1448Listed();
    Hijri1448Name();
  }

  lemma Hijri1448Listed()
    ensures IsHoliday(20534)
  {
    Hijri1448Entry();
  }

  lemma Hijri1448Name()
    ensures GetHolidayName(20534) == Some("Tahun Baru Hijriyah 1448 H")
  {
    Hijri1448Entry();
    HolidayNameOfListedDate(20534, 3);
  }

  lemma Hijri1448Entry()
    ensures 3 < |GetAllHolidays()|
    ensures GetAllHolidays()[3].date == FormatDateForHoliday(20534)
    ensures GetAllHolidays()[3].name == "Tahun Baru Hijriyah 1448 H"
  {
    Hijri1448Format();
    Hijri1448Table();
  }

  lemma Hijri1448Table()
    ensures 3 < |GetAllHolidays()|
    ensures GetAllHolidays()[3].date == "2026-03-22"
    ensures GetAllHolidays()[3].name == "Tahun Baru Hijriyah 1448 H"
  {
    assert GetAllHolidays()[3] == IndonesiaHolidays2026[3];
  }
}
