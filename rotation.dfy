/**
 * The weekday rotation generator: the active workers are cut into three
 * contiguous groups, group `floor(i / 3) mod 3` serves day `i` of the period,
 * and every overtime type of a day takes a prefix of the serving group.
 */
module Rotation {
  import opened Wrappers
  import opened Domain
  import opened Seqs
  import Holidays

  function IsAktif(p: Pekerja): bool
  {
    p.aktif
  }

  /** The workers that take part in the rotation, in list order. */
  function AktifPekerja(pekerjaList: seq<Pekerja>): seq<Pekerja>
  {
    Filter(pekerjaList, IsAktif)
  }

  /** `Math.ceil(n / 3)`: the least group size for which three groups hold everyone. */
  function PekerjaPerGrup(n: nat): (k: nat)
    ensures n <= 3 * k < n + 3
  {
    (n + 2) / 3
  }

  /**
   * The three rotation groups: two slices of `PekerjaPerGrup` workers, and the
   * rest. Together they are the active list, in order.
   */
  function GrupPekerja(aktif: seq<Pekerja>): (g: seq<seq<Pekerja>>)
    ensures |g| == 3
    ensures g[0] + g[1] + g[2] == aktif
  {
    var k := PekerjaPerGrup(|aktif|);
    SlicesCover(aktif, k);
    [Slice(aktif, 0, k), Slice(aktif, k, k * 2), SliceFrom(aktif, k * 2)]
  }

  /** Slicing at `k` and `2k` and taking the rest covers the list. */
  lemma SlicesCover(aktif: seq<Pekerja>, k: nat)
    ensures Slice(aktif, 0, k) + Slice(aktif, k, k * 2) + SliceFrom(aktif, k * 2) == aktif
  {
    var n := |aktif|;
    var b1 := Min(k, n);
    var b2 := Min(2 * k, n);
    assert Slice(aktif, 0, k) == aktif[..b1];
    assert Slice(aktif, k, k * 2) == aktif[b1..b2];
    assert SliceFrom(aktif, k * 2) == aktif[b2..];
    assert aktif[..b1] + aktif[b1..b2] + aktif[b2..] == aktif;
  }

  /**
   * The group (0, 1 or 2) serving day `i` of the period: it changes every
   * three days, so it is the number of the day's three-day block within its
   * nine-day cycle.
   */
  function GrupIndex(i: nat): (g: nat)
    ensures g < 3
    ensures g == (i % 9) / 3
  {
    assert i / 3 == 3 * (i / 9) + (i % 9) / 3;
    (i / 3) % 3
  }

  /** The entry for day `i` and one overtime type. */
  function ScheduleEntry(startDate: Day, i: nat, jenis: JenisOvertime, grups: seq<seq<Pekerja>>): GeneratedSchedule
    requires |grups| == 3
  {
    var g := GrupIndex(i);
    GeneratedSchedule(
      startDate + i, jenis.id, g + 1, Holidays.IsSunday(startDate + i), jenis.durasiJam,
      Slice(grups[g], 0, jenis.alokasiPekerja), jenis, None)
  }

  /** The entries of day `i`, one per overtime type, in the order of the types. */
  function DayEntries(startDate: Day, i: nat, js: seq<JenisOvertime>, grups: seq<seq<Pekerja>>): (r: seq<GeneratedSchedule>)
    requires |grups| == 3
    ensures |r| == |js|
  {
    seq(|js|, k requires 0 <= k < |js| => ScheduleEntry(startDate, i, js[k], grups))
  }

  /** The entries of the first `n` days, day by day. */
  function RotationSchedule(startDate: Day, n: nat, js: seq<JenisOvertime>, grups: seq<seq<Pekerja>>): seq<GeneratedSchedule>
    requires |grups| == 3
  {
    if n == 0 then [] else RotationSchedule(startDate, n - 1, js, grups) + DayEntries(startDate, n - 1, js, grups)
  }

  /**
   * `generateRotationSchedule`: for each of the `days` days (none when `days`
   * is not positive), one entry per overtime type.
   */
  method GenerateRotationSchedule(startDate: Day, days: int, jenisOvertimeList: seq<JenisOvertime>, pekerjaList: seq<Pekerja>)
    returns (schedules: seq<GeneratedSchedule>)
    ensures schedules ==
      RotationSchedule(startDate, if days < 0 then 0 else days, jenisOvertimeList, GrupPekerja(AktifPekerja(pekerjaList)))
  {
    schedules := [];
    var aktifPekerja := AktifPekerja(pekerjaList);
    var grupPekerja := GrupPekerja(aktifPekerja);
    var i := 0;
    while i < days
      invariant 0 <= i <= if days < 0 then 0 else days
      invariant schedules == RotationSchedule(startDate, i, jenisOvertimeList, grupPekerja)
    {
      var grupIndex := (i / 3) % 3;
      var isSundayDate := Holidays.IsSunday(startDate + i);
      ghost var before := schedules;
      for k := 0 to |jenisOvertimeList|
        invariant schedules == before + DayEntries(startDate, i, jenisOvertimeList[..k], grupPekerja)
      {
        var jenisOT := jenisOvertimeList[k];
        var assignedPekerja := Slice(grupPekerja[grupIndex], 0, jenisOT.alokasiPekerja);
        schedules := schedules + [GeneratedSchedule(
          startDate + i, jenisOT.id, grupIndex + 1, isSundayDate, jenisOT.durasiJam,
          assignedPekerja, jenisOT, None)];
        assert jenisOvertimeList[..k + 1] == jenisOvertimeList[..k] + [jenisOT];
      }
      assert jenisOvertimeList[..|jenisOvertimeList|] == jenisOvertimeList;
      i := i + 1;
    }
  }

  /* ----- The groups ----- */

  /**
   * The groups cut the active list into three consecutive pieces: the first
   * two take `ceil(n / 3)` workers each while workers remain, the third the rest.
   */
  lemma GroupSplit(aktif: seq<Pekerja>)
    ensures var g := GrupPekerja(aktif); var n := |aktif|; var k := PekerjaPerGrup(n);
      g[0] + g[1] + g[2] == aktif &&
      |g[0]| == Min(k, n) &&
      |g[1]| == Min(k, n - |g[0]|) &&
      |g[2]| == n - |g[0]| - |g[1]| && |g[2]| <= k
  {
    var g := GrupPekerja(aktif);
    var n := |aktif|;
    var k := PekerjaPerGrup(n);
    var m := Min(2 * k, n);
    if n == 0 {
      assert g[0] == [] && g[1] == [] && g[2] == [];
    } else {
      assert g[0] == aktif[..k];
      assert g[1] == aktif[k..m];
      assert g[2] == aktif[m..];
      assert aktif[..k] + aktif[k..m] + aktif[m..] == aktif;
    }
  }

  /** The groups are the slices of the active list between two cut points. */
  lemma GroupBounds(aktif: seq<Pekerja>) returns (b1: nat, b2: nat)
    ensures var g := GrupPekerja(aktif);
      b1 <= b2 <= |aktif| && g[0] == aktif[..b1] && g[1] == aktif[b1..b2] && g[2] == aktif[b2..]
  {
    var k := PekerjaPerGrup(|aktif|);
    b1 := Min(k, |aktif|);
    b2 := Min(k * 2, |aktif|);
  }

  /** The groups sit at consecutive positions of the active list. */
  lemma GroupPositions(aktif: seq<Pekerja>)
    ensures var g := GrupPekerja(aktif);
      (forall x :: 0 <= x < |g[0]| ==> g[0][x] == aktif[x]) &&
      (forall x :: 0 <= x < |g[1]| ==> g[1][x] == aktif[|g[0]| + x]) &&
      (forall x :: 0 <= x < |g[2]| ==> g[2][x] == aktif[|g[0]| + |g[1]| + x])
  {
    var g := GrupPekerja(aktif);
    var b1, b2 := GroupBounds(aktif);
    assert |g[0]| == b1 && |g[1]| == b2 - b1;
    forall x | 0 <= x < |g[1]| ensures g[1][x] == aktif[|g[0]| + x] {
      assert g[1][x] == aktif[b1..b2][x];
    }
    forall x | 0 <= x < |g[2]| ensures g[2][x] == aktif[|g[0]| + |g[1]| + x] {
      assert g[2][x] == aktif[b2..][x];
    }
  }

  /** With distinct worker ids, no worker is in two groups and no group repeats a worker. */
  lemma GroupsDisjoint(aktif: seq<Pekerja>)
    requires DistinctIds(aktif)
    ensures var g := GrupPekerja(aktif);
      forall a, b, x, y :: 0 <= a < b < 3 && 0 <= x < |g[a]| && 0 <= y < |g[b]| ==> g[a][x].id != g[b][y].id
    ensures var g := GrupPekerja(aktif); DistinctIds(g[0]) && DistinctIds(g[1]) && DistinctIds(g[2])
  {
    var g: seq<seq<Pekerja>> := GrupPekerja(aktif);
    var b1, b2 := GroupBounds(aktif);
    DistinctIdsSlice(aktif, 0, b1);
    DistinctIdsSlice(aktif, b1, b2);
    DistinctIdsSlice(aktif, b2, |aktif|);
    assert aktif[b2..|aktif|] == aktif[b2..];
    forall a: int, b: int, x: int, y: int | 0 <= a < b < 3 && 0 <= x < |g[a]| && 0 <= y < |g[b]|
      ensures g[a][x].id != g[b][y].id
    {
      var px := if a == 0 then x else b1 + x;
      var py := if b == 1 then b1 + y else b2 + y;
      assert g[a][x] == aktif[px];
      assert g[b][y] == aktif[py];
    }
  }

  /** Which groups are empty for small teams: group 2 below two workers, group 3 below three and at four. */
  lemma SmallTeams(aktif: seq<Pekerja>)
    ensures var g := GrupPekerja(aktif); var n := |aktif|;
      (g[0] == [] <==> n == 0) &&
      (g[1] == [] <==> n <= 1) &&
      (g[2] == [] <==> n <= 2 || n == 4)
  {
    GroupSplit(aktif);
  }

  /** Every group member is an active worker of the input list. */
  lemma GroupMembers(pekerjaList: seq<Pekerja>, g: nat, p: Pekerja)
    requires g < 3 && p in GrupPekerja(AktifPekerja(pekerjaList))[g]
    ensures p in pekerjaList && p.aktif
  {
    FilterMembership(pekerjaList, IsAktif, p);
  }

  /* ----- Which group serves which day ----- */

  /** The serving group repeats every nine days. */
  lemma GrupIndexPeriod(i: nat)
    ensures GrupIndex(i + 9) == GrupIndex(i)
  {
    assert (i + 9) / 3 == i / 3 + 3;
  }

  /** Days of one three-day block are served by the same group, and consecutive blocks by the next one. */
  lemma GrupIndexBlocks(i: nat)
    ensures GrupIndex(i) == GrupIndex(3 * (i / 3))
    ensures GrupIndex(3 * (i / 3) + 3) == (GrupIndex(i) + 1) % 3
  {
    assert 3 * (i / 3) / 3 == i / 3;
    assert (3 * (i / 3) + 3) / 3 == i / 3 + 1;
  }

  /* ----- Shape of the schedule ----- */

  lemma {:induction false} RotationScheduleLength(startDate: Day, n: nat, js: seq<JenisOvertime>, grups: seq<seq<Pekerja>>)
    requires |grups| == 3
    ensures |RotationSchedule(startDate, n, js, grups)| == n * |js|
  {
    if n > 0 {
      RotationScheduleLength(startDate, n - 1, js, grups);
      assert n * |js| == (n - 1) * |js| + |js|;
    }
  }

  /** Entries come day by day and, within a day, in the order of the overtime types. */
  lemma {:induction false} RotationScheduleAt(startDate: Day, n: nat, js: seq<JenisOvertime>, grups: seq<seq<Pekerja>>, i: nat, k: nat)
    requires |grups| == 3 && i < n && k < |js|
    ensures i * |js| + k < |RotationSchedule(startDate, n, js, grups)|
    ensures RotationSchedule(startDate, n, js, grups)[i * |js| + k] == ScheduleEntry(startDate, i, js[k], grups)
  {
    RotationScheduleLength(startDate, n - 1, js, grups);
    RotationScheduleLength(startDate, n, js, grups);
    if i < n - 1 {
      RotationScheduleAt(startDate, n - 1, js, grups, i, k);
    } else {
      assert i * |js| + k == (n - 1) * |js| + k;
    }
  }

  /**
   * What every entry is: a day of the period, one of the overtime types, the
   * group serving that day (numbered 1 to 3), whether that day is a Sunday
   * (Sundays are scheduled like any other day), the type's id and duration,
   * and a prefix of the serving group.
   */
  predicate IsRotationEntry(s: GeneratedSchedule, startDate: Day, n: nat, js: seq<JenisOvertime>, grups: seq<seq<Pekerja>>)
    requires |grups| == 3
  {
    var i := s.tanggal - startDate;
    0 <= i < n && s.jenisOvertime in js &&
    s.grupRotasi == GrupIndex(i) + 1 && 1 <= s.grupRotasi <= 3 &&
    s.isMinggu == Holidays.IsSunday(s.tanggal) &&
    s.jenisOvertimeId == s.jenisOvertime.id && s.durasiJam == s.jenisOvertime.durasiJam &&
    s.assignedPekerja == Slice(grups[GrupIndex(i)], 0, s.jenisOvertime.alokasiPekerja) &&
    s.liburInfo == None
  }

  lemma {:induction false} RotationEntries(startDate: Day, n: nat, js: seq<JenisOvertime>, grups: seq<seq<Pekerja>>)
    requires |grups| == 3
    ensures forall e :: 0 <= e < |RotationSchedule(startDate, n, js, grups)| ==>
      IsRotationEntry(RotationSchedule(startDate, n, js, grups)[e], startDate, n, js, grups)
  {
    if n > 0 {
      RotationEntries(startDate, n - 1, js, grups);
    }
  }

  lemma EntryAt(startDate: Day, n: nat, js: seq<JenisOvertime>, grups: seq<seq<Pekerja>>, e: nat)
    requires |grups| == 3 && e < |RotationSchedule(startDate, n, js, grups)|
    ensures IsRotationEntry(RotationSchedule(startDate, n, js, grups)[e], startDate, n, js, grups)
  {
    RotationEntries(startDate, n, js, grups);
  }

  /** Entries of one date agree on the group and on the Sunday flag. */
  lemma SameDateAgree(startDate: Day, n: nat, js: seq<JenisOvertime>, grups: seq<seq<Pekerja>>, e1: nat, e2: nat)
    requires |grups| == 3
    requires e1 < |RotationSchedule(startDate, n, js, grups)| && e2 < |RotationSchedule(startDate, n, js, grups)|
    requires RotationSchedule(startDate, n, js, grups)[e1].tanggal == RotationSchedule(startDate, n, js, grups)[e2].tanggal
    ensures RotationSchedule(startDate, n, js, grups)[e1].grupRotasi == RotationSchedule(startDate, n, js, grups)[e2].grupRotasi
    ensures RotationSchedule(startDate, n, js, grups)[e1].isMinggu == RotationSchedule(startDate, n, js, grups)[e2].isMinggu
  {
    RotationEntries(startDate, n, js, grups);
  }

  /** For one overtime type, days of the same three-day block (or nine days apart) get the same workers. */
  lemma SameBlockSameWorkers(startDate: Day, n: nat, js: seq<JenisOvertime>, grups: seq<seq<Pekerja>>, e1: nat, e2: nat)
    requires |grups| == 3
    requires e1 < |RotationSchedule(startDate, n, js, grups)| && e2 < |RotationSchedule(startDate, n, js, grups)|
    requires RotationSchedule(startDate, n, js, grups)[e1].jenisOvertime == RotationSchedule(startDate, n, js, grups)[e2].jenisOvertime
    requires var d1 := RotationSchedule(startDate, n, js, grups)[e1].tanggal - startDate;
             var d2 := RotationSchedule(startDate, n, js, grups)[e2].tanggal - startDate;
             d1 / 3 == d2 / 3 || d2 == d1 + 9
    ensures RotationSchedule(startDate, n, js, grups)[e1].assignedPekerja ==
            RotationSchedule(startDate, n, js, grups)[e2].assignedPekerja
  {
    RotationEntries(startDate, n, js, grups);
    var d1 := RotationSchedule(startDate, n, js, grups)[e1].tanggal - startDate;
    if 0 <= d1 {
      GrupIndexPeriod(d1);
    }
  }

  /* ----- Who is assigned ----- */

  /** `g.slice(0, a)` is a prefix of `g`: all of `g` up to `a` workers, fewer workers than that for a negative `a`. */
  lemma SlicePrefix(g: seq<Pekerja>, a: int)
    ensures Slice(g, 0, a) == g[..SlicePosition(a, |g|)]
    ensures 0 <= a ==> |Slice(g, 0, a)| == Min(a, |g|)
  {
  }

  /** Only active workers of the input list are ever assigned. */
  lemma OnlyAktifAssigned(startDate: Day, n: nat, js: seq<JenisOvertime>, pekerjaList: seq<Pekerja>, e: nat, p: Pekerja)
    requires e < |RotationSchedule(startDate, n, js, GrupPekerja(AktifPekerja(pekerjaList)))|
    requires p in RotationSchedule(startDate, n, js, GrupPekerja(AktifPekerja(pekerjaList)))[e].assignedPekerja
    ensures p in pekerjaList && p.aktif
  {
    var grups := GrupPekerja(AktifPekerja(pekerjaList));
    var g, m := AssignedPrefix(startDate, n, js, grups, e);
    assert p in grups[g];
    GroupMembers(pekerjaList, g, p);
  }

  /** With distinct worker ids in the input, no entry lists a worker twice. */
  lemma AssignedDistinct(startDate: Day, n: nat, js: seq<JenisOvertime>, pekerjaList: seq<Pekerja>, e: nat)
    requires DistinctIds(pekerjaList)
    requires e < |RotationSchedule(startDate, n, js, GrupPekerja(AktifPekerja(pekerjaList)))|
    ensures DistinctIds(RotationSchedule(startDate, n, js, GrupPekerja(AktifPekerja(pekerjaList)))[e].assignedPekerja)
  {
    var aktif := AktifPekerja(pekerjaList);
    var grups := GrupPekerja(aktif);
    FilterDistinctIds(pekerjaList, IsAktif);
    GroupsDisjoint(aktif);
    var g, m := AssignedPrefix(startDate, n, js, grups, e);
    assert DistinctIds(grups[g]);
  }

  /** The workers of an entry are a prefix of one of the groups. */
  lemma AssignedPrefix(startDate: Day, n: nat, js: seq<JenisOvertime>, grups: seq<seq<Pekerja>>, e: nat)
    returns (g: nat, m: nat)
    requires |grups| == 3 && e < |RotationSchedule(startDate, n, js, grups)|
    ensures g < 3 && m <= |grups[g]| && RotationSchedule(startDate, n, js, grups)[e].assignedPekerja == grups[g][..m]
  {
    var s := RotationSchedule(startDate, n, js, grups)[e];
    EntryAt(startDate, n, js, grups, e);
    g := GrupIndex(s.tanggal - startDate);
    SlicePrefix(grups[g], s.jenisOvertime.alokasiPekerja);
    m := SlicePosition(s.jenisOvertime.alokasiPekerja, |grups[g]|);
  }
}
