/**
 * The records the overtime ("lembur") scheduler works with: workers
 * (`Pekerja`), overtime types (`JenisOvertime`) and the plan rows the two
 * generators produce (`RencanaOvertime` together with the workers assigned to
 * it).
 *
 * A calendar date is a day number: day 0 is 1970-01-01 and day n is n days
 * later. Creation timestamps are never read by the modelled code and are left
 * out.
 */
module Domain {
  import opened Wrappers
  import opened Seqs

  type Id = string

  /** A calendar date as a day number (0 = 1970-01-01). */
  type Day = int

  /** A worker. Only `aktif` workers take part in the weekday rotation. */
  datatype Pekerja = Pekerja(id: Id, nama: string, nip: string, aktif: bool)

  /**
   * A worker as the reports read it: id, name and the registration number,
   * which is selected under the column name `nik` and may be missing.
   */
  datatype PekerjaInfo = PekerjaInfo(id: Id, nama: string, nik: Option<string>)

  /** An overtime type: how many workers it needs per day and how long a shift lasts. */
  datatype JenisOvertime = JenisOvertime(
    id: Id,
    nama: string,
    alokasiPekerja: int,
    durasiJam: real,
    keterangan: Option<string>)

  /** Why a day is a rest day: it is a Sunday, or it is listed as a holiday. */
  datatype LiburType = Minggu | LiburNasional

  /** A rest day found in a date range; `name` is the holiday's name (`null` when none is found). */
  datatype LiburDay = LiburDay(tanggal: Day, dayName: string, liburType: LiburType, name: Option<string>)

  /**
   * One generated plan row, before it is saved: the overtime of one type on one
   * day, with the workers assigned to it. `liburInfo` is only present in the
   * rest-day schedule.
   */
  datatype GeneratedSchedule = GeneratedSchedule(
    tanggal: Day,
    jenisOvertimeId: Id,
    grupRotasi: int,
    isMinggu: bool,
    durasiJam: real,
    assignedPekerja: seq<Pekerja>,
    jenisOvertime: JenisOvertime,
    liburInfo: Option<LiburDay>)

  /** No two workers in the list share an id. */
  predicate DistinctIds(ps: seq<Pekerja>)
  {
    forall i, j :: 0 <= i < j < |ps| ==> ps[i].id != ps[j].id
  }

  /** A slice of a list with distinct ids has distinct ids. */
  lemma DistinctIdsSlice(ps: seq<Pekerja>, lo: nat, hi: nat)
    requires DistinctIds(ps) && lo <= hi <= |ps|
    ensures DistinctIds(ps[lo..hi])
  {
    forall i, j | 0 <= i < j < hi - lo ensures ps[lo..hi][i].id != ps[lo..hi][j].id {
      assert ps[lo..hi][i] == ps[lo + i] && ps[lo..hi][j] == ps[lo + j];
    }
  }

  /** Filtering keeps distinct ids distinct. */
  lemma {:induction false} FilterDistinctIds(ps: seq<Pekerja>, p: Pekerja -> bool)
    requires DistinctIds(ps)
    ensures DistinctIds(Filter(ps, p))
  {
    if ps != [] {
      var init := ps[..|ps| - 1];
      var last := ps[|ps| - 1];
      FilterDistinctIds(init, p);
      var f := Filter(init, p);
      forall x | 0 <= x < |f| ensures f[x].id != last.id {
        FilterMembership(init, p, f[x]);
        var j :| 0 <= j < |init| && init[j] == f[x];
        assert ps[j] == init[j];
      }
    }
  }
}
