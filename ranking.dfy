/**
 * The performance ranking of a month: per worker, the planned and the actual
 * overtime hours, attendance counts, the share of planned hours actually
 * worked, a three-way category, and the ranking of the workers that had plans,
 * best rounded share first.
 *
 * Hours are exact reals here; `Math.round` is rounding half up.
 */
module Ranking {
  import opened Wrappers
  import opened Domain
  import opened Seqs

  /** A worker's link to a plan row; the plan's duration is missing when the plan is. */
  datatype RencanaRow = RencanaRow(pekerjaId: Id, durasiJam: Option<real>)

  /** A worker's actual attendance row. */
  datatype AktualRow = AktualRow(pekerjaId: Id, dilaksanakan: bool, durasiAktual: Option<real>)

  datatype Kategori = Optimal | Baik | Kurang

  /** The figures shown for one worker. */
  datatype Stats = Stats(
    pekerja: PekerjaInfo,
    totalRencana: real,
    totalAktual: real,
    jumlahHadir: nat,
    jumlahTidakHadir: nat,
    persentase: int,
    kategori: Kategori)

  /** `x || 0` on an optional number: a missing value and zero both count as 0. */
  function OrZero(x: Option<real>): (r: real)
    ensures x.None? ==> r == 0.0
    ensures x.Some? ==> r == x.value
  {
    match x
    case None => 0.0
    case Some(v) => v
  }

  /** `data || []` on a query result that may be `null`. */
  function OrEmpty<T>(data: Option<seq<T>>): seq<T>
  {
    match data
    case None => []
    case Some(xs) => xs
  }

  function RencanaOf(rencanaData: Option<seq<RencanaRow>>, id: Id): seq<RencanaRow>
  {
    Filter(OrEmpty(rencanaData), (r: RencanaRow) => r.pekerjaId == id)
  }

  function AktualOf(aktualData: Option<seq<AktualRow>>, id: Id): seq<AktualRow>
  {
    Filter(OrEmpty(aktualData), (a: AktualRow) => a.pekerjaId == id)
  }

  /** The planned hours of a list of plan rows, added up in order. */
  function SumRencana(rows: seq<RencanaRow>): real
  {
    if rows == [] then 0.0 else SumRencana(rows[..|rows| - 1]) + OrZero(rows[|rows| - 1].durasiJam)
  }

  /** The `reduce` over attendance rows: only rows marked as attended add their hours. */
  function SumAktual(rows: seq<AktualRow>): real
  {
    if rows == [] then 0.0
    else
      var last := rows[|rows| - 1];
      if last.dilaksanakan then SumAktual(rows[..|rows| - 1]) + OrZero(last.durasiAktual)
      else SumAktual(rows[..|rows| - 1])
  }

  /** The plain sum of actual hours of a list of rows. */
  function SumDurasi(rows: seq<AktualRow>): real
  {
    if rows == [] then 0.0 else SumDurasi(rows[..|rows| - 1]) + OrZero(rows[|rows| - 1].durasiAktual)
  }

  function IsHadir(a: AktualRow): bool
  {
    a.dilaksanakan
  }

  function IsTidakHadir(a: AktualRow): bool
  {
    !a.dilaksanakan
  }

  /** The actual total counts exactly the hours of the attended rows. */
  lemma {:induction false} SumAktualAttended(rows: seq<AktualRow>)
    ensures SumAktual(rows) == SumDurasi(Filter(rows, IsHadir))
  {
    if rows != [] {
      var init := rows[..|rows| - 1];
      var last := rows[|rows| - 1];
      SumAktualAttended(init);
      if last.dilaksanakan {
        var f := Filter(init, IsHadir) + [last];
        assert Filter(rows, IsHadir) == f;
        assert f[..|f| - 1] == Filter(init, IsHadir);
        assert SumDurasi(f) == SumDurasi(Filter(init, IsHadir)) + OrZero(last.durasiAktual);
      } else {
        assert Filter(rows, IsHadir) == Filter(init, IsHadir);
      }
    }
  }

  /** The share of planned hours actually worked, in percent; 0 when nothing positive was planned. */
  function Persentase(totalAktual: real, totalRencana: real): (p: real)
    ensures totalRencana <= 0.0 ==> p == 0.0
    ensures totalRencana > 0.0 ==> p * totalRencana == totalAktual * 100.0
  {
    if totalRencana > 0.0 then (totalAktual / totalRencana) * 100.0 else 0.0
  }

  /** The category of an (unrounded) percentage. */
  function KategoriOf(p: real): (k: Kategori)
    ensures k == Optimal <==> p >= 90.0
    ensures k == Baik <==> 70.0 <= p < 90.0
    ensures k == Kurang <==> p < 70.0
  {
    if p >= 90.0 then Optimal else if p >= 70.0 then Baik else Kurang
  }

  /** `Math.round`: the nearest integer, halves rounded up. */
  function Round(x: real): (r: int)
    ensures (r as real) - 0.5 <= x < (r as real) + 0.5
  {
    (x + 0.5).Floor
  }

  /** Rounding keeps order. */
  lemma RoundMonotone(x: real, y: real)
    requires x <= y
    ensures Round(x) <= Round(y)
  {
  }

  /**
   * The figures of one worker. The actual total counts the attended rows
   * only; every attendance row is counted once, as attended or as missed.
   * The category is decided on the unrounded share while the rounded one is
   * shown, so they agree up to the 90 and 70 boundaries: an "Optimal" worker
   * shows at least 90, a "Kurang" one at most 70, a "Baik" one 70 to 90.
   */
  function PekerjaStats(pekerja: PekerjaInfo, rencanaData: Option<seq<RencanaRow>>, aktualData: Option<seq<AktualRow>>): (s: Stats)
    ensures s.pekerja == pekerja && s.totalRencana == SumRencana(RencanaOf(rencanaData, pekerja.id))
    ensures s.totalAktual == SumDurasi(Filter(AktualOf(aktualData, pekerja.id), IsHadir))
    ensures s.jumlahHadir == |Filter(AktualOf(aktualData, pekerja.id), IsHadir)|
    ensures s.jumlahTidakHadir == |Filter(AktualOf(aktualData, pekerja.id), IsTidakHadir)|
    ensures s.jumlahHadir + s.jumlahTidakHadir == |AktualOf(aktualData, pekerja.id)|
    ensures s.persentase == Round(Persentase(s.totalAktual, s.totalRencana))
    ensures s.kategori == KategoriOf(Persentase(s.totalAktual, s.totalRencana))
    ensures s.kategori == Optimal ==> s.persentase >= 90
    ensures s.kategori == Baik ==> 70 <= s.persentase <= 90
    ensures s.kategori == Kurang ==> s.persentase <= 70
  {
    var totalRencana := SumRencana(RencanaOf(rencanaData, pekerja.id));
    var aktualList := AktualOf(aktualData, pekerja.id);
    var totalAktual := SumAktual(aktualList);
    var persentase := Persentase(totalAktual, totalRencana);
    SumAktualAttended(aktualList);
    FilterSplit(aktualList, IsHadir, IsTidakHadir);
    Stats(
      pekerja, totalRencana, totalAktual,
      |Filter(aktualList, IsHadir)|, |Filter(aktualList, IsTidakHadir)|,
      Round(persentase), KategoriOf(persentase))
  }

  /** A worker who worked 179 of 200 planned hours shows 90 but is only "Baik". */
  lemma RoundedNinetyCanBeBaik()
    ensures Persentase(179.0, 200.0) == 89.5
    ensures Round(Persentase(179.0, 200.0)) == 90
    ensures KategoriOf(Persentase(179.0, 200.0)) == Baik
  {
  }

  /* ----- Ranking ----- */

  function HasRencana(s: Stats): bool
  {
    s.totalRencana > 0.0
  }

  /** `stats`: one entry per worker, in the order of the worker list. */
  function AllStats(pekerjaData: seq<PekerjaInfo>, rencanaData: Option<seq<RencanaRow>>, aktualData: Option<seq<AktualRow>>): (r: seq<Stats>)
    ensures |r| == |pekerjaData|
    ensures forall i :: 0 <= i < |r| ==> r[i].pekerja == pekerjaData[i]
  {
    seq(|pekerjaData|, i requires 0 <= i < |pekerjaData| => PekerjaStats(pekerjaData[i], rencanaData, aktualData))
  }

  /** Non-increasing by rounded percentage. */
  predicate SortedDesc(xs: seq<Stats>)
  {
    forall i, j :: 0 <= i < j < |xs| ==> xs[i].persentase >= xs[j].persentase
  }

  /** Put `x` before the first entry it is not below: after the better ones, before the equal ones. */
  function Insert(x: Stats, xs: seq<Stats>): seq<Stats>
  {
    if xs == [] || x.persentase >= xs[0].persentase then [x] + xs
    else [xs[0]] + Insert(x, xs[1..])
  }

  /**
   * `sort((a, b) => b.persentase - a.persentase)`: JavaScript's sort is
   * stable, so this is a stable sort, best rounded share first.
   */
  function SortByPersentase(xs: seq<Stats>): (r: seq<Stats>)
    ensures SortedDesc(r)
    ensures multiset(r) == multiset(xs)
  {
    if xs == [] then []
    else
      var rest := SortByPersentase(xs[1..]);
      InsertSorted(xs[0], rest);
      InsertPermutes(xs[0], rest);
      assert xs == [xs[0]] + xs[1..];
      Insert(xs[0], rest)
  }

  /** `rankings`: the workers that had planned hours, rearranged best first. */
  function Rankings(pekerjaData: seq<PekerjaInfo>, rencanaData: Option<seq<RencanaRow>>, aktualData: Option<seq<AktualRow>>): (r: seq<Stats>)
    ensures SortedDesc(r)
    ensures multiset(r) == multiset(Filter(AllStats(pekerjaData, rencanaData, aktualData), HasRencana))
  {
    SortByPersentase(Filter(AllStats(pekerjaData, rencanaData, aktualData), HasRencana))
  }

  lemma {:induction false} InsertPermutes(x: Stats, xs: seq<Stats>)
    ensures multiset(Insert(x, xs)) == multiset(xs) + multiset{x}
  {
    if xs != [] && x.persentase < xs[0].persentase {
      InsertPermutes(x, xs[1..]);
      assert xs == [xs[0]] + xs[1..];
    }
  }

  lemma {:induction false} InsertSorted(x: Stats, xs: seq<Stats>)
    requires SortedDesc(xs)
    ensures SortedDesc(Insert(x, xs))
  {
    if xs != [] && x.persentase < xs[0].persentase {
      InsertSorted(x, xs[1..]);
      InsertPermutes(x, xs[1..]);
      var r := Insert(x, xs[1..]);
      forall k | 0 <= k < |r| ensures xs[0].persentase >= r[k].persentase {
        assert r[k] in multiset(r);
        if r[k] != x {
          assert r[k] in multiset(xs[1..]);
          var j :| 0 <= j < |xs[1..]| && xs[1..][j] == r[k];
          assert xs[j + 1] == r[k];
        }
      }
      assert Insert(x, xs) == [xs[0]] + r;
    }
  }

  function WithPersentase(k: int): Stats -> bool
  {
    (s: Stats) => s.persentase == k
  }

  lemma {:induction false} InsertStable(x: Stats, xs: seq<Stats>, k: int)
    ensures Filter(Insert(x, xs), WithPersentase(k)) == Filter([x] + xs, WithPersentase(k))
  {
    var p := WithPersentase(k);
    if xs != [] && x.persentase < xs[0].persentase {
      InsertStable(x, xs[1..], k);
      FilterCons(xs[0], Insert(x, xs[1..]), p);
      FilterCons(x, xs[1..], p);
      FilterCons(x, xs, p);
      FilterCons(xs[0], xs[1..], p);
      assert xs == [xs[0]] + xs[1..];
    }
  }

  /** Entries with equal rounded shares keep their order: the sort is stable. */
  lemma {:induction false} SortStable(xs: seq<Stats>, k: int)
    ensures Filter(SortByPersentase(xs), WithPersentase(k)) == Filter(xs, WithPersentase(k))
  {
    var p := WithPersentase(k);
    if xs != [] {
      SortStable(xs[1..], k);
      InsertStable(xs[0], SortByPersentase(xs[1..]), k);
      FilterCons(xs[0], SortByPersentase(xs[1..]), p);
      FilterCons(xs[0], xs[1..], p);
      assert xs == [xs[0]] + xs[1..];
    }
  }

  /** The ranking lists exactly the workers' figures with positive planned hours. */
  lemma RankingsSpec(pekerjaData: seq<PekerjaInfo>, rencanaData: Option<seq<RencanaRow>>, aktualData: Option<seq<AktualRow>>)
    ensures forall s :: s in Rankings(pekerjaData, rencanaData, aktualData) <==>
      s in AllStats(pekerjaData, rencanaData, aktualData) && s.totalRencana > 0.0
  {
    var all := AllStats(pekerjaData, rencanaData, aktualData);
    var r := Rankings(pekerjaData, rencanaData, aktualData);
    forall s ensures s in r <==> s in all && s.totalRencana > 0.0 {
      assert s in r <==> s in multiset(r);
      FilterMembership(all, HasRencana, s);
    }
  }

  /**
   * `fetchRanking` once the queries have returned: when the worker query
   * gives `null` it stops and the rankings shown stay as they were;
   * otherwise they become the workers with planned hours, best first.
   */
  function FetchRanking(
    previous: seq<Stats>, pekerjaData: Option<seq<PekerjaInfo>>,
    rencanaData: Option<seq<RencanaRow>>, aktualData: Option<seq<AktualRow>>): (r: seq<Stats>)
    ensures pekerjaData.None? ==> r == previous
    ensures pekerjaData.Some? ==> r == Rankings(pekerjaData.value, rencanaData, aktualData)
    ensures pekerjaData.Some? ==> SortedDesc(r)
    ensures pekerjaData.Some? ==> forall s :: s in r <==>
      s in AllStats(pekerjaData.value, rencanaData, aktualData) && s.totalRencana > 0.0
  {
    match pekerjaData
    case None => previous
    case Some(ps) =>
      RankingsSpec(ps, rencanaData, aktualData);
      Rankings(ps, rencanaData, aktualData)
  }

  /** A listed worker is ranked exactly when their planned hours are positive. */
  lemma RankedWorkers(pekerjaData: seq<PekerjaInfo>, rencanaData: Option<seq<RencanaRow>>, aktualData: Option<seq<AktualRow>>, i: nat)
    requires i < |pekerjaData|
    ensures PekerjaStats(pekerjaData[i], rencanaData, aktualData) in Rankings(pekerjaData, rencanaData, aktualData)
        <==> SumRencana(RencanaOf(rencanaData, pekerjaData[i].id)) > 0.0
  {
    var all := AllStats(pekerjaData, rencanaData, aktualData);
    RankingsSpec(pekerjaData, rencanaData, aktualData);
    assert all[i] == PekerjaStats(pekerjaData[i], rencanaData, aktualData);
  }

  /* ----- Category split ----- */

  function IsOptimal(s: Stats): bool
  {
    s.kategori == Optimal
  }

  function IsBaik(s: Stats): bool
  {
    s.kategori == Baik
  }

  function IsKurang(s: Stats): bool
  {
    s.kategori == Kurang
  }

  /** The three category lists share the ranking out: together they hold every entry exactly once. */
  lemma CategorySplit(rankings: seq<Stats>)
    ensures |Filter(rankings, IsOptimal)| + |Filter(rankings, IsBaik)| + |Filter(rankings, IsKurang)| == |rankings|
    ensures multiset(Filter(rankings, IsOptimal)) + multiset(Filter(rankings, IsBaik)) + multiset(Filter(rankings, IsKurang))
         == multiset(rankings)
  {
    FilterMultiset(rankings, IsOptimal);
    FilterMultiset(rankings, IsBaik);
    FilterMultiset(rankings, IsKurang);
    var m := multiset(Filter(rankings, IsOptimal)) + multiset(Filter(rankings, IsBaik)) + multiset(Filter(rankings, IsKurang));
    forall s ensures m[s] == multiset(rankings)[s] {
    }
    assert m == multiset(rankings);
    assert |m| == |multiset(rankings)|;
  }
}
