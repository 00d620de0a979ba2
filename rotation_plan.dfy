/**
 * The preview of a generated plan: the entries bucketed by date, the dates in
 * the order in which they first occur (the insertion order in which
 * `Object.entries` lists string keys).
 */
module RotationPlan {
  import opened Domain
  import opened Seqs
  import Holidays
  import Rotation

  function OnDate(d: Day): GeneratedSchedule -> bool
  {
    (s: GeneratedSchedule) => s.tanggal == d
  }

  /** The entries of one date, in input order. */
  function Bucket(schedules: seq<GeneratedSchedule>, d: Day): seq<GeneratedSchedule>
  {
    Filter(schedules, OnDate(d))
  }

  /** The dates of the entries, each once, in order of first occurrence. */
  function DateKeys(schedules: seq<GeneratedSchedule>): seq<Day>
  {
    if schedules == [] then []
    else
      var keys := DateKeys(schedules[..|schedules| - 1]);
      var d := schedules[|schedules| - 1].tanggal;
      if d in keys then keys else keys + [d]
  }

  /** `groupByDate`: create a bucket on a date's first entry, then push every entry into its date's bucket. */
  method GroupByDate(schedules: seq<GeneratedSchedule>) returns (keys: seq<Day>, grouped: map<Day, seq<GeneratedSchedule>>)
    ensures keys == DateKeys(schedules)
    ensures forall d :: d in grouped <==> d in keys
    ensures forall d :: d in grouped ==> grouped[d] == Bucket(schedules, d)
  {
    keys := [];
    grouped := map[];
    for k := 0 to |schedules|
      invariant keys == DateKeys(schedules[..k])
      invariant forall d :: d in grouped <==> d in keys
      invariant forall d :: d in grouped ==> grouped[d] == Bucket(schedules[..k], d)
    {
      var schedule := schedules[k];
      assert schedules[..k + 1][..k] == schedules[..k];
      if schedule.tanggal !in grouped {
        DateKeysMembers(schedules[..k], schedule.tanggal);
        FilterKeepsNone(schedules[..k], OnDate(schedule.tanggal));
        grouped := grouped[schedule.tanggal := []];
        keys := keys + [schedule.tanggal];
      }
      grouped := grouped[schedule.tanggal := grouped[schedule.tanggal] + [schedule]];
    }
    assert schedules[..|schedules|] == schedules;
  }

  /** A date is a key exactly when some entry has it. */
  lemma {:induction false} DateKeysMembers(schedules: seq<GeneratedSchedule>, d: Day)
    ensures d in DateKeys(schedules) <==> exists i :: 0 <= i < |schedules| && schedules[i].tanggal == d
  {
    if schedules != [] {
      var init := schedules[..|schedules| - 1];
      DateKeysMembers(init, d);
      if exists i :: 0 <= i < |init| && init[i].tanggal == d {
        var i :| 0 <= i < |init| && init[i].tanggal == d;
        assert schedules[i] == init[i];
      }
      if exists i :: 0 <= i < |schedules| && schedules[i].tanggal == d {
        var i :| 0 <= i < |schedules| && schedules[i].tanggal == d;
        if i < |init| {
          assert init[i] == schedules[i];
        }
      }
    }
  }

  /** Date `x` occurs in the entries before date `y` first does. */
  predicate OccursBefore(schedules: seq<GeneratedSchedule>, x: Day, y: Day)
  {
    exists a :: 0 <= a < |schedules| && schedules[a].tanggal == x &&
      forall b :: 0 <= b <= a ==> schedules[b].tanggal != y
  }

  /** Appending entries keeps an earlier first occurrence earlier. */
  lemma OccursBeforeSnoc(schedules: seq<GeneratedSchedule>, s: GeneratedSchedule, x: Day, y: Day)
    requires OccursBefore(schedules, x, y)
    ensures OccursBefore(schedules + [s], x, y)
  {
    var a :| 0 <= a < |schedules| && schedules[a].tanggal == x &&
      forall b :: 0 <= b <= a ==> schedules[b].tanggal != y;
    assert forall b :: 0 <= b <= a ==> (schedules + [s])[b] == schedules[b];
  }

  /** A date of the entries occurs before one the entries lack. */
  lemma OccursBeforeAbsent(schedules: seq<GeneratedSchedule>, x: Day, y: Day)
    requires x in DateKeys(schedules) && y !in DateKeys(schedules)
    ensures OccursBefore(schedules, x, y)
  {
    DateKeysMembers(schedules, x);
    DateKeysMembers(schedules, y);
    var a :| 0 <= a < |schedules| && schedules[a].tanggal == x;
  }

  /**
   * The keys are distinct, and a key listed before another occurs in the
   * input before the other's first entry.
   */
  lemma {:induction false} DateKeysOrder(schedules: seq<GeneratedSchedule>)
    ensures NoDuplicates(DateKeys(schedules))
    ensures forall i, j :: 0 <= i < j < |DateKeys(schedules)| ==>
      OccursBefore(schedules, DateKeys(schedules)[i], DateKeys(schedules)[j])
  {
    if schedules != [] {
      var init := schedules[..|schedules| - 1];
      var last := schedules[|schedules| - 1];
      var keys := DateKeys(init);
      var ks := DateKeys(schedules);
      assert schedules == init + [last];
      DateKeysOrder(init);
      forall i, j | 0 <= i < j < |ks| ensures OccursBefore(schedules, ks[i], ks[j]) {
        if j < |keys| {
          OccursBeforeSnoc(init, last, keys[i], keys[j]);
        } else {
          OccursBeforeAbsent(init, keys[i], last.tanggal);
          OccursBeforeSnoc(init, last, keys[i], last.tanggal);
        }
      }
    }
  }

  /** No bucket is empty. */
  lemma BucketNonEmpty(schedules: seq<GeneratedSchedule>, d: Day)
    requires d in DateKeys(schedules)
    ensures Bucket(schedules, d) != []
    ensures forall s :: s in Bucket(schedules, d) <==> s in schedules && s.tanggal == d
  {
    DateKeysMembers(schedules, d);
    var i :| 0 <= i < |schedules| && schedules[i].tanggal == d;
    FilterMembership(schedules, OnDate(d), schedules[i]);
    forall s ensures s in Bucket(schedules, d) <==> s in schedules && s.tanggal == d {
      FilterMembership(schedules, OnDate(d), s);
    }
  }

  /** The sizes of the buckets of the given keys, added up. */
  function BucketSizes(keys: seq<Day>, schedules: seq<GeneratedSchedule>): nat
  {
    if keys == [] then 0 else BucketSizes(keys[..|keys| - 1], schedules) + |Bucket(schedules, keys[|keys| - 1])|
  }

  lemma {:induction false} BucketSizesSnoc(keys: seq<Day>, schedules: seq<GeneratedSchedule>, s: GeneratedSchedule)
    requires NoDuplicates(keys)
    ensures BucketSizes(keys, schedules + [s]) == BucketSizes(keys, schedules) + if s.tanggal in keys then 1 else 0
  {
    if keys != [] {
      var init := keys[..|keys| - 1];
      var k := keys[|keys| - 1];
      BucketSizesSnoc(init, schedules, s);
      assert (schedules + [s])[..|schedules|] == schedules;
      assert s.tanggal in keys <==> s.tanggal in init || s.tanggal == k;
      assert k !in init;
    }
  }

  lemma {:induction false} BucketSizesCover(keys: seq<Day>, schedules: seq<GeneratedSchedule>)
    requires NoDuplicates(keys)
    requires forall i :: 0 <= i < |schedules| ==> schedules[i].tanggal in keys
    ensures BucketSizes(keys, schedules) == |schedules|
  {
    if schedules == [] {
      BucketSizesEmpty(keys);
    } else {
      var init := schedules[..|schedules| - 1];
      BucketSizesCover(keys, init);
      BucketSizesSnoc(keys, init, schedules[|schedules| - 1]);
      assert init + [schedules[|schedules| - 1]] == schedules;
    }
  }

  lemma {:induction false} BucketSizesEmpty(keys: seq<Day>)
    ensures BucketSizes(keys, []) == 0
  {
    if keys != [] {
      BucketSizesEmpty(keys[..|keys| - 1]);
    }
  }

  /** The buckets together hold every entry exactly once. */
  lemma BucketsCoverInput(schedules: seq<GeneratedSchedule>)
    ensures BucketSizes(DateKeys(schedules), schedules) == |schedules|
  {
    DateKeysOrder(schedules);
    forall i | 0 <= i < |schedules| ensures schedules[i].tanggal in DateKeys(schedules) {
      DateKeysMembers(schedules, schedules[i].tanggal);
    }
    BucketSizesCover(DateKeys(schedules), schedules);
  }

  /**
   * For a rotation plan, the Sunday flag the preview reads off a bucket's
   * first entry is that of every entry of the bucket, and says whether the
   * date is a Sunday.
   */
  lemma PreviewSundayFlag(startDate: Day, n: nat, js: seq<JenisOvertime>, grups: seq<seq<Pekerja>>, d: Day)
    requires |grups| == 3
    requires d in DateKeys(Rotation.RotationSchedule(startDate, n, js, grups))
    ensures var b := Bucket(Rotation.RotationSchedule(startDate, n, js, grups), d);
      b != [] && b[0].isMinggu == Holidays.IsSunday(d) &&
      forall i :: 0 <= i < |b| ==> b[i].isMinggu == b[0].isMinggu
  {
    var r := Rotation.RotationSchedule(startDate, n, js, grups);
    var b := Bucket(r, d);
    BucketNonEmpty(r, d);
    Rotation.RotationEntries(startDate, n, js, grups);
    forall i | 0 <= i < |b| ensures b[i].isMinggu == Holidays.IsSunday(d) {
      assert b[i] in b;
      var e :| 0 <= e < |r| && r[e] == b[i];
    }
  }
}
