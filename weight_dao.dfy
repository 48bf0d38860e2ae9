/**
 * The `weight_logs` table behind WeightDao, held in memory: a plain insert
 * and three queries ordered by date, newest first.
 */
module WeightTables {
  import opened Wrappers
  import opened Calendar
  import opened Seqs
  import opened Models

  /** An entry's date as a number that orders entries newest first. */
  function NewestKey(e: WeightEntity): int {
    -Timestamp(e.date)
  }

  /** `SELECT * FROM weight_logs ORDER BY date DESC`. */
  function AllWeights(rows: seq<WeightEntity>): seq<WeightEntity> {
    SortBy(rows, NewestKey)
  }

  /** A list whose dates never increase. */
  predicate NewestFirst(r: seq<WeightEntity>) {
    forall i, j :: 0 <= i < j < |r| ==> !IsBefore(r[i].date, r[j].date)
  }

  lemma SortedNewestFirst(r: seq<WeightEntity>)
    requires SortedBy(r, NewestKey)
    ensures NewestFirst(r)
  {
    forall i, j | 0 <= i < j < |r| ensures !IsBefore(r[i].date, r[j].date) {
      TimestampOrder(r[i].date, r[j].date);
    }
  }

  /** `getAllWeights` lists every entry once (as a multiset), newest first. */
  lemma AllWeightsListing(rows: seq<WeightEntity>)
    ensures multiset(AllWeights(rows)) == multiset(rows)
    ensures NewestFirst(AllWeights(rows))
  {
    SortedNewestFirst(AllWeights(rows));
  }

  /**
   * On a non-empty table the first entry of `getAllWeights` has the latest
   * date and the last entry the earliest, which is what ProgressViewModel
   * relies on for the current and the starting weight.
   */
  lemma NewestAndOldest(rows: seq<WeightEntity>, e: WeightEntity)
    requires |rows| > 0 && e in rows
    ensures AllWeights(rows)[0] in rows && AllWeights(rows)[|rows| - 1] in rows
    ensures !IsBefore(AllWeights(rows)[0].date, e.date)
    ensures !IsBefore(e.date, AllWeights(rows)[|rows| - 1].date)
  {
    var r := AllWeights(rows);
    AllWeightsListing(rows);
    assert r[0] in multiset(rows) && r[|r| - 1] in multiset(rows);
    assert e in multiset(r);
    var k :| 0 <= k < |r| && r[k] == e;
    if k > 0 {
      assert !IsBefore(r[0].date, r[k].date);
    }
    if k < |r| - 1 {
      assert !IsBefore(r[k].date, r[|r| - 1].date);
    }
  }

  /** `SELECT * FROM weight_logs ORDER BY date DESC LIMIT 1`. */
  function LatestWeight(rows: seq<WeightEntity>): Option<WeightEntity> {
    if rows == [] then None else Some(AllWeights(rows)[0])
  }

  /** `getLatestWeight` is null iff the table is empty, and otherwise an entry with the latest date. */
  lemma LatestWeightIsNewest(rows: seq<WeightEntity>)
    ensures LatestWeight(rows).None? <==> rows == []
    ensures LatestWeight(rows).Some? ==>
      LatestWeight(rows).value in rows
      && forall i :: 0 <= i < |rows| ==> !IsBefore(LatestWeight(rows).value.date, rows[i].date)
  {
    if rows != [] {
      forall i | 0 <= i < |rows| ensures !IsBefore(LatestWeight(rows).value.date, rows[i].date) {
        NewestAndOldest(rows, rows[i]);
      }
      NewestAndOldest(rows, rows[0]);
    }
  }

  /** `date >= :startDate AND date <= :endDate`. */
  function InRange(start: DateTime, end: DateTime): WeightEntity -> bool {
    (e: WeightEntity) => !IsBefore(e.date, start) && !IsBefore(end, e.date)
  }

  /** `SELECT * FROM weight_logs WHERE date >= :startDate AND date <= :endDate ORDER BY date DESC`. */
  function WeightsInRange(rows: seq<WeightEntity>, start: DateTime, end: DateTime): seq<WeightEntity> {
    SortBy(Filter(rows, InRange(start, end)), NewestKey)
  }

  /** `getWeightsInRange` lists exactly the entries dated from `start` to `end`, both included, newest first. */
  lemma RangeListing(rows: seq<WeightEntity>, start: DateTime, end: DateTime, e: WeightEntity)
    ensures e in WeightsInRange(rows, start, end)
        <==> e in rows && Timestamp(start) <= Timestamp(e.date) <= Timestamp(end)
    ensures NewestFirst(WeightsInRange(rows, start, end))
  {
    var f := Filter(rows, InRange(start, end));
    SortByIn(f, NewestKey, e);
    FilterIn(rows, InRange(start, end), e);
    TimestampOrder(e.date, start);
    TimestampOrder(end, e.date);
    SortedNewestFirst(WeightsInRange(rows, start, end));
  }

  /** A plain insert adds exactly the new entry to every listing. */
  lemma InsertWeightListing(rows: seq<WeightEntity>, w: WeightEntity)
    ensures multiset(AllWeights(rows + [w])) == multiset(AllWeights(rows)) + multiset{w}
  {
    AllWeightsListing(rows);
    AllWeightsListing(rows + [w]);
  }

  class WeightDao {
    /** The `weight_logs` table, in insertion order. */
    var rows: seq<WeightEntity>

    /** An empty table. */
    constructor()
      ensures rows == []
    {
      rows := [];
    }

    /** `@Insert` without a conflict strategy: the row gets a fresh key, so it is always added. */
    method InsertWeight(weight: WeightEntity)
      modifies this
      ensures rows == old(rows) + [weight]
    {
      rows := rows + [weight];
    }

    function GetAllWeights(): seq<WeightEntity>
      reads this
    {
      AllWeights(rows)
    }

    function GetLatestWeight(): Option<WeightEntity>
      reads this
    {
      LatestWeight(rows)
    }

    function GetWeightsInRange(startDate: DateTime, endDate: DateTime): seq<WeightEntity>
      reads this
    {
      WeightsInRange(rows, startDate, endDate)
    }
  }
}
