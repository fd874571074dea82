/**
 * The three summary reads behind the dashboard, as functions of the contents
 * of the four tables: the headline counts, the defect distribution by type
 * and severity, and the per-location rollup over defects joined to their
 * scans, ordered by defect count descending.
 */
module Dashboard {
  import opened Schema
  import opened Relational

  /** The severity counted as critical. */
  const Critical: string := "critical"
  /** The statuses of a repair that has not been carried out yet. */
  const Planned: string := "planned"
  const InProgress: string := "in_progress"

  // ---------------------------------------------------------------------------
  // Columns

  function SeverityColumn(defects: seq<DefectRow>): seq<string> {
    seq(|defects|, i requires 0 <= i < |defects| => defects[i].severity)
  }

  function StatusColumn(repairs: seq<RepairRow>): seq<string> {
    seq(|repairs|, i requires 0 <= i < |repairs| => repairs[i].status)
  }

  /** The (defect_type, severity) pair of every defect. */
  function TypeSeverityColumn(defects: seq<DefectRow>): seq<(string, string)> {
    seq(|defects|, i requires 0 <= i < |defects| => (defects[i].defectType, defects[i].severity))
  }

  // ---------------------------------------------------------------------------
  // get_db_stats

  /** The four headline numbers. */
  datatype DbStats = DbStats(totalScans: nat, totalDefects: nat, criticalDefects: nat, pendingRepairs: nat)

  /**
   * COUNT(*) of scans, COUNT(*) of defects, COUNT(*) of defects WHERE
   * severity = 'critical', and COUNT(*) of repair_history WHERE status IN
   * ('planned', 'in_progress').
   */
  function GetDbStats(t: Tables): (s: DbStats)
    ensures s.totalScans == |t.scans| && s.totalDefects == |t.defects|
    ensures s.criticalDefects <= s.totalDefects && s.pendingRepairs <= |t.repairs|
  {
    DbStats(|t.scans|, |t.defects|,
            CountIn(SeverityColumn(t.defects), {Critical}),
            CountIn(StatusColumn(t.repairs), {Planned, InProgress}))
  }

  /**
   * The critical count is the number of defects whose severity is
   * 'critical', and the pending count the number of repairs planned plus the
   * number in progress.
   */
  lemma DbStatsCounts(t: Tables)
    ensures GetDbStats(t).criticalDefects == multiset(SeverityColumn(t.defects))[Critical]
    ensures GetDbStats(t).pendingRepairs
         == multiset(StatusColumn(t.repairs))[Planned] + multiset(StatusColumn(t.repairs))[InProgress]
  {
    CountInSingle(SeverityColumn(t.defects), Critical);
    CountInPair(StatusColumn(t.repairs), Planned, InProgress);
  }

  // ---------------------------------------------------------------------------
  // get_defect_distribution

  /** COUNT(*) of defects GROUP BY defect_type, severity. */
  function GetDefectDistribution(t: Tables): seq<Group<(string, string)>> {
    GroupCounts(TypeSeverityColumn(t.defects))
  }

  /**
   * One row per (type, severity) pair that occurs among the defects and no
   * other; each row counts the defects with its pair, which is at least one;
   * the counts add up to the number of defects.
   */
  lemma DefectDistributionSpec(t: Tables)
    ensures var rows := GetDefectDistribution(t);
      && DistinctKeys(rows)
      && (forall i :: 0 <= i < |rows| ==> rows[i].count == multiset(TypeSeverityColumn(t.defects))[rows[i].key] >= 1)
      && (forall p :: p in TypeSeverityColumn(t.defects) <==> HasKey(rows, p))
      && SumCounts(rows) == |t.defects|
  {
    GroupCountsSpec(TypeSeverityColumn(t.defects));
  }

  // ---------------------------------------------------------------------------
  // get_location_stats

  /** The (location, severity) pairs the defect `d` contributes to the inner join. */
  function ScanMatches(d: DefectRow, scans: seq<ScanRow>): (joined: seq<(string, string)>)
    ensures |joined| <= |scans|
    decreases |scans|
  {
    if scans == [] then []
    else
      var s := scans[|scans| - 1];
      ScanMatches(d, scans[..|scans| - 1]) + (if s.scanId == d.scanId then [(s.location, d.severity)] else [])
  }

  /** defects d JOIN scans s ON d.scan_id = s.scan_id, as (s.location, d.severity) pairs. */
  function JoinDefectsScans(defects: seq<DefectRow>, scans: seq<ScanRow>): seq<(string, string)>
    decreases |defects|
  {
    if defects == [] then []
    else JoinDefectsScans(defects[..|defects| - 1], scans) + ScanMatches(defects[|defects| - 1], scans)
  }

  /** The location of every joined pair. */
  function LocationColumn(joined: seq<(string, string)>): seq<string> {
    seq(|joined|, i requires 0 <= i < |joined| => joined[i].0)
  }

  /** One output row: location, defect_count and critical_count (avg_depth is not modelled). */
  datatype LocationStat = LocationStat(location: string, defectCount: nat, criticalCount: nat)

  /** SUM(CASE WHEN severity = 'critical' THEN 1 ELSE 0 END) for each location group. */
  function Rollup(groups: seq<Group<string>>, joined: seq<(string, string)>): seq<LocationStat> {
    seq(|groups|, i requires 0 <= i < |groups| =>
      LocationStat(groups[i].key, groups[i].count, multiset(joined)[(groups[i].key, Critical)]))
  }

  /** Rows ordered by defect_count, largest first. */
  predicate CountDescending(rows: seq<LocationStat>) {
    forall i, j :: 0 <= i < j < |rows| ==> rows[i].defectCount >= rows[j].defectCount
  }

  /** Put `r` in front of the first row with a smaller count. */
  function InsertByCount(r: LocationStat, rows: seq<LocationStat>): seq<LocationStat>
    decreases |rows|
  {
    if rows == [] || rows[0].defectCount <= r.defectCount then [r] + rows
    else [rows[0]] + InsertByCount(r, rows[1..])
  }

  /** ORDER BY defect_count DESC. */
  function SortByCount(rows: seq<LocationStat>): seq<LocationStat>
    decreases |rows|
  {
    if rows == [] then [] else InsertByCount(rows[0], SortByCount(rows[1..]))
  }

  function SumDefectCounts(rows: seq<LocationStat>): nat
    decreases |rows|
  {
    if rows == [] then 0 else rows[0].defectCount + SumDefectCounts(rows[1..])
  }

  /** The per-location rollup of the defects that join a scan, largest defect count first. */
  function GetLocationStats(t: Tables): seq<LocationStat> {
    var joined := JoinDefectsScans(t.defects, t.scans);
    SortByCount(Rollup(GroupCounts(LocationColumn(joined)), joined))
  }

  // Ordering

  /** Inserting a row keeps the other rows and adds its count to the total. */
  lemma {:induction false} InsertByCountKeeps(r: LocationStat, rows: seq<LocationStat>)
    ensures multiset(InsertByCount(r, rows)) == multiset(rows) + multiset{r}
    ensures SumDefectCounts(InsertByCount(r, rows)) == r.defectCount + SumDefectCounts(rows)
    decreases |rows|
  {
    if rows != [] && rows[0].defectCount > r.defectCount {
      InsertByCountKeeps(r, rows[1..]);
      assert rows == [rows[0]] + rows[1..];
    }
  }

  /** No row counts more than `b`. */
  predicate CountsAtMost(rows: seq<LocationStat>, b: nat) {
    forall i :: 0 <= i < |rows| ==> rows[i].defectCount <= b
  }

  /** A row in front of rows it counts at least as much as keeps the order. */
  lemma ConsDescending(x: LocationStat, rows: seq<LocationStat>)
    requires CountDescending(rows) && CountsAtMost(rows, x.defectCount)
    ensures CountDescending([x] + rows)
  {
    var out := [x] + rows;
    forall i, j | 0 <= i < j < |out|
      ensures out[i].defectCount >= out[j].defectCount
    {
      assert out[j] == rows[j - 1];
      if i > 0 {
        assert out[i] == rows[i - 1];
      }
    }
  }

  /** Inserting a row under a bound keeps every count under it. */
  lemma {:induction false} InsertByCountBounded(r: LocationStat, rows: seq<LocationStat>, b: nat)
    requires CountsAtMost(rows, b) && r.defectCount <= b
    ensures CountsAtMost(InsertByCount(r, rows), b)
    decreases |rows|
  {
    var out := InsertByCount(r, rows);
    if rows != [] && rows[0].defectCount > r.defectCount {
      InsertByCountBounded(r, rows[1..], b);
      assert out == [rows[0]] + InsertByCount(r, rows[1..]);
      forall i | 0 < i < |out|
        ensures out[i].defectCount <= b
      {
        assert out[i] == InsertByCount(r, rows[1..])[i - 1];
      }
    } else {
      forall i | 0 < i < |out|
        ensures out[i].defectCount <= b
      {
        assert out[i] == rows[i - 1];
      }
    }
  }

  /** Inserting a row into rows ordered by count keeps them ordered. */
  lemma {:induction false} InsertByCountSorted(r: LocationStat, rows: seq<LocationStat>)
    requires CountDescending(rows)
    ensures CountDescending(InsertByCount(r, rows))
    decreases |rows|
  {
    if rows == [] || rows[0].defectCount <= r.defectCount {
      ConsDescending(r, rows);
    } else {
      var tail := rows[1..];
      InsertByCountSorted(r, tail);
      InsertByCountBounded(r, tail, rows[0].defectCount);
      ConsDescending(rows[0], InsertByCount(r, tail));
    }
  }

  /** Sorting orders the rows by count. */
  lemma {:induction false} SortByCountSorted(rows: seq<LocationStat>)
    ensures CountDescending(SortByCount(rows))
    decreases |rows|
  {
    if rows != [] {
      SortByCountSorted(rows[1..]);
      InsertByCountSorted(rows[0], SortByCount(rows[1..]));
    }
  }

  /** Sorting keeps every row, and so the total. */
  lemma {:induction false} SortByCountKeeps(rows: seq<LocationStat>)
    ensures multiset(SortByCount(rows)) == multiset(rows)
    ensures SumDefectCounts(SortByCount(rows)) == SumDefectCounts(rows)
    decreases |rows|
  {
    if rows != [] {
      SortByCountKeeps(rows[1..]);
      InsertByCountKeeps(rows[0], SortByCount(rows[1..]));
      assert rows == [rows[0]] + rows[1..];
    }
  }

  /** Sorting orders the rows by count and keeps every row, and so the total. */
  lemma SortByCountSpec(rows: seq<LocationStat>)
    ensures CountDescending(SortByCount(rows))
    ensures multiset(SortByCount(rows)) == multiset(rows)
    ensures SumDefectCounts(SortByCount(rows)) == SumDefectCounts(rows)
  {
    SortByCountSorted(rows);
    SortByCountKeeps(rows);
  }

  /** No two rows are for the same location. */
  predicate DistinctLocations(rows: seq<LocationStat>) {
    forall i, j :: 0 <= i < j < |rows| ==> rows[i].location != rows[j].location
  }

  /** Inserting a row for a new location keeps the locations distinct. */
  lemma {:induction false} InsertByCountDistinct(r: LocationStat, rows: seq<LocationStat>)
    requires DistinctLocations(rows) && forall k :: 0 <= k < |rows| ==> rows[k].location != r.location
    ensures DistinctLocations(InsertByCount(r, rows))
    decreases |rows|
  {
    var out := InsertByCount(r, rows);
    if rows == [] || rows[0].defectCount <= r.defectCount {
      forall i, j | 0 <= i < j < |out| ensures out[i].location != out[j].location {
        assert out[j] == rows[j - 1];
        if i > 0 {
          assert out[i] == rows[i - 1];
        }
      }
    } else {
      var tail := rows[1..];
      var inserted := InsertByCount(r, tail);
      InsertByCountDistinct(r, tail);
      InsertByCountKeeps(r, tail);
      assert out == [rows[0]] + inserted;
      forall i, j | 0 <= i < j < |out| ensures out[i].location != out[j].location {
        assert out[j] == inserted[j - 1];
        if i == 0 {
          assert inserted[j - 1] in multiset(inserted);
          if inserted[j - 1] != r {
            var k :| 0 <= k < |tail| && tail[k] == inserted[j - 1];
            assert rows[k + 1] == tail[k];
          }
        } else {
          assert out[i] == inserted[i - 1];
        }
      }
    }
  }

  /** Sorting keeps the locations distinct. */
  lemma {:induction false} SortByCountDistinct(rows: seq<LocationStat>)
    requires DistinctLocations(rows)
    ensures DistinctLocations(SortByCount(rows))
    decreases |rows|
  {
    if rows != [] {
      var tail := rows[1..];
      var sorted := SortByCount(tail);
      SortByCountDistinct(tail);
      SortByCountKeeps(tail);
      forall k | 0 <= k < |sorted| ensures sorted[k].location != rows[0].location {
        assert sorted[k] in multiset(tail);
        var m :| 0 <= m < |tail| && tail[m] == sorted[k];
        assert rows[m + 1] == tail[m];
      }
      InsertByCountDistinct(rows[0], sorted);
    }
  }

  /** GROUP BY s.location: one row per location. */
  lemma LocationStatsDistinct(t: Tables)
    ensures DistinctLocations(GetLocationStats(t))
  {
    var joined := JoinDefectsScans(t.defects, t.scans);
    var groups := GroupCounts(LocationColumn(joined));
    GroupCountsSpec(LocationColumn(joined));
    SortByCountDistinct(Rollup(groups, joined));
  }

  // Counting

  /** A location has no more critical pairs in the join than pairs altogether. */
  lemma {:induction false} CriticalWithinLocation(joined: seq<(string, string)>, loc: string)
    ensures multiset(joined)[(loc, Critical)] <= multiset(LocationColumn(joined))[loc]
    decreases |joined|
  {
    if joined != [] {
      var init := joined[..|joined| - 1];
      assert joined == init + [joined[|joined| - 1]];
      assert LocationColumn(joined) == LocationColumn(init) + [joined[|joined| - 1].0];
      CriticalWithinLocation(init, loc);
    }
  }

  lemma {:induction false} RollupSum(groups: seq<Group<string>>, joined: seq<(string, string)>)
    ensures SumDefectCounts(Rollup(groups, joined)) == SumCounts(groups)
    decreases |groups|
  {
    if groups != [] {
      assert Rollup(groups, joined)[1..] == Rollup(groups[1..], joined);
      RollupSum(groups[1..], joined);
    }
  }

  /** Each row of the rollup counts the joined pairs of its location, at least one, and its critical ones. */
  lemma LocationStatsRows(t: Tables, r: LocationStat)
    requires r in GetLocationStats(t)
    ensures var joined := JoinDefectsScans(t.defects, t.scans);
      && r.defectCount == multiset(LocationColumn(joined))[r.location] >= 1
      && r.criticalCount == multiset(joined)[(r.location, Critical)]
      && r.criticalCount <= r.defectCount
  {
    var joined := JoinDefectsScans(t.defects, t.scans);
    var locs := LocationColumn(joined);
    var groups := GroupCounts(locs);
    var unsorted := Rollup(groups, joined);
    SortByCountSpec(unsorted);
    GroupCountsSpec(locs);
    assert r in multiset(unsorted);
    var i :| 0 <= i < |unsorted| && unsorted[i] == r;
    CriticalWithinLocation(joined, r.location);
  }

  /** Every location that occurs in the join has a row in the rollup. */
  lemma LocationStatsCover(t: Tables, loc: string)
    requires loc in LocationColumn(JoinDefectsScans(t.defects, t.scans))
    ensures exists r :: r in GetLocationStats(t) && r.location == loc
  {
    var joined := JoinDefectsScans(t.defects, t.scans);
    var locs := LocationColumn(joined);
    var groups := GroupCounts(locs);
    var unsorted := Rollup(groups, joined);
    SortByCountSpec(unsorted);
    GroupCountsSpec(locs);
    var i :| 0 <= i < |groups| && groups[i].key == loc;
    assert unsorted[i] in multiset(GetLocationStats(t));
  }

  /**
   * Every location row stands for one location of the join and counts its
   * joined defects, at least one, of which critical_count are critical; every
   * location of the join has a row; the rows come largest count first, and
   * their counts add up to the size of the join.
   */
  lemma LocationStatsSpec(t: Tables)
    ensures var joined := JoinDefectsScans(t.defects, t.scans);
      var rows := GetLocationStats(t);
      && CountDescending(rows)
      && (forall r :: r in rows ==>
            && r.defectCount == multiset(LocationColumn(joined))[r.location] >= 1
            && r.criticalCount == multiset(joined)[(r.location, Critical)]
            && r.criticalCount <= r.defectCount)
      && (forall loc :: loc in LocationColumn(joined) ==> exists r :: r in rows && r.location == loc)
      && DistinctLocations(rows)
      && SumDefectCounts(rows) == |joined|
  {
    LocationStatsDistinct(t);
    var joined := JoinDefectsScans(t.defects, t.scans);
    var locs := LocationColumn(joined);
    var groups := GroupCounts(locs);
    GroupCountsSpec(locs);
    SortByCountSpec(Rollup(groups, joined));
    RollupSum(groups, joined);
    forall r | r in GetLocationStats(t)
      ensures && r.defectCount == multiset(locs)[r.location] >= 1
              && r.criticalCount == multiset(joined)[(r.location, Critical)]
              && r.criticalCount <= r.defectCount
    {
      LocationStatsRows(t, r);
    }
    forall loc | loc in locs
      ensures exists r :: r in GetLocationStats(t) && r.location == loc
    {
      LocationStatsCover(t, loc);
    }
  }

  // The inner join

  /** The scan keys present in the scans table. */
  function ScanKeys(scans: seq<ScanRow>): (keys: set<nat>)
    ensures forall k :: k in keys <==> exists s :: s in scans && s.scanId == k
    decreases |scans|
  {
    if scans == [] then {}
    else
      var init := scans[..|scans| - 1];
      assert forall s :: s in scans <==> s in init || s == scans[|scans| - 1];
      ScanKeys(init) + {scans[|scans| - 1].scanId}
  }

  function ScanIdColumn(defects: seq<DefectRow>): seq<nat> {
    seq(|defects|, i requires 0 <= i < |defects| => defects[i].scanId)
  }

  /** Scan keys are unique, as AUTOINCREMENT keys are. */
  predicate UniqueScanKeys(scans: seq<ScanRow>) {
    forall i, j :: 0 <= i < j < |scans| ==> scans[i].scanId != scans[j].scanId
  }

  /** scan_id is INTEGER PRIMARY KEY AUTOINCREMENT, so no two scans of a database share one. */
  lemma ValidScanKeysUnique(db: Store)
    requires db.Valid()
    ensures UniqueScanKeys(db.scans)
  {
  }

  /** With unique scan keys a defect joins one scan when its scan_id names one, and none otherwise. */
  lemma {:induction false} ScanMatchesSize(d: DefectRow, scans: seq<ScanRow>)
    requires UniqueScanKeys(scans)
    ensures |ScanMatches(d, scans)| == if d.scanId in ScanKeys(scans) then 1 else 0
    decreases |scans|
  {
    if scans != [] {
      var init := scans[..|scans| - 1];
      ScanMatchesSize(d, init);
    }
  }

  /** With unique scan keys the join holds one pair per defect whose scan_id names an existing scan. */
  lemma {:induction false} JoinSize(defects: seq<DefectRow>, scans: seq<ScanRow>)
    requires UniqueScanKeys(scans)
    ensures |JoinDefectsScans(defects, scans)| == CountIn(ScanIdColumn(defects), ScanKeys(scans))
    decreases |defects|
  {
    if defects != [] {
      var init := defects[..|defects| - 1];
      JoinSize(init, scans);
      ScanMatchesSize(defects[|defects| - 1], scans);
      assert ScanIdColumn(defects)[..|defects| - 1] == ScanIdColumn(init);
    }
  }

  /**
   * The rollup is empty exactly when no defect joins a scan; in particular
   * it is empty when there are no defects.
   */
  lemma LocationStatsEmpty(t: Tables)
    ensures GetLocationStats(t) == [] <==> JoinDefectsScans(t.defects, t.scans) == []
    ensures t.defects == [] ==> GetLocationStats(t) == []
  {
    LocationStatsSpec(t);
    var joined := JoinDefectsScans(t.defects, t.scans);
    if joined != [] {
      assert LocationColumn(joined)[0] == joined[0].0;
    }
  }

  /**
   * In a store whose scan keys are unique, the location counts add up to the
   * number of defects whose scan_id names an existing scan.
   */
  lemma LocationCountsCoverJoinedDefects(t: Tables)
    requires UniqueScanKeys(t.scans)
    ensures SumDefectCounts(GetLocationStats(t)) == CountIn(ScanIdColumn(t.defects), ScanKeys(t.scans))
  {
    LocationStatsSpec(t);
    JoinSize(t.defects, t.scans);
  }
}
