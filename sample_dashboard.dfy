/**
 * What the dashboard shows right after the setup script has run on a fresh
 * database.
 */
module SampleDashboard {
  import opened Schema
  import opened Relational
  import opened DatabaseSetup
  import opened SampleProperties
  import opened Dashboard

  /** The scan loop hands out a fresh key to every scan. */
  lemma GeneratedScanKeysUnique(first: nat, today: int, ds: seq<ScanDraw>)
    ensures UniqueScanKeys(GeneratedScans(first, today, ds))
  {
    var rows := GeneratedScans(first, today, ds);
    forall i, j | 0 <= i < j < |rows|
      ensures rows[i].scanId != rows[j].scanId
    {
      ScansUpToAt(first, today, ds, |ds|, i);
      ScansUpToAt(first, today, ds, |ds|, j);
    }
  }

  /** Every defect of a fresh run joins its scan. */
  lemma SampleDefectsAllJoin(today: int, now: int, d: SampleDraws)
    requires DrawsAgree(d)
    ensures var t := SampleData(today, now, d);
      CountIn(ScanIdColumn(t.defects), ScanKeys(t.scans)) == |t.defects|
  {
    var t := SampleData(today, now, d);
    var col := ScanIdColumn(t.defects);
    forall k | 0 <= k < |col|
      ensures col[k] in ScanKeys(t.scans)
    {
      SampleDefectsReferToScans(today, now, d, k);
      ScansUpToAt(1, today, d.scans, |d.scans|, col[k] - 1);
      assert t.scans[col[k] - 1].scanId == col[k];
    }
    CountInAll(col, ScanKeys(t.scans));
  }

  /**
   * On a fresh run the per-location defect counts add up to the number of
   * defects: the inner join loses none of them.
   */
  lemma SampleLocationStatsCoverAllDefects(today: int, now: int, d: SampleDraws)
    requires DrawsAgree(d)
    ensures SumDefectCounts(GetLocationStats(SampleData(today, now, d))) == |SampleData(today, now, d).defects|
  {
    GeneratedScanKeysUnique(1, today, d.scans);
    LocationCountsCoverJoinedDefects(SampleData(today, now, d));
    SampleDefectsAllJoin(today, now, d);
  }

  /**
   * On a fresh run the dashboard reports 15 scans, between 75 and 225
   * defects, and at most 30 pending repairs.
   */
  lemma SampleDbStats(today: int, now: int, d: SampleDraws)
    requires WellDrawn(d)
    ensures var s := GetDbStats(SampleData(today, now, d));
      s.totalScans == 15 && 75 <= s.totalDefects <= 225 && s.pendingRepairs <= 30
  {
    SampleDataCounts(today, now, d);
  }

  // ---------------------------------------------------------------------------
  // Defects per scan

  /** The scan_id column of rows one after the other counts each key in both. */
  lemma ScanIdCountAppend(a: seq<DefectRow>, b: seq<DefectRow>, x: nat)
    ensures multiset(ScanIdColumn(a + b))[x] == multiset(ScanIdColumn(a))[x] + multiset(ScanIdColumn(b))[x]
  {
    assert forall i :: 0 <= i < |a| + |b| ==> (a + b)[i] == if i < |a| then a[i] else b[i - |a|];
    assert ScanIdColumn(a + b) == ScanIdColumn(a) + ScanIdColumn(b);
  }

  /** Every row of one scan's batch carries that scan's key, and no other key occurs. */
  lemma {:induction false} BatchScanIdCount(first: nat, scanId: nat, ds: seq<DefectDraw>, n: nat, x: nat)
    requires n <= |ds|
    ensures multiset(ScanIdColumn(BatchUpTo(first, scanId, ds, n)))[x] == if x == scanId then n else 0
    decreases n
  {
    if n > 0 {
      BatchScanIdCount(first, scanId, ds, n - 1, x);
      ScanIdCountAppend(BatchUpTo(first, scanId, ds, n - 1), [DefectRowFor(first + n - 1, scanId, ds[n - 1])], x);
    }
  }

  /** Scan keys handed to the defect loop without repetition. */
  predicate DistinctIds(ids: seq<nat>) {
    forall i, j :: 0 <= i < j < |ids| ==> ids[i] != ids[j]
  }

  /** One more scan's batch adds its defects to that scan's key and to no other. */
  lemma DefectsStep(first: nat, scanIds: seq<nat>, groups: seq<seq<DefectDraw>>, n: nat, x: nat)
    requires |scanIds| == |groups| && 0 < n <= |groups|
    ensures multiset(ScanIdColumn(DefectsUpTo(first, scanIds, groups, n)))[x]
         == multiset(ScanIdColumn(DefectsUpTo(first, scanIds, groups, n - 1)))[x]
            + (if x == scanIds[n - 1] then |groups[n - 1]| else 0)
  {
    var before := DefectsDrawn(groups, n - 1);
    var batch := DefectBatch(first + before, scanIds[n - 1], groups[n - 1]);
    BatchScanIdCount(first + before, scanIds[n - 1], groups[n - 1], |groups[n - 1]|, x);
    ScanIdCountAppend(DefectsUpTo(first, scanIds, groups, n - 1), batch, x);
  }

  /** A key that none of the first `n` scans carries names none of their defects. */
  lemma {:induction false} DefectsOfNoScan(first: nat, scanIds: seq<nat>, groups: seq<seq<DefectDraw>>, n: nat, x: nat)
    requires |scanIds| == |groups| && n <= |groups|
    requires forall s :: 0 <= s < n ==> scanIds[s] != x
    ensures multiset(ScanIdColumn(DefectsUpTo(first, scanIds, groups, n)))[x] == 0
    decreases n
  {
    if n > 0 {
      DefectsOfNoScan(first, scanIds, groups, n - 1, x);
      DefectsStep(first, scanIds, groups, n, x);
    }
  }

  /**
   * With distinct scan keys, the defect loop gives the `s`-th scan exactly
   * as many defects as were drawn for it.
   */
  lemma {:induction false} DefectsOfScan(first: nat, scanIds: seq<nat>, groups: seq<seq<DefectDraw>>, n: nat, s: nat)
    requires |scanIds| == |groups| && n <= |groups| && DistinctIds(scanIds) && s < n
    ensures multiset(ScanIdColumn(DefectsUpTo(first, scanIds, groups, n)))[scanIds[s]] == |groups[s]|
    decreases n
  {
    var x := scanIds[s];
    if s == n - 1 {
      DefectsOfNoScan(first, scanIds, groups, n - 1, x);
    } else {
      DefectsOfScan(first, scanIds, groups, n - 1, s);
    }
    DefectsStep(first, scanIds, groups, n, x);
  }

  /** The keys of the scan loop are distinct. */
  lemma KeysDistinct(first: nat, count: nat)
    ensures DistinctIds(Keys(first, count))
  {
    forall i, j | 0 <= i < j < count ensures Keys(first, count)[i] != Keys(first, count)[j] {
      KeysAt(first, count, i);
      KeysAt(first, count, j);
    }
  }

  /** Scan `x` of the loop, counted from 1, has as many defects as were drawn for it; any other key has none. */
  lemma DefectsPerScanKey(scanCount: nat, groups: seq<seq<DefectDraw>>, x: nat)
    requires |groups| == scanCount
    ensures var count := multiset(ScanIdColumn(DefectsUpTo(1, Keys(1, scanCount), groups, scanCount)))[x];
      && (1 <= x <= scanCount ==> count == |groups[x - 1]|)
      && (!(1 <= x <= scanCount) ==> count == 0)
  {
    var scanIds := Keys(1, scanCount);
    if 1 <= x <= scanCount {
      KeysDistinct(1, scanCount);
      KeysAt(1, scanCount, x - 1);
      DefectsOfScan(1, scanIds, groups, scanCount, x - 1);
    } else {
      forall s | 0 <= s < scanCount ensures scanIds[s] != x {
        KeysAt(1, scanCount, s);
      }
      DefectsOfNoScan(1, scanIds, groups, scanCount, x);
    }
  }

  /**
   * On a fresh run scan `x` has between 5 and 15 defects, as
   * `randint(5, 15)` draws, and a key no scan carries has none.
   */
  lemma SampleDefectsPerScan(today: int, now: int, d: SampleDraws, x: nat)
    requires DrawsAgree(d)
    ensures var count := multiset(ScanIdColumn(SampleData(today, now, d).defects))[x];
      && (1 <= x <= |d.scans| ==> MinDefectsPerScan <= count <= MaxDefectsPerScan)
      && (!(1 <= x <= |d.scans|) ==> count == 0)
  {
    assert SampleData(today, now, d).defects == DefectsUpTo(1, Keys(1, |d.scans|), d.defects, |d.scans|);
    DefectsPerScanKey(|d.scans|, d.defects, x);
    if 1 <= x <= |d.scans| {
      assert DefectGroupDrawn(d.defects[x - 1]);
    }
  }
}
