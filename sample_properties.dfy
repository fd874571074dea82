/**
 * What the sample data of the setup script looks like: the number of rows of
 * each table, the ranges every drawn column keeps, and how the rows refer to
 * one another.
 */
module SampleProperties {
  import opened Schema
  import opened DatabaseSetup

  // ---------------------------------------------------------------------------
  // Keys

  /** The keys handed out for `count` rows are `first`, `first + 1`, ... in order. */
  lemma {:induction false} KeysAt(first: nat, count: nat, i: nat)
    requires i < count
    ensures Keys(first, count)[i] == first + i
    decreases count
  {
    if i < count - 1 {
      KeysAt(first, count - 1, i);
    }
  }

  /** A key was handed out exactly when it lies in [first, first + count). */
  lemma KeysMembers(first: nat, count: nat, x: nat)
    ensures x in Keys(first, count) <==> first <= x < first + count
  {
    if x in Keys(first, count) {
      var i :| 0 <= i < count && Keys(first, count)[i] == x;
      KeysAt(first, count, i);
    }
    if first <= x < first + count {
      KeysAt(first, count, x - first);
    }
  }

  // ---------------------------------------------------------------------------
  // Scans

  lemma {:induction false} ScansUpToAt(first: nat, today: int, ds: seq<ScanDraw>, n: nat, i: nat)
    requires n <= |ds| && i < n
    ensures ScansUpTo(first, today, ds, n)[i] == ScanRowFor(first + i, i, today, ds[i])
    decreases n
  {
    if i < n - 1 {
      ScansUpToAt(first, today, ds, n - 1, i);
    }
  }

  /**
   * Pass `i` of the scan loop inserts key `first + i`, dated 90 - 6i days
   * before today, with file number i + 1 and the drawn location, length and
   * quality; the quality is one the CHECK admits and never "poor".
   */
  lemma GeneratedScanAt(first: nat, today: int, ds: seq<ScanDraw>, i: nat)
    requires ScanDrawsOk(ds) && i < |ds|
    ensures var r := GeneratedScans(first, today, ds)[i];
      && r.scanId == first + i
      && r.scanDate == today - 90 + 6 * i
      && r.filePath == ScanFilePath(i + 1)
      && (r.location, r.roadSection) in Locations
      && 100.0 <= r.totalLengthM <= 500.0
      && r.scanQuality in QualityChoices && r.scanQuality in ScanQualities && r.scanQuality != "poor"
  {
    ScansUpToAt(first, today, ds, |ds|, i);
    ChoicesAdmitted();
  }

  /** Two passes of the scan loop never write the same file path, and later scans are later in time. */
  lemma GeneratedScansDistinct(first: nat, today: int, ds: seq<ScanDraw>, i: nat, j: nat)
    requires ScanDrawsOk(ds) && i < j < |ds|
    ensures GeneratedScans(first, today, ds)[i].filePath != GeneratedScans(first, today, ds)[j].filePath
    ensures GeneratedScans(first, today, ds)[j].scanDate - GeneratedScans(first, today, ds)[i].scanDate == 6 * (j - i)
  {
    assert ScanFilePath(i + 1) != ScanFilePath(j + 1) by {
      if ScanFilePath(i + 1) == ScanFilePath(j + 1) {
        ScanFilePathInjective(i + 1, j + 1);
      }
    }
    GeneratedScanAt(first, today, ds, i);
    GeneratedScanAt(first, today, ds, j);
  }

  // ---------------------------------------------------------------------------
  // Defects

  /** The drawn columns of a defect row, read back as a draw. */
  function DrawOf(r: DefectRow): (d: DefectDraw)
    ensures DefectRowFor(r.defectId, r.scanId, d) == r
  {
    DefectDraw(r.defectType, r.severity, r.depthCm, r.bboxX, r.bboxY, r.bboxWidth, r.bboxHeight, r.confidence)
  }

  /** A defect row whose drawn columns lie in the ranges the inner defect loop draws from. */
  predicate DefectRowDrawn(r: DefectRow) {
    DefectDrawn(DrawOf(r))
  }

  lemma {:induction false} BatchUpToAt(first: nat, scanId: nat, ds: seq<DefectDraw>, n: nat, j: nat)
    requires n <= |ds| && j < n
    ensures BatchUpTo(first, scanId, ds, n)[j] == DefectRowFor(first + j, scanId, ds[j])
    decreases n
  {
    if j < n - 1 {
      BatchUpToAt(first, scanId, ds, n - 1, j);
    }
  }

  /** Row `k` of the defect loop's output is the `j`-th defect drawn for the `s`-th scan. */
  lemma {:induction false} DefectsUpToLocate(first: nat, scanIds: seq<nat>, groups: seq<seq<DefectDraw>>, n: nat, k: nat)
    returns (s: nat, j: nat)
    requires |scanIds| == |groups| && n <= |groups| && k < DefectsDrawn(groups, n)
    ensures s < n && j < |groups[s]|
    ensures DefectsUpTo(first, scanIds, groups, n)[k] == DefectRowFor(first + k, scanIds[s], groups[s][j])
    decreases n
  {
    var before := DefectsDrawn(groups, n - 1);
    if k < before {
      s, j := DefectsUpToLocate(first, scanIds, groups, n - 1, k);
    } else {
      s, j := n - 1, k - before;
      BatchUpToAt(first + before, scanIds[s], groups[s], |groups[s]|, j);
    }
  }

  /** Row `k` of the defect loop's output: its key, its scan, and the ranges it was drawn from. */
  lemma DefectsUpToAt(first: nat, scanIds: seq<nat>, groups: seq<seq<DefectDraw>>, n: nat, k: nat)
    requires |scanIds| == |groups| && DefectDrawsOk(groups) && n <= |groups|
    requires k < DefectsDrawn(groups, n)
    ensures var r := DefectsUpTo(first, scanIds, groups, n)[k];
      r.defectId == first + k && r.scanId in scanIds && DefectRowDrawn(r)
  {
    var s, j := DefectsUpToLocate(first, scanIds, groups, n, k);
    assert DefectGroupDrawn(groups[s]);
    assert DrawOf(DefectRowFor(first + k, scanIds[s], groups[s][j])) == groups[s][j];
  }

  /**
   * Every sample defect belongs to one of the scans it was drawn for, keeps
   * the drawn ranges (its depth in the range of its type), and the defect
   * loop hands out the keys first, first + 1, ... in order.
   */
  lemma GeneratedDefectAt(first: nat, scanIds: seq<nat>, groups: seq<seq<DefectDraw>>, k: nat)
    requires |scanIds| == |groups| && DefectDrawsOk(groups)
    requires k < DefectTotal(groups)
    ensures |GeneratedDefects(first, scanIds, groups)| == DefectTotal(groups)
    ensures var r := GeneratedDefects(first, scanIds, groups)[k];
      && r.defectId == first + k && r.scanId in scanIds && DefectRowDrawn(r)
      && r.defectType in DefectTypes && r.severity in Severities
  {
    DefectsUpToAt(first, scanIds, groups, |groups|, k);
    ChoicesAdmitted();
  }

  /** Between 5 and 15 defects per scan. */
  lemma {:induction false} DefectsDrawnBounds(groups: seq<seq<DefectDraw>>, n: nat)
    requires DefectDrawsOk(groups) && n <= |groups|
    ensures MinDefectsPerScan * n <= DefectsDrawn(groups, n) <= MaxDefectsPerScan * n
    decreases n
  {
    if n > 0 {
      DefectsDrawnBounds(groups, n - 1);
      assert DefectGroupDrawn(groups[n - 1]);
    }
  }

  // ---------------------------------------------------------------------------
  // Measurements

  lemma {:induction false} MeasurementsUpToAt(first: nat, defectIds: seq<nat>, ds: seq<MeasurementDraw>, now: int, n: nat, k: nat)
    requires |ds| == |defectIds| && n <= |ds| && k < n
    ensures MeasurementsUpTo(first, defectIds, ds, now, n)[2 * k] == MeasurementPair(first + 2 * k, defectIds[k], ds[k], now)[0]
    ensures MeasurementsUpTo(first, defectIds, ds, now, n)[2 * k + 1] == MeasurementPair(first + 2 * k, defectIds[k], ds[k], now)[1]
    decreases n
  {
    if k < n - 1 {
      MeasurementsUpToAt(first, defectIds, ds, now, n - 1, k);
    }
  }

  /**
   * Two measurements per defect, in defect order: first its length (method
   * "bbox" or "skeleton"), then its width (method "bbox"), both within the
   * drawn ranges and both of a type the CHECK admits.
   */
  lemma GeneratedMeasurementsAt(first: nat, defectIds: seq<nat>, ds: seq<MeasurementDraw>, now: int, k: nat)
    requires |ds| == |defectIds| && MeasurementDrawsOk(ds) && k < |ds|
    ensures |GeneratedMeasurements(first, defectIds, ds, now)| == 2 * |defectIds|
    ensures var length := GeneratedMeasurements(first, defectIds, ds, now)[2 * k];
      && length.measurementId == first + 2 * k && length.defectId == defectIds[k]
      && length.measurementType == "length" && length.calculationMethod in LengthMethods
      && 10.0 <= length.valueCm <= 150.0
    ensures var width := GeneratedMeasurements(first, defectIds, ds, now)[2 * k + 1];
      && width.measurementId == first + 2 * k + 1 && width.defectId == defectIds[k]
      && width.measurementType == "width" && width.calculationMethod == "bbox"
      && 5.0 <= width.valueCm <= 50.0
  {
    MeasurementsUpToAt(first, defectIds, ds, now, |ds|, k);
    assert MeasurementDrawn(ds[k]);
  }

  // ---------------------------------------------------------------------------
  // Repairs

  lemma {:induction false} RepairsUpToAt(first: nat, defectIds: seq<nat>, today: int, ds: seq<RepairDraw>, n: nat, k: nat)
    requires RepairDrawsOk(ds, |defectIds|) && n <= |ds| && k < n
    ensures RepairsUpTo(first, defectIds, today, ds, n)[k] == RepairRowFor(first + k, defectIds, today, ds[k])
    decreases n
  {
    if k < n - 1 {
      RepairsUpToAt(first, defectIds, today, ds, n - 1, k);
    }
  }

  /**
   * Each repair record is for one of the new defects, dated in the last 60
   * days, costs between 500 and 15000, and has a status the CHECK admits.
   */
  lemma GeneratedRepairAt(first: nat, defectIds: seq<nat>, today: int, ds: seq<RepairDraw>, k: nat)
    requires RepairDrawsOk(ds, |defectIds|) && k < |ds|
    ensures |GeneratedRepairs(first, defectIds, today, ds)| == |ds|
    ensures var r := GeneratedRepairs(first, defectIds, today, ds)[k];
      && r.repairId == first + k && r.defectId in defectIds
      && today - 60 <= r.repairDate <= today
      && 500.0 <= r.costUsd <= 15000.0
      && r.repairType in RepairTypes && r.contractor in Contractors
      && r.status in StatusChoices && r.status in RepairStatuses
  {
    RepairsUpToAt(first, defectIds, today, ds, |ds|, k);
    assert RepairDrawn(ds[k], |defectIds|);
    ChoicesAdmitted();
  }

  // ---------------------------------------------------------------------------
  // One run on a fresh database

  /**
   * A run of the script on a fresh database inserts 15 scans, between 75 and
   * 225 defects, two measurements per defect and 30 repair records.
   */
  lemma SampleDataCounts(today: int, now: int, d: SampleDraws)
    requires WellDrawn(d)
    ensures var t := SampleData(today, now, d);
      && |t.scans| == 15 && 75 <= |t.defects| <= 225
      && |t.measurements| == 2 * |t.defects| && |t.repairs| == 30
  {
    DefectsDrawnBounds(d.defects, |d.defects|);
  }

  /** The scan key of the `k`-th defect of a run lies among the keys handed to that run's scans. */
  lemma DefectScanKey(firstScan: nat, firstDefect: nat, d: SampleDraws, k: nat)
    requires DrawsAgree(d) && k < DefectTotal(d.defects)
    ensures var scanId := GeneratedDefects(firstDefect, Keys(firstScan, |d.scans|), d.defects)[k].scanId;
      firstScan <= scanId < firstScan + |d.scans|
  {
    var scanIds := Keys(firstScan, |d.scans|);
    var s, j := DefectsUpToLocate(firstDefect, scanIds, d.defects, |d.defects|, k);
    KeysAt(firstScan, |d.scans|, s);
  }

  /** The defect key of the `i`-th measurement of a run lies among the keys handed to that run's defects. */
  lemma MeasurementDefectKey(firstDefect: nat, firstMeasurement: nat, now: int, d: SampleDraws, i: nat)
    requires DrawsAgree(d) && i < 2 * DefectTotal(d.defects)
    ensures var defectId := GeneratedMeasurements(firstMeasurement, Keys(firstDefect, DefectTotal(d.defects)), d.measurements, now)[i].defectId;
      firstDefect <= defectId < firstDefect + DefectTotal(d.defects)
  {
    var total := DefectTotal(d.defects);
    var k := i / 2;
    MeasurementsUpToAt(firstMeasurement, Keys(firstDefect, total), d.measurements, now, total, k);
    KeysAt(firstDefect, total, k);
    assert i == 2 * k || i == 2 * k + 1;
  }

  /** The defect key of the `k`-th repair record of a run lies among the keys handed to that run's defects. */
  lemma RepairDefectKey(firstDefect: nat, firstRepair: nat, today: int, d: SampleDraws, k: nat)
    requires DrawsAgree(d) && k < |d.repairs|
    ensures var defectId := GeneratedRepairs(firstRepair, Keys(firstDefect, DefectTotal(d.defects)), today, d.repairs)[k].defectId;
      firstDefect <= defectId < firstDefect + DefectTotal(d.defects)
  {
    var total := DefectTotal(d.defects);
    RepairsUpToAt(firstRepair, Keys(firstDefect, total), today, d.repairs, |d.repairs|, k);
    assert RepairDrawn(d.repairs[k], total);
    KeysAt(firstDefect, total, d.repairs[k].pick);
  }

  lemma ScanKeyExists(scans: seq<ScanRow>, x: nat)
    requires 1 <= x <= |scans| && scans[x - 1].scanId == x
    ensures exists j :: 0 <= j < |scans| && scans[j].scanId == x
  {
  }

  lemma DefectKeyExists(defects: seq<DefectRow>, x: nat)
    requires 1 <= x <= |defects| && defects[x - 1].defectId == x
    ensures exists j :: 0 <= j < |defects| && defects[j].defectId == x
  {
  }

  /** On a fresh run the `j`-th scan row has key j + 1. */
  lemma SampleScanKeyAt(today: int, now: int, d: SampleDraws, j: nat)
    requires DrawsAgree(d) && j < |d.scans|
    ensures |SampleData(today, now, d).scans| == |d.scans|
    ensures SampleData(today, now, d).scans[j].scanId == j + 1
  {
    ScansUpToAt(1, today, d.scans, |d.scans|, j);
  }

  /** On a fresh run the `j`-th defect row has key j + 1. */
  lemma SampleDefectKeyAt(today: int, now: int, d: SampleDraws, j: nat)
    requires DrawsAgree(d) && j < DefectTotal(d.defects)
    ensures |SampleData(today, now, d).defects| == DefectTotal(d.defects)
    ensures SampleData(today, now, d).defects[j].defectId == j + 1
  {
    GeneratedDefectAt(1, Keys(1, |d.scans|), d.defects, j);
  }

  /** Every sample defect belongs to one of the sample scans: a scan row with its scan_id exists. */
  lemma SampleDefectsReferToScans(today: int, now: int, d: SampleDraws, k: nat)
    requires DrawsAgree(d) && k < |SampleData(today, now, d).defects|
    ensures var t := SampleData(today, now, d);
      && 1 <= t.defects[k].scanId <= |t.scans|
      && exists j :: 0 <= j < |t.scans| && t.scans[j].scanId == t.defects[k].scanId
  {
    DrawsAdmitted(d);
    var t := SampleData(today, now, d);
    var x := t.defects[k].scanId;
    assert 1 <= x <= |t.scans| by {
      DefectScanKey(1, 1, d, k);
    }
    assert t.scans[x - 1].scanId == x by {
      SampleScanKeyAt(today, now, d, x - 1);
    }
    ScanKeyExists(t.scans, x);
  }

  /** Every sample measurement is of one of the sample defects: a defect row with its defect_id exists. */
  lemma SampleMeasurementsReferToDefects(today: int, now: int, d: SampleDraws, i: nat)
    requires DrawsAgree(d) && i < |SampleData(today, now, d).measurements|
    ensures var t := SampleData(today, now, d);
      && 1 <= t.measurements[i].defectId <= |t.defects|
      && exists j :: 0 <= j < |t.defects| && t.defects[j].defectId == t.measurements[i].defectId
  {
    DrawsAdmitted(d);
    var t := SampleData(today, now, d);
    var x := t.measurements[i].defectId;
    assert 1 <= x <= |t.defects| by {
      MeasurementDefectKey(1, 1, now, d, i);
    }
    assert t.defects[x - 1].defectId == x by {
      SampleDefectKeyAt(today, now, d, x - 1);
    }
    DefectKeyExists(t.defects, x);
  }

  /** Every sample repair record is for one of the sample defects: a defect row with its defect_id exists. */
  lemma SampleRepairsReferToDefects(today: int, now: int, d: SampleDraws, k: nat)
    requires DrawsAgree(d) && k < |SampleData(today, now, d).repairs|
    ensures var t := SampleData(today, now, d);
      && 1 <= t.repairs[k].defectId <= |t.defects|
      && exists j :: 0 <= j < |t.defects| && t.defects[j].defectId == t.repairs[k].defectId
  {
    DrawsAdmitted(d);
    var t := SampleData(today, now, d);
    var x := t.repairs[k].defectId;
    assert 1 <= x <= |t.defects| by {
      RepairDefectKey(1, 1, today, d, k);
    }
    assert t.defects[x - 1].defectId == x by {
      SampleDefectKeyAt(today, now, d, x - 1);
    }
    DefectKeyExists(t.defects, x);
  }
}
