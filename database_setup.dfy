/**
 * The setup script: `create_database` resets the file to four empty tables,
 * and `populate_sample_data` fills them with randomly drawn sample rows.
 *
 * Every random draw of the script is a parameter here, restricted to the
 * range the script's call to `random` can produce: a `random.choice` is the
 * index it picks, a `random.randint(a, b)` an integer in [a, b], and a
 * `random.uniform(a, b)` a real in [a, b] (the rounding to two or three
 * decimals that follows is not modelled). The clock is a parameter too:
 * `today` is the day number of `datetime.now()` and `now` the timestamp
 * SQLite stores for CURRENT_TIMESTAMP.
 */
module DatabaseSetup {
  import opened Wrappers
  import opened Schema

  /** The (location, road section) pairs a scan is drawn from. */
  const Locations: seq<(string, string)> := [
    ("Gangnam-daero", "Section A"), ("Gangnam-daero", "Section B"), ("Teheran-ro", "Section C"),
    ("Seocho-daero", "Section D"), ("Yeongdong-daero", "Section E")]
  const DefectTypeChoices: seq<string> := ["cavity", "crack", "pipe", "manhole", "delamination"]
  const SeverityChoices: seq<string> := ["low", "medium", "high", "critical"]
  /** The qualities a sample scan is drawn from: never "poor". */
  const QualityChoices: seq<string> := ["excellent", "good", "fair"]
  const LengthMethods: seq<string> := ["bbox", "skeleton"]
  const RepairTypes: seq<string> := ["patching", "full_replacement", "monitoring", "urgent_repair"]
  const Contractors: seq<string> := ["RoadTech Inc", "Seoul Infrastructure", "FastRepair Co"]
  const StatusChoices: seq<string> := ["planned", "in_progress", "completed", "verified"]

  const ScanCount: nat := 15
  const MinDefectsPerScan: nat := 5
  const MaxDefectsPerScan: nat := 15
  const RepairCount: nat := 30
  /** The first scan is dated this many days before today ... */
  const FirstScanDaysAgo: int := 90
  /** ... and each further scan this many days after the one before. */
  const ScanSpacingDays: int := 6
  const LatestRepairDaysAgo: nat := 60

  // ---------------------------------------------------------------------------
  // The file path of a scan: f'/data/gpr_scans/scan_{n:03d}.h5'

  const PathPrefix: string := "/data/gpr_scans/scan_"
  const PathSuffix: string := ".h5"

  predicate IsDigit(c: char) { '0' <= c <= '9' }

  predicate AllDigits(s: string) { forall k :: 0 <= k < |s| ==> IsDigit(s[k]) }

  /** The decimal notation of `n`, without leading zeros. */
  function Decimal(n: nat): (d: string)
    ensures 1 <= |d| && AllDigits(d)
    ensures |d| > 1 ==> d[0] != '0'
    ensures d[0] == '0' <==> n == 0
    decreases n
  {
    var last := ['0' + (n % 10) as char];
    if n < 10 then last else Decimal(n / 10) + last
  }

  /** The value of a string of decimal digits; leading zeros are allowed. */
  function DecimalValue(d: string): nat
    requires AllDigits(d)
    decreases |d|
  {
    if d == [] then 0 else DecimalValue(d[..|d| - 1]) * 10 + (d[|d| - 1] - '0') as nat
  }

  /** `{n:03d}`: the decimal notation padded on the left with zeros to at least three digits. */
  function ZeroPadded3(n: nat): string {
    var d := Decimal(n);
    if |d| < 3 then seq(3 - |d|, _ => '0') + d else d
  }

  function ScanFilePath(n: nat): string {
    PathPrefix + ZeroPadded3(n) + PathSuffix
  }

  lemma {:induction false} DecimalRoundTrip(n: nat)
    ensures DecimalValue(Decimal(n)) == n
    decreases n
  {
    var last := ['0' + (n % 10) as char];
    if n >= 10 {
      DecimalRoundTrip(n / 10);
      var d := Decimal(n / 10) + last;
      assert d[..|d| - 1] == Decimal(n / 10);
    }
  }

  lemma {:induction false} LeadingZerosIgnored(z: nat, d: string)
    requires AllDigits(d)
    ensures AllDigits(seq(z, _ => '0') + d)
    ensures DecimalValue(seq(z, _ => '0') + d) == DecimalValue(d)
    decreases |d|
  {
    var p := seq(z, _ => '0') + d;
    if d == [] {
      assert p == seq(z, _ => '0');
      ZerosWorthNothing(z);
    } else {
      assert p[..|p| - 1] == seq(z, _ => '0') + d[..|d| - 1];
      LeadingZerosIgnored(z, d[..|d| - 1]);
    }
  }

  lemma {:induction false} ZerosWorthNothing(z: nat)
    ensures AllDigits(seq(z, _ => '0'))
    ensures DecimalValue(seq(z, _ => '0')) == 0
    decreases z
  {
    if z > 0 {
      assert seq(z, _ => '0')[..z - 1] == seq(z - 1, _ => '0');
      ZerosWorthNothing(z - 1);
    }
  }

  /** Numbers below 10, 100 and 1000 are exactly those with at most one, two and three digits. */
  lemma {:induction false} DecimalWidth(n: nat)
    ensures n < 10 <==> |Decimal(n)| == 1
    ensures n < 100 <==> |Decimal(n)| <= 2
    ensures n < 1000 <==> |Decimal(n)| <= 3
    decreases n
  {
    if n >= 10 {
      DecimalWidth(n / 10);
    }
  }

  /**
   * The padded number reads back as the number; below 1000 it has exactly
   * three digits, and from 1000 on it is the plain notation, with no zero in front.
   */
  lemma ZeroPaddedRoundTrip(n: nat)
    ensures 3 <= |ZeroPadded3(n)| && AllDigits(ZeroPadded3(n))
    ensures DecimalValue(ZeroPadded3(n)) == n
    ensures n < 1000 ==> |ZeroPadded3(n)| == 3
    ensures n >= 1000 ==> ZeroPadded3(n)[0] != '0'
  {
    DecimalRoundTrip(n);
    DecimalWidth(n);
    var d := Decimal(n);
    if |d| < 3 {
      LeadingZerosIgnored(3 - |d|, d);
    }
  }

  /**
   * The path is the directory and "scan_" prefix, then the scan number in
   * `{n:03d}` notation, then ".h5".
   */
  lemma ScanFilePathFormat(n: nat)
    ensures var p := ScanFilePath(n);
      var digits := p[|PathPrefix|..|p| - |PathSuffix|];
      && |p| >= |PathPrefix| + 3 + |PathSuffix|
      && p[..|PathPrefix|] == PathPrefix && p[|p| - |PathSuffix|..] == PathSuffix
      && AllDigits(digits) && DecimalValue(digits) == n
      && (n < 1000 ==> |digits| == 3)
      && (n >= 1000 ==> digits[0] != '0')
  {
    var p := ScanFilePath(n);
    assert p[|PathPrefix|..|p| - |PathSuffix|] == ZeroPadded3(n);
    ZeroPaddedRoundTrip(n);
  }

  /** Different scan numbers get different file paths. */
  lemma ScanFilePathInjective(a: nat, b: nat)
    requires ScanFilePath(a) == ScanFilePath(b)
    ensures a == b
  {
    var pa, pb := ScanFilePath(a), ScanFilePath(b);
    assert pa[|PathPrefix|..|pa| - |PathSuffix|] == ZeroPadded3(a);
    assert pb[|PathPrefix|..|pb| - |PathSuffix|] == ZeroPadded3(b);
    ZeroPaddedRoundTrip(a);
    ZeroPaddedRoundTrip(b);
  }

  /** The paths of the first and of the last sample scan. */
  lemma ScanFilePathExamples()
    ensures ScanFilePath(1) == "/data/gpr_scans/scan_001.h5"
    ensures ScanFilePath(15) == "/data/gpr_scans/scan_015.h5"
  {
    assert Decimal(1) == "1";
    assert Decimal(15) == Decimal(1) + "5" == "15";
    assert seq(2, _ => '0') == "00";
    assert seq(1, _ => '0') == "0";
  }

  // ---------------------------------------------------------------------------
  // The random draws

  /** One pass of the scan loop: `random.choice(locations)`, `uniform(100, 500)`, `random.choice(qualities)`. */
  datatype ScanDraw = ScanDraw(location: string, roadSection: string, totalLengthM: real, quality: string)

  predicate ScanDrawn(d: ScanDraw) {
    (d.location, d.roadSection) in Locations && 100.0 <= d.totalLengthM <= 500.0 && d.quality in QualityChoices
  }

  /** One pass of the inner defect loop: the type, severity and depth drawn, the box and the confidence. */
  datatype DefectDraw = DefectDraw(
    defectType: string, severity: string, depthCm: real,
    bboxX: int, bboxY: int, bboxWidth: int, bboxHeight: int, confidence: real)

  /** The range the depth of a defect is drawn from, by defect type. */
  function DepthRange(defectType: string): (real, real) {
    if defectType == "crack" then (2.0, 15.0)
    else if defectType == "cavity" then (10.0, 50.0)
    else (5.0, 30.0)
  }

  predicate DefectDrawn(d: DefectDraw) {
    && d.defectType in DefectTypeChoices && d.severity in SeverityChoices
    && DepthRange(d.defectType).0 <= d.depthCm <= DepthRange(d.defectType).1
    && 0 <= d.bboxX <= 800 && 0 <= d.bboxY <= 600
    && 20 <= d.bboxWidth <= 200 && 20 <= d.bboxHeight <= 200
    && 0.7 <= d.confidence <= 0.99
  }

  /** The draws of one scan's defects: `randint(5, 15)` of them. */
  predicate DefectGroupDrawn(g: seq<DefectDraw>) {
    MinDefectsPerScan <= |g| <= MaxDefectsPerScan && forall j :: 0 <= j < |g| ==> DefectDrawn(g[j])
  }

  /** One pass of the measurement loop: the length, its method, and the width. */
  datatype MeasurementDraw = MeasurementDraw(lengthCm: real, lengthMethod: string, widthCm: real)

  predicate MeasurementDrawn(d: MeasurementDraw) {
    10.0 <= d.lengthCm <= 150.0 && d.lengthMethod in LengthMethods && 5.0 <= d.widthCm <= 50.0
  }

  /**
   * One pass of the repair loop: `random.choice(defect_ids)` as the position
   * it picks, `randint(0, 60)` days ago, and the rest of the record.
   */
  datatype RepairDraw = RepairDraw(
    pick: nat, daysAgo: nat, repairType: string, costUsd: real, contractor: string, status: string)

  predicate RepairDrawn(d: RepairDraw, defectCount: nat) {
    && d.pick < defectCount && d.daysAgo <= LatestRepairDaysAgo
    && d.repairType in RepairTypes && 500.0 <= d.costUsd <= 15000.0
    && d.contractor in Contractors && d.status in StatusChoices
  }

  /** Everything one run of `populate_sample_data` draws, loop by loop. */
  datatype SampleDraws = SampleDraws(
    scans: seq<ScanDraw>, defects: seq<seq<DefectDraw>>,
    measurements: seq<MeasurementDraw>, repairs: seq<RepairDraw>)

  /** The number of defects drawn for the first `n` scans. */
  function DefectsDrawn(groups: seq<seq<DefectDraw>>, n: nat): nat
    requires n <= |groups|
    decreases n
  {
    if n == 0 then 0 else DefectsDrawn(groups, n - 1) + |groups[n - 1]|
  }

  /** The number of defects drawn over all scans. */
  function DefectTotal(groups: seq<seq<DefectDraw>>): nat {
    DefectsDrawn(groups, |groups|)
  }

  /*
   * The draws are described at three levels, each adding to the one before:
   * - DrawsFit: only the shapes the loops need (a defect group per scan, a
   *   measurement draw per defect, repair picks among the defects); this is
   *   all the loop methods require, together with Admitted below.
   * - DrawsAgree: the shapes plus every value in the range its `random` call
   *   can produce (ScanDrawsOk, DefectDrawsOk, MeasurementDrawsOk,
   *   RepairDrawsOk, one per loop).
   * - WellDrawn: additionally exactly 15 scan passes and 30 repair passes,
   *   as `range(15)` and `range(30)` fix them; the script's entry points
   *   require it.
   * Admitted (further below) is a different question: whether every INSERT
   * passes its CHECK constraints. DrawsAdmitted shows that DrawsAgree implies
   * both DrawsFit and Admitted.
   */

  predicate ScanDrawsOk(ds: seq<ScanDraw>) {
    forall i :: 0 <= i < |ds| ==> ScanDrawn(ds[i])
  }

  predicate DefectDrawsOk(groups: seq<seq<DefectDraw>>) {
    forall i :: 0 <= i < |groups| ==> DefectGroupDrawn(groups[i])
  }

  predicate MeasurementDrawsOk(ds: seq<MeasurementDraw>) {
    forall k :: 0 <= k < |ds| ==> MeasurementDrawn(ds[k])
  }

  predicate RepairDrawsOk(ds: seq<RepairDraw>, defectCount: nat) {
    forall k :: 0 <= k < |ds| ==> RepairDrawn(ds[k], defectCount)
  }

  /** Every repair draw picks one of `defectCount` defects. */
  predicate PicksBelow(ds: seq<RepairDraw>, defectCount: nat) {
    forall k :: 0 <= k < |ds| ==> ds[k].pick < defectCount
  }

  /**
   * Draws of the right shape: a group of defect draws per scan, a
   * measurement draw per defect, and repair picks among the defects.
   */
  predicate DrawsFit(d: SampleDraws) {
    && |d.defects| == |d.scans| && |d.measurements| == DefectTotal(d.defects)
    && PicksBelow(d.repairs, DefectTotal(d.defects))
  }

  /** Draws that fit together: one per pass of each loop, each within its range. */
  predicate DrawsAgree(d: SampleDraws) {
    && ScanDrawsOk(d.scans)
    && |d.defects| == |d.scans| && DefectDrawsOk(d.defects)
    && |d.measurements| == DefectTotal(d.defects) && MeasurementDrawsOk(d.measurements)
    && RepairDrawsOk(d.repairs, DefectTotal(d.defects))
  }

  /** The draws a run of the script makes: 15 scans and 30 repairs. */
  predicate WellDrawn(d: SampleDraws) {
    DrawsAgree(d) && |d.scans| == ScanCount && |d.repairs| == RepairCount
  }

  // ---------------------------------------------------------------------------
  // The rows a run inserts

  /** The keys AUTOINCREMENT hands out for `count` rows starting at `first`. */
  function Keys(first: nat, count: nat): (keys: seq<nat>)
    ensures |keys| == count
    decreases count
  {
    if count == 0 then [] else Keys(first, count - 1) + [first + count - 1]
  }

  function ScanDate(today: int, i: nat): int {
    today - FirstScanDaysAgo + ScanSpacingDays * i
  }

  /** The row inserted by pass `i` of the scan loop. */
  function ScanRowFor(id: nat, i: nat, today: int, d: ScanDraw): ScanRow {
    ScanRow(id, d.location, d.roadSection, ScanDate(today, i), ScanFilePath(i + 1), d.totalLengthM, d.quality)
  }

  /** The rows inserted by the first `n` passes of the scan loop. */
  function ScansUpTo(firstId: nat, today: int, ds: seq<ScanDraw>, n: nat): (rows: seq<ScanRow>)
    requires n <= |ds|
    ensures |rows| == n
    decreases n
  {
    if n == 0 then [] else ScansUpTo(firstId, today, ds, n - 1) + [ScanRowFor(firstId + n - 1, n - 1, today, ds[n - 1])]
  }

  /** The rows inserted by the scan loop. */
  function GeneratedScans(firstId: nat, today: int, ds: seq<ScanDraw>): seq<ScanRow> {
    ScansUpTo(firstId, today, ds, |ds|)
  }

  /** The row inserted by one pass of the inner defect loop. */
  function DefectRowFor(id: nat, scanId: nat, d: DefectDraw): DefectRow {
    DefectRow(id, scanId, d.defectType, d.depthCm, d.severity, d.bboxX, d.bboxY, d.bboxWidth, d.bboxHeight, d.confidence)
  }

  /** The rows inserted for one scan by the first `n` passes of the inner defect loop. */
  function BatchUpTo(firstId: nat, scanId: nat, ds: seq<DefectDraw>, n: nat): (rows: seq<DefectRow>)
    requires n <= |ds|
    ensures |rows| == n
    decreases n
  {
    if n == 0 then [] else BatchUpTo(firstId, scanId, ds, n - 1) + [DefectRowFor(firstId + n - 1, scanId, ds[n - 1])]
  }

  /** The rows inserted for one scan by the inner defect loop. */
  function DefectBatch(firstId: nat, scanId: nat, ds: seq<DefectDraw>): seq<DefectRow> {
    BatchUpTo(firstId, scanId, ds, |ds|)
  }

  /** The rows inserted by the outer defect loop for the first `n` scans. */
  function DefectsUpTo(firstId: nat, scanIds: seq<nat>, groups: seq<seq<DefectDraw>>, n: nat): (rows: seq<DefectRow>)
    requires |scanIds| == |groups| && n <= |groups|
    ensures |rows| == DefectsDrawn(groups, n)
    decreases n
  {
    if n == 0 then []
    else DefectsUpTo(firstId, scanIds, groups, n - 1)
         + DefectBatch(firstId + DefectsDrawn(groups, n - 1), scanIds[n - 1], groups[n - 1])
  }

  /** The rows inserted by the defect loop, scan after scan. */
  function GeneratedDefects(firstId: nat, scanIds: seq<nat>, groups: seq<seq<DefectDraw>>): seq<DefectRow>
    requires |scanIds| == |groups|
  {
    DefectsUpTo(firstId, scanIds, groups, |groups|)
  }

  /** The two rows inserted for one defect: its length, then its width. */
  function MeasurementPair(firstId: nat, defectId: nat, d: MeasurementDraw, now: int): seq<MeasurementRow> {
    [MeasurementRow(firstId, defectId, "length", d.lengthCm, d.lengthMethod, now),
     MeasurementRow(firstId + 1, defectId, "width", d.widthCm, "bbox", now)]
  }

  /** The rows inserted by the first `n` passes of the measurement loop. */
  function MeasurementsUpTo(firstId: nat, defectIds: seq<nat>, ds: seq<MeasurementDraw>, now: int, n: nat): (rows: seq<MeasurementRow>)
    requires |ds| == |defectIds| && n <= |ds|
    ensures |rows| == 2 * n
    decreases n
  {
    if n == 0 then []
    else MeasurementsUpTo(firstId, defectIds, ds, now, n - 1)
         + MeasurementPair(firstId + 2 * (n - 1), defectIds[n - 1], ds[n - 1], now)
  }

  /** The rows inserted by the measurement loop, defect after defect. */
  function GeneratedMeasurements(firstId: nat, defectIds: seq<nat>, ds: seq<MeasurementDraw>, now: int): seq<MeasurementRow>
    requires |ds| == |defectIds|
  {
    MeasurementsUpTo(firstId, defectIds, ds, now, |ds|)
  }

  /** The row inserted by one pass of the repair loop. */
  function RepairRowFor(id: nat, defectIds: seq<nat>, today: int, d: RepairDraw): RepairRow
    requires d.pick < |defectIds|
  {
    RepairRow(id, defectIds[d.pick], today - d.daysAgo, d.repairType, d.costUsd, d.contractor, d.status)
  }

  /** The rows inserted by the first `n` passes of the repair loop. */
  function RepairsUpTo(firstId: nat, defectIds: seq<nat>, today: int, ds: seq<RepairDraw>, n: nat): (rows: seq<RepairRow>)
    requires PicksBelow(ds, |defectIds|) && n <= |ds|
    ensures |rows| == n
    decreases n
  {
    if n == 0 then [] else RepairsUpTo(firstId, defectIds, today, ds, n - 1) + [RepairRowFor(firstId + n - 1, defectIds, today, ds[n - 1])]
  }

  /** The rows inserted by the repair loop. */
  function GeneratedRepairs(firstId: nat, defectIds: seq<nat>, today: int, ds: seq<RepairDraw>): seq<RepairRow>
    requires PicksBelow(ds, |defectIds|)
  {
    RepairsUpTo(firstId, defectIds, today, ds, |ds|)
  }

  /**
   * The four tables after one run of populate_sample_data on tables `t`
   * whose AUTOINCREMENT counters stand at the `last...` values: every loop
   * appends its rows after the rows already there.
   */
  function Populated(t: Tables, lastScanId: nat, lastDefectId: nat, lastMeasurementId: nat, lastRepairId: nat,
                     today: int, now: int, d: SampleDraws): Tables
    requires DrawsFit(d)
  {
    var defectIds := Keys(lastDefectId + 1, DefectTotal(d.defects));
    Tables(
      t.scans + GeneratedScans(lastScanId + 1, today, d.scans),
      t.defects + GeneratedDefects(lastDefectId + 1, Keys(lastScanId + 1, |d.scans|), d.defects),
      t.measurements + GeneratedMeasurements(lastMeasurementId + 1, defectIds, d.measurements, now),
      t.repairs + GeneratedRepairs(lastRepairId + 1, defectIds, today, d.repairs))
  }

  /** The four tables as a run of the script leaves them in a freshly created database. */
  function SampleData(today: int, now: int, d: SampleDraws): Tables
    requires DrawsFit(d)
  {
    Populated(Tables([], [], [], []), 0, 0, 0, 0, today, now, d)
  }

  // ---------------------------------------------------------------------------
  // The script

  /** Every value the script draws passes the CHECK constraint of its column. */
  lemma ChoicesAdmitted()
    ensures forall q :: q in QualityChoices ==> q in ScanQualities
    ensures forall k :: k in DefectTypeChoices ==> k in DefectTypes
    ensures forall s :: s in SeverityChoices ==> s in Severities
    ensures forall s :: s in StatusChoices ==> s in RepairStatuses
    ensures "length" in MeasurementTypes && "width" in MeasurementTypes
  {
  }

  /** The CHECK constraints admit the quality of every scan draw. */
  predicate ScansAdmitted(ds: seq<ScanDraw>) {
    forall i :: 0 <= i < |ds| ==> ds[i].quality in ScanQualities
  }

  /** The CHECK constraints admit the type and the severity of every defect draw. */
  predicate DefectsAdmitted(ds: seq<DefectDraw>) {
    forall j :: 0 <= j < |ds| ==> ds[j].defectType in DefectTypes && ds[j].severity in Severities
  }

  /** The CHECK constraint admits the status of every repair draw. */
  predicate RepairsAdmitted(ds: seq<RepairDraw>) {
    forall k :: 0 <= k < |ds| ==> ds[k].status in RepairStatuses
  }

  /** Draws every INSERT of the script accepts. */
  predicate Admitted(d: SampleDraws) {
    && ScansAdmitted(d.scans)
    && (forall s :: 0 <= s < |d.defects| ==> DefectsAdmitted(d.defects[s]))
    && RepairsAdmitted(d.repairs)
  }

  /** The draws the script makes fit together, and every INSERT accepts them. */
  lemma DrawsAdmitted(d: SampleDraws)
    requires DrawsAgree(d)
    ensures DrawsFit(d) && Admitted(d)
  {
    ChoicesAdmitted();
    forall s | 0 <= s < |d.defects|
      ensures DefectsAdmitted(d.defects[s])
    {
      assert DefectGroupDrawn(d.defects[s]);
    }
  }

  /** create_database: drop the four tables, then create them anew. */
  method CreateDatabase(db: Store)
    modifies db
    ensures db.Valid() && db.hasTables
    ensures db.Contents() == Tables([], [], [], [])
    ensures db.lastScanId == 0 && db.lastDefectId == 0 && db.lastMeasurementId == 0 && db.lastRepairId == 0
  {
    db.DropTables();
    var err := db.CreateTables();
  }

  lemma AppendAssoc<T>(a: seq<T>, b: seq<T>, c: seq<T>)
    ensures (a + b) + c == a + (b + c)
  {
  }

  lemma {:induction false} KeysAppend(first: nat, a: nat, b: nat)
    ensures Keys(first, a) + Keys(first + a, b) == Keys(first, a + b)
    decreases b
  {
    if b > 0 {
      KeysAppend(first, a, b - 1);
      AppendAssoc(Keys(first, a), Keys(first + a, b - 1), [first + a + b - 1]);
    }
  }

  /** One more pass of the scan loop appends its row after the rows before it. */
  lemma ScansAppended(first: nat, today: int, ds: seq<ScanDraw>, i: nat,
                      base: seq<ScanRow>, before: seq<ScanRow>, after: seq<ScanRow>)
    requires i < |ds|
    requires before == base + ScansUpTo(first, today, ds, i)
    requires after == before + [ScanRowFor(first + i, i, today, ds[i])]
    ensures after == base + ScansUpTo(first, today, ds, i + 1)
  {
    AppendAssoc(base, ScansUpTo(first, today, ds, i), [ScanRowFor(first + i, i, today, ds[i])]);
  }

  /** Pass `i` of the scan loop: the INSERT of one scan row, which the CHECK admits. */
  method InsertScanPass(db: Store, today: int, ds: seq<ScanDraw>, i: nat, ghost first: nat, ghost base: seq<ScanRow>)
      returns (id: nat)
    requires db.Valid() && db.hasTables && i < |ds| && ds[i].quality in ScanQualities
    requires db.lastScanId == first - 1 + i && db.scans == base + ScansUpTo(first, today, ds, i)
    modifies db`scans, db`lastScanId
    ensures db.Valid()
    ensures id == first + i == db.lastScanId
    ensures db.scans == base + ScansUpTo(first, today, ds, i + 1)
  {
    var d := ds[i];
    ghost var before := db.scans;
    var r := db.InsertScan(d.location, d.roadSection, ScanDate(today, i), ScanFilePath(i + 1), d.totalLengthM, d.quality);
    id := r.value;
    ScansAppended(first, today, ds, i, base, before, db.scans);
  }

  /** The scan loop: one scan per draw, dated six days apart, keys handed out in order. */
  method InsertSampleScans(db: Store, today: int, ds: seq<ScanDraw>) returns (scanIds: seq<nat>)
    requires db.Valid() && db.hasTables && ScansAdmitted(ds)
    modifies db`scans, db`lastScanId
    ensures db.Valid()
    ensures scanIds == Keys(old(db.lastScanId) + 1, |ds|)
    ensures db.lastScanId == old(db.lastScanId) + |ds|
    ensures db.scans == old(db.scans) + GeneratedScans(old(db.lastScanId) + 1, today, ds)
  {
    ghost var first := db.lastScanId + 1;
    ghost var base := db.scans;
    scanIds := [];
    for i := 0 to |ds|
      invariant db.Valid() && db.hasTables
      invariant db.lastScanId == first - 1 + i
      invariant scanIds == Keys(first, i)
      invariant db.scans == base + ScansUpTo(first, today, ds, i)
    {
      var id := InsertScanPass(db, today, ds, i, first, base);
      scanIds := scanIds + [id];
    }
  }

  /** The inner defect loop: the defects of one scan. */
  method InsertScanDefects(db: Store, scanId: nat, ds: seq<DefectDraw>) returns (ids: seq<nat>)
    requires db.Valid() && db.hasTables && DefectsAdmitted(ds)
    modifies db`defects, db`lastDefectId
    ensures db.Valid()
    ensures ids == Keys(old(db.lastDefectId) + 1, |ds|)
    ensures db.lastDefectId == old(db.lastDefectId) + |ds|
    ensures db.defects == old(db.defects) + DefectBatch(old(db.lastDefectId) + 1, scanId, ds)
  {
    ghost var first := db.lastDefectId + 1;
    ghost var base := db.defects;
    ids := [];
    for j := 0 to |ds|
      invariant db.Valid() && db.hasTables
      invariant db.lastDefectId == first - 1 + j
      invariant ids == Keys(first, j)
      invariant db.defects == base + BatchUpTo(first, scanId, ds, j)
    {
      var d := ds[j];
      var r := db.InsertDefect(scanId, d.defectType, d.depthCm, d.severity,
                               d.bboxX, d.bboxY, d.bboxWidth, d.bboxHeight, d.confidence);
      ids := ids + [r.value];
      AppendAssoc(base, BatchUpTo(first, scanId, ds, j), [DefectRowFor(first + j, scanId, d)]);
    }
  }

  /** One more pass of the outer defect loop appends the next scan's batch after the rows before it. */
  lemma DefectsAppended(first: nat, scanIds: seq<nat>, groups: seq<seq<DefectDraw>>, s: nat,
                        base: seq<DefectRow>, before: seq<DefectRow>, after: seq<DefectRow>)
    requires |scanIds| == |groups| && s < |groups|
    requires before == base + DefectsUpTo(first, scanIds, groups, s)
    requires after == before + DefectBatch(first + DefectsDrawn(groups, s), scanIds[s], groups[s])
    ensures after == base + DefectsUpTo(first, scanIds, groups, s + 1)
    ensures DefectsDrawn(groups, s + 1) == DefectsDrawn(groups, s) + |groups[s]|
  {
    AppendAssoc(base, DefectsUpTo(first, scanIds, groups, s),
                DefectBatch(first + DefectsDrawn(groups, s), scanIds[s], groups[s]));
  }

  /** The outer defect loop: the defects of every scan, scan after scan. */
  method InsertSampleDefects(db: Store, scanIds: seq<nat>, groups: seq<seq<DefectDraw>>) returns (defectIds: seq<nat>)
    requires db.Valid() && db.hasTables && |scanIds| == |groups|
    requires forall s :: 0 <= s < |groups| ==> DefectsAdmitted(groups[s])
    modifies db`defects, db`lastDefectId
    ensures db.Valid()
    ensures defectIds == Keys(old(db.lastDefectId) + 1, DefectTotal(groups))
    ensures db.lastDefectId == old(db.lastDefectId) + DefectTotal(groups)
    ensures db.defects == old(db.defects) + GeneratedDefects(old(db.lastDefectId) + 1, scanIds, groups)
  {
    ghost var first := db.lastDefectId + 1;
    ghost var base := db.defects;
    defectIds := [];
    for s := 0 to |groups|
      invariant db.Valid() && db.hasTables
      invariant db.lastDefectId == first - 1 + DefectsDrawn(groups, s)
      invariant defectIds == Keys(first, DefectsDrawn(groups, s))
      invariant db.defects == base + DefectsUpTo(first, scanIds, groups, s)
    {
      ghost var before := db.defects;
      var ids := InsertScanDefects(db, scanIds[s], groups[s]);
      DefectsAppended(first, scanIds, groups, s, base, before, db.defects);
      KeysAppend(first, DefectsDrawn(groups, s), |groups[s]|);
      defectIds := defectIds + ids;
    }
  }

  /** One more pass of the measurement loop appends the defect's length row and then its width row. */
  lemma MeasurementsAppended(first: nat, defectIds: seq<nat>, ds: seq<MeasurementDraw>, now: int, k: nat,
                             base: seq<MeasurementRow>, before: seq<MeasurementRow>, after: seq<MeasurementRow>)
    requires |ds| == |defectIds| && k < |ds|
    requires before == base + MeasurementsUpTo(first, defectIds, ds, now, k)
    requires after == before + [MeasurementPair(first + 2 * k, defectIds[k], ds[k], now)[0]]
                             + [MeasurementPair(first + 2 * k, defectIds[k], ds[k], now)[1]]
    ensures after == base + MeasurementsUpTo(first, defectIds, ds, now, k + 1)
  {
    var pair := MeasurementPair(first + 2 * k, defectIds[k], ds[k], now);
    AppendAssoc(before, [pair[0]], [pair[1]]);
    AppendAssoc(base, MeasurementsUpTo(first, defectIds, ds, now, k), pair);
  }

  /** The measurement loop: a length and a width for every defect. */
  method InsertSampleMeasurements(db: Store, defectIds: seq<nat>, ds: seq<MeasurementDraw>, now: int)
    requires db.Valid() && db.hasTables && |ds| == |defectIds|
    modifies db`measurements, db`lastMeasurementId
    ensures db.Valid()
    ensures db.lastMeasurementId == old(db.lastMeasurementId) + 2 * |ds|
    ensures db.measurements == old(db.measurements) + GeneratedMeasurements(old(db.lastMeasurementId) + 1, defectIds, ds, now)
  {
    ghost var first := db.lastMeasurementId + 1;
    ghost var base := db.measurements;
    for k := 0 to |ds|
      invariant db.Valid() && db.hasTables
      invariant db.lastMeasurementId == first - 1 + 2 * k
      invariant db.measurements == base + MeasurementsUpTo(first, defectIds, ds, now, k)
    {
      var d := ds[k];
      ghost var before := db.measurements;
      var length := db.InsertMeasurement(defectIds[k], "length", d.lengthCm, d.lengthMethod, now);
      var width := db.InsertMeasurement(defectIds[k], "width", d.widthCm, "bbox", now);
      MeasurementsAppended(first, defectIds, ds, now, k, base, before, db.measurements);
    }
  }

  /** The repair loop: one record per draw, for the defect the draw picks. */
  method InsertSampleRepairs(db: Store, defectIds: seq<nat>, today: int, ds: seq<RepairDraw>)
    requires db.Valid() && db.hasTables && PicksBelow(ds, |defectIds|) && RepairsAdmitted(ds)
    modifies db`repairs, db`lastRepairId
    ensures db.Valid()
    ensures db.lastRepairId == old(db.lastRepairId) + |ds|
    ensures db.repairs == old(db.repairs) + GeneratedRepairs(old(db.lastRepairId) + 1, defectIds, today, ds)
  {
    ghost var first := db.lastRepairId + 1;
    ghost var base := db.repairs;
    for k := 0 to |ds|
      invariant db.Valid() && db.hasTables
      invariant db.lastRepairId == first - 1 + k
      invariant db.repairs == base + RepairsUpTo(first, defectIds, today, ds, k)
    {
      var d := ds[k];
      var r := db.InsertRepair(defectIds[d.pick], today - d.daysAgo, d.repairType, d.costUsd, d.contractor, d.status);
      AppendAssoc(base, RepairsUpTo(first, defectIds, today, ds, k), [RepairRowFor(first + k, defectIds, today, d)]);
    }
  }

  /** The first half of populate_sample_data: the scan loop, then the defect loop over the new scans. */
  method InsertScansAndDefects(db: Store, today: int, d: SampleDraws) returns (defectIds: seq<nat>)
    requires db.Valid() && db.hasTables && DrawsFit(d) && Admitted(d)
    modifies db`scans, db`lastScanId, db`defects, db`lastDefectId
    ensures db.Valid()
    ensures defectIds == Keys(old(db.lastDefectId) + 1, DefectTotal(d.defects))
    ensures db.scans == old(db.scans) + GeneratedScans(old(db.lastScanId) + 1, today, d.scans)
    ensures db.defects == old(db.defects) + GeneratedDefects(old(db.lastDefectId) + 1, Keys(old(db.lastScanId) + 1, |d.scans|), d.defects)
  {
    var scanIds := InsertSampleScans(db, today, d.scans);
    defectIds := InsertSampleDefects(db, scanIds, d.defects);
  }

  /** The second half of populate_sample_data: the measurement loop, then the repair loop, over the new defects. */
  method InsertMeasurementsAndRepairs(db: Store, defectIds: seq<nat>, today: int, now: int, d: SampleDraws)
    requires db.Valid() && db.hasTables && DrawsFit(d) && Admitted(d) && |defectIds| == DefectTotal(d.defects)
    modifies db`measurements, db`lastMeasurementId, db`repairs, db`lastRepairId
    ensures db.Valid()
    ensures db.measurements == old(db.measurements) + GeneratedMeasurements(old(db.lastMeasurementId) + 1, defectIds, d.measurements, now)
    ensures db.repairs == old(db.repairs) + GeneratedRepairs(old(db.lastRepairId) + 1, defectIds, today, d.repairs)
  {
    InsertSampleMeasurements(db, defectIds, d.measurements, now);
    InsertSampleRepairs(db, defectIds, today, d.repairs);
  }

  /** The four tables that the four loops leave behind are the tables `Populated` describes. */
  lemma PopulatedTables(t: Tables, scans: seq<ScanRow>, defects: seq<DefectRow>, measurements: seq<MeasurementRow>,
                        repairs: seq<RepairRow>, lastScanId: nat, lastDefectId: nat, lastMeasurementId: nat,
                        lastRepairId: nat, today: int, now: int, d: SampleDraws)
    requires DrawsFit(d)
    requires scans == t.scans + GeneratedScans(lastScanId + 1, today, d.scans)
    requires defects == t.defects + GeneratedDefects(lastDefectId + 1, Keys(lastScanId + 1, |d.scans|), d.defects)
    requires measurements ==
               t.measurements + GeneratedMeasurements(lastMeasurementId + 1, Keys(lastDefectId + 1, DefectTotal(d.defects)), d.measurements, now)
    requires repairs == t.repairs + GeneratedRepairs(lastRepairId + 1, Keys(lastDefectId + 1, DefectTotal(d.defects)), today, d.repairs)
    ensures Tables(scans, defects, measurements, repairs) ==
              Populated(t, lastScanId, lastDefectId, lastMeasurementId, lastRepairId, today, now, d)
  {
  }

  /** The four loops of populate_sample_data on a database that has its tables. */
  method InsertSampleData(db: Store, today: int, now: int, d: SampleDraws)
    requires db.Valid() && db.hasTables && DrawsFit(d) && Admitted(d)
    modifies db`scans, db`lastScanId, db`defects, db`lastDefectId
    modifies db`measurements, db`lastMeasurementId, db`repairs, db`lastRepairId
    ensures db.Valid()
    ensures db.Contents() == Populated(old(db.Contents()), old(db.lastScanId), old(db.lastDefectId),
                                       old(db.lastMeasurementId), old(db.lastRepairId), today, now, d)
  {
    ghost var t := db.Contents();
    ghost var lastScanId, lastDefectId, lastMeasurementId, lastRepairId :=
      db.lastScanId, db.lastDefectId, db.lastMeasurementId, db.lastRepairId;
    var defectIds := InsertScansAndDefects(db, today, d);
    InsertMeasurementsAndRepairs(db, defectIds, today, now, d);
    PopulatedTables(t, db.scans, db.defects, db.measurements, db.repairs, lastScanId, lastDefectId, lastMeasurementId, lastRepairId, today, now, d);
  }

  /**
   * populate_sample_data: the four loops one after the other, each new row
   * appended after the rows already there: 15 scans, a defect per draw, two
   * measurements per defect and 30 repair records. Without the tables the
   * first INSERT is refused and nothing changes.
   */
  method PopulateSampleData(db: Store, today: int, now: int, d: SampleDraws) returns (err: Option<StoreError>)
    requires db.Valid() && WellDrawn(d)
    modifies db
    ensures db.Valid() && db.hasTables == old(db.hasTables)
    ensures !old(db.hasTables) ==> err == Some(NoSuchTable("scans")) && db.Contents() == old(db.Contents())
    ensures old(db.hasTables) ==>
      && err == None
      && db.Contents() == Populated(old(db.Contents()), old(db.lastScanId), old(db.lastDefectId),
                                    old(db.lastMeasurementId), old(db.lastRepairId), today, now, d)
    ensures old(db.hasTables) ==>
      && |db.scans| == old(|db.scans|) + ScanCount
      && |db.defects| == old(|db.defects|) + DefectTotal(d.defects)
      && |db.measurements| == old(|db.measurements|) + 2 * DefectTotal(d.defects)
      && |db.repairs| == old(|db.repairs|) + RepairCount
  {
    if !db.hasTables {
      err := Some(NoSuchTable("scans"));
    } else {
      DrawsAdmitted(d);
      InsertSampleData(db, today, now, d);
      err := None;
    }
  }

  /**
   * The setup entry point: a fresh database filled with one run's sample
   * data. Whatever the file held before, only this run's rows remain.
   */
  method SetUpDatabase(db: Store, today: int, now: int, d: SampleDraws)
    requires WellDrawn(d)
    modifies db
    ensures db.Valid() && db.hasTables
    ensures db.Contents() == SampleData(today, now, d)
    ensures |db.scans| == ScanCount && |db.repairs| == RepairCount
    ensures |db.measurements| == 2 * |db.defects|
  {
    CreateDatabase(db);
    var err := PopulateSampleData(db, today, now, d);
  }
}
