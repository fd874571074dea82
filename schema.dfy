/**
 * The SQLite file `gpr_defects.db` as the setup script and the dashboard see
 * it: four tables whose rows carry an AUTOINCREMENT primary key and whose
 * enumerated text columns are guarded by CHECK constraints.
 *
 * Dates are day numbers (the text 'YYYY-MM-DD' is not modelled) and REAL
 * columns are Dafny reals. Every column the setup script fills is modelled;
 * NULL values are not, because the script never inserts one.
 */
module Schema {
  import opened Wrappers

  /** The values admitted by CHECK(scan_quality IN (...)). */
  const ScanQualities: set<string> := {"excellent", "good", "fair", "poor"}
  /** The values admitted by CHECK(defect_type IN (...)). */
  const DefectTypes: set<string> := {"cavity", "crack", "pipe", "manhole", "delamination"}
  /** The values admitted by CHECK(severity IN (...)). */
  const Severities: set<string> := {"low", "medium", "high", "critical"}
  /** The values admitted by CHECK(measurement_type IN (...)). */
  const MeasurementTypes: set<string> := {"length", "width", "area", "volume"}
  /** The values admitted by CHECK(status IN (...)). */
  const RepairStatuses: set<string> := {"planned", "in_progress", "completed", "verified"}

  /** A row of the `scans` table. */
  datatype ScanRow = ScanRow(
    scanId: nat, location: string, roadSection: string, scanDate: int,
    filePath: string, totalLengthM: real, scanQuality: string)

  /** A row of the `defects` table; `scanId` refers to `scans` by convention only. */
  datatype DefectRow = DefectRow(
    defectId: nat, scanId: nat, defectType: string, depthCm: real, severity: string,
    bboxX: int, bboxY: int, bboxWidth: int, bboxHeight: int, confidence: real)

  /** A row of the `measurements` table; `measuredAt` is the CURRENT_TIMESTAMP default. */
  datatype MeasurementRow = MeasurementRow(
    measurementId: nat, defectId: nat, measurementType: string, valueCm: real,
    calculationMethod: string, measuredAt: int)

  /** A row of the `repair_history` table. */
  datatype RepairRow = RepairRow(
    repairId: nat, defectId: nat, repairDate: int, repairType: string,
    costUsd: real, contractor: string, status: string)

  /** The contents of the four tables at one moment. */
  datatype Tables = Tables(
    scans: seq<ScanRow>, defects: seq<DefectRow>,
    measurements: seq<MeasurementRow>, repairs: seq<RepairRow>)

  /** Why a statement is refused: a table that does not exist, or a CHECK that fails. */
  datatype StoreError = NoSuchTable(table: string) | TableExists(table: string) | CheckFailed(column: string)

  /*
   * What each table holds at all times: rows that pass its CHECK constraints,
   * keyed 1, 2, 3, ... in insertion order, with the AUTOINCREMENT counter
   * `last` at the largest key. (Nothing here deletes a row, and a refused
   * INSERT does not advance the counter, so the keys have no gaps.)
   */

  ghost predicate ScanTable(rows: seq<ScanRow>, last: nat) {
    last == |rows| && forall i :: 0 <= i < |rows| ==> rows[i].scanId == i + 1 && rows[i].scanQuality in ScanQualities
  }

  ghost predicate DefectTable(rows: seq<DefectRow>, last: nat) {
    last == |rows| && forall i :: 0 <= i < |rows| ==>
      rows[i].defectId == i + 1 && rows[i].defectType in DefectTypes && rows[i].severity in Severities
  }

  ghost predicate MeasurementTable(rows: seq<MeasurementRow>, last: nat) {
    last == |rows| && forall i :: 0 <= i < |rows| ==>
      rows[i].measurementId == i + 1 && rows[i].measurementType in MeasurementTypes
  }

  ghost predicate RepairTable(rows: seq<RepairRow>, last: nat) {
    last == |rows| && forall i :: 0 <= i < |rows| ==> rows[i].repairId == i + 1 && rows[i].status in RepairStatuses
  }

  /** The database connection: the four tables and their AUTOINCREMENT counters. */
  class Store {
    /** Whether the four tables exist (they are created and dropped together). */
    var hasTables: bool
    var scans: seq<ScanRow>
    var defects: seq<DefectRow>
    var measurements: seq<MeasurementRow>
    var repairs: seq<RepairRow>
    /** The sqlite_sequence counters: the largest key each table has handed out. */
    var lastScanId: nat
    var lastDefectId: nat
    var lastMeasurementId: nat
    var lastRepairId: nat

    /**
     * Missing tables hold no rows and have no counter; every stored row
     * passes its table's CHECK constraints; keys are AUTOINCREMENT keys.
     */
    ghost predicate Valid()
      reads this
    {
      && (!hasTables ==> scans == [] && defects == [] && measurements == [] && repairs == [])
      && ScanTable(scans, lastScanId)
      && DefectTable(defects, lastDefectId)
      && MeasurementTable(measurements, lastMeasurementId)
      && RepairTable(repairs, lastRepairId)
    }

    /** The rows of the four tables. */
    function Contents(): Tables
      reads this
    {
      Tables(scans, defects, measurements, repairs)
    }

    /** Connecting to a database file that does not exist yet. */
    constructor ()
      ensures Valid() && !hasTables
    {
      hasTables := false;
      scans, defects, measurements, repairs := [], [], [], [];
      lastScanId, lastDefectId, lastMeasurementId, lastRepairId := 0, 0, 0, 0;
    }

    /**
     * DROP TABLE IF EXISTS on the four tables: every row is gone and, with
     * the tables, their AUTOINCREMENT counters.
     */
    method DropTables()
      modifies this
      ensures Valid() && !hasTables
    {
      hasTables := false;
      scans, defects, measurements, repairs := [], [], [], [];
      lastScanId, lastDefectId, lastMeasurementId, lastRepairId := 0, 0, 0, 0;
    }

    /** CREATE TABLE for the four tables, refused when they already exist. */
    method CreateTables() returns (err: Option<StoreError>)
      requires Valid()
      modifies this`hasTables
      ensures Valid() && hasTables
      ensures err.Some? <==> old(hasTables)
      ensures err.Some? ==> err.value == TableExists("scans")
    {
      if hasTables {
        err := Some(TableExists("scans"));
      } else {
        hasTables := true;
        err := None;
      }
    }

    /** INSERT INTO scans: the new row gets the next key, unless the table or the CHECK refuses it. */
    method InsertScan(location: string, roadSection: string, scanDate: int, filePath: string,
                      totalLengthM: real, scanQuality: string) returns (r: Result<nat, StoreError>)
      requires Valid()
      modifies this`scans, this`lastScanId
      ensures Valid()
      ensures !hasTables ==> r == Failure(NoSuchTable("scans"))
      ensures hasTables && scanQuality !in ScanQualities ==> r == Failure(CheckFailed("scan_quality"))
      ensures r.Failure? ==> scans == old(scans) && lastScanId == old(lastScanId)
      ensures hasTables && scanQuality in ScanQualities ==>
                r == Success(old(lastScanId) + 1) && lastScanId == r.value
                && scans == old(scans) + [ScanRow(r.value, location, roadSection, scanDate, filePath, totalLengthM, scanQuality)]
    {
      if !hasTables {
        return Failure(NoSuchTable("scans"));
      }
      if scanQuality !in ScanQualities {
        return Failure(CheckFailed("scan_quality"));
      }
      lastScanId := lastScanId + 1;
      scans := scans + [ScanRow(lastScanId, location, roadSection, scanDate, filePath, totalLengthM, scanQuality)];
      r := Success(lastScanId);
    }

    /**
     * INSERT INTO defects: the new row gets the next key, unless the table or
     * a CHECK refuses it (defect_type is checked before severity). The scan
     * key is stored as given: the foreign key is not enforced.
     */
    method InsertDefect(scanId: nat, defectType: string, depthCm: real, severity: string,
                        bboxX: int, bboxY: int, bboxWidth: int, bboxHeight: int,
                        confidence: real) returns (r: Result<nat, StoreError>)
      requires Valid()
      modifies this`defects, this`lastDefectId
      ensures Valid()
      ensures !hasTables ==> r == Failure(NoSuchTable("defects"))
      ensures hasTables && defectType !in DefectTypes ==> r == Failure(CheckFailed("defect_type"))
      ensures hasTables && defectType in DefectTypes && severity !in Severities ==>
                r == Failure(CheckFailed("severity"))
      ensures r.Failure? ==> defects == old(defects) && lastDefectId == old(lastDefectId)
      ensures hasTables && defectType in DefectTypes && severity in Severities ==>
                r == Success(old(lastDefectId) + 1) && lastDefectId == r.value
                && defects == old(defects) + [DefectRow(r.value, scanId, defectType, depthCm, severity,
                                                        bboxX, bboxY, bboxWidth, bboxHeight, confidence)]
    {
      if !hasTables {
        return Failure(NoSuchTable("defects"));
      }
      if defectType !in DefectTypes {
        return Failure(CheckFailed("defect_type"));
      }
      if severity !in Severities {
        return Failure(CheckFailed("severity"));
      }
      lastDefectId := lastDefectId + 1;
      defects := defects + [DefectRow(lastDefectId, scanId, defectType, depthCm, severity,
                                      bboxX, bboxY, bboxWidth, bboxHeight, confidence)];
      r := Success(lastDefectId);
    }

    /**
     * INSERT INTO measurements: the new row gets the next key and the
     * statement's timestamp `now`, unless the table or the CHECK refuses it.
     */
    method InsertMeasurement(defectId: nat, measurementType: string, valueCm: real,
                             calculationMethod: string, now: int) returns (r: Result<nat, StoreError>)
      requires Valid()
      modifies this`measurements, this`lastMeasurementId
      ensures Valid()
      ensures !hasTables ==> r == Failure(NoSuchTable("measurements"))
      ensures hasTables && measurementType !in MeasurementTypes ==> r == Failure(CheckFailed("measurement_type"))
      ensures r.Failure? ==> measurements == old(measurements) && lastMeasurementId == old(lastMeasurementId)
      ensures hasTables && measurementType in MeasurementTypes ==>
                r == Success(old(lastMeasurementId) + 1) && lastMeasurementId == r.value
                && measurements == old(measurements) + [MeasurementRow(r.value, defectId, measurementType, valueCm, calculationMethod, now)]
    {
      if !hasTables {
        return Failure(NoSuchTable("measurements"));
      }
      if measurementType !in MeasurementTypes {
        return Failure(CheckFailed("measurement_type"));
      }
      lastMeasurementId := lastMeasurementId + 1;
      measurements := measurements + [MeasurementRow(lastMeasurementId, defectId, measurementType, valueCm, calculationMethod, now)];
      r := Success(lastMeasurementId);
    }

    /** INSERT INTO repair_history: the new row gets the next key, unless the table or the CHECK refuses it. */
    method InsertRepair(defectId: nat, repairDate: int, repairType: string, costUsd: real,
                        contractor: string, status: string) returns (r: Result<nat, StoreError>)
      requires Valid()
      modifies this`repairs, this`lastRepairId
      ensures Valid()
      ensures !hasTables ==> r == Failure(NoSuchTable("repair_history"))
      ensures hasTables && status !in RepairStatuses ==> r == Failure(CheckFailed("status"))
      ensures r.Failure? ==> repairs == old(repairs) && lastRepairId == old(lastRepairId)
      ensures hasTables && status in RepairStatuses ==>
                r == Success(old(lastRepairId) + 1) && lastRepairId == r.value
                && repairs == old(repairs) + [RepairRow(r.value, defectId, repairDate, repairType, costUsd, contractor, status)]
    {
      if !hasTables {
        return Failure(NoSuchTable("repair_history"));
      }
      if status !in RepairStatuses {
        return Failure(CheckFailed("status"));
      }
      lastRepairId := lastRepairId + 1;
      repairs := repairs + [RepairRow(lastRepairId, defectId, repairDate, repairType, costUsd, contractor, status)];
      r := Success(lastRepairId);
    }
  }
}
