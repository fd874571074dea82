# GPR defect database and dashboard: a Dafny model

The repository is a small road-survey tool. Ground-penetrating-radar (GPR) scans of road sections are stored in a SQLite file together with the defects found in them, measurements of those defects and the repair history. A dashboard shows summary numbers and passes questions to an SQL-writing agent, whose trace it searches for the SQL statements it ran. This project models the three pieces of locally written logic in that tool and proves what they promise:

- `sql_extraction.dfy` (module `SqlExtraction`) models `extract_sql_from_output`. Six case-insensitive patterns are applied to the agent's trace in a fixed order. Each pattern's non-overlapping `findall` captures are collected, and `None` is reported instead of an empty list. Each pattern is a matcher written out by hand that makes the choices Python's backtracking engine makes. `ExtractSqlFromOutput` is the loop that extends the list, proved against the specification function `Extraction`.
- `schema.dfy` (module `Schema`) models the database file. It is a class `Store` holding the four tables as sequences of rows, plus their AUTOINCREMENT counters. DROP, CREATE and the four INSERTs change it in place. Each INSERT refuses a value outside its column's CHECK enumeration.
- `database_setup.dfy` (module `DatabaseSetup`) models `create_database`, the loops of `populate_sample_data` and the script's entry point. Every random draw is a parameter restricted to the range the script draws from, and each loop is a method proved against a function listing the rows it appends. `sample_properties.dfy` proves what those rows look like: counts, ranges, keys and references between tables.
- `relational.dfy` (module `Relational`) and `dashboard.dfy` (module `Dashboard`) model the three dashboard reads as functions of the table contents: `COUNT(*)` with a filter, `COUNT(*)` with `GROUP BY`, and the inner-join rollup by location ordered by defect count. `sample_dashboard.dfy` connects the dashboard to the data the setup script generates.
- `wrappers.dfy` holds `Option` and `Result`.

Conventions:
- Dates are day numbers, and `today` stands for `datetime.now()`.
- `now` is the timestamp SQLite stores for `CURRENT_TIMESTAMP`.
- REAL columns are Dafny reals.

## Model

| member | source | states |
|---|---|---|
| SqlExtraction.Extraction | app.py:64-75 | The list the six patterns of app.py:64-71 collect, applied in the order the constant `Patterns` lists them, with no contract of its own: ExtractionInPatternOrder shows it is the six findall results in pattern order, NothingFoundIffNoMatch shows when it is empty, and ExtractSqlFromOutput is proved against it. |
| SqlExtraction.ExtractSqlFromOutput | app.py:59-77 | The loop returns None exactly when every one of the six per-pattern findall lists is empty; otherwise it returns a non-empty list equal to the six lists concatenated in pattern order. |
| SqlExtraction.NothingFoundIffNoMatch | app.py:73-77 | The extraction is empty exactly when none of the six patterns matches at any position of the text. |
| SqlExtraction.ExtractionInPatternOrder | app.py:64-75 | The result is findall of pattern 1, then of pattern 2, and so on to pattern 6, one after the other, with nothing merged, reordered or removed. |
| SqlExtraction.SampleTraceReportedTwice | app.py:65-67 | On "Action Input: SELECT * FROM defects\nObservation: ..." the statement "SELECT * FROM defects" is reported, and it is reported at least twice: by pattern 1 and by the bare-SELECT pattern, since nothing removes duplicates. |
| SqlExtraction.CapturesShaped | app.py:65-70 | Captures of patterns 1 and 2 begin with SELECT, in any case, and contain no newline. Captures of patterns 3-6 begin with their verb and a white-space character, and contain their clause keyword (FROM, INTO, SET, FROM), after which they stay on one line. |
| SqlExtraction.ExtractedStatementsStartWithVerb | app.py:64-75 | Every reported string begins with SELECT, INSERT, UPDATE or DELETE, ignoring case. |
| SqlExtraction.SqlFreeTextYieldsNothing | app.py:64-77 | Text in which none of the words SELECT, INSERT, UPDATE, DELETE occurs, in any case, yields nothing. |
| SqlExtraction.FindAll | app.py:74 | Every string findall returns is a contiguous piece of the text. FindAllEmptyIff, ScanHitsAreMatches, FirstHitReported and Scan state the rest. |
| SqlExtraction.FindAllEmptyIff | app.py:74 | findall of one pattern is empty exactly when the pattern matches at no position. |
| SqlExtraction.ScanHitsAreMatches | app.py:74 | Every match findall reports is the match the pattern makes at the position where it was tried. |
| SqlExtraction.SkipNonMatching | app.py:74 | Positions where the pattern does not match are passed over without changing what findall reports. |
| SqlExtraction.FirstHitReported | app.py:74 | The leftmost match is the first one findall reports. |
| SqlExtraction.Scan | app.py:74 | Matches are reported left to right and do not overlap: each starts at or after the point where the previous one ended. |
| SqlExtraction.MatchAt | app.py:64-71 | A match tried at p starts at p, consumes at least one character, and its captured group lies within the match and begins with the pattern's verb. |
| SqlExtraction.MarkedMatch | app.py:65-66 | Patterns 1 and 2 tried at one position, with no contract of its own: MatchAt's contract covers it, and MatchShape and CapturesShaped state the shape of its capture. |
| SqlExtraction.StatementMatch | app.py:67-70 | Patterns 3 to 6 tried at one position, with no contract of its own: MatchAt's contract covers it, and MatchShape and CapturesShaped state the shape of its capture. |
| SqlExtraction.MatchShape | app.py:65-70 | The group a single match captures has its pattern's shape. |
| SqlExtraction.Fold | app.py:74 | IGNORECASE folding maps a character to a lower-case letter only when it is neither a newline nor white space, and it leaves newlines and white space alone. |
| SqlExtraction.IsSpace | app.py:65-70 | The characters `\s` matches in a str pattern: exactly those for which Python's str.isspace() holds. No contract of its own; SkipSpaces and Fold state how the matcher uses it. |
| SqlExtraction.KeywordAt | app.py:64-74 | A literal part of a pattern matched under IGNORECASE: each text character, folded by Fold, equals the lower-case pattern character. No contract of its own; FindKeyword and ExtractedStatementsStartWithVerb state what follows from it. |
| SqlExtraction.SkipSpaces | app.py:65 | Greedy `\s*` takes the whole white-space run and stops at the first non-space character or at the end of the text. |
| SqlExtraction.LineEnd | app.py:65-70 | The lazy run before `(?:\n\|$)` stops at the first newline or at the end of the text. |
| SqlExtraction.FindKeyword | app.py:66-70 | A lazy run before a keyword stops at the first later occurrence of the keyword, ignoring case, or finds none when the keyword does not occur. |
| SqlExtraction.CaptureToLineEnd | app.py:65-70 | A capture ends at the first newline after the given point, or at the end of the text; scanning resumes after the newline. |
| SqlExtraction.ConcatEmptyIff | app.py:75-77 | The concatenated list is empty exactly when every per-pattern list is. |
| SqlExtraction.InConcat | app.py:75 | Whatever the concatenated list holds comes from one of the per-pattern lists. |
| SqlExtraction.ConcatOfSix | app.py:73-75 | Six lists concatenated in order are the six lists one after the other. |
| Schema.Store.constructor | database_setup.py:8 | Connecting to a file that does not exist yet gives a store without tables. |
| Schema.Store.Valid | database_setup.py:17-72 | The invariant of the database file: without tables there are no rows; every stored row passes its table's CHECK; the keys of a table are 1, 2, 3, ... in insertion order, and its AUTOINCREMENT counter stands at the largest. No contract of its own; every Store method keeps it. |
| Schema.Store.DropTables | database_setup.py:11-15 | After DROP TABLE IF EXISTS on the four tables no table and no row remains, and the AUTOINCREMENT counters are back at zero, whatever the store held before. |
| Schema.Store.CreateTables | database_setup.py:17-72 | CREATE TABLE on a store without tables creates the four tables, empty. On a store that has them it is refused and changes nothing. |
| Schema.Store.InsertScan | database_setup.py:18-28 | The insert is refused when the table is missing or scan_quality is outside {excellent, good, fair, poor}, and a refusal changes nothing. Otherwise the row is appended with key last + 1, which is returned. |
| Schema.Store.InsertDefect | database_setup.py:31-45 | The insert is refused when the table is missing, defect_type is outside its five values, or severity is outside its four. Otherwise the row is appended with the next key, whatever scan_id it names, since the foreign key is not enforced. |
| Schema.Store.InsertMeasurement | database_setup.py:48-58 | The insert is refused when the table is missing or measurement_type is outside {length, width, area, volume}. Otherwise the row is appended with the next key and the statement's timestamp. |
| Schema.Store.InsertRepair | database_setup.py:61-72 | The insert is refused when the table is missing or status is outside {planned, in_progress, completed, verified}. Otherwise the row is appended with the next key. |
| DatabaseSetup.CreateDatabase | database_setup.py:6-75 | Whatever the store held, afterwards it has exactly the four tables, all empty, with every counter at zero. |
| DatabaseSetup.DecimalRoundTrip | database_setup.py:109 | The decimal notation of n reads back as n. |
| DatabaseSetup.Decimal | database_setup.py:109 | The decimal digits of n, at least one. A leading zero appears only for n = 0, so no notation longer than one digit starts with 0. |
| DatabaseSetup.DecimalWidth | database_setup.py:109 | n has one digit exactly when n < 10, at most two exactly when n < 100, and at most three exactly when n < 1000. |
| DatabaseSetup.ZeroPadded3 | database_setup.py:109 | The `{n:03d}` format: the decimal digits of n, with zeros in front up to three digits. No contract of its own; ZeroPaddedRoundTrip states it. |
| DatabaseSetup.ZeroPaddedRoundTrip | database_setup.py:109 | `{n:03d}` is all digits and reads back as n. It has exactly three digits when n < 1000. From 1000 on it starts with a non-zero digit, so nothing is padded. |
| DatabaseSetup.ScanFilePath | database_setup.py:109 | The path `/data/gpr_scans/scan_{n:03d}.h5`, with no contract of its own: ScanFilePathFormat, ScanFilePathInjective and ScanFilePathExamples state what it gives. |
| DatabaseSetup.ScanFilePathFormat | database_setup.py:109 | For every n, the path is `/data/gpr_scans/scan_`, then digits that read back as n, then `.h5`. There are exactly three digits for n < 1000 (so every sample scan), and no leading zero from 1000 on. |
| DatabaseSetup.ScanFilePathInjective | database_setup.py:109 | Different scan numbers give different file paths. |
| DatabaseSetup.ScanFilePathExamples | database_setup.py:109 | The first and the last sample paths are /data/gpr_scans/scan_001.h5 and /data/gpr_scans/scan_015.h5. |
| DatabaseSetup.DepthRange | database_setup.py:124-132 | The depth range by defect type: [2, 15] for crack, [10, 50] for cavity, [5, 30] for every other type. No contract of its own; SampleProperties.GeneratedDefectAt states that every sample depth lies in its type's range. |
| DatabaseSetup.Keys | database_setup.py:113 | The AUTOINCREMENT keys of `count` consecutive inserts starting at `first`; there are `count` of them. SampleProperties.KeysAt and KeysMembers state which keys they are. |
| DatabaseSetup.ChoicesAdmitted | database_setup.py:90-92 | Every quality, defect type, severity and status the script draws from passes its column's CHECK, and so do 'length' and 'width'. |
| DatabaseSetup.DrawsAdmitted | database_setup.py:99-181 | Draws within the script's ranges fit the loops' shapes, and every INSERT of the script accepts them. |
| DatabaseSetup.GeneratedScans | database_setup.py:99-113 | The rows the scan loop appends, with no contract of its own: SampleProperties.GeneratedScanAt and GeneratedScansDistinct state what each row holds. |
| DatabaseSetup.GeneratedDefects | database_setup.py:118-149 | The rows the defect loops append, with no contract of its own: SampleProperties.GeneratedDefectAt and DefectScanKey state what each row holds. |
| DatabaseSetup.GeneratedMeasurements | database_setup.py:153-164 | The rows the measurement loop appends, with no contract of its own: SampleProperties.GeneratedMeasurementsAt and MeasurementDefectKey state what each row holds. |
| DatabaseSetup.GeneratedRepairs | database_setup.py:168-181 | The rows the repair loop appends, with no contract of its own: SampleProperties.GeneratedRepairAt and RepairDefectKey state what each row holds. |
| DatabaseSetup.Populated | database_setup.py:94-181 | The four tables after one run, with no contract of its own: each keeps the old rows and appends the Generated rows above. InsertSampleData and PopulateSampleData are proved against it. |
| DatabaseSetup.SampleData | database_setup.py:193-194 | The four tables one run leaves in a freshly created database, with no contract of its own: SampleProperties.SampleDataCounts and the Sample...ReferTo... lemmas state its sizes and references. SetUpDatabase is proved against it. |
| DatabaseSetup.InsertScanPass | database_setup.py:100-113 | One pass of the scan loop appends the row for scan i and returns the key it was given. |
| DatabaseSetup.InsertSampleScans | database_setup.py:94-113 | The scan loop returns the keys first, first + 1, ... in order and appends exactly the rows GeneratedScans lists. The tables stay valid. |
| DatabaseSetup.ScansAppended | database_setup.py:99-113 | One more pass of the scan loop extends the loop's rows by that pass's row. |
| DatabaseSetup.InsertScanDefects | database_setup.py:120-149 | The inner defect loop appends one scan's defect rows, with consecutive keys, and returns those keys. |
| DatabaseSetup.InsertSampleDefects | database_setup.py:116-149 | The outer defect loop appends the rows GeneratedDefects lists, scan after scan, and returns all their keys in order. |
| DatabaseSetup.DefectsAppended | database_setup.py:118-149 | One more scan's batch extends the defect rows, and the count of defects drawn grows by that batch's size. |
| DatabaseSetup.KeysAppend | database_setup.py:149 | The keys of one batch following the keys before it are the keys of both batches together. |
| DatabaseSetup.InsertSampleMeasurements | database_setup.py:151-164 | For every defect, in order, the loop appends its length row, then its width row. |
| DatabaseSetup.MeasurementsAppended | database_setup.py:153-164 | One more pass of the measurement loop extends the rows by that defect's length row and width row. |
| DatabaseSetup.InsertSampleRepairs | database_setup.py:166-181 | The repair loop appends one record per draw, for the defect the draw picks, dated that many days before today. |
| DatabaseSetup.InsertScansAndDefects | database_setup.py:94-149 | The scan loop, then the defect loop over the new scan keys. |
| DatabaseSetup.InsertMeasurementsAndRepairs | database_setup.py:151-181 | The measurement loop, then the repair loop, over the new defect keys. |
| DatabaseSetup.PopulatedTables | database_setup.py:94-181 | The four tables the loops leave behind are the ones Populated describes. |
| DatabaseSetup.InsertSampleData | database_setup.py:94-183 | The four loops together turn the tables into Populated of the old tables and counters. |
| DatabaseSetup.PopulateSampleData | database_setup.py:77-189 | The draws are those of one run: 15 scan passes and 30 repair passes. Without tables the first INSERT is refused and nothing changes. With them, every new row is appended after the rows already there, as Populated describes: 15 more scans, one more defect per defect draw, two more measurements per defect and 30 more repair records. |
| DatabaseSetup.SetUpDatabase | database_setup.py:191-195 | Whatever the store held before, only one run's sample data remains: exactly 15 scans, 30 repair records, and two measurements per defect. Running the setup twice therefore leaves only the second run's rows. |
| SampleProperties.KeysAt | database_setup.py:113 | The i-th key handed out is first + i. |
| SampleProperties.KeysMembers | database_setup.py:113 | A key is among the keys handed out exactly when it lies in [first, first + count). |
| SampleProperties.ScansUpToAt | database_setup.py:99-113 | Row i of the scan loop's rows is the row of pass i. |
| SampleProperties.GeneratedScanAt | database_setup.py:99-113 | Scan i has key first + i, date today - 90 + 6i and path ScanFilePath(i + 1). Its location is one of the five pairs and its length lies in [100, 500]. Its quality is excellent, good or fair, passes the CHECK, and is never 'poor'. |
| SampleProperties.GeneratedScansDistinct | database_setup.py:99-113 | Two sample scans never share a file path, and scan j is 6(j - i) days after scan i. |
| SampleProperties.DrawOf | database_setup.py:134-148 | Every defect row is the row one particular draw produces. |
| SampleProperties.BatchUpToAt | database_setup.py:120-149 | Row j of one scan's batch is the row of draw j, with key first + j. |
| SampleProperties.DefectsUpToLocate | database_setup.py:118-149 | The k-th defect row has key first + k and comes from one draw of one scan's group. |
| SampleProperties.DefectsUpToAt | database_setup.py:118-149 | The k-th defect row has key first + k, names one of the given scans, and keeps the drawn ranges. |
| SampleProperties.GeneratedDefectAt | database_setup.py:118-149 | Every sample defect names one of the new scans. Its depth lies in the range for its type: [2,15] for cracks, [10,50] for cavities, [5,30] otherwise. Its box and confidence lie in their ranges, and its type and severity pass the CHECKs. |
| SampleProperties.DefectsDrawnBounds | database_setup.py:119 | With 5 to 15 defects per scan, n scans receive between 5n and 15n defects. |
| SampleProperties.MeasurementsUpToAt | database_setup.py:153-164 | Rows 2k and 2k + 1 of the measurement loop are defect k's length row and width row. |
| SampleProperties.GeneratedMeasurementsAt | database_setup.py:153-164 | Every defect gets exactly two measurements. The first is 'length', with method bbox or skeleton and a value in [10,150]. The second is 'width', with method bbox and a value in [5,50]. There are twice as many rows as defects. |
| SampleProperties.RepairsUpToAt | database_setup.py:168-181 | Row k of the repair loop is the row of draw k. |
| SampleProperties.GeneratedRepairAt | database_setup.py:168-181 | Every repair names one of the new defects and is dated within the last 60 days. Its cost lies in [500, 15000], its type and contractor are among the script's choices, and its status passes the CHECK. |
| SampleProperties.SampleDataCounts | database_setup.py:99-189 | A run on a fresh database inserts exactly 15 scans, between 75 and 225 defects, twice as many measurements as defects, and exactly 30 repair records. |
| SampleProperties.DefectScanKey | database_setup.py:118-149 | The scan key of every new defect lies among the keys given to the run's scans. |
| SampleProperties.MeasurementDefectKey | database_setup.py:153-164 | The defect key of every new measurement lies among the keys given to the run's defects. |
| SampleProperties.RepairDefectKey | database_setup.py:168-170 | The defect key of every new repair lies among the keys given to the run's defects. |
| SampleProperties.SampleDefectsReferToScans | database_setup.py:118-149 | In a fresh database every defect's scan_id lies in 1..number of scans, and a scan row with that scan_id exists. |
| SampleProperties.SampleMeasurementsReferToDefects | database_setup.py:153-164 | In a fresh database every measurement's defect_id lies in 1..number of defects, and a defect row with that defect_id exists. |
| SampleProperties.SampleRepairsReferToDefects | database_setup.py:168-181 | In a fresh database every repair's defect_id lies in 1..number of defects, and a defect row with that defect_id exists. |
| SampleProperties.SampleScanKeyAt | database_setup.py:99-113 | In a fresh database the j-th scan row has key j + 1. |
| SampleProperties.SampleDefectKeyAt | database_setup.py:118-149 | In a fresh database the j-th defect row has key j + 1. |
| Relational.CountIn | app.py:84-91 | A filtered COUNT(*) is at most the number of rows. |
| Relational.CountInAddValue | app.py:89-91 | Counting against one more value adds exactly that value's occurrences. |
| Relational.CountInSingle | app.py:86-88 | COUNT(*) WHERE column = v is the number of rows holding v. |
| Relational.CountInPair | app.py:89-91 | COUNT(*) WHERE column IN (a, b) is the number of rows holding a plus the number holding b. |
| Relational.CountInNothing | app.py:89-91 | Nothing is counted against an empty list of values. |
| Relational.CountInAll | app.py:118 | When every row's value is in the list, every row is counted. |
| Relational.Bump | app.py:100-102 | Accounting for one more row in a GROUP BY, with no contract of its own: BumpLookup, BumpKeys and BumpDistinct state what it does. |
| Relational.GroupCounts | app.py:100-102 | COUNT(*) with GROUP BY, with no contract of its own: GroupCountsTally and GroupCountsSpec state what it gives. |
| Relational.HasKeyCons | app.py:100-102 | A group for a key exists in a list of groups exactly when it is the first group or lies among the rest. |
| Relational.BumpLookup | app.py:100-102 | One more row with key k adds one to k's group and changes no other group. |
| Relational.BumpKeys | app.py:100-102 | One more row keeps every group and opens a group for its key when there was none. |
| Relational.BumpDistinct | app.py:100-102 | One more row keeps the group keys distinct and adds one to the total. |
| Relational.GroupCountsTally | app.py:100-102 | GROUP BY gives one group per distinct key. A key's group counts the rows carrying that key, and the counts sum to the number of rows. |
| Relational.LookupAt | app.py:100-102 | With distinct keys, a group's stored count is the count looked up by its key. |
| Relational.GroupCountsSpec | app.py:99-103 | Each group counts exactly the rows with its key, which is at least one. Every key present has a group, no key has two, and the counts sum to the number of rows. |
| Dashboard.GetDbStats | app.py:84-91 | total_scans and total_defects are the table sizes. critical_defects is at most total_defects, and pending_repairs at most the number of repair rows. |
| Dashboard.DbStatsCounts | app.py:84-91 | critical_defects is the number of defects with severity 'critical'. pending_repairs is the number of repairs planned plus the number in progress. |
| Dashboard.GetDefectDistribution | app.py:96-105 | get_defect_distribution, with no contract of its own: DefectDistributionSpec states its rows. |
| Dashboard.DefectDistributionSpec | app.py:99-103 | The distribution has one row per (defect_type, severity) pair present among the defects and no other row. Each row counts the defects with its pair, at least one, and the counts sum to the number of defects. |
| Dashboard.ScanMatches | app.py:117-118 | The pairs one defect contributes to the join number at most the scans; ScanMatchesSize gives their exact number. |
| Dashboard.JoinDefectsScans | app.py:117-118 | The inner join of defects with scans, with no contract of its own: JoinSize, ScanMatchesSize and SampleDashboard.SampleDefectsAllJoin state its size. |
| Dashboard.Rollup | app.py:113-116 | One row per location group: its location, its count and its number of 'critical' joined defects. No contract of its own; LocationStatsRows, CriticalWithinLocation and RollupSum state it. |
| Dashboard.ScanKeys | app.py:118 | The scan keys are exactly the scan_id values present in the scans table. |
| Dashboard.GetLocationStats | app.py:108-123 | get_location_stats, with no contract of its own: LocationStatsSpec, LocationStatsRows, LocationStatsCover, LocationStatsEmpty and LocationCountsCoverJoinedDefects state its rows. |
| Dashboard.LocationStatsSpec | app.py:111-121 | Rows come in non-increasing defect_count order. Each row counts its location's joined defects, at least one, and critical_count is both the number of them that are critical and at most defect_count. Every joined location has a row, no location has two, and the counts sum to the size of the join. |
| Dashboard.LocationStatsDistinct | app.py:119 | GROUP BY s.location yields one row per location: no two rows share a location. |
| Dashboard.SortByCountDistinct | app.py:120 | Sorting by defect_count keeps the locations distinct. |
| Dashboard.InsertByCountDistinct | app.py:120 | Inserting a row for a location not yet present keeps the locations distinct. |
| Dashboard.LocationStatsRows | app.py:111-121 | One row's defect_count and critical_count are those of its location, and critical_count is at most defect_count. |
| Dashboard.LocationStatsCover | app.py:111-121 | Every location that occurs in the join has a row. |
| Dashboard.LocationStatsEmpty | app.py:111-121 | The result is empty exactly when no defect joins a scan, and in particular when there are no defects. |
| Dashboard.LocationCountsCoverJoinedDefects | app.py:111-121 | With unique scan keys, the defect counts sum to the number of defects whose scan_id names an existing scan: the join is inner. |
| Dashboard.JoinSize | app.py:117-118 | With unique scan keys, the inner join holds one pair per defect whose scan_id names an existing scan. |
| Dashboard.ValidScanKeysUnique | database_setup.py:17-19 | In any valid database no two scans share a scan_id, as INTEGER PRIMARY KEY AUTOINCREMENT guarantees. |
| Dashboard.ScanMatchesSize | app.py:117-118 | With unique scan keys, a defect joins one scan when its scan_id names one, and none otherwise. |
| Dashboard.CriticalWithinLocation | app.py:116 | A location has no more critical defects in the join than defects altogether. |
| Dashboard.RollupSum | app.py:114 | The rollup's defect counts add up to the group counts. |
| Dashboard.SortByCountSpec | app.py:120 | ORDER BY defect_count DESC orders the rows largest first and keeps exactly the same rows, as a permutation, and so the same total. |
| Dashboard.SortByCount | app.py:120 | ORDER BY defect_count DESC, with no contract of its own: SortByCountSpec states its result. |
| Dashboard.InsertByCount | app.py:120 | One insertion step of that sort, with no contract of its own: InsertByCountSorted, InsertByCountKeeps and InsertByCountBounded state its result. |
| Dashboard.SortByCountSorted | app.py:120 | Sorting orders the rows by count, largest first. |
| Dashboard.SortByCountKeeps | app.py:120 | Sorting keeps the same multiset of rows and the same total. |
| Dashboard.InsertByCountSorted | app.py:120 | Inserting a row into rows ordered by count keeps them ordered. |
| Dashboard.InsertByCountKeeps | app.py:120 | Inserting a row adds exactly that row and its count. |
| Dashboard.InsertByCountBounded | app.py:120 | Inserting a row that respects a bound keeps every count under that bound. |
| Dashboard.ConsDescending | app.py:120 | A row placed in front of rows it counts at least as much as keeps the order. |
| SampleDashboard.GeneratedScanKeysUnique | database_setup.py:99-113 | The scan loop hands out distinct scan keys. |
| SampleDashboard.SampleDefectsAllJoin | app.py:117-118 | On a freshly generated database every defect joins its scan. |
| SampleDashboard.SampleLocationStatsCoverAllDefects | app.py:111-121 | On a freshly generated database the per-location defect counts add up to the number of defects. |
| SampleDashboard.BatchScanIdCount | database_setup.py:120-149 | Every row of one scan's inner defect loop carries that scan's key, and no other key occurs in it. |
| SampleDashboard.DefectsStep | database_setup.py:118-149 | One more pass of the outer defect loop adds its defects to its own scan's key and to no other. |
| SampleDashboard.DefectsOfNoScan | database_setup.py:118-149 | A key that none of the scans carries names none of the defects. |
| SampleDashboard.DefectsOfScan | database_setup.py:118-149 | With distinct scan keys, each scan receives exactly as many defects as were drawn for it. |
| SampleDashboard.KeysDistinct | database_setup.py:113 | AUTOINCREMENT hands out distinct keys. |
| SampleDashboard.DefectsPerScanKey | database_setup.py:99-149 | Scan x of the loop has as many defects as were drawn for it, and any other key has none. |
| SampleDashboard.SampleDefectsPerScan | database_setup.py:118-149 | In a fresh database each scan has between 5 and 15 defects, as `randint(5, 15)` draws, and a key no scan carries has no defect. |
| SampleDashboard.SampleDbStats | app.py:84-91 | On a freshly generated database the dashboard reports 15 scans, between 75 and 225 defects, and at most 30 pending repairs. |

## Left out

- The Streamlit interface, its layout, CSS, charts, session state, query history and buttons: presentation only.
- `st.cache_data` caching and the capture of the agent's standard output: framework plumbing.
- The SQL agent in gpr_agent.py: it wraps a language-model call and a foreign library. gpr_agent.py is not part of this model.
- The automatic setup at app.py:16-20, which runs the setup when the file is missing: it tests for a file on disk. Its effect is `SetUpDatabase` on a store without tables.
- SQLite connections, cursors, `commit`, `close` and pandas `read_sql`: the tables are sequences in memory.
- Foreign keys are not enforced, and nothing here enforces them either: an INSERT stores whatever key it is given. What the model proves instead is that the generated rows refer to existing rows.
- NULL values: the script never inserts one.
- `datetime.now()`: it is the parameter `today`, and dates are day numbers. The script reads the clock once for the scan dates (database_setup.py:95) and again on every repair pass (database_setup.py:170); the model uses one `today` for all of them, so its dates are the script's only when a run does not cross midnight. Formatting them as 'YYYY-MM-DD' text is not modelled.
- `CURRENT_TIMESTAMP`: it is the parameter `now`, the same for every measurement row of one run. SQLite evaluates it once per INSERT statement, so the script's measurement rows share one timestamp only when the measurement loop finishes within one wall-clock second.
- Random draws: each is a parameter constrained to the range its call can produce. The probability weights of `random.choices` are not modelled. Every severity has a positive weight for every defect type, so the set of possible severities is the same.
- Floating point: `random.uniform` values and the `round(...)` to two or three decimals are reals within the drawn bounds.
- `avg_depth` (app.py:115): a floating-point average, left out of `LocationStat`.
- The Defects/Scan ratio shown in the interface: floating point and presentation.
- The `print` progress messages of the setup script.
- Row order of `GROUP BY`: SQL promises none. The model lists groups in the order their keys first occur and proves only order-free properties of them.
- Row order among locations with the same defect_count under `ORDER BY defect_count DESC`: SQL promises none, and `SortByCount` keeps rows with equal counts in one particular order. The proved properties do not depend on it.
- Unicode beyond the characters the regular-expression engine folds and counts as white space: `Fold` and `IsSpace` list exactly the characters Python's `re` treats specially for these patterns.
