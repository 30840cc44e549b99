/**
 * The data-validation stage: drop columns with too many missing values, check
 * that the current frames carry every column the base frame kept, and judge
 * per-column distribution drift from a two-sample test's p-value. Every step
 * records its finding in the report dictionary held by the validator.
 */
module Validation {
  import opened Common
  import opened Frames

  /** A p-value above this level means "same distribution". */
  const SignificanceLevel: real := 0.05

  /** The seven keys of the validation report; `Name` is the key written to the report file. */
  datatype ReportKey =
    | MissingValuesInBase | MissingValuesInTrain | MissingValuesInTest
    | MissingColumnsInTrain | MissingColumnsInTest
    | DriftInTrain | DriftInTest
  {
    function Name(): string
    {
      match this
      case MissingValuesInBase => "missing_values_within_base_dataset"
      case MissingValuesInTrain => "missing_values_within_train_dataset"
      case MissingValuesInTest => "missing_values_within_test_dataset"
      case MissingColumnsInTrain => "missing_columns_within_train_dataset"
      case MissingColumnsInTest => "missing_columns_within_test_dataset"
      case DriftInTrain => "data_drift_within_train_data"
      case DriftInTest => "data_drift_within_test_dataset"
    }
  }

  datatype DriftEntry = DriftEntry(pvalue: real, sameDistribution: bool)

  /** One value of the validation report: a list of column names, or a drift report in base-column order. */
  datatype ReportValue =
    | ColumnList(names: seq<string>)
    | DriftReport(entries: seq<(string, DriftEntry)>)

  type Report = map<ReportKey, ReportValue>

  /** The two-sample Kolmogorov-Smirnov test, reduced to the p-value it yields for two columns. */
  type KsTest = (seq<Cell>, seq<Cell>) -> real

  /** The full pass stops when a cleaned frame has no column left. */
  datatype ValidationError = NoUsableColumns

  /**
   * The null fraction of a column is above the threshold. With no rows pandas
   * divides 0 by 0, which gives NaN, and NaN compares false.
   */
  predicate TooManyNulls(c: Column, rows: nat, threshold: real)
    ensures rows == 0 ==> !TooManyNulls(c, rows, threshold)
    ensures TooManyNulls(c, rows, threshold) && threshold >= 0.0 ==> Missing in c.cells
    ensures threshold < 0.0 && rows > 0 ==> TooManyNulls(c, rows, threshold)
  {
    rows > 0 && (NullCount(c.cells) as real) / (rows as real) > threshold
  }

  /** The labels of the columns to drop, in frame order. */
  function DropList(cols: seq<Column>, rows: nat, threshold: real): (r: seq<string>)
    ensures |r| <= |cols|
    ensures forall n :: n in r <==> exists c :: c in cols && c.name == n && TooManyNulls(c, rows, threshold)
  {
    if cols == [] then []
    else
      assert cols == [cols[0]] + cols[1..];
      (if TooManyNulls(cols[0], rows, threshold) then [cols[0].name] else []) + DropList(cols[1..], rows, threshold)
  }

  /**
   * The frame's columns after the drop: every kept column is sparse enough,
   * and, labels being unique, every sparse enough column is kept.
   */
  function Cleaned(cols: seq<Column>, rows: nat, threshold: real): (r: seq<Column>)
    ensures |r| <= |cols|
    ensures forall c :: c in r ==> c in cols && !TooManyNulls(c, rows, threshold)
    ensures DistinctNames(cols) ==> forall c :: c in cols && !TooManyNulls(c, rows, threshold) ==> c in r
  {
    Without(cols, DropList(cols, rows, threshold))
  }

  lemma {:induction false} NoDropListWhenSparse(cols: seq<Column>, rows: nat, threshold: real)
    requires forall c :: c in cols ==> !TooManyNulls(c, rows, threshold)
    ensures DropList(cols, rows, threshold) == []
  {
    if cols != [] {
      NoDropListWhenSparse(cols[1..], rows, threshold);
    }
  }

  /** Running the drop again on its own output drops nothing and leaves the columns as they are. */
  lemma DropIdempotent(cols: seq<Column>, rows: nat, threshold: real)
    ensures DropList(Cleaned(cols, rows, threshold), rows, threshold) == []
    ensures Cleaned(Cleaned(cols, rows, threshold), rows, threshold) == Cleaned(cols, rows, threshold)
  {
    var kept := Cleaned(cols, rows, threshold);
    NoDropListWhenSparse(kept, rows, threshold);
    WithoutNothing(kept);
  }

  /** The base columns absent from the current frame, in base-column order. */
  function MissingColumns(base: seq<string>, current: seq<string>): (r: seq<string>)
    ensures |r| <= |base|
    ensures forall n :: n in r <==> n in base && n !in current
  {
    if base == [] then []
    else
      var last := base[|base| - 1];
      assert base == base[..|base| - 1] + [last];
      MissingColumns(base[..|base| - 1], current) + (if last in current then [] else [last])
  }

  /** The required-columns check passes exactly when nothing is missing. */
  lemma {:induction false} NothingMissing(base: seq<string>, current: seq<string>)
    ensures MissingColumns(base, current) == [] <==> forall n :: n in base ==> n in current
  {
    if MissingColumns(base, current) != [] {
      assert MissingColumns(base, current)[0] in MissingColumns(base, current);
    }
  }

  /** Every column of the base frame is present in the current frame. */
  predicate HasRequiredColumns(base: seq<Column>, current: seq<Column>)
  {
    MissingColumns(Names(base), Names(current)) == []
  }

  /** The drift verdict for one p-value. */
  function Judge(pvalue: real): DriftEntry
  {
    DriftEntry(pvalue, pvalue > SignificanceLevel)
  }

  /** The drift entry of one base column against the same-named current column. */
  function EntryFor(c: Column, current: seq<Column>, ks: KsTest): (e: (string, DriftEntry))
    requires c.name in Names(current)
  {
    (c.name, Judge(ks(c.cells, Lookup(current, c.name).value.cells)))
  }

  lemma EveryNameIn(base: seq<Column>, current: seq<Column>)
    requires forall n :: n in Names(base) ==> n in Names(current)
    ensures forall i :: 0 <= i < |base| ==> base[i].name in Names(current)
  {
    forall i | 0 <= i < |base| ensures base[i].name in Names(current) {
      assert Names(base)[i] == base[i].name;
      assert Names(base)[i] in Names(base);
    }
  }

  /** The drift report for two frames, one entry per base column in base order. */
  function DriftReportOf(base: seq<Column>, current: seq<Column>, ks: KsTest): (r: seq<(string, DriftEntry)>)
    requires HasRequiredColumns(base, current)
    ensures |r| == |base|
    ensures forall i :: 0 <= i < |base| ==>
      r[i].0 == base[i].name && (r[i].1.sameDistribution <==> r[i].1.pvalue > SignificanceLevel)
  {
    NothingMissing(Names(base), Names(current));
    EveryNameIn(base, current);
    seq(|base|, i requires 0 <= i < |base| => EntryFor(base[i], current, ks))
  }

  /**
   * One entry per base column, in base order; each keeps the test's p-value and
   * says "same distribution" exactly when that p-value is above 0.05, so a
   * p-value of exactly 0.05 counts as drift.
   */
  lemma DriftReportEntries(base: seq<Column>, current: seq<Column>, ks: KsTest)
    requires HasRequiredColumns(base, current)
    ensures |DriftReportOf(base, current, ks)| == |base|
    ensures forall i :: 0 <= i < |base| ==>
      var e := DriftReportOf(base, current, ks)[i];
      e.0 == base[i].name &&
      Lookup(current, base[i].name).Some? &&
      e.1.pvalue == ks(base[i].cells, Lookup(current, base[i].name).value.cells) &&
      (e.1.sameDistribution <==> e.1.pvalue > SignificanceLevel)
  {
    NothingMissing(Names(base), Names(current));
    EveryNameIn(base, current);
  }

  class DataValidation {
    const threshold: real
    var validationError: Report

    constructor (threshold: real)
      ensures this.threshold == threshold && validationError == map[]
    {
      this.threshold := threshold;
      validationError := map[];
    }

    /**
     * Drop the columns whose null fraction is above the threshold, record their
     * labels under `reportKeyName`, and return the frame, or null when no
     * column is left.
     */
    method DroppedMissingColumnValues(df: Frame, reportKeyName: ReportKey) returns (r: Frame?)
      requires df.Valid()
      modifies this, df
      ensures df.Valid() && df.rows == old(df.rows)
      ensures df.columns == Cleaned(old(df.columns), old(df.rows), threshold)
      ensures validationError == old(validationError)[reportKeyName := ColumnList(DropList(old(df.columns), old(df.rows), threshold))]
      ensures r == if df.columns == [] then null else df
    {
      var dropColumnNames := DropList(df.columns, df.rows, threshold);
      validationError := validationError[reportKeyName := ColumnList(dropColumnNames)];
      forall n | n in dropColumnNames ensures n in Names(df.columns) {
        var c :| c in df.columns && c.name == n && TooManyNulls(c, df.rows, threshold);
        NameInNames(df.columns, c);
      }
      df.Drop(dropColumnNames);
      if |df.columns| == 0 {
        return null;
      }
      return df;
    }

    /**
     * True when every base column is in the current frame; otherwise the
     * missing labels are recorded under `reportKeyName`.
     */
    method DoRequiredColumnsExists(baseDf: Frame, currentDf: Frame, reportKeyName: ReportKey) returns (ok: bool)
      modifies this
      ensures ok <==> HasRequiredColumns(baseDf.columns, currentDf.columns)
      ensures validationError ==
        if ok then old(validationError)
        else old(validationError)[reportKeyName := ColumnList(MissingColumns(Names(baseDf.columns), Names(currentDf.columns)))]
    {
      var baseColumns := Names(baseDf.columns);
      var currentColumns := Names(currentDf.columns);
      var missingColumns := [];
      var i := 0;
      while i < |baseColumns|
        invariant 0 <= i <= |baseColumns|
        invariant missingColumns == MissingColumns(baseColumns[..i], currentColumns)
      {
        assert baseColumns[..i + 1][..i] == baseColumns[..i];
        if baseColumns[i] !in currentColumns {
          missingColumns := missingColumns + [baseColumns[i]];
        }
        i := i + 1;
      }
      assert baseColumns[..i] == baseColumns;
      NothingMissing(baseColumns, currentColumns);
      if |missingColumns| > 0 {
        validationError := validationError[reportKeyName := ColumnList(missingColumns)];
        return false;
      }
      return true;
    }

    /**
     * Record under `reportKeyName` one drift entry per base column. A base
     * column absent from the current frame raises (KeyError) and leaves the
     * report untouched.
     */
    method DataDrift(baseDf: Frame, currentDf: Frame, reportKeyName: ReportKey, ks: KsTest) returns (ok: bool)
      modifies this
      ensures ok <==> HasRequiredColumns(baseDf.columns, currentDf.columns)
      ensures ok ==> validationError == old(validationError)[reportKeyName := DriftReport(DriftReportOf(baseDf.columns, currentDf.columns, ks))]
      ensures !ok ==> validationError == old(validationError)
    {
      var baseColumns := baseDf.columns;
      var currentColumns := currentDf.columns;
      var driftReport := [];
      var i := 0;
      while i < |baseColumns|
        invariant 0 <= i <= |baseColumns|
        invariant forall j :: 0 <= j < i ==> baseColumns[j].name in Names(currentColumns)
        invariant |driftReport| == i
        invariant forall j :: 0 <= j < i ==>
          driftReport[j] == EntryFor(baseColumns[j], currentColumns, ks)
      {
        var currentData := Lookup(currentColumns, baseColumns[i].name);
        if currentData.None? {
          assert Names(baseColumns)[i] == baseColumns[i].name;
          NothingMissing(Names(baseColumns), Names(currentColumns));
          return false;
        }
        driftReport := driftReport + [EntryFor(baseColumns[i], currentColumns, ks)];
        i := i + 1;
      }
      forall n | n in Names(baseColumns) ensures n in Names(currentColumns) {
        var j :| 0 <= j < |baseColumns| && Names(baseColumns)[j] == n;
      }
      NothingMissing(Names(baseColumns), Names(currentColumns));
      assert driftReport == DriftReportOf(baseColumns, currentColumns, ks);
      validationError := validationError[reportKeyName := DriftReport(driftReport)];
      return true;
    }

    /**
     * The second half of the full pass: the required-columns check of the
     * train and the test frame, then the drift test of each frame that passed.
     */
    method CheckColumnsAndDrift(baseDf: Frame, trainDf: Frame, testDf: Frame, ks: KsTest)
      modifies this
      ensures DropEntriesKept(old(validationError), validationError)
      ensures TrainChecked(old(validationError), validationError, baseDf.columns, trainDf.columns, ks)
      ensures TestChecked(old(validationError), validationError, baseDf.columns, testDf.columns, ks)
    {
      var trainOk := DoRequiredColumnsExists(baseDf, trainDf, MissingColumnsInTrain);
      var testOk := DoRequiredColumnsExists(baseDf, testDf, MissingColumnsInTest);
      if trainOk {
        var _ := DataDrift(baseDf, trainDf, DriftInTrain, ks);
      }
      if testOk {
        var _ := DataDrift(baseDf, testDf, DriftInTest, ks);
      }
    }

    /**
     * The first half of the full pass: replace "na" in the base frame, then
     * drop sparse columns from the base, train and test frames in that order.
     */
    method DropSparseColumns(baseDf: Frame, trainDf: Frame, testDf: Frame)
      returns (base: Frame?, train: Frame?, test: Frame?)
      requires baseDf.Valid() && trainDf.Valid() && testDf.Valid()
      requires baseDf != trainDf && baseDf != testDf && trainDf != testDf
      modifies this, baseDf, trainDf, testDf
      ensures baseDf.Valid() && trainDf.Valid() && testDf.Valid()
      ensures baseDf.columns == Cleaned(NaReplacedColumns(old(baseDf.columns)), old(baseDf.rows), threshold)
      ensures trainDf.columns == Cleaned(old(trainDf.columns), old(trainDf.rows), threshold)
      ensures testDf.columns == Cleaned(old(testDf.columns), old(testDf.rows), threshold)
      ensures base == null <==> baseDf.columns == []
      ensures train == null <==> trainDf.columns == []
      ensures test == null <==> testDf.columns == []
      ensures validationError == old(validationError)
        [MissingValuesInBase := ColumnList(DropList(NaReplacedColumns(old(baseDf.columns)), old(baseDf.rows), threshold))]
        [MissingValuesInTrain := ColumnList(DropList(old(trainDf.columns), old(trainDf.rows), threshold))]
        [MissingValuesInTest := ColumnList(DropList(old(testDf.columns), old(testDf.rows), threshold))]
    {
      baseDf.ReplaceNa();
      base := DroppedMissingColumnValues(baseDf, MissingValuesInBase);
      train := DroppedMissingColumnValues(trainDf, MissingValuesInTrain);
      test := DroppedMissingColumnValues(testDf, MissingValuesInTest);
    }

    /**
     * The full pass: replace "na" in the base frame, drop sparse columns from
     * the three frames, stop when one of them is left without columns, then
     * check required columns and run the drift test only on the frames that
     * passed. The returned report is what gets written to the report file.
     */
    method InitiateDataValidation(baseDf: Frame, trainDf: Frame, testDf: Frame, ks: KsTest)
      returns (r: Result<Report, ValidationError>)
      requires baseDf.Valid() && trainDf.Valid() && testDf.Valid()
      requires baseDf != trainDf && baseDf != testDf && trainDf != testDf
      modifies this, baseDf, trainDf, testDf
      ensures baseDf.Valid() && trainDf.Valid() && testDf.Valid()
      ensures baseDf.columns == Cleaned(NaReplacedColumns(old(baseDf.columns)), old(baseDf.rows), threshold)
      ensures trainDf.columns == Cleaned(old(trainDf.columns), old(trainDf.rows), threshold)
      ensures testDf.columns == Cleaned(old(testDf.columns), old(testDf.rows), threshold)
      ensures r.Err? <==> baseDf.columns == [] || trainDf.columns == [] || testDf.columns == []
      ensures DropsRecorded(validationError,
                            DropList(NaReplacedColumns(old(baseDf.columns)), old(baseDf.rows), threshold),
                            DropList(old(trainDf.columns), old(trainDf.rows), threshold),
                            DropList(old(testDf.columns), old(testDf.rows), threshold))
      ensures r.Ok? ==> r.value == validationError
      ensures r.Ok? ==> TrainChecked(old(validationError), validationError, baseDf.columns, trainDf.columns, ks)
      ensures r.Ok? ==> TestChecked(old(validationError), validationError, baseDf.columns, testDf.columns, ks)
    {
      ghost var before := validationError;
      var base, train, test := DropSparseColumns(baseDf, trainDf, testDf);
      ghost var mid := validationError;
      r := CheckUnlessEmpty(base, train, test, baseDf, trainDf, testDf, ks);
      if r.Ok? {
        ChecksSurviveDrops(before, mid, validationError, baseDf.columns, trainDf.columns, ks, MissingColumnsInTrain, DriftInTrain);
        ChecksSurviveDrops(before, mid, validationError, baseDf.columns, testDf.columns, ks, MissingColumnsInTest, DriftInTest);
      }
    }

    /**
     * Stop with an error when a frame was left without columns; otherwise run
     * the required-columns and drift checks and return the report.
     */
    method CheckUnlessEmpty(base: Frame?, train: Frame?, test: Frame?, baseDf: Frame, trainDf: Frame, testDf: Frame,
                            ks: KsTest) returns (r: Result<Report, ValidationError>)
      modifies this
      ensures r.Err? <==> base == null || train == null || test == null
      ensures r.Err? ==> validationError == old(validationError)
      ensures r.Ok? ==> r.value == validationError
      ensures DropEntriesKept(old(validationError), validationError)
      ensures r.Ok? ==> TrainChecked(old(validationError), validationError, baseDf.columns, trainDf.columns, ks)
      ensures r.Ok? ==> TestChecked(old(validationError), validationError, baseDf.columns, testDf.columns, ks)
    {
      if base == null || train == null || test == null {
        return Err(NoUsableColumns);
      }
      CheckColumnsAndDrift(baseDf, trainDf, testDf, ks);
      return Ok(validationError);
    }
  }

  /**
   * Recording the drop lists first does not change what the column and drift
   * checks leave in the report.
   */
  lemma ChecksSurviveDrops(before: Report, mid: Report, after: Report, base: seq<Column>, current: seq<Column>,
                           ks: KsTest, missingKey: ReportKey, driftKey: ReportKey)
    requires !missingKey.MissingValuesInBase? && !missingKey.MissingValuesInTrain? && !missingKey.MissingValuesInTest?
    requires !driftKey.MissingValuesInBase? && !driftKey.MissingValuesInTrain? && !driftKey.MissingValuesInTest?
    requires MissingValuesInBase in mid && MissingValuesInTrain in mid && MissingValuesInTest in mid
    requires mid == before[MissingValuesInBase := mid[MissingValuesInBase]][MissingValuesInTrain := mid[MissingValuesInTrain]]
                          [MissingValuesInTest := mid[MissingValuesInTest]]
    requires Checked(mid, after, base, current, ks, missingKey, driftKey)
    ensures Checked(before, after, base, current, ks, missingKey, driftKey)
  {
  }

  /** The report holds the three drop lists. */
  predicate DropsRecorded(report: Report, baseDrops: seq<string>, trainDrops: seq<string>, testDrops: seq<string>)
  {
    MissingValuesInBase in report && report[MissingValuesInBase] == ColumnList(baseDrops) &&
    MissingValuesInTrain in report && report[MissingValuesInTrain] == ColumnList(trainDrops) &&
    MissingValuesInTest in report && report[MissingValuesInTest] == ColumnList(testDrops)
  }

  /** The report's drop-list entries are those of `before`. */
  ghost predicate DropEntriesKept(before: Report, after: Report)
  {
    forall k: ReportKey :: k.MissingValuesInBase? || k.MissingValuesInTrain? || k.MissingValuesInTest? ==>
      (k in after <==> k in before) && (k in before ==> after[k] == before[k])
  }

  /** The report's entries about one current frame after the full pass. */
  ghost predicate Checked(before: Report, after: Report, base: seq<Column>, current: seq<Column>, ks: KsTest,
                          missingKey: ReportKey, driftKey: ReportKey)
  {
    var passed := HasRequiredColumns(base, current);
    (passed ==>
      driftKey in after && after[driftKey] == DriftReport(DriftReportOf(base, current, ks)) &&
      (missingKey in after <==> missingKey in before) &&
      (missingKey in before ==> after[missingKey] == before[missingKey])) &&
    (!passed ==>
      missingKey in after && after[missingKey] == ColumnList(MissingColumns(Names(base), Names(current))) &&
      (driftKey in after <==> driftKey in before) &&
      (driftKey in before ==> after[driftKey] == before[driftKey]))
  }

  ghost predicate TrainChecked(before: Report, after: Report, base: seq<Column>, train: seq<Column>, ks: KsTest)
  {
    Checked(before, after, base, train, ks, MissingColumnsInTrain, DriftInTrain)
  }

  ghost predicate TestChecked(before: Report, after: Report, base: seq<Column>, test: seq<Column>, ks: KsTest)
  {
    Checked(before, after, base, test, ks, MissingColumnsInTest, DriftInTest)
  }
}
