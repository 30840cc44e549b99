/**
 * Batch prediction: read an input frame, mark "na" cells missing, predict
 * with the latest bundle, append the numeric and the decoded prediction, and
 * derive the output path from the input's file name and the current time.
 */
module BatchPrediction {
  import opened Common
  import opened Frames
  import opened Models

  const PredictionDir: string := "prediction"
  const CsvExtension: string := ".csv"
  const PredictionColumn: string := "prediction"
  const CategoryColumn: string := "cat_pred"

  /** The fields of `datetime.now()` that the file-name stamp prints. */
  datatype Timestamp = Timestamp(month: nat, day: nat, hour: nat, minute: nat, second: nat)

  predicate ValidTimestamp(t: Timestamp)
  {
    1 <= t.month <= 12 && 1 <= t.day <= 31 && t.hour < 24 && t.minute < 60 && t.second < 60
  }

  predicate IsDigit(c: char)
  {
    '0' <= c <= '9'
  }

  function DigitChar(d: nat): (c: char)
    requires d < 10
    ensures IsDigit(c) && (c as int) - ('0' as int) == d
  {
    (('0' as int) + d) as char
  }

  /** `%02d`-style zero-padded two-digit field. */
  function TwoDigits(n: nat): (r: string)
    requires n < 100
    ensures |r| == 2 && IsDigit(r[0]) && IsDigit(r[1])
  {
    [DigitChar(n / 10), DigitChar(n % 10)]
  }

  function ParseTwoDigits(s: string): Option<nat>
    requires |s| == 2
  {
    if IsDigit(s[0]) && IsDigit(s[1]) then
      Some(((s[0] as int) - ('0' as int)) * 10 + ((s[1] as int) - ('0' as int)))
    else None
  }

  lemma TwoDigitsRoundTrip(n: nat)
    requires n < 100
    ensures ParseTwoDigits(TwoDigits(n)) == Some(n)
  {
  }

  /** `strftime('%m%d%H__%H%M%S')`: month, day, hour, "__", hour again, minute, second. */
  function Stamp(t: Timestamp): (r: string)
    requires ValidTimestamp(t)
    ensures |r| == 14
    ensures r[6..8] == "__"
    ensures r[4..6] == r[8..10]
    ensures forall i :: 0 <= i < |r| ==> IsDigit(r[i]) || r[i] == '_'
  {
    TwoDigits(t.month) + TwoDigits(t.day) + TwoDigits(t.hour) + "__" +
    TwoDigits(t.hour) + TwoDigits(t.minute) + TwoDigits(t.second)
  }

  /** Reads a stamp back; the two hour fields must agree. */
  function ParseStamp(s: string): Option<Timestamp>
  {
    if |s| != 14 || s[6..8] != "__" then None
    else
      var month, day, hour := ParseTwoDigits(s[0..2]), ParseTwoDigits(s[2..4]), ParseTwoDigits(s[4..6]);
      var hourAgain, minute, second := ParseTwoDigits(s[8..10]), ParseTwoDigits(s[10..12]), ParseTwoDigits(s[12..14]);
      if month.None? || day.None? || hour.None? || hourAgain != hour || minute.None? || second.None? then None
      else
        var t := Timestamp(month.value, day.value, hour.value, minute.value, second.value);
        if ValidTimestamp(t) then Some(t) else None
  }

  /** The stamp determines the time it was made from. */
  lemma StampRoundTrip(t: Timestamp)
    requires ValidTimestamp(t)
    ensures ParseStamp(Stamp(t)) == Some(t)
  {
    var s := Stamp(t);
    assert s[0..2] == TwoDigits(t.month);
    assert s[2..4] == TwoDigits(t.day);
    assert s[4..6] == TwoDigits(t.hour);
    assert s[8..10] == TwoDigits(t.hour);
    assert s[10..12] == TwoDigits(t.minute);
    assert s[12..14] == TwoDigits(t.second);
    TwoDigitsRoundTrip(t.month);
    TwoDigitsRoundTrip(t.day);
    TwoDigitsRoundTrip(t.hour);
    TwoDigitsRoundTrip(t.minute);
    TwoDigitsRoundTrip(t.second);
  }

  /** `pat` occurs somewhere in `s` (Python's `pat in s`). */
  predicate Occurs(s: string, pat: string)
    decreases |s|
  {
    |s| >= |pat| && (s[..|pat|] == pat || (|s| > 0 && Occurs(s[1..], pat)))
  }

  /** `s.replace(pat, rep)`: every non-overlapping occurrence, scanned left to right. */
  function ReplaceAll(s: string, pat: string, rep: string): (r: string)
    requires |pat| > 0
    ensures !Occurs(s, pat) ==> r == s
    decreases |s|
  {
    if |s| < |pat| then s
    else if s[..|pat|] == pat then rep + ReplaceAll(s[|pat|..], pat, rep)
    else
      [s[0]] + ReplaceAll(s[1..], pat, rep)
  }

  /**
   * Scanning left to right, the first occurrence of `pat` is replaced and the
   * scan goes on after it: text free of `pat` followed by `pat` and a rest `y`
   * becomes that text, the replacement, and the rest with its own occurrences
   * replaced. This needs the first character of `pat` not to reappear in it
   * (true of ".csv"), so no occurrence can straddle the boundary.
   */
  lemma {:induction false} ReplaceFirstThenRest(x: string, pat: string, rep: string, y: string)
    requires |pat| > 0 && pat[0] !in pat[1..]
    requires !Occurs(x, pat)
    ensures ReplaceAll(x + pat + y, pat, rep) == x + rep + ReplaceAll(y, pat, rep)
    decreases |x|
  {
    var s := x + pat + y;
    if x == [] {
      assert s == pat + y;
      assert s[..|pat|] == pat && s[|pat|..] == y;
    } else {
      NoMatchAtStart(x, pat);
      assert s[..|pat|] == (x + pat)[..|pat|];
      ReplaceFirstThenRest(x[1..], pat, rep, y);
      assert s[1..] == x[1..] + pat + y;
      assert x + rep + ReplaceAll(y, pat, rep) == [x[0]] + (x[1..] + rep + ReplaceAll(y, pat, rep));
    }
  }

  /** A name whose only occurrence of `pat` is its suffix gets only that suffix replaced. */
  lemma ReplaceSuffixOnly(x: string, pat: string, rep: string)
    requires |pat| > 0 && pat[0] !in pat[1..]
    requires !Occurs(x, pat)
    ensures ReplaceAll(x + pat, pat, rep) == x + rep
  {
    ReplaceFirstThenRest(x, pat, rep, []);
    assert x + pat + [] == x + pat;
    assert x + rep + [] == x + rep;
  }

  /** A non-empty `x` free of `pat` cannot start a match of `pat` in `x + pat`. */
  lemma NoMatchAtStart(x: string, pat: string)
    requires |pat| > 0 && pat[0] !in pat[1..]
    requires !Occurs(x, pat) && x != []
    ensures (x + pat)[..|pat|] != pat
  {
    var s := x + pat;
    if |x| >= |pat| {
      assert s[..|pat|] == x[..|pat|];
    } else {
      assert s[..|pat|][|x|] == pat[0];
      assert pat[|x|] == pat[1..][|x| - 1];
      assert s[..|pat|][|x|] != pat[|x|];
    }
  }

  /** `os.path.basename`: the part after the last "/". */
  function Basename(path: string): (r: string)
    ensures '/' !in r
    ensures |r| <= |path| && path[|path| - |r|..] == r
    ensures |r| < |path| ==> path[|path| - |r| - 1] == '/'
  {
    if path == [] || path[|path| - 1] == '/' then []
    else Basename(path[..|path| - 1]) + [path[|path| - 1]]
  }

  /** The directory part is discarded: whatever precedes a "/" does not matter. */
  lemma {:induction false} BasenameAfterSlash(dir: string, name: string)
    requires dir == [] || dir[|dir| - 1] == '/'
    requires '/' !in name
    ensures Basename(dir + name) == name
  {
    if name == [] {
      assert dir + name == dir;
    } else {
      var last := name[|name| - 1];
      assert (dir + name)[..|dir + name| - 1] == dir + name[..|name| - 1];
      BasenameAfterSlash(dir, name[..|name| - 1]);
      assert name == name[..|name| - 1] + [last];
    }
  }

  /** `os.path.join(a, b)` on POSIX paths: `b` ends the result, and a relative `b` comes after all of `a`. */
  function Join(a: string, b: string): (r: string)
    ensures |b| <= |r| && r[|r| - |b|..] == b
    ensures (|b| == 0 || b[0] != '/') ==> |a| <= |r| && r[..|a|] == a
    ensures (|b| == 0 || b[0] != '/') && a != [] && a[|a| - 1] != '/' ==> r == a + "/" + b
  {
    if |b| > 0 && b[0] == '/' then b
    else if a == [] || a[|a| - 1] == '/' then a + b
    else a + "/" + b
  }

  /** The output file name is a plain name: it has no "/". */
  function OutputFileName(inputFilePath: string, now: Timestamp): (r: string)
    requires ValidTimestamp(now)
    ensures '/' !in r
  {
    ReplaceNeverAddsSlash(Basename(inputFilePath), CsvExtension, Stamp(now) + CsvExtension);
    ReplaceAll(Basename(inputFilePath), CsvExtension, Stamp(now) + CsvExtension)
  }

  /** The output path starts with "prediction/" and has no further "/". */
  function OutputFilePath(inputFilePath: string, now: Timestamp): (r: string)
    requires ValidTimestamp(now)
    ensures |PredictionDir| + 1 <= |r| && r[..|PredictionDir| + 1] == PredictionDir + "/"
    ensures '/' !in r[|PredictionDir| + 1..]
  {
    var name := OutputFileName(inputFilePath, now);
    assert !(|name| > 0 && name[0] == '/') by {
      if |name| > 0 {
        assert name[0] in name;
      }
    }
    assert PredictionDir[|PredictionDir| - 1] != '/';
    assert (PredictionDir + "/" + name)[|PredictionDir| + 1..] == name;
    Join(PredictionDir, name)
  }

  /** The output file lands directly in the prediction directory. */
  lemma OutputPathInPredictionDir(inputFilePath: string, now: Timestamp)
    requires ValidTimestamp(now)
    ensures OutputFilePath(inputFilePath, now) == PredictionDir + "/" + OutputFileName(inputFilePath, now)
  {
    var name := OutputFileName(inputFilePath, now);
    assert !(|name| > 0 && name[0] == '/') by {
      if |name| > 0 {
        assert name[0] in name;
      }
    }
  }

  /** A base name without ".csv" passes through unchanged. */
  lemma NoCsvNameUnchanged(inputFilePath: string, now: Timestamp)
    requires ValidTimestamp(now)
    requires !Occurs(Basename(inputFilePath), CsvExtension)
    ensures OutputFileName(inputFilePath, now) == Basename(inputFilePath)
  {
  }

  /** No "/" appears in a replacement result that was not in the input or the replacement. */
  lemma {:induction false} ReplaceNeverAddsSlash(s: string, pat: string, rep: string)
    requires |pat| > 0 && '/' !in s && '/' !in rep
    ensures '/' !in ReplaceAll(s, pat, rep)
    decreases |s|
  {
    if |s| < |pat| {
    } else if s[..|pat|] == pat {
      ReplaceNeverAddsSlash(s[|pat|..], pat, rep);
    } else {
      ReplaceNeverAddsSlash(s[1..], pat, rep);
    }
  }

  /** Replacing in the base name of "dir/name" + `pat`, where `name` is free of "/" and of `pat`. */
  lemma ReplaceInBasename(dir: string, name: string, pat: string, rep: string)
    requires |pat| > 0 && pat[0] !in pat[1..] && '/' !in pat
    requires dir == [] || dir[|dir| - 1] == '/'
    requires '/' !in name && !Occurs(name, pat)
    ensures ReplaceAll(Basename(dir + name + pat), pat, rep) == name + rep
  {
    assert dir + name + pat == dir + (name + pat);
    BasenameAfterSlash(dir, name + pat);
    ReplaceSuffixOnly(name, pat, rep);
  }

  /** The usual case: "some/dir/name.csv" gives "prediction/name" + stamp + ".csv". */
  lemma CsvInputPath(dir: string, name: string, now: Timestamp)
    requires ValidTimestamp(now)
    requires dir == [] || dir[|dir| - 1] == '/'
    requires '/' !in name && !Occurs(name, CsvExtension)
    ensures OutputFilePath(dir + name + CsvExtension, now) == PredictionDir + "/" + name + Stamp(now) + CsvExtension
  {
    var path := dir + name + CsvExtension;
    var rep := Stamp(now) + CsvExtension;
    assert CsvExtension[0] !in CsvExtension[1..];
    ReplaceInBasename(dir, name, CsvExtension, rep);
    OutputPathInPredictionDir(path, now);
    ConcatAssoc(PredictionDir + "/", name, Stamp(now), CsvExtension);
  }

  lemma ConcatAssoc(a: string, b: string, c: string, d: string)
    ensures a + (b + (c + d)) == a + b + c + d
  {
  }

  /** Why a batch prediction raises. */
  datatype BatchError =
    | NoModel                 // the registry holds no bundle yet
    | MissingFeatureColumns   // a column the transformer needs is absent
    | LengthMismatch          // a prediction column does not have one value per row

  function NumberCells(labels: Labels): seq<Cell>
  {
    seq(|labels|, i requires 0 <= i < |labels| => Number(labels[i]))
  }

  function TextCells(texts: seq<string>): seq<Cell>
  {
    seq(|texts|, i requires 0 <= i < |texts| => Text(texts[i]))
  }

  /**
   * When the input has neither a "prediction" nor a "cat_pred" column, the
   * two assignments keep every original column in place and append the two
   * new ones, in that order.
   */
  lemma PredictionsAppended(cols: seq<Column>, prediction: seq<Cell>, catPred: seq<Cell>)
    requires PredictionColumn !in Names(cols) && CategoryColumn !in Names(cols)
    ensures Assigned(Assigned(cols, PredictionColumn, prediction), CategoryColumn, catPred)
         == cols + [Column(PredictionColumn, prediction), Column(CategoryColumn, catPred)]
  {
    var once := Assigned(cols, PredictionColumn, prediction);
    assert Names(once) == Names(cols) + [PredictionColumn];
    assert CategoryColumn != PredictionColumn by {
      assert |CategoryColumn| != |PredictionColumn|;
    }
  }

  /**
   * `start_batch_prediction`: the frame read from the input file is changed
   * in place ("na" cells made missing, two prediction columns assigned) and
   * the path the frame is written to is returned.
   */
  method StartBatchPrediction(inputFilePath: string, df: Frame, latest: Option<Bundle>, now: Timestamp)
    returns (r: Result<string, BatchError>)
    requires df.Valid() && ValidTimestamp(now)
    modifies df
    ensures df.Valid() && df.rows == old(df.rows)
    ensures r.Err? ==> df.columns == NaReplacedColumns(old(df.columns))
    ensures r.Err? <==>
      latest.None? ||
      Predict(latest.value, NaReplacedColumns(old(df.columns))).None? ||
      |Predict(latest.value, NaReplacedColumns(old(df.columns))).value| != df.rows ||
      |latest.value.decode(Predict(latest.value, NaReplacedColumns(old(df.columns))).value)| != df.rows
    ensures r.Ok? ==>
      var prediction := Predict(latest.value, NaReplacedColumns(old(df.columns))).value;
      var catPred := latest.value.decode(prediction);
      df.columns == Assigned(Assigned(NaReplacedColumns(old(df.columns)), PredictionColumn, NumberCells(prediction)),
                             CategoryColumn, TextCells(catPred)) &&
      r.value == OutputFilePath(inputFilePath, now)
  {
    df.ReplaceNa();
    if latest.None? {
      return Err(NoModel);
    }
    var bundle := latest.value;
    var prediction := Predict(bundle, df.columns);
    if prediction.None? {
      return Err(MissingFeatureColumns);
    }
    var catPred := bundle.decode(prediction.value);
    if |prediction.value| != df.rows || |catPred| != df.rows {
      return Err(LengthMismatch);
    }
    df.SetColumn(PredictionColumn, NumberCells(prediction.value));
    df.SetColumn(CategoryColumn, TextCells(catPred));
    var predictionFileName := ReplaceAll(Basename(inputFilePath), CsvExtension, Stamp(now) + CsvExtension);
    var predictionFilePath := Join(PredictionDir, predictionFileName);
    return Ok(predictionFilePath);
  }
}
