# APS fault detection — a verified model of the pipeline core

The APS fault-detection project trains a classifier that predicts whether a
truck's air-pressure-system failure is behind a sensor reading. Its pipeline
runs as a chain of stages, and this model covers the core of that chain:

- **Data validation** (`validation.dfy`, class `DataValidation`). The "na"
  markers of the base frame become missing values. Columns whose fraction of
  missing cells is above a threshold are dropped from the base, train and
  test frames. The train and test frames must then hold every column the base
  frame kept. Each frame that does is compared with the base frame column by
  column through a two-sample test: a p-value above 0.05 means "same
  distribution". Every finding goes into a report dictionary that the
  validator holds and updates in place.
- **Model training** (`trainer.dfy`). The stacked arrays are split into
  features (every column but the last) and target (the last column). A
  classifier is fitted, and it is accepted only when its test F1 score reaches
  the expected score and its train and test scores differ by no more than the
  overfitting threshold.
- **Model evaluation** (`evaluation.dfy`). A new model bundle is accepted when
  the registry is empty. Otherwise it is accepted when it scores at least as
  well as the latest saved bundle on the test rows. Rejection is an error.
- **Batch prediction** (`batch_prediction.dfy`). An input frame gets a numeric
  and a decoded prediction column. The output path is `prediction/` followed
  by the input's base name with every ".csv" replaced by a time stamp plus
  ".csv". The stamp format prints the hour twice and no year; the model keeps
  that format. Paths follow POSIX rules.
- **Package setup** (`requirements.dfy`). The requirements list is the lines of
  the requirements file with their newlines removed, minus the first "-e ."
  entry.

Shared pieces:

- `frames.dfy` is an abstract data frame: a class holding named columns of
  cells, changed in place by drop, replace and column assignment.
- `models.dfy` is a model bundle: a transformer, a classifier and a target
  encoder. They are library objects, so the bundle carries them as opaque
  functions.
- `common.dfy` holds `Option` and `Result`.

Where a stage of the source raises an exception, the model's stage returns
an `Err` value that names the cause. Inside the validator, a column lookup
that would raise in `data_drift` is a `false` result that leaves the report
unchanged.

## Model

| member | source | states |
|---|---|---|
| Frames.NullCount | sensor/components/data_validation.py:39 | the null count of a column is at most its length, and it is zero exactly when no cell is missing |
| Frames.Lookup | sensor/components/data_validation.py:86 | a column is found exactly when its label is in the frame; the result is a column of the frame with that label; absence stands for pandas' KeyError |
| Frames.Select | sensor/pipeline/batch_prediction.py:26-27 | selecting a list of labels succeeds exactly when every label is present; the i-th selected column is the frame's column with the i-th label |
| Frames.Without | sensor/components/data_validation.py:46 | after dropping, a column remains exactly when it was in the frame and its label is not in the drop list; nothing is added |
| Frames.WithoutNothing | sensor/components/data_validation.py:46 | dropping an empty list of labels leaves the columns unchanged |
| Frames.WithoutKeepsDistinct | sensor/components/data_validation.py:46 | dropping keeps column labels unique |
| Frames.NaReplaced | sensor/components/data_validation.py:116 | replacing "na" keeps the length, leaves no "na" cell, makes every "na" cell missing and leaves every other cell as it was |
| Frames.Assigned | sensor/pipeline/batch_prediction.py:37-38 | assignment overwrites the same-named column or appends one; the new column is present, every other column is kept, and nothing else is added |
| Frames.AssignedKeepsShape | sensor/pipeline/batch_prediction.py:37-38 | assigning a row-long column keeps labels unique and every column one cell per row |
| Frames.Frame.constructor | sensor/components/data_validation.py:113 | a frame read from a file has unique labels and columns of equal length |
| Frames.Frame.Drop | sensor/components/data_validation.py:46 | in-place drop: the new columns are the old ones without the named labels; the row count and the frame invariant are kept |
| Frames.Frame.ReplaceNa | sensor/components/data_validation.py:116 | in-place "na" replacement in every column; labels, row count and invariant are kept |
| Frames.Frame.SetColumn | sensor/pipeline/batch_prediction.py:37-38 | in-place column assignment overwrites the same-named column or appends a new one; the invariant is kept |
| Validation.DropList | sensor/components/data_validation.py:39-42 | a label is in the drop list exactly when the frame has a column with that label whose null fraction is above the threshold; an empty frame has no fraction, so nothing is dropped |
| Validation.TooManyNulls | sensor/components/data_validation.py:39-42 | a frame with no rows marks no column; with a non-negative threshold only a column with a missing cell can be marked; a negative threshold marks every column of a non-empty frame |
| Validation.Cleaned | sensor/components/data_validation.py:39-46 | every kept column is a column of the frame whose null fraction is not above the threshold, and, labels being unique, every such column is kept |
| Validation.DropIdempotent | sensor/components/data_validation.py:39-46 | running the drop again on its own output drops nothing and changes nothing |
| Validation.MissingColumns | sensor/components/data_validation.py:59-67 | a label is reported missing exactly when it is a base label absent from the current frame |
| Validation.NothingMissing | sensor/components/data_validation.py:62-72 | the missing list is empty exactly when every base label is among the current labels |
| Validation.DriftReportOf | sensor/components/data_validation.py:85-101 | one entry per base column, in base order, labelled with the column's name; "same distribution" exactly when the p-value is above 0.05 |
| Validation.DriftReportEntries | sensor/components/data_validation.py:85-101 | the drift report has one entry per base column in base order; each has the column's label and the test's p-value, and says "same distribution" exactly when that p-value is above 0.05 |
| Validation.DataValidation.constructor | sensor/components/data_validation.py:15-21 | a new validator starts with an empty report and the configured threshold |
| Validation.DataValidation.DroppedMissingColumnValues | sensor/components/data_validation.py:26-50 | the frame loses exactly its too-sparse columns, the report records the drop list under the given key and nothing else, and the result is null exactly when no column is left |
| Validation.DataValidation.DoRequiredColumnsExists | sensor/components/data_validation.py:56-72 | the result is true exactly when every base column is present; only a failed check records the missing labels, in base order |
| Validation.DataValidation.DataDrift | sensor/components/data_validation.py:78-106 | with every base column present the result is true and the report gets the drift report under the given key; where the source raises on a missing column the result is false and the report is unchanged |
| Validation.DataValidation.DropSparseColumns | sensor/components/data_validation.py:113-127 | base "na" replacement, then the drop on base, train and test frames; the report gains exactly the three drop lists |
| Validation.DataValidation.CheckColumnsAndDrift | sensor/components/data_validation.py:135-145 | the drop lists stay as they were; for each current frame, a failed column check records its missing labels and leaves the drift entry as it was, and a passed one records its drift report and leaves the missing-columns entry as it was; from a report without these keys, a frame gets one of the two, never both |
| Validation.DataValidation.CheckUnlessEmpty | sensor/components/data_validation.py:129-145 | the stage stops with an error exactly when a cleaned frame has no column left, and only then skips the column and drift checks |
| Validation.DataValidation.InitiateDataValidation | sensor/components/data_validation.py:109-153 | the whole pass: each frame ends as its cleaned version, the report holds the three drop lists, the pass fails exactly when a frame lost every column, and otherwise the returned report holds the column and drift verdicts of both frames |
| Models.Predict | sensor/components/model_evaluation.py:60-62 | a bundle predicts exactly when every feature its transformer names is present, and then it predicts from those columns only |
| ModelEvaluation.Scores | sensor/components/model_evaluation.py:55-81 | scoring fails exactly when the target column or a feature of either bundle is missing, and the missing target is reported as such; both scores compare against the previous encoder's labels |
| ModelEvaluation.Promote | sensor/components/model_evaluation.py:84-89 | the new model is rejected exactly when it scores strictly lower; otherwise it is accepted with a non-negative improvement equal to the score difference |
| ModelEvaluation.InitiateModelEvaluation | sensor/components/model_evaluation.py:30-93 | an empty registry accepts with no improvement value; every returned artifact says accepted; with a saved bundle the outcome is the gate applied to the two F1 scores, or the missing-column error |
| ModelEvaluation.TieIsAccepted | sensor/components/model_evaluation.py:84-89 | equal scores are accepted, with an improvement of zero |
| ModelEvaluation.FirstRunIgnoresScores | sensor/components/model_evaluation.py:37-42 | with an empty registry the outcome depends on no bundle, frame or metric |
| ModelEvaluation.CurrentEncoderUnused | sensor/components/model_evaluation.py:56-81 | the new bundle's target encoder does not affect the outcome: both scores use the previous encoder's labels |
| ModelEvaluation.OnlyNamedColumnsRead | sensor/components/model_evaluation.py:55-81 | two test frames that agree on the target column and on both transformers' features give the same outcome |
| ModelTrainer.Features | sensor/components/model_trainer.py:41-42 | one feature row per array row, each the row without its last value |
| ModelTrainer.Target | sensor/components/model_trainer.py:41-42 | one label per array row; a row's features followed by its label rebuild the row |
| ModelTrainer.Stack | sensor/components/data_transformation.py:84-85 | stacking features and target gives rows that each have a target column |
| ModelTrainer.SplitStack | sensor/components/model_trainer.py:41-42 | splitting a stacked array gives back the features and the target |
| ModelTrainer.StackSplit | sensor/components/model_trainer.py:41-42 | features and target of an array rebuild every row of it |
| ModelTrainer.Gate | sensor/components/model_trainer.py:59-77 | underfitting exactly when the test score is below the expected score; overfitting exactly when it is not and the scores differ by more than the threshold; accepted otherwise, with the artifact carrying the path and both scores |
| ModelTrainer.InitiateModelTrainer | sensor/components/model_trainer.py:33-80 | the model fitted on the train split is accepted exactly when its test score reaches the expected score and the score gap is within the threshold; the artifact carries both scores |
| Requirements.StripNewlines | setup.py:13 | the stripped line has no newline, is no longer than the line, keeps every other character, and equals the line when it had no newline |
| Requirements.StripConcat | setup.py:13 | stripping a concatenation gives the concatenation of the stripped parts |
| Requirements.StripTrailingNewline | setup.py:11-13 | a line as read from the file, text plus a newline, becomes that text |
| Requirements.RemoveFirst | setup.py:16 | removing an absent entry changes nothing; removing a present one drops exactly one entry and adds none |
| Requirements.FirstIndex | setup.py:16 | the first position holding the entry, with no earlier occurrence |
| Requirements.RemoveFirstAt | setup.py:16 | removing an entry cuts out its first occurrence only: one entry fewer, the rest in order, the multiset minus that entry |
| Requirements.RemoveFirstIsCut | setup.py:16 | cutting out an occurrence with no earlier occurrence is the same as removing the first occurrence |
| Requirements.ListRemove | setup.py:16 | the scan for the entry and the cut equal removing its first occurrence |
| Requirements.GetRequirements | setup.py:8-18 | no returned entry contains a newline; without "-e ." the list is the stripped lines; with it, only the first "-e ." is removed |
| BatchPrediction.TwoDigits | sensor/pipeline/batch_prediction.py:40 | a zero-padded field is two digits |
| BatchPrediction.TwoDigitsRoundTrip | sensor/pipeline/batch_prediction.py:40 | a two-digit field reads back as its number |
| BatchPrediction.Stamp | sensor/pipeline/batch_prediction.py:40 | the stamp is 14 characters of digits and underscores, with "__" in the middle and the hour printed twice |
| BatchPrediction.StampRoundTrip | sensor/pipeline/batch_prediction.py:40 | the stamp reads back as the month, day, hour, minute and second it was made from |
| BatchPrediction.ReplaceAll | sensor/pipeline/batch_prediction.py:40 | a string without the pattern is returned unchanged |
| BatchPrediction.ReplaceFirstThenRest | sensor/pipeline/batch_prediction.py:40 | the first occurrence is replaced and the scan goes on after it, so every occurrence is replaced, left to right |
| BatchPrediction.ReplaceSuffixOnly | sensor/pipeline/batch_prediction.py:40 | a name whose only ".csv" is its suffix gets just that suffix replaced |
| BatchPrediction.ReplaceNeverAddsSlash | sensor/pipeline/batch_prediction.py:40 | the replacement adds no "/" to the base name |
| BatchPrediction.Basename | sensor/pipeline/batch_prediction.py:40 | the base name has no "/", is a suffix of the path, and is preceded by "/" when shorter than the path |
| BatchPrediction.BasenameAfterSlash | sensor/pipeline/batch_prediction.py:40 | the base name of a directory plus a slash-free name is that name |
| BatchPrediction.ReplaceInBasename | sensor/pipeline/batch_prediction.py:40 | in the base name of "dir/name" plus the pattern, only the trailing pattern is replaced |
| BatchPrediction.Join | sensor/pipeline/batch_prediction.py:41 | the joined path ends with the second part; a relative second part comes after all of the first, with one "/" between when the first does not end in "/" |
| BatchPrediction.OutputFileName | sensor/pipeline/batch_prediction.py:40 | the output file name has no "/" |
| BatchPrediction.OutputFilePath | sensor/pipeline/batch_prediction.py:40-41 | the output path starts with "prediction/" and has no further "/" |
| BatchPrediction.NoCsvNameUnchanged | sensor/pipeline/batch_prediction.py:40 | a base name without ".csv" becomes the output name unchanged, with no stamp |
| BatchPrediction.OutputPathInPredictionDir | sensor/pipeline/batch_prediction.py:41 | the output file lies directly in the prediction directory |
| BatchPrediction.CsvInputPath | sensor/pipeline/batch_prediction.py:40-41 | "dir/name.csv" gives "prediction/name" followed by the stamp and ".csv" |
| BatchPrediction.PredictionsAppended | sensor/pipeline/batch_prediction.py:37-38 | when the input has neither prediction column, the original columns stay in place and "prediction" then "cat_pred" are appended |
| BatchPrediction.StartBatchPrediction | sensor/pipeline/batch_prediction.py:11-46 | the frame has its "na" cells made missing; the run fails exactly when there is no bundle, a feature column is missing or a prediction column is not one value per row; otherwise both prediction columns are assigned and the output path is returned |

## Left out

- File and directory I/O is not modelled: `read_csv`, `to_csv`, `makedirs`, writing the YAML report, loading and saving objects and numpy arrays. Frames and arrays are inputs, and written results are return values or the validator's report.
- The fitted objects are opaque functions of a bundle: the transformer, the XGBoost classifier, the target encoder and the SMOTE resampler. So are `f1_score` and `ks_2samp`. The model proves what the pipeline does with their results, not what the results are.
- The model registry is not part of this model, and neither is `sensor/predictor.py`. Its answer, the latest saved bundle or none, is an input. `BatchPrediction.StartBatchPrediction` returns `NoModel` when there is none.
- `datetime.now()` is an input timestamp. The stamp format prints the month, day, hour, "__", hour, minute and second, and the model keeps that.
- `TARGET_COLUMN` lives in `sensor/config.py`, which is not part of this model; it is a parameter.
- `utils.convert_column_float` is not part of this model. It is taken to keep column labels and cells, as far as column presence and drift are concerned.
- Validation.DataValidation.InitiateDataValidation: when a frame loses every column, the source goes on and fails inside `convert_column_float` on `None`. The model stops there with `NoUsableColumns`.
- Validation.DataValidation.DataDrift: the p-value a test gives is taken as a real number, so a NaN p-value (which compares false) is not modelled.
- Validation.TooManyNulls: on a frame with no rows pandas computes 0/0 = NaN, which is never above the threshold. So nothing is dropped, and the model does not require rows.
- Report keys are an enumeration whose `Name` is the key string written to the file. The YAML layout of the report is not modelled.
- Logging, `print`, and the wrapping of every exception in `SensorException` (`sensor/exception.py`) are not modelled; each raise is an `Err` value.
- The ingestion, transformation (apart from the stacking of features and target), pusher, `data_dump.py` and `main.py` stages are outside this core.
- ModelTrainer.InitiateModelTrainer: the split needs every row to hold at least one value; the source assumes the same of the arrays it loads.
- Models.Predict: the length of a prediction is not tied to the number of rows, because the classifier is opaque. StartBatchPrediction turns a length mismatch into `LengthMismatch` where pandas raises.
- ModelTrainer.Gate: scores, thresholds and p-values are exact reals, while the source compares and subtracts floating-point numbers; at a boundary the outcomes can differ (with train 0.7, test 0.8 and threshold 0.1 the float difference is slightly above 0.1, so the source reports overfitting and the model accepts). The same holds for ModelEvaluation.Promote's improvement value and for a p-value equal to 0.05 in Validation.DriftReportOf.
- BatchPrediction.Join: `Basename` and `Join` follow POSIX path rules; on Windows `os.path` splits on both separators and joins with a backslash, which is not modelled.
- Validation.DataValidation.DataDrift: the KeyError a missing column raises is a `false` result with the report unchanged, not an error value; the stage only calls it after the column check passed.
- Frames.Frame: the numeric, text and missing cell kinds stand in for pandas dtypes; no dtype conversion is modelled.
