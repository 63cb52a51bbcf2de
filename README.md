# IoT power-reading anomaly monitor, modelled in Dafny

The system logs electrical readings from three IoT devices (a thermostat, a
CCTV camera and a smoke detector), derives windowed features from them, and
classifies every new reading into an operating mode (Normal, Connecting, or an
attack mode) with a classifier trained offline. Four scripts make it up, and
this project models the logic of each:

- **Valuesreader.py**, the serial logger (module `Ingest`, `ingest.dfy`).
  - Each input line is stripped and split on commas. It must have five fields
    and a known device in the first field; otherwise it is skipped.
  - An accepted line is stamped and appended to its device's buffer.
  - Every five seconds, and once more when logging stops, each non-empty
    buffer is appended to its device's CSV file. A new file first gets the
    header.
  - The file system is a map from path to rows. The logger itself is the
    class `Logger`.
- **The window-5 feature extractor**, shared by the other three scripts
  (modules `Features` and `FeatureFacts`).
  - For bus voltage, shunt voltage and power it computes the rolling mean, the
    rolling mode and the rolling mean of first differences ("Rate of Change").
  - Then `dropna` keeps only the rows where every column is defined, and those
    rows keep their log positions.
- **The trained artifact** as the live scripts use it (modules `Labels` and
  `Classifier`).
  - The label encoders keep sorted distinct classes.
  - The standard scaler and the classifier come next. The classifier is a
    function-valued field, so nothing about it is assumed.
  - `Classifier` also states which columns reach the classifier.
- **UI.py**, the dashboard (module `Monitor`). One poller per device rereads
  its log, derives the feature table, and classifies the rows after its cursor.
  For each classified row it:
  - tracks the device's last mode;
  - notifies on a move from Normal into an anomaly;
  - appends a dashboard row.

  Any exception adds one error row. The shared state is the class `Dashboard`,
  and each device's loop is the class `DevicePoller`.
- **CCTV.py**, the command-line monitor (module `Cctv`, class `CctvMonitor`).
  It does the same for the camera's log, but prints instead. Its cursor only
  moves forward, and the first exception ends the process.
- **random_both.py**, the training-data preparation (module `Training`). It
  computes the same features over the whole training file, then runs
  `dropna`. It fits the encoders on the surviving rows and takes X and y from
  those same rows.

The modules that change state mirror the scripts' own loops. Each method is
proved against a specification function of the old state, for example
`DevicePoller.ClassifyNew` against `Monitor.PollCodes` and `Logger.Run`
against `Ingest.Ticks`. The properties are lemmas about those functions.

Where the code does not do what one might expect, the model follows the code:

- **Feature rows.** A log of n complete rows gives max(0, n − 5) feature rows,
  not n − 4. `diff()` is undefined at row 0, so the rate windows of rows 1..4
  are undefined too. Five rows give no classified row at all
  (`FeatureFacts.ExtractComplete`, `FeatureFacts.ShortLogIsEmpty`).
- **Mode ties.** A tie in the rolling mode goes to the smallest of the most
  frequent values, not to the window's first element, because pandas'
  `Series.mode` returns the modes sorted (`Features.WindowModeIsMode`).
- **The gate after Connecting.** A notification needs the stored status to be
  exactly "Normal". So Connecting followed by an attack is silent, while a
  two-state CLEAR/ALERTED machine would signal
  (`Monitor.GateVersusTwoState`, `Monitor.ConnectingThenAttackIsSilent`).
- **An unknown device.** A per-row skip would drop only the bad row. The code
  fails the whole poll: the column-wide `transform` raises before any row is classified
  (`Monitor.UnknownDeviceFailsPoll`). In CCTV.py the same exception ends the
  process (`Cctv.UnknownDeviceHalts`).
- **The dashboard cursor.** UI.py sets it unconditionally, so it moves back when
  the feature table gets shorter (`Monitor.PollSuccess`). CCTV.py guards it
  (`Cctv.PollCursor`).
- **Exceptions in CCTV.py.** CCTV.py catches none, so an unreadable log ends
  it, where a monitor that survives errors would go on polling
  (`Cctv.PollHalts`, `Cctv.HaltedStays`).

## Model

| member | source | states |
|---|---|---|
| Labels.Fit | random_both.py:28-32 | the fitted classes are strictly sorted and hold exactly the values of the column |
| Labels.Insert | random_both.py:28-32 | adding one value keeps the class list sorted and duplicate-free, and adds exactly that value |
| Labels.Encode | UI.py:52 | a value has a code exactly when it is a class, and that code is the class's position |
| Labels.Decode | UI.py:59 | a code decodes exactly when it is in range |
| Labels.DecodeEncode | UI.py:52-59 | decoding the code of a known value gives the value back |
| Labels.EncodeDecode | UI.py:21 | on a fitted class list, every code in range encodes back to itself |
| Labels.EncodeInjective | UI.py:52 | on a fitted class list, distinct known values get distinct codes |
| Labels.EncodeAll | UI.py:52 | a whole column encodes exactly when every value is known; then each entry is that value's code |
| Labels.EncodeAllPrefix | UI.py:52 | a column that encodes has every prefix encoding to the prefix of its codes |
| Labels.LessIrreflexive | random_both.py:28-29 | no string sorts before itself |
| Labels.LessTransitive | random_both.py:28-29 | string order is transitive |
| Labels.LessTotal | random_both.py:28-29 | any two distinct strings are ordered one way or the other |
| Features.WindowAt | UI.py:42 | the window at row i exists exactly when rows i-4..i exist and are all defined, and it holds those five cells in order |
| Features.PickModeIsMode | UI.py:43 | the pick among the first k cells is one of them, no cell among them is more frequent, and no equally frequent one is smaller |
| Features.WindowModeIsMode | UI.py:43 | the rolling mode of a window occurs in it, no value occurs more often, and on a tie it is the smallest |
| Features.Diff | UI.py:48 | the first difference at j is x[j] - x[j-1] when both are defined and j > 0, otherwise NaN |
| Features.FeatureAt | UI.py:42-51 | a row survives exactly when its three quantities' statistics and all its raw cells are defined; it then carries its position, cells and statistics |
| Features.DropNaFacts | UI.py:51 | `dropna` keeps every defined entry with its position, and only those, in increasing position order |
| Features.Extract | UI.py:42-51 | the feature table is exactly the surviving rows of the log, in log order, each carrying its own features |
| FeatureFacts.FiveDifferences | UI.py:48 | five consecutive differences of six values sum to the last minus the first, and average to a fifth of that |
| FeatureFacts.MeanFormula | UI.py:42 | the rolling mean is defined exactly on rows 4.. with five defined cells, and is their average |
| FeatureFacts.DiffWindow | UI.py:48 | the window of differences is defined exactly on rows 5.. with six defined cells i-5..i |
| FeatureFacts.RateTelescopes | UI.py:48-50 | the rate of change is defined exactly on rows 5.. with six defined cells, and equals (x[i] - x[i-5]) / 5 |
| FeatureFacts.DefinedMean | UI.py:42 | wherever a window is defined, the rolling mean is its mean |
| FeatureFacts.RateValue | UI.py:48 | a defined window of differences gives a rate of (x[i] - x[i-5]) / 5 |
| FeatureFacts.DiffMean | UI.py:48 | the mean of a defined window of differences telescopes to (x[i] - x[i-5]) / 5 |
| FeatureFacts.DiffCells | UI.py:48 | the five cells of a defined window of differences are x[i-4] - x[i-5] through x[i] - x[i-1] |
| FeatureFacts.ModeFacts | UI.py:43 | the rolling mode is defined exactly where the rolling mean is, and is a most frequent cell of the window |
| FeatureFacts.ConstantMean | UI.py:42 | five equal cells v give a mean of v |
| FeatureFacts.ConstantMode | UI.py:43 | five equal cells v give a mode of v |
| FeatureFacts.ConstantRate | UI.py:48 | six equal cells give a rate of change of 0 |
| FeatureFacts.StatsDefined | UI.py:42-50 | all three statistics of a column are defined exactly on rows 5.. with six defined cells i-5..i |
| FeatureFacts.ColumnStatsDefined | UI.py:42-50 | the same, stated on a log's quantity |
| FeatureFacts.SurvivesIff | UI.py:42-51 | row i survives `dropna` exactly when i >= 5, rows i-5..i have their windowed quantities, and row i has every cell |
| FeatureFacts.SurvivesComplete | UI.py:42-51 | in a log with no missing cell, row i survives exactly when i >= 5 |
| FeatureFacts.DropNaFromFive | UI.py:51 | when exactly the entries from 5 on are defined, `dropna` keeps max(0, k - 5) of them, the n-th being entry n + 5 |
| FeatureFacts.ExtractComplete | CCTV.py:31-44 | a complete log of n rows gives max(0, n - 5) feature rows, the n-th being log row n + 5 |
| FeatureFacts.ShortLogIsEmpty | CCTV.py:31-44 | a log of at most five rows gives no feature row at all |
| FeatureFacts.WindowCausal | UI.py:42 | a window depends only on the cells up to its row |
| FeatureFacts.StatsCausal | UI.py:42-50 | the statistics at a row depend only on the cells up to it |
| FeatureFacts.FeatureAtCausal | UI.py:42-51 | appending rows to a log never changes the features of an existing row |
| FeatureFacts.DropNaPrefix | UI.py:51 | `dropna` of the first k entries depends only on those entries |
| FeatureFacts.DropNaGrows | UI.py:51 | `dropna` of a longer prefix extends that of a shorter one |
| FeatureFacts.ExtractPrefix | CCTV.py:31-44 | appending rows to a log only appends feature rows |
| FeatureFacts.StatsOfRow | UI.py:42-51 | the statistics a surviving row carries for a quantity are that column's statistics at the row |
| FeatureFacts.StatsMean | UI.py:42 | where a column's statistics are defined, the mean is (x[i-4] + ... + x[i]) / 5 |
| FeatureFacts.StatsRate | UI.py:48 | where a column's statistics are defined, the rate of change is (x[i] - x[i-5]) / 5 |
| FeatureFacts.StatsMode | UI.py:43 | where a column's statistics are defined, the mode is that of the cells x[i-4..i] |
| FeatureFacts.WindowCells | UI.py:42 | a defined window is the sequence of the five cells x[i-4], ..., x[i] |
| FeatureFacts.FeatureMean | UI.py:42 | a surviving row's Mean of a quantity is (x[i-4] + ... + x[i]) / 5 |
| FeatureFacts.FeatureRate | UI.py:48-50 | a surviving row's Rate of Change is (x[i] - x[i-5]) / 5 |
| FeatureFacts.FeatureMode | UI.py:43-47 | a surviving row's Mode is the mode of the cells x[i-4..i] |
| FeatureFacts.SpikeMode | UI.py:47 | readings 1, 1, 1, 1, 50 have mode 1 |
| FeatureFacts.SpikeStats | UI.py:46-50 | power readings 1, 1, 1, 1, 1, 50 give row 5 a mean of 10.8, a mode of 1 and a rate of change of 9.8 |
| FeatureFacts.PowerSpike | UI.py:46-51 | a complete six-row log with those power readings gives exactly one feature row, row 5, with those statistics |
| FeatureFacts.SameColumns | random_both.py:12-22 | logs that agree on every numeric cell have the same columns |
| FeatureFacts.FeaturesIgnoreDevice | random_both.py:12-25 | the windows run over rows in file order, whatever device each row names: a row's features do not depend on any Device cell |
| Classifier.Drop | UI.py:56 | dropping columns never adds any |
| Classifier.DropMembers | UI.py:56 | a column survives the drop exactly when it was there and is not named |
| Classifier.DropAppend | UI.py:56 | dropping from two blocks of columns drops from each |
| Classifier.DropAbsent | random_both.py:35 | naming an absent column drops nothing more |
| Classifier.DropNone | UI.py:56 | dropping names none of which is present changes nothing |
| Classifier.DropAll | UI.py:56 | dropping every present column leaves none |
| Classifier.LiveInputColumns | UI.py:56 | dropping the five raw columns from the live table leaves the device code and the nine derived features, in that order |
| Classifier.LogKeepsDevice | CCTV.py:53 | of the log's own columns only Device reaches the classifier |
| Classifier.DerivedKept | CCTV.py:53 | all nine derived columns reach the classifier |
| Classifier.TrainingInputColumns | random_both.py:35 | wherever Mode sits in the training table, X gets exactly the columns the live scripts pass the classifier |
| Classifier.DropInserted | random_both.py:35 | dropping an inserted column along with other names undoes the insertion |
| Classifier.DropBetween | random_both.py:35 | the same, with the columns before and after the insertion given apart |
| Classifier.DropSkips | random_both.py:35 | a dropped column between two blocks vanishes, and each block is dropped from separately |
| Classifier.ClassifierInput | CCTV.py:53 | the one-row frame holds, column by column, the device code and the row's nine derived features |
| Classifier.CodesDecode | UI.py:52-59 | when the whole Device column encodes, each code decodes to its own row's device |
| Classifier.Standardize | UI.py:19 | the scaler accepts exactly rows of its own width, and each standardized entry times its scale plus its mean is the input |
| Classifier.Unstandardize | UI.py:19 | a specification inverse with no counterpart in the source, serving as the partner of `Standardize`: undoing the scaling keeps the width |
| Classifier.StandardizeRoundTrip | UI.py:19 | standardizing, then undoing it with the specification inverse `Unstandardize` (the source never calls `inverse_transform`), gives back the input, in both orders |
| Classifier.PredictMode | UI.py:18-22 | a prediction is a mode name exactly when the class index is in range; a wrong width and an unknown index are the two errors |
| Classifier.PredictedModeEncodes | random_both.py:28-29 | on fitted classes, the predicted mode name encodes back to the classifier's class index |
| Monitor.ObserveFacts | UI.py:62-77 | one classification notifies exactly when the mode is an anomaly and the stored status (default Normal) is "Normal"; it sets that device's status to the mode and no other; it adds one row, tagged normal exactly when the mode is Normal or Connecting |
| Monitor.ObservedAllSnoc | UI.py:55-77 | one more classification of the device is one more observation |
| Monitor.ObservedAllStep | UI.py:62-74 | the next classification adds one notification exactly when its mode is an anomaly and the last stored status is Normal, and stores its mode |
| Monitor.TwoTransitionsTwoNotifications | UI.py:62-71 | Normal, Attack, Attack, Normal, Attack sends exactly two notifications |
| Monitor.ConnectingThenAttackIsSilent | UI.py:62-71 | Connecting then Attack sends none |
| Monitor.RangeObservedAll | UI.py:55-77 | a range over rows of one device, each predicted without an exception, ends without a fault with the board of the observations of the predicted modes in row order |
| Monitor.PollTwoNotifications | UI.py:55-79 | a first poll of five rows of one device predicted Normal, Attack, Attack, Normal, Attack adds five rows, moves the cursor to 5 and sends exactly two notifications |
| Monitor.PollConnectingThenAttackIsSilent | UI.py:55-79 | a first poll of two rows predicted Connecting then Attack adds two rows, moves the cursor to 2 and sends no notification |
| Monitor.GateVersusTwoState | UI.py:65-71 | the gate signals exactly as a two-state CLEAR/ALERTED machine does, except after Connecting |
| Monitor.RangeAppends | UI.py:55-77 | classifying a range only appends rows to the dashboard, all of them classified rows |
| Monitor.RangeClassifies | UI.py:55-77 | a range that raises nothing classifies each row once, in order, with its predicted mode and decoded device |
| Monitor.RangeStep | UI.py:55-77 | one more row after a range that raised nothing is one step |
| Monitor.RangeFails | UI.py:58-81 | an exception at row i ends the range there, with the board as it was before row i |
| Monitor.RangeSplit | UI.py:55 | a range can be split at any midpoint |
| Monitor.RangeCausal | UI.py:55-59 | a range depends only on the rows and codes in it |
| Monitor.PollSuccess | UI.py:55-79 | a successful poll classifies feature rows cursor..n-1 once each, in order, each with its own device, and then sets the cursor to n even when that moves it back |
| Monitor.CodesSuccess | UI.py:55-79 | the same, once the device codes are known |
| Monitor.PollFailure | UI.py:52-81 | a failing poll keeps the cursor and adds exactly one error row, after the rows it classified first |
| Monitor.UnreadableLog | UI.py:39-81 | an unreadable log adds one error row and changes nothing else |
| Monitor.UnknownDeviceFailsPoll | UI.py:52-81 | an unknown device in any feature row fails the whole poll before any row is classified |
| Monitor.PollIdempotent | UI.py:55-79 | polling an unchanged table again after a successful poll classifies nothing and changes nothing |
| Monitor.PollRowsAppendOnly | UI.py:55-79 | polling a table and then its extension equals one poll of the extension: every row is classified once, in order |
| Monitor.CodesAppendOnly | UI.py:55-79 | the same, once the device codes are known |
| Monitor.PollAppendOnly | UI.py:39-79 | the same for a log and the log with rows appended |
| Monitor.Dashboard.constructor | UI.py:16 | the dashboard starts with no status, notifications or rows |
| Monitor.Dashboard.Observe | UI.py:62-77 | gating, the status update and the dashboard row are exactly one observation |
| Monitor.Dashboard.Fail | UI.py:80-81 | the `except` branch adds one error row |
| Monitor.DevicePoller.constructor | UI.py:32-34 | a poller starts with its cursor at 0 |
| Monitor.DevicePoller.Poll | UI.py:36-81 | one pass of the loop is `Polled` of the state before it |
| Monitor.DevicePoller.ProcessRows | UI.py:52-81 | the rest of the pass is `PollRows` of the state before it |
| Monitor.DevicePoller.ClassifyNew | UI.py:55-79 | the row loop and the cursor update are `PollCodes` of the state before it |
| Monitor.DevicePoller.Run | UI.py:36-84 | the polling loop over successive snapshots is `PolledAll` |
| Cctv.RangeAppends | CCTV.py:52-57 | a range only appends printed lines |
| Cctv.RangePrints | CCTV.py:52-57 | a range that raises nothing prints one line per row, in order, with its predicted mode and its own device name |
| Cctv.RangeBound | CCTV.py:52-57 | a range prints at most one line per row |
| Cctv.RangeStep | CCTV.py:52-57 | one more row after a range that raised nothing prints its line, or stops on its exception |
| Cctv.RangeSplit | CCTV.py:52 | a range can be split at any midpoint |
| Cctv.RangeCausal | CCTV.py:52-56 | a range depends only on the rows and codes in it |
| Cctv.PollCursor | CCTV.py:50-60 | after a pass that raises nothing the cursor is the larger of its old value and the table length, and never moves back; after an exception it stays |
| Cctv.RowsCursor | CCTV.py:47-60 | the same, on a given feature table |
| Cctv.NoNewRows | CCTV.py:50 | a table no longer than the cursor prints nothing and changes nothing |
| Cctv.UnknownDeviceHalts | CCTV.py:47 | an unknown device in any row stops the process before anything is printed |
| Cctv.PollPrints | CCTV.py:47-60 | a pass that raises nothing prints exactly rows cursor..n-1, in order, each with its mode and its own device |
| Cctv.CodesPrint | CCTV.py:50-60 | the same, once the device codes are known |
| Cctv.PollHalts | CCTV.py:26-63 | a pass that raises keeps the cursor and what was printed, prints at most one line per row, and nothing runs after it |
| Cctv.HaltedStays | CCTV.py:26 | once stopped, later snapshots change nothing |
| Cctv.PolledAllSnoc | CCTV.py:26-63 | the passes over i + 1 snapshots are those over i, then one more |
| Cctv.PolledAllRest | CCTV.py:26-63 | after all snapshots are read, or once stopped, the rest change nothing |
| Cctv.PolledAllAppend | CCTV.py:26-63 | running over two batches of snapshots runs over the first, then the second |
| Cctv.PollRowsAppendOnly | CCTV.py:50-60 | a pass over a table and then its extension prints what one pass over the extension prints |
| Cctv.CodesAppendOnly | CCTV.py:50-60 | the same, once the device codes are known |
| Cctv.AgreeStep | CCTV.py:26-60 | agreeing with one pass over a log is kept by a pass over the log with rows appended |
| Cctv.InitGrows | CCTV.py:26-28 | dropping the last snapshot keeps append-only growth and known devices |
| Cctv.LastGrowth | CCTV.py:26-28 | the last snapshot is the one before it with rows appended |
| Cctv.AppendOnlyOnce | CCTV.py:26-63 | under append-only growth, all passes print what one pass over the last snapshot prints: each feature row once, in increasing order |
| Cctv.FromStart | CCTV.py:24-60 | from the start, a pass that raises nothing prints every feature row once, in order, and the cursor ends at the table's length |
| Cctv.CctvMonitor.constructor | CCTV.py:24 | the process starts with nothing printed and the cursor at 0 |
| Cctv.CctvMonitor.Poll | CCTV.py:26-63 | one pass of the loop is `Polled` of the state before it |
| Cctv.CctvMonitor.ProcessRows | CCTV.py:47-60 | the rest of the pass is `PollRows` of the state before it |
| Cctv.CctvMonitor.PrintNew | CCTV.py:50-60 | the guarded row loop and cursor update are `PollCodes` of the state before it |
| Cctv.CctvMonitor.Run | CCTV.py:26-63 | the loop over successive snapshots, until one raises, is `PolledAll` |
| Ingest.TrimLeftSlice | Valuesreader.py:62 | trimming on the left drops a run of leading whitespace and nothing else |
| Ingest.TrimRightSlice | Valuesreader.py:62 | trimming on the right drops a run of trailing whitespace and nothing else |
| Ingest.TrimmedFixed | Valuesreader.py:62 | a string with no whitespace at either end is unchanged by trimming |
| Ingest.StripSlice | Valuesreader.py:62 | `strip` keeps a slice of the line, cuts off only whitespace, and leaves no whitespace at either end |
| Ingest.StripIdempotent | Valuesreader.py:62 | stripping twice is stripping once |
| Ingest.Split | Valuesreader.py:69 | `split` always gives at least one piece |
| Ingest.SplitCount | Valuesreader.py:69-72 | splitting on a character gives one more piece than the character's occurrences |
| Ingest.SplitPieces | Valuesreader.py:69 | no piece contains the separator |
| Ingest.JoinSplit | Valuesreader.py:69 | joining the pieces with the separator gives the line back |
| Ingest.SplitFront | Valuesreader.py:69 | a separator-free prefix stays at the front of the first piece |
| Ingest.SplitJoin | Valuesreader.py:69 | splitting a join of separator-free pieces gives the pieces back |
| Ingest.PathInjective | Valuesreader.py:18-22 | the three devices have distinct files |
| Ingest.DeviceOf | Valuesreader.py:11-15 | a name is known exactly when it is the name of one of the three devices |
| Ingest.ParseAccepts | Valuesreader.py:69-88 | a line is accepted exactly when it has four commas and a known device first; the row is then its five fields unchanged, in order, then the stamp |
| Ingest.ParseJoin | Valuesreader.py:69-88 | five comma-free fields, the first a device name, joined by commas are accepted as those fields |
| Ingest.ParsedNotHeader | Valuesreader.py:42 | an accepted row is never the header |
| Ingest.EmptyReady | Valuesreader.py:25 | the buffers start empty, one per device |
| Ingest.WriteDevice | Valuesreader.py:33-48 | one iteration of the write loop keeps a buffer for every device |
| Ingest.WriteDevices | Valuesreader.py:33 | the write loop keeps a buffer for every device |
| Ingest.Flushed | Valuesreader.py:31-48 | `write_to_csv` keeps a buffer for every device |
| Ingest.FlushUnrolled | Valuesreader.py:33 | `write_to_csv` writes Thermostat, then CCTV, then Smoke Detector |
| Ingest.WriteOther | Valuesreader.py:33-48 | writing one device leaves every other buffer and file as it was |
| Ingest.FlushDevice | Valuesreader.py:33-48 | after `write_to_csv`, a device's buffer is empty; its file gained exactly its buffered rows, after the header when new; with nothing buffered its file is untouched |
| Ingest.FlushOther | Valuesreader.py:33-48 | `write_to_csv` changes no file but the three device files |
| Ingest.FlushFacts | Valuesreader.py:31-48 | `write_to_csv` as a whole: every buffer is emptied into its own file, and nothing else changes |
| Ingest.Buffer | Valuesreader.py:88 | buffering a row keeps a buffer for every device |
| Ingest.Timed | Valuesreader.py:95-97 | the timer check keeps a buffer for every device; its effect, a write and a restart at the clock read after it, is stated in TickTimer |
| Ingest.Ticked | Valuesreader.py:59-97 | one pass of the loop keeps a buffer for every device |
| Ingest.Ticks | Valuesreader.py:59-97 | the passes keep a buffer for every device |
| Ingest.Initial | Valuesreader.py:25-56 | the start state has a buffer for every device |
| Ingest.Logged | Valuesreader.py:59-103 | the whole run keeps a buffer for every device |
| Ingest.RejectedLine | Valuesreader.py:69-82 | a line without exactly five fields or with an unknown device changes nothing, not even the timer |
| Ingest.TickTimer | Valuesreader.py:77-97 | a pass with an accepted line or no line writes exactly when five seconds have passed and then resets the timer to the clock read after the write (line 97); otherwise only the line's own buffer gains its row |
| Ingest.AcceptedRowsSnoc | Valuesreader.py:59-88 | one more pass adds its reading, if it has one for the device |
| Ingest.AcceptedNotHeader | Valuesreader.py:42-88 | no accepted row is the header |
| Ingest.InitialFaithful | Valuesreader.py:25-56 | the run starts with every file faithful and nothing accepted |
| Ingest.BufferFaithful | Valuesreader.py:88 | buffering an accepted row keeps written-and-buffered equal to accepted, per device |
| Ingest.BufferRows | Valuesreader.py:88 | buffering adds the pass's reading to exactly its device |
| Ingest.SkipFaithful | Valuesreader.py:72-82 | a rejected line or no line keeps the run faithful |
| Ingest.WriteOneFaithful | Valuesreader.py:36-48 | appending a buffer moves its rows from the buffer to the file, keeping a created file's header at its start and an existing file's rows as its prefix |
| Ingest.FlushFaithful | Valuesreader.py:31-48 | `write_to_csv` keeps the run faithful |
| Ingest.TimedFaithful | Valuesreader.py:95-97 | the timer check keeps the run faithful |
| Ingest.TickFaithful | Valuesreader.py:59-97 | one pass keeps the run faithful |
| Ingest.TicksFaithful | Valuesreader.py:59-97 | every prefix of the run is faithful |
| Ingest.FinalDevice | Valuesreader.py:36-44 | once its buffer is empty, an existing device file is its old rows then every accepted row; a new one exists exactly when a row was accepted and is the header then those rows |
| Ingest.LoggedEverything | Valuesreader.py:59-103 | at the end no accepted row is unwritten, each device file holds its rows in order after one header at most, and no other file is created or changed |
| Ingest.Logger.constructor | Valuesreader.py:25-56 | the logger starts with empty buffers, the files as found and the clock read once |
| Ingest.Logger.WriteToCsv | Valuesreader.py:31-48 | the method is `Flushed` of the state before it |
| Ingest.Logger.WriteFile | Valuesreader.py:34-48 | one iteration of the loop is `WriteDevice` of the state before it |
| Ingest.Logger.HandleLine | Valuesreader.py:69-88 | a line is buffered exactly when it parses, as its parse; otherwise nothing changes |
| Ingest.Logger.Tick | Valuesreader.py:60-97 | one pass of the loop is `Ticked` of the state before it |
| Ingest.Logger.Run | Valuesreader.py:59-103 | the loop and the final write are `Flushed(Ticks(...))` of the state before them |
| Training.TrainingTable | random_both.py:12-22 | row i of the training table is that row's features when its Mode cell is present, and otherwise NaN |
| Training.Survivors | random_both.py:25 | each surviving row comes from a training row with a Mode |
| Training.ExamplesIff | random_both.py:12-25 | a training row survives exactly when its features, as the live scripts compute them, and its Mode are defined; survivors stay in file order |
| Training.ExamplesComplete | random_both.py:25 | a training file with no empty cell loses exactly its first five rows |
| Training.PrepareAligned | random_both.py:35-36 | X and y are aligned row for row: y[k] decodes to example k's mode and X[k] is its classifier input with its own device's code |
| Training.PrepareCodes | random_both.py:28-32 | a mode or device name gets a code exactly when it occurs in a surviving row, and both class lists are sorted |
| Training.PrepareColumns | random_both.py:35 | row k of X holds, column by column, example k's classifier columns |
| Training.DroppedModeHasNoCode | random_both.py:25-29 | a mode that labels only rows `dropna` removes gets no code |

## Left out

- Reading the CSV logs and the serial port is I/O. A log is a sequence of rows,
  going unreadable is None, the serial input is a sequence of events, and
  `decode('utf-8')` is not modelled.
- `time.time`, `strftime` and `time.sleep` are inputs. Each event carries its
  stamp, the clock reading of the timer check and the clock reading taken after
  a write, and the sleep between polls has no effect.
- `readline` of the board's header line (Valuesreader.py:52) is not modelled.
  Nor is the `KeyboardInterrupt` that ends the loop: a run is a finite event
  sequence followed by the `finally` write.
- joblib loading and saving, the random forest, `train_test_split`, the accuracy
  report and `scaler.fit` are left out. The classifier is an opaque function
  field of `Artifact`, and the fitted scale is any nonzero real.
- tkinter, the Treeview styling, `plyer` and `print` are left out. A
  notification is the device name appended to a trace, a dashboard row is a
  `Record`, and a printed line is a `Line`.
- The three poller threads and their unsynchronized shared dictionary are left
  out. One device's polls are modelled sequentially against the shared board.
- Float64 rounding in pandas' rolling sums is not modelled; arithmetic is exact
  `real`.
- A missing Device or Timestamp cell is not modelled: those cells are always
  strings. Missing numeric cells are modelled as NaN.
- A non-numeric field is not a cell value of its own. Valuesreader.py buffers
  the five fields as unparsed strings, so such a field reaches a log; pandas
  then reads an object column and `rolling` raises. The model represents
  such a log by the unreadable-log case (None), which UI.py turns into one
  error row and which ends CCTV.py, as those scripts do for that exception.
- The fallback `x.iloc[0]` of the mode lambda is not modelled. It is
  unreachable, because pandas applies the lambda only to full windows, whose
  mode is never empty.
- The `except ValueError` branch of Valuesreader.py:90-92 is not modelled. It is
  unreachable, because the five-way unpacking is guarded by the length check.
- Monitor.Step and Cctv.Predict keep a branch for a device code the decoder
  does not know (`UnseenDeviceCode`), which cannot happen after a successful
  `transform`. ClassifyNew and PrintNew require decodable codes instead.
- Ingest.IsSpace: its whitespace set is Python's `str.isspace` character set
  for `strip()`, given as explicit ranges. No Unicode database is consulted.
- Monitor.DevicePoller.Run and Ingest.Logger.Run model a bounded number of
  passes of the scripts' `while True` loops.
