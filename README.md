# StatisticsMachine core in Dafny

StatisticsMachine watches a router's traffic. It receives mirrored frames in TZSP
(TaZmen Sniffer Protocol) datagrams and sorts them into classes (network protocol,
transport protocol, ports, direction). Each bucket of frames is aggregated per class and
stored as data entries next to the user-defined data types that describe them. Periodically
the stored traffic of a data type is smoothed into a vector of fixed time windows. That
vector is handed to an ARIMA forecaster in R, and the measured load and the forecast trend
are shown on a 16-column LCD and an LED strip.

The model covers the deterministic core of the Go packages, one Dafny module per source file:

- `SmoothingCreators` (`smoothing_creator.dfy`): time-window binning of samples. The "jobs" of
  `assignSmoothingJobs` run one after another and fill a preallocated `array` in place. The
  result is proved equal to the specification function `Smoothed`. `Smoothed` conserves bytes,
  has one window per range between the first and the last sample, and reproduces the four
  unit-test vectors.
- `FinalDataRouter` (`final_data.dfy`): the `DataRouter` class. It keeps one entry per
  data-type name, in ascending name order (stable sort).
- `DeviceManagers` (`device_manager.dfy`): the front-panel state machine. It holds a
  `map<DisplayTemplate, real>`, the current screen and an output log that stands for the
  external LCD/LED commands. It also has the pure LCD line formatting and the S/D/R trend
  classifier.
- `DisplayTemplates` (`display_template.dfy`): the comparator handed to `sort.Sort`, `Swap`,
  and the (unique) sorted listing of a set of templates.
- `RgbSpaces` (`rgb_space.dfy`): the range-checked constructor and the piecewise linear
  load-to-colour map, with Go's `uint16`/`uint8` arithmetic written out.
- `CompositeErrors` (`composite_error.dfy`): the append-only error collector and its
  one-line-per-entry message.
- `StatisticalStore` (`statistical_data.dfy`): the validator, the frame-to-type match
  predicate, and the store semantics. The store is an in-memory class with the three tables
  (types, data, associations) and autoincrement counters, specified by functions on a `Store`
  value.
- `PredictionAnalysers` (`prediction_analyser.dfy`): clamping to the bandwidth, projection of
  smoothed points, the R `c(...)` literal (with a parser proving it determines the vector),
  the horizon in points, and the empty-input branch of the ARIMA evaluation.
- `FramesParsers` (`frames_parser.dfy`): the TZSP offset rule, the layer precedence, the RX/TX
  rule and the per-class aggregation of `processFramesBucket`, which ends in a write to the
  store.
- Helper modules: `Wrappers` (Option/Result), `Strings` (Go's `strings.Compare` order on
  strings) and `Decimal` (`fmt.Sprint` of integers and its parse-back).

Times are integer milliseconds and `time.Time.Before` is `<`. Byte counts are `nat`.

## Model

| member | source | states |
|---|---|---|
| SmoothingCreators.Sum | src/machine/SmoothingCreator.go:153-164 | the loop returns the sum of the buffer; an empty buffer gives 0 |
| SmoothingCreators.FindPartsCount | src/machine/SmoothingCreator.go:185-192 | the ceiling of span/range, plus one on an exact multiple, equals span div range + 1; the last sample lies in the last window |
| SmoothingCreators.CeilDiv | src/machine/SmoothingCreator.go:141 | the result q is the least q with a <= q*r (math.Ceil of the quotient) |
| SmoothingCreators.GetNextIndex | src/machine/SmoothingCreator.go:172-179 | the least index from startIndex on whose sample is not before sliceStart+sliceLength, or len when there is none |
| SmoothingCreators.InitSmoothingSlice | src/machine/SmoothingCreator.go:51-55 | a fresh vector with exactly FindPartsCount slots |
| SmoothingCreators.SmoothingThread | src/machine/SmoothingCreator.go:107-148 | one job writes windows smoothingIndex.. of its partition with the bytes and end times of the specification, and leaves every other slot untouched |
| SmoothingCreators.SmoothPartition | src/machine/SmoothingCreator.go:114-139 | the loop over a partition with samples: a window closes at the first sample not before the running time, a sample on a boundary goes to the later window, and trailing empty windows are 0 |
| SmoothingCreators.SmoothStep | src/machine/SmoothingCreator.go:117-130 | one turn of the loop: a sample before the running time is buffered, otherwise the window closes with the buffer's sum and the running time moves on; the loop state and the windows written so far are kept |
| SmoothingCreators.FlushWindow | src/machine/SmoothingCreator.go:132-139 | after the loop a nonempty buffer becomes the last window, and then every window of the job is filled |
| SmoothingCreators.FillEmptyPartition | src/machine/SmoothingCreator.go:140-146 | a partition without samples gets zeros in all its windows, each with its own end time (corrected, see Findings) |
| SmoothingCreators.AssignSmoothingJobs | src/machine/SmoothingCreator.go:64-93 | for any thread count >= 1, the recursion that lowers the count until every job gets a window terminates after settling on ThreadsUsed jobs, and the jobs together fill the whole vector with Smoothed |
| SmoothingCreators.InnerJob | src/machine/SmoothingCreator.go:74-81 | a job that is not the last covers exactly threadParts windows from its start, fills them with Smoothed's bins, and hands the next job the first sample at or after its end |
| SmoothingCreators.LastJob | src/machine/SmoothingCreator.go:82-87 | the last job runs from its start to the last sample and fills the vector with Smoothed's bins up to its end |
| SmoothingCreators.ThreadsUsed | src/machine/SmoothingCreator.go:68-91 | the count the recursion settles on is min(threads, parts) |
| SmoothingCreators.EveryJobGetsAPart | src/machine/SmoothingCreator.go:68-69 | floor(parts / threads) >= 1 exactly when there are no more jobs than parts |
| SmoothingCreators.SmoothData | src/machine/SmoothingCreator.go:34-45 | the result equals Smoothed: empty for no samples, otherwise one window per part |
| SmoothingCreators.Bins | src/machine/SmoothingCreator.go:51-55 | the specification vector has exactly `count` windows |
| SmoothingCreators.RunWindowSum | src/machine/SmoothingCreator.go:116-121 | when the samples in [lo,hi) are a contiguous run, the window's bytes are that run's sum |
| SmoothingCreators.SmoothedConservesBytes | src/machine/SmoothingCreator.go:34-148 | the windows together hold exactly the bytes of all samples |
| SmoothingCreators.SmoothedTimestamps | src/machine/SmoothingCreator.go:113-127 | window 0 ends one range after the first sample, each window ends one range after the previous one, and the last sample lies inside the last window |
| SmoothingCreators.SmoothDataTest1 | src/machine/SmoothingCreator_test.go:43-79 | 18 samples a second apart in 5 s windows smooth to [70,120,170,126], and the first window ends at sample 5's time |
| SmoothingCreators.SmoothDataTest2 | src/machine/SmoothingCreator_test.go:83-114 | three samples within one range smooth to the single window [45] |
| SmoothingCreators.SmoothDataTest3 | src/machine/SmoothingCreator_test.go:118-149 | ten samples 400 ms apart in 1 s windows smooth to [45,55,120,105] |
| SmoothingCreators.SmoothDataTest4 | src/machine/SmoothingCreator_test.go:153-191 | four samples 5 s apart in 1 s windows give 16 windows, zero between the samples |
| SmoothingCreators.EmptyPartitionRepeatsTimestamp | src/machine/SmoothingCreator.go:140-146 | with the code as written, two empty windows of one job both get the first window's end time, where Smoothed has two successive end times |
| FinalDataRouter.IndexOfName | src/model/FinalData.go:73-80 | the first index with that name, or -1 when no entry has it |
| FinalDataRouter.RemoveAt | src/model/FinalData.go:85-93 | index >= 0 drops exactly that entry and keeps the others in order; -1 leaves the list unchanged |
| FinalDataRouter.SortByNamePermutation | src/model/FinalData.go:113-119 | the stable sort is a permutation |
| FinalDataRouter.SortByNameSorted | src/model/FinalData.go:113-119 | the stable sort orders the names ascending |
| FinalDataRouter.SortByNameStable | src/model/FinalData.go:113-119 | entries of one name keep their relative order |
| FinalDataRouter.StableSortCharacterized | src/model/FinalData.go:113-119 | any list sorted by name that keeps the per-name order is the sort's result (the sort is determined) |
| FinalDataRouter.SortSortedIdentity | src/model/FinalData.go:113-119 | a list already sorted by name is left as it is |
| FinalDataRouter.SetEntryOutcome | src/model/FinalData.go:51-58 | setting keeps names unique and ascending; the new entry replaces the one of its name (length unchanged) or is added (length + 1); nothing else changes |
| FinalDataRouter.RemoveEntryOutcome | src/model/FinalData.go:62-67 | removing keeps names unique and ascending, drops exactly the entry of that name and keeps all others |
| FinalDataRouter.DataRouter.constructor | src/model/FinalData.go:37-45 | a new router has an empty list, which is valid |
| FinalDataRouter.DataRouter.SetData | src/model/FinalData.go:51-58 | find, remove, append and sort amount to SetEntry, and the unique-sorted invariant is preserved |
| FinalDataRouter.DataRouter.RemoveDataByType | src/model/FinalData.go:62-67 | find and remove amount to RemoveEntry, and the invariant is preserved |
| FinalDataRouter.DataRouter.FindDataByType | src/model/FinalData.go:73-80 | the loop returns IndexOfName of the type's name |
| FinalDataRouter.DataRouter.RemoveDataByIndex | src/model/FinalData.go:85-93 | the splice is RemoveAt |
| FinalDataRouter.DataRouter.AddData | src/model/FinalData.go:99-109 | exactly one entry carrying the type and both series is appended at the end |
| FinalDataRouter.DataRouter.SortDataByType | src/model/FinalData.go:113-119 | the list becomes its stable sort by name |
| FinalDataRouter.SetDataScenario | src/model/FinalData_test.go:9-73 | "DataType 03", "DataType 01", then "DataType 03" again leaves two entries, 01 before 03, with 03 carrying the new series |
| DeviceManagers.Truncate | src/machine/DeviceManager.go:336-345 | the prefix of the name of length min(n, len) |
| DeviceManagers.MeanLines | src/machine/DeviceManager.go:336-368 | line 1 is "RX"/"TX", a space and the name cut to 13 characters, so at most 16 columns; line 2 is the load line |
| DeviceManagers.PredictionLines | src/machine/DeviceManager.go:377-410 | line 1 is direction, space, the name cut to 11 characters, space and the state; line 2 is the load line |
| DeviceManagers.ShownValueScale | src/machine/DeviceManager.go:349-358 | the shown number is the load divided by the unit ratio and rounded down; below 10^4 the unit is B, below 10^10 kB, otherwise MB |
| DeviceManagers.Rate | src/machine/DeviceManager.go:359-364 | the rate suffix is "/" and one character: "/s" for a 1000 ms range, otherwise the character whose code point is the range in seconds |
| DeviceManagers.LoadLineReadBack | src/machine/DeviceManager.go:347-366 | the shown number is recovered from the second line |
| DeviceManagers.GetState | src/machine/DeviceManager.go:296-313 | the state is one of "S", "D", "R" |
| DeviceManagers.GetStateMonotonic | src/machine/DeviceManager.go:296-313 | a larger prediction never gives a lower trend (D < S < R) |
| DeviceManagers.GetStateStillAtActual | src/machine/DeviceManager.go:296-313 | a prediction equal to the actual load is "S" |
| DeviceManagers.GetStateExact | src/machine/DeviceManager.go:296-313 | with designator 0 the state is the sign of prediction minus load |
| DeviceManagers.GetIndexOfActualDataType | src/machine/DeviceManager.go:183-197 | none gives 0; otherwise the first equal template, else the first of the same name, else 0; always a valid index of a nonempty list |
| DeviceManagers.FindMeanLoadOfTemplate | src/machine/DeviceManager.go:320-328 | the result is the value of some measured-load template of that name and direction, or 0 when there is none, whatever the map order |
| DeviceManagers.GetSortedDisplays | src/machine/DeviceManager.go:170-177 | the keys of the map in browsing order: the one sorted listing of the key set |
| DeviceManagers.CollectKeys | src/machine/DeviceManager.go:171-174 | every key of the map exactly once |
| DeviceManagers.SortDisplays | src/machine/DeviceManager.go:175-176 | the sorted listing of the collected keys |
| DeviceManagers.CollectRenamings | src/machine/DeviceManager.go:516-532 | lists every template of the data type with its renamed key and its value |
| DeviceManagers.RemoveKeys | src/machine/DeviceManager.go:533-535 | exactly the listed keys are gone; the other values are kept |
| DeviceManagers.PutEntries | src/machine/DeviceManager.go:536-538 | the listed entries are stored; keys not listed keep their values |
| DeviceManagers.RenamingsRekey | src/machine/DeviceManager.go:513-542 | the three loops together rename exactly the templates of the data type and keep every other entry |
| DeviceManagers.RenameTemplates | src/machine/DeviceManager.go:520-538 | after the three loops the map is the old one with the templates of the data type renamed, each carrying the value of a template it was renamed from |
| DeviceManagers.RekeyedKeepsValues | src/machine/DeviceManager.go:513-542 | a renamed template carries the value it had before renaming |
| DeviceManagers.ColourIndexWithinScale | src/machine/DeviceManager.go:546-548 | the load's point SPACE_MAX / linkBandwidth * load, truncated, is never negative and is at most 1020 exactly when 1020 * load < 1021 * linkBandwidth |
| DeviceManagers.LedColouredIffWithinScale | src/machine/DeviceManager.go:546-556 | the strip gets a colour exactly when 1020 * load < 1021 * linkBandwidth, in particular for every load up to the bandwidth; any larger load panics |
| DeviceManagers.LedPanicIffRgbSpaceFails | src/machine/DeviceManager.go:546-556 | the LED update panics exactly when NewRgbSpace refuses the computed point |
| DeviceManagers.LedEnds | src/machine/DeviceManager.go:546-556 | no load is shown red and a load equal to the bandwidth green |
| DeviceManagers.RecoveryTargetUnique | src/machine/DeviceManager.go:442-462 | at most one remaining template is the recovery target |
| DeviceManagers.RecoveryTargetStart | src/machine/DeviceManager.go:442-449 | while the current template is still a key it is its own target |
| DeviceManagers.RecoveryTargetKept | src/machine/DeviceManager.go:442-449 | deleting a template other than the current one keeps the target |
| DeviceManagers.RecoveryTargetStep | src/machine/DeviceManager.go:452-462 | recovering from the current template (next in the sorted list, else previous) lands on the target of the keys left after its deletion |
| DeviceManagers.DeviceManager.constructor | src/machine/DeviceManager.go:75-93 | empty map, no current screen, nothing shown yet |
| DeviceManagers.DeviceManager.StartDeviceManager | src/machine/DeviceManager.go:96-100 | shows the boot message; nothing else changes |
| DeviceManagers.DeviceManager.WriteMessageOnLcd | src/machine/DeviceManager.go:202-221 | appends exactly the two lines to the output |
| DeviceManagers.DeviceManager.ClearLcd | src/machine/DeviceManager.go:224-243 | appends the boot message to the output |
| DeviceManagers.DeviceManager.UpdateLcdDisplay | src/machine/DeviceManager.go:546-556 | logs the colour of the load's point on the scale, or a panic when NewRgbSpace refuses that point; the state is unchanged |
| DeviceManagers.DeviceManager.FlashLedStrip | src/machine/DeviceManager.go:562-580 | logs exactly the given colour; the state is unchanged |
| DeviceManagers.DeviceManager.UpdateDisplayByLoadI | src/machine/DeviceManager.go:260-264 | the output grows by the measured-load screen of the template |
| DeviceManagers.DeviceManager.UpdateDisplayByPredictionI | src/machine/DeviceManager.go:281-288 | the output grows by the prediction screen, compared with a measured load of the same name and direction |
| DeviceManagers.DeviceManager.UpdateDisplayByLoad | src/machine/DeviceManager.go:248-258 | stores the value under the template; makes it current only when there was none; writes the LCD only when it is (or becomes) current |
| DeviceManagers.DeviceManager.UpdateDisplayByPrediction | src/machine/DeviceManager.go:269-279 | the same rule for a prediction value, showing the trend state |
| DeviceManagers.DeviceManager.SetNextDisplay | src/machine/DeviceManager.go:467-485 | the template after `index` becomes current and is shown; the map is unchanged |
| DeviceManagers.DeviceManager.SetPreviousDisplay | src/machine/DeviceManager.go:490-508 | the template before `index` becomes current and is shown; the map is unchanged |
| DeviceManagers.DeviceManager.HandleLeftButtonPushed | src/machine/DeviceManager.go:140-151 | moves to index-1 only when the current index is not 0; empty map: nothing changes |
| DeviceManagers.DeviceManager.HandleRightButtonPushed | src/machine/DeviceManager.go:154-165 | moves to index+1 only when the current index is not the last; empty map: nothing changes |
| DeviceManagers.DeviceManager.MoveLeft | src/machine/DeviceManager.go:147-149 | at a nonzero index the previous template becomes current and is shown; at index 0 nothing changes |
| DeviceManagers.DeviceManager.MoveRight | src/machine/DeviceManager.go:161-163 | below the last index the next template becomes current and is shown; at the last index nothing changes |
| DeviceManagers.DeviceManager.RecoverFromRemovedDisplay | src/machine/DeviceManager.go:452-462 | shows the next template of the sorted list if there is one, else the previous one, else the boot message |
| DeviceManagers.DeviceManager.RecoverAt | src/machine/DeviceManager.go:455-461 | for the position of the removed template: the next one if any, else the previous one, else the boot message; a shown neighbour is never the removed template |
| DeviceManagers.DeviceManager.DeleteDisplay | src/machine/DeviceManager.go:442-462 | one template is removed; when it was current, the panel first moves to and shows the next template of the sorted listing of the old keys, else the previous one, else writes the boot message and the map becomes empty |
| DeviceManagers.DeviceManager.DeleteDisplays | src/machine/DeviceManager.go:442-462 | exactly the listed templates are removed; the current screen is untouched unless it was one of them, and then, for any order of the list, the panel ends on the first remaining template after it in browsing order, else the last one before it, with that screen last in the log, or on the boot message when nothing remains |
| DeviceManagers.DeviceManager.DeleteTracked | src/machine/DeviceManager.go:443-448 | one turn of the deletion loop keeps the panel on the recovery target of the keys left |
| DeviceManagers.DeviceManager.RecoveryMoves | src/machine/DeviceManager.go:452-462 | removing the target moves the panel to the new target and ends the log with its screen |
| DeviceManagers.DeviceManager.CollectDisplays | src/machine/DeviceManager.go:414-438 | exactly the templates of the data type (only its prediction templates when asked), each once |
| DeviceManagers.DeviceManager.RemoveDataType | src/machine/DeviceManager.go:414-424 | removes every template of the id and nothing else; when the current one was among them, ends on the recovery target (first remaining template after it, else the last before it, else the boot message) |
| DeviceManagers.DeviceManager.TurnOffPrediction | src/machine/DeviceManager.go:428-438 | removes only the prediction templates of the id; when the current one was among them, ends on the recovery target as RemoveDataType does |
| DeviceManagers.DeviceManager.ModifyDataTypeName | src/machine/DeviceManager.go:513-542 | renames every template of the id, keeping id, direction, flag and value; the current screen is renamed with them; nothing is shown |
| DisplayTemplates.Swap | src/machine/DisplayTemplate.go:30-32 | elements i and j are exchanged and nothing else changes |
| DisplayTemplates.LessByName | src/machine/DisplayTemplate.go:39-48 | different names: Less iff the names are in lexicographic order |
| DisplayTemplates.LessByDirection | src/machine/DisplayTemplate.go:49-52 | same name: the smaller direction comes first |
| DisplayTemplates.LessByPrediction | src/machine/DisplayTemplate.go:53-57 | same name and direction: Less is the left prediction flag, so Less(x,x) holds for a prediction template |
| DisplayTemplates.LessExactlyOne | src/machine/DisplayTemplate.go:38-58 | for templates differing in name, direction or flag exactly one of Less(a,b), Less(b,a) holds |
| DisplayTemplates.LessTransitive | src/machine/DisplayTemplate.go:38-58 | the comparator is transitive |
| DisplayTemplates.BeforeAgreesWithLess | src/machine/DisplayTemplate.go:38-58 | the strict total order used for listings agrees with Less wherever Less decides |
| DisplayTemplates.ListingRespectsLess | src/machine/DisplayTemplate.go:38-58 | in a sorted listing no later template is strictly Less than an earlier one |
| DisplayTemplates.ListingUnique | src/machine/DeviceManager.go:170-177 | two sorted listings of the same key set are equal; for key sets whose templates differ in name, direction or flag, the browsing order therefore does not depend on map order |
| DisplayTemplates.SortedDisplays | src/machine/DeviceManager.go:170-177 | the browsing order lists each key once, in order |
| RgbSpaces.NewRgbSpace | src/machine/RgbSpace.go:25-37 | succeeds iff the value is at most 1020, keeping it; otherwise fails with the range message |
| RgbSpaces.ComponentsExact | src/machine/RgbSpace.go:43-65 | for every accepted value the unsigned conversions never wrap: the four linear pieces hold exactly |
| RgbSpaces.Endpoints | src/machine/RgbSpace.go:44-64 | 0 is (255,0,0) and 1020 is (0,255,0) |
| RgbSpaces.Saturated | src/machine/RgbSpace.go:43-65 | every accepted colour has one component 255 and another 0 |
| RgbSpaces.Continuous | src/machine/RgbSpace.go:43-65 | neighbouring values differ by one step in exactly one component |
| RgbSpaces.ValueOfColorComponents | src/machine/RgbSpace.go:43-65 | the map is injective on 0..1020: the value is recovered from its colour |
| RgbSpaces.ColorComponentsOfValue | src/machine/RgbSpace.go:43-65 | every colour on the scale comes from the value read back from it |
| RgbSpaces.AboveRangeWraps | src/machine/RgbSpace.go:8-37 | 1021 is refused, and its components would wrap around if computed |
| CompositeErrors.CompositeError.constructor | src/configuration/CompositeError.go:27-29 | a new collector has an empty list |
| CompositeErrors.CompositeError.AddError | src/configuration/CompositeError.go:34-41 | appends exactly one entry (id, description, time) at the end; duplicate ids are kept |
| CompositeErrors.CompositeError.Evaluate | src/configuration/CompositeError.go:44-57 | no error iff the list is empty; otherwise the message is the entries' lines in insertion order; the list is not modified |
| CompositeErrors.MessageAppend | src/configuration/CompositeError.go:46-54 | adding an entry at the end adds its line at the end of the message |
| CompositeErrors.MessageLineCount | src/configuration/CompositeError.go:46-54 | the message has one line per entry |
| CompositeErrors.MessageNonEmpty | src/configuration/CompositeError.go:44-57 | the message of a nonempty list is nonempty and ends with a newline |
| CompositeErrors.Evaluated | src/configuration/CompositeError.go:27-57 | a fresh collector fed entries evaluates to no error iff no entry was added |
| StatisticalStore.CheckDataType | src/model/StatisticalData.go:378-398 | no error iff 1 <= name length <= 255, port <= 65535, transport <= 255 and network <= 65535; otherwise the composite message of the violations |
| StatisticalStore.ViolationsCount | src/model/StatisticalData.go:378-398 | one error per broken rule, all with id 1 |
| StatisticalStore.CheckDataTypeLines | src/model/StatisticalData.go:378-398 | the validator's message has one line per broken rule |
| StatisticalStore.MatchesFullySpecified | src/model/StatisticalData.go:103-109 | a type with all three fields set matches exactly frames with that network and transport protocol and the port on either side |
| StatisticalStore.MatchesWiden | src/model/StatisticalData.go:103-109 | clearing a field (making it a wildcard) never loses a match |
| StatisticalStore.CaptureScenarioCounts | src/model/StatisticalData_test.go:70-110 | the seven frames of the scenario match 1,2,3,4,2,1,3 of its four types |
| StatisticalStore.WriteEntryStores | src/model/StatisticalData.go:98-131 | an aggregate no type matches is not stored; otherwise it gets a fresh id and is associated with exactly the matching types |
| StatisticalStore.WriteEntriesCoherent | src/model/StatisticalData.go:96-136 | writing any list of aggregates keeps the tables coherent |
| StatisticalStore.WriteTypeOutcome | src/model/StatisticalData.go:144-166 | the insert succeeds iff the fields are valid and no name or capture triple clashes; a refusal leaves the store unchanged; success stores the type under a fresh id |
| StatisticalStore.WriteTypeScenarioAccepted | src/model/StatisticalData_test.go:114-151 | three distinct types are stored under ids 1, 2, 3 |
| StatisticalStore.WriteTypeScenarioRefused | src/model/StatisticalData_test.go:114-151 | an unnamed type, a second "Type02" and a duplicate capture triple are refused; three types remain |
| StatisticalStore.First | src/model/StatisticalData.go:211 | the query by example (also used at lines 245 and 321) finds the smallest key among the rows the probe selects, or nothing |
| StatisticalStore.FirstByNonzeroId | src/model/StatisticalData.go:172-196 | a lookup by nonzero id finds exactly that row |
| StatisticalStore.FirstByEmptyName | src/model/StatisticalData.go:320-322 | the empty name selects every row, so it finds the smallest key |
| StatisticalStore.FirstByName | src/model/StatisticalData.go:320-322 | a nonempty name finds the one type of that name |
| StatisticalStore.ModifyTypeOutcome | src/model/StatisticalData.go:202-235 | the update keeps the id and is refused on a validator failure, an unknown or zero id, or a uniqueness clash, leaving the store unchanged; otherwise only that row changes (corrected, see Findings) |
| StatisticalStore.ModifyAsWrittenAgrees | src/model/StatisticalData.go:202-235 | for a nonzero id the code as written and the corrected update agree |
| StatisticalStore.ModifyIdZeroOverwrites | src/model/StatisticalData.go:210-221 | with id 0 the code as written overwrites the type with the smallest id |
| StatisticalStore.RemoveTypeOutcome | src/model/StatisticalData.go:241-294 | id 0 or an unknown id is refused with the store unchanged; otherwise the type, its associations and exactly the entries left without any type are removed |
| StatisticalStore.RemoveOldOutcome | src/model/StatisticalData.go:344-373 | exactly the entries with time <= limit and their associations are removed; the store stays coherent |
| StatisticalStore.InsertByTimeLists | src/model/StatisticalData.go:328-332 | inserting by time keeps a listing of a set sorted and complete |
| StatisticalStore.StatisticalData.constructor | src/model/StatisticalData.go:73-90 | empty tables, counters at 1, coherent |
| StatisticalStore.StatisticalData.WriteNewDataEntries | src/model/StatisticalData.go:96-136 | the loop stores the aggregates as WriteEntries does and keeps the store coherent |
| StatisticalStore.StatisticalData.WriteNewDataType | src/model/StatisticalData.go:144-166 | the insert behaves as WriteType and keeps the store coherent |
| StatisticalStore.StatisticalData.InsertDataType | src/model/StatisticalData.go:151-165 | the insert of a validated row behaves as InsertType: refused on a unique-constraint clash, otherwise stored under its id; a coherent store stays coherent |
| StatisticalStore.StatisticalData.GetDataType | src/model/StatisticalData.go:172-196 | found iff the id is nonzero and present; the result is that row |
| StatisticalStore.StatisticalData.ModifyDataType | src/model/StatisticalData.go:202-235 | behaves as the corrected ModifyType and keeps the store coherent |
| StatisticalStore.StatisticalData.RemoveDataType | src/model/StatisticalData.go:241-294 | behaves as RemoveType and keeps the store coherent |
| StatisticalStore.StatisticalData.RemoveOrphans | src/model/StatisticalData.go:268-279 | the loop deletes exactly the related entries with no association left |
| StatisticalStore.StatisticalData.RemoveOldDataEntries | src/model/StatisticalData.go:344-373 | behaves as RemoveOld and keeps the store coherent |
| StatisticalStore.StatisticalData.FirstMatching | src/model/StatisticalData.go:211 | the scan over the keys returns the row First describes |
| StatisticalStore.StatisticalData.ListLastDataEntries | src/model/StatisticalData.go:316-340 | an error iff no type has the name; otherwise that type's entries with time > limit and the direction, each once, ascending by time |
| StatisticalStore.SortByTime | src/model/StatisticalData.go:328-332 | lists a set of entries each once in ascending time |
| PredictionAnalysers.Standardized | src/machine/PredictionAnalyser.go:162-174 | length kept; each element is min(element, bandwidth) |
| PredictionAnalysers.StandardizeVector | src/machine/PredictionAnalyser.go:162-174 | the loop computes Standardized |
| PredictionAnalysers.StandardizedWithinBand | src/machine/PredictionAnalyser.go:162-174 | a vector within the bandwidth is unchanged |
| PredictionAnalysers.StandardizedIdempotent | src/machine/PredictionAnalyser.go:162-174 | clamping twice is clamping once |
| PredictionAnalysers.TransformFinalDataToUintArray | src/machine/PredictionAnalyser.go:179-185 | the loop yields the byte counts of the points, in order, with the same length |
| PredictionAnalysers.SeriesConservesBytes | src/machine/PredictionAnalyser.go:179-185 | the projected series of a smoothed vector sums to the bytes of the samples |
| PredictionAnalysers.UintSliceToRVector | src/machine/PredictionAnalyser.go:251-264 | the loop builds "c(", the decimals joined by ",", ")" |
| PredictionAnalysers.RVectorCommas | src/machine/PredictionAnalyser.go:255-261 | n >= 1 numbers give n-1 commas; the empty vector gives "c()" |
| PredictionAnalysers.RVectorRoundTrip | src/machine/PredictionAnalyser.go:251-264 | the literal parses back to the vector, so the numbers appear in input order |
| PredictionAnalysers.HorizonPoints | src/machine/PredictionAnalyser.go:75-76 | the least number of ranges that covers the horizon (integer ceiling division) |
| PredictionAnalysers.EvaluateArima | src/machine/PredictionAnalyser.go:211-246 | an empty input puts `horizon` zeros in its own slot; a nonempty one puts the forecast there; other slots are unchanged |
| PredictionAnalysers.ParallelArimaComputations | src/machine/PredictionAnalyser.go:191-202 | one result per input, in input order, each as EvaluateArima defines it |
| FramesParsers.EncapsulateRoundTrip | src/machine/FramesParser.go:121-130 | the offset rule (byte 5 for tags 0 and 1, otherwise 6 + payload[5]) recovers the frame behind any four-byte header and tag, with, for the other tags, a length byte and that many bytes of tag data |
| FramesParsers.EncapsulatedIsSuffix | src/machine/FramesParser.go:121-130 | whatever the rule extracts is the suffix after the payload's own header, tag, length byte and tag data |
| FramesParsers.ReadTzsp | src/machine/FramesParser.go:121-130 | the header reading computes the offset rule, with None where the code would index out of range |
| FramesParsers.ClassifyPacket | src/machine/FramesParser.go:119-176 | the field-by-field reading of the layers computes Classify |
| FramesParsers.UdpOverridesTcp | src/machine/FramesParser.go:155-168 | with a UDP layer present, the TCP ports have no say |
| FramesParsers.Ipv6OverridesIpv4 | src/machine/FramesParser.go:143-154 | with an IPv6 layer present, the IPv4 protocol has no say |
| FramesParsers.DirectionRule | src/machine/FramesParser.go:134-142 | the direction is 1 iff the Ethernet source is the router's MAC, otherwise 0 |
| FramesParsers.NoLayersNoFields | src/machine/FramesParser.go:119 | absent layers leave every field 0 |
| FramesParsers.AggregateFrames | src/machine/FramesParser.go:111-193 | the frame loop computes Aggregate: only UDP datagrams to port 37008 count, each adds its encapsulated length to its class |
| FramesParsers.AggregateFails | src/machine/FramesParser.go:121-130 | the aggregation fails exactly when some TZSP header cannot be read |
| FramesParsers.AggregateContents | src/machine/FramesParser.go:170-190 | one aggregate per class some frame falls in, holding the sum of those frames' lengths and the last frame's time |
| FramesParsers.RepositoryToSlice | src/machine/FramesParser.go:195-200 | the slice holds every aggregate of the map exactly once |
| FramesParsers.SliceListsBucket | src/machine/FramesParser.go:170-200 | that slice lists exactly one record per distinct class |
| FramesParsers.ProcessFramesBucket | src/machine/FramesParser.go:110-204 | the store receives exactly the bucket's aggregates, one per class; nothing is written when a header is unreadable |
| FramesParsers.NoTzspNothingWritten | src/machine/FramesParser.go:113-195 | a bucket without a datagram to port 37008 writes nothing |
| Strings.LessIffFirstDifference | src/machine/DisplayTemplate.go:39-48 | the string comparison the templates and the router sort by is the lexicographic order |
| Strings.LessTransitive | src/model/FinalData.go:113-119 | the name order is transitive |
| Decimal.ParseNatToString | src/machine/PredictionAnalyser.go:256 | the decimal rendering of a number parses back to it |

## Left out

- The Python scripts `led_strip.py` and `char_lcd.py` only drive LCD and LED hardware.
- The database layer (gorm transactions, migrations, rollback and panic paths) is not modelled; the store is three in-memory tables. Other store failures (a failed query or delete) panic in the code and are not modelled.
- The R session pool, the R commands of `evaluateArima` for a nonempty series and their parsing back: the forecast is a parameter.
- `ListDataTypes`, the HTTP controllers, the configuration loaders, logging and `main` are not part of this model.
- Goroutine loops, tickers, `sync.WaitGroup` and mutexes: the smoothing jobs and the ARIMA jobs run one after another (the source calls them synchronously as well).
- The button pins and handlers of `DeviceManager`, and `CloseDeviceManager`.
- `exec.Command` calls to the LCD and LED scripts become entries of an output log.
- Floating point: the averages of `LoadAnalyser.go` and `averagePrediction`. The colour point of `updateLcdDisplay` is computed on `real` numbers and truncated exactly.
- DeviceManagers.DeviceManager.UpdateLcdDisplay: a load whose point lies above 1020 (any load of at least 1021/1020 of the bandwidth) makes Go panic and end the process; the model logs a `LedPanic` entry and carries on, so log entries after a `LedPanic` are not produced by Go. A bandwidth of 0 and points of 65536 or more, where Go's float-to-`uint16` conversion is implementation-dependent, are logged as `LedPanic` too.
- Float display values and designator: `real` numbers, not IEEE float64.
- `src/machine/PredictionCreator.go` is not part of this model: it repeats the smoothing with float means under the same function names and cannot build together with `SmoothingCreator.go`.
- Clock readings (`time.Now`) are parameters: a `now` string in the error collector and the validator, a per-frame clock sequence in the frame parser. Times are integer milliseconds; `Sub(...)/1000000` is exact on them.
- Go's map iteration order is unspecified. Loops over maps choose the next key nondeterministically, so every result is proved for any order; the browsing order is the one exception, see `DisplayTemplates.Before` below.
- DisplayTemplates.Before: breaks ties between templates equal in name, direction and flag by data type id. Go's unstable `sort.Sort` has no such tie-break (for two prediction templates both `Less` calls hold), so for such key sets the order Go browses in depends on map order, and the model fixes one of the orders Go may produce.
- TZSP decoding by gopacket is a function parameter `decode` from the encapsulated bytes to the decoded layers.
- `model.RawDataType` is not among the source files, and `model.RawData` lacks the field the parser fills. The class key is a datatype of the five fields, and stored aggregates carry those fields directly.
- The panics of the code become results: an unreadable TZSP header makes `processFramesBucket` write nothing (`None` / `panicked`). `fmt.Println("OK")` is left out.
- Names are `seq<char>`; Go's `len` and slicing count bytes, which agrees for ASCII names only.
- The texts of the store's error messages are a `StoreError` tag, except the validator's message, which is modelled.
- The order of rows with equal time in SQLite's `Order("time asc")` is unspecified: the result is pinned down as a set listed in ascending time.
- SmoothingCreators.SmoothData: requires time-ordered samples, a range >= 1 and a thread count >= 1, which the callers guarantee; the `uint64` sum is not wrapped (it is a nat); `math.Ceil` of a float64 quotient is modelled exactly (exact for spans below 2^53 ms).
- PredictionAnalysers.StandardizeVector: the `element < 0` branch is dead for unsigned values and is left out.
- PredictionAnalysers.HorizonPoints: requires a smoothing range >= 1, which the configuration guarantees.
- DeviceManagers.DeviceManager.ModifyDataTypeName: requires a current screen, because the code dereferences it unconditionally.
- DeviceManagers.Rate: Go's `string(uint)` is a rune conversion, modelled literally (the character with that code point, or U+FFFD); only "/s" for 1000 ms reads as intended.
- Modelled literally: after the last template is removed, the current-screen pointer keeps the removed template while the LCD shows the boot message.

## Findings

| source | as written | input that shows it | evidently intended | confidence | as-written member | corrected member |
|---|---|---|---|---|---|---|
| src/machine/SmoothingCreator.go:140-146 | a job whose partition holds no sample writes all its zero windows with the same timestamp, `runningTime`, which is never advanced in that loop | samples (t0, 10 B) and (t0+5000, 20 B), range 1000 ms, 3 jobs: windows 2 and 3 both get t0+3000 | each window ends one range after the previous one (t0+3000, t0+4000), as in the branch with samples | not executed | SmoothingCreators.EmptyPartitionRepeatsTimestamp | SmoothingCreators.FillEmptyPartition |
| src/model/StatisticalData.go:202-235 | `ModifyDataType(0, t)` looks the old row up by example with ID 0; gorm ignores zero fields, so it finds the row with the smallest id and overwrites it | a store holding type 5 "A"; modifying id 0 to a valid type "B" replaces type 5 | an id of 0 is refused as unknown, as `GetDataType` and `RemoveDataType` do | not executed | StatisticalStore.ModifyIdZeroOverwrites | StatisticalStore.ModifyTypeOutcome |
