# Verified model of the inspection system

A Dafny 4.11 model of the decision-making parts of a printed-circuit-board inspection system, with proofs about all
inputs, all runs or all reachable states. `dafny verify dfyconfig.toml` checks everything.

| file | models |
|---|---|
| `StableSort`, `Boxes`, `BoxGeometry`, `AveragePrecision`, `Matching`, `MeanAp`, `MeanApProperties` | the golden-set evaluator: ranking, IoU, greedy matching, interpolated average precision, mAP, and what each of them averages |
| `SseFrames`, `FrameProperties`, `ChatTurn`, `TurnProperties`, `ChatClient`, `TextLines`, `WireText` | one chat turn end to end: bounded tool loop with tools that may raise, event-stream printer, chunked reader (the subset of sections 9.2.5 and 9.2.6 of the WHATWG HTML Standard the two readers handle) |
| `Calendar`, `TrendBuckets`, `Counting` | Gregorian and ISO-week bucket generation and the trend merge |
| `DecimalText`, `LabelFiles`, `LabelProperties` | the YOLO label writer against the label reader, and the export's grouping and statistics |
| `ImageState`, `InferenceProperties`, `Pipeline`, `PipelineSafety`, `PipelineContents`, `PipelineMessages`, `FailureReasons`, `ImageOwners`, `OwnerProperties`, `PipelineRuns` | the image status machine, the inference stage, and all interleavings of enqueues, deliveries, crashes, failure hooks and requests |
| `ActivationGate`, `ModelActivation`, `ActivationAudit`, `ActivationAccounts`, `CacheCoherence`, `ActivationRuns` | the seeded version, evaluation, the activation gate, and the worker's model cache |
| `Alerts` | the alert re-arm rule as a three-state automaton |
| `AgentChain`, `ChainProperties` | the Analyst, Reviewer, Summarizer chain for any model behaviour |
| `Defects`, `SeverityBands` | the severity of a group of defects |
| `Ingestion`, `ScanProperties` | directory scans |
| `Retention`, `RetentionProperties` | the purge, its foreign keys, and purges that are repeated or cut off |
| `Lockout` | progressive login lockout |
| `Launcher` | the desktop launcher's start-up polling |
| `WhiteSpace`, `Sublists`, `Wrappers` | what each language trims away; what filtering a list means; options, results, removal from a list |

State that the program updates in place is a class whose methods equate the new state with a specification function of
the old one; the lemmas are about those functions, and say what they mean without naming them: which entries a filter
keeps, what a count counts, which fields a write sets. Concurrency is modelled as transition systems over commit points: a
`Next` function over events, `Run` for a whole history, and invariants over every run.

## What the proofs found

- `failure_reason` is not always set exactly on FAILED images. The agents' worker runs four tasks at a time
  (`docker-compose.yml:46`), so two deliveries for one image can overlap: one fails and its hook commits FAILED, then the
  other commits COMPLETED over it from its older snapshot, which leaves the reason behind.
  `PipelineRuns.RaceStoresReasonOnCompleted` is such a run. `FailureReasons.ReasonsHoldExactlyInCalmRuns`: a run keeps the property
  if and only if no agent task or request commits its status over a row that FAILED meanwhile.
- An image can stay unfinished for good. `OwnerProperties.ServedExactlyWhenNoLastOwnerIsLost`: an unfinished image always keeps
  someone who can move it on (an inference or agent message, a task, a failure hook, or an owed enqueue) if and only if no
  event loses the last of them. Before an analysis two kinds do: the enqueue after ingestion fails, which is only logged, or
  the ingesting process dies before it (`backend/app/ingestion/service.py:174-180`), and later scans skip the known path; or
  the inference task's failure hook ends without storing FAILED, because its own write fails (`backend/app/tasks/base.py:49-55`)
  or the reason is empty. Such an image stays QUEUED or PROCESSING whatever happens
  (`OwnerProperties.StrandedBeforeAnalysisIsForGood`). While ANALYZING three kinds do: the inference worker dies between its second
  commit and the enqueue of the agent task, or in its own failure hook; the API dies between a request's commit and its enqueue
  (`backend/app/inspections/router.py:202-205`); or a failure hook ends without storing FAILED. Afterwards redelivery and new
  requests do nothing (`OwnerProperties.UnservedStep`). Five runs in `PipelineRuns` show these losses.
- A chat turn does not always end in one `done`. `run_turn` catches nothing around a tool (`backend/app/chat/agent.py:159-161`),
  and tools raise for a name they do not know (`backend/app/chat/tools.py:350-353`) or arguments they cannot read
  (`backend/app/chat/tools.py:45-59`); the model's client, too, lets some exceptions through, as for a response whose `usage`
  is null (`backend/app/agents/llm_client.py:159`). The stream then just stops, and no message is stored
  (`TurnProperties.UnknownToolEndsTheTurn`). `TurnProperties.EndsInDoneExactlyWhenCompletes`: it ends in exactly one `done`, with a stored
  message, if and only if every call the model asks for executes and its client raises nothing but the one exception it
  promises; `ChatClient.ClientSeesDoneExactlyWhenTurnCompletes` carries this to the client.
- A purge removes files while it runs but rows only with its one commit, so a purge cut off in between leaves rows whose files
  are gone. The next purge makes up for it, except that its audited number of files is short by those already removed
  (`RetentionProperties.CutOffPurgesAreAbsorbed`), and unless the retention period was lengthened in between
  (`RetentionProperties.LongerRetentionKeepsRowsWithoutFiles`).
- The bucket list is the image of the date range exactly when the range runs forward or spans no bucket
  (`TrendBuckets.SpanIsImageExactlyWhen`); a range reversed inside one week or month still yields that bucket.
- The seed inserts a version that is active, COMPLETED and rated 0.99 without an evaluation or an audit entry
  (`backend/app/db/seed.py:75-91`), at API start (`backend/docker-entrypoint.sh:6-9`). Activating it again is audited with
  that mAP, although metrics are documented to have no writer but the evaluation (`backend/app/tasks/models.py:33-35`):
  `ActivationRuns.SeededActivationIsUnevaluated`. `ActivationAudit.EvaluatedExactlyWhenNotSeeded`: an audited activation
  follows an audited evaluation of its version with its mAP if and only if the version is not the seeded one.
- The cache can go stale for good if the API process dies between an activation's commit and its reload message
  (`ActivationRuns.LostEnqueueIsReachable`, `CacheCoherence.StaleStaysStale`). `CacheCoherence.CoherentExactlyInCarefulRuns`:
  a run keeps the cache coherent if and only if every such death finds another reload still to come, or the worker holding
  and loading nothing but the active version.
- Re-activating the active version while another version is being activated can leave no version active, with both
  activations audited as done (`ActivationRuns.RivalActivationsCanLeaveNone`).
- The chain's coverage check compares sets of ids, so one detection may be described twice
  (`ChainProperties.CoverageAllowsRepeats`). `ChainProperties.EachDescribedOnceExactlyWhen`: for every model behaviour, a success has
  at least one finding per detection, and every detection is described exactly once if and only if the numbers are equal,
  so comparing the lengths too is the missing guard (`ChainProperties.LengthGuardSuffices`).
- `mark_failed`'s docstring says COMPLETED has no outgoing transition (`backend/app/inspections/state.py:72-73`); the table
  allows COMPLETED to ANALYZING (`backend/app/inspections/state.py:32`). The model follows the table.

## Model

| member | source | states |
|---|---|---|
| `StableSort.SortDescIsStable` | backend/app/inference/golden_set.py:175 | sorting by confidence, reversed, gives a descending list in which entries of equal confidence keep their order and none is lost |
| `StableSort.StableSortIsUnique` | backend/app/inference/golden_set.py:175 | that description has exactly one solution, so any stable descending sort agrees |
| `StableSort.ResortIsIdentity` | backend/app/inference/golden_set.py:142 | re-sorting a list that is already descending changes nothing |
| `StableSort.CutoffKeepsRankingPrefix` | backend/app/inference/golden_set.py:31-34 | ranking only the entries at or above a confidence gives a prefix of the full ranking |
| `StableSort.SortKeepsItems` | backend/app/inference/golden_set.py:175 | the sorted list is a permutation of the given one, item by item |
| `Boxes.IouIsAFraction` | backend/app/inference/golden_set.py:123-132 | IoU lies in [0, 1] for all corner values, inverted boxes included |
| `Boxes.IouIsOneExactlyOnEqualBoxes` | backend/app/inference/golden_set.py:123-132 | IoU is 1 if and only if the boxes coincide and have area |
| `BoxGeometry.IouCountsCells` | backend/app/inference/golden_set.py:123-132 | for whole-number corners IoU is the number of unit cells in both boxes over the number of cells in either, and 0 when there are none |
| `BoxGeometry.IouScales` | backend/app/inference/golden_set.py:123-132 | scaling both boxes changes nothing, so that count fixes IoU for all rational corners |
| `AveragePrecision.PrecisionsAndRecalls` | backend/app/inference/golden_set.py:143-153 | the counting loop yields each prefix's precision, and recalls that rise by one ground-truth share exactly at hits |
| `AveragePrecision.RaiseToEnvelope` | backend/app/inference/golden_set.py:155-156 | the in-place right-to-left pass leaves every entry at its suffix maximum |
| `AveragePrecision.AreaIsSumOfBest` | backend/app/inference/golden_set.py:158-163 | the area under the envelope is the sum, over the hits, of the best precision reaching them |
| `AveragePrecision.ComputeAveragePrecision` | backend/app/inference/golden_set.py:135-163 | the three passes compute (1/num_gt) times the sum over j of the best precision among prefixes with at least j hits; 0 without ground truth |
| `AveragePrecision.BestFromIsMaximum` | backend/app/inference/golden_set.py:155-156 | the closed form's terms are maxima: upper bounds that are attained |
| `AveragePrecision.ApMonotone` | backend/app/inference/golden_set.py:135-163 | a ranking with at least as many hits in every prefix never scores less |
| `AveragePrecision.ApIsAFraction` | backend/app/inference/golden_set.py:135-163 | with at most num_gt hits, AP lies in [0, 1] |
| `AveragePrecision.ApIsOneExactlyWhenTopAreHits` | backend/app/inference/golden_set.py:135-163 | AP is 1 if and only if the top num_gt ranked predictions are all hits |
| `AveragePrecision.ApOfOneHit` | backend/app/inference/golden_set.py:135-163 | one hit, at rank r, among n ground-truth boxes scores 1/(r*n) |
| `AveragePrecision.TrailingMissesAreFree` | backend/app/inference/golden_set.py:143-163 | predictions ranked behind the last hit change nothing |
| `Matching.BestFree` | backend/app/inference/golden_set.py:176-185 | the chosen box is the first of the best-overlapping unconsumed boxes, or none when no free box overlaps |
| `Matching.FindBestFree` | backend/app/inference/golden_set.py:177-185 | the candidate loop finds that box and its IoU |
| `Matching.MatchOne` | backend/app/inference/golden_set.py:176-189 | one prediction's new flags and verdict |
| `Matching.ScoreRanked` | backend/app/inference/golden_set.py:172-189 | the loop's verdicts are those of the flags after each ranking prefix |
| `Matching.ClassApAtIou` | backend/app/inference/golden_set.py:166-191 | counting, matching and scoring compute the closed-form AP of the ranked hit list; the second sort is the identity |
| `Matching.MatchedSetShrinksWithThreshold` | backend/app/inference/golden_set.py:175-189 | after every prediction the boxes matched at a stricter threshold are among those matched at a looser one |
| `Matching.HitsAreConsumedBoxes` | backend/app/inference/golden_set.py:186-189 | true positives equal set flags after every prediction, and never exceed num_gt |
| `Matching.MatchingIsInjective` | backend/app/inference/golden_set.py:179-188 | no ground-truth box is consumed by two predictions |
| `Matching.Hit` | backend/app/inference/golden_set.py:176-188 | a hit consumes a free box of the prediction's own image with IoU at or above the threshold |
| `Matching.RankedByConfidence` | backend/app/inference/golden_set.py:175 | predictions are taken by descending confidence, each exactly once |
| `Matching.HitExactlyWhen` | backend/app/inference/golden_set.py:176-188 | a prediction is a hit if and only if its image has a free box that overlaps it, at the threshold or above |
| `Matching.ConsumeSetsOneFlag` | backend/app/inference/golden_set.py:186-188 | a hit sets the flag of the box it consumes and no other |
| `Matching.ClassApAntitoneInThreshold` | backend/app/inference/golden_set.py:166-191 | a class's AP never rises with the IoU threshold |
| `Matching.CutoffNeverRaisesClassAp` | backend/app/inference/golden_set.py:31-34 | dropping the predictions below any confidence never raises AP |
| `Matching.ClassApIsAFraction` | backend/app/inference/golden_set.py:166-191 | a class's AP lies in [0, 1] |
| `Matching.ClassApIsOneExactlyWhenTopMatch` | backend/app/inference/golden_set.py:166-191 | a class's AP is 1 if and only if its top num_gt predictions each consume a box |
| `MeanAp.EvaluateClasses` | backend/app/inference/golden_set.py:204-227 | the per-class pass: classes without ground truth report 0 and are excluded, the others get the ten-threshold sweep |
| `MeanAp.ComputeMap` | backend/app/inference/golden_set.py:194-238 | mAP@50, mAP@50-95 and per-class values, or the empty-golden-set error; always 0 <= mAP@50-95 <= mAP@50 <= 1 |
| `MeanAp.Map50DominatesMap5095` | backend/app/inference/golden_set.py:234-238 | mAP@50 is at least mAP@50-95 for every prediction list and ground truth |
| `MeanAp.Map50IsOneExactlyWhenEveryClassIsPerfect` | backend/app/inference/golden_set.py:234 | mAP@50 is 1 if and only if each class with ground truth has its top predictions all matched |
| `MeanAp.RefusedExactlyWithoutGroundTruth` | backend/app/inference/golden_set.py:229-232 | the evaluation is refused if and only if no listed class has a box in any image |
| `MeanApProperties.ClassPredictionsAreItsDetections` | backend/app/inference/golden_set.py:208-213 | a class is scored on exactly the detections of that class, each with its image, confidence and box, as often as its image lists it |
| `MeanApProperties.ClassPredictionsAreInOrder` | backend/app/inference/golden_set.py:208-213 | they are listed image after image, and within an image as the detector lists them |
| `MeanApProperties.ClassTruthIsItsBoxes` | backend/app/inference/golden_set.py:214-217 | a class's ground truth is exactly the boxes of that class, image by image, in order |
| `MeanApProperties.NumGtCountsBoxes` | backend/app/inference/golden_set.py:171 | num_gt is the number of flags a state has in which every box is consumed |
| `MeanApProperties.OtherDetectionsDoNotCount` | backend/app/inference/golden_set.py:208-213 | adding or removing detections of other classes, anywhere, changes neither a class's report nor its ten values |
| `MeanApProperties.OtherBoxesDoNotCount` | backend/app/inference/golden_set.py:214-221 | and so for boxes of other classes |
| `MeanApProperties.ThresholdsAreTwentieths` | backend/app/inference/golden_set.py:37 | the ten thresholds are 0.50, 0.55, ..., 0.95 |
| `MeanApProperties.IncludedCount` | backend/app/inference/golden_set.py:218-223 | each listed class with ground truth enters the averages as often as it is listed, no other class does |
| `MeanApProperties.ReportsAreAps` | backend/app/inference/golden_set.py:218-226 | a listed class reports its AP at 0.5, or 0 without ground truth; no other class is reported |
| `MeanApProperties.Map50AveragesReports` | backend/app/inference/golden_set.py:234 | mAP@50 is the average of the included classes' reports, and there is at least one |
| `MeanApProperties.Map5095AveragesSweeps` | backend/app/inference/golden_set.py:235-237 | mAP@50-95 is the average of the included classes' averages over the ten thresholds |
| `MeanApProperties.Map5095EqualsMap50ExactlyWhen` | backend/app/inference/golden_set.py:234-237 | the two are equal if and only if no included class loses anything at the strictest threshold |
| `SseFrames.Feed` | frontend/src/lib/api-client.ts:864-872 | one read returns the complete frames of buffer plus chunk, and keeps the rest |
| `SseFrames.SplitAppend` | frontend/src/lib/api-client.ts:864-872 | text arriving later only extends the unfinished remainder |
| `SseFrames.ReadFrames` | frontend/src/lib/api-client.ts:860-873 | for every chunking, the frames and the final buffer are those of the whole text |
| `SseFrames.ParseFields` | frontend/src/lib/api-client.ts:809-814 | the line loop yields the last event and data fields, trimmed |
| `SseFrames.SplitUndoesPrint` | backend/app/chat/router.py:93-94 | splitting the printed text gives back exactly the printed frames, with nothing left over |
| `SseFrames.FieldsOfPrintedEvent` | backend/app/chat/router.py:93-94 | both fields of a printed frame read back exactly |
| `SseFrames.ReadEventStream` | frontend/src/hooks/useEventStream.ts:86-107 | stops at the first cancelled read, and invalidates once per complete named frame received so far |
| `SseFrames.EveryEventInvalidatesOnce` | frontend/src/hooks/useEventStream.ts:109-123 | every printed event invalidates once, keep-alive comments never |
| `FrameProperties.TrimStrips` | frontend/src/lib/api-client.ts:812-813 | trimming drops white space at both ends, all of it and nothing else |
| `FrameProperties.FieldLines` | frontend/src/lib/api-client.ts:811-814 | a field is what follows its name and colon, trimmed; other lines say nothing |
| `FrameProperties.LastFieldCounts` | frontend/src/lib/api-client.ts:811-814 | of several lines for a field the last one counts, and without any the field is missing |
| `FrameProperties.InvalidatesExactlyWhen` | frontend/src/hooks/useEventStream.ts:109-122 | a frame invalidates if and only if its last event line names an event, in more than white space |
| `ChatTurn.ChunkContent` | backend/app/chat/agent.py:138-141 | the slicing loop's pieces |
| `ChatTurn.DeltasRejoin` | backend/app/chat/agent.py:138-141 | the pieces join to the content, are non-empty, at most 40 long, and as few as possible |
| `ChatTurn.RunTurn` | backend/app/chat/agent.py:129-172 | at most five rounds; an answer exactly when one comes in time and no call before it raises; events are the tool calls in order, the pieces, one `done` with every call and its result, or only the calls up to the first that raises; the messages sent are, round by round, the model's own text and calls and then each call's id with that call's result |
| `ChatTurn.MessageStream` | backend/app/chat/router.py:97-141 | the stream and the stored message, if any, of the outcome the loop has, and the conversation behind it, which starts with the history and the user's message |
| `TurnProperties.EndsInDoneExactlyWhenCompletes` | backend/app/chat/router.py:114-141 | exactly one `done`, last, and a stored message if and only if every call asked for executes and the model's client raises only what it promises; then tool calls, and either the answer's pieces or one error; a success stores the first answer without calls, and every call asked for with its result, or no calls if none was; otherwise only the calls up to and including the first that raises, and nothing stored |
| `TurnProperties.CompletedTurnTells` | backend/app/chat/router.py:120-134 | a turn that completes announces every call in order, then only pieces of the answer, or the error and the end |
| `TurnProperties.AskedRoundByRound` | backend/app/chat/agent.py:159-168 | the calls are those of each round in the model's order, round after round |
| `ChatTurn.FiveRoundsAtMost` | backend/app/chat/agent.py:131 | at most five rounds of tools are run, and five if and only if the model asks for tools every time |
| `TurnProperties.UnknownToolEndsTheTurn` | backend/app/chat/tools.py:350-353 | asking for an unknown tool and answering next gives a stream of that one tool call, with nothing stored |
| `ChatClient.ReceiveTurn` | frontend/src/lib/api-client.ts:858-873 | for every chunking, the client's loop hands on the parsed events of the whole text's frames, up to the first payload that is no JSON text, which ends the turn with an error |
| `ChatClient.ParsedAppend` | frontend/src/lib/api-client.ts:815-828 | frames are handled one after another: later frames add events, and nothing is handled after a malformed payload |
| `ChatClient.FailsExactlyWhenMalformed` | frontend/src/lib/api-client.ts:815-828 | a turn is cut short if and only if some frame's payload is no JSON text; a stream of nothing but events is handed on event by event |
| `ChatClient.FaithfulCodecExists` | backend/app/chat/router.py:93-94 | the assumption on the payload codec can be met: an escaping printer and its reader meet it for every event |
| `ChatClient.ClientReceivesTheStream` | frontend/src/lib/api-client.ts:808-873 | for every chunking of a printed turn the client receives exactly the server's events, without an error, and its buffer ends empty |
| `ChatClient.ClientSeesDoneExactlyWhenTurnCompletes` | frontend/src/lib/api-client.ts:808-873 | for every model, tools and chunking, the client is handed one final `done` if and only if the turn completes on the server |
| `ChatClient.ShownTextIsDoneContent` | backend/app/chat/agent.py:137-168 | in a successful turn the client is handed every call in order, pieces that join to the content of the final message, which is the model's first answer, and with that message every call asked for with its result |
| `Calendar.NextIsSuccessor` | backend/app/stats/service.py:264-265 | the calendar's next day is the next ordinal, across months and leap years |
| `Calendar.OrdinalIsCivil` | backend/app/stats/service.py:247-265 | the day number of every valid date is the closed civil formula in its year, month and day |
| `Calendar.WeekdaysAdvance` | backend/app/stats/service.py:251-252 | weekdays advance by one a day, and 1970-01-01 was a Thursday |
| `Calendar.OrdinalIsLexicographic` | backend/app/stats/service.py:254-262 | comparing dates is comparing ordinals |
| `Calendar.OfOrdinalInverts` | backend/app/stats/service.py:247-248 | ordinals and valid dates correspond one to one |
| `Calendar.TruncIsLastStart` | backend/app/stats/service.py:177 | truncation gives the last day, Monday or first of the month at or before the date |
| `Calendar.TruncMonotone` | backend/app/stats/service.py:177 | truncation never reorders dates |
| `Calendar.TruncMeans` | backend/app/stats/service.py:177 | a day stays, a week goes back to its Monday within six days, a month to its first |
| `TrendBuckets.NextStartIsNext` | backend/app/stats/service.py:256-265 | seven days on from a Monday, or a day past a month's last, is the next bucket start with none between |
| `TrendBuckets.GenerateBuckets` | backend/app/stats/service.py:240-266 | strictly increasing, and exactly the bucket starts between the truncated ends |
| `TrendBuckets.SpanIsImageExactlyWhen` | backend/app/stats/service.py:240-266 | that list is the image of truncation on the range if and only if the range runs forward or spans no bucket |
| `TrendBuckets.FillTable` | backend/app/stats/service.py:191-193 | the table holds every bucket and type's count, for any order of the query's rows |
| `TrendBuckets.ComputeTrends` | backend/app/stats/service.py:171-204 | one point per bucket with its counts; the totals count each detection not past the current bucket once |
| `TrendBuckets.DateOfCountsDays` | backend/app/stats/service.py:177 | a moment's date is its number of whole days from 1970-01-01 |
| `TrendBuckets.CellCountsItsDetections` | backend/app/stats/service.py:178-193 | a cell counts the reported detections of that type on completed images processed within the period and that bucket |
| `TrendBuckets.TotalsConserveDetections` | backend/app/stats/service.py:177-202 | with no processing time in the future, the totals add up to all selected detections |
| `DecimalText.ParseUndoesPrint` | backend/app/datasets/exporter.py:47 | a number printed with six decimals parses to the same number |
| `DecimalText.FormatError` | backend/app/datasets/exporter.py:47 | printing rounds to the nearest millionth, half a millionth at most |
| `DecimalText.MicrosTieToEven` | backend/app/datasets/exporter.py:47 | a value half-way between two millionths is printed as the even one |
| `DecimalText.PrintsSixDecimals` | backend/app/datasets/exporter.py:47 | a whole number of millionths prints as its whole part, a point, and the rest in six digits |
| `DecimalText.DigitsAreDecimal` | backend/app/datasets/exporter.py:47 | the whole part is printed in base ten without leading zeros |
| `DecimalText.ReadsSignedDecimals` | backend/app/inference/golden_set.py:117 | digits with a point read as whole part plus fraction, with either sign; no digits are refused |
| `DecimalText.ReadsSignedIntegers` | backend/app/inference/golden_set.py:116 | digits read as that whole number, with either sign; no digits are refused |
| `LabelFiles.LineRoundTrip` | backend/app/datasets/exporter.py:39-47 | a printed line splits into its five fields and parses to its class and rounded centre box |
| `LabelProperties.ClassNumbers` | backend/app/datasets/exporter.py:30 | the six class names and their numbers, in order |
| `LabelProperties.LineFields` | backend/app/datasets/exporter.py:39-47 | a line's five fields are the class number, centre, width and height, in that order |
| `LabelFiles.LoadGroundTruth` | backend/app/inference/golden_set.py:102-120 | the reader's loop: blank lines skipped, first bad line's error, missing file empty |
| `LabelProperties.ClassAtIsAPosition` | backend/app/inference/golden_set.py:116 | class numbers are list positions, counted from the end when negative; all others are refused |
| `LabelProperties.FieldsExactly` | backend/app/inference/golden_set.py:113-118 | which box or error a line's fields give |
| `LabelProperties.LinesReadInOrder` | backend/app/inference/golden_set.py:109-119 | lines are read one after another, and a bad line ends the reading whatever follows it |
| `LabelProperties.OneLineReads` | backend/app/inference/golden_set.py:106-119 | a blank line gives nothing, another its box or its error, a missing file nothing |
| `LabelProperties.ReadsExactlyWhen` | backend/app/inference/golden_set.py:109-120 | a file is read in full if and only if each line is blank or well formed |
| `LabelFiles.FileRoundTrip` | backend/app/datasets/exporter.py:91-107 | a written file loads with the same length, order and class names, corners within 0.75e-6, exactly equal when no rounding happened |
| `LabelFiles.GroupByImage` | backend/app/datasets/exporter.py:69-73 | the dictionary holds each image's rows in order, images by first appearance |
| `LabelFiles.GroupingConservesCounts` | backend/app/datasets/exporter.py:69-73 | grouping neither drops nor repeats a row, whatever is counted |
| `LabelFiles.CountImage` | backend/app/datasets/exporter.py:91-103 | one image's label lines are its confirmed detections', and the counters advance by its rows |
| `LabelProperties.OfImageIsFilter` | backend/app/datasets/exporter.py:71-72 | an image's rows are exactly those of the query that name it, in order |
| `LabelProperties.ConfirmedIsFilter` | backend/app/datasets/exporter.py:98-99 | a file holds exactly its image's confirmed detections, in order |
| `LabelProperties.LinesAreEnded` | backend/app/datasets/exporter.py:106-107 | a file is its lines, each ended by a newline; without lines it is empty |
| `LabelFiles.Generate` | backend/app/datasets/exporter.py:85-133 | one file per image with its confirmed detections; the statistics count the query's rows |
| `LabelFiles.StatisticsAddUp` | backend/app/datasets/exporter.py:128-133 | labels split by class add up to the label count and to the confirmed reviews; reviews add up to the rows |
| `LabelFiles.ExportedFileLoads` | backend/app/inference/golden_set.py:98-120 | every exported file loads as its image's confirmed detections |
| `ImageState.InspectionImage.Transition` | backend/app/inspections/state.py:44-66 | the new row, or the refusal with the row untouched |
| `ImageState.InspectionImage.MarkFailed` | backend/app/inspections/state.py:69-78 | the new row, or the refusal with the row untouched |
| `ImageState.TransitionKeepsStamps` | backend/app/inspections/state.py:53-66 | a permitted transition leaves `processed_at` exactly on terminal and a reason exactly on FAILED rows, whatever the row was |
| `ImageState.FailureIsReachable` | backend/app/inspections/state.py:69-78 | marking failed succeeds if and only if the image is FAILED already, or is not COMPLETED and the reason is non-empty |
| `ImageState.AllowedExactly` | backend/app/inspections/state.py:22-34 | the permitted transitions, one by one |
| `ImageState.TransitionWrites` | backend/app/inspections/state.py:53-66 | when a transition is accepted, and which values status, reason and stamp get |
| `ImageState.MarkFailedWrites` | backend/app/inspections/state.py:75-78 | marking failed sets status and reason, and on a FAILED image the reason alone |
| `ImageState.ProcessImage` | backend/app/inference/service.py:53-97 | for any detector output: all detections kept are stored, with what is reported, and DETECTED if and only if something is; or the first unknown class, or a row the table's checks refuse, ends it with nothing stored and the image as it was |
| `ImageState.StorableExactlyWhen` | backend/app/models/detection.py:12-25 | a detection can be stored if and only if its class is one of the six, its confidence rounds into [0, 1], and its box runs forward and overlaps the image with an area |
| `InferenceProperties.StoredRowsDescribe` | backend/app/inference/service.py:66-74 | each row holds its detection's class by name, the common part of its box and the image, its confidence within half a thousandth, and is reported if and only if it reaches the threshold |
| `InferenceProperties.OutcomeIsUnique` | backend/app/inference/service.py:62-83 | detections and thresholds determine the rows, their order, what is handed on, and which refusal there is |
| `InferenceProperties.TiesGoToEven` | backend/app/inference/service.py:37-38 | a confidence half-way between two thousandths is stored as the even one |
| `InferenceProperties.KeptReachTheFloor` | backend/app/inference/service.py:62-63 | a threshold keeps exactly the detections that reach it, in order |
| `InferenceProperties.ReportedAreMarked` | backend/app/inference/service.py:76-77 | exactly the rows marked as reported are handed on, in order |
| `ImageState.ComputeSeverityMax` | backend/app/analyses/service.py:34-42 | a severity that is attained and bounds all |
| `InferenceProperties.HighestIsUnique` | backend/app/analyses/service.py:34-42 | there is only one such severity, and it is among those given |
| `ImageState.CreateBaselineAnalysis` | backend/app/analyses/service.py:45-83 | one finding per reported detection in order, the maximum severity, and the move out of DETECTED |
| `ImageState.RunInferenceStage` | backend/app/tasks/pipeline.py:83-104 | between the two commits DETECTED is passed through, and the agents are enqueued only with an analysis, exactly when everything kept can be stored; otherwise nothing is committed |
| `PipelineSafety.EveryRunIsSafe` | backend/app/tasks/pipeline.py:65-251 | in every run: at most one analysis, detections of at most one inference pass, never DETECTED, ANALYZING only with an analysis, `processed_at` exactly on terminal rows |
| `PipelineSafety.StepKeepsInv` | backend/app/tasks/pipeline.py:65-251 | every event keeps the invariant behind it |
| `PipelineSafety.MissingAnalysisBranchIsDead` | backend/app/tasks/pipeline.py:191-197 | whoever finds ANALYZING finds exactly one analysis |
| `PipelineContents.AnalysisIsTheLastWritten` | backend/app/tasks/pipeline.py:198-251 | in every run the stored analysis is the outcome of the last agent task that committed one, or the inference task's baseline while there is none |
| `PipelineContents.DetectionsAreConserved` | backend/app/tasks/pipeline.py:65-104 | in every run the image's detections are as many as its one inference pass stored, and one more for each annotation, however often tasks are redelivered |
| `PipelineMessages.InferenceMessagesAreConserved` | backend/app/tasks/base.py:38-67 | in every run the inference messages queued, held or owed and those settled are one, the ingesting process's, and the redeliveries: no death or exception loses one |
| `PipelineMessages.AgentMessagesAreConserved` | backend/app/tasks/pipeline.py:104-251 | in every run the analyses asked for, by the inference task, a request or a redelivery, are those queued, running, in a hook or owed, and those acknowledged or lost before they were sent |
| `PipelineMessages.PassesAreNumbered` | backend/app/tasks/pipeline.py:65-104 | every inference pass begun has a number of its own, which its detections carry |
| `PipelineMessages.ReasonsAreRaised` | backend/app/tasks/base.py:38-67 | a stored failure reason is one that a task of the run failed with |
| `PipelineMessages.InferenceFailureIsStored` | backend/app/tasks/base.py:38-67 | an inference task that fails while nothing else writes leaves its image FAILED with its reason, and nothing else changed |
| `PipelineMessages.AgentFailureIsStored` | backend/app/tasks/base.py:38-67 | and so does any of the agent tasks that run |
| `FailureReasons.ReasonStep` | backend/app/inspections/state.py:53-61 | from a consistent state one event keeps "a reason exactly on FAILED" if and only if it is calm |
| `FailureReasons.ReasonsHoldExactlyInCalmRuns` | backend/app/tasks/base.py:58-67 | a run keeps it throughout if and only if no agent task or request commits its status over a row that FAILED since it was read |
| `PipelineRuns.RaceStoresReasonOnCompleted` | backend/app/tasks/pipeline.py:250-251 | a twelve-event run, with one agent message redelivered, that ends COMPLETED with a failure reason |
| `OwnerProperties.ServedStep` | backend/app/tasks/base.py:38-67 | from a state where an unfinished image has an owner (message, task, hook, owed enqueue), one event leaves it without one if and only if it gives up the last owner without moving the image on |
| `OwnerProperties.ServedExactlyWhenNoLastOwnerIsLost` | backend/app/tasks/pipeline.py:65-138 | a run keeps the image owned while QUEUED, PROCESSING or ANALYZING if and only if no event loses the last owner |
| `OwnerProperties.UnservedStep` | backend/app/tasks/pipeline.py:72-81 | an unfinished image without an owner gets one again if and only if it is ANALYZING and a request that read COMPLETED earlier commits, or the inference task newly fails; all else leaves its row |
| `OwnerProperties.StrandedImagesStayStranded` | backend/app/tasks/pipeline.py:186-189 | without such an event it stays unfinished, its row unchanged, over whole runs |
| `OwnerProperties.StrandedBeforeAnalysisIsForGood` | backend/app/ingestion/service.py:106-107 | one that lost its last owner while QUEUED or PROCESSING stays so in every run |
| `PipelineRuns.WorkerDeathStrands` | backend/app/tasks/pipeline.py:104-138 | a run in which the inference worker dies between its second commit and the enqueue |
| `PipelineRuns.ApiDeathStrands` | backend/app/inspections/router.py:202-205 | a run in which an image analysed before is requested again and the API dies between commit and enqueue |
| `PipelineRuns.FailedHookStrands` | backend/app/tasks/base.py:49-55 | a run in which the agent task fails and its hook's own write fails |
| `PipelineRuns.FailedIngestStrands` | backend/app/ingestion/service.py:174-180 | a run in which the enqueue after ingestion fails, and the image stays QUEUED |
| `PipelineRuns.FailedInferenceHookStrands` | backend/app/tasks/base.py:49-55 | a run in which the inference task fails and its hook's own write fails, and the image stays PROCESSING |
| `ActivationGate.ModelStore.FindActive` | backend/app/settings/models_service.py:116-118 | finds the one active row, if any |
| `ActivationAudit.FindsTheActive` | backend/app/settings/models_service.py:116-118 | under the unique index a query finds exactly the one active version, or that there is none |
| `ActivationGate.ModelStore.Update` | backend/app/models/model_version.py:15-22 | a flushed flag change the unique index accepts keeps at most one version active and every other column |
| `ActivationGate.ModelStore.SwapActive` | backend/app/settings/models_service.py:116-126 | old off, then new on, with the index holding after each flush; exactly the new one ends active |
| `ActivationGate.ModelStore.Activate` | backend/app/settings/models_service.py:73-149 | the gate's four refusals change nothing; success leaves exactly this version active and one audit entry; the index holds after every flush |
| `ActivationGate.GateOpensExactlyWhen` | backend/app/settings/models_service.py:90-114 | open if and only if the evaluation is COMPLETED and the mAP is at least 0.95 or overridden with a justification that is not blank; otherwise the first condition that fails |
| `ActivationGate.EntryTells` | backend/app/settings/models_service.py:128-146 | the audit entry's id, mAP, override and justification, the latter two only below 0.95, and the version it replaced |
| `ActivationAudit.EvaluatingIsNotActivatable` | backend/app/settings/models_service.py:90-96 | a version under evaluation is refused, whatever else is given |
| `ActivationAudit.RunningExactlyWhileEvaluated` | backend/app/tasks/models.py:43-100 | in every run without the worker's death, a version is marked as running if and only if it is being evaluated |
| `ActivationAccounts.AuditGrows` | backend/app/settings/models_service.py:128-146 | the audit gains one entry when an activation commits and one when an evaluation ends, and from nothing else |
| `ActivationAccounts.TransactionsEnd` | backend/app/settings/models_service.py:88-147 | a transaction begins past the gate and ends with its enqueue, the index's refusal, or its process |
| `ActivationAccounts.ReloadsAreConserved` | backend/app/settings/models_router.py:77-84 | in every run each audited activation has one reload, delivered, queued, owed, or lost with its process; only redeliveries add more |
| `ActivationAccounts.WorkerMoves` | backend/app/tasks/models.py:105-111 | a reload empties the cache and selects anew, an inference selects only for an empty cache, a load fills or empties it, a death leaves the worker idle and empty |
| `ActivationAudit.EveryActivationIsGated` | backend/app/settings/models_service.py:89-114 | in every interleaving, seeded or not, at most one version is active, and every audited activation met the 0.95 floor or had a justified override, with the seed's metrics or an earlier audited evaluation's |
| `ActivationAudit.EveryCommitPassedTheGate` | backend/app/settings/models_service.py:89-114 | every audited commit is of a row loaded with a COMPLETED evaluation and metrics, past the gate |
| `ActivationAudit.EvaluatedExactlyWhenNotSeeded` | backend/app/db/seed.py:70-90 | an audited activation has an mAP of at least 0.95 or a justified override, and follows an audited evaluation of that version with that mAP if and only if the version is not the seeded one |
| `ActivationAudit.SeedKeepsMetrics` | backend/app/db/seed.py:75-90 | the seeded version stays COMPLETED with the seed's metrics in every run |
| `ActivationRuns.SeededActivationIsUnevaluated` | backend/app/db/seed.py:75-90 | a four-event run that audits an activation of the seeded version with no evaluation before it |
| `ActivationAudit.ActivationWinsExactlyWhen` | backend/app/settings/models_service.py:116-127 | a committing transaction leaves its version active if and only if no third version became active since its SELECT and a version loaded as active still is |
| `ActivationRuns.RivalActivationsCanLeaveNone` | backend/app/settings/models_service.py:116-127 | a run in which two audited activations leave no version active |
| `CacheCoherence.CoherentStep` | backend/app/settings/models_router.py:77-84 | from a coherent state one event keeps cache coherence if and only if it is careful: not the API's death between commit and enqueue, unless another reload is to come or all the worker holds or loads is active |
| `CacheCoherence.CoherentExactlyInCarefulRuns` | backend/app/inference/model.py:132-186 | a run keeps the cache empty, or the active version's, or with a reload to come, throughout, if and only if all its events are careful |
| `CacheCoherence.CacheIsCoherent` | backend/app/inference/model.py:132-186 | in particular when no enqueue is lost |
| `CacheCoherence.DrainedWorkerUsesActiveVersion` | backend/app/tasks/models.py:105-111 | in careful runs, with no reload to come, a warm worker holds the one active version |
| `CacheCoherence.LostEnqueueMakesStale` | backend/app/settings/models_router.py:77-84 | from any drained warm state, activating another version and losing its enqueue makes the cache stale |
| `ActivationRuns.LostEnqueueIsReachable` | backend/app/settings/models_router.py:77-84 | a concrete run that ends stale |
| `CacheCoherence.StaleStaysStale` | backend/app/inference/model.py:132-135 | a stale cache stays, with the same model, until another activation commits or the worker dies |
| `Alerts.AlertTable.EvaluateScope` | backend/app/alerts/service.py:95-134 | one poll's effect on the rows, and the row it raised |
| `Alerts.AlertTable.EvaluateThresholds` | backend/app/alerts/service.py:137-181 | a pass is its polls in order, and reports exactly the rows it added |
| `Alerts.AlertTable.AcknowledgeAlert` | backend/app/alerts/service.py:214-239 | acknowledges once; unknown or acknowledged alerts are refused unchanged |
| `Alerts.Latest` | backend/app/alerts/service.py:83-92 | the newest row of a scope |
| `Alerts.RateIsTheShare` | backend/app/alerts/service.py:149 | a reading's rate exceeds, or equals, a threshold if and only if its defective images exceed, or equal, that share of its images |
| `Alerts.PassPollsEachReading` | backend/app/alerts/service.py:149-176 | a pass polls every batch once, in order, and then the time window if it has images, each with its own share of defective images and sample size |
| `Alerts.PollWrites` | backend/app/alerts/service.py:112-134 | a poll adds one open row with its own reading, or notes when the latest acknowledged alert was first observed at or below the threshold, or changes nothing |
| `Alerts.AcknowledgementWrites` | backend/app/alerts/service.py:217-226 | an acknowledgement sets who and when, once, and nothing else |
| `Alerts.OnlyScopeChanges` | backend/app/alerts/service.py:95-134 | a poll adds at most one row, of its own scope, and touches no row of another scope |
| `Alerts.RowsRefineAutomaton` | backend/app/alerts/service.py:95-134 | the latest-row logic is the armed, raised, quiet automaton, scope by scope |
| `Alerts.AtMostOneOpenAlert` | backend/app/alerts/service.py:107-120 | after any polls and acknowledgements a scope has at most one unacknowledged alert |
| `Alerts.NoAlertStorm` | backend/app/alerts/service.py:107-134 | between two consecutive alerts of a scope lies its acknowledgement and later a poll at or below the threshold |
| `AgentChain.Chain.DraftUntilApproved` | backend/app/agents/chain.py:73-117 | the loop's verdict and calls, for any model behaviour |
| `AgentChain.Chain.RunChain` | backend/app/agents/chain.py:120-162 | the result or abort, and the whole call log |
| `ChainProperties.SuccessShape` | backend/app/agents/chain.py:81-117 | a success at attempt k makes 2k+1 calls, k within the bound; each revision is asked for with the previous review's corrections; every draft covers the detections and only the last review approved; what is summarized is that review's own findings, or the draft if it gave none, and the result keeps each one's id, description, causes, solutions and severity |
| `ChainProperties.CallsAreBounded` | backend/app/agents/chain.py:82 | at most two calls per attempt before the summary, whatever the model does |
| `ChainProperties.CoversExactlyWhenIdsAgree` | backend/app/agents/chain.py:63-70 | equal id sets mean: every detection is described, and nothing else is |
| `ChainProperties.AbortReason` | backend/app/agents/chain.py:63-117 | why a chain aborts: nothing to describe, no attempts, the last call failed or did not cover the detections, or every review rejected |
| `ChainProperties.ResultCoversDetections` | backend/app/agents/chain.py:63-70 | the result's ids equal the detections' as a set; its severity is attained by and bounds every finding |
| `ChainProperties.CoverageAllowsRepeats` | backend/app/agents/chain.py:63-70 | one detection may be described twice |
| `ChainProperties.EachDescribedOnceExactlyWhen` | backend/app/agents/chain.py:63-70 | every success has at least as many findings as detections, and as many if and only if each detection is described exactly once |
| `ChainProperties.LengthGuardSuffices` | backend/app/agents/chain.py:63-70 | for distinct detections, equal lengths beside equal id sets are exactly one finding per detection |
| `AgentChain.RunAgentAnalysis` | backend/app/tasks/pipeline.py:183-251 | an abort leaves the stored analysis as it was; an ANALYZING image is completed either way, others are untouched |
| `SeverityBands.CompositionIsAverageWeight` | backend/app/knowledge/defects.py:320-322 | the sum of weighted shares is the average weight |
| `SeverityBands.BandsAreQuarters` | backend/app/knowledge/defects.py:286-288 | the four bands are the quarters of the range from 1 to 4 |
| `SeverityBands.RateFactorIsLinear` | backend/app/knowledge/defects.py:324-325 | the factor rises linearly from one half at no defective board to 1 at all of them, the rate cut to that range |
| `SeverityBands.ReadingExactlyWhen` | backend/app/knowledge/defects.py:318-332 | which severity a group reads as, from its average weight and rate |
| `SeverityBands.WorseRateNeverReadsMilder` | backend/app/knowledge/defects.py:323-332 | severity never falls as the defect rate rises |
| `SeverityBands.ScalingChangesNothing` | backend/app/knowledge/defects.py:320-332 | multiplying all counts by a positive number changes nothing |
| `SeverityBands.LighterGroupNeverReadsWorse` | backend/app/knowledge/defects.py:320-332 | of two groups of one size the one with less total weight never reads worse |
| `SeverityBands.HeavierDefectNeverReadsMilder` | backend/app/knowledge/defects.py:273-283 | replacing a defect by one of an equally heavy or heavier class never lowers the severity |
| `SeverityBands.NeverAboveHeaviestClass` | backend/app/knowledge/defects.py:297-332 | never above the heaviest class present |
| `SeverityBands.AllCriticalReadsAtLeastMedium` | backend/app/knowledge/defects.py:290-294 | an all-critical group reads at least MEDIUM at any rate |
| `SeverityBands.PureGroupReadsAsItsClass` | backend/app/knowledge/defects.py:284-288 | one class found on every board reads as that class's own severity |
| `Ingestion.IterBatchFiles` | backend/app/ingestion/naming.py:34-39 | the files one level below each immediate subdirectory, in order |
| `ScanProperties.ScanVisitsEachFileOnce` | backend/app/ingestion/naming.py:34-39 | every file of every immediate subdirectory is visited, each once, in the order of the listings, and nothing else is |
| `Ingestion.StemUndoesSuffix` | backend/app/ingestion/naming.py:31 | a board number and a suffix joined by a dot come apart again, other dots kept |
| `Ingestion.StemDropsOnlyASuffix` | backend/app/ingestion/naming.py:31 | the board number is the whole name, or the name up to its last dot with text on both sides |
| `Ingestion.ScannedFilesAreInferred` | backend/app/ingestion/naming.py:17-31 | every visited file gets its batch and board, so a scan never reports "not under a batch subdirectory" |
| `Ingestion.FindDuplicate` | backend/app/ingestion/service.py:81-89 | finds an image of the batch with the checksum if and only if there is one |
| `Ingestion.Database.IngestBatchFile` | backend/app/ingestion/service.py:103-158 | one file's effect on batches, boards and images, and its outcome |
| `ScanProperties.VisitWrites` | backend/app/ingestion/service.py:103-158 | when a visit skips; whose checksum a duplicate repeats; and every column of the one row an ingested or failed file adds |
| `Ingestion.Database.ScanDirectory` | backend/app/ingestion/service.py:191-211 | the visits in order; counts per outcome that add up to the files discovered; new rows are the ingested and failed files; an unreadable path changes nothing |
| `Ingestion.ScansKeepDistinct` | backend/app/ingestion/service.py:103-158 | unique paths, no repeated checksum among a batch's good images, and every row's batch and board exist |
| `Ingestion.IngestedChecksumsDiffer` | backend/app/ingestion/service.py:137-145 | two images of a batch taken in as good never share a checksum or a path, and their batch and board exist |
| `Ingestion.SettledExactlyWhenUnchanged` | backend/app/ingestion/service.py:106-145 | a visit changes nothing if and only if the path is known, not under a batch, or a good copy in an existing batch |
| `Ingestion.ScanIsIdempotent` | backend/app/ingestion/service.py:191-211 | scanning an unchanged directory again leaves the database as it was |
| `Ingestion.CopyIsDuplicate` | backend/app/ingestion/service.py:137-145 | a second good copy in a batch is reported as the first one's duplicate, and its path stays unknown |
| `Retention.KeysProtect` | backend/app/retention/service.py:190-199 | the foreign keys forbid deleting an image or analysis that another row points to |
| `Retention.Store.RemoveDerivedFile` | backend/app/retention/service.py:69-89 | removes the file unless it is under the watch root, and counts it only if it was there |
| `RetentionProperties.TargetsExactly` | backend/app/retention/service.py:69-89 | a file is removed if and only if a visited row recorded a path for it and it resolves outside the watch root |
| `Retention.Store.DetachSessions` | backend/app/retention/service.py:197-207 | clears pointers to the given analyses; keys stay valid |
| `Retention.Store.DeleteAnalysis` | backend/app/retention/service.py:208-209 | deletes one analysis no session points to, with its reviews; keys stay valid |
| `Retention.Store.DeleteImage` | backend/app/retention/service.py:211-216 | deletes one image without analyses, with its detections and dispositions; keys stay valid |
| `Retention.Store.ExecutePurge` | backend/app/retention/service.py:172-237 | no statement is refused; the new tables, the files gone, the preview's counts, the audit entry |
| `Retention.Store.CutOffPurge` | backend/app/retention/service.py:187-236 | a purge cut off at any point before its commit removes the files of the rows it had visited and changes nothing else |
| `RetentionProperties.OnlyExpiredRowsGo` | backend/app/retention/service.py:92-127 | exactly the rows strictly older than their cutoff go, with what hangs on them; all chat sessions stay |
| `RetentionProperties.KeptExactlyWithinRetention` | backend/app/retention/service.py:57-66 | a row is kept if and only if its age is at most its retention period, reports and exports with their own or the general one |
| `RetentionProperties.PreviewCountsWhatGoes` | backend/app/retention/service.py:152-169 | the dry run's counts are the numbers of rows a real run removes |
| `RetentionProperties.SecondPurgeFindsNothing` | backend/app/retention/service.py:172-178 | a repeat with the same or earlier cutoffs deletes no row and no file |
| `RetentionProperties.LaterPurgeAbsorbsEarlier` | backend/app/retention/service.py:172-178 | purging with some cutoffs and then with later ones leaves what purging once with the later ones leaves |
| `RetentionProperties.LaterPreviewCountsTheRest` | backend/app/retention/service.py:152-169 | and the later purge's counts are exactly what expired in between |
| `RetentionProperties.CutOffPurgesAreAbsorbed` | backend/app/retention/service.py:204-236 | after any number of purges cut off anywhere, the next one that commits, at a clock not before theirs, leaves what one purge leaves, and its audited file count is short by exactly the files already removed, hence right if and only if there were none |
| `RetentionProperties.LongerRetentionKeepsRowsWithoutFiles` | backend/app/retention/service.py:204-216 | but after a longer retention period is set, an image that is kept has lost its file |
| `RetentionProperties.WatchRootIsSafe` | backend/app/retention/service.py:79-85 | no file under the watch root is removed, whatever paths the rows recorded |
| `Lockout.User.Authenticate` | backend/app/auth/service.py:60-89 | a locked or deactivated account does not move, even for the right password; success resets; failure counts and locks |
| `Lockout.FailureWrites` | backend/app/auth/service.py:74-80 | a failure adds one, and locks until now plus the lockout once there are enough |
| `Lockout.LastAttemptDecides` | backend/app/auth/service.py:66-89 | after any history one more attempt is refused without a trace while locked, else forgets all failures if it is right, and else adds one |
| `Lockout.SlowGuessesAllCount` | backend/app/auth/service.py:66-80 | wrong passwords that each wait out the longest lockout all count, and the last one locks for no longer than that |
| `Lockout.LockoutGrowsToCap` | backend/app/auth/service.py:52-57 | lockouts never shorten with more failures and never exceed the cap |
| `Lockout.LockoutDoubles` | backend/app/auth/service.py:52-57 | nothing below the limit, the base at the limit, and from there double each time until the cap |
| `Lockout.FailuresAreSpacedByLockouts` | backend/app/auth/service.py:60-80 | without a success, the n-th counted failure comes at least the lockouts of failures m..n-1 after the m-th |
| `Lockout.DefaultGuessesAreSlow` | backend/app/core/config.py:49-51 | with the default settings the n-th counted failure, n at least 10, comes at least 1860 + 1800(n - 10) seconds after the fifth |
| `Launcher.StartStack` | launcher/core/src/orchestrator.rs:101-153 | terminates within ceil(timeout/interval)+1 polls; exactly one terminal state, last and returned; the announced states and commands; nothing after a failed step |
| `Launcher.DeadlinePasses` | launcher/core/src/orchestrator.rs:128-152 | the deadline has passed by the bound's poll |
| `Launcher.CeilDivIsLeast` | launcher/core/src/orchestrator.rs:127-152 | the bound is the least number of intervals that reaches the timeout |
| `Launcher.FailuresTell` | launcher/core/src/orchestrator.rs:12-27 | when the runtime check and the start fail, with which cause, and when containers count as running |
| `Launcher.WaitsAreNumbered` | launcher/core/src/orchestrator.rs:129-142 | waiting announcements are numbered 1, 2, 3, ... with their details |
| `Launcher.ReadyExactlyWhen` | launcher/core/src/orchestrator.rs:130-152 | ready if and only if some poll answers healthy that is the first one or follows a reading before the deadline |

## Left out

- Float rounding: IoU, AP, mAP, rates and scores are computed over `real`. The six-decimal print of label files is modelled.
- JSON and UTF-8: the codec of event payloads is a parameter assumed faithful and free of newlines (section 7 of RFC 8259); properties missing from a payload that is JSON text, and the readers' handling of carriage returns, are not modelled.
- LabelFiles.LoadGroundTruth: does not model the text forms `float()` and `int()` accept beyond plain digits, a sign and a point (exponents, underscores, infinities), nor line separators other than newline.
- Dates beyond year 9999, where Python's dates overflow; the database session is taken to run in UTC.
- The detector, Pillow, the language models, tools and commands: arbitrary oracles that may return any value or fail. The annotated image and the agent trigger policy (a parameter of the event) are not modelled.
- Chat: the context preload and the system prompt are part of an arbitrary history. The current user message is stored before the history is read and then appended again (`backend/app/chat/router.py:100`, `backend/app/chat/agent.py:104-105`), so it reaches the model twice. How the reader learns that a connection was cut, and a database failing while a message is stored, are not modelled.
- Pipeline: one image; a message may be redelivered only while a task or hook holds it, as messages are acknowledged late; automatic retries are redeliveries; an enqueue either queues one message or fails; FAILED to QUEUED is in the table but no code takes it. A missing image row and publishing of events are not modelled.
- ModelActivation: an evaluation is delivered only for versions registered through the API, as nothing else enqueues one, and any number of times; the loss of that first message is the event never happening. A seed that the unique index refuses changes nothing. An inference task's own detection time is not a separate step.
- Registration's path checks and duplicate versions.
- Alerts.EvaluateThresholds: passes and acknowledgements run one at a time; creation order stands for `created_at`. The SQL that computes the readings is not modelled.
- Ingestion: directory listings are given in sorted order; only one scan runs at a time; hashing and image decoding are attributes of a file; manual imports are left out as they add only easy members.
- Retention: statements run in program order, while the ORM may reorder deletes inside one flush; a target that cannot be unlinked for another reason than absence is not modelled; path resolution does not change during a purge; a purge that is cut off and repeated finds the same rows.
- Lockout: attempts are handled one at a time; unknown emails are the caller's case.
- Launcher.StartStack: needs a positive poll interval and sleeps at least that long; with interval zero only the clock's own progress would end the loop. Messages are reduced to their causes. The 32-bit attempt counter is unbounded here, and its bound is the proved number of polls.
- Reconnect backoff of the dashboard reader, SQL and ORM details, caches, pub/sub, tokens and password hashing, CRUD endpoints, reports, charts and the desktop shell.
