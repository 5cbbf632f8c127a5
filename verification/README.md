# GitReins: models and proofs

GitReins is a quality harness: guards run before a commit, an LLM judge grades a
task's criteria under a budget, and long evaluations are jobs on disk. Its shell is
I/O (git, subprocesses, model calls). This project models the parts in the middle
that carry hard promises, in the form the code has them: an object whose methods
update it is a class, a loop is a loop with invariants, and each is proved equal to
a function or a protocol about which the promises are proved.

`dafny verify dfyconfig.toml` checks everything.

| file | what it models |
|---|---|
| `Gate.dfy` | greedy matching of task criteria to verdict items, and the one passing test |
| `CapVerdict.dfy`, `VerdictMeaning.dfy` | the verdict of a run that its budget ended, and what it says |
| `EvalCap.dfy`, `EvalLoop.dfy`, `Evaluator.dfy` | the evaluator's meter, its loop with compactions, and the object that runs it |
| `CriterionSpans.dfy`, `Climbing.dfy`, `SpanRuns.dfy` | what each graded criterion cost, and for which orders of grading the costs add up |
| `EvidenceBounds.dfy`, `MarkerMeaning.dfy` | head, omission marker and tail under a hard cap, with the shrink loop, and the marker line by line |
| `JobProtocol.dfy`, `JobTiming.dfy`, `JobStore.dfy` | the job record shared by pollers and a heartbeat, its timing, and the store's operations |
| `Splicing.dfy`, `DataProtection.dfy`, `ScanMeaning.dfy` | scanning for protected values and replacing them from the right, and what is reported and shown in the fields of the policy |
| `Checksums.dfy` | the Luhn and IBAN checks and the errors they catch |
| `Fingerprint.dfy`, `GitListing.dfy`, `WorkspaceFingerprint.dfy` | the byte layout of a workspace fingerprint, reading Git's listings, and the whole computation |
| `InstallLifecycle.dfy`, `InstallMeaning.dfy` | install, disable, enable and uninstall, over whole runs and file by file |
| `Chunker.dfy` | overlapping windows over source lines |
| `JsonSweep.dfy`, `JsonHeap.dfy`, `EvidenceDocument.dfy`, `PayloadMeaning.dfy` | what a redaction sweep means, the sweep in place with its stack, the byte ceiling, and the result field by field |
| `PathGlob.dfy` | the sensitive-path patterns |
| `Text.dfy`, `TextLaws.dfy` | strings and decimal numerals; what stripping, folding, words and lines amount to |

Strings are sequences of characters, floats are reals, and time, the processes that
are alive, the model's replies, the detectors' spans, the tokenizer, the encoder and
the file system's readings are inputs. A SHA-256 digest stands for the bytes fed to it.

## Main results

* **Jobs.** In every interleaving of any number of reapers and beats, at most one is
  inside the lease, the status leaves `running` at most once and never returns, a reap
  overwrites only a record whose worker was dead or stale when judged or that has ended
  since, and no beat lands between its read and its write. With a live pid, attempts
  at least every interval, at most k lost in a row and (k + 1) intervals within the
  stale cap, no schedule of pollers ends the job of a live worker. The worker's own
  outcome survives every interleaving exactly when nobody is between a read that still
  counts and a write.
* **Shrink loop.** The bounded evidence never exceeds its cap, for any output and cap.
  For outputs below 10^24 characters, or any cap below 480, the loop settles within 9
  of its 12 rounds on a head and a tail beside a marker that counts exactly what is
  missing, and only a marker alone can be cut; from a cap of 480 one round does. Every
  omitted line that names a failed test is in the marker or counted there, unless that
  does not fit.
* **Evaluator.** The loop terminates; credit, calls and input tokens of the whole run
  are bounded across compactions; a capped run passes the gate exactly when every
  given and every recorded derived criterion has PASS evidence and some criterion is
  not blank; every call is made within the time cap. For every order of gradings it is decided whether the costs that a cap verdict
  reports stay within the total of all its runs.
* **Gate.** A verdict that passes says COMPLETE and has, for every position of the
  criteria that holds text, an item of its own that says PASS and whose text matches;
  inserting an item never leaves more criteria ungraded. A delivered reply passes exactly
  when it says COMPLETE and PASS throughout and leaves no criterion ungraded.
* **Redaction.** For separate spans, splicing from the right with the original offsets
  is one left-to-right pass: what stays, where it goes and that nothing else is there.
  A scan finds exactly the descriptions of the reported matches, and what is not to be
  taken out stays. For any spans at all, however many overlap, it is decided which characters of the text
  the result still shows and where.
* **Codec.** The fingerprint's byte stream decodes to what it was built from, so two
  workspaces feed it the same bytes exactly when they show the same files.
* **Lifecycle.** For every run of commands from an untouched repository it is decided
  whether a disable or an uninstall at its end gives the user's own hook back.
* **Sweep.** Rewriting a document in place with an explicit stack is the recursive
  rewriting, touches nothing else, and is done on a copy of the caller's document.

## Where the code and its documentation disagree

The models follow the code.

* `engine/evaluator.py:1379-1382`: with an unlimited input budget any recorded input
  compacts until three compactions are used, for every threshold that is not negative
  (`EvalLoop.UnlimitedBudgetCompactsIff` has the exact condition).
  `skills/gitreins-judge-tuning/SKILL.md:425` says a threshold of 1.0 disables proactive
  compaction; that holds for a positive budget (`EvalLoop.FullShareNeverCompacts`).
* `engine/evaluator.py:1642-1646` says the sum of the spans never exceeds the run's
  total. Spans are reported by runs that end on a cap. For a given order of gradings it
  holds in every one of them exactly when the report goes through the last gradings in
  the order of time or in the reverse order (`SpanRuns.SpansFitIff`), and among those
  without a compaction exactly when the report, once it has gone back in time, does not
  go forward again (`SpanRuns.SpansFitUncompactedIff`). `SpanRuns.RegradingBreaksTheSum`
  is a run whose cap verdict reports more than it used.
* `engine/job_store.py:461-462` says the worker's terminal write always lands after the
  last beat. `stop` joins with a timeout, and a write that does not wait can be turned
  back to running exactly when a beat is between its read and its save
  (`JobProtocol.FinishIsSafeIff`). Waiting is not enough for the outcome: a reaper that
  has condemned the record, or has read it running with an identified worker, can still
  write its error over what the worker wrote, and nothing else can
  (`JobProtocol.FinishSurvivesIff`); in `JobProtocol.JoinIsNotEnough` the worker exits
  after its write and a poller that had read the record before does so.
* `engine/install_manifest.py:126-131` says a hook the user had is not lost. It comes back
  exactly when an install is the first command to take it over and its first 4096
  characters do not carry the harness's marker
  (`InstallLifecycle.OriginalSurvivesIff`, `InstallLifecycle.RestoredIff`).
* `engine/data_protection.py:26-29` says a handled value never survives. For findings that
  do not overlap that is so (`DataProtection.HandledValuesHidden`), and for any findings
  when no placeholder is longer than what it replaces
  (`DataProtection.ShortPlaceholdersHide`). Otherwise rules other than CIDR may overlap
  and a longer placeholder can push a value out of reach of the span that covers it. A
  character survives exactly when following it through the spans, latest start first,
  by offsets and lengths alone, leaves it somewhere (`DataProtection.SurvivesIff`). For
  two nested findings alone that is when the inner placeholder is longer than what it
  replaces and does not end where the outer value does (`Splicing.NestedSurvivesIff`); a
  shorter one takes away what follows instead (`Splicing.NestedIsHarmlessIff`).
* `engine/evidence.py:400-402` says a truncated text has exactly `limit` characters. That
  holds from a limit of 11, the marker's length, on (`JsonSweep.CapIsExact`).
* `engine/evidence.py:418-427` says the sweep caps every string. It writes a string back
  only when something in it was redacted, so all strings are within the cap afterwards
  exactly when every longer one had a redaction (`JsonSweep.SweptFitsIff`); one that had
  none is reported as truncated and left long (`JsonSweep.LongStringStays`).
* `engine/evidence.py:785-787` says the check count keeps being reported. It is, exactly
  when some document other than the last resort fits (`EvidenceDocument.FactSurvivesIff`).
  With any encoder a string field of its own, over the ceiling and without a secret, is
  enough to lose it (`EvidenceDocument.LongFieldForgets`, `EvidenceDocument.CheckCountLost`).

## Model

| member | source | states |
|---|---|---|
| Gate.FindUnused | engine/gate.py:228-231 | the first unused item a search pass accepts, or none if it accepts none |
| Gate.FindMatch | engine/gate.py:227-236 | the exact search over all unused items comes before the prefix search |
| Gate.FirstFitIsLeast | engine/gate.py:228-236 | a search finds an item whenever one is acceptable, and the earliest one |
| Gate.CheckCoverage | engine/gate.py:216-250 | the loop with its set of used indices grades, leaves ungraded and fails exactly what grading against a shrinking pool does |
| Gate.RoundsKeepItems | engine/gate.py:226-243 | every item is still unused or grades one criterion, never two |
| Gate.RoundsKeepCriteria | engine/gate.py:226-243 | every non-blank criterion ends up graded or ungraded, once |
| Gate.RoundsPair | engine/gate.py:226-243 | each graded criterion is matched by the text of its item, and it fails if that item does not pass |
| Gate.CompleteIsAnAssignment | engine/gate.py:186-193 | a complete coverage is a one-to-one assignment of passing, matching items to all criteria |
| Gate.CoverageKeepsCriteria | engine/gate.py:216-250 | the coverage lists the criteria that hold text, by position and in order; each is graded or ungraded as often as it was given, and nothing else is |
| Gate.PassingGradesEvery | engine/gate.py:253-266 | a passing verdict says COMPLETE and has for every position that holds text a distinct item that says PASS and whose text matches |
| Gate.OneItemPassesIff | engine/gate.py:253-266 | with one criterion and one item the gate is decided by their texts |
| Gate.MatchesIff | engine/gate.py:165-176 | texts match when they have the same words up to case, or one, folded, begins with the other and neither is under ten characters |
| Gate.CoverageIsMonotone | engine/gate.py:216-250 | inserting an item anywhere never leaves more criteria ungraded, at most one fewer, and a PASS item keeps a complete coverage complete |
| Gate.PassingIsMonotone | engine/gate.py:253-266 | a passing verdict still passes when a PASS item is inserted anywhere |
| Gate.RoundWithOneMore | engine/gate.py:226-243 | two runs whose pools differ by one item still differ by at most one after a criterion |
| Gate.ExactRounds | engine/gate.py:226-243 | criteria that are a sub-multiset of the item texts are all graded, each by its exact text |
| CapVerdict.CapVerdictPassesIff | engine/evaluator.py:1603-1761 | a cap verdict passes the gate if and only if some criterion is not blank and every given and recorded derived criterion has evidence starting with PASS |
| CapVerdict.CompleteVerdictPasses | engine/evaluator.py:1667-1761 | all items PASS and a non-blank criterion make the gate's coverage complete |
| CapVerdict.DerivedAllPass | engine/evaluator.py:1620-1637 | the derived items all pass exactly when every recorded one has PASS evidence; a proposal without evidence does not |
| CapVerdict.GivenAllPass | engine/evaluator.py:1679-1712 | the given items all pass exactly when every criterion has PASS evidence under its own key |
| VerdictMeaning.CapVerdictSays | engine/evaluator.py:1677-1746 | one item per given criterion and one per recorded derived one, in order, UNVERIFIED without evidence, PASS when it starts with PASS, else FAIL |
| VerdictMeaning.KeysMark | engine/evaluator.py:2332-2340 | evidence is marked under its number, for a derived criterion ten thousand higher |
| VerdictMeaning.OtherKeysDoNotMark | engine/evaluator.py:2332-2340 | no other write leaves a mark |
| VerdictMeaning.OrderedByMark | engine/evaluator.py:1652 | the report goes by mark, and by number among equal marks |
| EvalCaps.EvalCap.CheckHardCaps | engine/eval_cap.py:196-221 | time, input and output caps, in that order, on the counters |
| EvalCaps.EvalCap.RecordLlmCall | engine/eval_cap.py:130-158 | a call is refused at the iteration cap, else charged before the hard caps are looked at |
| VerdictMeaning.CallCharges | engine/eval_cap.py:150-155 | a call is charged one iteration and all its input, cached or not |
| EvalCaps.EvalCap.RecordToolCall | engine/eval_cap.py:160-175 | a tool call is charged its weight under the same lenient check |
| EvalCaps.EvalCap.ResetContextTracking | engine/eval_cap.py:118-128 | a fresh context forgets tokens and keeps credit and start time |
| EvalLoop.Turn | engine/evaluator.py:1356-1551 | a pass that continues has gone one iteration on or used up one of three compactions |
| EvalLoop.CreditAndCallsBounded | engine/evaluator.py:1356-1551 | from zero credit, cap M and weight w: credit stays below M + max(1, w) and at most ceil(M) + 4 calls are made in the whole run |
| EvalLoop.InputTokensBounded | engine/evaluator.py:1356-1551 | with input budget B all windows together use less than 4 * B plus the last call |
| EvalLoop.CallsAlwaysBounded | engine/evaluator.py:1354-1551 | whatever the caps, at most four windows of the iteration limit and three failed calls |
| EvalLoop.SpansWithinRun | engine/evaluator.py:1639-1665 | when the report goes through the run in the order of time or in reverse, the spans sum to no more than the tokens really used, across compactions |
| EvalLoop.SpansWithinUncompactedRun | engine/evaluator.py:1639-1665 | without a compaction it is enough that the report does not go back in time and forward again |
| EvalLoop.SpansWithinRunGradedOnce | engine/evaluator.py:1639-1665 | so when no criterion is graded twice the sum is within the total |
| SpanRuns.SpansFitIff | engine/evaluator.py:1639-1746 | for an order of gradings, what a cap verdict shows is within the total of every run exactly when the report is chronological or its reverse |
| SpanRuns.SpansFitUncompactedIff | engine/evaluator.py:1639-1746 | among capped runs without a compaction, exactly when the report never goes back in time and then forward |
| SpanRuns.ScriptRunsFully | engine/evaluator.py:1356-1551 | any order of gradings comes about in a run that ends on a cap and shows all of them, with chosen token counts and an overflow where wanted |
| SpanRuns.RegradingBreaksTheSum | engine/evaluator.py:1652-1658 | a capped run of ten criteria without a compaction, every call of which uses tokens, whose verdict reports more than it used |
| CriterionSpans.ShownIsPart | engine/evaluator.py:1677-1746 | the lines of a verdict show at most the whole spend, and all of it when every graded criterion has a line |
| EvalLoop.UnlimitedBudgetCompactsIff | engine/evaluator.py:1378-1383 | without a positive budget any input at all is over the threshold exactly when budget times threshold is below one, so for every threshold that is not negative |
| EvalLoop.OverThresholdCompacts | engine/evaluator.py:1378-1408 | a pass over the threshold compacts and does not call the model |
| EvalLoop.FullShareNeverCompacts | engine/evaluator.py:1378-1382 | with a positive budget a threshold of one or more never compacts |
| EvalLoop.ShareCompactsIff | engine/evaluator.py:1378-1383 | with a positive budget a pass is over the threshold exactly when more than that share is used |
| EvalLoop.CallsInTime | engine/evaluator.py:1356-1460 | every call of a run follows a reading of the clock within the time cap, across compactions |
| EvalLoop.CappedRunPassesIff | engine/evaluator.py:1356-1372 | the gate's decision on a capped run is the evidence in its final sandbox |
| EvalLoop.DeliveredRunPassesIff | engine/evaluator.py:1494-1497 | a run that delivers a reply passes the gate exactly when it was read, says COMPLETE and PASS of every item up to case, and leaves no criterion with text ungraded, of which there is one |
| EvalLoop.ParsedVerdictSays | engine/evaluator.py:2393-2436 | items in order with their texts; a status that is not PASS up to case is FAIL; COMPLETE up to case only when all pass |
| EvalLoop.GradingKeepsSpans | engine/evaluator.py:2319-2347 | a grading records the counters, and what they climbed since the last one was really used |
| CriterionSpans.Spans | engine/evaluator.py:1639-1665 | every marked criterion gets the clamped difference from the mark before it in report order |
| CriterionSpans.OrderedIsHistory | engine/evaluator.py:1652 | strictly later marks make the report order the grading order |
| CriterionSpans.FirstGrading | engine/evaluator.py:2341-2347 | a first grading adds its mark at the end of the history |
| CriterionSpans.MarkOfLastTime | engine/evaluator.py:2341-2347 | a mark holds the counters of its criterion's last grading |
| CriterionSpans.OrdersFixReport | engine/evaluator.py:1652 | the report order depends on the marks' order alone |
| CriterionSpans.SpentIsClimb | engine/evaluator.py:1650-1658 | the spans sum to how far the counters climb through the moments of the last gradings, in report order |
| CriterionSpans.OnceIsChronological | engine/evaluator.py:1652 | without regrades those moments are in the order of time |
| Climbing.AscendingClimbs | engine/evaluator.py:1655-1658 | differences clamped at zero, taken in the order of time, climb no more than the counter |
| Climbing.DescendingClimbs | engine/evaluator.py:1655-1658 | nor when taken in the reverse order |
| Climbing.RisingClimbs | engine/evaluator.py:1655-1658 | nor, for a counter that never falls, in an order without a valley |
| Evaluator.AgenticEvaluator.DerivedCriteriaFromSandbox | engine/evaluator.py:1620-1637 | the recorded derived rows, at most the maximum, in order |
| Evaluator.AgenticEvaluator.ExtractPartialVerdict | engine/evaluator.py:1667-1761 | one item per given criterion, then one per derived row; COMPLETE only when there are items and all pass |
| Evaluator.AgenticEvaluator.ParseVerdict | engine/evaluator.py:2359-2458 | unknown statuses fail, COMPLETE with a failing item is INCOMPLETE, unreadable grades nothing |
| Evaluator.AgenticEvaluator.SandboxWrite | engine/evaluator.py:2319-2348 | a graded criterion leaves a mark of the current counters |
| Evaluator.AgenticEvaluator.RunToolCalls | engine/evaluator.py:1518-1550 | tools run and are charged one by one until a cap trips |
| Evaluator.AgenticEvaluator.CompactContext | engine/evaluator.py:1391-1401 | a compaction resets the token counters and keeps sandbox, marks and credit |
| Evaluator.AgenticEvaluator.OnePass | engine/evaluator.py:1356-1551 | the loop body is one turn of the specified loop |
| Evaluator.AgenticEvaluator.EvaluateLoop | engine/evaluator.py:1356-1551 | the object's fields and verdict end as the specified run ends |
| EvidenceBounds.HeadEndForBudget | engine/evidence_bounds.py:41-51 | the longest prefix of complete lines within the budget |
| EvidenceBounds.TailStartForBudget | engine/evidence_bounds.py:54-66 | the longest suffix of complete lines within the budget |
| EvidenceBounds.HoistSummaryLines | engine/evidence_bounds.py:69-93 | hoisted ids plus the dropped count are the distinct summary lines |
| EvidenceBounds.SummariesAreDistinct | engine/evidence_bounds.py:77-83 | no summary line is listed twice |
| EvidenceBounds.SummariesAreTheSummaryLines | engine/evidence_bounds.py:77-83 | exactly the FAILED and ERROR lines that name a test are listed |
| EvidenceBounds.CarriedFits | engine/evidence_bounds.py:84-93 | what is hoisted is in order, at most 20 lines and within the budget |
| EvidenceBounds.MarkerFor | engine/evidence_bounds.py:115-137 | the marker carries the ids its budget allows, or the tally alone |
| EvidenceBounds.MarkerReportsOmission | engine/evidence_bounds.py:96-137 | whatever is hoisted, the marker opens with the whole tally: characters, lines and the cut |
| MarkerMeaning.MarkerReads | engine/evidence_bounds.py:96-137 | split into lines the marker is the tally, the named summary lines in order and the number of the others, or the tally alone when that is over its budget |
| MarkerMeaning.NoneUnmentioned | engine/evidence_bounds.py:69-137 | every omitted FAILED or ERROR line that names a test is a line of the whole marker or one of those it counts |
| MarkerMeaning.SummaryIff | engine/evidence_bounds.py:31-33 | a summary line is FAILED or ERROR, a space, a name without whitespace, two colons and anything |
| EvidenceBounds.MarkerLength | engine/evidence_bounds.py:115-137 | a marker over its budget is the tally alone |
| EvidenceBounds.RoundPays | engine/evidence_bounds.py:195-233 | a failed round makes a numeral longer, cuts mid-line or empties a side, or the tally fits next |
| EvidenceBounds.ChangesBounded | engine/evidence_bounds.py:195-233 | with a small cap that happens at most seven times |
| EvidenceBounds.RoomForTally | engine/evidence_bounds.py:168-173 | the reserve holds the tally of any output below 10^24 characters |
| EvidenceBounds.DropFromTail | engine/evidence_bounds.py:208-220 | the front goes up to the first newline with which the excess is gone, or, when there is none, just the excess, and then that is said |
| EvidenceBounds.DropFromHead | engine/evidence_bounds.py:221-233 | the end goes back to the last newline with which the excess is gone, or, when there is none but at the very start, just the excess, and then that is said |
| EvidenceBounds.InitialSides | engine/evidence_bounds.py:168-190 | six tenths of what the reserve leaves go to the head and the rest to the tail, at the last and first line boundary within, mid-line only when no line fits and then it is said |
| EvidenceBounds.BoundStepEvidence | engine/evidence_bounds.py:140-241 | within the cap always, unchanged if it fits, else head, exact marker and tail of whole lines, cut only when both sides are empty; one round from a cap of 480, with the starting sides, at most nine below |
| JobProtocol.StepKeepsInv | engine/job_store.py:410-451 | every step of every actor keeps the invariant: one holder, and what an actor remembers is still so |
| JobProtocol.StepNeverRevives | engine/job_store.py:479-497 | no step turns an ended record back to running |
| JobProtocol.DeathIff | engine/job_store.py:356-391 | a running record's worker is dead exactly when its named process is gone, or the owner's when that field is missing, or its heartbeat is older than the cap, and why |
| JobProtocol.ReapOverwritesOrphan | engine/job_store.py:429-437 | a reap writes under the lease, over the record it condemned or one that has ended since, with no beat in between |
| JobProtocol.StoppedMeansNoBeat | engine/job_store.py:514-531 | once the heartbeat has joined no beat lands |
| JobProtocol.RunsKeepInv | engine/job_store.py:197-227 | in every run at most one actor is inside, the status leaves running at most once and for good |
| JobProtocol.AtMostOneInside | engine/job_store.py:197-217 | two actors inside the lease are the same |
| JobProtocol.FinishIsSafeIff | engine/job_store.py:514-531 | a terminal write that does not wait can be turned back to running if and only if a beat is between its read and its save |
| JobProtocol.FinishSurvivesIff | engine/job_store.py:410-451 | what the worker wrote, `complete` or its own error, survives every interleaving if and only if no beat has read the record running and no reaper has condemned it or has read it running and identified |
| JobProtocol.JoinIsNotEnough | engine/job_store.py:514-531 | from a fresh record: a poller reads, the worker joins, writes its outcome and exits, and the poller replaces it with its error |
| JobTiming.AliveWhenJudged | engine/job_store.py:356-391 | between attempts the record's heartbeat is within the stale cap |
| JobTiming.StepKeepsBeating | engine/job_store.py:479-502 | every timely step keeps the record running and fresh |
| JobTiming.LiveWorkerIsNeverReaped | engine/job_store.py:356-451 | if at most k attempts in a row are lost and (k + 1) intervals fit in the stale cap, no schedule of pollers ends a live worker's job |
| JobTiming.PacedWorkerSurvives | engine/job_store.py:356-502 | the same of every plain run of the protocol, with the pace read off the run itself: when the last attempt began and how many in a row were lost |
| JobStores.JobStore.AcquireResumeLease | engine/job_store.py:197-217 | the lease is taken without waiting, or refused to a second holder |
| JobStores.JobStore.SaveJob | engine/job_store.py:102-110 | the record is written whole or not at all |
| JobStores.JobStore.ReapStaleJob | engine/job_store.py:410-451 | the lease is given back whatever happens; the record is condemned only when the lease was free and, read again, it runs without a live worker |
| JobStores.ReapedIff | engine/job_store.py:410-451 | under a free lease a running record is ended exactly when its process is gone or its heartbeat too old, with the reason given or else which of the two, and nothing else changes |
| JobStores.JobStore.FindRunningJob | engine/job_store.py:153-194 | the first listed live job for the key; dead ones before it are reaped, and None says only that no listed job was live when looked at |
| JobStores.JobHeartbeat.Beat | engine/job_store.py:479-497 | a beat stamps exactly a running record whose lease was free and whose save succeeded |
| JobStores.JobHeartbeat.Run | engine/job_store.py:499-502 | the beats counted are the stamps that landed, the files hold the last of them, and no other job's file changes |
| JobStores.FirstLive | engine/job_store.py:179-190 | the first listed job for the key whose worker is alive |
| JobStores.FirstLiveIsAlive | engine/job_store.py:179-190 | the job found is listed for the key, its process not gone and its heartbeat not too old, and no earlier one is all that |
| JobStores.BeatSays | engine/job_store.py:479-497 | a beat under a free lease stamps the time and the process, and nothing else |
| JobStores.SweepSparesTheLiving | engine/job_store.py:190-194 | a job that is alive when read again under the lease is left as it was |
| JobStores.SweepEndsTheDead | engine/job_store.py:190-194 | after a search that found nothing, each listed dead job with a free lease has ended |
| JobStores.SweepOnlyEnds | engine/job_store.py:410-451 | a search changes a record only by ending it |
| JobStores.ReapIsARun | engine/job_store.py:410-451 | an uninterrupted reap is one run of the protocol's steps with the method's effect |
| JobStores.BeatIsARun | engine/job_store.py:479-497 | so is a beat, and a landed beat counts once |
| Splicing.SortedBelow | engine/data_protection.py:1244 | separate spans, sorted latest first, lie one below the other |
| Splicing.SpliceIsWeave | engine/data_protection.py:1243-1246 | splicing from the right with original offsets is one left-to-right pass of gaps and replacements |
| Splicing.SpliceLayout | engine/data_protection.py:1243-1246 | length is conserved, characters outside the spans stay, each span is its replacement, and nothing else is there |
| Splicing.WeaveCovers | engine/data_protection.py:1243-1246 | no character of a span survives |
| Splicing.SeparateRevealsIff | engine/data_protection.py:1243-1246 | for separate spans the result depends on exactly the characters outside them |
| Splicing.RevealsIff | engine/data_protection.py:1243-1246 | for any list of spans, however they overlap, the result depends on a character if and only if it can be followed through them by offsets and lengths, and shows it at the place it is followed to |
| Splicing.TrackShows | engine/data_protection.py:1243-1246 | splicing carries a character to exactly one place, or drops it without a trace |
| Splicing.ShortReplacementsHide | engine/data_protection.py:1243-1246 | when no replacement is longer than its span, nothing of any span survives, whatever overlaps |
| Splicing.NestedIsHarmlessIff | engine/data_protection.py:1243-1246 | of two spans alone, one inside another leaves the outer replacement clean if and only if the inner replacement keeps the length, or is shorter with nothing behind |
| Splicing.NestedSurvivesIff | engine/data_protection.py:1243-1246 | of two nested spans alone, something of the outer value survives if and only if the inner replacement is longer than its span and does not end where the outer does |
| Splicing.OverlapRevealsIff | engine/data_protection.py:1243-1246 | for two overlapping spans alone, nested or not, which characters from their start on the result still depends on |
| Splicing.StaggeredHides | engine/data_protection.py:1243-1246 | nothing of two spans alone that overlap without nesting survives |
| DataProtection.Scan | engine/data_protection.py:831-873 | the findings are the kept matches, resolved and in order; the text is spliced with the handled ones |
| DataProtection.ScanReports | engine/data_protection.py:848-868 | a match is reported exactly when its rule is on, it is confident enough, and it is a range or overlaps no reported range |
| ScanMeaning.ReportedIff | engine/data_protection.py:794-868 | a match is reported exactly when its rule is run, it is confident enough by its class, category or default, and it is a range or meets no reported range |
| ScanMeaning.FindsIff | engine/data_protection.py:831-920 | a scan finds nothing unless the policy is on and there is text, and otherwise exactly the descriptions of the reported matches: place, line, detection, handling by precedence and exceptions |
| ScanMeaning.FindingsInOrder | engine/data_protection.py:869 | findings come by start, then by end |
| DataProtection.RangesWin | engine/data_protection.py:850-864 | no reported value overlaps a reported CIDR range |
| DataProtection.SortPlaces | engine/data_protection.py:869 | the findings are the same ones, by start and then end |
| DataProtection.ApplyRedactions | engine/data_protection.py:1234-1246 | the loop splices the active, handled findings, latest start first |
| ScanMeaning.TextShowsIff | engine/data_protection.py:1234-1246 | when the findings that are redact or replace and not suppressed do not overlap, the text depends on exactly the characters none of them covers, and keeps those |
| ScanMeaning.StandInPlaced | engine/data_protection.py:593-598 | in the place of each stands its class text for replace and the category text for redact |
| DataProtection.RedactionLayout | engine/data_protection.py:1234-1246 | for handled findings that do not overlap: what is outside stays once, what is inside becomes a placeholder, nothing else remains |
| DataProtection.HandledValuesHidden | engine/data_protection.py:1234-1246 | for handled findings that do not overlap, the redacted text depends on exactly the characters outside them |
| DataProtection.SurvivesIff | engine/data_protection.py:1234-1246 | for any findings, a character survives if and only if the offsets and placeholder lengths of the handled ones leave it somewhere, and then it stands there |
| DataProtection.ShortPlaceholdersHide | engine/data_protection.py:1234-1246 | placeholders no longer than their values hide every handled value, whatever overlaps |
| DataProtection.KeptInOrder | engine/data_protection.py:1243-1246 | what stays keeps its order |
| Checksums.Luhn | engine/data_protection.py:146-159 | the loop by parity of the length accepts what doubling every second digit from the right accepts |
| Checksums.LuhnCatchesOneDigit | engine/data_protection.py:146-159 | an accepted number with one digit changed is rejected |
| Checksums.LuhnSwapIff | engine/data_protection.py:146-159 | swapping two different neighbours is accepted if and only if they are 0 and 9 |
| Checksums.LuhnAcceptsIff | engine/data_protection.py:146-159 | twelve digits or more are accepted with exactly one check digit behind them, the one that fills their weighted sum up to a multiple of ten |
| Checksums.IbanCatchesOneCharacter | engine/data_protection.py:171-181 | an accepted IBAN with one character replaced by another of its kind is rejected, wherever it stands |
| Checksums.IbanAcceptsIff | engine/data_protection.py:171-181 | every country and account has exactly one pair of check digits from 02 to 98 that is accepted |
| Checksums.IbanIgnores | engine/data_protection.py:171-173 | whitespace and the case of letters make no difference |
| Checksums.IbanShapes | engine/data_protection.py:174-181 | fewer than 15 or more than 34 characters are rejected; otherwise any but a digit or letter raises |
| Checksums.Base36Is | engine/data_protection.py:177 | a character counts as its place among the digits and then the letters |
| Checksums.ExpandedReplace | engine/data_protection.py:176-177 | replacing a character changes the number by a difference times a power of ten |
| Fingerprint.BigEndianRoundTrip | engine/fingerprint.py:355-357 | a length below 2^64 is read back from its eight bytes |
| Fingerprint.TakeFieldOfPrefixed | engine/fingerprint.py:355-358 | a length-prefixed field is cut off exactly, whatever follows |
| Fingerprint.DecodeOfEncode | engine/fingerprint.py:353-358 | decoding the stream gives the entries back |
| Fingerprint.SortedPathsSorts | engine/fingerprint.py:341 | the union of both listings, each path once, ascending |
| Fingerprint.AscendingIsUnique | engine/fingerprint.py:341-353 | a set of paths has one ascending listing |
| Fingerprint.LessIff | engine/fingerprint.py:341 | paths are ordered byte by byte, as in a dictionary |
| Fingerprint.ReadAll | engine/fingerprint.py:346-350 | the listed paths are read in order up to the first refusal |
| Fingerprint.SameStreamIff | engine/fingerprint.py:339-358 | two workspaces feed the same bytes exactly when they show the same paths with the same bytes |
| Fingerprint.StagingIsInvisible | engine/fingerprint.py:339-341 | which listing names a path, and in what order, changes nothing |
| WorkspaceFingerprint.Compute | engine/fingerprint.py:336-363 | index, paths, bytes, digest and dirty count in turn; the first refusal is the result |
| WorkspaceFingerprint.SameFingerprintIff | engine/fingerprint.py:329-363 | two authoritative results were fed the same bytes exactly when the workspaces show the same files |
| WorkspaceFingerprint.ComputedFromListings | engine/fingerprint.py:336-363 | from well-formed listings exactly their paths are observed and exactly their changes counted |
| GitListing.ParseIndex | engine/fingerprint.py:136-153 | the records in turn; the first refusal decides |
| GitListing.LineReadsBack | engine/fingerprint.py:142-152 | a staged line is read back whatever its path holds, or refused for an unreadable mode, for its stage or as a gitlink |
| GitListing.IndexReadsBack | engine/fingerprint.py:136-153 | the whole listing is read back exactly when every line is acceptable, else refused |
| GitListing.MalformedIsRefused | engine/fingerprint.py:139-145 | a record without a tab, without three words before it or with nothing behind it is refused |
| GitListing.BlankEndsField | engine/fingerprint.py:143 | tab, line feed, vertical tab, form feed, carriage return and space separate the fields |
| GitListing.DirtyCount | engine/fingerprint.py:299-326 | the loop counts each named path once, a rename or copy taking two records |
| GitListing.DirtyReadsBack | engine/fingerprint.py:309-326 | the dirty paths of a listing are every changed path and every source of a rename or copy |
| GitListing.BadRecordRefused | engine/fingerprint.py:313-322 | a short record, one without its space, or a rename without its source makes the listing malformed |
| InstallLifecycle.Repo.BackupDisplaced | engine/install_manifest.py:126-142 | a foreign hook is copied aside, never over the first backup |
| InstallLifecycle.Repo.RecordInstall | engine/install_manifest.py:145-162 | fresh entries keep the backups already recorded |
| InstallLifecycle.Repo.Install | gitreins/cli.py:615-656 | config, both hooks with their backups, then the manifest |
| InstallMeaning.InstallLeaves | gitreins/cli.py:615-656 | what an install leaves at every path: its hooks, the configuration there was or its own, each foreign hook at its backup, and all else as it was |
| InstallMeaning.InstallRecords | engine/install_manifest.py:145-162 | three entries with the content now there and the backup made or recorded before, armed |
| InstallMeaning.ManagedIff | engine/install_manifest.py:116-123 | a hook is the harness's when the marker stands whole in its first 4096 characters |
| InstallLifecycle.Repo.Disable | engine/install_manifest.py:170-203 | each hook is handed back from its backup or removed, once |
| InstallLifecycle.Repo.Enable | engine/install_manifest.py:206-232 | the hooks given are rewritten and recorded |
| InstallMeaning.EnableLeaves | engine/install_manifest.py:206-232 | the hooks given are at their paths, every other file is as it was, and it is armed |
| InstallLifecycle.Repo.Uninstall | engine/install_manifest.py:235-287 | hooks handed back, an unedited config removed, remaining entries kept; a dry run changes nothing |
| InstallMeaning.NothingRecorded | engine/install_manifest.py:170-287 | without a manifest a disable only says so and an uninstall does nothing; a dry run never does anything |
| InstallLifecycle.DisableRestores | engine/install_manifest.py:170-203 | disabling leaves exactly the original at the hook path, or no hook |
| InstallLifecycle.UninstallRestores | engine/install_manifest.py:242-256 | an applied uninstall leaves exactly the original, from every state |
| InstallLifecycle.InstallKeeps | gitreins/cli.py:615-656 | installing, first or again, armed or disarmed, keeps every backup the original |
| InstallLifecycle.EnableKeeps | engine/install_manifest.py:206-232 | rearming keeps the backups and their entries |
| InstallLifecycle.OriginalSurvives | engine/install_manifest.py:126-142 | once an install has displaced it, an unmarked hook stays byte for byte at its first backup for the rest of the run |
| InstallLifecycle.OriginalSurvivesIff | engine/install_manifest.py:126-287 | over every run from an untouched repository, disable or uninstall gives the hook back if and only if there was none, nothing took it over, or an install took it over first and it was unmarked |
| InstallLifecycle.EnableTakesOver | engine/install_manifest.py:206-232 | an enable before every install overwrites the hook without a backup |
| InstallLifecycle.RestoredIff | engine/install_manifest.py:116-142 | one install, then a disable: the original comes back if and only if there was none or it did not carry the marker |
| InstallLifecycle.UninstallConfigIff | engine/install_manifest.py:257-265 | the config is removed exactly when it is what was recorded; edited settings stay |
| InstallLifecycle.EditedConfigSurvives | engine/install_manifest.py:257-265 | settings changed after an install survive every later run of disables, enables and uninstalls |
| Chunker.ChunkSource | engine/antares.py:294-345 | the chunks are the windows' lines with their first line numbers; without a tokenizer one chunk |
| Chunker.ChunkReads | engine/antares.py:334-335 | a chunk is read back as the lines of its window and names its first line, counted from one |
| Chunker.LinesAre | engine/antares.py:302 | the lines hold no newline and, joined, are the text without its final newline |
| Chunker.Widest | engine/antares.py:326-333 | the loop fills a window as far as the budget goes, one line at least |
| Chunker.Overlap | engine/antares.py:338-344 | the loop steps back over the overlap, past the old start at least |
| Chunker.EndOfFits | engine/antares.py:326-333 | a window is within the budget or one line, and one line more would not fit |
| Chunker.EndsNeverDecrease | engine/antares.py:327-344 | a later window never ends earlier |
| Chunker.NextOverlaps | engine/antares.py:338-344 | two windows share at least 256 tokens, or the second starts one line later |
| Chunker.SpansAreWellSpaced | engine/antares.py:327-345 | starts strictly increase, ends never decrease, no gap, every window fits, the last ends at the last line |
| Chunker.EveryLineIsCovered | engine/antares.py:327-345 | every line lies in some window |
| Chunker.WindowsReassemble | engine/antares.py:327-345 | without their overlaps the windows are the file |
| JsonSweep.RedactText | engine/evidence.py:397-415 | every substitution in turn, then the cap |
| JsonSweep.CapIsExact | engine/evidence.py:412-414 | a truncated text is as long as the limit if and only if the marker fits in it |
| JsonSweep.SweptTextFitsIff | engine/evidence.py:434-441 | a string is within the cap after the sweep exactly when it was before or something in it was redacted |
| JsonSweep.SweptFitsIff | engine/evidence.py:418-453 | all strings of a document are within the cap after the sweep exactly when every longer one had a redaction |
| JsonSweep.LongStringStays | engine/evidence.py:434-441 | a string over the cap in which no pattern finds anything is reported as truncated and left as it was |
| JsonHeap.SweepNode | engine/evidence.py:432-452 | one object: its strings rewritten in place where redacted, its parts pushed, the flags raised |
| JsonHeap.PopPending | engine/evidence.py:430-452 | each object is visited or lies below one place on the stack |
| JsonHeap.SweptHeap | engine/evidence.py:418-453 | when each object is swept, the document is its recursive rewriting |
| JsonHeap.FlagsOf | engine/evidence.py:428-453 | the flags are the disjunction over all strings of all objects |
| JsonHeap.RedactDocument | engine/evidence.py:418-453 | the stack loop ends, changes only the document's own objects, and is the recursive rewriting with its flags |
| JsonHeap.DeepCopy | engine/evidence.py:789 | a copy in new objects that stands for the same document |
| EvidenceDocument.DumpsEvidence | engine/evidence.py:772-853 | the caller's document is left as it was; a swept copy is cut to the ceiling |
| EvidenceDocument.Fit | engine/evidence.py:790-853 | checks dropped from the tail, then the shrunk document, then the minimal one |
| EvidenceDocument.UnderTheCeilingIff | engine/evidence.py:801-853 | the result is within the ceiling exactly when some candidate is; so whenever the minimal document is |
| EvidenceDocument.KeptChecksAreAPrefix | engine/evidence.py:801-805 | the kept checks are a prefix, as long as fits, and any loss is said |
| PayloadMeaning.OtherFieldsAreSwept | engine/evidence.py:785-821 | every field but the four that are edited is the swept one, unless the last resort is used |
| PayloadMeaning.ResultChecksAreSwept | engine/evidence.py:785-821 | the checks of the result are the first of those given, each swept |
| PayloadMeaning.SummarySays | engine/evidence.py:807-821 | the summary is the swept one, or in the shrunk document that cut to 256 |
| PayloadMeaning.SubjectSays | engine/evidence.py:807-821 | the subject is the swept one, or in the shrunk document that with its title cut to 128 |
| PayloadMeaning.FlagsWithChecks | engine/evidence.py:789-805 | what the flags of a document with its checks say |
| PayloadMeaning.FlagsShrunk | engine/evidence.py:807-820 | what the flags of the shrunk document say |
| PayloadMeaning.MinimalFields | engine/evidence.py:822-850 | every field of the minimal document |
| EvidenceDocument.LastResortForgets | engine/evidence.py:845-850 | the minimal document keeps none of the facts the run recorded about itself |
| EvidenceDocument.FactSurvivesIff | engine/evidence.py:785-787 | a recorded fact, such as the check count, is in the result exactly when some document other than the last resort fits |
| EvidenceDocument.LongFieldForgets | engine/evidence.py:805-853 | with an encoder that spells strings out, a field of its own over the ceiling with nothing to redact loses every recorded fact |
| EvidenceDocument.CheckCountLost | engine/evidence.py:785-850 | a document with a long note whose check count is lost, for every such encoder and ceiling |
| PathGlob.GlobSegment | engine/guard_manager.py:229-239 | one token per character, `*` and `?` within the segment |
| PathGlob.CompilePattern | engine/guard_manager.py:253-256 | the segments' tokens joined by slashes, `**` matching one or more characters |
| PathGlob.IsSensitivePath | engine/guard_manager.py:262-275 | trimmed, freed of every leading `./`, and matched by some pattern |
| PathGlob.MatchesSlashless | engine/guard_manager.py:229-239 | `*` never crosses a slash |
| PathGlob.CompiledMatchesIff | engine/guard_manager.py:253-256 | a text matches exactly when its components match the segments one by one |
| PathGlob.SearchMatchesTail | engine/guard_manager.py:242-256 | a pattern of k segments accepts exactly the paths whose last k components match it |
| PathGlob.SearchCoversBelow | engine/guard_manager.py:245-256 | a pattern ending in `**` accepts exactly the paths with its segments in a row and something non-empty, without a newline, below |

## Left out

- EvalLoop.CreditAndCallsBounded: for a positive iteration cap and a tool weight that is not negative; a negative weight gives credit back, and then `EvalLoop.CallsAlwaysBounded` is the bound.
- EvidenceBounds.BoundStepEvidence: from a cap of 480 on, what is kept is stated for outputs below 10^24 characters; the cap itself holds for all.
- JobStores.JobStore.FindRunningJob: the listing is an input, newest first; reading and sorting the directory is not modelled, and neither is another process writing while the search runs, which `JobProtocol` covers.
- JobStores.JobHeartbeat.Run: the record changes only by this thread's beats; interleaving with others is in `JobProtocol`. Of the extra fields a beat writes only the worker's pid is modelled.
- EvidenceDocument.Fit: what follows the sweep works on values; in the last resort the time stamp is the caller's, as in the code.
- JsonHeap.RedactDocument: the document is a tree; parts shared between two places are not modelled.
- Criterion spans: the rounded iteration figures, elapsed seconds and the rendered text.
- Verdict items: detail texts, the derived flag and summaries; finding the JSON object inside a reply is an input.
- Characters outside ASCII: case folding and digits are ASCII's, whitespace is the space and the characters from tab to carriage return, and lines end at a newline only; the path separator is a slash and paths compared are absolute already.
- Token counts and caps that are negative other than -1; the module-global note of the last cap that tripped.
- Regular expressions of the detectors, the secret patterns and the address arithmetic of preserve lists: their results are inputs.
- Card numbers: stripping separators and the issuer prefix around the Luhn check.
- Fingerprint refusals from flags and attributes; nested repositories and changes while a file is read are refusals that the reading of a path may give.
- Lifecycle: `--purge`, file modes, `core.hooksPath`, the .gitignore entries, and edits to hooks between commands by others; the config may be edited at any time.
- Job deletion, resuming a job, and cap serialization: single-record reads and writes.
- Guard lanes, git and subprocess handling, prompts, tool execution, configuration loading, metrics: I/O and table look-ups.
