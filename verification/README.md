# Verification of the code checker's judging pipeline

A Dafny model of the path a submission takes through the code checker, and proofs of what
that path guarantees: upload, insert, `submissions` topic, judge service, `results` topic,
one goroutine per result, database update, history cache.

`dafny verify dfyconfig.toml` checks the whole project.

| file | part of the system |
|---|---|
| `topics.dfy` | the records on the two topics |
| `dispatcher.dfy` | the judge service as a step machine: fetch loop, bounded channel, worker goroutines, container pool, commits, crashes |
| `dispatcher_invariants.dfy`, `dispatcher_theorems.dfy`, `dispatcher_tightness.dfy` | what every run of it keeps, what follows, and that the bounds are attained |
| `dispatcher_app.dfy` | the same process with its own variables; `Run` under an arbitrary scheduler |
| `history.dfy`, `history_store.dfy` | the submissions table and the history cache: interleaved steps, and whole operations |
| `pipeline.dfy`, `pipeline_tightness.dfy`, `services.dfy` | all services composed; that the bound on rows left "Pending" is attained; the loops and calls around them |
| `verdict.dfy`, `verdict_lab.dfy`, `text.dfy` | judging one submission |
| `command_line.dfy` | the judge-runner command line, from the Go side to the shell script |
| `upload.dfy`, `newlines.dfy`, `build_log.dfy`, `runtime_image.dfy` | chunked upload, line endings, build-log scanner, runtime image reuse |

## How the model is set up

- Concurrency is a machine whose events are the atomic steps of one goroutine, of the broker,
  or of whatever restarts a process. Theorems quantify over every finite sequence of events.
  The Go channel of capacity n is a sequence that accepts a value only below n. The commit
  mutex makes a commit one atomic step.
- Methods of the classes `App`, `Store`, `SubmissionService`, `ResultService`, `Container`,
  `Stream`, `Reader` and `Docker` update fields as the Go code does and are proved to take
  exactly the machine's steps, or to compute what the lemmas speak about.
- Assumptions: one judge process at a time on a single partition; committing offset k makes
  k+1 the group's offset, at any later time and in any order; a write that reports success is
  on the topic, one that reports an error may be; a cache entry may disappear at any step;
  generated ids are new; `created_at` strictly increases; JSON is lossless; SHA-256 is
  injective. The worker count is at least 1, as the configuration enforces. Where it says so,
  that the Docker daemon tags an image exactly if its whole log is clean (`Faithful` in
  `runtime_image.dfy`), and that an update's `updated_at` is later than the row's
  (`ClockAdvances` in `history.dfy`).

## Main results

1. **Loss of submissions.** Commits are out of order and failed messages are skipped, so the
   judge is not at-least-once. With n workers, the offsets below the group's offset that were
   never processed are in workers' hands, n-1 at most, or lost; and the lost ones number at
   most crashes * (n-1) + failed calls. For every n, every number of crashes, of failed calls
   and of messages in hand some run attains both. Runs without failed calls lose nothing if
   and only if n = 1.
2. **Statuses.** In every reachable state of all services together each row is "Pending" or
   has a verdict on its own code, whatever is redelivered, duplicated or reordered; it never
   returns to "Pending"; under deterministic judging it is the verdict and is final. The rows
   that stay "Pending" once everything is quiet are bounded by the losses of the two
   consumers: none without a crash, a failed call or a lost update, and this bound is attained
   for all numbers of them too.
3. **History cache.** If no fill stores a list one of whose rows was updated after its query
   when that user's Dels are over, and no last Del for such an entry is lost, then in every
   state of the run each entry without an outstanding Del has the contents of the database,
   lacking only newer rows (and rows the driver did not deliver). If updates stamp later and
   later times on a row, the cache has them only in such runs. A run with a straddling fill
   shows the condition is needed.
4. **Runtime image.** The build-log scanner stops silently when reading breaks between two
   messages or at a closing bracket, so a start can succeed with no image built. A success
   means that the image in place was built from these sources if and only if its label was
   there already or the daemon tagged it; the log tells that exactly when it is read to its end
   and holds no closing bracket.
5. **Judging and its surroundings.** Verdict loop, command line, upload, line endings, labels
   and signatures are each proved against an independent statement of their purpose.

## Model

| member | source | states |
|---|---|---|
| `DispatcherTheorems.BoundedLoss` | services/judge_service/cmd/app/app.go:82-114 | in every reachable state, the offsets below the committed offset that were never processed and that no worker has in hand number at most crashes*(n-1) + failed calls; the others never processed are in workers' hands, n-1 at most, and none when no worker is processing or nothing was committed since the start |
| `DispatcherTheorems.HandledIff` | services/judge_service/cmd/app/app.go:91-95 | an offset counts as processed exactly if some event of the run made ProcessMessage return nil for it |
| `DispatcherTheorems.FailuresAndCrashes` | services/judge_service/cmd/app/app.go:91-95 | the failed calls and crashes in the bounds are the calls of the run that returned an error and the processes that ended before Run returned |
| `DispatcherTheorems.NothingDropped` | services/judge_service/cmd/app/app.go:82-114 | without a crash or a failed call every offset below the committed one has been processed or is in a worker's hands |
| `DispatcherTheorems.NoLossWithOneWorker` | services/judge_service/cmd/app/app.go:86-101 | with one worker and no failed call every offset below the committed one has been processed |
| `DispatcherTightness.LossAttained` | services/judge_service/cmd/app/app.go:90-99 | for every worker count, crash count, failure count and every k < n some run loses exactly crashes*(n-1) + failed calls while k more are in workers' hands |
| `DispatcherTightness.AtLeastOnceIff` | services/judge_service/cmd/app/app.go:86-101 | runs without failed calls lose nothing if and only if there is a single worker, whether what is in hand is counted as lost or not |
| `DispatcherTheorems.ContainerPool` | services/judge_service/internal/service/service.go:255-259 | idle and held tokens together are always the created containers; a held one is in no other worker's hands and not in the pool |
| `DispatcherTheorems.PoolNeverBlocks` | services/judge_service/internal/service/service.go:258-259 | a worker that needs a container finds one, and giving one back finds room in the channel |
| `DispatcherTheorems.PoolIsFifo` | services/judge_service/internal/service/service.go:258-259 | containers are handed out in the order in which they were created or given back |
| `DispatcherApp.CreateWorkerContainers` | services/judge_service/internal/service/service.go:198-232 | succeeds exactly if every creation does, with n distinct containers in order; the sends into the pool never block |
| `DispatcherTheorems.OrderAndBackpressure` | services/judge_service/cmd/app/app.go:82-113 | the offsets received so far are exactly a contiguous range from the process's base; at most 2n+1 messages are fetched and unfinished |
| `DispatcherTightness.BackpressureAttained` | services/judge_service/cmd/app/app.go:82-113 | for every worker count some run has exactly 2n+1 messages in flight, with the fetch loop waiting for room |
| `DispatcherTheorems.EmitBeforeCommit` | services/judge_service/cmd/app/app.go:90-99 | a committed offset was malformed or has its result on the topic, and was handled without error; each successful handling of a well-formed message wrote exactly one result, a malformed one none |
| `DispatcherInvariants.AnsweredStep` | services/judge_service/internal/handler/kafka_consumer.go:21-29 | once a message is answered (skipped if malformed, else its result is on the topic) it stays so |
| `DispatcherTheorems.Progress` | services/judge_service/cmd/app/app.go:104-114 | the fetch goroutine is never stuck on a full channel or in the wait: some goroutine can always go on |
| `DispatcherTheorems.DrainTerminates` | services/judge_service/cmd/app/app.go:106-110 | after a fetch error the process takes at most a number of steps computed from the state before Run returns, whatever messages arrive and whichever commits reach the broker meanwhile, and until then some goroutine can go on |
| `DispatcherTheorems.Drained` | services/judge_service/cmd/app/app.go:108-110 | on return the channel is empty, every container is back, each fetched message was handled exactly once, and commits were issued exactly for those handled without error |
| `DispatcherInvariants.InvRun` | services/judge_service/cmd/app/app.go:76-115 | every run of the judge keeps FIFO order, custody of messages, commit discipline, emission, tokens and the loss accounting |
| `DispatcherApp.App.Run` | services/judge_service/cmd/app/app.go:76-115 | under every schedule, with messages arriving and commits reaching the broker between any two steps and a fetch error at any time up to a given offset, it terminates; it is a run of the machine without a restart, leaves every fetched message returned once, commits issued exactly for the successes, each answered by exactly one result unless malformed, the pool full, and an offset that is that of an issued commit; and every result written is the outcome of judging the submission at its own offset, given what that judging meets |
| `DispatcherApp.App.StepWorker` | services/judge_service/cmd/app/app.go:88-100 | a worker that can go on takes exactly one step of the machine; if it writes a result, that is the outcome of judging the message in its hands |
| `DispatcherApp.App.JudgeAndWrite` | services/judge_service/internal/service/service.go:255-278 | calls ProcessSubmission on the message in hand and writes the event it returns |
| `PipelineTheorems.StatusSafety` | services/judge_service/internal/service/service.go:255-278 | in every reachable state of the composed services each row is "Pending" or has a status that judging its own id, problem, code and language can give; so has every row of every list cached or on its way there |
| `PipelineTheorems.StatusIsTheVerdict` | services/submission_service/internal/service/service.go:42-77 | with fixed tests and deterministic programs each row is "Pending" or carries the verdict on its own problem, code and language |
| `PipelineTheorems.StatusIsFinal` | services/result_service/internal/service/service.go:24-31 | a step keeps the rows and every field but status and updated_at, never returns a status to "Pending", and under deterministic judging never changes a verdict |
| `PipelineTheorems.ReferentialSafety` | services/submission_service/internal/service/service.go:50-69 | every submission on the topic agrees with a row in id, problem, code and language, every result names a row, and no status UPDATE misses |
| `PipelineTheorems.StuckBound` | services/result_service/internal/handler/kafka_consumer.go:24-45 | when all results are consumed and no goroutine runs, the submissions committed past by the judge but still "Pending", other than the n-1 at most in workers' hands, number at most crashes*(n-1) + failed calls + the updates the result service lost |
| `PipelineTheorems.LostIff` | services/result_service/internal/handler/kafka_consumer.go:36-44 | an update counts as lost exactly if some event made it fail or crashed the service with its goroutine running and its record committed |
| `PipelineTheorems.NothingStuck` | services/result_service/internal/handler/kafka_consumer.go:24-45 | then, without crashes, failed calls and lost updates, every submission committed past has its verdict or is in a worker's hands, and all have it when no worker is processing |
| `PipelineTightness.StuckAttained` | services/result_service/internal/handler/kafka_consumer.go:24-45 | for all numbers of workers, crashes, failed calls, lost updates and messages in hand some run of all services leaves exactly so many "Pending" |
| `PipelineTightness.LostUpdatesStick` | services/result_service/internal/handler/kafka_consumer.go:36-44 | a crash of the result service between its commits and its updates leaves that many submissions "Pending" although the judge lost nothing |
| `PipelineTheorems.OrderOfUpdates` | services/result_service/internal/service/service.go:24-31 | if results for one submission agree, every order of the updates gives the same statuses |
| `PipelineTheorems.ApplyAllAt` | services/result_service/internal/store/store.go:30-36 | any sequence of updates leaves each row with the status of the updates naming it, and untouched if there are none |
| `PipelineTheorems.Components` | services/judge_service/cmd/app/app.go:76-115 | the judge and the store inside the pipeline run as they do alone, so their theorems hold in it |
| `PipelineInvariants.InvRun` | services/result_service/internal/handler/kafka_consumer.go:24-45 | every run keeps: records name rows, results are justified, every consumed result is applied, running or accounted lost |
| `Services.SubmissionService.CreateSubmission` | services/submission_service/internal/service/service.go:42-77 | inserts a fresh "Pending" row, then publishes its id, problem, code and language; a failed publish leaves the row; every record still names a row |
| `Services.ResultService.Start` | services/result_service/internal/handler/kafka_consumer.go:21-46 | starts exactly one goroutine for each decodable result passed; it passes every message delivered before the first cancellation, whatever errors come between; the offset is that of the last successful commit |
| `Services.LastCommit` | services/result_service/internal/handler/kafka_consumer.go:42-44 | the offset left by a run of commits some of which fail: past every one that succeeded, unchanged if none did |
| `Services.ResultService.Consume` | services/result_service/internal/handler/kafka_consumer.go:33-44 | a decodable result gets one goroutine, an undecodable one none, and either is committed without waiting |
| `Services.ResultService.RunUpdate` | services/result_service/internal/service/service.go:24-31 | one goroutine runs the whole update: the status of exactly the named row, then the Del of its user's entry, or an error if there is no such row; a lost Del leaves the cache as it was |
| `History.TruthIsTheQuery` | services/result_service/internal/store/store.go:62-63 | the history is exactly the user's rows, strictly newest first |
| `History.CoherentIff` | services/result_service/internal/store/store.go:30-84 | if no step stores a list overtaken by an update whose Dels are all over, and none loses the last Del for an overtaken entry, then in every state each entry without an outstanding Del has the contents of the database (as of some length of the history); if every update stamps its row with a later time, only then |
| `History.OvertakenIff` | services/result_service/internal/store/store.go:30-84 | every list in the cache or on its way there was read by one query of the run, and is marked overtaken exactly if an update of a row it lists came after that query |
| `History.CurrentIff` | services/result_service/internal/store/store.go:61-84 | a list that is not overtaken has the contents of the database; a dated list has them only if it is not overtaken |
| `History.AllDatedRun` | services/result_service/internal/store/store.go:31-33 | if every update stamps its row with a later time, an overtaken list always has an item older than its row |
| `History.CoherentEntries` | services/result_service/internal/store/store.go:30-84 | in such a run an entry with no Del outstanding has the database's statuses, lacking only rows inserted since its query and rows not delivered; complete ones equal the database |
| `History.StraddlingFill` | services/result_service/internal/store/store.go:47-84 | a fill that straddles an update leaves an old status in the cache with nothing outstanding |
| `History.SameTimeAgain` | services/result_service/internal/store/store.go:31-33 | without the clock the converse fails: repeating an update at the same time overtakes a list that stays current |
| `History.CoveredStep` | services/result_service/internal/store/store.go:38-41 | one step leaves an overtaken entry without an outstanding Del if and only if it is one of those two |
| `History.InvRun` | services/result_service/internal/store/store.go:30-84 | every list names rows of its user in the order of the current history, and is a window of it unless it is overtaken |
| `History.TruthInsert` | services/submission_service/internal/store/store.go:25-47 | an insert puts one item in front of its user's history and changes no other |
| `History.TruthUpdated` | services/result_service/internal/store/store.go:31-36 | an update changes status and updated_at of the items with its id, in every history, and nothing else |
| `HistoryStore.Store.CreateSubmission` | services/submission_service/internal/store/store.go:25-47 | a serial insert leaves the cache alone and valid, with the new item newest in the truth |
| `HistoryStore.Store.UpdateSubmissionStatus` | services/result_service/internal/store/store.go:30-45 | errs exactly when the statement fails or matches no row; takes the machine's Update, and its Del or the loss of it; after a lost Del a valid store stays valid exactly if no entry of the user lists the row |
| `HistoryStore.Store.GetUserSubmissions` | services/result_service/internal/store/store.go:47-84 | a readable entry unchanged, else the rows the query delivers or an error; stores what it read unless that fails; with whole iterations a suffix of the true newest-first list |
| `HistoryStore.DelFailsIff` | services/result_service/internal/store/store.go:39-41 | when the Del of an uninterrupted update is lost, the cache stays covered if and only if no entry of the user lists the row |
| `HistoryStore.ScanRows` | services/result_service/internal/store/store.go:70-76 | the row loop returns the rows delivered, in order |
| `HistoryStore.Store.Entries` | services/result_service/internal/store/store.go:47-57 | in serial runs each entry is a window of the truth with current statuses, a suffix if every iteration was whole |
| `HistoryStore.ReadAfterUpdate` | services/result_service/internal/store/store.go:38-41 | after an update and any sequence of creations, updates, expiries and other users' reads, failed or not, the next read of that user is answered by the database, even if older entries were stale: an error if the query fails, else the rows delivered of the current list |
| `Verdict.Judge` | services/judge_service/internal/service/service.go:280-397 | set-up and compile failures decide first; otherwise the verdict of the first failing test in order or AC; execs are the index of that test plus one (or the number of tests), plus one for Go; they are exactly the compile command, without input, and the run commands in order, each with its own test's input, in a directory that holds the submission's code |
| `Verdict.Prepare` | services/judge_service/internal/service/service.go:281-364 | which set-up answers end the judging, with their verdict, and exactly one compiler exec if it gets that far |
| `Verdict.RunTests` | services/judge_service/internal/service/service.go:366-396 | runs the tests in order up to the first failure, each with its input and the submission's code, and reports it; the error branch is dead |
| `Verdict.RunTestCase` | services/judge_service/internal/service/service.go:399-438 | one exec of the run command with the test's input, classified; never returns an error |
| `Verdict.AcceptsIff` | services/judge_service/internal/service/service.go:415-437 | AC exactly on exit 0 with output equal up to surrounding space; TLE exactly on exit 124 or 137; WA exactly on exit 0 with different output |
| `Verdict.PrintedAnswerAccepted` | services/judge_service/internal/service/service.go:433-437 | a program that exits 0 having printed the expected output and any blanks, tabs and line ends is accepted |
| `Verdict.OtherAnswerRejected` | services/judge_service/internal/service/service.go:432-436 | one that prints another text with visible ends is a wrong answer, with both texts in the message |
| `Verdict.CallsAre` | services/judge_service/internal/service/service.go:338-345 | the two commands word by word, with their input and the directory they find |
| `Verdict.LoopStatus` | services/judge_service/internal/service/service.go:366-396 | AC holds exactly if every test is accepted |
| `Verdict.ProcessSubmission` | services/judge_service/internal/service/service.go:261-270 | the event is the set-up's, with an error turned into RE with its text, or that of the first failing test; it has the submission's id and one of five statuses, never "Pending"; AC exactly without tests or with all accepted |
| `Verdict.OutcomeOfSetup` | services/judge_service/internal/service/service.go:281-332 | what each failing step of the set-up comes to |
| `Verdict.OutcomeOfCompilation` | services/judge_service/internal/service/service.go:346-363 | a failing exec or a non-zero exit of the compiler is CE with its complaint |
| `Verdict.OutcomeOfTests` | services/judge_service/internal/service/service.go:366-396 | otherwise the first test whose program is not accepted decides, or all pass |
| `Verdict.OutcomeIsUnique` | services/judge_service/internal/service/service.go:280-397 | the answers of the environment and the container determine the event |
| `VerdictLab.JudgeInLab` | services/judge_service/internal/service/service.go:280-397 | if compiling and running depend only on the code and the input, the status of the event written is a function of the submission alone |
| `VerdictLab.AcceptedIff` | services/judge_service/internal/service/service.go:366-396 | that function says AC exactly if every test is accepted |
| `VerdictLab.AcceptanceIgnoresOrder` | services/problem_service/internal/store/store.go:95-95 | acceptance does not depend on the order of the unordered test query |
| `VerdictLab.VerdictIsOneOf` | services/judge_service/internal/service/service.go:280-397 | a verdict is AC, WA, TLE, RE or CE, never "Pending" |
| `VerdictLab.CallsAreUnderstood` | services/judge_service/internal/service/service.go:338-345 | every command executed makes the script run the language's action on the given fields |
| `Text.TrimIsTheCore` | services/judge_service/internal/service/service.go:433-433 | trimming a padded string gives its core, the unique one without space at its ends |
| `Text.TrimEqualIff` | services/judge_service/internal/service/service.go:433-433 | outputs are equal after trimming exactly if both pad the same core with space |
| `Text.TrimsExactly` | services/judge_service/internal/service/service.go:433-433 | exactly the 25 characters of unicode.IsSpace are trimmed |
| `Text.TrimTrailing` | services/judge_service/internal/service/service.go:433-433 | blanks, tabs and line ends after a text make no difference |
| `Text.DecimalReadsBack` | services/judge_service/internal/service/service.go:413-413 | a printed number consists of digits, after a sign if it is negative, and reads back |
| `CommandLine.ParseArguments` | services/judge_service/internal/service/runtime/runner.sh:4-25 | the argument loop computes the recursive parse |
| `CommandLine.ParsePrinted` | services/judge_service/internal/service/runtime/runner.sh:10-25 | each variable ends with the last value given to it, whatever the values are |
| `CommandLine.RoundTrip` | services/judge_service/internal/service/service.go:338-345 | printing the fields in any order and parsing gives them back, flag names as values included |
| `CommandLine.ParsesIff` | services/judge_service/internal/service/runtime/runner.sh:10-25 | the loop accepts exactly the lists of flag and value pairs |
| `CommandLine.WellFormedIff` | services/judge_service/internal/service/runtime/runner.sh:27-30 | a list passes the check for missing arguments exactly if it is such a list whose last required values are not empty |
| `CommandLine.Runner` | services/judge_service/internal/service/runtime/runner.sh:10-67 | a usage exit exactly on ill-formed arguments; otherwise the action of the language and phase, or exactly the error for an unknown directory, language or phase |
| `CommandLine.JudgeCommands` | services/judge_service/internal/service/service.go:407-414 | commands of the judge never reach a usage, phase or language error |
| `Upload.SendChunks` | services/gateway/internal/handler/http_handler.go:308-328 | the loop over one reused buffer sends exactly the chunks of the file, or the first ones if the stream breaks |
| `Upload.SendFile` | services/gateway/internal/handler/http_handler.go:298-328 | the info, then the chunks |
| `Upload.ReceiveFile` | services/submission_service/internal/handler/grpc_handler.go:24-51 | rejects exactly a stream without leading info, fails exactly on a transport error, else gathers the chunk data |
| `Upload.ChunkSizes` | services/gateway/internal/handler/http_handler.go:308-328 | ceil(n/1024) chunks, none empty, all of 1024 bytes but perhaps the last |
| `Upload.RoundTrip` | services/submission_service/internal/handler/grpc_handler.go:37-51 | whatever other requests are interleaved, the gathered code is the file |
| `Upload.Transfer` | services/gateway/internal/handler/http_handler.go:298-337 | both loops together deliver the whole file and the info unchanged, or, if sending fails, submit nothing |
| `Newlines.NormalizeIsScan` | services/judge_service/internal/service/service.go:522-526 | the two passes equal one scan that reads CRLF, CR and LF each as one newline |
| `Newlines.NormalizeIdempotent` | services/judge_service/internal/service/service.go:522-526 | no CR is left, and normalising again changes nothing |
| `Newlines.NormalizeKeepsLines` | services/judge_service/internal/service/service.go:522-526 | the logical lines are preserved |
| `Newlines.NormalizeConcatIff` | services/judge_service/internal/service/service.go:522-526 | it distributes over concatenation exactly where the cut does not split a CRLF |
| `RuntimeImage.SignatureIff` | services/judge_service/internal/service/service.go:528-534 | for Dockerfiles without NUL, signatures are equal exactly if both files are |
| `RuntimeImage.LabelIdentifies` | services/judge_service/internal/service/service.go:130-138 | an image whose label was put there by this code carries the signature of given sources exactly if it was built from them |
| `RuntimeImage.AppendRuntimeLabel` | services/judge_service/internal/service/service.go:536-544 | appends the label line, word by word, after a newline if one is missing; the daemon reads it as the label with that key and the signature |
| `RuntimeImage.LabelReadsBack` | services/judge_service/internal/service/service.go:536-544 | a daemon that reads the file line by line gives the image the labels of the unchanged file and the signature under the key |
| `RuntimeImage.LabelLine` | services/judge_service/internal/service/service.go:541-541 | the added line is a LABEL instruction with the key code-checker.runtime.sha256 |
| `RuntimeImage.EnsureRuntimeImage` | services/judge_service/internal/service/service.go:122-177 | requests no build if the label is there, one if it is not and nothing fails before; errs exactly on a failing step or a visible build error; after a success the image in place is the one of these sources exactly if the label was there or the daemon tagged what it built, and it is if the log was read to its end |
| `RuntimeImage.StaleImageStays` | services/judge_service/internal/service/service.go:158-177 | a success with no image built: reading breaks between two messages, the failure is not seen, and the old image stays |
| `RuntimeImage.EnsureAgain` | services/judge_service/internal/service/service.go:126-138 | the next start builds nothing exactly if its normalised sources are those of the image the first start left in place, which are the first start's own if it succeeded on a log read to its end |
| `BuildLog.ParseBuildErrors` | services/judge_service/internal/service/service.go:495-520 | success exactly if nothing before the first closing bracket is malformed or an error, whether the stream ends or breaks; else the first offending item, with the retained text |
| `BuildLog.CleanIff` | services/judge_service/internal/service/service.go:495-520 | a success tells that the daemon's whole log is clean if and only if the stream was read to its end and holds no closing bracket |
| `BuildLog.CutHides` | services/judge_service/internal/service/service.go:498-498 | whatever the daemon has still to say when reading breaks between two messages goes unseen |
| `BuildLog.BracketHides` | services/judge_service/internal/service/service.go:498-498 | whatever follows a closing bracket goes unseen, errors included |
| `BuildLog.RetainedBound` | services/judge_service/internal/service/service.go:506-510 | the retained text is that of some first messages, all of them unless the limit is reached, and at most 65535 plus the longest message |

## Left out

- Consumer-group rebalancing, several partitions and several judge processes: the topics are created with one partition.
- Broker, database, cache and container clients: their answers are inputs or nondeterministic steps.
- `DispatcherApp.App.WriteResult`: does not model extra copies that the producer's own retries may leave on the results topic; the composed services tolerate duplicates through redelivery.
- `DispatcherApp.App.Run`: a container is as new to each message there; what earlier submissions leave in it is in its answers, which are arbitrary.
- `Services.ResultService.RunUpdate`: the update and its Del run as one whole there; steps of other requests between the two are in the cache machine and in the composed services.
- Wall-clock time: deadlines of builds and tests, the cache's five minutes (an entry may expire at any step), and a process left running in a container after its exec timed out.
- `Upload.SendFile`: request forms, headers and HTTP status codes of the gateway are not modelled.
- `RuntimeImage.LabelReadsBack`: continuation lines, quotes, and several pairs in one LABEL instruction of the Dockerfile are not modelled.
- `Verdict.Prepare`: the removal of the temporary directory is not modelled.
- The result topic's records carry messages that no other service reads; statuses are all the pipeline keeps.
- Authentication, problem management, configuration, routing, logging and generated code: no property beyond their library calls.
