# Verification of the run platform's protocols

A Dafny model of the parts of the platform whose correctness depends on state, order or recursion, with proofs about all
inputs, all runs and all interleavings.

| Files | What they model |
|---|---|
| `JobProtocol`, `JobInvariants`, `JobRuns` | Jobs, steps, approval gates and workspace locks as a transition system in which one poll row, one request or one executor report is one event, and claims about all its runs |
| `Polls`, `JobStore` | What a whole poll does to every job and lock, and the operations statement by statement on stored rows, proved to have the effects of the events |
| `Replicas` | The dispatch of steps with single SQL statements of any number of API replicas interleaved |
| `ExecutorReports` | Which reports an executor sends, and what follows for the steps behind an executed one |
| `QueryText`, `QueryRoundTrip` | The hand-written reader of GraphQL selections and its round trip |
| `QuerySearch`, `QuotedArgs`, `PrintedPage`, `RootQuery` | The patterns searched for in a whole query, what they find in a printed one, and the way from a query's text to the answer |
| `ColumnNames`, `Repository`, `Listings`, `Resolver`, `Fetching` | Column spellings, the repository's queries over in-memory tables and what they list, the batched resolver against a row-by-row one, and what whole answers show |
| `LogStream` | Live logs: chunks, lines, framed stream entries, the reader, slices and the polling client |
| `PlanTree`, `PlanPaths`, `PlanDiff`, `PlanContent` | The diff of a structured plan: positions of two values taken together, the rows built from them, and what they keep |
| `ConsoleEvents`, `ApplyProgress` | Reading an apply's console output into one record for each resource |
| `ContextDocument`, `StateWrites` | The job's context document, and the order of writes when a state version is created |
| `Wrappers`, `Ints`, `Indices` | An option type, integers of 64 bits, and lists of places |

Code that changes state is modelled by methods on fields, arrays and maps; each is proved against a specification, and the
claims are about the specification. Check everything with `dafny verify dfyconfig.toml`.

## What the code does not promise

Some properties one would expect do not hold. They are stated as equivalences or with an example:

- A workspace is not always locked while a job runs in it: exactly which events clear the lock is stated for one event
  (`JobRuns.LocksAreClearedUnderRunningJobs`) and for whole runs (`JobRuns.RunningJobsAreLockedUnlessCleared`). Exclusion
  comes from the older-job check.
- Discarding or rejecting a job while a step of it runs and another is pending leaves its steps out of order
  (`JobRuns.OrderIsBrokenOnlyByDiscarding`).
- A job that failed by a hand-over failure can be brought back by an approval, exactly if a gate of it waited when the
  failure was noticed (`JobRuns.LateFailuresAreHarmlessUnlessAGateWaits`, `JobRuns.ALateFailureRevivesAJob`).
- An execution whose installation or beforeInit script fails sends no final report (`ExecutorReports.ProcessJob`), so its
  job stays running and its workspace taken until somebody ends it (`JobRuns.SilentJobsStayRunning`).
- No step behind an executed apply, destroy or script is ever dispatched (`ExecutorReports.NothingRunsBehindAnApply`).
- A listing is answered as printed under guards that are each exact: a root without arguments takes those of its first
  relationship that has any, and a filter that mentions `first: 5` limits the listing (`RootQuery.RootArgsReadBack`); a root
  argument with the word `node` before white space hides the selection (`RootQuery.RootSelectionReadsBack`); and a quoted
  value anywhere in the query, such as the filter `id:[7]`, can turn the listing into a query by keys
  (`RootQuery.RootKeysAreRead`, `RootQuery.AFilterCanNameKeys`).
- The word `node` is not recognised in front of a carriage return (`QueryRoundTrip.ReturnHidesTheNode`): nothing is read
  (`QueryRoundTrip.NothingIsReadBehindReturn`, `QueryRoundTrip.AFieldIsLost`) unless a nested block has a node, or a name that
  ends in the word or an argument that holds it is taken for one. A relationship whose node has nothing at all between its
  braces is dropped (`QueryRoundTrip.EmptyNodesAreDropped`).
- An offset that is no multiple of the size is rounded down to whole pages (`PrintedPage.OffsetsAreRoundedDown`).
- A log line of 65536 bytes or more is cut to its length modulo 65536 (`LogStream.ReaderShowsTheWholeLines`).
- An offset and a limit whose sum leaves 64 bits make a log slice fail (`LogStream.SlicesAreTheRequestedPart`).
- Where a list stands against something else in a plan, the other value is neither listed nor counted
  (`PlanContent.PositionsKeep`, `PlanContent.AListHidesAText`).
- A context document written without having been read, and an upload of something other than an object under a shared key, lose
  the entries of earlier steps (`ContextDocument.EntriesAreTheLastUploaded`).
- The canonical state need not be that of the latest history row (`StateWrites.TheLatestRowMayNotBeCanonical`); when it is,
  is stated exactly (`StateWrites.TheLatestRowIsCanonicalIfItsBytesWereWrittenLast`, `StateWrites.LoneRequests`).
- Cutting an apply's output between an open error block and a framed line changes its events
  (`ConsoleEvents.SplittingInParts`).

Three comments disagree with the code, which the model follows: a failing execution is said to have always reported to the API
already (`internal/executor/mode/batch/job.go`, line 12), see `ExecutorReports.ProcessJob`; the context document is said to be
written once for each job (`internal/api/scheduler/scheduler.go`, line 496), but is written at every dispatch of a step; and a
job is said to be completed when no step is pending or running (line 562 there), but a step that waits for approval also counts
as open.

## Assumptions

- One poll row, one request and one report each take effect as a whole in `JobProtocol`. The unlocking that the status hooks
  start in the background takes effect with the request; one that comes later is a user's unlocking in the model, which may
  happen at any time. `Replicas` drops all this for the dispatch of steps.
- An executor reports only on its running step and while its job is running; `approved` is set only on a job that waits for
  approval; step numbers within a job are distinct. In the runs, a failed hand-over is noticed at any time at which the step
  is not pending again and no step of the job waits for approval; what it does at other times is stated exactly by
  `JobRuns.LateFailuresAreHarmlessUnlessAGateWaits`.
- Besides inserting rows and handing back, no statement makes a step pending.
- The steps of a job write to its log stream one after the other, and its entries do not expire while they are read.
- Tables fit their registered columns; column names are spelled in small letters, digits and underscores before a letter,
  as all registered ones are; primary keys are set and unique; values are told apart by how they print.
- `ORDER BY` is a stable sort by an order of the database's choosing.
- Values of a structured plan come from JSON, so no record names a field twice (used in `PlanContent` only).
- The context document of a job is read and written by one operation at a time, and dispatched documents do not have the two
  shared keys.
- An upload to storage replaces a file as a whole; one that reports failure may have taken effect; ids of history rows are
  distinct and new.

## Model

| member | source | states |
|---|---|---|
| `JobRuns.OneActiveJobPerWorkspace` | internal/api/scheduler/scheduler.go:310-384 | In every reachable state a workspace has at most one job that is queued, running, waiting for approval or approved, and every older job of it is finished, although cancelling may have cleared the lock |
| `JobRuns.LocksAreClearedUnderRunningJobs` | internal/api/handler/jsonapi_handler.go:1162-1224 | Exactly which events clear the lock under a running job: a user unlocking, or another job of the workspace being cancelled, rejected, discarded or failed by a late hand-over failure |
| `JobRuns.OnlyUsersLockUnderRunningJobs` | internal/api/handler/jsonapi_handler.go:1162-1241 | Once cleared, the lock under a running job is taken again by a user only |
| `JobRuns.RunningJobsAreLockedUnlessCleared` | internal/api/scheduler/scheduler.go:448-456 | In every run a running job's workspace is locked, since the dispatch, exactly if no such event came that was not followed by a user's lock |
| `JobRuns.FinishedStaysFinished` | internal/api/scheduler/scheduler.go:310-531 | A job that has reached a terminal status keeps a terminal status in every later state |
| `JobRuns.JobsStay` | internal/api/scheduler/scheduler.go:214-534 | No event removes a job or changes its workspace, its flow, its auto-apply flag or its step numbers |
| `JobRuns.StepsRunInOrder` | internal/api/scheduler/scheduler.go:386-456 | While a job lives, its steps read by number are settled ones, then at most one running or waiting one, then untouched ones |
| `JobRuns.OnlyPollsStartSteps` | internal/api/scheduler/scheduler.go:440-456 | The only event that sets a step running is a poll of a queued job with an unlocked workspace; it takes the first pending step, never a gate, and takes the lock with it |
| `JobRuns.DispatchComesInTurn` | internal/api/scheduler/scheduler.go:386-498 | Over every run a step is dispatched only when every lower-numbered step is completed or skipped, no older job of the workspace is unfinished and the workspace is unlocked |
| `JobRuns.OrderIsBrokenOnlyByDiscarding` | internal/api/handler/state_handler.go:838-856 | Step order outlives the end of a job except in one case, stated as an equivalence: discarding or rejecting a job of which a step runs and another is pending |
| `JobRuns.DiscardingBreaksOrder` | internal/api/handler/jsonapi_handler.go:1169-1183 | The same equivalence for the two statements that break it |
| `JobRuns.GatesHaveHistory` | internal/api/scheduler/scheduler.go:406-428 | In every run a completed gate was approved while it waited, and a skipped gate of a living job means auto-apply |
| `JobRuns.GatesAreApproved` | internal/api/scheduler/scheduler.go:354-428 | In every run a step behind an approval step is dispatched only after an explicit approval of that gate while it waited, or on a job with auto-apply |
| `JobRuns.EveryChangeCosts` | internal/api/scheduler/scheduler.go:214-595 | Every event that changes an unfinished job strictly lowers its weight: four for a pending step, two for a running one, one for a waiting one, plus a rank of the status |
| `JobRuns.JobsEnd` | internal/api/scheduler/scheduler.go:214-595 | A job with n steps changes at most 4n + 2 times before it is finished, in every run |
| `JobRuns.LocksStayAccounted` | internal/api/scheduler/scheduler.go:448-456 | Without user locks every locked workspace has a job that holds it: one that runs, or one between two of its steps |
| `JobRuns.FinishedWorkspacesAreUnlocked` | internal/api/scheduler/scheduler.go:562-595 | Without user locks a workspace whose jobs are all finished is unlocked, whichever completion, failure, rejection, discard or cancel ended the last one |
| `JobRuns.QueuedJobsFindTheWorkspaceUnlocked` | internal/api/scheduler/scheduler.go:241-244 | Without user locks no queued job waits for a lock: the poll that selects only unlocked workspaces can select it |
| `JobRuns.TheOldestJobCanMove` | internal/api/scheduler/scheduler.go:310-531 | The oldest unfinished job of a workspace always has an event that changes it, and which: its executor's report while it runs, an approval while it waits, and the poll otherwise |
| `JobRuns.SilentJobsStayRunning` | internal/executor/core/executor.go:186-320 | In every run a job whose executor sends nothing more stays exactly as it is until somebody ends it, and no other job of its workspace is begun meanwhile |
| `JobRuns.LateFailuresAreHarmlessUnlessAGateWaits` | internal/api/scheduler/scheduler.go:520-531 | A hand-over failure, noticed at whatever time, keeps the invariant exactly if no other step of the job waits for approval by then; exactly otherwise approving that gate brings the failed job back to the queue |
| `JobRuns.ALateFailureRevivesAJob` | internal/api/scheduler/scheduler.go:520-531 | Such a job exists |
| `JobInvariants.NextKeepsOk` | internal/api/scheduler/scheduler.go:214-595 | Every event keeps the invariant behind the claims above: steps in order, in-progress steps matched to the status, first come first served in each workspace |
| `JobInvariants.EarlierStepsSettled` | internal/api/scheduler/scheduler.go:386-397 | When a queued job takes its first pending step, all lower-numbered ones are completed or skipped |
| `JobProtocol.FirstPending` | internal/api/scheduler/scheduler.go:387-393 | The step taken is a pending one with the smallest number, and there is none only if no step is pending |
| `JobStore.Tables.PollJobs` | internal/api/scheduler/scheduler.go:214-534 | The poll loop on the stored tables: the jobs that are pending, approved, or queued in an unlocked workspace, and have fewer than ten such older ones, are each moved as their status and first pending step say, all others stay as they are, and which workspaces are locked afterwards |
| `Polls.PollRows` | internal/api/scheduler/scheduler.go:241-246 | At most ten selected rows, oldest first; a selected row is left out only if ten older ones are taken |
| `Polls.PollAllKeepsOk` | internal/api/scheduler/scheduler.go:214-534 | A whole poll keeps the invariant |
| `Polls.PollAllTouchesOnlyItsRows` | internal/api/scheduler/scheduler.go:214-534 | A poll leaves every job it did not select alone |
| `Polls.PollsMoveTheReady` | internal/api/scheduler/scheduler.go:214-534 | The same of one poll event for each selected row: what becomes of a job depends on its status, on older unfinished jobs of its workspace, on the type of its first pending step and on whether somebody can take it |
| `Polls.PollsStartTheFirstStep` | internal/api/scheduler/scheduler.go:440-498 | A queued job that has its turn is started: its first pending step, if executable and somebody can take it, runs afterwards with the job, and the workspace is locked |
| `Polls.LockedJobsWait` | internal/api/scheduler/scheduler.go:241-246 | A queued job of a locked workspace stays as it is |
| `Polls.TurnsAreTheRows` | internal/api/scheduler/scheduler.go:241-246 | The rows selected are the ready jobs with fewer than ten older ready ones |
| `JobStore.Tables.ProcessRow` | internal/api/scheduler/scheduler.go:310-397 | The statements for one row have the effect of one poll event and touch no other job |
| `JobStore.Tables.ProcessStep` | internal/api/scheduler/scheduler.go:399-518 | Gate, skipped step, claimed step handed on, handed back or failed: the statements compose to the one effect the claims are about |
| `JobStore.Tables.HandOverFailed` | internal/api/scheduler/scheduler.go:520-531 | The three statements after a failed hand-over, on whatever job and step, have the effect of that event |
| `JobStore.Tables.MaybeCompleteJob` | internal/api/scheduler/scheduler.go:562-595 | A job without open steps is completed, or failed if a step of it failed, and its workspace unlocked; any other is left alone |
| `JobStore.Tables.AdvanceOrComplete` | internal/api/scheduler/scheduler.go:668-680 | Nothing happens while a step is pending |
| `JobStore.Tables.CountOlderActive` | internal/api/scheduler/scheduler.go:311-324 | The count is zero exactly if no older job of the workspace is unfinished |
| `JobStore.Tables.ResolveStepType` | internal/api/scheduler/scheduler.go:536-560 | The loop over the flow finds the type of the first entry with the number, and a plan where nothing is decided |
| `JobStore.Tables.InitJobSteps` | internal/api/tcl/processor.go:55-122 | One pending step for each flow entry, once: a job that has steps keeps them |
| `JobStore.Tables.CreateJob` | internal/api/handler/jsonapi_handler.go:1041-1103 | A created job has the effect of the creating event |
| `JobStore.Tables.UpdateJobStatus` | internal/api/handler/jsonapi_handler.go:1117-1241 | The hooks of a status change compose to one effect on steps, job and lock |
| `JobStore.Tables.SendReport` | internal/status/status.go:53-98 | Each report, a step update followed by a job update, has the effect of the report event: which status the step, the job and the steps left over get, and when the workspace is unlocked |
| `JobStore.Tables.ApproveJob` | internal/api/handler/approval_handler.go:53-94 | Approving completes the waiting step and queues the job |
| `JobStore.Tables.RejectJob` | internal/api/handler/approval_handler.go:97-125 | Rejecting ends the job, settles its pending steps and unlocks |
| `JobStore.Tables.CancelTheRun` | internal/api/handler/state_handler.go:820-836 | Cancelling a run ends a pending, queued or running job and unlocks in any case |
| `JobStore.Tables.DiscardTheRun` | internal/api/handler/state_handler.go:838-856 | Discarding ends the job in any status, settles waiting and pending steps and unlocks |
| `Replicas.AtMostOnceDispatch` | internal/api/scheduler/scheduler.go:440-456 | Under every interleaving of single statements of any number of replicas and all other writers, no step is handed to an executor twice |
| `Replicas.InterleavingsAreSafe` | internal/api/scheduler/scheduler.go:440-456 | In every interleaving a step is pending, or claimed by one replica, or handed over once, never two of these |
| `Replicas.OwnersClaimed` | internal/api/scheduler/scheduler.go:444-447 | A replica about to hand over or hand back has owned the step without a break since its own successful claim |
| `Replicas.HandBackUndoesItsOwnClaim` | internal/api/scheduler/scheduler.go:448-456 | A hand-back undoes the replica's own claim and nothing else: since then nobody else claimed the step and it was not handed over |
| `Replicas.WorkspacesAreTakenInTurn` | internal/api/scheduler/scheduler.go:448-456 | Under every interleaving two dispatches take the same workspace only if it was unlocked in between, by a statement of its own or by a dispatch of one of its steps that failed |
| `Replicas.LocksStayUntilReleased` | internal/api/scheduler/scheduler.go:448-531 | A lock taken by a dispatch stays until such a statement: the hand-back and the hand-over do not release it, a failure without an executor or of the hand-over does |
| `Replicas.ReleasesFollowGivingUp` | internal/api/scheduler/scheduler.go:440-518 | A replica that unlocks because there is no executor has claimed the step and owned it without a break until it gave up |
| `Replicas.UndisturbedDispatches` | internal/api/scheduler/scheduler.go:440-518 | A replica that nobody disturbs hands a pending step of a free workspace over; of a locked one it leaves everything as it was; and without an executor only the step has failed |
| `ExecutorReports.ProcessJob` | internal/executor/core/executor.go:186-320 | Which reports an execution sends, exactly: always a start; then failure, success, a plan with changes or one without, each stated in both directions from the kind and the phases that worked; and no second report exactly if the installation or a beforeInit script failed |
| `ExecutorReports.ExecuteTerraform` | internal/executor/core/executor.go:322-418 | The final report of a terraform step from its phases, in both directions: changes only for a plan that exits with 2, no changes for any other plan, success for applies and destroys, failure where a phase failed |
| `ExecutorReports.CompletedStepsHadChanges` | internal/status/status.go:62-98 | In every run a completed step of a living job, unless it is a gate, got there by the report of a plan with changes |
| `ExecutorReports.LaterStepsFollowPlansWithChanges` | internal/status/status.go:62-98 | In every run a step is dispatched only if each earlier non-gate step was skipped or reported a plan with changes |
| `ExecutorReports.NothingRunsBehindAnApply` | internal/executor/core/executor.go:396-415 | A flow ends at its first executed apply, destroy or script: no step behind it is ever dispatched |
| `QueryRoundTrip.QueriesReadBack` | internal/api/handler/graphql_handler.go:755-914 | Printing any selection tree as nested edges and nodes, with any white space between the tokens and any further arguments, finding its node and parsing it gives the same fields and relationships with their sort and filter |
| `QueryRoundTrip.ReadingPrintedText` | internal/api/handler/graphql_handler.go:826-914 | The same for the text of one node body, by recursion on the tree |
| `QueryRoundTrip.BracketsAreFound` | internal/api/handler/graphql_handler.go:808-823 | For text that is balanced inside, the matching bracket ends exactly that text and the scan goes on behind it |
| `QueryRoundTrip.ArgsReadBack` | internal/api/handler/graphql_handler.go:683-700 | A printed sort and filter read back as themselves whatever words the filter holds and whatever arguments follow |
| `QueryRoundTrip.SingleQuotedFilterReadsBack` | internal/api/handler/graphql_handler.go:683-700 | A filter in single quotes is read back where nothing stands in double quotes |
| `QueryRoundTrip.BlockIsFound` | internal/api/handler/graphql_handler.go:755-778 | A printed block gives its own node body, not that of a block inside it |
| `QueryRoundTrip.EmptyNodesAreDropped` | internal/api/handler/graphql_handler.go:883-908 | A relationship is read from its block exactly if there is anything, were it white space, between its node's braces |
| `QueryRoundTrip.ReturnHidesTheNode` | internal/api/handler/graphql_handler.go:755-778 | With a carriage return behind the word node the search goes on among the items printed in that node |
| `QueryRoundTrip.NothingIsReadBehindReturn` | internal/api/handler/graphql_handler.go:755-778 | Where it finds no node there either, nothing is read, so that the selection reads back exactly if it is empty |
| `QueryRoundTrip.AFieldIsLost` | internal/api/handler/graphql_handler.go:755-778 | For every layout with such a return a query for one field reads nothing |
| `QueryText.ParseBody` | internal/api/handler/graphql_handler.go:826-914 | The index-driven scan with its nested loops and recursion computes the selection the round trip is about |
| `QueryText.ParseItem` | internal/api/handler/graphql_handler.go:840-911 | One word of a body: a field, or a relationship if a block follows; what is left reads as before |
| `QueryText.FindNodeBody` | internal/api/handler/graphql_handler.go:755-778 | The search loop finds the content of the first node keyword's brace |
| `QueryText.ExtractContent` | internal/api/handler/graphql_handler.go:780-823 | Counting depth finds the content of the bracket, and nothing where it is not closed |
| `QueryText.SkipPast` | internal/api/handler/graphql_handler.go:862-898 | The second counting loop stops right behind the bracket the first one closed |
| `QueryText.ReadWord` | internal/api/handler/graphql_handler.go:839-880 | A word, its optional arguments and the white space around them |
| `QuerySearch.ReadIds` | internal/api/handler/graphql_handler.go:624-634 | The keys read are those of the leftmost list, trimmed and without empty ones, or else the leftmost single one |
| `RootQuery.ASingleKeyIsRead` | internal/api/handler/graphql_handler.go:597-634 | A single key behind id or ids is read where no list stands in the text |
| `QuotedArgs.KeysAreRead` | internal/api/handler/graphql_handler.go:597-601 | The search for keys runs through all quoted text of a query: it finds some exactly if its quoted values hold a list behind the word id or ids, in one value or across two, or one that is not the last ends in that word and a colon |
| `PrintedPage.NumbersAreRead` | internal/api/handler/graphql_handler.go:657-667 | A number in the filter's text is taken for the page's before one that stands on its own |
| `PrintedPage.PageWithoutBraces` | internal/api/handler/graphql_handler.go:649-668 | Without braces only first and offset decide the page, each on its own |
| `PrintedPage.BracePagesReadBack` | internal/api/handler/graphql_handler.go:603-656 | A printed page in braces is read as its size and number, in either order and whatever arguments without braces stand around it |
| `PrintedPage.PrintedNumbersAreRead` | internal/api/handler/graphql_handler.go:657-667 | A printed first, with or without an offset behind it, is read as what it says |
| `PrintedPage.OffsetsAreRoundedDown` | internal/api/handler/graphql_handler.go:164-176 | The rows listed begin at the offset asked for exactly if it is a multiple of the size and not the largest number |
| `RootQuery.RootArgsReadBack` | internal/api/handler/graphql_handler.go:636-668 | A listing is sorted and filtered as its root asks, and takes the rows its root asks for, exactly if the root has arguments and its filter's text selects no other rows, or if it has none and the first relationship that has arguments neither sorts nor filters nor limits by them |
| `RootQuery.RootArgsAreTheFirstOnes` | internal/api/handler/graphql_handler.go:636-668 | What is read for the root, in all cases: its own arguments, or else those of the first relationship that has any |
| `RootQuery.RootSelectionReadsBack` | internal/api/handler/graphql_handler.go:670-680 | The root's selection is read back exactly if its arguments do not hold the word node before white space, or the selection is empty |
| `RootQuery.RootKeysAreRead` | internal/api/handler/graphql_handler.go:624-634 | A listing is taken for a query by keys exactly if its quoted values, those of nested relationships included, name some |
| `RootQuery.AFilterCanNameKeys` | internal/api/handler/graphql_handler.go:597-634 | The root filter id:[7] is such a value: the code fetches the row with key 7 and leaves the filter out |
| `RootQuery.KeyQueriesReadBack` | internal/api/handler/graphql_handler.go:624-634 | A printed list of keys is read back, in order, whatever the selection behind it holds |
| `RootQuery.KeyQuerySelectionReadsBack` | internal/api/handler/graphql_handler.go:670-680 | So is its selection, under the same exact condition as a listing's |
| `RootQuery.ListingsAreRead` | internal/api/handler/graphql_handler.go:610-681 | Under the guards above the request read from a printed listing asks for what it means: no keys, its sort and filter, the rows of its page, and its selection |
| `RootQuery.ReadRoot` | internal/api/handler/graphql_handler.go:610-681 | What is read from any text behind the root type's name: keys, first parentheses' sort, filter and page, and the first node's selection |
| `RootQuery.Answer` | internal/api/handler/graphql_handler.go:91-127 | Executing any query text: an error for an unknown type, the rows of its keys if it names any, the listing otherwise. Said of the rows: by keys, each living row once for each time its key is named, in that order; listed, all living rows that satisfy the filter read, once each and in the order asked for, and of these the part the page begins; each with its values, within the query bound |
| `RootQuery.AnswerListing` | internal/api/handler/graphql_handler.go:91-127 | From a printed listing to the answer: all living rows that satisfy the printed filter, once each and in the printed order, of these the part that begins behind the whole pages the offset reaches, each with the values of the fields printed and what its relationships lead to; an error exactly where a column named is not there |
| `RootQuery.AnswerKeys` | internal/api/handler/graphql_handler.go:91-162 | From a printed query by keys to the answer: the living rows with these keys, in the order of the keys, each with the values of the fields printed and what its relationships lead to |
| `Resolver.ResolveRelationshipsForRows` | internal/api/handler/graphql_handler.go:210-228 | Filling the nodes in place from one query for each relationship gives what looking up each row by itself gives, for every selection tree and all table contents, in at most one query for each relationship in the tree |
| `Resolver.ResolveToOneBatch` | internal/api/handler/graphql_handler.go:252-300 | One query for all foreign keys of the batch: shared parents, null keys, missing and deleted rows come out as single look-ups give them |
| `Resolver.ResolveToManyBatch` | internal/api/handler/graphql_handler.go:306-385 | One query for all parents, bucketed: order, filters, soft deletes and errors of each parent come out as one listing for each parent gives them |
| `Resolver.ResolveRelationshipBatch` | internal/api/handler/graphql_handler.go:235-247 | To-one first, then to-many, and an error for a name that is neither |
| `Resolver.GroupByKey` | internal/api/handler/graphql_handler.go:259-276 | Which parents point at which key, without repeating a key |
| `Resolver.SpreadToParents` | internal/api/handler/graphql_handler.go:293-300 | Every parent of a found row, and no other, gets that row's node |
| `Resolver.ChildColumns` | internal/api/handler/graphql_handler.go:317-338 | The selected columns are those of the fields, the two keys and the foreign keys the nested relationships need |
| `Resolver.BucketByParent` | internal/api/handler/graphql_handler.go:374-384 | Each bucket holds its parent's nodes in the order of the query |
| `Resolver.BucketsAreResolved` | internal/api/handler/graphql_handler.go:374-384 | A bucket is the list of that parent's children, each resolved by itself |
| `Resolver.ChildRowsOfBatch` | internal/api/repository/repository.go:449-544 | One listing for a parent answers or fails as the batch does and gives that parent's part of it |
| `Resolver.FilterFields` | internal/api/handler/graphql_handler.go:981-1005 | Each requested field that names a column, in either spelling, stands there with the value the row has in it, or every column in the query's spelling where no field is requested; and nothing else |
| `Fetching.FetchAll` | internal/api/handler/graphql_handler.go:164-198 | A listing gives the part of the list that its page begins, each row with the values of the requested fields and what its relationships lead to, as if looked up alone, with at most one query and one for each relationship in the selection; nothing exactly where a column named is not there |
| `Fetching.FetchByIDs` | internal/api/handler/graphql_handler.go:129-162 | The living rows with the keys asked for, in the order of the keys and without those not found, with their values and relationships as if looked up alone, within the same bound |
| `Fetching.ResolvedShows` | internal/api/handler/graphql_handler.go:210-385 | A node resolved by itself shows its row: the row's values; under a foreign key's name the living row it points at, or nothing where there is none; under a table of children all living rows that carry its key and pass the filter, in the order asked for; and so on at every depth |
| `Fetching.RowsOfKeysAreFound` | internal/api/handler/graphql_handler.go:129-162 | The rows of a list of keys stand in the order of the keys and none that lives is left out |
| `ColumnNames.SnakeUndoesCamel` | internal/api/handler/graphql_handler.go:1007-1064 | A column name survives the way to its query spelling and back exactly if it has no capitals and every underscore stands before a small letter and not first |
| `ColumnNames.CamelTellsColumnsApart` | internal/api/handler/graphql_handler.go:1007-1020 | Two such columns never share a query spelling |
| `ColumnNames.CamelCapitalises` | internal/api/handler/graphql_handler.go:1007-1020 | An underscore before a small letter becomes its capital, and a name without underscores stays as it is |
| `ColumnNames.CamelToSnake` | internal/api/handler/graphql_handler.go:1052-1064 | The loop over the characters computes the column spelling |
| `ColumnNames.SnakeToCamel` | internal/api/handler/graphql_handler.go:1008-1020 | Splitting, capitalising in place and joining computes the query spelling |
| `Repository.BatchHoldsEveryParentsList` | internal/api/repository/repository.go:509-529 | Within a batch ordered by foreign key and then as asked, one parent's rows are exactly its own list in the order asked for |
| `Repository.OfParentOfOrdered` | internal/api/repository/repository.go:509-529 | Picking one parent's rows and ordering commute |
| `Repository.OrderingSorts` | internal/api/repository/repository.go:264-277 | The order modelled is a sorted permutation of the rows |
| `Repository.FindingIsUnique` | internal/api/repository/repository.go:358-393 | A row is found by its key exactly if it is in the table, not deleted and has the key |
| `Repository.StatementsAskForTheChosen` | internal/api/repository/repository.go:219-264 | The conditions built up ask for exactly the live rows of the parents that satisfy the filters, and fail exactly on an unknown column |
| `Repository.GenericRepository.List` | internal/api/repository/repository.go:201-303 | The statement built gives the live rows that satisfy the parent and the filters, ordered, paged and projected, or an error |
| `Listings.AllRowsAreTheList` | internal/api/repository/repository.go:201-303 | The rows a listing is about are those that are not deleted, have a wanted value in each filtered column and belong to the parent, each as often as the table has it, ascending or descending by the sort column |
| `Listings.ListingsHoldTheList` | internal/api/repository/repository.go:201-303 | A listing gives the part of these rows from the offset on, of at most the page's size, and fails exactly where a column named is not there |
| `Listings.ChosenColumnsAreGiven` | internal/api/repository/repository.go:201-303 | A listing of some columns gives the same rows with these columns only |
| `Repository.GenericRepository.FindByIDs` | internal/api/repository/repository.go:399-443 | The live rows whose key is in the list, with every column, in one query at most |
| `Repository.GenericRepository.ListByParentFKs` | internal/api/repository/repository.go:449-544 | The live rows of all parents that satisfy the filters, ordered by parent and then as asked, in one query at most |
| `Repository.GenericRepository.AddFilters` | internal/api/repository/repository.go:236-258 | One condition for each filter with a safe column and a non-empty list, whatever the order in which the map is walked |
| `LogStream.RedisStreamer.Write` | internal/executor/logs/redis.go:75-111 | Whatever the chunks, the stream holds, behind what the job's earlier steps left there, one entry for each complete line written so far, numbered from one, and the rest is buffered |
| `LogStream.RedisStreamer.Close` | internal/executor/logs/redis.go:114-146 | Closing sends an unfinished line, if any, and the end mark |
| `LogStream.EntriesAreLines` | internal/executor/logs/redis.go:75-111 | Each entry holds, framed, the job, the step, the number of the line counted from one and the line, and nothing else |
| `LogStream.ClosingEndsTheLastLine` | internal/executor/logs/redis.go:114-146 | Closing adds a newline exactly if there is text that does not end in one |
| `LogStream.Serialize` | internal/executor/logs/redis.go:21-34 | The frame byte by byte: five fixed bytes, the length modulo 65536 with the higher byte first, the string |
| `LogStream.FramingKeepsTheLow16Bits` | internal/api/streaming/redis.go:117-149 | Decoding an encoded string of n bytes yields its first n mod 65536 bytes, so the string itself exactly if n is below 65536 |
| `LogStream.FramesAreDecoded` | internal/api/streaming/redis.go:117-149 | A frame is decoded whatever stands behind it, and bytes that do not begin with a whole frame are taken as they are |
| `LogStream.LinesOfMoreText` | internal/executor/logs/redis.go:75-111 | Cutting more text into lines continues where the earlier text stopped, wherever the chunks end |
| `LogStream.ReadFromRedis` | internal/api/streaming/redis.go:56-102 | The reader shows the texts of the entries in order, of the plain key if it has any and of the serialised key otherwise; where two fields of an entry decode to output it shows one of the texts some order of the fields gives |
| `LogStream.ReadEntries` | internal/api/streaming/redis.go:73-99 | The loop over entries and fields builds such a text, whatever the order in which a map is walked |
| `LogStream.ReaderShowsTheWholeLines` | internal/api/streaming/redis.go:56-102 | While the executor writes, the reader shows exactly the text up to its last newline, if and only if no line has more than 65535 bytes |
| `LogStream.ClosedStreamsShowEverything` | internal/executor/logs/redis.go:114-146 | After Close it shows the whole text with a final newline, under the same condition |
| `LogStream.LaterStepsAreShownBehind` | internal/executor/logs/redis.go:75-146 | Behind the texts of a job's earlier steps the reader shows the whole lines of the step that writes, or its whole text once it has closed, if and only if none of all their lines is too long |
| `LogStream.WritingOnlyAppends` | internal/executor/logs/redis.go:75-111 | More writing only appends to what is shown, for lines of any length |
| `LogStream.SlicesAreTheRequestedPart` | internal/api/handler/tfe_log.go:21-34 | The slice is the requested part of the log; it fails exactly if offset plus limit leaves 64 bits |
| `LogStream.PollingReadsTheLog` | internal/api/handler/tfe_log.go:8-34 | A client that advances by what it received holds a prefix of a growing log, a poll whose bounds stay within 64 bits brings nothing exactly when it has all of it, one that leaves them fails exactly when something is missing, and there are at most as many other polls as there are bytes |
| `LogStream.ClientsSeeWhatWasWritten` | internal/api/handler/tfe_log.go:8-34 | From the executor's writes to the client: with nothing but white space in it a stream shows nothing, the client only ever shows a prefix of the text, and all of it once a poll after Close brings nothing |
| `LogStream.Poll` | internal/api/handler/tfe_log.go:21-34 | One poll: the live text as soon as there is more in it than white space, the stored output until then, and the requested part of it |
| `LogStream.LiveLog` | internal/executor/logs/redis.go:75-146 | Writer, stream, reader and client put together: for any chunks, any polls after each and polls after Close until one brings nothing, every text shown is a beginning of the next, and the last is the whole text if every line is short enough |
| `PlanDiff.BuildDiffRows` | ui/src/domain/Jobs/StructuredPlanOutput.tsx:391-635 | The leaf rows are those of the shown leaf positions, in order: each with its label and values, added only without an old value, removed only without a new one, changed only with two different ones, sensitive or unknown exactly if the plan says so. Hidden and visible add up to all positions, which are those of all paths in order. Every group, at every depth, is named after one step and holds what lies below it, and a single row stands without a group exactly where it may |
| `PlanDiff.BuildByIdentity` | ui/src/domain/Jobs/StructuredPlanOutput.tsx:446-505 | The same for a list matched by identity |
| `PlanDiff.BuildByIndex` | ui/src/domain/Jobs/StructuredPlanOutput.tsx:506-549 | The same for a list matched by position |
| `PlanDiff.BuildByKey` | ui/src/domain/Jobs/StructuredPlanOutput.tsx:581-634 | The same for records |
| `PlanDiff.BuildCollectionEntries` | ui/src/domain/Jobs/StructuredPlanOutput.tsx:345-367 | The map filled in order holds for each identity the last item that has it and what the plan says at its place |
| `PlanDiff.AddChild` | ui/src/domain/Jobs/StructuredPlanOutput.tsx:484-504 | Collapsing a single row or wrapping rows in a group neither adds nor drops a leaf row and never makes an empty group |
| `PlanDiff.RowsAreConserved` | ui/src/domain/Jobs/StructuredPlanOutput.tsx:267-275 | Counted leaves plus hidden count is the number of leaf positions |
| `PlanDiff.ShownAreDrawn` | ui/src/domain/Jobs/StructuredPlanOutput.tsx:555-580 | Which positions get a row, and of which kind |
| `PlanPaths.PositionsAreSpots` | ui/src/domain/Jobs/StructuredPlanOutput.tsx:391-635 | The positions are the ends of all paths there are, ordered by where the paths part, each with the title of its last step |
| `PlanPaths.StepsAreTheSteps` | ui/src/domain/Jobs/StructuredPlanOutput.tsx:433-593 | The steps below a pair, in order: the fields of either record sorted by name; the places of the longer list; or, if every item is a record and none repeats an identity, the identities, those of the old list first |
| `PlanPaths.StepsLeadDown` | ui/src/domain/Jobs/StructuredPlanOutput.tsx:450-490 | What a step leads to, and nothing else: old item and new item of one place or identity, and what the plan says at the place of each |
| `PlanPaths.IdentitiesAreNames` | ui/src/domain/Jobs/StructuredPlanOutput.tsx:310-331 | An item's identity is made of the first of six keys that holds a text that is not blank, or else of its place |
| `PlanDiff.ItemsAreTitled` | ui/src/domain/Jobs/StructuredPlanOutput.tsx:278-308 | An item's title is its place and the name of what it becomes, or else of what it was |
| `PlanTree.PositionsAreThePaths` | ui/src/domain/Jobs/StructuredPlanOutput.tsx:391-635 | The leaf positions are exactly the ends of the paths one can take by key, position or identity |
| `PlanTree.PositionsDiffer` | ui/src/domain/Jobs/StructuredPlanOutput.tsx:391-635 | No path leads to two positions, and each position holds the two values its path leads to |
| `PlanTree.StepsAreDistinct` | ui/src/domain/Jobs/StructuredPlanOutput.tsx:333-343 | No item or field is visited twice, in either matching |
| `PlanTree.GoingDownShrinks` | ui/src/domain/Jobs/StructuredPlanOutput.tsx:391-635 | Each recursive call works on values that are smaller together |
| `PlanContent.PositionsKeep` | ui/src/domain/Jobs/StructuredPlanOutput.tsx:427-433 | The leaf positions hold all texts, numbers, booleans and nulls of both values exactly if no list stands against something else that holds any |
| `PlanContent.SideAddsUp` | ui/src/domain/Jobs/StructuredPlanOutput.tsx:446-549 | Going down every step from a list or record reaches everything in it, in both matchings |
| `PlanContent.AListHidesAText` | ui/src/domain/Jobs/StructuredPlanOutput.tsx:427-433 | A text replaced by an empty list is neither listed nor counted |
| `ApplyProgress.ParseApplyProgress` | ui/src/domain/Jobs/applyProgressParser.ts:63-178 | Each resource's entry is the replay of the events naming it from its planned start; entries are in plan order and then in order of appearance; the events are the lines of the log that say something, an error taking all framed lines behind it; the errors are the messages of all failures in order |
| `ConsoleEvents.SplitGivesTheEvents` | ui/src/domain/Jobs/applyProgressParser.ts:100-178 | The events of a log, exactly: one for each line that says something outside an error block, and each block as far as its framed lines go |
| `ApplyProgress.ListedInOrder` | ui/src/domain/Jobs/applyProgressParser.ts:63-72 | Planned resources come in plan order, then the others in the order in which an event first brings them in |
| `ApplyProgress.SeedsAreTheLastPlanned` | ui/src/domain/Jobs/applyProgressParser.ts:67-69 | A planned resource starts pending, with what the last plan line for it does |
| `ConsoleEvents.SplittingInParts` | ui/src/domain/Jobs/applyProgressParser.ts:100-111 | Cutting a log in two leaves its events as they are exactly if the cut does not separate an open error block from a framed line |
| `ApplyProgress.ParallelResourcesDoNotMix` | ui/src/domain/Jobs/applyProgressParser.ts:63-178 | However the output of other resources is interleaved, a resource's record is the same |
| `ApplyProgress.TheLastEventDecides` | ui/src/domain/Jobs/applyProgressParser.ts:113-165 | A resource's state, completions and lines can be read off its events: the last start, completion or failure decides |
| `ApplyProgress.ReplaceNeedsBothHalves` | ui/src/domain/Jobs/applyProgressParser.ts:150-163 | A planned replace is done exactly if the last such event is a completion and at least the second one |
| `ApplyProgress.PlannedResourcesKeepTheirLines` | ui/src/domain/Jobs/applyProgressParser.ts:120-163 | The log of a planned resource is all the lines of its own events, in order |
| `ApplyProgress.OnStarted` | ui/src/domain/Jobs/applyProgressParser.ts:113-129 | A start line sets its resource running, keeps its log and turns it into a replace if it was one or has already started as something else; a data source changes nothing |
| `ApplyProgress.OnStill` | ui/src/domain/Jobs/applyProgressParser.ts:131-139 | A progress line changes the entry's detail and log in place, and nothing where there is none |
| `ApplyProgress.OnFinished` | ui/src/domain/Jobs/applyProgressParser.ts:141-165 | A completion line counts, and its resource is done unless this is the first half of a replace; a data source changes nothing |
| `ApplyProgress.CloseErrorBlock` | ui/src/domain/Jobs/applyProgressParser.ts:80-98 | The first line of a block that names a resource decides whose error it is; that one gets the state, the message and the lines without their frame |
| `ContextDocument.ContextFile.SaveContext` | internal/api/handler/custom_handlers.go:243-274 | An upload replaces the keys it carries and changes no others; objects under the two shared keys are put together, an entry uploaded going before one that was there |
| `ContextDocument.ContextFile.WriteContext` | internal/api/scheduler/scheduler.go:724-780 | A dispatch replaces the document, but what was under the two shared keys stays, as far as it can be read |
| `ContextDocument.EntriesAreTheLastUploaded` | internal/api/handler/custom_handlers.go:243-274 | Over every run of dispatches and uploads a step's entry is stored exactly if after its last upload no write was made without reading and nothing but objects was uploaded under the key, and it is then that upload's entry |
| `ContextDocument.DispatchingLosesNothing` | internal/api/scheduler/scheduler.go:733-742 | With every read working, dispatching later steps and uploading further objects never loses an uploaded entry |
| `ContextDocument.RunAll` | internal/api/handler/custom_handlers.go:243-274 | The two handlers, called in any order one at a time, produce the runs the claims are about |
| `StateWrites.CanonicalIsACommittedCopy` | internal/api/handler/tfe_state.go:263-339 | At every moment of every schedule of any number of requests, each step of which may fail, the canonical state is the initial one or, byte for byte, the raw copy of a committed history row |
| `StateWrites.RowsHaveTheirCopies` | internal/api/handler/tfe_state.go:263-328 | A committed row always has its copies, and a request that reports success has its row |
| `StateWrites.LastWriterWins` | internal/api/handler/tfe_state.go:330-339 | The canonical state is what the last canonical write wrote |
| `StateWrites.TheLatestRowIsCanonicalIfItsBytesWereWrittenLast` | internal/api/handler/tfe_state.go:323-339 | In every schedule the canonical state is the copy of the row committed last exactly if the request that wrote it last uploaded the same bytes as the one that committed last |
| `StateWrites.SuccessfulLatestRowsAreCanonical` | internal/api/handler/tfe_state.go:263-339 | If the requests of a workspace do not overlap and the one that committed last succeeded, the canonical state is its row's copy |
| `StateWrites.UnwrittenStaysAsFound` | internal/api/handler/tfe_state.go:330-339 | A schedule without a canonical write leaves the canonical state as it found it |
| `StateWrites.LoneRequests` | internal/api/handler/tfe_state.go:263-339 | One request with whatever outcomes: when its row is committed, and when that row is then canonical, both exactly |
| `StateWrites.TheLatestRowMayNotBeCanonical` | internal/api/handler/tfe_state.go:323-339 | Two successful uploads can leave the canonical state at the row committed first |
| `StateWrites.StateStore.CreateWorkspaceStateVersion` | internal/api/handler/tfe_state.go:201-342 | A call not disturbed by others is one schedule of the steps above: each of the writes (four, or two where the state comes later) is tried exactly if those before it worked and is there unless it failed, and the call succeeds exactly if all worked |

## Left out

- HTTP, SQL drivers, Kubernetes, Redis and storage clients, git and terraform processes: tables, streams and files are values
  and fields, and whether a call succeeds is an input. Failed statements of the
  repository are not modelled.
- Regular expressions: a console line's kind and a filter expression's meaning are inputs; the patterns for sort, filter, key
  and page arguments are modelled as searches. The root type's name is an input, and so is the text behind it.
- `parseElideFilter`, `parseInlineData`, GraphQL mutations and the blanking of sensitive values: not specified well enough to
  state more than the code.
- JobRuns.OneActiveJobPerWorkspace: not claimed when reports arrive after a cancel or when a status is set through the bulk
  operations path, neither of which keeps finished jobs finished.
- JobRuns.FinishedStaysFinished: for the same runs, and for hand-over failures noticed while no gate of the job waits; what the
  others do is stated by `JobRuns.LateFailuresAreHarmlessUnlessAGateWaits`.
- JobStore.Tables.UpdateJobStatus: the unlocking started in the background takes effect with the request.
- JobRuns.StepsRunInOrder: not claimed across replicas at the level of single statements, where a second replica can pick the
  next pending step between another one's two claims.
- JobRuns.FinishedWorkspacesAreUnlocked: not claimed with locks set by users or the CLI; queueing a job unlocks
  unconditionally, so such locks do not survive either.
- JobRuns.TheOldestJobCanMove: says that an event is possible, not that the poll reaches the job; blocked jobs of other
  workspaces can fill the ten rows of a poll.
- The status columns shown in workspace lists, commit statuses and notifications.
- ExecutorReports.ProcessJob: reports whose own requests fail are taken as sent, and cancellation is one of the ways in which
  terraform does not work.
- QueryRoundTrip.QueriesReadBack: for names of word characters, for filters without quotes, parentheses and braces, and for
  further arguments without these and without brackets.
- RootQuery.AnswerListing: for a root whose page is written with first and offset; that a page in braces is read back is stated
  for the arguments alone (`PrintedPage.BracePagesReadBack`).
- Repository.GenericRepository.List: without the blanking of sensitive values and without failures of the driver; the same
  holds for the other two queries.
- LogStream.RedisStreamer.Write: every append succeeds.
- LogStream.RedisStreamer.Close: every append succeeds, and the time after which the stream expires is left out.
- LogStream.ClientsSeeWhatWasWritten: white space is that of ASCII, and no output of the step is stored meanwhile.
- PlanDiff.BuildDiffRows: property names that every JavaScript object inherits are taken as absent, and two numbers are equal
  if they are the same number.
- `plannedFromChanges`, `buildResourceDiff` and the summaries around the two interpreters: easy filters.
- StateWrites.CanonicalIsACommittedCopy: other writers of the canonical file, such as remote runs and hosted uploads, are not
  part of the model.
- Authorisation, tokens, webhooks, schedules, module refresh, pagination of the REST interface, JSON:API serialisation, rendering.
