# mteval: a verified model of the job bookkeeping, the worker supervisor, n-gram confirmation and ingestion

mteval is a service for evaluating machine-translation runs. Clients upload
translation runs, which are stored against fingerprinted datasets. Workers
register with the server and receive scoring jobs, one per run and metric.
A worker runs its metric in a subprocess and reports the scores back. A
periodic sweep retires workers whose heartbeat has gone stale and hands
their jobs back to the queue. An n-gram analysis classifies each n-gram of a
translation as confirmed or unconfirmed by the reference.

This project models that core in Dafny and proves properties of it:

- **Server-side job bookkeeping.**
  - `Reaper`: the expiry sweep.
  - `JobGenerator`: the job generator.
  - `WorkerRoutes`: worker registration and heartbeat.
  - The database session is the class `Store.Session`. It has one field per table, and its methods change those fields in place.
- **The n-gram job** (`NGramTask`). It stores four n-gram rows per translated segment.
- **The worker.**
  - `Supervisor`: the handle on the scoring subprocess, and the subprocess loop.
  - `WorkerMain`: the main loop's bookkeeping, the report payload, `job_to_example` and the authorization header.
  - `Prototype`: the earlier prototype worker.
- **N-gram confirmation** (`NGrams`, on top of `Text`). It covers the tokenizer, the shifting-window n-gramizer and the multiset operations that split a translation's n-grams.
- **Ingestion.**
  - `Ingestion`: the unique lookups, dataset and segment creation, pairing translations with segments, and reading a run back.
  - `Sorting`: a stable insertion sort that stands for `sorted(key=...)`.
  - `Fingerprint`: the dataset fingerprint.
  - `Auth`: bearer-token authentication.

How the model handles effects:

- HTTP requests, the server's answers, the subprocess's liveness and what a queue read yields become the event sequences that drive the two main loops.
- The external functions become function-typed parameters: the ISO 639 matcher, the JSON canonicaliser, BLAKE2b, the text normaliser and the metric processor.
- Timestamps are integers, because the code only compares them.

Where the design text and the code disagree, the model follows the code.

- Registering a worker creates no jobs, and the response's `num_jobs` is always 0 (server/server/routes/worker/__init__.py:71-74).
- The job-leasing and result-reporting endpoints are commented out, so they are not modelled.

## Model

| member | source | states |
|---|---|---|
| Reaper.CleanupExpiredWorkersAndJobs | server/server/tasks.py:17-47 | The threshold is now minus the expiration period. The worker table becomes the old one with exactly the expired workers marked TIMED_OUT. The job table becomes the old one with exactly the jobs that were RUNNING on those workers released. Nothing else changes. |
| Reaper.MarkTimedOut | server/server/tasks.py:34-35 | Sets the status of the selected workers in the session to TIMED_OUT and changes no other field. |
| Reaper.TimeOutSelected | server/server/tasks.py:34-35 | The loop over the expired workers produces exactly the table with those workers TIMED_OUT and every other worker untouched. |
| Reaper.ReleaseJobsOf | server/server/tasks.py:38-46 | Releases the jobs of the expired workers in the session's job table and changes no other field. |
| Reaper.ReleaseStale | server/server/tasks.py:44-46 | The loop over the selected jobs makes each RUNNING job of an expired worker PENDING with no worker. Every other job is unchanged. |
| Reaper.NeverReaped | server/server/tasks.py:18-28 | A worker that is not WORKING, that has no heartbeat, or whose heartbeat is at or after the threshold is not selected, and the sweep leaves it unchanged. The comparison is strict. |
| Reaper.SweepTouchesOnlyExpired | server/server/tasks.py:25-35 | The sweep keeps the worker ids. It changes only expired workers, and only their status, to TIMED_OUT. Afterwards no worker is expired. |
| Reaper.ReclaimFreesExpiredJobs | server/server/tasks.py:38-46 | The sweep keeps the job ids. Every changed job was RUNNING on an expired worker and is now PENDING with no worker. No job is left RUNNING on an expired worker. |
| Reaper.ReclaimPreservesAssignment | server/server/tasks.py:45-46 | If every job has a worker exactly when it is RUNNING, the same holds after the sweep. No RUNNING job is left without a worker. |
| Reaper.TimeOutNothing | server/server/tasks.py:31 | With no expired worker the worker table is unchanged. |
| Reaper.ReclaimNothing | server/server/tasks.py:31 | With no expired worker the job table is unchanged. |
| Reaper.QuietSweep | server/server/tasks.py:31 | When no worker is expired, the sweep leaves both tables as they were. |
| Reaper.SweepIdempotent | server/server/tasks.py:25-35 | A second sweep at the same time finds no expired worker and changes neither table. |
| NGramTask.ComputeNGramsOnRunCreated | server/server/tasks.py:61-116 | Adds exactly the rows of the specification on success. On an error it adds nothing and returns the error: NotFound for a missing run, TypeError for a missing reference, ValueError for unequal lengths. |
| NGramTask.ZipRows | server/server/tasks.py:99-115 | The loop over the strict zip of translations and reference segments computes exactly the rows of the specification, or its error. |
| NGramTask.RowsForPair | server/server/tasks.py:106-115 | For one pair it gives four rows, orders 1 to 4, built from the normalised translation and reference. |
| NGramTask.PairRows | server/server/tasks.py:100-115 | A pair yields four rows, one per n-gram order, exactly when the segment has a reference. A missing reference is a TypeError. |
| NGramTask.PrefixErrorPersists | server/server/tasks.py:99-115 | Once a pair fails, every longer prefix of the zip fails with the same error. |
| NGramTask.PrefixRowsShape | server/server/tasks.py:99-115 | A successful prefix of k pairs gives 4k rows. Row 4i+n-1 is the order-n row of the i-th translation with the i-th reference. |
| NGramTask.PrefixRowsFailIff | server/server/tasks.py:99-104 | A prefix fails exactly when one of its reference segments has no reference text, and then with TypeError. |
| NGramTask.TaskRowsShape | server/server/tasks.py:99-115 | On success the lengths are equal, every segment has a reference, and there are four rows per pair, in pair order and then in order n = 1 to 4. |
| NGramTask.TaskRowsFailIff | server/server/tasks.py:99-104 | The job fails exactly when the lengths differ or a paired segment lacks a reference. A missing reference in a paired segment gives TypeError. Otherwise a length mismatch gives ValueError. |
| NGramTask.TaskEarlyExits | server/server/tasks.py:86-95 | A missing run is NotFound. A run whose dataset has no reference adds no rows. A run whose dataset is missing fails. |
| JobGenerator.CreateNewJobs | server/server/services.py:35-62 | Keeps the session valid. Only inserts, one fresh job per job-less run of the worker's namespace and metric, and returns the jobs it created. Existing jobs are untouched. |
| JobGenerator.AddJobs | server/server/services.py:43-56 | The loop over the job-less runs adds one job per run, under fresh ids, and keeps every old job. |
| JobGenerator.AppendedIsGeneration | server/server/services.py:44-56 | Jobs appended one per job-less run, with distinct runs covering them all, form a generation. |
| JobGenerator.GenerationCount | server/server/services.py:35-62 | The number of jobs created equals the number of job-less runs. |
| JobGenerator.GenerationStaysInNamespace | server/server/services.py:45-54 | Every created job is for a run of the worker's namespace. It is PENDING with no worker and carries the worker's namespace, user and metric. Its queue is "default", its priority 1 and its payload empty. |
| JobGenerator.GenerationIdempotent | server/server/services.py:22-56 | After a generation every run of the namespace has a job for the metric, so a second call creates nothing. |
| JobGenerator.OtherMetricDoesNotServe | server/server/services.py:22-29 | A job for another metric does not remove a run from the job-less runs. |
| WorkerRoutes.RegistrationTarget | server/server/routes/worker/__init__.py:48-62 | Succeeds exactly when some namespace has the name and some user has the username. A missing username matches nobody. The result is the first such namespace and user. Otherwise the error is NotFound. |
| WorkerRoutes.RegisterWorker | server/server/routes/worker/__init__.py:42-74 | On NotFound it adds nothing. Otherwise it adds exactly one WAITING worker with a fresh id, the resolved namespace and user, and no metric or heartbeat. It returns that id with num_jobs 0. |
| WorkerRoutes.NewWorkerSurvivesSweep | server/server/routes/worker/__init__.py:63-69 | A freshly registered worker is not selected by the sweep and is left unchanged by it. |
| WorkerRoutes.HeartbeatOutcomeAsWritten | server/server/routes/worker/__init__.py:100-106 | As written, the heartbeat succeeds exactly for a known worker. An unknown one ends in a server error. |
| WorkerRoutes.HeartbeatOutcome | server/server/routes/worker/__init__.py:100-106 | As intended, the heartbeat succeeds exactly for a known worker. An unknown one is NotFound. |
| WorkerRoutes.HeartbeatWorkerAsWritten | server/server/routes/worker/__init__.py:94-107 | Sets only that worker's last heartbeat, to now. An unknown worker leaves the table unchanged and gets the as-written outcome. |
| WorkerRoutes.HeartbeatWorker | server/server/routes/worker/__init__.py:94-107 | Sets only that worker's last heartbeat, to now. An unknown worker leaves the table unchanged and gets NotFound. |
| WorkerRoutes.HeartbeatOfUnknownWorker | server/server/routes/worker/__init__.py:100-106 | For an unknown worker id the as-written handler gives a server error, where NotFound was intended. |
| WorkerRoutes.FreshHeartbeatSurvivesSweep | server/server/routes/worker/__init__.py:106 | A worker that has just sent a heartbeat at or after the threshold is not selected by the sweep. |
| WorkerRoutes.GetWorker | server/server/routes/worker/__init__.py:77-82 | The endpoint has an empty body and changes neither table. |
| WorkerRoutes.DeleteWorker | server/server/routes/worker/__init__.py:85-91 | The endpoint has an empty body and changes neither table. |
| Supervisor.ChosenProcessor | worker/src/mteval_worker/main.py:68-78 | The processor is loaded from the file exactly when no processor name is given. |
| Supervisor.ConsumeStopsOnce | worker/src/mteval_worker/main.py:80-99 | The loop consumes up to and including the first pill or failing example, and no further. It sends exactly one pill, as its last output, exactly when such an input exists. Otherwise it consumes every input. |
| Supervisor.ConsumeInOrder | worker/src/mteval_worker/main.py:81-95 | The results sent are those of the consumed examples, in input order. None results produce nothing. |
| Supervisor.RunLoop | worker/src/mteval_worker/main.py:80-99 | The loop over the queue leaves exactly the unconsumed suffix and sends exactly what the specification of the loop sends. |
| Supervisor.StopEscalates | worker/src/mteval_worker/main.py:124-166 | stop() sends the pill first. It terminates exactly when the process outlived the pill, and kills exactly when it also outlived terminate. Each signal is sent at most once, in that order. |
| Supervisor.NewWorker | worker/src/mteval_worker/main.py:46-65 | Refuses with ValueError exactly when neither a processor name nor a file is given. Otherwise it gives a fresh handle with no process and empty queues. |
| Supervisor.WorkerHandle.constructor | worker/src/mteval_worker/main.py:58-65 | A handle with the given processor name and file, no process, and empty queues. |
| Supervisor.WorkerHandle.MainLoop | worker/src/mteval_worker/main.py:67-99 | Loads the chosen processor. It takes the consumed items off the examples queue and appends what the loop sends to the result queue. |
| Supervisor.WorkerHandle.Start | worker/src/mteval_worker/main.py:101-108 | Does nothing while a live process exists. Otherwise it starts one more process, which is then alive. |
| Supervisor.WorkerHandle.Stop | worker/src/mteval_worker/main.py:124-166 | Does nothing without a live process. Otherwise it puts one pill on the examples queue and sends the escalation signals. The process stays alive only if it survived all three waits. |
| Supervisor.WorkerHandle.ClearQueues | worker/src/mteval_worker/main.py:175-187 | Both queues end empty. |
| Supervisor.WorkerHandle.Restart | worker/src/mteval_worker/main.py:110-122 | Stops the process, empties both queues and starts a process. A new one is started unless the old one survived kill, and the handle is healthy afterwards. |
| WorkerMain.JobToExample | worker/src/mteval_worker/main.py:388-405 | The example keeps the job's id and its segments in order, with an absent ref as None. The languages are always English and Czech. |
| WorkerMain.Examples | worker/src/mteval_worker/main.py:476-479 | One example per job is put on the queue, in job order. |
| WorkerMain.ReportBody | worker/src/mteval_worker/main.py:352-372 | One dataset-level entry exactly when there is a dataset score, and one segment-level entry exactly when there are segment scores. Both are named after the result. Custom data is None exactly when it is missing or empty. |
| WorkerMain.ReportCarriesScores | worker/src/mteval_worker/main.py:352-382 | The report carries back exactly the dataset score and the segment scores, in order, and the custom data with an empty list turned into None. |
| WorkerMain.CreateAuthHeaders | worker/src/mteval_worker/main.py:227-231 | The headers consist of the Authorization header alone. |
| WorkerMain.AuthHeaderRoundTrip | worker/src/mteval_worker/main.py:227-231 | The server extracts from the header that the worker builds the worker's token, stripped of surrounding whitespace. |
| WorkerMain.Iteration | worker/src/mteval_worker/main.py:483-582 | One pass of the loop, as the source writes it, computes exactly the state-machine step. |
| WorkerMain.RunWorker | worker/src/mteval_worker/main.py:441-605 | A failed initial assign request raises while no worker exists, so nothing is unregistered. One-shot mode with no initial jobs returns before any worker exists. Otherwise the initial jobs are queued and the loop runs to its exit or the end of the events. A failed assign request in the loop is one of those exits. The worker is unregistered only when the loop set finished or an assign request raised. After the worker's own sentinel, or while the loop still runs, the heartbeat task keeps the task group open and the worker stays registered. |
| WorkerMain.StepKeepsInv | worker/src/mteval_worker/main.py:505-582 | One pass of a running loop keeps the invariant on failures and sentinels. |
| WorkerMain.RunKeepsInv | worker/src/mteval_worker/main.py:483-582 | Every state the loop reaches satisfies the invariant. |
| WorkerMain.MainEnds | worker/src/mteval_worker/main.py:483-605 | An unregistered worker's loop ended on all jobs processed, on too many failures or on a failed assign request, and its final state is finished. The loop gave up exactly at three consecutive failures. At most one sentinel was sent: in one-shot mode, and exactly when all jobs were processed. Persistent mode never sends one. An assign request can end the loop only in persistent mode with nothing in flight. |
| WorkerMain.MainRunAfterLoop | worker/src/mteval_worker/main.py:206-224 | Once a worker exists, `_main` unregisters it exactly when the loop ended otherwise than on the worker's own sentinel. The heartbeat loop stops only on finished, and the sentinel's break does not set it. So after that break, or while the loop still runs, the worker stays registered. |
| WorkerMain.WorkerPillStaysRegistered | worker/src/mteval_worker/main.py:522-526 | One-shot mode with one job whose result is the worker's sentinel leaves the loop with finished false and never unregisters the worker. |
| WorkerMain.IntendedUnregistersOnEveryExit | worker/src/mteval_worker/main.py:505-577 | With finished set on the sentinel's break, as on the other two breaks, every exit of the loop unregisters the worker. Only a loop that still runs keeps it registered. |
| WorkerMain.OneShotWithoutJobs | worker/src/mteval_worker/main.py:457-460 | One-shot mode with no initial jobs leaves before a worker exists, so nothing is unregistered. |
| WorkerMain.InitialAssignFailure | worker/src/mteval_worker/main.py:441-452 | When the initial assign request fails after its retries, the exception leaves `_main` while `worker` is None, so the finally block unregisters nothing. |
| WorkerMain.AssignFailureEndsLoop | worker/src/mteval_worker/main.py:484-493 | A failed assign request in the loop counts the request and ends the loop at once: no later event is observed. The exception then passes through the finally block, which unregisters the worker. |
| WorkerMain.ResultCounts | worker/src/mteval_worker/main.py:519-547 | A result takes one job off jobs_in_flight and resets the failure count. It is reported under its own job id, with the body built from it. |
| WorkerMain.UnhealthyRestarts | worker/src/mteval_worker/main.py:511-517 | An unhealthy handle is restarted and the failure count reset. The queued examples are dropped and jobs_in_flight is unchanged. |
| WorkerMain.PersistentAssignsWhenIdle | worker/src/mteval_worker/main.py:484-503 | Persistent mode asks for jobs exactly when none are in flight, and then counts one per fetched job. When the request returns no jobs it only waits. |
| WorkerMain.OneShotFinishes | worker/src/mteval_worker/main.py:505-509 | One-shot mode with nothing in flight sends one sentinel and finishes. |
| WorkerMain.DeadProcessKeepsInFlight | worker/src/mteval_worker/main.py:549-567 | A dead process seen on an empty queue counts a failure and restarts the worker, dropping the queued examples. jobs_in_flight is unchanged. |
| Prototype.ProtoConsumeInOrder | worker/main.py:131-138 | Given only examples that produce results, the prototype's loop consumes them all and sends their results in input order. |
| Prototype.ProtoConsumeEchoesPill | worker/main.py:131-138 | On the sentinel the loop echoes exactly one sentinel, as its last output, and consumes nothing after it. |
| Prototype.NoneReadsAsPill | worker/main.py:134-138 | A processor result of None is put on the result queue as the sentinel itself, and the loop goes on. |
| Prototype.ProtoRunLoop | worker/main.py:131-138 | The loop over the queue leaves exactly the unconsumed suffix and sends exactly what the specification of the prototype's loop sends. |
| Prototype.ProtoWorker.constructor | worker/main.py:126-129 | Both queues start empty. |
| Prototype.ProtoWorker.Start | worker/main.py:140-143 | Starts a new process every time it is called. |
| Prototype.ProtoWorker.MainLoop | worker/main.py:131-138 | Takes the consumed items off the examples queue and appends what the loop sends to the result queue. |
| Prototype.ProtoReportBody | worker/main.py:274-304 | Exactly one dataset-level and one segment-level entry, both named after the result, under the given job id. A missing dataset score or missing segment scores is an error. |
| Prototype.ProtoJobToExample | worker/main.py:307-323 | Keeps the job's segments in order, with an absent ref as None. The languages are English and Czech. |
| Prototype.ProtoExamples | worker/main.py:361-363 | One example per job, in job order. |
| Prototype.SameExampleAsWorker | worker/main.py:307-323 | The prototype builds the same segments and languages as the current worker. |
| Prototype.ProtoMain | worker/main.py:326-418 | The loop, as the source writes it, computes exactly the specification of the prototype's main. No outcome unregisters the worker. A failed assign request, before the loop or in it, raises past the unregister, and so does a rejected report. A break out of the loop leaves the task group waiting on the endless heartbeat task. |
| Prototype.ProtoRunKeepsInv | worker/main.py:366-404 | Every state of the prototype's loop reports only under the first job's id and queues only examples. |
| Prototype.ProtoReportsUnderFirstJob | worker/main.py:376-382 | Every report goes under initial_jobs[0]'s id, whichever job produced the result. The main process never queues a sentinel. |
| Prototype.ProtoMisattributesSecondResult | worker/main.py:376-382 | With two initial jobs, the second job's result is reported under the first job's id. |
| Prototype.ProtoWithoutJobs | worker/main.py:358-369 | With no initial jobs no worker is created, and the loop fails on its first read. |
| Prototype.ProtoAssignFailureCrashes | worker/main.py:348-407 | A failed initial assign request ends the prototype before the loop. A failed assign request after an accepted report ends the loop with RequestFailed: the report has been sent under the first job's id, nothing new is queued, and the worker is not unregistered. |
| Prototype.ProtoLeftLoopStaysRegistered | worker/main.py:161-169 | A one-shot prototype with one reported job and no new jobs leaves the loop, and then stays in the task group with its endless heartbeat task, still registered. |
| Prototype.ProtoNoJobs | worker/main.py:392-399 | After an accepted report with no new jobs, one-shot mode leaves the loop, and persistent mode sleeps and goes on. |
| Text.LeadingSpaces | server/server/ngrams.py:82 | The count of leading whitespace: all of it is whitespace, and the next character is not. |
| Text.TrailingSpaces | server/server/ngrams.py:82 | The count of trailing whitespace: all of it is whitespace, and the character before it is not. |
| Text.StripShape | server/server/ngrams.py:82 | strip() returns a slice of its input with only whitespace on either side, and the slice neither starts nor ends with whitespace. |
| Text.StripEmptyIff | server/server/ngrams.py:82 | strip() gives the empty string exactly for all-whitespace input. |
| Text.StripIdempotent | server/server/auth.py:50 | Stripping twice is stripping once. |
| Text.Lower | server/server/ngrams.py:79-80 | Lowercasing keeps the length and lowercases each character in place. |
| Text.FirstSplitSpace | server/server/ngrams.py:82 | The index of the first character the regex class \s matches: no such character comes before it. |
| Text.LeadingSplitSpaces | server/server/ngrams.py:82 | The length of the run of \s characters that the split consumes: all of them match \s, and the next character does not. |
| NGrams.SplitPiecesHaveNoSpace | server/server/ngrams.py:82 | No piece of the split contains a character the regex class \s matches. |
| NGrams.SplitPiecesNonEmpty | server/server/ngrams.py:82 | Splitting a stripped, non-empty string gives no empty piece. |
| NGrams.LowerKeepsSpaces | server/server/ngrams.py:79-80 | Lowercasing neither creates nor removes whitespace. |
| NGrams.TokensHaveNoSpace | server/server/ngrams.py:78-82 | No token contains a character the regex class \s matches. |
| NGrams.TokenizeBlankIff | server/server/ngrams.py:78-82 | Tokenizing gives [""] exactly for all-whitespace input. Otherwise no token is empty. |
| NGrams.TokenizeAtSeparator | server/server/ngrams.py:78-82 | The separator U+001F is stripped at the ends but does not split: "\x1fa\x1fb\x1f" gives the single token "a\x1fb". |
| NGrams.SplitJoin | server/server/ngrams.py:82 | Splitting words joined by single spaces gives back the words, when none is empty or contains a \s character. |
| NGrams.NGramsOf | server/server/ngrams.py:93-104 | The n-gram dictionary has exactly the keys 1 to 4, and its unigrams are the token list. |
| NGrams.GetNGrams | server/server/ngrams.py:93-104 | The shifting-window loop produces exactly the windows of n consecutive tokens joined by spaces. It does so only when there are at least 2n-2 tokens, because the length test reads the shifted list. |
| NGrams.ShiftingWindows | server/server/ngrams.py:95-104 | The loop over the orders 2 to 4 builds the whole n-gram dictionary of the token list. |
| NGrams.NextOrder | server/server/ngrams.py:98-103 | One pass shifts the token list and builds the next order's n-grams from the previous order's by appending one token. |
| NGrams.NGramAt | server/server/ngrams.py:101-103 | The i-th n-gram is tokens[i..i+n] joined by single spaces. |
| NGrams.NGramIsWindow | server/server/ngrams.py:93-104 | Splitting the i-th n-gram of a sentence gives back the n tokens it was built from. |
| NGrams.ShiftedLengthTest | server/server/ngrams.py:97-103 | Three tokens give no trigrams, and five tokens give no 4-grams, though four tokens give two trigrams. |
| NGrams.Distinct | server/server/ngrams.py:141-144 | The keys of the counter: exactly the elements of the list, each once. |
| NGrams.SetOperation | server/server/ngrams.py:140-148 | The nested loops emit, per distinct n-gram of the first list in first-occurrence order, counter_fn(count in a, count in b) contiguous copies, none when negative. |
| NGrams.SetOpMultiplicity | server/server/ngrams.py:140-148 | Each n-gram of a occurs max(0, f(count in a, count in b)) times in the result, and nothing else occurs. |
| NGrams.ConfirmedNGrams | server/server/ngrams.py:112-124 | The confirmed dictionary has exactly the keys 1 to 4. |
| NGrams.UnconfirmedNGrams | server/server/ngrams.py:126-138 | The unconfirmed dictionary has exactly the keys 1 to 4. |
| NGrams.ConfirmationCounts | server/server/ngrams.py:112-148 | For each order, an n-gram is confirmed min(reference count, translation count) times, and unconfirmed max(0, translation count - reference count) times. |
| NGrams.SetOpPartition | server/server/ngrams.py:140-148 | The intersection of t with r, added as multisets to the difference of t and r, gives back t. |
| NGrams.ConfirmedUnconfirmedPartition | server/server/ngrams.py:112-138 | For each order, confirmed and unconfirmed n-grams together are, as a multiset, exactly the translation's n-grams. |
| Sorting.Insert | server/server/routes/__init__.py:394-397 | Inserting keeps every element, adding one. |
| Sorting.SortBy | server/server/routes/__init__.py:394-397 | Sorting is a permutation. Stability is stated by Sorting.SortByStable. |
| Sorting.InsertSorted | server/server/routes/__init__.py:394-397 | Inserting into a sorted list keeps it sorted. |
| Sorting.SortByIsSorted | server/server/routes/__init__.py:394-397 | The sorted list is ordered by the key. |
| Sorting.SortBySortedIsIdentity | server/server/routes/__init__.py:394-397 | Sorting a list that is already ordered by the key leaves it unchanged. |
| Sorting.InsertWithKey | server/server/routes/__init__.py:394-397 | Inserting x puts it ahead of every element with its key, and keeps the order of the others. |
| Sorting.SortByStable | server/server/routes/__init__.py:394-397 | The sort is stable: for every key, the elements with that key come out in their input order, as with Python's `sorted`. |
| Store.SegmentsOf | server/server/routes/__init__.py:215-221 | The segments of a dataset are exactly the stored segments with that dataset id. |
| Store.TranslationsOf | server/server/routes/__init__.py:376-391 | The translations of a run are exactly the stored translations with that run id. |
| Ingestion.ScalarOne | server/server/routes/__init__.py:58-92 | The unique match. NotFound exactly when nothing matches, and Conflict exactly when two rows match. |
| Ingestion.GetNamespaceByName | server/server/routes/__init__.py:58-72 | The namespace with the name, NotFound exactly when there is none, and Conflict exactly when several share it. |
| Ingestion.GetDatasetByHash | server/server/routes/__init__.py:75-92 | The dataset with the hash, NotFound exactly when there is none, and Conflict exactly when several share it. |
| Ingestion.GetOrCreateDefaultNamespace | server/server/routes/__init__.py:39-55 | Returns the namespace with id 1 when there is one. When there is none, it creates "default" with id 1 and returns it. When there are several, it is a server error and nothing changes. |
| Ingestion.ResolveNamespace | server/server/routes/__init__.py:250-253 | The outcome and the namespaces table are those of Ingestion.ResolvedNamespace. For "default" that is GetOrCreateDefaultNamespace's outcome: the namespace with id 1, created and added as (1, "default") when there is none, or a server error with nothing added when there are several. Any other name is looked up, and the table is unchanged. |
| Ingestion.ResolvedNamespace | server/server/routes/__init__.py:250-253 | A resolved namespace is in the table after the step. For "default" it has id 1. For any other name it has that name. |
| Ingestion.DefaultNamespaceResolves | server/server/routes/__init__.py:39-55 | "default" resolves exactly when at most one namespace has id 1. When none has, it resolves to (1, "default") and adds that row. When one has, nothing is added. |
| Ingestion.GetOrCreateDataset | server/server/routes/__init__.py:156-183 | An existing dataset with the hash is returned, and nothing changes. Otherwise exactly one dataset with a fresh id and one dataset name are added. |
| Ingestion.HasReference | server/server/routes/__init__.py:255-260 | The flag loop is true exactly when some posted segment has a reference. |
| Ingestion.DatasetSegments | server/server/routes/__init__.py:215-221 | The dataset's segments, as a permutation, ordered by idx. |
| Ingestion.NewSegments | server/server/routes/__init__.py:202-213 | One new segment per posted segment, with fresh ids. |
| Ingestion.Pairings | server/server/routes/__init__.py:223-232 | Translations of zip(posted, dataset segments): as many as the shorter side, with fresh ids. |
| Ingestion.PairingsFollowDataset | server/server/routes/__init__.py:215-232 | The k-th translation carries the k-th posted target and the run. It points at a segment of the dataset with that segment's idx. The translations are ordered by idx. |
| Ingestion.FreshDatasetPairsByPosition | server/server/routes/__init__.py:193-221 | For a dataset that had no segments, the ordered dataset segments are exactly the newly created ones, in posted order. |
| Ingestion.NewSegmentsSorted | server/server/routes/__init__.py:202-213 | New segments take idx equal to their position, so they are ordered by idx. |
| Ingestion.CreateSegmentsAndTranslations | server/server/routes/__init__.py:186-234 | Creates the segments only if the dataset has none, and then one translation per pair of the zip. The tables grow by exactly those rows. |
| Ingestion.PostSegments | server/server/routes/__init__.py:186-234 | The same, computed on the tables as values: fresh ids stay below the next id, and the result is the posting. |
| Ingestion.AddSegmentsIfNew | server/server/routes/__init__.py:193-213 | Adds the posted segments exactly when the dataset has none, and returns the next free id. |
| Ingestion.AddPostedPairs | server/server/routes/__init__.py:215-234 | Appends the translations of the zip with fresh ids. |
| Ingestion.AddTranslationRun | server/server/routes/__init__.py:237-302 | The upload succeeds exactly when the languages match, the namespace resolves and no two datasets share the fingerprint. An unknown language is LanguageNotFound, a namespace failure is its own error, and a fingerprint conflict is Conflict. On any error every table is as before. On success the namespace step, the dataset step (Ingestion.WithDataset) and the run step (the run under the next free id, then the posting of segments and translations) give the tables exactly. The answer names the resolved namespace and the dataset found or created. |
| Ingestion.AddRunToDataset | server/server/routes/__init__.py:255-289 | Fails exactly when several datasets share the fingerprint, with Conflict and nothing changed. Otherwise the dataset with the fingerprint is reused, or a new one is added with one name and the posted reference flag. The run and its posting follow, and the answer carries that dataset's id and the namespace's name. |
| Ingestion.AddRunOfDataset | server/server/routes/__init__.py:273-289 | Adds the run under the next free id, for the given dataset and namespace. It then posts the dataset's segments, if it has none, and the run's translations exactly as Ingestion.CreateSegmentsAndTranslations does. Namespaces, datasets and names are untouched. |
| Ingestion.ReuploadFindsDataset | server/server/routes/__init__.py:156-183 | After the dataset step the fingerprint finds the upload's dataset. Uploading the same segments again reuses that dataset and adds none. |
| Ingestion.AddRun | server/server/routes/__init__.py:273-281 | Adds exactly one run with a fresh id. |
| Ingestion.ReadSegments | server/server/routes/__init__.py:394-405 | zip of segments and translations: as many as the shorter side. |
| Ingestion.GetTranslationRun | server/server/routes/__init__.py:366-423 | Succeeds exactly when the namespace is found and the run belongs to it. A namespace conflict is Conflict, and anything else is NotFound. The detail carries the run's id, dataset and namespace name. |
| Ingestion.ReadSegmentsFromRun | server/server/routes/__init__.py:394-405 | The segments read back are ordered by idx. Each shows a segment of the run's dataset, with its idx, src and ref, and a translation of the run. |
| Ingestion.Posted | server/server/routes/__init__.py:202-232 | What a fresh posting reads back as: one entry per posted segment. |
| Ingestion.PostThenRead | server/server/routes/__init__.py:186-405 | Round trip: posting to a dataset with no segments and a run with no translations, then reading the run, shows exactly the posted segments in order. |
| Fingerprint.Entries | server/server/utils.py:22-32 | The pre-image holds src and ref for each segment, in order, with a missing ref as "". |
| Fingerprint.DatasetHash | server/server/utils.py:3-35 | Fails with LanguageNotFound exactly when a language is not matched. Otherwise it is the digest of the canonical pre-image of sources, references and the two ISO 639-1 codes. |
| Fingerprint.SamePreImageSameHash | server/server/utils.py:19-35 | Same sources, same references and languages with the same codes give the same fingerprint. |
| Fingerprint.TranslationsDoNotCount | server/server/utils.py:22-32 | Changing the translations never changes the fingerprint. |
| Fingerprint.MissingRefIsEmptyRef | server/server/utils.py:26 | A missing reference and an empty reference give the same fingerprint. |
| Auth.FindFirst | server/server/auth.py:50 | The first occurrence of the pattern, or none. |
| Auth.AuthenticateRequest | server/server/auth.py:43-65 | A missing or empty header is refused. The request succeeds exactly when the first user whose key equals the extracted token has a non-empty username. It then returns that user and token. Every failure is NotAuthorized. |
| Auth.AdminAccess | server/server/auth.py:68-70 | An authenticated request passes the admin guard exactly when the first user with its key is an admin. |
| Auth.ExtractFromBearer | server/server/auth.py:50 | For the header "Bearer " + t, the extracted token is t stripped. |
| Common.First | server/server/auth.py:54 | The first element that satisfies the predicate, None exactly when there is none. |

## Left out

- HTTP, retries and tenacity, in the worker's and the prototype's calls to the server. The server's answers are events in the tick sequences. An assign request is either its jobs or the exception left after the retries. A report is accepted, rejected by status, or failed.
- Concurrency: the heartbeat task, the anyio task group, `run_sync`, real multiprocessing processes and queues.
  - A process is two flags.
  - The queues are sequences.
  - Whether a process exits at each wait of stop() is a parameter.
- The final wait for the worker's last sentinel in `_main`'s `finally` (worker/src/mteval_worker/main.py:587-594). It only logs.
- Unicode: whitespace is modelled on ASCII only. `str.strip` removes the ten ASCII characters that `str.isspace` accepts (space, tab to carriage return, and U+001C to U+001F). The split in server/server/ngrams.py uses the third-party `regex` module, whose `\s` is the Unicode White_Space property: on ASCII, space and tab to carriage return, without U+001C to U+001F. Lowercasing is ASCII only. Non-ASCII whitespace such as U+00A0 and U+2003 is not modelled.
- The regex text normalisers (server/server/ngrams.py:10-67). They are a function parameter of the n-gram job.
- ISO 639 matching, JSON canonicalisation (RFC 8785) and BLAKE2b (RFC 7693). They are opaque functions in `Fingerprint.Hasher`.
- Event emission after an upload (server/server/routes/__init__.py:291), and the duplicate listener in server/server/events.py.
- The run's uuid and config columns.
- Password hashing, the login route and the upload client.
- The metric processors and their loading by name or from a file. A processor is a function from examples to outcomes.
- Scores are `real`. Float conversion and rounding are not modelled.
- Schema uniqueness constraints.
  - The model keeps the lookups' Conflict paths instead.
  - It does not reject duplicate names on insert.
- The database's id sequence is the single counter `Store.Session.nextId`.
- The translation sort key `x.segment.idx` is read through the relationship in the source. The model stores the segment's idx in the translation row.
- The prototype's `create_auth_headers` (worker/main.py:182-186) is identical to the current worker's. It is modelled once, by `WorkerMain.CreateAuthHeaders`.
- The job-leasing and result-reporting endpoints, which are commented out in server/server/routes/worker/__init__.py.
- Supervisor.WorkerHandle.Stop: the timeouts passed to the joins are recorded but not measured. Whether the process exits is an input.
- WorkerMain.RunWorker: the loop ends when the events run out as well as at its own exits. A run that never exits is observed only up to the last event, and ends as StillRegistered. A heartbeat request that raises, which would cancel the task group and reach the finally block, is not modelled.
- Prototype.ProtoMain: the same holds for the prototype's loop, which then ends as StillLooping. A heartbeat request that raises ends the prototype without unregistering, as every other exception does, and is not modelled. A queue read that raises `queue.Empty` cannot happen, because the read has no timeout.
- NGrams.GetNGrams: the dictionary is a map from order to list. Python's insertion order of the keys is not modelled.

## Findings

| source | as written | input that shows it | evidently intended | confidence | as-written member | corrected member |
|---|---|---|---|---|---|---|
| server/server/routes/worker/__init__.py:100-106 | `transaction.get` returns None for a missing id, and does not raise NoResultFound. So the except branch is dead, and setting `last_heartbeat` on None fails with a server error. | a heartbeat for a worker id that is not in the table | a 404 NotFound for an unknown worker | not executed | WorkerRoutes.HeartbeatOutcomeAsWritten | WorkerRoutes.HeartbeatOutcome |
| worker/main.py:376-382 | Every result is reported under `initial_jobs[0]["id"]`. | two initial jobs, both scored: the second result is reported under the first job's id | each result reported under the job that produced it | not executed | Prototype.ProtoMisattributesSecondResult | WorkerMain.ResultCounts |
| worker/src/mteval_worker/main.py:522-526 | The break on the worker's own sentinel does not set `state["finished"]`. The heartbeat task loops while finished is false, so the task group does not close, and the finally block that unregisters the worker is not reached. | one-shot mode, one initial job, and the result queue yields the sentinel | finished set before that break, as before the other two breaks, so the worker is unregistered | not executed | WorkerMain.WorkerPillStaysRegistered | WorkerMain.IntendedUnregistersOnEveryExit |
| worker/main.py:410-418 | The unregister follows the task group. The heartbeat task is `while True`, so the task group never closes after a break, and every exception skips the unregister. | one-shot mode, one job reported and no new jobs | the heartbeat task stopped when the loop ends, so the worker is unregistered | not executed | Prototype.ProtoLeftLoopStaysRegistered | WorkerMain.MainRunAfterLoop |
