# A verified model of the VOD platform

The platform accepts resumable multipart uploads, records each finished video with
three jobs (HLS renditions, thumbnails, captions), announces it on a fanout exchange,
and has one kind of worker per job type. This project models the parts of it that
carry state and proves what they promise, and where a promise fails, exactly when.

## How it is organised

| files | what they hold |
|---|---|
| `Models`, `Keys`, `Tables`, `Protocol` | ids and their spellings, storage keys and prefixes, the two tables and their transactions, and the job protocol as a state machine: any number of workers, an at-least-once broker, retries, deletes, sweeps, crashes, lost connections, failing database calls. One database transaction is one step, and so is every line of the worker at which it can be interrupted |
| `Invariants`, `NoLostJob`, `Progress`, `Stability`, `Attempts`, `Counting`, `History`, `Budget`, `Conservation`, `Scenarios` | what holds after every run of the protocol, and the runs that show the stated conditions are needed |
| `Database`, `Broker`, `Storage`, `Trace`, `Runner`, `Refinement` | the program's own objects and loops: transactions with rollback, acks and nacks, the paged sweep, the worker's handling of a delivery |
| `Parts`, `Multipart`, `UploadStorage`, `UploadService`, `UploadClient` | part arithmetic with machine integers, an upload as a state machine, paged part listing, the service's requests, the browser's resume loop |
| `RateLimit`, `Floats`, `Vtt` | the fixed-window limiter in real time, rounding to float64, the WebVTT timestamp printer and its reader |

Methods are proved against the state machines: `HandleDelivery`, `HandleComplete`,
`HandleRetryJob` and `HandleDeleteVideo` each return the protocol run that they
performed, so every theorem about runs applies to them; for `HandleDelivery` the run is
also the order of its calls, as the objects record it in a trace. A call that may fail
does so nondeterministically. An object marked `reliable` has no failing calls but those
it names as down, which pins down the answer of every handler to every single failure. A
database error carries whether the transaction was applied, because a connection can
break after the commit.

## Assumptions about the outside

- A transaction is atomic, and a publish that goes through reaches all three queues.
- The broker gives a delivery to another worker only after the first one's connection
  is gone (`Crash`, or `Detach` when the process itself lives on).
- Storage completes a multipart upload at most once, keeps one part per number,
  rejects stale entity tags, lists keys and parts in order, and continues a listing
  after the key or part number of its token.
- Video ids are not reused. The service makes them as canonical UUIDs; requests may spell
  them in any way that Postgres reads: upper case, in braces, with fewer hyphens.
- A client that resumes an upload has the same file as before.

## Where the code and its comments differ

- `internal/worker/runner.go:25-28` promises that no job is silently lost. Recording a
  failure has no guard on the job's status, so a worker whose connection was lost can
  overwrite a job that another worker completed, and nothing is queued for it any more
  (`Scenarios.StrandedJob`). `NoLostJob.NoStrandedJob` shows that this step is the only
  way to lose a job; it cannot occur when workers stop with their connection, nor with
  one consumer per queue as `docker-compose.yml` sets up.
- The same comment promises that no job is double counted. Recording a completion has no
  guard either. With one consumer per queue, completions never exceed inserts and resets
  (`Counting.NoDoubleCount`). With two, both can record the job as completed after one
  insert, even when workers stop with their connection (`Scenarios.CompletedTwice`). A
  completed job is safe exactly when no worker still holds a claim of it
  (`Counting.CountedOnce`).
- `POST /videos/{id}/retry` publishes the id as the request spells it, while the database
  accepts several spellings of a UUID (`cmd/upload-service/handlers.go:480`, `:518`). The
  worker then writes to a directory of that spelling and completes the job, but the page
  looks in the canonical one, and a later delete does not sweep it. Completed artifacts
  can be relied on to be found if and only if the requests spell the id canonically
  (`Scenarios.CanonicalRequestsNeeded`), and a delete removes everything if and only if
  the requests that wrote and the one that deletes do (`Keys.SweepIsComplete`).
- `internal/storage/s3.go:205-210` ignores the keys that a successful delete call reports
  as failed, so a nil result does not mean that the prefix is empty: exactly those keys
  are left (`Storage.ObjectStore.DeleteObjectsByPrefix`).
- `internal/ratelimit/ratelimit.go:5-6` accepts a burst at window boundaries. The
  burst is at most `2 * limit - 1` in one window length, and that is attained.
- `cmd/upload-service/handlers.go:513-517` says that on a retry the other job types
  find their job completed. They may still be running it; with two workers on a queue
  that leads to `Scenarios.CompletedWhileStillProcessed`.
- `cmd/upload-service/handlers.go:232` converts the part count to int32. Above
  8 MiB * (2^31 - 1) bytes the count is too small, and a completed upload is a proper
  prefix of the file (`Multipart.UploadIsCorrect`). Such a size, above 2^53, comes from an
  API client that declares it; a browser cannot.
- `cmd/upload-service/handlers.go:333` counts up to the part count in an int32. At
  2^31 - 1 parts the variable wraps before the loop can end, and a status request never
  answers. It answers if and only if the true number of parts is not 2^31 - 1 modulo
  2^32 (`Parts.StatusAnswers`): the sizes above 8 MiB * (2^31 - 2), up to the largest
  that is counted right, fail, 18014398501093376 bytes among them.
- `cmd/whisper-worker/transcribe.go:175` truncates a product that float64 has rounded.
  The timestamp is one millisecond late if and only if the time is at most half a
  float64 step below the next millisecond (`Vtt.TimestampRoundTrip`), as 0.57 seconds
  are, which are printed as .570 (`Vtt.RoundedUp`).
- `internal/worker/runner.go:66` reads "not claimed" as "already completed"; it also
  covers a job whose row has been deleted.

## Model

| member | source | states |
|---|---|---|
| Models.CanonicalNames | cmd/upload-service/handlers.go:221-222 | the spelling that the service gives to a new id is one that the database reads as that id |
| Models.CanonicalShape | cmd/upload-service/handlers.go:221-222 | that spelling is the 32 lower-case digits in groups of 8, 4, 4, 4 and 12 |
| Models.OtherSpellings | migrations/001_init.sql:2 | every spelling of an id also names it in upper case and, if it has no braces, in braces; so do its bare digits |
| Keys.SweepReaches | cmd/upload-service/handlers.go:442-449 | the sweep of one id reaches a key of another exactly when the id is a prefix of the other's raw file name, for slash-free ids of any lengths |
| Keys.SweepIsExact | cmd/upload-service/handlers.go:438-449 | for video ids in any spelling, a delete request removes the raw file exactly if it is spelled canonically, an artifact exactly if it is spelled as the worker's message was, and never a key of another video |
| Keys.SweepIsComplete | cmd/upload-service/handlers.go:438-449 | a delete request covers every key written for its video if and only if both the writing and the deleting requests spell the id canonically |
| Keys.SweepCoversOwned | internal/worker/upload_dir.go:33-37 | every key an upload or a worker writes under one spelling of an id lies under one of the four sweep prefixes of that spelling |
| Invariants.WiredStep | internal/queue/rabbitmq.go:111-124 | every step keeps the broker's unacked deliveries equal to what attached workers hold, one each |
| Invariants.TablesAgreeAlways | internal/db/postgres.go:36-63 | after every run, a video row exists exactly when its three job rows do; a column is never processing, is completed exactly when its job is, and equals any job status that is not processing |
| Invariants.CompletedMeansStored | internal/worker/runner.go:74-89 | after every run, a video with a row has its raw object, and a completed column has its artifacts in the directory that some published message about it spelled, the canonical one if all were canonical, despite resets, concurrent workers and deletes of other videos |
| Invariants.CompletedIsPlayable | web/index.html:98-147 | after every run with canonically spelled requests, a completed column has, under its literal key, each file that the page loads: the master and three rendition playlists, three thumbnails, the captions; the raw file is there in any case |
| Invariants.SweepSparesLiveVideos | cmd/upload-service/handlers.go:468-474 | an object removed by a deleted video's sweep, however spelled, is neither the raw file nor any key of another video |
| NoLostJob.NotStrandedStep | internal/db/postgres.go:244-247 | a step leaves a non-completed job without publish, live copy or dead letter if and only if it is a failure recorded by a detached worker over a completed, otherwise unannounced job |
| NoLostJob.NoStrandedJob | internal/worker/runner.go:25-28 | over whole runs, a job is never stranded if and only if that step never occurs for it |
| NoLostJob.NoStrandedJobFailStop | internal/worker/runner.go:99-102 | with any number of fail-stop workers per queue, no run strands a job |
| NoLostJob.NoStrandedJobOneConsumer | internal/queue/rabbitmq.go:115-124 | with one consumer per queue, no run strands a job even when connections break |
| NoLostJob.QuiescentJobsAccountedFor | cmd/upload-service/handlers.go:371-384 | at rest with everything published, each job is completed or was dead-lettered since its last insert or reset and has a copy in the dead-letter queue |
| Progress.InterruptedIsRedelivered | internal/worker/runner.go:25-28 | a crash or a broken connection in the middle of a delivery is always possible, makes exactly its message ready again and changes no row and no object |
| Progress.NotStrandedCanEnd | internal/worker/runner.go:50-103 | a job that is not stranded has a continuation without faults, retries or deletes that completes or dead-letters it, with a publish only if one is due since its last insert or reset |
| Progress.EveryJobCanEnd | internal/worker/runner.go:25-28 | after every run with fail-stop workers, or with one consumer per queue, that holds for every job |
| NoLostJob.ClaimsAreOpenAt | internal/db/postgres.go:180-196 | with one consumer per queue, a worker between claim and record always holds a job that is not completed |
| Stability.CompletedForGood | internal/db/postgres.go:231-262 | a completed job stays completed over every continuation without a retry or delete of it if and only if no worker is still processing it |
| Stability.CompletedIsFinalWithOneConsumer | internal/worker/runner.go:59-71 | with one consumer per queue, a completed job neither changes nor is processed again until it is retried or deleted |
| Counting.NoDoubleCount | internal/worker/runner.go:25-28 | with one consumer per queue, over every run, a job's completion is recorded at most once since its last insert or reset, and at most as often as it was inserted or reset |
| Counting.DoubleCountsAreOverwrites | internal/db/postgres.go:210-214 | with any number of workers, the completions beyond the inserts and resets are at most the outcomes recorded for a job that the worker no longer finds open |
| Counting.CountedOnce | internal/db/postgres.go:198-229 | over every continuation without a retry or delete of it, a completed job stays completed and is never counted again if and only if no worker holds a claim of it |
| Counting.CompletedWasCounted | internal/db/postgres.go:210-214 | a job that reads completed has been recorded so since its last insert or reset |
| Scenarios.StrandedJob | internal/worker/runner.go:74-86 | for every video, a run from the empty system that strands its caption job |
| Scenarios.CompletedWhileStillProcessed | cmd/upload-service/handlers.go:513-519 | for every video, a run with two fail-stop workers in which a completed job is still being processed |
| Scenarios.CompletedTwice | internal/worker/runner.go:89-97 | for every video, a run with two fail-stop workers that records its caption job as completed twice since the insert |
| Scenarios.CanonicalRequestsNeeded | cmd/upload-service/handlers.go:479-518 | if the messages about a video spell its id in one way, a completed column always has its artifacts where the page looks if and only if that spelling is the canonical one |
| History.VideosAreHistory | internal/db/postgres.go:33-119 | after every run, a video has a row from its insert to its delete, with the title of the insert and the literal key of its upload |
| History.JobsAreHistory | internal/db/postgres.go:121-262 | after every run, a job row is its last outcome (pending, processing, completed or failed), the number of claims, the last error and the last claimant since its insert or reset |
| History.ColumnsAreHistory | internal/db/postgres.go:160-262 | after every run, each status column of a video is the last outcome of its job type other than a claim |
| History.InsertsNeverConflict | internal/db/postgres.go:42-48 | the insert of a completed upload never meets a row with its id or its storage key |
| History.FlagsAreHistory | cmd/upload-service/handlers.go:503-523 | after every run, a job counts as unannounced exactly if nothing about its video was published since its insert or reset, and as dead-lettered exactly if a delivery of it was since then |
| Attempts.AttemptCountIsExact | internal/db/postgres.go:136-141 | after every run, attempt_count is the number of claims committed since the last insert or reset |
| Attempts.AttemptsAreConsecutive | internal/db/postgres.go:175-196 | the committed claims of a job since its grant are numbered 1, 2, 3, ... without gap or repeat |
| Attempts.AttemptIsRankOfClaim | internal/db/postgres.go:180-196 | the attempt a worker carries is the rank of its own claim among those since the grant, under any interleaving |
| Attempts.DeadLetterIsJustified | internal/worker/runner.go:79-85 | a well-formed message is dead-lettered only by a worker whose claim was at least the third since the insert or reset |
| Budget.BudgetStep | internal/worker/runner.go:50-103 | every step keeps starts, or finished deliveries, plus the potential within what the step adds to the budget |
| Budget.BoundedWork | internal/worker/runner.go:15-18 | over every run, process starts and finished deliveries of a job are at most 2 per insert or reset, 1 per publish and 1 per crash, broken connection or failed call of a worker that holds its delivery |
| Budget.AtMostThreeAttempts | internal/worker/runner.go:15-18 | an upload that is never retried and meets no fault is processed and delivered at most three times per job type |
| Conservation.MessagesAreConserved | internal/queue/rabbitmq.go:59-124 | after every run, every unacked copy is held by one attached worker that holds no other and every busy attached worker holds its copy; the copies are the published messages, one per queue, in order |
| Conservation.SettledForGood | internal/worker/runner.go:99-102 | an acknowledged or dead-lettered copy never changes again |
| Conservation.NoResurrection | internal/db/postgres.go:106-119 | after a delete, no continuation brings the video or any of its jobs back |
| Conservation.WorkerTouchesOwnRows | internal/db/postgres.go:182-187 | a worker's step leaves the rows of other jobs alone |
| Conservation.LeftoversChangeNoRow | internal/db/postgres.go:182-187 | in every continuation after a delete, whatever else happens in it, a worker's step on a leftover message changes no row of any video or job |
| Conservation.LeftoversDrain | internal/worker/runner.go:65-71 | in every continuation after a delete, no process of the job starts, and the finished deliveries of its messages plus the weight of the copies still unsettled stay within the weight of those unsettled then, one per publish and one per fault |
| Conservation.PotentialOfLeftovers | internal/worker/runner.go:65-71 | that weight is zero exactly when every copy is settled, and at most two per unsettled copy |
| Conservation.LeftoverCanSettle | internal/worker/runner.go:50-103 | in every state after a delete, wherever a worker stands with it, each leftover copy can still be settled without a fault |
| DatabaseAccess.Database.InsertVideo | internal/db/postgres.go:33-63 | one row and three pending jobs appear together or, after an error before the commit, not at all |
| DatabaseAccess.Database.ClaimJob | internal/db/postgres.go:175-196 | claims exactly an open job, bumps its attempt count and returns it |
| DatabaseAccess.Database.CompleteJob | internal/db/postgres.go:198-229 | job and column become completed in one transaction |
| DatabaseAccess.Database.FailJob | internal/db/postgres.go:231-262 | job and column become failed in one transaction, whatever they were |
| DatabaseAccess.Database.ResetJobForRetry | internal/db/postgres.go:121-158 | job and column go back to pending with no attempts; a missing row is reported and changes nothing |
| DatabaseAccess.Database.DeleteVideo | internal/db/postgres.go:106-119 | the video goes together with its jobs; a missing row is reported |
| BrokerAccess.Broker.DeclareTopology | internal/queue/rabbitmq.go:59-85 | idempotent, also after an interrupted declaration, and ends with all three queues bound |
| BrokerAccess.Broker.Publish | internal/queue/rabbitmq.go:96-109 | one ready copy per bound queue, or none when the publish fails before it reaches the broker |
| Storage.ObjectStore.DeleteObjectsByPrefix | internal/storage/s3.go:187-220 | leaves exactly the keys without the prefix and the keys that storage reported as failed, although pages are deleted while they are listed, and terminates; a failing call removes only keys with the prefix |
| Storage.ObjectStore.ListObjects | internal/storage/s3.go:190-197 | a page is an initial piece of the matching keys in order, its token separates it from the rest |
| Runner.UploadDir | internal/worker/upload_dir.go:25-59 | the files are put in order under the prefix with their relative paths, up to the first put that fails |
| Runner.Process | cmd/ffmpeg-worker/main.go:66-79 | nothing is written when the encoder fails; otherwise its files go to the directory of the job type under the event's spelling, for captions only the caption file, and it succeeds exactly if storage takes them all |
| Runner.PutsAreSteps | internal/worker/upload_dir.go:54-56 | writing artifacts one by one is a run of the protocol |
| Runner.HandleDelivery | internal/worker/runner.go:50-103 | whatever fails, the calls in their order are a run of that worker in the protocol, the delivery is settled once and after the outcome is recorded; an ack means completed or no row, a dead letter means malformed or at least the third attempt; for every set of failing calls the verdict and the rows are determined |
| Parts.PartCountExact | cmd/upload-service/handlers.go:231-235 | the int64/int32 part count is the true one if and only if the size is at most 8 MiB * (2^31 - 1), and never larger |
| Parts.LoopEnds | cmd/upload-service/handlers.go:333-337 | the int32 loop variable ever exceeds an int32 count if and only if the count is not the largest int32 |
| Parts.StatusAnswers | cmd/upload-service/handlers.go:333-337 | for every accepted size, the status loop ends if and only if the true number of parts is not 2^31 - 1 modulo 2^32; among correctly counted sizes, exactly those of the last part_size bytes fail |
| Parts.SlicePartition | web/index.html:309-317 | the slices are adjacent, cover the file, are full except the last, and the last is not empty |
| Parts.ByteInOneSlice | web/index.html:315-317 | every byte of the file lies in exactly one slice |
| Parts.JoinedIsPrefix | web/index.html:309-317 | the first slices, joined, are that much of the file |
| Multipart.FullListIsEverything | cmd/upload-service/handlers.go:360 | a sorted list of as many in-range parts as the part count is 1, 2, ..., count |
| Multipart.CountCheckIsExact | cmd/upload-service/handlers.go:354-363 | in every reachable upload state, counting a listing is the same as checking that no part is missing |
| Multipart.ExpiryCloses | cmd/upload-service/handlers.go:258-270 | after its session has expired, an upload gets no new URL and no new completion request |
| Multipart.UploadStep | internal/storage/s3.go:128-148 | every step keeps presigned and received parts within range and equal to the client's slices, and the assembled object equal to all of them |
| Multipart.UploadIsCorrect | cmd/upload-service/handlers.go:347-369 | over every run of puts, repeats, interruptions, expiry and competing completions, an assembled object is the file byte for byte if and only if the file has at most 8 MiB * (2^31 - 1) bytes |
| Multipart.FirstSliceIsAccepted | cmd/upload-service/handlers.go:231-235 | a run in which a file whose count wraps to one is accepted after its first slice |
| Multipart.UploadCanLoseData | cmd/upload-service/handlers.go:231-235 | a concrete file and a fault-free run whose assembled object is not the file |
| UploadStorage.MultipartUpload.ListParts | internal/storage/s3.go:100-126 | with parts arriving between pages, the list is sorted, has every part present at the start and only parts present at the end, and terminates; without arrivals it is exact |
| UploadService.HandleStatus | cmd/upload-service/handlers.go:326-344 | for every int32 count at which the loop ends, missing is in order exactly what the list lacks, received and missing partition 1..count, and missing is empty exactly when the count is full |
| UploadService.AssembleParts | cmd/upload-service/handlers.go:354-369 | assembles nothing but all slices; without concurrent puts, the answer is an error if the listing or the completion fails, a conflict exactly if a part is missing, and success otherwise |
| UploadService.HandleComplete | cmd/upload-service/handlers.go:347-395 | object, rows, event: in this order or stopped early, as a run of the protocol; the answer to every single failure is determined, a failing publish still being a success |
| UploadService.HandleRetryJob | cmd/upload-service/handlers.go:479-526 | reset then publish, under the spelling of the request, as a run of the protocol; the answer to every single failure is determined, a failing publish being an error; an id that is no UUID is an error that changes nothing |
| UploadService.HandleDeleteVideo | cmd/upload-service/handlers.go:451-477 | the row goes first; a prefix whose listing fails does not stop the others, and of their keys exactly those reported as failed stay; the answer depends on the row and the database alone; no key of another video is touched whatever fails |
| UploadClient.Service.Status | cmd/upload-service/handlers.go:309-345 | a live session without faults is told exactly the stored parts, unless it has the largest part count, when no answer comes |
| UploadClient.Service.DoUpload | web/index.html:271-328 | puts each part that is not yet received once, in order, and stops exactly at the first part that cannot be presigned or put; ends with all parts stored otherwise; an interrupted press shrinks the missing set; a live upload of the largest part count cannot be resumed |
| UploadClient.Service.PresignPart | cmd/upload-service/handlers.go:276-299 | only a part number in 1..count of a live session gets a URL |
| RateLimit.LimitStep | internal/ratelimit/ratelimit.go:35-55 | every step of the increment or expiry call keeps hits numbered per lifetime and lifetimes a window apart |
| RateLimit.LifetimeAdmitsExactly | internal/ratelimit/ratelimit.go:38-54 | each counter lifetime admits exactly min(limit, requests) |
| RateLimit.WindowBound | internal/ratelimit/ratelimit.go:31-55 | over every timed run, a half-open interval of window length admits at most 2 * limit - 1 |
| RateLimit.WindowBoundIsTight | internal/ratelimit/ratelimit.go:5-6 | for every window and positive limit a run attains that bound |
| RateLimit.Counters.Allow | internal/ratelimit/ratelimit.go:35-55 | one request is an increment and, for a new counter, an expiry of its own key only; it is allowed exactly when its count is within the limit, and reports an error exactly if a call that it needs fails |
| Vtt.DecimalRoundTrip | cmd/whisper-worker/transcribe.go:176 | printed decimals read back as the number |
| Floats.RoundsToWhole | cmd/whisper-worker/transcribe.go:175 | float64 rounding takes a real just below a whole number up to it if and only if it is at most half the distance to the float64 below that number away |
| Vtt.ProductBounds | cmd/whisper-worker/transcribe.go:175 | the truncated float64 product is the exact one truncated, or one more if the time rounds up, and never 1000 |
| Vtt.TimestampRoundTrip | cmd/whisper-worker/transcribe.go:168-177 | for every float64 number of seconds, the WebVTT collection algorithm reads the printed timestamp as floor(1000 * max(0, seconds)) milliseconds if and only if the time is more than half a float64 step below the next whole millisecond, and as one more otherwise; hours of three digits and more included |
| Vtt.RoundedUp | cmd/whisper-worker/transcribe.go:175 | the float64 of 0.57 seconds reads back as 570 milliseconds, its exact floor being 569 |
| Vtt.TimestampSyntax | cmd/whisper-worker/transcribe.go:176 | whatever the time and its rounding, the text has two digits of hours or as many as are needed, two of minutes and seconds and three of the fraction |
| Vtt.TimestampsAreMonotone | cmd/whisper-worker/transcribe.go:168-177 | a later time never reads back as an earlier one |

## Left out

- The endless select loop of `Run` around `HandleDelivery`, and its shutdown: it only repeats deliveries.
- The handlers are sequential methods; the interleavings of deliveries, requests and crashes are those of the protocol, whose steps the methods are shown to perform.
- Timestamps of both tables, job_id, and the range of the INT attempt_count.
- ffmpeg, whisper.cpp, OpenAI, downloads and temporary files: processing is an outcome that on success has put the artifacts with fixed names; the number and contents of HLS segments are arbitrary.
- Limits of storage itself (10000 parts, object size) and of JavaScript numbers above 2^53.
- Session contents and their JSON, and the deletion of the session after a completion; a session is alive or not.
- A rate-limit counter whose expiry call fails, or is not reached because the reply to its first increment is lost, never expires; the bounds hold for it too, but the limiter then refuses that key for good. Redis failures let a request through in the middleware, outside the limiter.
- Durations that are not finite, or whose whole seconds exceed int64, where Go leaves the conversion to the implementation.
- Messages published by anyone but the upload service: a well-formed event whose id is no UUID would be requeued forever.
- HTTP routing, CORS, authentication, metrics, logging, configuration, `ListVideos`, `AbortMultipartUpload`, master playlist text and the rest of the web page.
