# Resource discovery, verified

A Dafny model of the asynchronous discovery service: task creation at the gateway, the task queues
(Redis lease queue, SQLite job table, in-memory), the worker and its retry decisions, cancellation,
request authentication, scope narrowing, query planning, provider fetching, normalization,
deduplication, result paging and snapshot comparison. `dafny verify dfyconfig.toml` checks it.

Code that changes state step by step is modelled by classes and methods with loops; each is proved
against a function on values, and the results about runs are lemmas about those functions. Code made
of expressions is modelled by functions. What these functions compute is then told once more without them,
on the fields of what goes in and comes out, with the constants and defaults of the source written out.

| file | what it models |
|---|---|
| `Text`, `Iso` | strings, lexicographic order, decimal numbers; ISO timestamps |
| `Items`, `Models` | the work item and job states; seeds, plans, rows |
| `RedisQueue`, `RedisPartition`, `RedisCommands`, `RedisAttempts` | the lease queue with atomic methods; where each job is; the same queue one Redis command at a time; its attempts and when an item comes back |
| `SqliteQueue`, `Fifo` | the job table; the queues as one FIFO; the colon-encoded queue |
| `Delivery`, `Outcomes`, `Retries`, `Endings` | one worker turn, cancellation, runs; how an attempt ends; retry budget and what survives a retry; what a turn leaves, and how often a failing task is executed |
| `Interleaving`, `Creations`, `Agreement`, `Budgets` | many workers, one store or queue command at a time: cancellation, creation, when the stores agree, and the retry budget |
| `EndToEnd` | what a client reads back after any run |
| `RequestAuth`, `StoredTimes` | signatures and the nonce table; comparisons of stored time texts |
| `KeyedMerge`, `Dedup`, `Identities` | merging by key in order; assets and services; what makes two records one |
| `SourceClient`, `Normalizer`, `Execution`, `Records`, `References` | paged fetch; rows to records; the loop over plans; reports told on rows and fetches; whether services refer to reported assets |
| `QueryPlanner`, `PlanList`, `Workflow`, `Gateway`, `Admissions` | queries and plan lists; what they ask; safety checks and budgets; task creation; which requests and attempts pass |
| `Networks`, `ScopeGuard`, `ScopeNames` | address blocks; scope narrowing; normalized names and what a validation accepts |
| `Repositories` | the paginated result stores |
| `ChangeDetection` | snapshot comparison |

## Where the code does less than one may expect

- A task all of whose fetches failed, one of them recoverably, is stored without its request before it
  is retried (`worker.py:97-101`, `execution.py:271-282`); this happens exactly as
  `Retries.RetriedWithoutRequestIff` says. Its next turn plans no query and ends as a success that found
  nothing (`Retries.RetriedReportBecomesEmptySuccess`). The exception path keeps the request
  (`Retries.RetriesRebuildPlans`).
- The default nonce window equals the default skew, which is safe exactly for clients whose stamps
  never lead the server's clock (`RequestAuth.WindowIsExact`). A signature determines its request exactly
  if its fields have one line each (`RequestAuth.SignatureDeterminesIff`).
- A cancellation is final exactly if no worker holds the task past its load
  (`Interleaving.CancellationHolds`, `Interleaving.CancellationEscapes`).
- A task created again stays exactly if no worker has anything left to do for it and no cancellation of
  it is pending (`Creations.CreationStays`, `Creations.CreationIsOverwritten`,
  `Creations.CreationIsCancelled`). In the last window it is never delivered
  (`Interleaving.CreationIsSwallowed`).
- One command at a time, the stores stay consistent exactly if every command is proper
  (`Agreement.RunsConsistentIff`), and then agree whenever nothing is half done (`Agreement.CommandsAgree`).
  A cancellation stored over a failed row breaks it (`Agreement.LateCancelIff`), and so does a retry that
  another worker takes, and ends, before it is stored (`Agreement.RetryOvertaken`).
- Two workers that hold one item can both take its last retry (`Budgets.TwoHandsOverspend`); in proper runs
  the retry budget holds (`Budgets.CommandsStayWithinBudget`).
- A Redis client that stops for good loses what it has in hand, unless it is elsewhere too
  (`RedisCommands.StopLosesExactly`). It has a job in hand at five points: in an enqueue before the push,
  in a sweep between the removal and the push, in a dequeue between the pop and the lease, and in a retry
  between the removal and the hash and between the hash and the placement.
- Between single Redis commands a hash may say queued or running for a job that is nowhere. This happens
  exactly if an acknowledgement writes its hash between a lease, or the push of a sweep, and the hash write
  that follows it, when nothing else stands behind that hash (`RedisCommands.RunsTellIff`,
  `RedisCommands.TooEarlyShows`). It is the write of the acknowledgement that has to wait; waiting before
  its start is enough (`RedisCommands.WaitingSuffices`) but not needed.
- Retries of one item that overlap on Redis can count once (`RedisAttempts.OverlappingRetriesCountOnce`): the
  attempts shown are right exactly as long as no client writes a number it has read before it changed
  (`RedisAttempts.CountsAreRightIff`).
- Two tenants share job hashes exactly if one id is the other, a colon, and possibly more
  (`RedisPartition.TenantsShareKeysIff`, `RedisPartition.SeparateIsExact`).
- A reported service may refer to no reported asset, exactly as `References.ReferencesResolveIff` says; it
  takes both a row without host and IP and a row whose host or IP is the id generated for such rows.
- Services are told apart by a text joined with bars, so a bar in a protocol, or before a number at the end of
  a host, lets two endpoints be reported as one (`Identities.BarredProtocolIsShared`,
  `Identities.BarredHostIsShared`); without them no two are (`Identities.ServiceKeysIff`).
- Names are compared after trimming and then dropping final dots, so a space before the dots stays
  (`ScopeNames.SpaceStaysIff`, `ScopeNames.DotIgnoredIff`).
- A profile that allows both address families lets the CIDR check raise `TypeError`, which is not
  caught (`ScopeGuard.AnySubnetOutcomes`).
- A row whose observation time falls out of the range of dates in UTC stops the whole batch, as a port or
  confidence that is no number does (`freshness.py:62`, `Normalizer.NormalizeRaisesIff`).
- An empty accepted scope, validated again, is replaced by the default scope (`ScopeGuard.RevalidationIff`).
  Values under scope keys the validator does not know are dropped without a rejection, and keep the default
  scope out (`ScopeGuard.UnknownKeysHideDefault`); this is the only way they change the outcome
  (`ScopeGuard.UnknownKeysIgnored`).

## Model

| member | source | states |
|---|---|---|
| RedisQueue.RedisTaskQueue.EnqueueItem | src/resource_discovery/redis_queue.py:29-44 | `enqueue`: the hash goes to queued keeping attempts, last error and creation time, and the item joins the end of the ready list |
| RedisQueue.RedisTaskQueue.RangeByScore | src/resource_discovery/redis_queue.py:106-108 | `zrangebyscore(0, now)`: exactly the members with 0 <= score <= now, each once, by ascending score |
| RedisQueue.RedisTaskQueue.RequeueExpired | src/resource_discovery/redis_queue.py:106-113 | `_requeue_expired`: every expired member moves, in score order, from the set to the end of the ready list |
| RedisQueue.RedisTaskQueue.DequeueItem | src/resource_discovery/redis_queue.py:46-55 | `dequeue`: sweep, then lease the head of the ready list until the visibility timeout |
| RedisQueue.RedisTaskQueue.Retry | src/resource_discovery/redis_queue.py:57-69 | `mark_retry`: the hash at the item's key has the old count, 0 without one, plus one, the state queued, the reason and the time; the lease goes, and the item joins the ready list or, with a delay, the set until the delay has passed |
| RedisQueue.RedisTaskQueue.Done | src/resource_discovery/redis_queue.py:71-74 | `mark_done`: drop the lease, state done |
| RedisQueue.RedisTaskQueue.Fail | src/resource_discovery/redis_queue.py:76-81 | `mark_failed`: drop the lease, state failed, one dead letter |
| RedisQueue.NoJobIsLost | src/resource_discovery/redis_queue.py:29-81 | methods atomic, any run, late acks, expiry and re-enqueues included: a hash that says queued or running has an item in the ready list or the set, one that says failed has a dead letter |
| RedisAttempts.AttemptsCountRetries | src/resource_discovery/redis_queue.py:57-69 | methods atomic, any run: the attempts shown for a key are the retries of that key so far, and no other operation changes them |
| RedisAttempts.RetryWaits | src/resource_discovery/redis_queue.py:66-69 | a retry with a delay waits in the set until now plus the delay; without one it joins the ready list |
| RedisAttempts.LeaseWaits | src/resource_discovery/redis_queue.py:46-55 | a leased item waits in the set until the time of the lease plus the visibility timeout |
| RedisAttempts.NotHandedOutEarly | src/resource_discovery/redis_queue.py:106-113 | from any queue: an item that waits until t is handed out by no dequeue of a run whose clocks stay below t, unless it is put back, and waits on unless it is acknowledged |
| RedisAttempts.ComesBackWhenDue | src/resource_discovery/redis_queue.py:106-113 | the first dequeue whose clock reads t or later puts it in the ready list or hands it out |
| RedisAttempts.CountsAreRightIff | src/resource_discovery/redis_queue.py:57-64 | single commands, any number of clients: in every state of a run the attempts shown are the retries written, if and only if no client writes a number it has read before it changed |
| RedisAttempts.OverlappingRetriesCountOnce | src/resource_discovery/redis_queue.py:60-64 | two retries of one item that overlap count as one attempt |
| RedisPartition.NoItemIsLost | src/resource_discovery/redis_queue.py:29-81 | the same item by item, among tenants none of which extends another by a colon: an item whose hash says queued or running is itself in the list or the set |
| RedisPartition.JobKeyInjective | src/resource_discovery/redis_queue.py:115-116 | among such tenants an item has its job key for itself |
| RedisPartition.SharedHash | src/resource_discovery/redis_queue.py:115-116 | for every two tenants one of which extends the other, and every task id, a run after which the hash of an acknowledged item that is nowhere says queued |
| RedisPartition.TenantsShareKeysIff | src/resource_discovery/redis_queue.py:115-116 | two tenants can share a job key if and only if one id is the other, a colon, and possibly more |
| RedisPartition.ColonHasPartner | src/resource_discovery/redis_queue.py:115-116 | every item with a colon in its tenant id shares its key with an item of the shorter id |
| RedisPartition.SeparateIsExact | src/resource_discovery/redis_queue.py:29-116 | a set of tenants keeps every item's hash truthful in every run if and only if none of them extends another |
| RedisPartition.StepKeepsPartition | src/resource_discovery/redis_queue.py:29-81 | from a partitioned queue, an operation leaves a partitioned queue if and only if it enqueues a job that is neither ready nor in the set, or retries or acknowledges one that is not ready; dequeues always do |
| RedisPartition.RunsPartitionExactly | src/resource_discovery/redis_queue.py:29-113 | over a whole run, every state is partitioned if and only if every operation respected that guard |
| RedisPartition.WellBehavedRunsPartition | src/resource_discovery/redis_queue.py:29-113 | runs that enqueue each item once and acknowledge only within a running lease are partitioned throughout |
| RedisPartition.ExactlyOnePlace | src/resource_discovery/redis_queue.py:29-81 | in a partitioned queue every enqueued job is in exactly one of ready, leased, delayed, done, failed, and at most once in the ready list |
| RedisCommands.NothingIsLost | src/resource_discovery/redis_queue.py:29-113 | single Redis commands atomic, any number of clients interleaved: every job enqueued and not acknowledged since is in the ready list, in the set, or in the hand of a client between two commands of one operation |
| RedisCommands.NothingIsLostAtRest | src/resource_discovery/redis_queue.py:29-113 | when no operation is in flight every such job is in the list or the set |
| RedisCommands.EnqueueAlone | src/resource_discovery/redis_queue.py:29-44 | the commands of one enqueue without interference have the effect of the atomic method |
| RedisCommands.DequeueAlone | src/resource_discovery/redis_queue.py:46-55 | the commands of one dequeue without interference, for any number of expired members, have the effect of the atomic method |
| RedisCommands.RetryAlone | src/resource_discovery/redis_queue.py:57-69 | the commands of one retry without interference have the effect of the atomic method |
| RedisCommands.DoneAlone | src/resource_discovery/redis_queue.py:71-74 | the commands of one acknowledgement without interference have the effect of the atomic method |
| RedisCommands.FailAlone | src/resource_discovery/redis_queue.py:76-81 | the commands of one failure without interference have the effect of the atomic method |
| RedisCommands.HashOutlivesJob | src/resource_discovery/redis_queue.py:53-54 | the run for the lease, from one waiting job to rest: the hash says running and the job is nowhere |
| RedisCommands.StepTellsIff | src/resource_discovery/redis_queue.py:29-113 | call a key cared for if an item of it is in the list, the set or a hand, or a client is about to write its hash done or failed; one command keeps every live or soon live hash cared for if and only if it is no acknowledgement that writes its hash while another client is about to write it live, no item of the key is anywhere and no other client ends it |
| RedisCommands.RunsTellIff | src/resource_discovery/redis_queue.py:29-113 | the same over all states of any run of any number of clients |
| RedisCommands.HashesTellTheTruth | src/resource_discovery/redis_queue.py:29-113 | in every run in which no acknowledgement writes its hash too early in that sense: a live hash has an item of its key in the list, the set or a hand, or a client is about to write it done or failed |
| RedisCommands.WaitingSuffices | src/resource_discovery/redis_queue.py:71-81 | acknowledgements that do not even start while another client is between its lease, or its push in a sweep, and the hash write of the same key never write too early |
| RedisCommands.TooEarlyShows | src/resource_discovery/redis_queue.py:71-81 | after any write that is too early the late client, going on, leaves a live hash with nothing behind it |
| RedisCommands.LateWriteOutlivesJob | src/resource_discovery/redis_queue.py:53-54 | an acknowledgement, done or failed, that starts and writes its hash while another client is past its lease, or past its push in a sweep, and has its hash to write: the hash ends live, and is cared for exactly if another item of the key, or a second copy, was somewhere or a third client is about to end it |
| RedisCommands.StopBetweenPopAndLease | src/resource_discovery/redis_queue.py:48-53 | the instance for a dequeue: a stop after the lease loses nothing, one between pop and lease loses the job |
| RedisCommands.StopLosesExactly | src/resource_discovery/redis_queue.py:29-113 | a client that stops for good loses no owed job if and only if what it has in hand is not owed or is elsewhere too |
| RedisCommands.HandsAreFull | src/resource_discovery/redis_queue.py:43-44 | a client has a job in hand at exactly five points: before the push of an enqueue, before the push of a sweep, before the lease, and before the hash and the placement of a retry |
| SqliteQueue.SqliteTaskQueue.EnqueueItem | src/resource_discovery/queue_backends.py:22-35 | insert a row, or put an existing one back to queued keeping attempts and creation time |
| SqliteQueue.SqliteTaskQueue.Select | src/resource_discovery/queue_backends.py:40-48 | a queued row that is due and has the earliest creation time, or none if no row is due |
| SqliteQueue.SqliteTaskQueue.Dequeue | src/resource_discovery/queue_backends.py:37-55 | hands out such a row and marks it running, and changes nothing else |
| SqliteQueue.SqliteTaskQueue.Retry | src/resource_discovery/queue_backends.py:57-68 | back to queued, one more attempt, due after the delay, a negative one counting as none |
| SqliteQueue.SqliteTaskQueue.Done | src/resource_discovery/queue_backends.py:70-75 | state done, the rest of the row and the other rows unchanged |
| SqliteQueue.SqliteTaskQueue.Fail | src/resource_discovery/queue_backends.py:77-86 | state failed with the reason |
| SqliteQueue.RetryIsNotEarly | src/resource_discovery/queue_backends.py:57-68 | on any run a job retried at t with delay d is not handed out before t + d unless it is enqueued or retried again |
| SqliteQueue.RowShows | src/resource_discovery/queue_backends.py:22-86 | over any run a row exists since the first enqueue and was created then, and its attempts are the retries since |
| Fifo.InMemoryTaskQueue.Enqueue | src/resource_discovery/task_queue.py:17-18 | append at the end |
| Fifo.InMemoryTaskQueue.Dequeue | src/resource_discovery/task_queue.py:20-23 | take from the front, or nothing |
| Fifo.SameSequence | src/resource_discovery/queue_backends.py:22-55 | distinct enqueues and dequeues, increasing clock, leases longer than the run: every dequeue hands out the same item from the lease queue, the job table and the in-memory queue |
| Fifo.LegacyRoundTrip | src/resource_discovery/queue_backends.py:127-135 | the colon-joined queue entry decodes to the item if and only if the tenant id has no colon |
| Delivery.TaskWorker.RunNext | src/resource_discovery/worker.py:35-144 | `run_once`: the new task store, job table and result store are exactly those of the turn's specification, in every branch |
| Delivery.TaskWorker.Execute | src/resource_discovery/worker.py:146-164 | `_execute`: rebuilds the seeds from the stored request, with the defaults where it is missing, and runs the discovery with one page per plan |
| Delivery.TaskWorker.SettleException | src/resource_discovery/worker.py:54-96 | the exception branch: one recoverable error, then retrying if the attempts of the row, 0 without one, plus one stay below the maximum, and failed otherwise |
| Delivery.TaskWorker.SettleReport | src/resource_discovery/worker.py:97-120 | the report branch: retry or fail when all queries failed recoverably, else store, save and acknowledge |
| Delivery.TaskWorker.RetryOrFail | src/resource_discovery/worker.py:181-197 | `_retry_or_fail`: retries if and only if the attempts so far plus one stay below the maximum |
| Delivery.CancelTask | src/resource_discovery/task_operations.py:16-25 | `cancel_task`: missing and terminal tasks are refused and left alone, any other is stored as cancelled |
| Delivery.ExecutionStatus | src/resource_discovery/task_state.py:47-52 | an execution that returns reports a terminal status other than cancelled, failed exactly if there were errors and no completed query |
| Endings.TurnRetriesIff | src/resource_discovery/worker.py:54-105 | after a turn whose attempt raises or fails recoverably: the task is retrying and its row queued, one attempt more, due when the delay has passed, if and only if the attempts plus one stay below the maximum; otherwise both are failed; nothing else changes |
| Endings.TurnEnds | src/resource_discovery/worker.py:117-120 | any other attempt: the task has the status, errors and report of the run, its results are saved and its row is done |
| Endings.ReasonIsStored | src/resource_discovery/worker.py:55-64 | what is stored about a failure: the exception as one recoverable error, or the report, and as reason the message or the code of its first error or the default text |
| Endings.FailsAfterExactly | src/resource_discovery/worker.py:65-105 | in any run in which every attempt of a new task raises or fails recoverably, the task is executed at most max(1, max_attempts) times, is failed exactly when it has been, and waits with as many attempts as it was executed until then |
| Delivery.RunsAgree | src/resource_discovery/worker.py:35-144 | turns atomic, one worker, any creations and cancellations between them: rows and stored tasks correspond one to one, queued rows belong to queued, retrying or cancelled tasks, none is running, done rows to terminal ones, failed rows to failed ones, and successes have their results saved |
| Delivery.NothingIsStranded | src/resource_discovery/worker.py:36-39 | there `run_once` never misses the stored task, and an idle answer when every queued row is due means every task has ended |
| Retries.RunsStayWithinBudget | src/resource_discovery/worker.py:65-96 | turns atomic: the attempts of every row stay at most max_attempts - 1 in every reachable state |
| Retries.TurnSpends | src/resource_discovery/worker.py:65-96 | every turn that takes a job strictly decreases the sum over live rows of the attempts left |
| Retries.RunsDrain | src/resource_discovery/worker.py:35-144 | without new tasks, the turns taken plus what is left never exceed what was there, at most rows times max(1, max_attempts) |
| Retries.RequestSurvivesIff | src/resource_discovery/worker.py:54-101 | a turn keeps the stored request if and only if the task is skipped as cancelled, or its attempt is refused by a check or meets an unreadable row; a run that reports, even one that is retried, stores a task without it |
| Retries.RetriedWithoutRequestIff | src/resource_discovery/worker.py:97-108 | a turn leaves a task to be retried without its request if and only if the checks admit the attempt, every fetch of its plans fails, one of them recoverably, and attempts are left |
| Outcomes.AttemptIff | src/resource_discovery/execution.py:104-144 | an attempt raises, or ends in a failure that is retried, exactly if the stored task, the checks and the provider's answers to its own plans say so |
| Outcomes.ExecuteFailsIff | src/resource_discovery/execution.py:219-243 | a run over plans raises exactly if some fetched row is unreadable, and fails recoverably exactly if all fetches fail, one of them recoverably |
| Retries.ExceptionsKeepRequest | src/resource_discovery/worker.py:54-85 | after any number of attempts that a check refuses or an unreadable row ends, whatever else happens in between, the stored task asks for the same |
| Retries.RetriesRebuildPlans | src/resource_discovery/worker.py:146-164 | the plan list counted at creation is, plan for plan, the one rebuilt after any number of such attempts |
| Retries.NoRequestSucceeds | src/resource_discovery/worker.py:146-164 | a task without a request runs no query and succeeds with nothing found, whatever the provider would answer |
| Retries.RetriedReportBecomesEmptySuccess | src/resource_discovery/worker.py:97-108 | in any run, a task retried because all fetches of its plans failed, one recoverably, ends at its next turn as a success with an empty report saved and its row done, unless it is created anew or cancelled before |
| Interleaving.CancellationHolds | src/resource_discovery/worker.py:39-44 | single commands, any number of workers, repeated deliveries: a task cancelled while no worker holds it past its load is never sent again and stays cancelled in every run that does not store it anew |
| Interleaving.CancellationEscapes | src/resource_discovery/worker.py:45-53 | the condition is exact: a worker that holds the task past its load, going on alone, sends it or stores a status that is not cancelled |
| Interleaving.UninterruptedIsRunOnce | src/resource_discovery/worker.py:35-144 | a worker's commands without interference have the effect of the atomic turn |
| Interleaving.CreationIsSwallowed | src/resource_discovery/gateway_api.py:186-187 | the case of the last window: created again between the worker's last store write and its acknowledgement, a task stays queued with a done row, and no dequeue hands it out |
| Creations.CreationStays | src/resource_discovery/gateway_api.py:186-187 | any workers, any run: a created task that no worker has anything left to do for, and no pending cancellation names, stays stored as it was, with a queued row, until it is delivered, created anew or cancelled |
| Creations.CreationIsOverwritten | src/resource_discovery/worker.py:45-120 | the condition is exact: a worker with something left to do for the item, at any point from its delivery on, going on alone, replaces the stored task or ends its row |
| Creations.CreationIsCancelled | src/resource_discovery/task_operations.py:21-24 | and so does a cancellation that loaded before the creation and stores after it |
| Agreement.RunsConsistentIff | src/resource_discovery/worker.py:35-144 | any number of workers, single commands: every state of a run is consistent if and only if every command is proper: an item is delivered only with a queued, retrying or cancelled task, in no hand and not being created, no held item is created, and a cancellation is stored where it fits; consistent includes that no item is in two hands, or in a hand and being created |
| Agreement.ProperIff | src/resource_discovery/worker.py:35-144 | the same for one command |
| Agreement.CommandsAgree | src/resource_discovery/worker.py:35-144 | in such runs the stores agree whenever no worker holds anything and no creation is half done |
| Agreement.OneWorkerAgrees | src/resource_discovery/worker.py:35-144 | with one worker that takes what the table hands out the first condition comes down to taking nothing that is just being created |
| Agreement.LateCancelIff | src/resource_discovery/task_operations.py:17-24 | a cancellation stored long after its load keeps the stores consistent if and only if the row has not failed, and no worker is about to fail it without storing the task again |
| Agreement.LateCancelAtRest | src/resource_discovery/task_operations.py:17-24 | at rest: if and only if the row has not failed |
| Agreement.RetryOvertaken | src/resource_discovery/worker.py:97-101 | a retry is queued before it is stored: if the row has been handed out and has ended, done or failed, in between, the store says retrying and no dequeue hands the row out |
| Budgets.CommandsStayWithinBudget | src/resource_discovery/worker.py:65-96 | any number of workers, single commands: in every run of proper commands the attempts of every row stay at most max_attempts - 1, and a worker with a retry left to write has one, still allowed |
| Budgets.TwoHandsOverspend | src/resource_discovery/worker.py:181-197 | with one item in two hands it fails: if the execution fails and one attempt is left, both workers find a retry allowed and both write it |
| EndToEnd.SuccessCanBeReadBack | src/resource_discovery/worker.py:117-120 | after any run of whole turns from empty stores, a (partial) success has a report with its evidence partitioned, and paging through its results shows exactly the lists cut from that report |
| EndToEnd.CommandsCanBeReadBack | src/resource_discovery/worker.py:117-120 | the same after any run of proper single commands of any number of workers, once nothing is half done |
| RequestAuth.SqliteNonceRepository.RememberOnce | src/resource_discovery/sqlite_store.py:224-239 | purge what expired before the request's time, then insert unless the nonce is there |
| RequestAuth.InMemoryNonceStore.RememberOnce | src/resource_discovery/request_auth.py:29-34 | accepts a nonce if and only if it was not seen, and adds it |
| RequestAuth.MemoryNeverAcceptsTwice | src/resource_discovery/request_auth.py:29-34 | with the in-memory store no nonce is accepted twice in any run |
| RequestAuth.VerifySignature | src/resource_discovery/request_auth.py:50-81 | without a store, with the table and with the set: a request gets past the signature exactly if it is stamped within the skew and signed with the secret over verb, path, timestamp, nonce and digest, and is then accepted exactly if its nonce is new |
| RequestAuth.OutcomesAre | src/resource_discovery/request_auth.py:37-81 | every outcome against the table on the fields of the request, and the table left behind, which only a genuine request touches |
| RequestAuth.SecretsSeparate | src/resource_discovery/request_auth.py:46-47 | with a MAC free of collisions in key and text, no request signed with one secret is accepted under another |
| RequestAuth.UpperLaws | src/resource_discovery/request_auth.py:86 | the case of the verb does not count, everything else of it does |
| RequestAuth.NoReplay | src/resource_discovery/request_auth.py:63-81 | over whole runs with a clock that never goes back and stamps at most d ahead, a window of at least skew + d lets no (nonce, time) be accepted twice, from any table |
| RequestAuth.TwiceTheSkewSuffices | src/resource_discovery/request_auth.py:63-81 | a window of twice the skew needs no assumption on stamps |
| RequestAuth.ShortWindowReplays | src/resource_discovery/sqlite_store.py:224-239 | for any shorter window a run of three requests that gets one accepted twice |
| RequestAuth.WindowIsExact | src/resource_discovery/sqlite_store.py:224-239 | replay safety for stamps at most d ahead holds if and only if window >= skew + d |
| RequestAuth.SignatureCoversRequest | src/resource_discovery/request_auth.py:84-86 | with collision-free digest and MAC, any request signed like one whose fields have one line each agrees with it in verb up to case, path, timestamp, nonce and body |
| RequestAuth.SignatureDeterminesIff | src/resource_discovery/request_auth.py:84-86 | a signature determines its request if and only if verb, path, timestamp and nonce have one line each |
| Iso.TextOrderIsTimeOrder | src/resource_discovery/sqlite_store.py:77-78 | for all UTC instants of years 1 to 9999, ISO texts compare as the instants do, also when a zero microsecond part is left out |
| Iso.TextSays | src/resource_discovery/queue_backends.py:67 | a stored time is the year, month and day with hyphens, a T, hour, minute and second with colons, six digits of a fraction unless it is zero, and the offset |
| StoredTimes.TextPickIsPick | src/resource_discovery/queue_backends.py:38-47 | on text times that keep the order, the job selection may return exactly the rows it may return on times |
| StoredTimes.TextNoncesAreTimes | src/resource_discovery/sqlite_store.py:226-239 | on text times that keep the order, the nonce purge and insert answer and leave behind what they do on times |
| StoredTimes.IsoTablesAreTimes | src/resource_discovery/sqlite_store.py:77-78 | both for the ISO texts the program stores, answers and remaining nonce tables |
| Dedup.DeduplicateAssets | src/resource_discovery/deduplicator.py:12-27 | the loop over the insertion-ordered dictionary computes the keyed merge of the assets |
| Dedup.DeduplicateServices | src/resource_discovery/deduplicator.py:35-52 | the loop over the insertion-ordered dictionary computes the keyed merge of the services |
| Identities.ServiceKeysIff | src/resource_discovery/deduplicator.py:30-32 | services whose hosts and protocols have no bar share a key if and only if host, port, protocol and name agree |
| Identities.BarredProtocolIsShared | src/resource_discovery/deduplicator.py:32 | every service with a bar in its protocol shares its key with another endpoint |
| Identities.BarredHostIsShared | src/resource_discovery/deduplicator.py:32 | every service whose host ends in a bar and a number does so too |
| Identities.ServicesByEndpoint | src/resource_discovery/deduplicator.py:35-52 | without bars every collected host, port, protocol and name is reported exactly once, as the merge of all services collected for it |
| Identities.AssetsByName | src/resource_discovery/deduplicator.py:12-27 | every collected domain, without one IP, without both asset id, is reported exactly once, as the merge of all assets collected under it |
| Dedup.MergeUniqueAssociative | src/resource_discovery/deduplicator.py:8-9 | uniting id lists is associative: only first occurrences matter |
| Dedup.AssetsHomomorphism | src/resource_discovery/deduplicator.py:12-27 | dedupe(xs + ys) = dedupe(dedupe(xs) + dedupe(ys)) and idempotence, exactly, order and merged fields included |
| Dedup.ServicesHomomorphism | src/resource_discovery/deduplicator.py:35-52 | the same for services |
| Dedup.MergedAsset | src/resource_discovery/deduplicator.py:20-26 | a merged asset has the first record's identity, the sources and evidence ids of its group united in order of first occurrence, the greatest last-seen text and the greatest ownership score |
| Dedup.MergedService | src/resource_discovery/deduplicator.py:43-51 | a merged service has the first record's identity, united sources and evidence ids, the first non-empty title, product and version, and the greatest last-seen text |
| Dedup.FoldOrElse | src/resource_discovery/deduplicator.py:47-49 | `a or b` over a list is its first non-empty text |
| KeyedMerge.DedupeIsGroupMerge | src/resource_discovery/deduplicator.py:13-27 | keys in order of first occurrence, each entry the left-to-right merge of all values of its key |
| Normalizer.NormalizeFofaResults | src/resource_discovery/normalizer.py:28-159 | the loop computes the batch: one asset, service and evidence per row, or the error of the first row that cannot be read |
| Normalizer.NormalizeRaisesIff | src/resource_discovery/normalizer.py:41-86 | a batch raises exactly if some row has a port that int() refuses, an observation time that leaves the range of dates in UTC, or a confidence that float() refuses |
| Records.ReadIff | src/resource_discovery/normalizer.py:41-86 | a batch is read exactly if every port is a number or missing, every observation time in range, and every confidence a number or missing |
| Records.BatchSaysRows | src/resource_discovery/normalizer.py:38-157 | at each position asset, service and evidence say what the row says: domain, IP, port, protocol, name, title, product, version and times with their fallbacks |
| Records.ServiceIdsIff | src/resource_discovery/normalizer.py:48 | service ids of a task agree exactly if host, port, protocol and name do, for hosts and protocols without bars |
| Normalizer.BatchIsAligned | src/resource_discovery/normalizer.py:38-157 | position by position the three records share one evidence id, plan and row number, and the service names the asset |
| Normalizer.EvidenceIdsInjective | src/resource_discovery/normalizer.py:49 | different plan or row numbers give different evidence ids |
| Execution.ExecuteWithClient | src/resource_discovery/execution.py:199-270 | the loop over plans collects, counts and deduplicates as specified, a provider error being recorded and an unreadable row ending the run |
| Records.ReportSays | src/resource_discovery/execution.py:219-273 | status, errors and numbers of a report are those of the fetches: failed if all fail, a success if none does, and one error per failed fetch in order |
| Records.ReportInOrder | src/resource_discovery/execution.py:219-252 | the evidence is that of the rows of all answers in order, and assets and services are merged from the records of these rows by name and by endpoint |
| Records.EndpointsAreReported | src/resource_discovery/execution.py:219-252 | over a whole run an endpoint is reported if and only if some row of some answer has it, and then once, for rows without bars in host and protocol |
| Execution.EvidenceIsPartitioned | src/resource_discovery/execution.py:214-246 | completed + failed = planned, evidence ids are distinct, and each is in exactly one reported asset and exactly one reported service, once |
| References.NamedIff | src/resource_discovery/deduplicator.py:15-26 | a collected asset id names exactly one reported asset if and only if the first record with its dedupe key has the same host text |
| References.AllNamedIff | src/resource_discovery/deduplicator.py:15-26 | all collected asset ids do if and only if there is not both a row without host and IP and a row whose host or IP is the id generated for it |
| References.ReferencesResolveIff | src/resource_discovery/execution.py:245-246 | every reported service's asset id names exactly one reported asset if and only if, for each record that is the first with its service key, the first asset with its asset key has its host |
| References.ReferencesResolve | src/resource_discovery/execution.py:245-246 | so they all do unless the run has both kinds of row |
| References.BlankFirstDangles | src/resource_discovery/deduplicator.py:15 | in any run whose first row with that key is blank, the service of a row whose host is the generated id dangles, if it is the first with its service key |
| References.GeneratedHostDangles | src/resource_discovery/deduplicator.py:15 | the smallest such run has two rows |
| SourceClient.Fetch | src/resource_discovery/source_client.py:57-71 | the paged loop computes the recursive fetch and counts its calls |
| SourceClient.FetchIsPrefix | src/resource_discovery/source_client.py:57-71 | from a provider that slices a list L into pages of s = min(result_limit, 100): L[:min(result_limit, page_limit * s)] in at most page_limit calls, none wasted |
| SourceClient.FetchSays | src/resource_discovery/source_client.py:57-71 | with any provider: pages are asked for while they bring rows that are not enough; an error is passed on, and otherwise the rows of the pages are returned up to the limit |
| Workflow.RunDiscoveryFromSeeds | src/resource_discovery/execution.py:104-144 | seed check, plan list, plan budget, quota, execution, in this order and with the first error winning |
| Workflow.QuotaIsExact | src/resource_discovery/safety.py:48-57 | for one-page plans the quota passes if and only if there are at most 30 and each asks for at most 1000 rows |
| Admissions.SeedsPassIff | src/resource_discovery/safety.py:26-45 | seeds pass if and only if there are at most 20, each with a note and a value that are not blank, and each value fits its kind |
| Admissions.AdmittedIff | src/resource_discovery/execution.py:115-123 | an attempt is let through if and only if its seeds pass, the strategy is known, and the queries stay within the stored maximum, within 30 and within 1000 rows each |
| Admissions.DiscoveryIs | src/resource_discovery/execution.py:115-124 | the first error of a discovery in the order of the checks, and otherwise the execution of plans that ask the questions of its seeds |
| Workflow.DiscoveryPartitionsEvidence | src/resource_discovery/discovery_workflow.py:17-34 | a run that returns reports on the seeds' whole plan list, with its evidence partitioned over assets and services |
| Workflow.NoSeedsSucceed | src/resource_discovery/execution.py:114-122 | no seeds: success with an empty report |
| QueryPlanner.PlanFofaQueries | src/resource_discovery/query_planner.py:58-86 | the nested loops compute the numbered plan list, or the first seed's error |
| QueryPlanner.TwoReplacesAreOnePass | src/resource_discovery/query_planner.py:10-11 | the two successive replaces are one pass that escapes backslashes and quotes |
| QueryPlanner.ReadQuotedOfEscaped | src/resource_discovery/query_planner.py:10-11 | a reader that stops at the first unescaped quote recovers every escaped value and what follows it |
| QueryPlanner.TemplatesReadBack | src/resource_discovery/query_planner.py:14-55 | templates exist exactly for supported strategies and seeds with text, and each query reads back as exactly its fields with the original trimmed value |
| QueryPlanner.PlansAreNumbered | src/resource_discovery/query_planner.py:68-86 | plans are numbered 1, 2, ... with the given limits, and their count is the sum of the seeds' template counts |
| QueryPlanner.PlansDistinct | src/resource_discovery/query_planner.py:73 | no two plans of a list share an id |
| PlanList.PlannedIff | src/resource_discovery/query_planner.py:14-86 | plans exist exactly for a known strategy and seeds of the three kinds with a text, and then ask, seed by seed and numbered from 1, for these fields and values under these types and intents |
| ScopeGuard.ValidateRequestedScope | src/resource_discovery/scope_guard.py:51-87 | the loop fills the accepted map and the rejected list as specified, or stops with the checker's error |
| ScopeNames.ValidationIff | src/resource_discovery/scope_guard.py:57-102 | a validation returns if and only if the profile is active, every engine is one of its engines, the limit is within its own, and no requested network raises |
| ScopeNames.AcceptedIff | src/resource_discovery/scope_guard.py:62-87 | it accepts exactly the trimmed values of the request, or of the default scope for one without values, that the profile grants, and rejects the others |
| ScopeGuard.KeysAreSplit | src/resource_discovery/scope_guard.py:66-87 | validation succeeds if and only if no checker crashes, and then each key's accepted and the rejections in key order are exactly the allowed and the refused values |
| ScopeGuard.NothingLost | src/resource_discovery/scope_guard.py:75-86 | interleaving a key's accepted and rejected values by the checker's verdicts gives back the trimmed request, in order |
| ScopeGuard.RevalidationAcceptsAll | src/resource_discovery/scope_guard.py:51-87 | validating a non-empty accepted scope again accepts all of it unchanged and rejects nothing |
| ScopeGuard.RevalidationIff | src/resource_discovery/scope_guard.py:62-64 | validating what was accepted again changes nothing if and only if something was accepted or the default scope has nothing to check |
| ScopeGuard.UnknownKeysIgnored | src/resource_discovery/scope_guard.py:62-75 | requests that agree on the checked keys are validated alike if and only if they also agree on whether they hold any value at all, or the default scope has nothing to check, or the limits refuse both |
| ScopeGuard.UnknownKeysHideDefault | src/resource_discovery/scope_guard.py:62-64 | a request whose only values are under other keys keeps the default scope out: nothing is accepted, nothing rejected |
| ScopeGuard.AcceptedIsInside | src/resource_discovery/scope_guard.py:104-129 | every accepted value of every key is granted by the profile: listed root domains and organizations, domains listed or under a listed root by their labels, networks all of whose addresses lie in one listed network |
| ScopeGuard.NamesAreExact | src/resource_discovery/scope_guard.py:104-129 | for root domains, domains and organizations a value is allowed if granted and refused if not: a listed name equals it once both are normalized, or all labels of a listed root end it |
| ScopeGuard.NetworksAreExact | src/resource_discovery/scope_guard.py:119-125 | for networks the same, unless a text is no network, which refuses, or a listed network of the other family comes before any that contains the request, which raises |
| ScopeNames.NormalizedTakes | src/resource_discovery/scope_guard.py:132-133 | a normalized name is the text without outer spaces, in lower case, without the dots at its end |
| ScopeNames.NormalizedOf | src/resource_discovery/scope_guard.py:132-133 | every text so made up normalizes to that name |
| ScopeNames.PlainIff | src/resource_discovery/scope_guard.py:132-133 | exactly the names without outer space, upper-case letter and final dot are left as they are |
| ScopeNames.PaddingIgnored | src/resource_discovery/scope_guard.py:132-133 | outer spaces make no difference |
| ScopeNames.CaseIgnored | src/resource_discovery/scope_guard.py:132-133 | the case of letters makes no difference |
| ScopeNames.DotIgnoredIff | src/resource_discovery/scope_guard.py:132-133 | one more dot at the end makes no difference exactly if the text does not end in a space, or is blank |
| ScopeNames.SpaceStaysIff | src/resource_discovery/scope_guard.py:132-133 | a normalized name ends in a space exactly if one stood before the final dots of the trimmed text |
| ScopeGuard.UnderRootIsLabelSuffix | src/resource_discovery/scope_guard.py:113-116 | the text test for subdomains is the label test: the root's labels end the domain's labels |
| ScopeGuard.AnySubnetIsExact | src/resource_discovery/scope_guard.py:125 | within one address family a network is accepted if and only if all its addresses lie in one allowed network |
| ScopeGuard.AnySubnetOutcomes | src/resource_discovery/scope_guard.py:119-125 | with mixed families the check crashes exactly if an allowed network of the other family comes before every allowed one that contains the request |
| Networks.SubnetIsContainment | src/resource_discovery/scope_guard.py:125 | the bound comparison of `subnet_of` is containment of address sets |
| Networks.SubnetIsPrefixMatch | src/resource_discovery/scope_guard.py:125 | ... and is prefix not shorter with equal masked addresses |
| Networks.MaskedIsBlock | src/resource_discovery/scope_guard.py:121-122 | clearing the host bits leaves exactly the addresses of the block the address lies in |
| Networks.BlocksFillSpace | src/resource_discovery/scope_guard.py:121-122 | a prefix of k bits cuts the space of 32 or 128 bits into 2^k blocks |
| Gateway.CreateTask | src/resource_discovery/gateway_api.py:58-205 | the decision is the specified one, a queued decision stores the task and enqueues it, any other changes nothing |
| Admissions.DecideIs | src/resource_discovery/gateway_api.py:58-188 | what becomes of a request, on its fields: refused for the profile, the strategy or a limit, raised by a network, refused for a value not granted, raised for a blank value or over 10000 queries, refused over the profile's maximum, and otherwise queued, in this order |
| Admissions.RefusalSays | src/resource_discovery/gateway_api.py:125-145 | a request refused for its scope is told exactly the values that are not granted |
| Admissions.QueuedIs | src/resource_discovery/gateway_api.py:176-187 | a queued task holds what was asked for, under the ids, engines, limits and strategy of the request or their defaults |
| Gateway.CollectSeeds | src/resource_discovery/gateway_api.py:266-276 | the four loops number the seeds throughout, root domains, domains, networks, organizations |
| Admissions.SeedsAre | src/resource_discovery/gateway_api.py:266-285 | one seed per value: root domains and domains, then networks, then organizations, numbered throughout, each with the note or its default |
| Admissions.CountIs | src/resource_discovery/query_planner.py:14-56 | a scope makes one query per network and, per name and organization, one, or three under the extended strategy |
| Gateway.WorkerRebuildsPlans | src/resource_discovery/gateway_api.py:147-187 | the plan list counted at creation is the one the worker rebuilds, within the stored budget; with at most 30 queries and 1000 results the quota passes too |
| Gateway.SeedsIgnoreNoteDefault | src/resource_discovery/gateway_api.py:279-285 | filling in the default authorization note before or after storing gives the same seeds |
| Gateway.TaskRepository.Update | src/resource_discovery/sqlite_store.py:85-107 | create and update replace the stored task and touch no other |
| Repositories.SqliteResultRepository.SaveResults | src/resource_discovery/sqlite_store.py:133-144 | delete-then-insert leaves exactly the new lists for the task, at positions 0, 1, ..., and no other task's rows change |
| Repositories.SqliteResultRepository.LoadResults | src/resource_discovery/sqlite_store.py:146-177 | the limit-plus-one query gives the table page of the last saved list, or the errors for type and cursor |
| Repositories.FileResultRepository.LoadResults | src/resource_discovery/repositories.py:78-101 | the slice gives the file page of the last saved list, or the errors for file, type and cursor |
| Repositories.SamePage | src/resource_discovery/sqlite_store.py:155-170 | both stores show the same page at every cursor, valid or not |
| Repositories.WalkShowsEverything | src/resource_discovery/repositories.py:90-100 | following next_cursor from the start, for any limits, ends and concatenates to exactly the saved list, and from any valid cursor to its rest; both stores show the pages walked |
| Repositories.CursorRoundTrip | src/resource_discovery/repositories.py:107-116 | a printed cursor parses back to its number |
| Repositories.CursorIs | src/resource_discovery/repositories.py:107-116 | no cursor and an empty one stand for the beginning; negative numbers and texts that are no number are refused |
| Repositories.PageSizeIs | src/resource_discovery/repositories.py:91 | the page size is the limit, brought down to the maximum and up to one |
| Repositories.PageShows | src/resource_discovery/repositories.py:90-100 | a page shows the items from its cursor on, as many as its size, and a next cursor exactly if items are left, which is the number of the first of these |
| ChangeDetection.DiffReconstructsIds | src/resource_discovery/change_detection.py:4-24 | new and removed entries are sorted by id without repetition, disjoint, each the last with its id; the ids before, less the removed, plus the new, are the ids after |
| ChangeDetection.SwapSwaps | src/resource_discovery/change_detection.py:9-16 | swapping the snapshots swaps new and removed, entry for entry |
| ChangeDetection.NothingChangedIff | src/resource_discovery/change_detection.py:4-16 | nothing is reported if and only if both snapshots have the same ids |
| ChangeDetection.ByIdKeepsLast | src/resource_discovery/change_detection.py:19-20 | entries by id: all non-empty ids, each with its last entry |
| ChangeDetection.IdsAre | src/resource_discovery/change_detection.py:19-20 | the ids compared are those that are there and not empty |
| ChangeDetection.SortedIdsDetermined | src/resource_discovery/change_detection.py:23-24 | the sorted id list is the only ascending list of those ids |

## Left out

- The HTTP application and adapters, command line tools, scripts, metrics, logging and audit records: plumbing.
- The network calls of the FOFA and uncover clients and the Redis, SQLite and PostgreSQL drivers: providers are functions from plans to rows or errors, databases are maps, sequences and clocks are parameters. The PostgreSQL stores repeat the SQLite statements.
- Risk hints, exposure reports, remediation, LLM analysis, snapshots of reports and quota checks: formatting, or checks with one branch. `Report` keeps status, errors, quota, assets, services and evidence.
- SHA-1, SHA-256 and HMAC: function parameters; a lemma that needs them free of collisions says so in its `requires`.
- JSON texts: taken as injective, so items stand for the texts in the ready list and in the set. The constant prefix of the Redis keys is dropped.
- The domain pattern of `safety.py` and the text parser of `ipaddress`: parameters that yield a verdict, or an address and a prefix length within the family's width.
- Ownership scores and confidences: a number that comes with the row. Record fields that nothing modelled reads (URL, TLS, ASN, country, banner hash, freshness) are dropped.
- Observation times: the parser of `freshness.py` is not modelled; a row says whether its time leaves the range of dates in UTC.
- Unicode: upper and lower case, trimming and `int()` are modelled on ASCII; Unicode digits and spaces are not.
- Error messages: reduced to fixed texts where only their presence matters; provider and exception texts are kept where they are stored.
- Delays and timeouts in fractions of a second, and dates past year 9999: times are integers, and a delay is added without overflow.
- `RedisTaskQueue.clear` and retention deletes: they remove live protocol state on purpose.
- `FileTaskRepository` and the checks of its file names; the `list` operations of the stores; scope profile storage.
- The worker's `hasattr` checks for queues without acknowledgements: the worker is modelled with the job table, `Interleaving` with any queue that delivers items, repeatedly or not.
- `cancelled_by` and `cancelled_at`, the mode, and the quota field of a queued task: stored and shown only.
- RunsAgree: one worker and atomic turns; single commands and many workers are the subject of `Agreement.CommandsAgree`.
- SameSequence: leases longer than the run, because an expired lease is handed out again by the lease queue alone.
- NormalizeFofaResults: a provider row holds texts and numbers; one whose text fields hold other JSON values is not modelled.
