# Models of the job queue, the cached task service and the task GraphQL server

Three parts of the course repository carry state and promises worth proving. Each is modelled in two layers: values
(datatypes, functions, transition systems) on which the laws are stated, and objects with loops, arrays and fields,
whose methods are proved to compute exactly what the value layer says.

**Background jobs (`pz14-job-queue`).** `JobQueue` is a transition system: the API that submits jobs, a broker with
a FIFO queue, unacknowledged deliveries and a dead-letter queue, and a worker whose loop body is split into the
sub-steps check, run, publish or mark, acknowledge. The worker may crash between any two of them, any publish may
return an error, with the message stored or lost, and one that returns none may store nothing, since there are no
publisher confirms. `JobQueueSafety` proves a conservation law over every run and draws the bounds on copies and losses
from it; `JobQueueExact` says exactly what became of each message in every run; `JobQueueDrain` proves the order of
attempts in a fault-free run, that every run ends, and how many deliveries it takes. `JobWorker` holds the imperative
worker, store and broker.

**Cache-aside task service (`pz9-redis-cache`).** `CacheKeys` and `Decimal` treat the key strings, `TaskRepo` the
paginated repository, `CacheModel` the service in small steps, one Redis command or repository call each. When calls run
one at a time and Redis does not fail, `CacheAgreement` proves, for every repository, that the service is the repository
for exactly the pages that invalidation covers or that lie beyond the last task. `CacheFaults` says what each call
answers, writes and deletes whatever its commands do. When any number of calls interleave, commands fail and keys are
evicted, `CacheStaleness` bounds how old an answer can be. `CacheOverlap` gives two provisos under which overlapping
calls without faults are linearizable, and `CacheRace` shows that neither can be dropped, for any repository and any
write that changes an answer. `CacheService` holds the service, the Redis client and the loops.

**GraphQL and REST over one store (`pz12-rest-graphql`).** `TaskStore` and `TaskStoreHeap` treat the slice-backed store:
it refines an ordered map in reads and writes, never reuses an id, and hands out clones; every write is pinned field by
field. `GraphQLSpec` states value completion and error handling of the GraphQL specification (October 2021, sections 6.2
and 6.4) over arbitrary resolvers; `GraphQLNulls` proves where its nulls come from. `GraphQLExecutor` is the generated
executor: arrays filled slot by slot, counters of invalid fields, an error log, typed nils, closures run in any order.
It refines the specification except that a nil slice is answered as an empty list where the list is required
(`GraphQLReadings` proves that a response deviates if and only if the query reaches such a slice; the task resolvers
never return one). `GraphQLSchedules` interleaves the closures access by access at the shared error log. `GraphQLTasks`,
`GraphQLMutations` and `GraphQLMutationLaws` connect both interfaces to the store.

Facts about the code that the proofs bring out:

- With one worker and the API as the only source of jobs the idempotency check never fires: a completed message has
  no copy left that the same process could receive, and a crash empties the processed store. Once the queue is drained,
  a message completed more than once if and only if its task succeeds and a crash hit one of its deliveries after the
  effect, and nothing is left of it if and only if its task fails and every copy of it was lost by a publish. For every
  n there is a run with n crashes in which one task succeeds n + 1 times.
- A page outside pages 1 to 5 by limits 1 to 20 is answered stale after an update as long as the repository reaches it;
  inside that window it never is when calls do not overlap. For the two sample tasks, page 1 of size 21 goes stale and
  page 6 of size 1 never does.
- Overlapping calls agree with the repository unless a write changes an answer while a reader is about to store the
  old one, or a reader hits between a write and its invalidation. Every write that changes an answer can go wrong in
  both ways.
- A failed delete of a task's own key ends its invalidation, with all list pages left in the cache; a failed delete of a
  list key stops nothing.
- REST refuses an empty title and GraphQL stores it; on every other input the two create the same task.
- A mutation operation in which one field fails answers no data, yet the other fields' writes stay.

## Model

| member | source | states |
|---|---|---|
| JobQueueSafety.BalancedStep | pz14-job-queue/services/worker/cmd/worker/main.go:49-87 | Conservation: every sub-step, publish outcome and crash keeps the equation between what became of a message (copies, successful runs, losses, skips) and what it is owed (its entry, crashes after its effect, the open window before its ack) |
| JobQueueSafety.CopyBound | pz14-job-queue/services/worker/cmd/worker/main.go:49-87 | In every run, queued, unacknowledged and dead-lettered copies plus successful runs of one message are at most 1 + crashes, plus 1 only between a delivery's effect and its ack |
| JobQueueSafety.LossAccounting | pz14-job-queue/services/worker/cmd/worker/main.go:63-85 | The accepted messages of which nothing is left are at most the publishes that returned an error or silently stored nothing; if none is silent, at most those that returned an error; if neither, none is lost |
| JobQueueSafety.AtMostOncePerProcess | pz14-job-queue/services/worker/cmd/worker/main.go:49-87 | Two successful runs of one message are always separated by a crash |
| JobQueueSafety.CompletedOrDead | pz14-job-queue/services/worker/cmd/worker/main.go:63-86 | No message is both completed and dead-lettered, under any crashes and publish errors |
| JobQueueSafety.DeadLettersEarned | pz14-job-queue/services/worker/cmd/worker/main.go:65-81 | A dead letter carries attempt 4 and its message failed with attempts 1, 2 and 3, in that order, under any crashes |
| JobQueueSafety.ProcessedStep | pz14-job-queue/internal/store/processed.go:14-24 | The processed set stays exactly the set of messages completed in the current process, except the completion not marked yet |
| JobQueueExact.NeverDuplicate | pz14-job-queue/services/worker/cmd/worker/main.go:56-60 | In every run, with any crashes and publish failures, the idempotency check finds no processed message and nothing is skipped |
| JobQueueExact.AlwaysResolved | pz14-job-queue/services/worker/cmd/worker/main.go:49-87 | In every run an entered message whose task fails never completes, and its live, dead-lettered and lost copies are 1 + crashes after its effect + the open window; one whose task succeeds is never dead-lettered or lost, has at most one live copy, and live copy and completions make up that number |
| JobQueueExact.DrainedExactly | pz14-job-queue/services/worker/cmd/worker/main.go:63-86 | Drained, a message completed more than once if and only if its task succeeds and a crash hit it after its effect, and nothing is left of it if and only if its task fails and it lost as many copies as entered or were added by crashes |
| JobQueueExact.MissingExactly | pz14-job-queue/internal/publisher/publisher.go:11-21 | Drained, an accepted message is missing if and only if the API's own publish stored nothing or all its copies were lost by re-publishes |
| JobQueueDrain.DrainCorrect | pz14-job-queue/services/worker/cmd/worker/main.go:56-96 | When a fault-free run has emptied the queue, an accepted message whose task succeeds ran exactly once and left nothing; any other ran with attempts 1, 2, 3 and left exactly one dead letter |
| JobQueueDrain.DeliveriesBounded | pz14-job-queue/services/worker/cmd/worker/main.go:63-86 | In every run at most 3 deliveries complete per submission, plus 2 per crash |
| JobQueueDrain.RunsAreFinite | pz14-job-queue/services/worker/cmd/worker/main.go:49-87 | Once submissions stop, a run with finitely many crashes is finite, with an explicit bound on its length |
| JobQueueDrain.StuckMeansDrained | pz14-job-queue/services/worker/cmd/worker/main.go:49-87 | A system that can only crash or take a new submission has an empty queue and nothing unacknowledged |
| JobWorker.HandledIsRun | pz14-job-queue/services/worker/cmd/worker/main.go:56-86 | One pass of the loop body is a run of sub-steps of the transition system, neither crash nor submission |
| JobWorker.HandledEffect | pz14-job-queue/services/worker/cmd/worker/main.go:56-99 | A task "t_fail" records a failure and is passed on with the next attempt, to the queue up to 3 and else to the dead letters; any other task records a success and is marked; a processed message does neither; all are acknowledged |
| JobWorker.CrashesRepeatWork | pz14-job-queue/services/worker/cmd/worker/main.go:84-85 | For every n a run with n crashes between marking and ack in which one task succeeds n + 1 times: the copy bound is attained |
| JobWorker.FailedPublishLosesWork | pz14-job-queue/services/worker/cmd/worker/main.go:66-73 | A run with one failed re-publish after which the accepted message is nowhere: the loss bound is attained |
| JobWorker.PostProcessTask | pz14-job-queue/services/tasks/cmd/tasks/main.go:40-67 | 401, 400, 500 and 202 each exactly when the token, the body and the publish's error say so; the job enters the end of the queue with attempt 1 exactly when the publish stored it, and is accepted exactly with 202 |
| JobWorker.ProcessedStore.MarkDone | pz14-job-queue/internal/store/processed.go:20-24 | The store's ids grow by exactly the marked one |
| JobWorker.Broker.PublishJob | pz14-job-queue/internal/publisher/publisher.go:11-21 | The job is appended to its queue exactly when the broker stored it, whether or not the call returned an error |
| JobWorker.Worker.HandleDelivery | pz14-job-queue/services/worker/cmd/worker/main.go:56-86 | The loop body on the objects leads exactly to the state the sub-steps lead to, for every publish outcome, and to the effect just stated |
| JobWorker.Worker.RetryOrBury | pz14-job-queue/services/worker/cmd/worker/main.go:65-80 | Increments the attempt and publishes for a retry up to attempt 3, else to the dead-letter queue |
| JobWorker.Worker.ConsumeAll | pz14-job-queue/services/worker/cmd/worker/main.go:49-87 | While nothing is submitted, the delivery loop drains the queue within the work left, and leaves everything settled if no publish failed |
| JobWorker.Worker.Serve | pz14-job-queue/services/worker/cmd/worker/main.go:49-87 | Any finite stretch of the loop with jobs arriving between its turns is a run of the transition system, without crashes and with one submission per arrival |
| JobWorker.Restart | pz14-job-queue/services/worker/cmd/worker/main.go:41-46 | A new process starts with an empty processed store and the unacknowledged deliveries back at the head of the queue |
| Decimal.DecInjective | pz9-redis-cache/internal/cache/keys.go:11-21 | `%d` is injective over all integers, negative ones included |
| Decimal.DecPrints | pz9-redis-cache/internal/cache/keys.go:11-21 | `%d` prints a minus sign for a negative number and then its digits, without leading zeros |
| Decimal.Pad3Injective | pz12-rest-graphql/internal/store/store.go:57 | `%03d` is injective over all naturals, past 999 as well |
| Decimal.Pad3Prints | pz12-rest-graphql/internal/store/store.go:57 | `%03d` prints the number's digits, at least three, and a leading zero only among three |
| CacheKeys.TaskKeysInjective | pz9-redis-cache/internal/cache/keys.go:11-13 | Task keys are equal exactly for equal ids |
| CacheKeys.PagedKeysInjective | pz9-redis-cache/internal/cache/keys.go:19-21 | Paged list keys are equal exactly for equal page and limit |
| CacheKeys.KeyFamiliesDisjoint | pz9-redis-cache/internal/cache/keys.go:11-21 | Task keys, the unpaged list key and paged list keys never coincide |
| CacheKeys.WindowKeysExact | pz9-redis-cache/internal/service/task_service.go:171-177 | The nested loops delete the keys of pages 1 to 5 by limits 1 to 20, and no other paged, list or task key |
| TaskRepo.PagesPartition | pz9-redis-cache/internal/task/repo.go:42-69 | The pages up to the first empty one, concatenated, list every task once in increasing id order |
| TaskRepo.RankOnPage | pz9-redis-cache/internal/task/repo.go:49-68 | The task of rank r is at offset r % limit of page r / limit + 1 |
| TaskRepo.PageContents | pz9-redis-cache/internal/task/repo.go:49-68 | Every page holds as many tasks as its limit, or as are left, after those of the pages before it; a page below 1 counts as 1 and a limit below 1 as 10 |
| TaskRepo.PagingDefaults | pz9-redis-cache/internal/task/repo.go:49-54 | A page below 1 lists as page 1, a limit below 1 as limit 10 |
| TaskRepo.SortedUnique | pz9-redis-cache/internal/task/repo.go:43-47 | A strictly increasing sequence is determined by its elements, so the listing does not depend on map order |
| TaskRepo.Repo.List | pz9-redis-cache/internal/task/repo.go:42-69 | The loops, whatever order the map yields its keys in, return the requested page of the tasks in id order |
| TaskRepo.Repo.Update | pz9-redis-cache/internal/task/repo.go:71-77 | Replaces the task if its id is stored and changes nothing otherwise |
| TaskRepo.Repo.Delete | pz9-redis-cache/internal/task/repo.go:79-85 | Removes the id if it is stored and changes nothing otherwise |
| CacheModel.TTLWithJitter | pz9-redis-cache/internal/cache/ttl.go:8-14 | The time to live lies between the base and the base plus the jitter, for every draw, and any draw up to the jitter is added in full |
| CacheModel.Half | pz9-redis-cache/internal/service/task_service.go:146 | Half the jitter, rounded toward zero |
| CacheFaults.GetUnderFaults | pz9-redis-cache/internal/service/task_service.go:33-66 | Whatever Redis does, a get answers a live entry of its key if the command succeeds, and else what the repository has, which it stores for the task's base and jitter or the negative base and half the jitter |
| CacheFaults.ListUnderFaults | pz9-redis-cache/internal/service/task_service.go:68-90 | Likewise for a page, stored for the list's base and jitter |
| CacheFaults.InvalidationUnderFaults | pz9-redis-cache/internal/service/task_service.go:154-178 | If the task key's delete returns an error it is the only command; else exactly 102 commands are issued, and the cache loses exactly the keys whose own delete was applied, whatever the others returned |
| CacheFaults.UpdateUnderFaults | pz9-redis-cache/internal/service/task_service.go:92-98 | An update changes the repository and answers whatever Redis does, and then invalidates its task; an unknown id changes nothing and issues nothing |
| CacheFaults.DeleteUnderFaults | pz9-redis-cache/internal/service/task_service.go:100-106 | Likewise for a delete |
| CacheAgreement.InvalidationExact | pz9-redis-cache/internal/service/task_service.go:154-178 | Fault-free invalidation removes the task's key, the list key and the window's paged keys, and nothing else |
| CacheAgreement.GetAgrees | pz9-redis-cache/internal/service/task_service.go:33-66 | On a coherent cache a get answers what the repository would, and the cache stays coherent |
| CacheAgreement.ListCall | pz9-redis-cache/internal/service/task_service.go:68-90 | A list keeps the cache coherent, and for a window page or a page beyond the last task answers what the repository would |
| CacheAgreement.WriteAgrees | pz9-redis-cache/internal/service/task_service.go:92-106 | Updates and deletes answer as the repository does and leave the cache coherent with the new data |
| CacheAgreement.ServiceRefinesRepo | pz9-redis-cache/internal/service/task_service.go:33-106 | Every sequence of gets, lists of window pages or pages beyond the last task, updates, deletes and clock ticks is answered exactly as by the bare repository |
| CacheAgreement.DisconnectedAgrees | pz9-redis-cache/internal/service/task_service.go:36-61 | Without a Redis client every sequence of calls is answered as by the repository, for every page and limit |
| CacheAgreement.WindowIsExact | pz9-redis-cache/internal/service/task_service.go:171-177 | For every repository, the service always lists a page as the repository does if and only if the page is in the invalidated window or lies beyond the last task |
| CacheAgreement.NewRepoPages | pz9-redis-cache/internal/task/repo.go:15-32 | For the two sample tasks page 1 of size 21 can be listed stale, and page 6 of size 1 never is |
| CacheStaleness.BoundedStaleness | pz9-redis-cache/internal/service/task_service.go:33-90 | However calls interleave and whatever fails, every answer was the repository's at a moment not before the start of the call that read it, and if it came from the cache it was written less than base TTL plus jitter earlier |
| CacheStaleness.InvFrom | pz9-redis-cache/internal/service/task_service.go:108-152 | Every cache entry of every run names three ordered moments of one call: begin, repository read, cache write |
| CacheStaleness.NegativeNeverWrong | pz9-redis-cache/internal/service/task_service.go:39-42 | After a not-found answer, and as long as a not-found marker is cached, the id is absent from the repository, under every interleaving and failure |
| CacheOverlap.CalmRunsAgree | pz9-redis-cache/internal/service/task_service.go:33-106 | In every fault-free interleaved run that meets the two provisos for a task or window page, each answer for it was the repository's at a moment of that very call |
| CacheOverlap.CalmHitsAreCurrent | pz9-redis-cache/internal/service/task_service.go:36-48 | A cache hit in such a run, with no invalidation of that answer pending, is what the repository holds right then |
| CacheRace.PausedReaderBreaksAgreement | pz9-redis-cache/internal/service/task_service.go:56-64 | For every repository, read and write that changes its answer, a fault-free run in which a read begun after the write returned, with no invalidation pending, gets the old answer, the repository's at no moment of that read |
| CacheRace.PendingDropBreaksAgreement | pz9-redis-cache/internal/service/task_service.go:92-106 | For the same, a run that meets the first proviso throughout, whose last step hits the old answer while the invalidation is pending |
| CacheService.TaskService.Serve | pz9-redis-cache/internal/service/task_service.go:33-106 | A session of calls on the objects is answered as by the small steps, and, from an empty cache without faults and with kept pages only, as by the repository |
| CacheService.TaskService.GetTaskByID | pz9-redis-cache/internal/service/task_service.go:33-66 | The method leaves the cache and answers exactly as its small steps run together do, for all Redis outcomes, and so as stated for a get under faults |
| CacheService.TaskService.ListTasks | pz9-redis-cache/internal/service/task_service.go:68-90 | Likewise for lists |
| CacheService.TaskService.UpdateTask | pz9-redis-cache/internal/service/task_service.go:92-98 | Likewise for updates |
| CacheService.TaskService.DeleteTask | pz9-redis-cache/internal/service/task_service.go:100-106 | Likewise for deletes |
| CacheService.TaskService.InvalidateTask | pz9-redis-cache/internal/service/task_service.go:154-178 | The nested loops issue the steps' deletes in order; the cache loses exactly the keys whose own delete was applied, and only a failed delete of the task key ends the work early |
| CacheService.WindowPosition | pz9-redis-cache/internal/service/task_service.go:172-174 | The loops' page and limit point at the n-th window key |
| TaskStore.Find | pz12-rest-graphql/internal/store/store.go:46-51 | The first position with the id, or none when no task has it |
| TaskStore.GetReads | pz12-rest-graphql/internal/store/store.go:43-52 | A read gives the first stored task that has the id, and nothing exactly when none has it |
| TaskStore.WriteEffect | pz12-rest-graphql/internal/store/store.go:54-96 | A write has one effect, field by field: a created task is appended under the next id, not done; an update writes the given fields of the first task with the id and keeps all else; a deletion takes that task out; an unknown id changes nothing |
| TaskStore.AlwaysNumbered | pz12-rest-graphql/internal/store/store.go:54-96 | In every reachable store the ids are printed from strictly increasing numbers below the counter |
| TaskStore.IdsDistinct | pz12-rest-graphql/internal/store/store.go:54-62 | No two stored tasks share an id |
| TaskStore.IdsNeverReused | pz12-rest-graphql/internal/store/store.go:54-62 | The ids issued over a run differ pairwise and from all ids stored before it, whatever was deleted |
| TaskStore.FirstIssued | pz12-rest-graphql/internal/store/store.go:54-62 | The first id a new server issues is "t_003" |
| TaskStore.ListingIsList | pz12-rest-graphql/internal/store/store.go:33-41 | The slice is the represented map's listing in key order |
| TaskStore.WriteRepresents | pz12-rest-graphql/internal/store/store.go:54-96 | Create, update and delete keep the representation and give the map's results |
| TaskStore.NewStoreRefinesMap | pz12-rest-graphql/internal/store/store.go:21-31 | Every run of a new server gives the results and listings of the ordered map that starts with the two sample tasks |
| TaskStore.NewStoreReadsMap | pz12-rest-graphql/internal/store/store.go:43-52 | After every run of a new server every read answers as that map does |
| TaskStoreHeap.CloneTask | pz12-rest-graphql/internal/store/store.go:98-105 | A fresh object with a fresh description cell, the same text in it and the same other fields |
| TaskStoreHeap.StoreObject.List | pz12-rest-graphql/internal/store/store.go:33-41 | Fresh clones of the stored tasks, in order |
| TaskStoreHeap.StoreObject.GetTask | pz12-rest-graphql/internal/store/store.go:43-52 | A fresh clone of the first task with the id, which has that id, or nil exactly when no task has it |
| TaskStoreHeap.StoreObject.CreateTask | pz12-rest-graphql/internal/store/store.go:54-62 | A task with the next id and the given title and description, not done, is appended; the stored object is not the returned one |
| TaskStoreHeap.StoreObject.UpdateTask | pz12-rest-graphql/internal/store/store.go:64-83 | By assignment to the stored object's fields, the first task with the id gets each given value and keeps the others, no other task changes, and a fresh clone is returned; nil and no change exactly when no task has the id |
| TaskStoreHeap.StoreObject.DeleteTask | pz12-rest-graphql/internal/store/store.go:85-96 | By shifting within the array, the first task with the id is gone and the others keep their order; false and no change exactly when there is none |
| TaskStoreHeap.PerformAll | pz12-rest-graphql/internal/store/store.go:33-61 | Snapshot isolation: objects handed out earlier keep their values through any run of writes, and the store follows the run on values |
| GraphQLSchema.GeneratedFromSchema | pz12-rest-graphql/graph/generated.go:3027-3550 | Each field is marshalled at its declared type, and its null counted exactly if that type is non-null |
| GraphQLSpec.ResponseConforms | pz12-rest-graphql/graph/schema.graphqls:1-17 | The data of every response is null or has the shape of the selection, with no null at a non-null position |
| GraphQLNulls.ChainRaises | pz12-rest-graphql/graph/generated.go:3181-3228 | A failing position joined to a value by non-null positions raises an error there and is recorded |
| GraphQLNulls.DataNullExactly | pz12-rest-graphql/graph/generated.go:3164-3177 | The data is null if and only if some failing position is joined to the root by non-null positions, and every such position is in the errors |
| GraphQLNulls.NullableFieldNullExactly | pz12-rest-graphql/graph/generated.go:805-831 | A nullable field is null if and only if its resolver failed or gave null or a failing position below it is joined to it by non-null positions; its origin is in the errors |
| GraphQLExecutor.CountedIsRaised | pz12-rest-graphql/graph/generated.go:3189-3208 | Counting nulls of the counted fields counts exactly the errors that reach the parent |
| GraphQLExecutor.Executor.RunField | pz12-rest-graphql/graph/generated.go:751-780 | The field function gives the specified value and adds exactly the specified errors, all at or below its path |
| GraphQLExecutor.Executor.MarshalItems | pz12-rest-graphql/graph/generated.go:3610-3652 | The list marshaller gives the specified value and errors whatever order its closures complete in |
| GraphQLExecutor.Executor.MarshalOne | pz12-rest-graphql/graph/generated.go:3654-3662 | A nil is reported if required and passed as null if optional; an object is completed by its type's function |
| GraphQLExecutor.Executor.RunObject | pz12-rest-graphql/graph/generated.go:3181-3228 | The object function fills its slots and is null exactly when a non-null field failed, with the specified errors |
| GraphQLExecutor.Executor.RunQuery | pz12-rest-graphql/graph/generated.go:3090-3177 | The query root, with its concurrent closures in any order, gives exactly the specified response and errors |
| GraphQLSchedules.ValueOnce | pz12-rest-graphql/graph/generated.go:3654-3662 | Completing a value reports no path twice, and only paths at or below its own |
| GraphQLSchedules.AnyInterleaving | pz12-rest-graphql/graph/generated.go:3107-3163 | However closures interleave at every check and report on the shared log, they leave each closure's value, exactly their errors, and a positive count exactly when one raised an error |
| GraphQLSchedules.ListAnyInterleaving | pz12-rest-graphql/graph/generated.go:3610-3652 | Likewise for the closures of a list: the specified array and errors |
| GraphQLSchedules.RootAnyInterleaving | pz12-rest-graphql/graph/generated.go:3090-3177 | However the query root's closures and the goroutines of lists inside them interleave at their log accesses, the response is the specified one |
| GraphQLReadings.DeviationIsNilSlice | pz12-rest-graphql/graph/generated.go:767-779 | A value completes as specified with every nil a null if and only if it is not a nil slice for a required list |
| GraphQLReadings.StrictExactly | pz12-rest-graphql/graph/generated.go:767-779 | A response equals the one specified with every nil a null if and only if the query reaches no required list answered with a nil slice; the strict errors are the executor's plus one at each such field |
| GraphQLReadings.StrictWithoutNilLists | pz12-rest-graphql/graph/generated.go:3610-3652 | With resolvers that return no such slice every response is the strict one |
| GraphQLTasks.ResolveTasks | pz12-rest-graphql/graph/schema.resolvers.go:40-47 | The resolver's loop returns the stored tasks in order, and never a nil slice |
| GraphQLTasks.ResolveTask | pz12-rest-graphql/graph/schema.resolvers.go:50-59 | A pointer to the first stored task with the id, or nil exactly when there is none |
| GraphQLTasks.TaskResolverTyped | pz12-rest-graphql/graph/schema.resolvers.go:40-80 | The task resolvers return values of their Go types and no nil slice for a required list |
| GraphQLTasks.TaskIsProjection | pz12-rest-graphql/graph/generated.go:3181-3228 | A task answers, without errors, its REST record restricted to the selected fields in selection order |
| GraphQLTasks.RestGetReads | pz12-rest-graphql/internal/rest/handler.go:30-42 | GET answers 200 with the record of the first task that has the id, the description omitted if it has none, and 404 exactly when there is none |
| GraphQLTasks.RestListReads | pz12-rest-graphql/internal/rest/handler.go:25-28 | GET of the list answers 200 with the records of all tasks in store order |
| GraphQLTasks.FromRestReads | pz12-rest-graphql/graph/schema.resolvers.go:40-59 | `tasks` answers the selected fields of every stored task in order, `task` those of the first one with the given id or null, each field under its key |
| GraphQLTasks.QueryIsProjection | pz12-rest-graphql/internal/rest/handler.go:25-42 | In every store state and every valid query the data is an object whose members about tasks are, without errors, the projections of the REST replies (same list order, 404 as null, omitted description as null), and so the selected fields of the stored tasks |
| GraphQLMutations.RunMutation | pz12-rest-graphql/graph/generated.go:3027-3086 | The mutation root applies its fields' writes to the store as a left fold, each field having the effect its arguments ask for on the state its predecessors left |
| GraphQLMutations.RunWrite | pz12-rest-graphql/graph/schema.resolvers.go:16-37 | One mutation field writes once and completes over the task its write returned, with the effect its arguments ask for |
| GraphQLMutations.FieldOutcome | pz12-rest-graphql/graph/generated.go:566-725 | A mutation field fails with one error at its key exactly when its task is not found, and otherwise answers without errors |
| GraphQLMutations.FieldHasEffect | pz12-rest-graphql/graph/schema.resolvers.go:16-37 | In terms of its arguments: createTask appends the task it answers, updateTask writes the given fields of the first task with its id, deleteTask takes that task out and answers true; with no such task the field fails and nothing changes |
| GraphQLMutations.OperationSteps | pz12-rest-graphql/graph/generated.go:3027-3086 | The fields of an operation take the store through a chain of states, each field with that effect on the state before it |
| GraphQLMutationLaws.OperationOutcome | pz12-rest-graphql/graph/generated.go:3035-3072 | The data is null if and only if some field fails in the state its predecessors left; the errors are one per failing field |
| GraphQLMutationLaws.EffectsRemain | pz12-rest-graphql/internal/store/store.go:64-96 | The store after an operation is the one its succeeding writes alone leave |
| GraphQLMutationLaws.DeleteTakesFirst | pz12-rest-graphql/graph/schema.resolvers.go:31-37 | deleteTask fails exactly when no stored task has its id; else it answers true, the first such task is gone and all others stay in order |
| GraphQLMutationLaws.RestCreateEffect | pz12-rest-graphql/internal/rest/handler.go:44-59 | POST answers 400 and stores nothing for an empty title, else 201 with the record of the task it appended |
| GraphQLMutationLaws.RestPatchEffect | pz12-rest-graphql/internal/rest/handler.go:61-78 | PATCH answers 404 and changes nothing for an unknown id, else 200 with the record of the first such task, the given fields written |
| GraphQLMutationLaws.CreateAgreesUnlessEmpty | pz12-rest-graphql/internal/rest/handler.go:44-59 | createTask stores and answers what POST does if and only if the title is not empty |
| GraphQLMutationLaws.UpdateAgrees | pz12-rest-graphql/internal/rest/handler.go:61-78 | updateTask stores and answers what PATCH does, an error at its key for a 404 |

## Left out

- TaskRepo.PagesPartition: page times limit is unbounded, while Go's int wraps around; stated for products that fit.
- GraphQLExecutor.Executor.MarshalItems: the marshallers' panic recovery, which sets a list to nil, is not modelled.
- JobWorker.Worker.Serve: the loop is stated over finite stretches, and deliveries with malformed JSON are not modelled, since every job comes from the API handler.
- JobWorker.Worker.ConsumeAll: the loop of the source never ends; this one stops at an empty queue with no submission arriving, and Serve covers the arrivals.
- JobWorker.Broker.PublishJob: connection loss is reduced to the outcomes stored, silently not stored, error with the message stored, and error with the message lost.
- JobWorker.PostProcessTask: the message id is a parameter that was never issued before, as a random UUID is assumed to be.
- GraphQLMutations.RunMutation: the operation's slots are a sequence value rather than an array, and a field's resolver runs before its completion starts, its answer being handed to the executor as a resolver.
- CacheStaleness.BoundedStaleness: a Redis command takes effect before its call returns; a write that a server applies after the client gave up is not modelled.
- CacheModel: JSON encoding is a codec that never takes a task for the marker; an encoding error acts as a failed write; a stored payload of the other kind does not decode.
- Repository calls are atomic in the cached service, although the repository has no lock and a data race is possible there.
- Base times to live are positive in the agreement laws; Redis rejects or ignores other values.
- Error messages, log lines and HTTP headers; an error is its path, a REST error its status and message.
- Argument and input coercion, query parsing, validation, field collection, directives and deferred groups; a selection is given collected and valid, with distinct response keys.
- REST request bodies that do not decode, answered 400 before the store is reached; a handler starts from the decoded body.
- Resolvers of introspection types; the laws hold for any of them that return values of their Go types.
- One query operation sees one state of the store; writes by other requests between its two root closures are not modelled.
- The nil-slice reading is that of the generated marshallers; introspection is the only source of such slices here.
- Authorization beyond a yes or no, configuration, signals, network and process start-up.
- The copy of the executor and store in pz11-graphql, and the other course projects, whose invariants hold within one step.
