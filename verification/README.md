# A Dafny model of the workbench coordination core

This project models the core of the workbench library. A workbench is a registry
that hands out one *work* per *workload*. Work stages are workloads whose works
start in a fixed order. They are coordinated through per-key FIFO queues that
all stages of one workbench share.

The library is asynchronous. Its decisions are nevertheless small state
machines. The model turns every asynchronous step into an explicit event on an
immutable state: a call, a promise settling, a supply going off. Each event is a
pure function with a contract. Lemmas relate several events.

Files and modules:

- `wrappers.dfy` (`Wrappers`): `Option` and `Result`.
- `supplies.dfy` (`Supplies`): a supply is `On` or `Off(reason)`. A `None`
  reason is a graceful completion.
- `workload.dfy` (`Workloads`): workloads, their names and their `toString`.
  This includes the `WorkStage` overrides.
- `work_done_error.dfy` (`WorkDoneErrors`, `Tasks`): `WorkDoneError`, its
  default message, and task outcomes.
- `sequences.dfy` (`Sequences`): order-preserving `Filter` and `Position`, with
  lemmas about them.
- `ordered_tasks.dfy` (`OrderedTasks`): `TaskQueue` and `OrderedTasks.runAfter`.
- `work_ordering.dfy` (`WorkOrdering`): the singleton ordering workload.
- `workbench.dfy` (`Workbenches`): the `Workbench$` registry, run checks, and
  cut-offs.
- `quiescence.dfy` (`Quiescence`): the generation chain that decides when a
  stage turns itself off.
- `work_stage.dfy` (`WorkStages`): the state one stage work keeps, including its
  start procedure and its tasks.
- `stages.dfy` (`Stages`): the whole system. It holds the workbench, every stage
  work and the shared ordering queues. Every event is proved to keep one
  invariant, `Stages.Valid`.

Where the design description and the code disagree, the model follows the code:

- A stage that runs out of tasks turns its supply off with no reason, even when
  a task failed. Task failures are swallowed in the tail, and `off()` is called
  without an argument (src/stages/work-stage.ts:22-26).
- An ordering entry whose actor is cut off while it waits is spliced out of its
  queue. The head entry is never removed (src/stages/ordered-tasks.impl.ts:67-80).

Modelling choices:

- Object identity is explicit. A workload carries an `id`. A work instance is an
  index into the workbench's list of every work ever allocated.
- Hand-off bodies run when their queue entry starts. The model assumes the
  default (direct) runner for the ordering work. With that runner the body
  begins synchronously whenever the workbench is live.
- A hand-off entry settles only once its stage is off. At that point its body's
  wait for `whenDone` is over, or the body never ran.

## Model

| member | source | states |
|---|---|---|
| Supplies.Needs | src/workbench.impl.ts:53 | A dependent supply goes off, with the dependency's reason, as soon as its dependency is off; otherwise it is unchanged |
| Supplies.CutOff | src/stages/ordered-tasks.impl.ts:58 | The first cut-off of a supply decides its reason; cutting an off supply changes nothing |
| Workloads.NewWorkload | src/workload.ts:32-35 | The constructor keeps the name and the allocator unchanged |
| Workloads.WorkName | src/workload.ts:46-48 | A plain workload's work name is `The work of <name>`; a stage's is `The <name> stage`; the work argument plays no part |
| Workloads.BaseWorkNameRecoversName | src/workload.ts:46-48 | The inherited work name is the fixed 12-character prefix followed by exactly the workload name |
| Workloads.StageWorkNameRecoversName | src/stages/work-stage.ts:84-86 | The stage work name is `The `, then exactly the stage name, then ` stage` |
| Workloads.ToStringRecoversName | src/workload.ts:50-52 | `toString` is `Workload(<name>)` for plain workloads and `WorkStage(<name>)` for stages, with the name recoverable |
| Workloads.WorkNameInjective | src/workload.ts:46-48 | Workloads of the same kind with different names have different work names |
| WorkDoneErrors.NewWorkDoneError | src/work-done-error.ts:16-24 | The error keeps workload, work and reason unchanged; an explicit message replaces the default one |
| WorkDoneErrors.DefaultMessageShape | src/work-done-error.ts:20-22 | The default message is the work name followed by ` already done` for a graceful end, or by ` already terminated (<reason>)` for a failure |
| WorkDoneErrors.DefaultMessageDistinguishesReasons | src/work-done-error.ts:20-22 | Different reasons, including none versus some, give different default messages |
| OrderedTasks.RunningIsHead | src/stages/ordered-tasks.impl.ts:38-43 | The only started-but-unsettled entry of a valid queue is its head, so at most one task per queue runs |
| OrderedTasks.StartsOnce | src/stages/ordered-tasks.impl.ts:90-97 | No entry of a valid queue is started twice |
| OrderedTasks.StartedWereEnqueued | src/stages/ordered-tasks.impl.ts:65 | Only pushed entries are ever started |
| OrderedTasks.RunNext | src/stages/ordered-tasks.impl.ts:90-97 | `_runNext` starts the head, if any, and its waiting caller adopts the task's promise; nothing else changes |
| OrderedTasks.Reject | src/stages/ordered-tasks.impl.ts:78 | Only a caller that is still waiting is rejected with the cut-off reason; a caller already resolved keeps its state |
| OrderedTasks.OnEntryOff | src/stages/ordered-tasks.impl.ts:67-80 | The internal "done" marker changes nothing; an actor cut-off splices the entry out only when it waits behind the head, and rejects its waiting caller |
| OrderedTasks.Enqueue | src/stages/ordered-tasks.impl.ts:48-88 | The enqueue keeps the queue invariant and equals `Admitted`, the case-by-case reference: into an empty queue the entry starts at once; behind a head it waits, or is cancelled on the spot when its actor is already off |
| OrderedTasks.EnqueueSpec | src/stages/ordered-tasks.impl.ts:65-86 | The entry is pushed last; it starts exactly when the queue was empty, and nothing else starts or settles; existing entries keep their order; an actor already off rejects the caller with its reason; other callers are untouched |
| OrderedTasks.EnqueueCancels | src/stages/ordered-tasks.impl.ts:71-76 | An enqueue splices out only the new entry, and only when its actor is off and the queue is busy |
| OrderedTasks.Settle | src/stages/ordered-tasks.impl.ts:55-61 | The settled head is shifted off and recorded as settled; the next entry starts; the head's adopted caller ends with exactly the task's outcome; every other caller is unchanged |
| OrderedTasks.Cut | src/stages/ordered-tasks.impl.ts:67-80 | A waiting entry is spliced out with the other entries keeping their order, and its caller is rejected with the reason; the running head and a settled entry leave the queue unchanged |
| OrderedTasks.PredecessorsSettled | src/stages/ordered-tasks.impl.ts:54-61 | Once an entry has started, every entry pushed before it that was not spliced out has settled: tasks start in enqueue order |
| OrderedTasks.RunAfter | src/stages/ordered-tasks.impl.ts:16-30 | A key's queue is created only when it has none and reused afterwards; the other keys' queues are untouched |
| OrderedTasks.QueueOf | src/stages/ordered-tasks.impl.ts:22-27 | The queue of a key is the stored one if any, a fresh empty one otherwise |
| OrderedTasks.EnqueueAsWritten | src/stages/ordered-tasks.impl.ts:82-86 | The enqueue as written; with a live actor it starts the entry exactly when the queue was empty |
| OrderedTasks.EnqueueAsWrittenRestartsHead | src/stages/ordered-tasks.impl.ts:82-86 | As written, enqueueing behind a lone running entry with an actor already off starts the running entry a second time and breaks the queue invariant |
| WorkOrdering.Start | src/stages/work-ordering.impl.ts:13-15 | The ordering allocator returns a valid set of queues with no key queued |
| WorkOrdering.OrderingNames | src/stages/work-ordering.impl.ts:9-12 | The ordering workload is named `ordering`, so its work is `The work of ordering` and it prints as `Workload(ordering)` |
| Stages.OneOrderingWork | src/stages/work-ordering.impl.ts:7-17 | Within a workbench, every work of the ordering kind is the one ordering work the system keeps, for the one `WorkOrdering.$` workload |
| Workbenches.Create | src/workbench.impl.ts:20-33 | A new workbench has an empty registry, is off exactly when its given supply is already off (with that reason), and uses the custom runner exactly when one is given |
| Workbenches.DefaultWorkbench | src/workbench.ts:22-24 | An example, not a property: the workbench built from the empty options (which is also what no argument means) is live, empty and uses the default runner |
| Workbenches.Launch | src/workbench.impl.ts:63-72 | Tasks submitted during `start` before any self cut-off reach the runner, in order, once the work is registered, each with the new work and the workload |
| Workbenches.OnWorkOff | src/workbench.impl.ts:74-79 | The `whenOff` handler marks the work off and no longer accepting, removes exactly its workload from the registry, and leaves everything else alone |
| Workbenches.Register | src/workbench.impl.ts:59-70 | `setWork` registers the work under its workload and lets its `run` forward tasks |
| Workbenches.CutWork | src/workbench.impl.ts:74-79 | Cutting a live work disposes of it and leaves every other work and registration as it was; cutting an off work changes nothing |
| Workbenches.Work | src/workbench.impl.ts:36-89 | A stopped workbench throws `The workbench is stopped` with no work; a registered workload gets its work back with nothing run; otherwise the allocator starts; a `start` that throws fails the call with what it threw and registers nothing; one that returns gives exactly one new registered work, even when it cut itself off while starting; tasks submitted before that cut-off are launched, and each one submitted after it is rejected with a `WorkDoneError` naming no work and the cut-off reason |
| Workbenches.Run | src/workbench.impl.ts:42-52 | A registered work passes the task to the runner with `(task, work, workload)` or calls it directly; a disposed one rejects with its `WorkDoneError`; a live work always accepts |
| Workbenches.Finish | src/workbench.impl.ts:47-51 | A failure passes through unchanged; a value survives only while the work is live |
| Workbenches.CutFrom | src/workbench.impl.ts:53 | Every live work from an index on goes off with the reason; earlier or already-off works are unchanged |
| Workbenches.CutBench | src/workbench.impl.ts:24-31 | Stopping the workbench turns it and every live work off with the same reason; a second stop changes nothing |
| Workbenches.CachedWorkIsStable | src/workbench.impl.ts:37-39 | Obtaining a workload again returns the same work, without allocating or running anything |
| Workbenches.DisposedWorkIsReplaced | src/workbench.ts:36-45 | Once the registered work's supply is off, the next `work` call allocates a new, different work |
| Workbenches.StoppedBenchRefusesWork | src/workbench.impl.ts:24-29 | A stopped workbench refuses every workload with the first cut-off reason and no work |
| Workbenches.StoppedBenchFailsTasks | src/workbench.ts:26-30 | After a stop, a formerly live work rejects new tasks and replaces in-flight results with its `WorkDoneError` |
| Workbenches.InFlightResultReplaced | src/workbench.impl.ts:42-52 | An accepted task's value comes back unchanged while the work is live, and is replaced by the work's `WorkDoneError` once it is cut off |
| Workbenches.DisposedWorkRejects | src/workbench.impl.ts:74-77 | A disposed work rejects a new task with the error naming its workload, itself and the reason |
| Workbenches.ThrowingStartRetried | src/workbench.impl.ts:53-88 | A throwing `start` fails the call with what it threw and leaves the workload unregistered, so the next call allocates a new work at the same index |
| Workbenches.LateTasksRejected | src/workbench.impl.ts:74-88 | After a self cut-off during `start`, the runner sees only the tasks submitted before it; each later one fails with the workload, no work and the cut-off reason, while `run` accepts tasks again once `start` returned |
| Workbenches.SelfCutWorkStaysCached | src/workbench.impl.ts:74-88 | A work whose allocator cut it off while starting stays registered and is handed out again; it still accepts tasks but every value is replaced by an error |
| Quiescence.Initial | src/stages/work-stage.ts:15 | A fresh tail has nothing added and nothing pending |
| Quiescence.Add | src/stages/work-stage.ts:17-23 | Adding a promise makes a new last generation, pending until it settles; nothing that already fired changes |
| Quiescence.Settle | src/stages/work-stage.ts:22 | A settled promise, value or failure, stops being pending, and nothing else changes |
| Quiescence.Fire | src/stages/work-stage.ts:24-28 | A firing turns the stage off exactly when it is the last generation added, which requires every added promise to have settled; every generation up to the fired one has settled |
| Quiescence.Drain | src/stages/work-stage.ts:19-28 | Running every possible firing turns the stage off exactly when nothing is pending and something was still to fire; the chain stops at the first pending generation |
| Quiescence.LateAddPostpones | src/stages/work-stage.ts:19-27 | A promise added before the last firing postpones the cut-off until the new generation settles and fires |
| WorkStages.NewStage | src/stages/work-stage.ts:84-90 | A stage's work is named `The <name> stage` and it prints as `WorkStage(<name>)` |
| WorkStages.DepKeys | src/stages/work-stage.ts:45-50 | The hand-off keys are the `after` stage when given, then always the stage itself |
| WorkStages.Fresh | src/stages/work-stage.ts:15 | A new stage has not started and holds no task |
| WorkStages.Begin | src/stages/work-stage.ts:52-58 | The first `run` asks for the start procedure once; its promise joins the tail and stays pending |
| WorkStages.BeginFailed | src/stages/work-stage.ts:33-43 | When no hand-off can be made, the start fails with that failure, and its settled promise still joins the tail |
| WorkStages.AddTask | src/stages/work-stage.ts:69-76 | Each `run` gives its task a fresh generation that is pending until the task finishes |
| WorkStages.Advance | src/stages/work-stage.ts:52-56 | Once the hand-offs are through, the hook runs if there is one; otherwise the start is done |
| WorkStages.HookSettled | src/stages/work-stage.ts:53-55 | The hook's failure becomes the start's failure; its success starts the stage |
| WorkStages.LaunchTask | src/stages/work-stage.ts:71 | After a failed start a task fails the same way; after a successful one it is handed to the work, which runs or rejects it |
| WorkStages.Finish | src/stages/work-stage.ts:71-75 | A finished task's outcome is what its caller sees, and its generation stops being pending |
| WorkStages.FireTail | src/stages/work-stage.ts:24-28 | When the tail turns the stage off, the start procedure has settled and every task has finished |
| WorkStages.OffMeansSettled | src/stages/work-stage.ts:17-28 | Nothing pending means the start procedure settled and every task finished |
| Stages.Initial | src/workbench.ts:22-24 | A new workbench with no works, stages or queues satisfies the system invariant |
| Stages.Obtain | src/workbench.impl.ts:36-89 | Obtaining a stage yields the registered work or a fresh idle stage work, keeps the invariant, and is refused by a stopped workbench |
| Stages.EnsureOrdering | src/stages/work-stage.ts:35-36 | The ordering work is obtained once per workbench and reused afterwards; it is live and registered |
| Stages.HandOffStep | src/stages/work-stage.ts:33-43 | A hand-off joins the back of its key's queue with the stage's supply as actor, and begins at once exactly when that queue was idle; every other key's queue, and the stage's hand-offs on other keys, are left as they were |
| Stages.BeginStage | src/stages/work-stage.ts:30-36 | Starting asks for the start procedure and obtains the ordering work before any hand-off is queued |
| Stages.HandOffAfter | src/stages/work-stage.ts:45-49 | The `after` hand-off, when there is one, is queued behind the `after` stage's key; the stage's own key is untouched |
| Stages.StartStage | src/stages/work-stage.ts:30-62 | Starting on a live workbench moves the stage to awaiting its hand-offs, runs the start once, and keeps the invariant |
| Stages.StartHandsOff | src/stages/work-stage.ts:45-50 | On each of its keys the starting stage's hand-off is pushed last, and it begins at once exactly when that queue was idle |
| Stages.StartRefused | src/stages/work-stage.ts:33-43 | On a stopped workbench the start fails at once with the ordering workload's `The workbench is stopped` error, and no queue changes |
| Stages.StartOnce | src/stages/work-stage.ts:59 | The start procedure runs once; every later `run` leaves the system as it is |
| Stages.StageRun | src/stages/work-stage.ts:69-76 | `run(task)` starts the stage if needed and adds the task as a new pending generation that waits for the start; the rest of the stage is unchanged |
| Stages.Advance | src/stages/work-stage.ts:52-56 | Once all of a stage's hand-offs have begun, the hook starts, or the stage is started |
| Stages.HookSettles | src/stages/work-stage.ts:53-55 | The settled hook decides the stage's start, keeping the invariant |
| Stages.LaunchTask | src/stages/work-stage.ts:71 | A task runs exactly when the stage work still accepts it; otherwise it fails with the start's failure or the work's `WorkDoneError` |
| Stages.TaskSettles | src/stages/work-stage.ts:71-75 | A running task ends with its outcome, replaced by the work's error if the work went off meanwhile |
| Stages.CutOne | src/stages/ordered-tasks.impl.ts:67-80 | A work's cut-off disposes of it and splices its waiting hand-offs out of every queue it is on; the running heads stay; no waiting entry belongs to it afterwards |
| Stages.StageCut | src/workbench.impl.ts:74-79 | Cutting a stage work off keeps the invariant and leaves none of its hand-offs waiting |
| Stages.TailFires | src/stages/work-stage.ts:24-28 | A stage turns itself off, with no reason, only after its start settled and all its tasks finished; otherwise only the tail moves |
| Stages.CutEach | src/workbench.impl.ts:53 | Every work from an index on is cut off in allocation order, keeping the core invariant |
| Stages.StopBench | src/workbench.impl.ts:24-31 | Stopping the workbench stops every work; afterwards no hand-off waits in any queue; a second stop changes nothing |
| Stages.HandOffOutcome | src/stages/work-stage.ts:37-40 | The ordering task's outcome is a value exactly when the body ran, the stage ended without a reason and the workbench is live |
| Stages.HandOffSettles | src/stages/ordered-tasks.impl.ts:55-61 | A settled hand-off leaves its queue and the next one starts, and begins on a live workbench, whatever the previous stage's outcome |
| Stages.EarlierHandOffsEnded | src/stages/work-stage.ts:37-40 | Once a hand-off has started, the stage of every hand-off queued before it on that key has ended |
| Stages.StageWaitsForPredecessors | src/stages/work-stage.ts:52-56 | A stage is past its hand-offs only after every stage queued before it on any of its keys has ended |
| Stages.TasksRunAfterPredecessors | src/stages/work-stage.ts:71 | A running task belongs to a started stage, and every stage queued before it on its keys has ended |

## Left out

- The JavaScript event loop and promise interleaving. Every settlement is an
  explicit event, and any order the invariant allows is accepted.
- The internals of the supply library: listeners, `whenOff` ordering,
  `valueProvider`, and `needs`/`cuts` beyond their effect on on/off state.
- Task bodies and custom runners are opaque. A result is any `Ok(value)` or
  `Err(failure)` passed in as an event parameter. A task value is an `int`, and
  the `undefined` of a hand-off's `whenDone` is `0`.
- Custom runners for the ordering work. The hand-off events assume the direct
  runner, which starts the body synchronously.
- Reasons are `Option<string>`. Interpolating an arbitrary value into a message
  is not modelled.
- `WorkDoneError` being a `TypeError` subclass: there is no class hierarchy.
- Workloads other than stages and the ordering workload inside `Stages`. Plain
  workloads are modelled in `Workbenches.Work` only.
- Stages.HandOffSettles: a hand-off spliced out while waiting never resolves, so
  that stage's start hangs. The stage may have been cut before its first run or
  after it, while its hand-off still waited. The model does not
  state that liveness gap; it states only what happens when a run does proceed.
- Stages.StopBench: it does not state the outcome of each caller rejected during
  the stop. Those outcomes follow from `OrderedTasks.Cut` applied per queue.
- Workbenches.Work: when `start` throws, the call fails and nothing is registered,
  but the fate of the tasks submitted during that `start` is not returned. Those
  submitted before any self cut-off wait forever for a work that never comes;
  later ones are rejected as in a `start` that returns. The work's own supply,
  left on and tied to the workbench, is not recorded either.
- Workbenches.Work: an allocator whose `start` calls `work` for its own workload
  again, or cuts off the workbench itself, cannot be expressed by `Allocation`.
- A stage's `after` and `start` are fixed when the stage is constructed. The
  library reads them from the caller's allocator object when the stage first
  starts, so a mutable object can make a stage come after itself or close a
  cycle of `after` stages, which deadlocks the start. A stage value that
  contains itself cannot be represented, so that case is not modelled.
- Shared use of a workload across workbenches: workloads are immutable values,
  so nothing connects two workbenches.

## Findings

| source | as written | input that shows it | evidently intended | confidence | as-written member | corrected member |
|---|---|---|---|---|---|---|
| src/stages/ordered-tasks.impl.ts:82-86 | The new entry is started when the queue holds exactly one entry after the push *and* after the cut-off handler ran | Any valid queue whose only entry is running; a further entry is enqueued with an actor that is already off. The handler splices the new entry out, the length is 1 again, and `_runNext` starts the running entry a second time | Start the new entry only when the queue was empty before the push | not executed; the handler runs synchronously for an actor already off | OrderedTasks.EnqueueAsWrittenRestartsHead | OrderedTasks.Enqueue |

In the library this input arises when a stage is cut off before its first `run`
while the stage it comes after is still running its hand-off and nothing else
waits on that key. The model uses the
corrected `OrderedTasks.Enqueue` throughout.
