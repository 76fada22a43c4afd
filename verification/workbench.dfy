/**
 * The workbench: a registry from workload to its current work instance, the
 * supply that ends all works at once, and the runner every task goes through.
 *
 * A work is identified by its index in `works`, the list of every work instance
 * ever allocated; `cache` maps a workload to the index of its registered work.
 * Each work keeps its own supply and whether its `run` still forwards tasks to
 * the runner (`accepting`). A task's result is checked again when the runner
 * returns it: it is replaced by a `WorkDoneError` once the work's supply is off.
 */
module Workbenches {
  import opened Wrappers
  import opened Supplies
  import opened Workloads
  import opened WorkDoneErrors
  import opened Tasks

  /** How tasks are run: the default runner calls the task directly; a custom one
      is the `run` option, known only by an identifier. */
  datatype Runner = DirectRunner | CustomRunner(id: nat)

  /** `Workbench.Options`: an optional supply to follow, an optional runner. */
  datatype Options = Options(supply: Option<Supply>, run: Option<nat>)

  /** The options used by `new Workbench()`. */
  const NoOptions: Options := Options(None, None)

  /** What running a task amounts to: calling the task itself, or calling the
      custom runner with the task, the work and the workload. */
  datatype Invocation =
    | Invoke(task: TaskId)
    | RunnerCall(runner: nat, task: TaskId, work: nat, workload: Workload)

  /** One work instance: its workload, its allotment supply, and whether its
      `run` still hands tasks to the runner. */
  datatype WorkRec = WorkRec(workload: Workload, supply: Supply, accepting: bool)

  /** The workbench: its own supply, the supply it was given (which it needs and
      cuts), the runner, the registry and every work allocated so far. */
  datatype Bench = Bench(
    supply: Supply,
    given: Option<Supply>,
    runner: Runner,
    cache: map<Workload, nat>,
    works: seq<WorkRec>)

  /** An allocator cutting off its own supply while its `start` runs: the reason,
      and the tasks it submits through the allotment after the cut-off. A second
      cut-off changes nothing, so the first one is all that matters. */
  datatype SelfCut = SelfCut(reason: Reason, late: seq<TaskId>)

  /** What a workload's allocator does while its `start` runs: the tasks it submits
      through the allotment first, whether it then cuts off its own supply, and
      whether `start` finally throws (with the text of what it throws) instead of
      returning a work. */
  datatype Allocation = Allocation(early: seq<TaskId>, selfCut: Option<SelfCut>, thrown: Option<string>)

  /** The result of `workbench.work(workload)`: the new workbench state, the work,
      the runner calls made for the tasks submitted during `start` before any
      self cut-off, and the failures of those submitted after it. */
  datatype Obtained = Obtained(bench: Bench, work: nat, launched: seq<Invocation>, rejected: seq<Failure>)

  /** The tasks an allocator submits after cutting off its own supply. */
  function Late(alloc: Allocation): seq<TaskId>
  {
    if alloc.selfCut.Some? then alloc.selfCut.value.late else []
  }

  /** The supply of a work when its allocator's `start` returns. */
  function Allotted(alloc: Allocation): Supply
  {
    if alloc.selfCut.Some? then Off(alloc.selfCut.value.reason) else On
  }

  /** The message of the error thrown by a stopped workbench. */
  const StoppedMessage: string := "The workbench is stopped"

  /** Whether work `i` is the one registered for its workload. */
  predicate Cached(b: Bench, i: nat)
    requires i < |b.works|
  {
    b.works[i].workload in b.cache && b.cache[b.works[i].workload] == i
  }

  /** The invariant of a workbench:
      - the registry maps each workload to one of its own works;
      - a work accepts tasks exactly while it is registered;
      - a live work accepts tasks;
      - a stopped workbench has no live work;
      - the workbench is off exactly when the supply it was given is. */
  ghost predicate Valid(b: Bench)
  {
    && (forall w :: w in b.cache ==> b.cache[w] < |b.works| && b.works[b.cache[w]].workload == w)
    && (forall i :: 0 <= i < |b.works| ==> (b.works[i].accepting <==> Cached(b, i)))
    && (forall i :: 0 <= i < |b.works| && b.works[i].supply.On? ==> b.works[i].accepting)
    && (b.supply.Off? ==> forall i :: 0 <= i < |b.works| ==> b.works[i].supply.Off?)
    && (b.given.Some? ==> (b.given.value.Off? <==> b.supply.Off?))
  }

  /** `new Workbench(options)`: an empty registry; the workbench supply needs the
      given one, so a workbench given a supply that is already off is stopped
      from the start, with that supply's reason. */
  function Create(options: Options): (b: Bench)
    ensures Valid(b)
    ensures b.cache == map[] && b.works == []
    ensures b.supply.Off? <==> (options.supply.Some? && options.supply.value.Off?)
    ensures b.supply.Off? ==> b.supply == options.supply.value
    ensures options.run.None? ==> b.runner == DirectRunner
    ensures options.run.Some? ==> b.runner == CustomRunner(options.run.value)
  {
    var supply := if options.supply.Some? then Needs(On, options.supply.value) else On;
    Bench(supply, options.supply, if options.run.Some? then CustomRunner(options.run.value) else DirectRunner, map[], [])
  }

  /** The runner call for one task of work `work`. */
  function Dispatch(runner: Runner, task: TaskId, work: nat, workload: Workload): Invocation
  {
    match runner
    case DirectRunner => Invoke(task)
    case CustomRunner(id) => RunnerCall(id, task, work, workload)
  }

  /** The runner calls for the tasks a work's allocator submitted while starting
      and before cutting off its own supply: all of them, in submission order,
      once the work is registered. */
  function Launch(runner: Runner, early: seq<TaskId>, work: nat, workload: Workload): (r: seq<Invocation>)
    ensures |r| == |early|
    ensures forall k :: 0 <= k < |early| ==> r[k] == Dispatch(runner, early[k], work, workload)
  {
    if early == [] then []
    else Launch(runner, early[..|early| - 1], work, workload) + [Dispatch(runner, early[|early| - 1], work, workload)]
  }

  /** The `whenOff` handler of work `id`: its `run` and its result check start to
      fail, and its workload is removed from the registry. */
  function OnWorkOff(b: Bench, id: nat, reason: Reason): (r: Bench)
    requires id < |b.works|
    ensures |r.works| == |b.works|
    ensures r.works[id] == WorkRec(b.works[id].workload, Off(reason), false)
    ensures forall i :: 0 <= i < |b.works| && i != id ==> r.works[i] == b.works[i]
    ensures b.works[id].workload !in r.cache
    ensures forall w :: w in r.cache <==> w in b.cache && w != b.works[id].workload
    ensures forall w :: w in r.cache ==> r.cache[w] == b.cache[w]
    ensures r.supply == b.supply && r.given == b.given && r.runner == b.runner
  {
    var rec := b.works[id];
    b.(works := b.works[id := WorkRec(rec.workload, Off(reason), false)], cache := b.cache - {rec.workload})
  }

  /** `setWork`: registers the allocated work and lets its `run` forward tasks. */
  function Register(b: Bench, id: nat): (r: Bench)
    requires id < |b.works|
    ensures |r.works| == |b.works|
    ensures r.works[id] == b.works[id].(accepting := true)
    ensures forall i :: 0 <= i < |b.works| && i != id ==> r.works[i] == b.works[i]
    ensures r.cache == b.cache[b.works[id].workload := id]
    ensures r.supply == b.supply && r.given == b.given && r.runner == b.runner
  {
    b.(works := b.works[id := b.works[id].(accepting := true)], cache := b.cache[b.works[id].workload := id])
  }

  /** `work.supply.off(reason)`, applied to the supply of work `id`: the first
      cut-off disposes of the work; later ones change nothing. */
  function CutWork(b: Bench, id: nat, reason: Reason): (r: Bench)
    requires Valid(b) && id < |b.works|
    ensures Valid(r)
    ensures b.works[id].supply.Off? ==> r == b
    ensures b.works[id].supply.On? ==>
      && |r.works| == |b.works|
      && r.works[id] == WorkRec(b.works[id].workload, Off(reason), false)
      && !Cached(r, id)
      && (forall i :: 0 <= i < |b.works| && i != id ==> r.works[i] == b.works[i] && (Cached(r, i) <==> Cached(b, i)))
    ensures r.supply == b.supply && r.given == b.given && r.runner == b.runner
  {
    if b.works[id].supply.Off? then b
    else
      var r := OnWorkOff(b, id, reason);
      CutWorkValid(b, id, reason, r);
      r
  }

  lemma CutWorkValid(b: Bench, id: nat, reason: Reason, r: Bench)
    requires Valid(b) && id < |b.works| && b.works[id].supply.On?
    requires r == OnWorkOff(b, id, reason)
    ensures Valid(r)
    ensures forall i :: 0 <= i < |b.works| && i != id ==> (Cached(r, i) <==> Cached(b, i))
  {
    var w := b.works[id].workload;
    assert Cached(b, id);
    forall i | 0 <= i < |b.works| && i != id
      ensures Cached(r, i) <==> Cached(b, i)
    {
      if b.works[i].workload == w {
        assert !Cached(b, i);
      }
    }
  }

  /** `workbench.work(workload)`:
      - a stopped workbench throws a `WorkDoneError` with no work, the workbench's
        cut-off reason and the message `The workbench is stopped`;
      - a registered workload gets its registered work back, and nothing changes;
      - otherwise the allocator's `start` runs; when it throws, the call fails
        with what it threw and nothing is registered, so the next call starts a
        new allocation;
      - when `start` returns, exactly one new work is registered under the
        workload before it is returned, even when the allocator cut its supply
        off while starting, and every other registration is kept;
      - the tasks submitted during `start` before such a cut-off go to the runner
        once the work is registered; those submitted after it never do: each is
        rejected at once with a `WorkDoneError` naming the workload, no work (it
        is not set yet) and the cut-off reason. */
  function Work(b: Bench, w: Workload, alloc: Allocation): (r: Result<Obtained, Failure>)
    requires Valid(b)
    ensures r.Ok? ==> Valid(r.value.bench)
    ensures b.supply.Off? ==> r == Err(Done(NewWorkDoneError(w, None, b.supply.reason, Some(StoppedMessage))))
    ensures b.supply.On? && w in b.cache ==> r == Ok(Obtained(b, b.cache[w], [], []))
    ensures b.supply.On? && w !in b.cache && alloc.thrown.Some? ==> r == Err(Thrown(alloc.thrown.value))
    ensures b.supply.On? && w !in b.cache && alloc.thrown.None? ==>
      && r.Ok?
      && r.value.work == |b.works|
      && r.value.bench.works == b.works + [WorkRec(w, Allotted(alloc), true)]
      && r.value.bench.cache == b.cache[w := r.value.work]
      && r.value.bench.supply == b.supply && r.value.bench.runner == b.runner && r.value.bench.given == b.given
      && r.value.launched == Launch(b.runner, alloc.early, r.value.work, w)
      && |r.value.rejected| == |Late(alloc)|
      && (forall k :: 0 <= k < |r.value.rejected| ==>
            r.value.rejected[k] == Done(NewWorkDoneError(w, None, alloc.selfCut.value.reason, None)))
  {
    if b.supply.Off? then
      Err(Done(NewWorkDoneError(w, None, b.supply.reason, Some(StoppedMessage))))
    else if w in b.cache then
      Ok(Obtained(b, b.cache[w], [], []))
    else if alloc.thrown.Some? then
      Err(Thrown(alloc.thrown.value))
    else
      var id := |b.works|;
      var allotted := b.(works := b.works + [WorkRec(w, Needs(On, b.supply), false)]);
      var started := if alloc.selfCut.Some? then OnWorkOff(allotted, id, alloc.selfCut.value.reason) else allotted;
      var registered := Register(started, id);
      AllocateValid(b, w, alloc, registered);
      var rejected := if alloc.selfCut.Some? then
        seq(|alloc.selfCut.value.late|, _ => Done(NewWorkDoneError(w, None, alloc.selfCut.value.reason, None)))
      else [];
      Ok(Obtained(registered, id, Launch(b.runner, alloc.early, id, w), rejected))
  }

  lemma AllocateValid(b: Bench, w: Workload, alloc: Allocation, r: Bench)
    requires Valid(b) && b.supply.On? && w !in b.cache
    requires r.works == b.works + [WorkRec(w, Allotted(alloc), true)]
    requires r.cache == b.cache[w := |b.works|]
    requires r.supply == b.supply && r.given == b.given
    ensures Valid(r)
  {
    forall i | 0 <= i < |b.works|
      ensures Cached(r, i) <==> Cached(b, i)
    {
      assert b.works[i].workload == w ==> !b.works[i].accepting;
    }
  }

  /** `allotment.run(task)` of work `id`: a work that is still registered hands the
      task to the runner; a disposed one rejects it with a `WorkDoneError` naming
      the work and its cut-off reason. A live work always accepts. */
  function Run(b: Bench, id: nat, task: TaskId): (r: Result<Invocation, Failure>)
    requires Valid(b) && id < |b.works|
    ensures r.Ok? <==> Cached(b, id)
    ensures b.works[id].supply.On? ==> r.Ok?
    ensures r.Ok? ==> r.value == Dispatch(b.runner, task, id, b.works[id].workload)
    ensures r.Err? ==> b.works[id].supply.Off?
    ensures r.Err? ==> r.error == Done(NewWorkDoneError(b.works[id].workload, Some(id), b.works[id].supply.reason, None))
  {
    var rec := b.works[id];
    if rec.accepting then Ok(Dispatch(b.runner, task, id, rec.workload))
    else Err(Done(NewWorkDoneError(rec.workload, Some(id), rec.supply.reason, None)))
  }

  /** The result check after the runner returned (`ensureWorking`): a failure
      passes through; a value survives only while the work is live. */
  function Finish(b: Bench, id: nat, outcome: Outcome): (r: Outcome)
    requires id < |b.works|
    ensures outcome.Err? ==> r == outcome
    ensures r.Ok? ==> r == outcome && b.works[id].supply.On?
  {
    var rec := b.works[id];
    if outcome.Err? || rec.supply.On? then outcome
    else Err(Done(NewWorkDoneError(rec.workload, Some(id), rec.supply.reason, None)))
  }

  /** Cuts off every live work from index `from` on, in index order. */
  function CutFrom(b: Bench, from: nat, reason: Reason): (r: Bench)
    requires Valid(b) && from <= |b.works|
    ensures Valid(r)
    ensures |r.works| == |b.works|
    ensures forall i :: 0 <= i < |b.works| && (i < from || b.works[i].supply.Off?) ==>
      r.works[i] == b.works[i] && (Cached(r, i) <==> Cached(b, i))
    ensures forall i :: from <= i < |b.works| && b.works[i].supply.On? ==>
      r.works[i] == WorkRec(b.works[i].workload, Off(reason), false)
    ensures r.supply == b.supply && r.given == b.given && r.runner == b.runner
    decreases |b.works| - from
  {
    if from == |b.works| then b
    else CutFrom(CutWork(b, from, reason), from + 1, reason)
  }

  /** `workbench.supply.off(reason)`, or the cut-off of the supply the workbench
      was given: the first one stops the workbench and cuts off every live work
      with the same reason, since each work supply needs the workbench supply;
      the given supply is cut off too. Later cut-offs change nothing. */
  function CutBench(b: Bench, reason: Reason): (r: Bench)
    requires Valid(b)
    ensures Valid(r)
    ensures b.supply.Off? ==> r == b
    ensures b.supply.On? ==>
      && r.supply == Off(reason)
      && |r.works| == |b.works|
      && (forall i :: 0 <= i < |b.works| && b.works[i].supply.On? ==>
            r.works[i] == WorkRec(b.works[i].workload, Off(reason), false))
      && (forall i :: 0 <= i < |b.works| && b.works[i].supply.Off? ==> r.works[i] == b.works[i])
    ensures forall i :: 0 <= i < |r.works| ==> r.works[i].supply.Off?
  {
    if b.supply.Off? then b
    else
      var cut := CutFrom(b, 0, reason);
      var given := if b.given.Some? then Some(CutOff(b.given.value, reason)) else None;
      var r := cut.(supply := Off(reason), given := given);
      assert forall i :: 0 <= i < |r.works| ==> (Cached(r, i) <==> Cached(cut, i));
      r
  }

  // ----------------------------------------------------------------------------
  // Properties across calls.

  /** A work is cached: obtaining the same workload again yields the same work,
      without calling the allocator and without running anything. */
  lemma CachedWorkIsStable(b: Bench, w: Workload, first: Allocation, second: Allocation)
    requires Valid(b) && Work(b, w, first).Ok?
    ensures var o := Work(b, w, first).value;
      Work(o.bench, w, second) == Ok(Obtained(o.bench, o.work, [], []))
  {
  }

  /** Once the supply of the registered work is cut off, the next `work` call
      allocates a new work instance. */
  lemma DisposedWorkIsReplaced(b: Bench, w: Workload, id: nat, reason: Reason, alloc: Allocation)
    requires Valid(b) && b.supply.On?
    requires w in b.cache && b.cache[w] == id && b.works[id].supply.On?
    ensures var after := CutWork(b, id, reason);
      && (alloc.thrown.None? ==>
            && Work(after, w, alloc).Ok?
            && Work(after, w, alloc).value.work != id
            && Work(after, w, alloc).value.work == |b.works|)
      && (alloc.thrown.Some? ==> Work(after, w, alloc) == Err(Thrown(alloc.thrown.value)))
  {
  }

  /** A stopped workbench refuses every workload, naming the first cut-off
      reason; the works it held are all off. */
  lemma StoppedBenchRefusesWork(b: Bench, reason: Reason, w: Workload, alloc: Allocation)
    requires Valid(b)
    ensures var stopped := CutBench(b, reason);
      var first := if b.supply.On? then reason else b.supply.reason;
      Work(stopped, w, alloc) == Err(Done(WorkDoneError(w, None, first, StoppedMessage)))
  {
  }

  /** Stopping the workbench terminates every current work: a task of a work that
      was live is rejected with that work's `WorkDoneError`, and the result of any
      task still in flight is replaced by one. */
  lemma StoppedBenchFailsTasks(b: Bench, reason: Reason, id: nat, task: TaskId, v: Value)
    requires Valid(b) && id < |b.works| && b.supply.On? && b.works[id].supply.On?
    ensures var stopped := CutBench(b, reason);
      var error := Done(NewWorkDoneError(b.works[id].workload, Some(id), reason, None));
      && Run(stopped, id, task) == Err(error)
      && Finish(stopped, id, Ok(v)) == Err(error)
  {
  }

  /** A task accepted by a live work and still in flight when the work is cut off
      runs to the end, but its value is replaced by the work's `WorkDoneError`;
      without the cut-off the value comes back unchanged. */
  lemma InFlightResultReplaced(b: Bench, id: nat, task: TaskId, reason: Reason, v: Value)
    requires Valid(b) && id < |b.works| && b.works[id].supply.On?
    ensures Run(b, id, task).Ok?
    ensures Finish(b, id, Ok(v)) == Ok(v)
    ensures Finish(CutWork(b, id, reason), id, Ok(v)) ==
      Err(Done(WorkDoneError(b.works[id].workload, Some(id), reason, DefaultMessage(b.works[id].workload, reason))))
  {
  }

  /** A disposed work rejects new tasks with a `WorkDoneError` naming the workload,
      the work and the cut-off reason. */
  lemma DisposedWorkRejects(b: Bench, id: nat, reason: Reason, task: TaskId)
    requires Valid(b) && id < |b.works| && b.works[id].supply.On?
    ensures Run(CutWork(b, id, reason), id, task) ==
      Err(Done(WorkDoneError(b.works[id].workload, Some(id), reason, DefaultMessage(b.works[id].workload, reason))))
  {
  }

  /** An allocator that cuts its own supply while starting leaves its work
      registered: the registry hands the dead work out again, the work still
      passes tasks to the runner, and every value they produce is replaced by a
      `WorkDoneError`. */
  lemma SelfCutWorkStaysCached(b: Bench, w: Workload, alloc: Allocation, second: Allocation, task: TaskId, v: Value)
    requires Valid(b) && b.supply.On? && w !in b.cache && alloc.selfCut.Some? && alloc.thrown.None?
    ensures var o := Work(b, w, alloc).value;
      && o.bench.works[o.work].supply == Off(alloc.selfCut.value.reason)
      && Cached(o.bench, o.work)
      && Work(o.bench, w, second) == Ok(Obtained(o.bench, o.work, [], []))
      && Run(o.bench, o.work, task).Ok?
      && Finish(o.bench, o.work, Ok(v)).Err?
  {
  }

  /** Of the tasks an allocator submits while starting, exactly those before its
      self cut-off reach the runner: the runner calls name only those tasks, in
      order. Each later one is rejected with the error the cut-off gives, whose
      message reports the reason; the same task submitted once `start` returned
      would be accepted again, since registering the work resets its `run`. */
  lemma LateTasksRejected(b: Bench, w: Workload, alloc: Allocation, task: TaskId)
    requires Valid(b) && b.supply.On? && w !in b.cache && alloc.selfCut.Some? && alloc.thrown.None?
    ensures var o := Work(b, w, alloc).value;
      && |o.launched| == |alloc.early|
      && (forall k :: 0 <= k < |o.launched| ==> o.launched[k].task == alloc.early[k])
      && |o.rejected| == |alloc.selfCut.value.late|
      && (forall k :: 0 <= k < |o.rejected| ==>
            o.rejected[k].Done? && o.rejected[k].error.workload == w && o.rejected[k].error.work.None?
            && o.rejected[k].error.reason == alloc.selfCut.value.reason
            && o.rejected[k].error.message == DefaultMessage(w, alloc.selfCut.value.reason))
      && Run(o.bench, o.work, task).Ok?
  {
    var o := Work(b, w, alloc).value;
    forall k | 0 <= k < |o.launched|
      ensures o.launched[k].task == alloc.early[k]
    {
      assert o.launched[k] == Dispatch(b.runner, alloc.early[k], o.work, w);
    }
  }

  /** A `start` that throws leaves no trace in the registry: the call fails with
      what `start` threw, the workload stays unregistered, and the next call for
      it allocates afresh, at the same index the failed one would have taken. */
  lemma ThrowingStartRetried(b: Bench, w: Workload, failing: Allocation, next: Allocation)
    requires Valid(b) && b.supply.On? && w !in b.cache
    requires failing.thrown.Some? && next.thrown.None?
    ensures Work(b, w, failing) == Err(Thrown(failing.thrown.value))
    ensures Work(b, w, next).Ok? && Work(b, w, next).value.work == |b.works|
    ensures Cached(Work(b, w, next).value.bench, |b.works|)
  {
  }

  /** The workbench `new Workbench()` builds: the model cannot tell a missing
      options argument from `{}`, so this is the value of `Create` for the empty
      options, an example rather than a property: a live workbench with an empty
      registry and the default runner. */
  lemma DefaultWorkbench()
    ensures Create(NoOptions) == Bench(On, None, DirectRunner, map[], [])
  {
  }
}
