/**
 * The state one work stage keeps about itself: where its one-shot start
 * procedure is, the tasks submitted through its `run`, and its tail.
 *
 * Every promise the stage adds to its tail is known by its generation: the
 * start procedure gets one on the first `run`, and each `run` call gets the
 * next one for its task. A task is therefore identified by its generation.
 */
module WorkStages {
  import opened Wrappers
  import opened Supplies
  import opened Workloads
  import opened Tasks
  import Quiescence

  /** `new WorkStage(name, { after, start })`: a workload of the stage kind that
      describes its work as `The <name> stage` and prints as `WorkStage(<name>)`. */
  function NewStage(id: nat, name: string, after: Option<Workload>, hasStart: bool): (w: Workload)
    ensures w.name == name && w.kind == Stage(after, hasStart)
    ensures WorkName(w) == "The " + name + " stage"
    ensures ToString(w) == "WorkStage(" + name + ")"
  {
    Workload(id, name, Stage(after, hasStart))
  }

  /** The keys of the ordering queues a stage hands off on when it starts: the
      `after` stage when there is one, then always the stage itself. */
  function DepKeys(stage: Workload): (r: seq<Workload>)
    requires stage.kind.Stage?
    ensures 1 <= |r| <= 2 && r[|r| - 1] == stage
    ensures |r| == 2 <==> stage.kind.after.Some?
    ensures stage.kind.after.Some? ==> r[0] == stage.kind.after.value
  {
    (if stage.kind.after.Some? then [stage.kind.after.value] else []) + [stage]
  }

  /** The start procedure: not yet asked for, waiting for its hand-offs, running the
      custom `start` hook, done, or failed (which every later task reports). */
  datatype Phase = Idle | AwaitingDeps | InHook | Started | StartFailed(failure: Failure)

  /** A task submitted through `run`: waiting for the start procedure, handed to the
      workbench, or finished with the outcome its caller sees. */
  datatype TaskState = Queued | Running | Finished(outcome: Outcome)

  datatype StageWork = StageWork(
    phase: Phase,
    startRuns: nat,
    hookRuns: nat,
    startGen: nat,
    tasks: map<nat, TaskState>,
    tail: Quiescence.Tail)

  /** A stage just allocated: nothing started, nothing added to its tail. */
  function Fresh(): (s: StageWork)
    ensures s.phase.Idle? && s.tasks == map[] && s.startRuns == 0 && s.hookRuns == 0
  {
    StageWork(Idle, 0, 0, 0, map[], Quiescence.Initial())
  }

  /** Whether the start procedure has not settled yet. */
  predicate Starting(p: Phase)
  {
    p.AwaitingDeps? || p.InHook?
  }

  /** The generations whose promise is still pending: the start procedure while it
      runs, and every task that has not finished. */
  function Pending(s: StageWork): set<nat>
  {
    (if Starting(s.phase) then {s.startGen} else {}) + (set g | g in s.tasks && !s.tasks[g].Finished?)
  }

  /** The invariant of a stage:
      - the tail is well formed and its pending generations are exactly those of
        the start procedure while it runs and of the unfinished tasks;
      - the start procedure ran once exactly when the stage left `Idle`;
      - the hook ran at most once, only when there is one and once the hand-offs
        were through;
      - a task is handed to the workbench only once the start procedure succeeded. */
  ghost predicate Valid(s: StageWork, hasStart: bool)
  {
    && Quiescence.Valid(s.tail)
    && s.tail.unsettled == Pending(s)
    && s.startRuns == (if s.phase.Idle? then 0 else 1)
    && s.hookRuns <= 1
    && (s.hookRuns == 1 ==> hasStart && (s.phase.InHook? || s.phase.Started? || s.phase.StartFailed?))
    && (s.phase.InHook? ==> s.hookRuns == 1)
    && (s.phase.Idle? ==> s.tasks == map[] && s.tail.gen == 0)
    && (!s.phase.Idle? ==> 0 < s.startGen <= s.tail.gen && s.startGen !in s.tasks)
    && (forall g :: g in s.tasks ==> 0 < g <= s.tail.gen)
    && (forall g :: g in s.tasks && s.tasks[g].Running? ==> s.phase.Started?)
  }

  lemma FreshValid(hasStart: bool)
    ensures Valid(Fresh(), hasStart)
  {
  }

  /** The first `run`: the start procedure is asked for; its promise joins the tail
      and is pending until the hand-offs and the hook are through. */
  function Begin(s: StageWork, hasStart: bool): (r: StageWork)
    requires Valid(s, hasStart) && s.phase.Idle?
    ensures Valid(r, hasStart)
    ensures r.phase == AwaitingDeps && r.startRuns == 1
    ensures r.startGen == r.tail.gen == s.tail.gen + 1 && r.startGen in Pending(r)
    ensures r.tasks == s.tasks
  {
    var tail := Quiescence.Add(s.tail);
    s.(phase := AwaitingDeps, startRuns := 1, startGen := tail.gen, tail := tail)
  }

  /** The first `run` when no hand-off can be made (the workbench refuses the
      ordering work): the start procedure fails at once with `failure`, and its
      settled promise still joins the tail. */
  function BeginFailed(s: StageWork, hasStart: bool, failure: Failure): (r: StageWork)
    requires Valid(s, hasStart) && s.phase.Idle?
    ensures Valid(r, hasStart)
    ensures r.phase == StartFailed(failure) && r.startRuns == 1 && r.hookRuns == 0
    ensures r.tail.gen == s.tail.gen + 1 && Pending(r) == {}
    ensures r.tasks == s.tasks
  {
    var tail := Quiescence.Add(s.tail);
    s.(phase := StartFailed(failure), startRuns := 1, startGen := tail.gen, tail := Quiescence.Settle(tail, tail.gen))
  }

  /** A `run(task)` call after the start procedure was asked for: the task gets the
      next generation and waits for the start procedure. */
  function AddTask(s: StageWork, hasStart: bool): (r: StageWork)
    requires Valid(s, hasStart) && !s.phase.Idle?
    ensures Valid(r, hasStart)
    ensures r.tail.gen == s.tail.gen + 1
    ensures r.tail.gen !in s.tasks && r.tasks == s.tasks[r.tail.gen := Queued]
    ensures Pending(r) == Pending(s) + {r.tail.gen}
    ensures r.phase == s.phase && r.startRuns == s.startRuns && r.hookRuns == s.hookRuns
  {
    var tail := Quiescence.Add(s.tail);
    var r := s.(tasks := s.tasks[tail.gen := Queued], tail := tail);
    assert Pending(r) == Pending(s) + {tail.gen};
    r
  }

  /** Every hand-off of the stage has begun: the hook runs if there is one;
      otherwise the start procedure is done. */
  function Advance(s: StageWork, hasStart: bool): (r: StageWork)
    requires Valid(s, hasStart) && s.phase.AwaitingDeps?
    ensures Valid(r, hasStart)
    ensures hasStart ==> r.phase.InHook? && r.hookRuns == 1 && Pending(r) == Pending(s)
    ensures !hasStart ==> r.phase.Started? && r.hookRuns == 0 && Pending(r) == Pending(s) - {s.startGen}
    ensures r.tasks == s.tasks && r.startRuns == s.startRuns
  {
    if hasStart then s.(phase := InHook, hookRuns := 1)
    else
      var r := s.(phase := Started, tail := Quiescence.Settle(s.tail, s.startGen));
      assert Pending(r) == Pending(s) - {s.startGen};
      r
  }

  /** The hook settled: the stage is started, or its start procedure failed with
      the hook's failure. */
  function HookSettled(s: StageWork, hasStart: bool, outcome: Outcome): (r: StageWork)
    requires Valid(s, hasStart) && s.phase.InHook?
    ensures Valid(r, hasStart)
    ensures outcome.Ok? ==> r.phase.Started?
    ensures outcome.Err? ==> r.phase == StartFailed(outcome.error)
    ensures Pending(r) == Pending(s) - {s.startGen}
    ensures r.tasks == s.tasks && r.hookRuns == 1
  {
    var r := s.(phase := if outcome.Ok? then Started else StartFailed(outcome.error),
                tail := Quiescence.Settle(s.tail, s.startGen));
    assert Pending(r) == Pending(s) - {s.startGen};
    r
  }

  /** The start procedure has settled and task `g` moves on: after a failed start it
      finishes with the start's failure; after a successful one it is handed to the
      workbench, which either runs it (`refused` is `None`) or rejects it at once
      with the failure `refused` holds. */
  function LaunchTask(s: StageWork, hasStart: bool, g: nat, refused: Option<Failure>): (r: StageWork)
    requires Valid(s, hasStart) && g in s.tasks && s.tasks[g].Queued?
    requires s.phase.Started? || s.phase.StartFailed?
    ensures Valid(r, hasStart)
    ensures s.phase.StartFailed? ==> r.tasks == s.tasks[g := Finished(Err(s.phase.failure))]
    ensures s.phase.Started? && refused.None? ==> r.tasks == s.tasks[g := Running]
    ensures s.phase.Started? && refused.Some? ==> r.tasks == s.tasks[g := Finished(Err(refused.value))]
    ensures r.tasks[g].Finished? ==> Pending(r) == Pending(s) - {g}
    ensures r.tasks[g].Running? ==> Pending(r) == Pending(s)
    ensures r.phase == s.phase && r.hookRuns == s.hookRuns
  {
    if s.phase.StartFailed? then Finish(s, hasStart, g, Err(s.phase.failure))
    else if refused.Some? then Finish(s, hasStart, g, Err(refused.value))
    else
      var r := s.(tasks := s.tasks[g := Running]);
      assert Pending(r) == Pending(s);
      r
  }

  /** Task `g` finishes with `outcome`, which its caller sees; its generation
      settles. */
  function Finish(s: StageWork, hasStart: bool, g: nat, outcome: Outcome): (r: StageWork)
    requires Valid(s, hasStart) && g in s.tasks && !s.tasks[g].Finished?
    ensures Valid(r, hasStart)
    ensures r.tasks == s.tasks[g := Finished(outcome)]
    ensures Pending(r) == Pending(s) - {g}
    ensures r.phase == s.phase && r.hookRuns == s.hookRuns && r.startRuns == s.startRuns
  {
    var r := s.(tasks := s.tasks[g := Finished(outcome)], tail := Quiescence.Settle(s.tail, g));
    assert Pending(r) == Pending(s) - {g};
    r
  }

  /** The next generation of the tail fires. When it is the last one added the
      stage turns itself off; by then the start procedure has settled and every
      task submitted so far has finished. */
  function FireTail(s: StageWork, hasStart: bool): (r: (StageWork, bool))
    requires Valid(s, hasStart) && Quiescence.CanFire(s.tail)
    ensures Valid(r.0, hasStart)
    ensures r.0.phase == s.phase && r.0.tasks == s.tasks
    ensures r.1 ==> !s.phase.Idle? && !Starting(s.phase)
    ensures r.1 ==> forall g :: g in s.tasks ==> s.tasks[g].Finished?
  {
    var f := Quiescence.Fire(s.tail);
    var r := s.(tail := f.tail);
    if f.off then
      OffMeansSettled(s, hasStart);
      (r, true)
    else (r, false)
  }

  /** Nothing pending means the start procedure settled and every task finished. */
  lemma OffMeansSettled(s: StageWork, hasStart: bool)
    requires Valid(s, hasStart) && Pending(s) == {}
    ensures !Starting(s.phase)
    ensures forall g :: g in s.tasks ==> s.tasks[g].Finished?
  {
    assert Starting(s.phase) ==> s.startGen in Pending(s);
    forall g | g in s.tasks
      ensures s.tasks[g].Finished?
    {
      assert !s.tasks[g].Finished? ==> g in Pending(s);
    }
  }
}
