/**
 * Work stages inside one workbench: the workbench registry, the state of every
 * stage work, and the ordering queues all stages of the workbench share.
 *
 * Each event below is one asynchronous step of the running program (a call, a
 * promise settling, a supply going off), applied to the whole state. A stage
 * starts by handing off on the ordering queue of the stage it comes after, if
 * any, and on its own queue. A hand-off has "begun" (it is `resolved`) when its
 * queue entry starts. It keeps its queue slot until the stage's supply is off,
 * so later stages queued on the same key wait for this stage to terminate.
 *
 * Hand-offs are taken to begin as soon as their entry starts, which is what the
 * default runner does for the ordering work.
 */
module Stages {
  import opened Wrappers
  import opened Supplies
  import opened Workloads
  import opened WorkDoneErrors
  import opened Tasks
  import opened Sequences
  import opened WorkOrdering
  import OT = OrderedTasks
  import WB = Workbenches
  import WS = WorkStages
  import Quiescence

  /** The hand-off of stage work `work` on the ordering queue of `key`. */
  datatype HandOff = HandOff(work: nat, key: Workload)

  datatype System = System(
    bench: WB.Bench,
    stages: map<nat, WS.StageWork>,
    ordering: Option<nat>,
    queues: OT.Queues<Workload, HandOff>,
    resolved: set<HandOff>)

  /** The allocation every stage and the ordering workload make: no task during
      `start`, no self cut-off, and a `start` that returns. */
  const Plainly: WB.Allocation := WB.Allocation([], None, None)

  /** The hand-off keys of a workload: those of a stage, none otherwise. */
  function Keys(w: Workload): seq<Workload>
  {
    if w.kind.Stage? then WS.DepKeys(w) else []
  }

  function HasStart(w: Workload): bool
  {
    w.kind.Stage? && w.kind.hasStart
  }

  /** Whether every hand-off of work `id` has begun. */
  ghost predicate DepsDone(sys: System, id: nat)
    requires id < |sys.bench.works|
  {
    forall k :: k in Keys(sys.bench.works[id].workload) ==> HandOff(id, k) in sys.resolved
  }

  /** Whether the start procedure of a stage is past its hand-offs. */
  predicate NeedsDeps(s: WS.StageWork)
  {
    s.phase.InHook? || s.phase.Started? || s.hookRuns == 1
  }

  // ----------------------------------------------------------------------------
  // The invariant.

  /** The workbench is valid, holds only stage works and the ordering work, and
      none of them cut itself off while starting. */
  ghost predicate WorksValid(sys: System)
  {
    && WB.Valid(sys.bench)
    && (forall id :: id in sys.stages ==> id < |sys.bench.works| && sys.bench.works[id].workload.kind.Stage?)
    && (forall i :: 0 <= i < |sys.bench.works| ==> (sys.bench.works[i].accepting <==> sys.bench.works[i].supply.On?))
    && (forall i :: 0 <= i < |sys.bench.works| ==> i in sys.stages || sys.ordering == Some(i))
  }

  /** The ordering work, once allocated, is the work of the ordering workload; the
      queues exist only with it. */
  ghost predicate OrderingValid(sys: System)
  {
    && (sys.ordering.Some? ==>
          && sys.ordering.value < |sys.bench.works|
          && sys.bench.works[sys.ordering.value].workload == Ordering
          && sys.ordering.value !in sys.stages)
    && (sys.ordering.None? ==> sys.queues == map[])
  }

  /** The ordering workload is a singleton within a workbench: any work of the
      ordering kind is the ordering work the system keeps, and its workload is
      `Ordering` itself. */
  lemma OneOrderingWork(sys: System)
    requires WorksValid(sys) && OrderingValid(sys)
    ensures forall i :: 0 <= i < |sys.bench.works| && sys.bench.works[i].workload.kind.OrderingKind? ==>
      sys.ordering == Some(i) && sys.bench.works[i].workload == Ordering
  {
  }

  /** The ordering work is live exactly while the workbench is. */
  ghost predicate OrderingLive(sys: System)
  {
    sys.ordering.Some? && sys.ordering.value < |sys.bench.works| ==>
      (sys.bench.works[sys.ordering.value].supply.On? <==> sys.bench.supply.On?)
  }

  /** Every queue is valid, and its entries are as `EntriesValid` says. */
  ghost predicate HandOffsValid(sys: System)
  {
    OT.AllValid(sys.queues) && EntriesValid(sys)
  }

  /** The entries of every queue are as `QueueEntriesValid` says. */
  ghost predicate EntriesValid(sys: System)
  {
    forall k :: k in sys.queues ==> QueueEntriesValid(sys.bench.works, sys.stages, k, sys.queues[k])
  }

  /** The entries of the queue `q` of key `k` are hand-offs of started stages on
      their own key; an entry that settled or was spliced out belongs to a work
      that is off, and an entry still waiting belongs to a live one. */
  ghost predicate QueueEntriesValid(works: seq<WB.WorkRec>, stages: map<nat, WS.StageWork>, k: Workload, q: OT.TaskQueue<HandOff>)
  {
    && (forall h :: h in q.enqueued ==>
          && h.key == k && h.work in stages && h.work < |works|
          && !stages[h.work].phase.Idle? && k in Keys(works[h.work].workload))
    && (forall h :: h in q.settled ==> h.work < |works| && works[h.work].supply.Off?)
    && (forall h :: h in q.cancelled ==> h.work < |works| && works[h.work].supply.Off?)
    && (forall h :: h in OT.Rest(q.entries) ==> h.work < |works| && works[h.work].supply.On?)
  }

  /** A hand-off has begun only once its entry started; while the workbench is
      live, the head of every queue has begun. */
  ghost predicate ResolvedValid(sys: System)
  {
    && (forall h :: h in sys.resolved ==> h.key in sys.queues && h in sys.queues[h.key].started)
    && (sys.bench.supply.On? ==>
          forall k :: k in sys.queues && sys.queues[k].entries != [] ==> sys.queues[k].entries[0] in sys.resolved)
  }

  /** Every stage is valid on its own, and a stage past its hand-offs has all of
      them begun. */
  ghost predicate StagesValid(sys: System)
  {
    && (forall id :: id in sys.stages && id < |sys.bench.works| ==>
          WS.Valid(sys.stages[id], HasStart(sys.bench.works[id].workload)))
    && (forall id :: id in sys.stages && id < |sys.bench.works| && NeedsDeps(sys.stages[id]) ==>
          DepsDone(sys, id))
  }

  /** The invariant, except the link between the ordering work and the workbench,
      which a workbench cut-off breaks for a moment. */
  ghost predicate Core(sys: System)
  {
    && WorksValid(sys)
    && OrderingValid(sys)
    && HandOffsValid(sys)
    && ResolvedValid(sys)
    && StagesValid(sys)
  }

  ghost predicate Valid(sys: System)
  {
    Core(sys) && OrderingLive(sys)
  }

  /** A workbench with no work yet. */
  function Initial(options: WB.Options): (sys: System)
    ensures Valid(sys)
    ensures sys.stages == map[] && sys.queues == map[] && sys.resolved == {}
  {
    System(WB.Create(options), map[], None, map[], {})
  }

  // ----------------------------------------------------------------------------
  // Stage-local steps.

  /** Replacing the state of one stage by a valid one that does not go back to
      `Idle` and that is past its hand-offs only when they have all begun. */
  lemma StageUpdateValid(sys: System, id: nat, s: WS.StageWork)
    requires Valid(sys) && id in sys.stages
    requires WS.Valid(s, HasStart(sys.bench.works[id].workload))
    requires s.phase.Idle? ==> sys.stages[id].phase.Idle?
    requires NeedsDeps(s) ==> DepsDone(sys, id)
    ensures Valid(sys.(stages := sys.stages[id := s]))
  {
    var r := sys.(stages := sys.stages[id := s]);
    StageKeysFrame(sys, r);
    EntriesKeepValid(sys, r);
    StageSwapValid(sys, id, s);
  }

  /** The parts of the invariant that look only at which stages exist hold on
      when the stages keep their ids. */
  lemma StageKeysFrame(sys: System, r: System)
    requires WorksValid(sys) && OrderingValid(sys) && OrderingLive(sys) && ResolvedValid(sys) && OT.AllValid(sys.queues)
    requires r == sys.(stages := r.stages) && r.stages.Keys == sys.stages.Keys
    ensures WorksValid(r) && OrderingValid(r) && OrderingLive(r) && ResolvedValid(r) && OT.AllValid(r.queues)
  {
  }

  /** The stage part of the invariant holds on when one stage is replaced by a
      valid state that is past its hand-offs only when they have all begun. */
  lemma StageSwapValid(sys: System, id: nat, s: WS.StageWork)
    requires StagesValid(sys) && id in sys.stages && id < |sys.bench.works|
    requires WS.Valid(s, HasStart(sys.bench.works[id].workload))
    requires NeedsDeps(s) ==> DepsDone(sys, id)
    ensures StagesValid(sys.(stages := sys.stages[id := s]))
  {
    var r := sys.(stages := sys.stages[id := s]);
    forall i | i in r.stages && i < |r.bench.works|
      ensures WS.Valid(r.stages[i], HasStart(r.bench.works[i].workload))
    {
      if i != id {
        assert r.stages[i] == sys.stages[i];
      }
    }
    forall i: nat | i in r.stages && i < |r.bench.works| && NeedsDeps(r.stages[i])
      ensures DepsDone(r, i)
    {
      assert DepsDone(r, i) == DepsDone(sys, i);
    }
  }

  /** The queue part of the invariant holds on when the queues, the resolved
      hand-offs and the works stay as they are and no stage goes back to `Idle`. */
  lemma EntriesKeepValid(sys: System, r: System)
    requires EntriesValid(sys)
    requires r.queues == sys.queues && r.bench.works == sys.bench.works
    requires forall id :: id in sys.stages ==> id in r.stages && (r.stages[id].phase.Idle? ==> sys.stages[id].phase.Idle?)
    ensures EntriesValid(r)
  {
  }

  /** `workbench.work(stage)` for a stage workload: the registered stage work, or
      a fresh stage work allocated for it; a stopped workbench refuses. */
  function Obtain(sys: System, w: Workload): (r: Result<(System, nat), WorkDoneError>)
    requires Valid(sys) && w.kind.Stage?
    ensures r.Ok? ==> Valid(r.value.0)
    ensures sys.bench.supply.Off? ==> r == Err(NewWorkDoneError(w, None, sys.bench.supply.reason, Some(WB.StoppedMessage)))
    ensures sys.bench.supply.On? && w in sys.bench.cache ==> r == Ok((sys, sys.bench.cache[w]))
    ensures sys.bench.supply.On? && w !in sys.bench.cache ==>
      && r.Ok?
      && r.value.1 == |sys.bench.works| && r.value.1 !in sys.stages
      && r.value.0.stages == sys.stages[r.value.1 := WS.Fresh()]
      && |r.value.0.bench.works| == |sys.bench.works| + 1
      && r.value.0.bench.works[r.value.1] == WB.WorkRec(w, On, true)
      && r.value.0.queues == sys.queues && r.value.0.resolved == sys.resolved && r.value.0.ordering == sys.ordering
  {
    var got := WB.Work(sys.bench, w, Plainly);
    if got.Err? then Err(NewWorkDoneError(w, None, sys.bench.supply.reason, Some(WB.StoppedMessage)))
    else if w in sys.bench.cache then Ok((sys, got.value.work))
    else
      var id := got.value.work;
      var r := sys.(bench := got.value.bench, stages := sys.stages[id := WS.Fresh()]);
      ObtainValid(sys, w, got.value.bench, r, id);
      Ok((r, id))
  }

  lemma ObtainValid(sys: System, w: Workload, b: WB.Bench, r: System, id: nat)
    requires Valid(sys) && w.kind.Stage? && sys.bench.supply.On? && w !in sys.bench.cache
    requires id == |sys.bench.works| && WB.Valid(b)
    requires b.works == sys.bench.works + [WB.WorkRec(w, On, true)] && b.supply == sys.bench.supply
    requires r == sys.(bench := b, stages := sys.stages[id := WS.Fresh()])
    ensures Valid(r)
  {
    assert forall i :: 0 <= i < id ==> r.bench.works[i] == sys.bench.works[i];
    WS.FreshValid(HasStart(w));
    ObtainWorksValid(sys, w, b, r, id);
    EntriesGrowValid(sys, r);
    assert HandOffsValid(r);
    assert ResolvedValid(r);
    StagesGrowValid(sys, r, id);
  }

  /** The workbench part of the invariant holds on when a fresh stage work is
      appended. */
  lemma ObtainWorksValid(sys: System, w: Workload, b: WB.Bench, r: System, id: nat)
    requires WorksValid(sys) && OrderingValid(sys) && OrderingLive(sys) && w.kind.Stage?
    requires id == |sys.bench.works| && WB.Valid(b)
    requires b.works == sys.bench.works + [WB.WorkRec(w, On, true)] && b.supply == sys.bench.supply
    requires r == sys.(bench := b, stages := sys.stages[id := WS.Fresh()])
    ensures WorksValid(r) && OrderingValid(r) && OrderingLive(r)
  {
    assert forall i :: 0 <= i < id ==> r.bench.works[i] == sys.bench.works[i];
  }

  /** The queue part of the invariant holds on when works and stages are only
      added to, and queues and phases stay as they are. */
  lemma EntriesGrowValid(sys: System, r: System)
    requires EntriesValid(sys) && r.queues == sys.queues
    requires |sys.bench.works| <= |r.bench.works|
    requires forall i :: 0 <= i < |sys.bench.works| ==> r.bench.works[i] == sys.bench.works[i]
    requires forall id :: id in sys.stages ==> id in r.stages && r.stages[id] == sys.stages[id]
    ensures EntriesValid(r)
  {
    forall k, h | k in r.queues && h in r.queues[k].enqueued
      ensures h.key == k && h.work in r.stages && h.work < |r.bench.works|
      ensures !r.stages[h.work].phase.Idle? && k in Keys(r.bench.works[h.work].workload)
    {
      assert r.bench.works[h.work] == sys.bench.works[h.work];
    }
    forall k, h | k in r.queues && h in r.queues[k].settled
      ensures h.work < |r.bench.works| && r.bench.works[h.work].supply.Off?
    {
      assert r.bench.works[h.work] == sys.bench.works[h.work];
    }
    forall k, h | k in r.queues && h in r.queues[k].cancelled
      ensures h.work < |r.bench.works| && r.bench.works[h.work].supply.Off?
    {
      assert r.bench.works[h.work] == sys.bench.works[h.work];
    }
    forall k, h | k in r.queues && h in OT.Rest(r.queues[k].entries)
      ensures h.work < |r.bench.works| && r.bench.works[h.work].supply.On?
    {
      assert r.bench.works[h.work] == sys.bench.works[h.work];
    }
  }

  lemma StagesGrowValid(sys: System, r: System, id: nat)
    requires StagesValid(sys) && r.resolved == sys.resolved
    requires |sys.bench.works| <= |r.bench.works|
    requires forall i :: 0 <= i < |sys.bench.works| ==> r.bench.works[i] == sys.bench.works[i]
    requires forall i :: i in sys.stages ==> i < |sys.bench.works|
    requires id !in sys.stages && id < |r.bench.works| && r.stages == sys.stages[id := WS.Fresh()]
    requires WS.Valid(WS.Fresh(), HasStart(r.bench.works[id].workload))
    ensures StagesValid(r)
  {
    forall i: nat | i in r.stages && i < |r.bench.works| && NeedsDeps(r.stages[i])
      ensures DepsDone(r, i)
    {
      assert i != id;
      assert DepsDone(r, i) == DepsDone(sys, i);
    }
  }

  /** All hand-offs of stage `id` have begun: the hook starts, or the stage is
      started when it has none. */
  function Advance(sys: System, id: nat): (r: System)
    requires Valid(sys) && id in sys.stages && sys.stages[id].phase.AwaitingDeps?
    requires DepsDone(sys, id)
    ensures Valid(r)
    ensures r.stages == sys.stages[id := WS.Advance(sys.stages[id], HasStart(sys.bench.works[id].workload))]
    ensures r.bench == sys.bench && r.queues == sys.queues && r.resolved == sys.resolved
  {
    var s := WS.Advance(sys.stages[id], HasStart(sys.bench.works[id].workload));
    StageUpdateValid(sys, id, s);
    sys.(stages := sys.stages[id := s])
  }

  /** The `start` hook of stage `id` settled with `outcome`. */
  function HookSettles(sys: System, id: nat, outcome: Outcome): (r: System)
    requires Valid(sys) && id in sys.stages && sys.stages[id].phase.InHook?
    ensures Valid(r)
    ensures r.stages == sys.stages[id := WS.HookSettled(sys.stages[id], HasStart(sys.bench.works[id].workload), outcome)]
    ensures r.bench == sys.bench && r.queues == sys.queues && r.resolved == sys.resolved
  {
    var s := WS.HookSettled(sys.stages[id], HasStart(sys.bench.works[id].workload), outcome);
    StageUpdateValid(sys, id, s);
    sys.(stages := sys.stages[id := s])
  }

  /** Task `g` of stage `id` follows its settled start procedure: after a failed
      start it fails the same way; otherwise it goes to the stage work's `run`,
      which a disposed work rejects with its `WorkDoneError`. */
  function LaunchTask(sys: System, id: nat, g: nat): (r: System)
    requires Valid(sys) && id in sys.stages
    requires g in sys.stages[id].tasks && sys.stages[id].tasks[g].Queued?
    requires sys.stages[id].phase.Started? || sys.stages[id].phase.StartFailed?
    ensures Valid(r)
    ensures r.bench == sys.bench && r.queues == sys.queues && r.resolved == sys.resolved
    ensures id in r.stages && g in r.stages[id].tasks
    ensures sys.stages[id].phase.StartFailed? ==>
      r.stages[id].tasks[g] == WS.Finished(Err(sys.stages[id].phase.failure))
    ensures sys.stages[id].phase.Started? ==>
      (r.stages[id].tasks[g].Running? <==> WB.Run(sys.bench, id, g).Ok?)
    ensures sys.stages[id].phase.Started? && WB.Run(sys.bench, id, g).Err? ==>
      r.stages[id].tasks[g] == WS.Finished(Err(WB.Run(sys.bench, id, g).error))
  {
    var run := WB.Run(sys.bench, id, g);
    var refused := if run.Ok? then None else Some(run.error);
    var s := WS.LaunchTask(sys.stages[id], HasStart(sys.bench.works[id].workload), g, refused);
    StageUpdateValid(sys, id, s);
    sys.(stages := sys.stages[id := s])
  }

  /** Running task `g` of stage `id` settled with `outcome`; its caller sees that
      outcome, replaced by the work's `WorkDoneError` if the work went off
      meanwhile. */
  function TaskSettles(sys: System, id: nat, g: nat, outcome: Outcome): (r: System)
    requires Valid(sys) && id in sys.stages
    requires g in sys.stages[id].tasks && sys.stages[id].tasks[g].Running?
    ensures Valid(r)
    ensures r.bench == sys.bench && r.queues == sys.queues && r.resolved == sys.resolved
    ensures id in r.stages && g in r.stages[id].tasks
    ensures r.stages[id].tasks[g] == WS.Finished(WB.Finish(sys.bench, id, outcome))
  {
    var s := WS.Finish(sys.stages[id], HasStart(sys.bench.works[id].workload), g, WB.Finish(sys.bench, id, outcome));
    StageUpdateValid(sys, id, s);
    sys.(stages := sys.stages[id := s])
  }

  // ----------------------------------------------------------------------------
  // The ordering work.

  /** Without an ordering work, no work of the workbench is the ordering work. */
  lemma OrderingUncached(sys: System)
    requires WorksValid(sys) && sys.ordering.None?
    ensures Ordering !in sys.bench.cache
  {
    assert forall i :: 0 <= i < |sys.bench.works| ==> sys.bench.works[i].workload != Ordering;
  }

  /** A live ordering work is the one the registry holds for the ordering workload. */
  lemma OrderingCached(sys: System)
    requires Valid(sys) && sys.ordering.Some? && sys.bench.supply.On?
    ensures Ordering in sys.bench.cache && sys.bench.cache[Ordering] == sys.ordering.value
  {
    assert WB.Cached(sys.bench, sys.ordering.value);
  }

  /** `allotment.workbench.work(WorkOrdering.$)` on a live workbench: the ordering
      work already there, or a new one, allocated with no queue, the first time. */
  function EnsureOrdering(sys: System): (r: System)
    requires Valid(sys) && sys.bench.supply.On?
    ensures Valid(r)
    ensures r.ordering.Some? && r.ordering.value < |r.bench.works|
    ensures r.bench.works[r.ordering.value] == WB.WorkRec(Ordering, On, true)
    ensures r.queues == sys.queues && r.stages == sys.stages && r.resolved == sys.resolved
    ensures r.bench.supply == sys.bench.supply
    ensures |sys.bench.works| <= |r.bench.works|
    ensures forall i :: 0 <= i < |sys.bench.works| ==> r.bench.works[i] == sys.bench.works[i]
    ensures sys.ordering.Some? ==> r == sys
    ensures sys.ordering.None? ==> r.ordering == Some(|sys.bench.works|)
  {
    var got := WB.Work(sys.bench, Ordering, Plainly);
    if sys.ordering.Some? then
      OrderingCached(sys);
      assert sys.bench.works[sys.ordering.value].accepting;
      sys
    else
      OrderingUncached(sys);
      var r := sys.(bench := got.value.bench, ordering := Some(got.value.work), queues := Start());
      OrderingAllocValid(sys, got.value.bench, r);
      r
  }

  lemma OrderingAllocValid(sys: System, b: WB.Bench, r: System)
    requires Valid(sys) && sys.ordering.None? && WB.Valid(b)
    requires b.works == sys.bench.works + [WB.WorkRec(Ordering, On, true)] && b.supply == sys.bench.supply
    requires r == sys.(bench := b, ordering := Some(|sys.bench.works|), queues := map[])
    ensures Valid(r)
  {
    var n := |sys.bench.works|;
    assert forall i :: 0 <= i < n ==> r.bench.works[i] == sys.bench.works[i];
    assert sys.queues == map[] && sys.resolved == {};
    OrderingAllocWorksValid(sys, b, r);
    assert HandOffsValid(r);
    assert ResolvedValid(r);
    StagesFrameValid(sys, r);
  }

  lemma OrderingAllocWorksValid(sys: System, b: WB.Bench, r: System)
    requires WorksValid(sys) && sys.ordering.None? && WB.Valid(b)
    requires b.works == sys.bench.works + [WB.WorkRec(Ordering, On, true)] && b.supply == sys.bench.supply
    requires r == sys.(bench := b, ordering := Some(|sys.bench.works|), queues := map[])
    ensures WorksValid(r) && OrderingValid(r) && OrderingLive(r)
  {
    assert forall i :: 0 <= i < |sys.bench.works| ==> r.bench.works[i] == sys.bench.works[i];
  }

  /** The stage part of the invariant holds on when works are only added to, the
      stages stay as they are and hand-offs only begin. */
  lemma StagesFrameValid(sys: System, r: System)
    requires StagesValid(sys) && r.stages == sys.stages && sys.resolved <= r.resolved
    requires forall i :: i in sys.stages ==> i < |sys.bench.works|
    requires |sys.bench.works| <= |r.bench.works|
    requires forall i :: 0 <= i < |sys.bench.works| ==> r.bench.works[i] == sys.bench.works[i]
    ensures StagesValid(r)
  {
    forall i: nat | i in r.stages && i < |r.bench.works| && NeedsDeps(r.stages[i])
      ensures DepsDone(r, i)
    {
      assert r.bench.works[i] == sys.bench.works[i];
      assert DepsDone(sys, i);
    }
  }

  // ----------------------------------------------------------------------------
  // Starting a stage.

  /** Whether a queue, if there is one, is running an entry. */
  predicate Busy(queues: OT.Queues<Workload, HandOff>, k: Workload)
  {
    k in queues && queues[k].entries != []
  }

  /** The hand-offs pushed to the queue of `k` so far. */
  function Enqueued(queues: OT.Queues<Workload, HandOff>, k: Workload): seq<HandOff>
  {
    if k in queues then queues[k].enqueued else []
  }

  /** `runAfter(key, allotment, body)` on the ordering work, for stage `id`: the
      hand-off joins the queue of `key` with the stage's supply as its actor, and
      begins at once exactly when that queue was idle. */
  function HandOffStep(sys: System, id: nat, k: Workload): (r: System)
    requires Valid(sys) && sys.bench.supply.On? && sys.ordering.Some?
    requires id in sys.stages && !sys.stages[id].phase.Idle?
    requires k in Keys(sys.bench.works[id].workload)
    requires k in sys.queues ==> HandOff(id, k) !in sys.queues[k].enqueued
    ensures Valid(r)
    ensures r.bench == sys.bench && r.stages == sys.stages && r.ordering == sys.ordering
    ensures r.queues == OT.RunAfter(sys.queues, k, HandOff(id, k), sys.bench.works[id].supply)
    ensures r.resolved == sys.resolved + (if Busy(sys.queues, k) then {} else {HandOff(id, k)})
    ensures k in r.queues && r.queues[k].enqueued == Enqueued(sys.queues, k) + [HandOff(id, k)]
    ensures HandOff(id, k) in r.resolved <==> !Busy(sys.queues, k)
    ensures forall a :: a != k ==> (a in r.queues <==> a in sys.queues) && (a in sys.queues ==> r.queues[a] == sys.queues[a])
    ensures forall a :: a != k ==> (HandOff(id, a) in r.resolved <==> HandOff(id, a) in sys.resolved)
  {
    var e := HandOff(id, k);
    RunAfterFacts(sys.queues, k, e, sys.bench.works[id].supply);
    UnqueuedUnresolved(sys, e);
    var r := sys.(queues := OT.RunAfter(sys.queues, k, e, sys.bench.works[id].supply),
                  resolved := sys.resolved + (if Busy(sys.queues, k) then {} else {e}));
    HandOffStepValid(sys, id, k, r);
    r
  }

  /** A hand-off that was never pushed has not begun. */
  lemma UnqueuedUnresolved(sys: System, h: HandOff)
    requires ResolvedValid(sys) && OT.AllValid(sys.queues)
    requires h.key in sys.queues ==> h !in sys.queues[h.key].enqueued
    ensures h !in sys.resolved
  {
    if h.key in sys.queues {
      OT.StartedWereEnqueued(sys.queues[h.key]);
    }
  }

  lemma HandOffStepValid(sys: System, id: nat, k: Workload, r: System)
    requires Valid(sys) && sys.bench.supply.On? && sys.ordering.Some?
    requires id in sys.stages && !sys.stages[id].phase.Idle?
    requires k in Keys(sys.bench.works[id].workload)
    requires k in sys.queues ==> HandOff(id, k) !in sys.queues[k].enqueued
    requires r == sys.(queues := OT.RunAfter(sys.queues, k, HandOff(id, k), sys.bench.works[id].supply),
                       resolved := sys.resolved + (if Busy(sys.queues, k) then {} else {HandOff(id, k)}))
    ensures Valid(r)
  {
    var e := HandOff(id, k);
    var q := OT.QueueOf(sys.queues, k);
    RunAfterFacts(sys.queues, k, e, sys.bench.works[id].supply);
    WorksFrameValid(sys, r);
    HandOffEntriesValid(sys, e, q, r);
    HandOffResolvedValid(sys, e, q, r);
    StagesFrameValid(sys, r);
  }

  /** The queues after `runAfter`, field by field. */
  lemma RunAfterFacts(m: OT.Queues<Workload, HandOff>, k: Workload, e: HandOff, actor: Supply)
    requires OT.AllValid(m) && (k in m ==> e !in m[k].enqueued)
    ensures var r := OT.RunAfter(m, k, e, actor); var q := OT.QueueOf(m, k);
      && (Busy(m, k) <==> q.entries != [])
      && r[k].enqueued == q.enqueued + [e] && r[k].settled == q.settled
      && r[k].cancelled == q.cancelled + (if actor.Off? && q.entries != [] then {e} else {})
      && r[k].started == q.started + (if q.entries == [] then [e] else [])
      && (q.entries == [] ==> r[k].entries == [e])
      && (q.entries != [] ==> r[k].entries != [] && r[k].entries[0] == q.entries[0])
      && (forall x :: x in OT.Rest(r[k].entries) ==> x in OT.Rest(q.entries) || (x == e && actor.On?))
  {
    var q := OT.QueueOf(m, k);
    var r := OT.RunAfter(m, k, e, actor);
    assert r[k] == OT.Admitted(q, e, actor);
    AdmittedFacts(q, e, actor, r[k]);
  }

  /** One queue after an enqueue, field by field. */
  lemma AdmittedFacts(q: OT.TaskQueue<HandOff>, e: HandOff, actor: Supply, a: OT.TaskQueue<HandOff>)
    requires OT.Valid(q) && e !in q.enqueued && a == OT.Admitted(q, e, actor)
    ensures a.enqueued == q.enqueued + [e] && a.settled == q.settled
    ensures a.cancelled == q.cancelled + (if actor.Off? && q.entries != [] then {e} else {})
    ensures a.started == q.started + (if q.entries == [] then [e] else [])
    ensures q.entries == [] ==> a.entries == [e]
    ensures q.entries != [] ==> a.entries != [] && a.entries[0] == q.entries[0]
    ensures forall x :: x in OT.Rest(a.entries) ==> x in OT.Rest(q.entries) || (x == e && actor.On?)
  {
    OT.EnqueueSpec(q, e, actor);
    OT.EnqueueCancels(q, e, actor);
    RestAppend(q.entries, e);
  }

  /** The workbench part of the invariant holds on when the workbench, the stages
      and the ordering work stay as they are and the ordering work exists. */
  lemma WorksFrameValid(sys: System, r: System)
    requires WorksValid(sys) && OrderingValid(sys) && OrderingLive(sys)
    requires r.bench == sys.bench && r.stages == sys.stages && r.ordering == sys.ordering && sys.ordering.Some?
    ensures WorksValid(r) && OrderingValid(r) && OrderingLive(r)
  {
  }

  lemma RestAppend<T>(s: seq<T>, x: T)
    ensures OT.Rest(s + [x]) == if s == [] then [] else OT.Rest(s) + [x]
  {
    if s != [] {
      assert (s + [x])[1..] == s[1..] + [x];
    }
  }

  lemma HandOffEntriesValid(sys: System, e: HandOff, q: OT.TaskQueue<HandOff>, r: System)
    requires EntriesValid(sys)
    requires e.work in sys.stages && e.work < |sys.bench.works| && !sys.stages[e.work].phase.Idle?
    requires e.key in Keys(sys.bench.works[e.work].workload)
    requires e.key in sys.queues ==> q == sys.queues[e.key]
    requires e.key !in sys.queues ==> q == OT.EmptyQueue()
    requires r.bench == sys.bench && r.stages == sys.stages
    requires r.queues.Keys == sys.queues.Keys + {e.key}
    requires forall k :: k in sys.queues && k != e.key ==> r.queues[k] == sys.queues[k]
    requires r.queues[e.key].enqueued == q.enqueued + [e] && r.queues[e.key].settled == q.settled
    requires r.queues[e.key].cancelled == q.cancelled + (if sys.bench.works[e.work].supply.Off? && q.entries != [] then {e} else {})
    requires forall x :: x in OT.Rest(r.queues[e.key].entries) ==>
      x in OT.Rest(q.entries) || (x == e && sys.bench.works[e.work].supply.On?)
    ensures EntriesValid(r)
  {
    var works, stages := sys.bench.works, sys.stages;
    assert QueueEntriesValid(works, stages, e.key, q);
    PushedEntriesValid(works, stages, e.key, q, e, r.queues[e.key]);
    forall k | k in r.queues
      ensures QueueEntriesValid(works, stages, k, r.queues[k])
    {
      if k != e.key {
        assert r.queues[k] == sys.queues[k];
      }
    }
  }

  /** A queue keeps its part of the invariant when a hand-off of a started stage on
      the queue's key is pushed to it. */
  lemma PushedEntriesValid(works: seq<WB.WorkRec>, stages: map<nat, WS.StageWork>, k: Workload,
                           q: OT.TaskQueue<HandOff>, e: HandOff, nq: OT.TaskQueue<HandOff>)
    requires QueueEntriesValid(works, stages, k, q)
    requires e.key == k && e.work in stages && e.work < |works| && !stages[e.work].phase.Idle?
    requires k in Keys(works[e.work].workload)
    requires nq.enqueued == q.enqueued + [e] && nq.settled == q.settled
    requires nq.cancelled == q.cancelled + (if works[e.work].supply.Off? && q.entries != [] then {e} else {})
    requires forall x :: x in OT.Rest(nq.entries) ==> x in OT.Rest(q.entries) || (x == e && works[e.work].supply.On?)
    ensures QueueEntriesValid(works, stages, k, nq)
  {
  }

  lemma HandOffResolvedValid(sys: System, e: HandOff, q: OT.TaskQueue<HandOff>, r: System)
    requires ResolvedValid(sys) && r.bench.supply == sys.bench.supply
    requires e.key in sys.queues ==> q == sys.queues[e.key]
    requires e.key !in sys.queues ==> q == OT.EmptyQueue()
    requires r.queues.Keys == sys.queues.Keys + {e.key}
    requires forall k :: k in sys.queues && k != e.key ==> r.queues[k] == sys.queues[k]
    requires r.queues[e.key].started == q.started + (if q.entries == [] then [e] else [])
    requires q.entries == [] ==> r.queues[e.key].entries == [e]
    requires q.entries != [] ==> r.queues[e.key].entries != [] && r.queues[e.key].entries[0] == q.entries[0]
    requires r.resolved == sys.resolved + (if q.entries != [] then {} else {e})
    ensures ResolvedValid(r)
  {
    forall h | h in r.resolved
      ensures h.key in r.queues && h in r.queues[h.key].started
    {
      if h.key != e.key {
        assert r.queues[h.key] == sys.queues[h.key];
      } else if h in sys.resolved {
        assert h in q.started;
      }
    }
    if r.bench.supply.On? {
      forall k | k in r.queues && r.queues[k].entries != []
        ensures r.queues[k].entries[0] in r.resolved
      {
        if k != e.key {
          assert r.queues[k] == sys.queues[k];
        } else if q.entries != [] {
          assert e.key in sys.queues;
        }
      }
    }
  }

  /** No hand-off of a stage is queued before the stage starts. */
  lemma IdleNotQueued(sys: System, id: nat)
    requires EntriesValid(sys) && id in sys.stages && sys.stages[id].phase.Idle?
    ensures forall k :: k in sys.queues ==> HandOff(id, k) !in sys.queues[k].enqueued
  {
  }

  /** The first step of `startStage` on a live workbench: the start procedure is
      asked for and the ordering work obtained; no hand-off is queued yet. */
  function BeginStage(sys: System, id: nat): (r: System)
    requires Valid(sys) && sys.bench.supply.On? && id in sys.stages && sys.stages[id].phase.Idle?
    ensures Valid(r) && r.ordering.Some?
    ensures r.stages == sys.stages[id := WS.Begin(sys.stages[id], HasStart(sys.bench.works[id].workload))]
    ensures sys.ordering.Some? ==> r.ordering == sys.ordering
    ensures |sys.bench.works| <= |r.bench.works| && r.bench.supply == sys.bench.supply
    ensures forall i :: 0 <= i < |sys.bench.works| ==> r.bench.works[i] == sys.bench.works[i]
    ensures r.queues == sys.queues && r.resolved == sys.resolved
    ensures forall k :: k in r.queues ==> HandOff(id, k) !in r.queues[k].enqueued
  {
    var s := WS.Begin(sys.stages[id], HasStart(sys.bench.works[id].workload));
    StageUpdateValid(sys, id, s);
    IdleNotQueued(sys, id);
    EnsureOrdering(sys.(stages := sys.stages[id := s]))
  }

  /** The hand-off on the queue of the stage that stage `id` comes after, if any. */
  function HandOffAfter(sys: System, id: nat): (r: System)
    requires Valid(sys) && sys.bench.supply.On? && sys.ordering.Some?
    requires id in sys.stages && !sys.stages[id].phase.Idle?
    requires forall k :: k in sys.queues ==> HandOff(id, k) !in sys.queues[k].enqueued
    ensures Valid(r)
    ensures r.bench == sys.bench && r.stages == sys.stages && r.ordering == sys.ordering
    ensures var w := sys.bench.works[id].workload;
      && (w.kind.after.Some? ==>
            var a := w.kind.after.value;
            && a in r.queues && r.queues[a].enqueued == Enqueued(sys.queues, a) + [HandOff(id, a)]
            && (HandOff(id, a) in r.resolved <==> !Busy(sys.queues, a)))
      && (w.kind.after.None? ==> r == sys)
      && (w in r.queues <==> w in sys.queues) && (w in r.queues ==> r.queues[w] == sys.queues[w])
      && (HandOff(id, w) in r.resolved <==> HandOff(id, w) in sys.resolved)
  {
    var w := sys.bench.works[id].workload;
    if w.kind.after.Some? then
      AfterIsNotSelf(w);
      HandOffStep(sys, id, w.kind.after.value)
    else sys
  }

  /** `startStage` on a live workbench: the start procedure is asked for, the
      ordering work is obtained, and the stage hands off on the queue of the stage
      it comes after, if any, then on its own. */
  function StartStage(sys: System, id: nat): (r: System)
    requires Valid(sys) && sys.bench.supply.On? && id in sys.stages && sys.stages[id].phase.Idle?
    ensures Valid(r)
    ensures r.stages == sys.stages[id := WS.Begin(sys.stages[id], HasStart(sys.bench.works[id].workload))]
    ensures id in r.stages && r.stages[id].phase.AwaitingDeps? && r.stages[id].startRuns == 1
    ensures r.stages[id].tasks == sys.stages[id].tasks
    ensures r.ordering.Some? && (sys.ordering.Some? ==> r.ordering == sys.ordering)
    ensures |sys.bench.works| <= |r.bench.works| && r.bench.supply == sys.bench.supply
    ensures forall i :: 0 <= i < |sys.bench.works| ==> r.bench.works[i] == sys.bench.works[i]
  {
    var begun := BeginStage(sys, id);
    var first := HandOffAfter(begun, id);
    HandOffStep(first, id, sys.bench.works[id].workload)
  }

  /** `startStage` on a stopped workbench: obtaining the ordering work throws, so
      the start procedure fails at once with the workbench's `WorkDoneError`, and
      no queue changes. */
  function StartRefused(sys: System, id: nat): (r: System)
    requires Valid(sys) && sys.bench.supply.Off? && id in sys.stages && sys.stages[id].phase.Idle?
    ensures Valid(r)
    ensures id in r.stages
    ensures r.stages[id].phase == WS.StartFailed(Done(NewWorkDoneError(Ordering, None, sys.bench.supply.reason, Some(WB.StoppedMessage))))
    ensures r.stages[id].tasks == sys.stages[id].tasks && r.stages[id].startRuns == 1
    ensures id in r.stages && r.stages == sys.stages[id := r.stages[id]]
    ensures r.bench == sys.bench && r.queues == sys.queues && r.resolved == sys.resolved && r.ordering == sys.ordering
  {
    var refused := WB.Work(sys.bench, Ordering, Plainly);
    var s := WS.BeginFailed(sys.stages[id], HasStart(sys.bench.works[id].workload), refused.error);
    StageUpdateValid(sys, id, s);
    sys.(stages := sys.stages[id := s])
  }

  /** The start procedure of stage `id`, asked for by every `run` but run only by
      the first: a started stage is left as it is. */
  function StartOnce(sys: System, id: nat): (r: System)
    requires Valid(sys) && id in sys.stages
    ensures Valid(r) && id in r.stages && !r.stages[id].phase.Idle? && r.stages[id].startRuns == 1
    ensures r.stages[id].tasks == sys.stages[id].tasks
    ensures id in r.stages && r.stages == sys.stages[id := r.stages[id]]
    ensures sys.ordering.Some? ==> r.ordering == sys.ordering
    ensures |sys.bench.works| <= |r.bench.works| && r.bench.supply == sys.bench.supply
    ensures forall i :: 0 <= i < |sys.bench.works| ==> r.bench.works[i] == sys.bench.works[i]
    ensures !sys.stages[id].phase.Idle? ==> r == sys
    ensures sys.stages[id].phase.Idle? && sys.bench.supply.On? ==> r.stages[id].phase.AwaitingDeps?
    ensures sys.stages[id].phase.Idle? && sys.bench.supply.Off? ==>
      && r.stages[id].phase == WS.StartFailed(Done(NewWorkDoneError(Ordering, None, sys.bench.supply.reason, Some(WB.StoppedMessage))))
      && r.queues == sys.queues && r.resolved == sys.resolved
  {
    if !sys.stages[id].phase.Idle? then sys
    else if sys.bench.supply.On? then StartStage(sys, id)
    else StartRefused(sys, id)
  }

  /** `work.run(task)` on stage work `id`, live or not: the start procedure is
      asked for, and the task joins the stage under its new generation, waiting
      for the start procedure; nothing else about the stage changes. */
  function StageRun(sys: System, id: nat): (r: (System, nat))
    requires Valid(sys) && id in sys.stages
    ensures Valid(r.0) && id in r.0.stages
    ensures r.1 !in sys.stages[id].tasks && r.0.stages[id].tasks == sys.stages[id].tasks[r.1 := WS.Queued]
    ensures r.1 in WS.Pending(r.0.stages[id])
    ensures var started := StartOnce(sys, id);
      && r.0.bench == started.bench && r.0.queues == started.queues && r.0.resolved == started.resolved
      && r.0.ordering == started.ordering
      && r.0.stages[id].phase == started.stages[id].phase && r.0.stages[id].startRuns == 1
    ensures r.0.stages == sys.stages[id := r.0.stages[id]]
  {
    var started := StartOnce(sys, id);
    var r := AddStageTask(started, id);
    UpdateTwice(sys.stages, id, started.stages[id], r.0.stages[id]);
    r
  }

  /** A `run(task)` call on a stage whose start procedure was asked for: the task
      joins the stage under its new generation; nothing else changes. */
  function AddStageTask(sys: System, id: nat): (r: (System, nat))
    requires Valid(sys) && id in sys.stages && !sys.stages[id].phase.Idle?
    ensures Valid(r.0) && id in r.0.stages
    ensures r.1 !in sys.stages[id].tasks && r.0.stages[id].tasks == sys.stages[id].tasks[r.1 := WS.Queued]
    ensures r.1 in WS.Pending(r.0.stages[id])
    ensures r.0.stages[id].phase == sys.stages[id].phase && r.0.stages[id].startRuns == sys.stages[id].startRuns
    ensures r.0 == sys.(stages := sys.stages[id := r.0.stages[id]])
  {
    var s := WS.AddTask(sys.stages[id], HasStart(sys.bench.works[id].workload));
    StageUpdateValid(sys, id, s);
    (sys.(stages := sys.stages[id := s]), s.tail.gen)
  }

  lemma UpdateTwice<K, V>(m: map<K, V>, k: K, a: V, b: V)
    ensures m[k := a][k := b] == m[k := b]
  {
  }

  /** The hand-offs a stage makes when it starts, on the queue of the stage it
      comes after, if any, and on its own: each is pushed at the back of its
      queue, and begins at once exactly when that queue was idle. */
  lemma StartHandsOff(sys: System, id: nat, k: Workload)
    requires Valid(sys) && sys.bench.supply.On? && id in sys.stages && sys.stages[id].phase.Idle?
    requires k in Keys(sys.bench.works[id].workload)
    ensures var r := StartStage(sys, id);
      && k in r.queues
      && r.queues[k].enqueued == Enqueued(sys.queues, k) + [HandOff(id, k)]
      && (HandOff(id, k) in r.resolved <==> !Busy(sys.queues, k))
  {
    var w := sys.bench.works[id].workload;
    KeysCases(w, k);
    if k == w {
      StartHandsOffOwn(sys, id);
    } else {
      StartHandsOffAfter(sys, id);
      assert k == w.kind.after.value;
    }
  }

  /** A hand-off key of a workload is the workload itself or the stage it comes
      after. */
  lemma KeysCases(w: Workload, k: Workload)
    requires k in Keys(w)
    ensures w.kind.Stage?
    ensures k == w || (w.kind.after.Some? && k == w.kind.after.value)
  {
  }

  lemma StartHandsOffOwn(sys: System, id: nat)
    requires Valid(sys) && sys.bench.supply.On? && id in sys.stages && sys.stages[id].phase.Idle?
    ensures var r := StartStage(sys, id); var w := sys.bench.works[id].workload;
      && w in r.queues
      && r.queues[w].enqueued == Enqueued(sys.queues, w) + [HandOff(id, w)]
      && (HandOff(id, w) in r.resolved <==> !Busy(sys.queues, w))
  {
    var begun := BeginStage(sys, id);
    var first := HandOffAfter(begun, id);
    assert begun.bench.works[id] == sys.bench.works[id];
  }

  lemma StartHandsOffAfter(sys: System, id: nat)
    requires Valid(sys) && sys.bench.supply.On? && id in sys.stages && sys.stages[id].phase.Idle?
    requires sys.bench.works[id].workload.kind.Stage? && sys.bench.works[id].workload.kind.after.Some?
    ensures var r := StartStage(sys, id); var a := sys.bench.works[id].workload.kind.after.value;
      && a in r.queues
      && r.queues[a].enqueued == Enqueued(sys.queues, a) + [HandOff(id, a)]
      && (HandOff(id, a) in r.resolved <==> !Busy(sys.queues, a))
  {
    var w := sys.bench.works[id].workload;
    var begun := BeginStage(sys, id);
    var first := HandOffAfter(begun, id);
    assert begun.bench.works[id] == sys.bench.works[id];
    AfterIsNotSelf(w);
  }

  // ----------------------------------------------------------------------------
  // Cut-offs.

  /** The supply of work `i` goes off with `reason`: the workbench disposes of the
      work, and on each of the work's keys its hand-off, while it waits, is
      spliced out of the queue and its caller rejected with the reason. The
      running head of a queue stays where it is. Cutting a work already off
      changes nothing. */
  function CutOne(sys: System, i: nat, reason: Reason): (r: System)
    requires Core(sys) && i < |sys.bench.works|
    ensures Core(r)
    ensures r.bench == WB.CutWork(sys.bench, i, reason)
    ensures r.stages == sys.stages && r.ordering == sys.ordering && r.resolved == sys.resolved
    ensures r.queues.Keys == sys.queues.Keys
    ensures forall k :: k in sys.queues ==>
      r.queues[k] == (if k in Keys(sys.bench.works[i].workload) then OT.Cut(sys.queues[k], HandOff(i, k), reason) else sys.queues[k])
    ensures forall k, h :: k in r.queues && h in OT.Rest(r.queues[k].entries) ==> h.work != i
    ensures Valid(sys) && sys.ordering != Some(i) ==> Valid(r)
  {
    var w := sys.bench.works[i].workload;
    var queues := map k | k in sys.queues :: if k in Keys(w) then OT.Cut(sys.queues[k], HandOff(i, k), reason) else sys.queues[k];
    var r := sys.(bench := WB.CutWork(sys.bench, i, reason), queues := queues);
    CutOneValid(sys, i, reason, r);
    CutOneLive(sys, i, reason, r);
    r
  }

  /** Cutting a work other than the ordering work keeps the ordering work live
      exactly while the workbench is. */
  lemma CutOneLive(sys: System, i: nat, reason: Reason, r: System)
    requires OrderingValid(sys) && WB.Valid(sys.bench) && i < |sys.bench.works|
    requires r.bench == WB.CutWork(sys.bench, i, reason) && r.ordering == sys.ordering
    ensures OrderingLive(sys) && sys.ordering != Some(i) ==> OrderingLive(r)
  {
  }

  lemma CutOneValid(sys: System, i: nat, reason: Reason, r: System)
    requires Core(sys) && i < |sys.bench.works|
    requires r.bench == WB.CutWork(sys.bench, i, reason)
    requires r.stages == sys.stages && r.ordering == sys.ordering && r.resolved == sys.resolved
    requires r.queues.Keys == sys.queues.Keys
    requires forall k :: k in sys.queues ==>
      r.queues[k] == (if k in Keys(sys.bench.works[i].workload) then OT.Cut(sys.queues[k], HandOff(i, k), reason) else sys.queues[k])
    ensures Core(r)
  {
    CutWorksValid(sys, i, reason, r);
    CutQueuesFacts(sys.queues, r.queues, i, Keys(sys.bench.works[i].workload), reason);
    CutEntriesValid(sys, i, r);
    assert HandOffsValid(r);
    HeadsKeptResolved(sys, r);
    StagesWorkloadsValid(sys, r);
  }

  /** The resolved part of the invariant holds on when no queue gains or loses a
      started entry or changes its head. */
  lemma HeadsKeptResolved(sys: System, r: System)
    requires ResolvedValid(sys) && r.bench.supply == sys.bench.supply && r.resolved == sys.resolved
    requires r.queues.Keys == sys.queues.Keys
    requires forall k :: k in r.queues ==>
      r.queues[k].started == sys.queues[k].started && OT.Front(r.queues[k].entries) == OT.Front(sys.queues[k].entries)
    ensures ResolvedValid(r)
  {
    forall k | k in r.queues && r.queues[k].entries != []
      ensures sys.queues[k].entries != [] && r.queues[k].entries[0] == sys.queues[k].entries[0]
    {
      assert OT.Front(r.queues[k].entries) == [r.queues[k].entries[0]];
    }
  }

  lemma CutWorksValid(sys: System, i: nat, reason: Reason, r: System)
    requires WorksValid(sys) && OrderingValid(sys) && i < |sys.bench.works|
    requires r.bench == WB.CutWork(sys.bench, i, reason)
    requires r.stages == sys.stages && r.ordering == sys.ordering
    requires r.queues.Keys == sys.queues.Keys
    ensures WorksValid(r) && OrderingValid(r)
    ensures |r.bench.works| == |sys.bench.works| && r.bench.works[i].supply.Off?
    ensures forall j :: 0 <= j < |sys.bench.works| ==> r.bench.works[j].workload == sys.bench.works[j].workload
    ensures forall j :: 0 <= j < |sys.bench.works| && j != i ==> r.bench.works[j] == sys.bench.works[j]
  {
  }

  lemma CutEntriesValid(sys: System, i: nat, r: System)
    requires EntriesValid(sys) && OT.AllValid(sys.queues) && i < |sys.bench.works|
    requires |r.bench.works| == |sys.bench.works| && r.bench.works[i].supply.Off?
    requires forall j :: 0 <= j < |sys.bench.works| ==> r.bench.works[j].workload == sys.bench.works[j].workload
    requires forall j :: 0 <= j < |sys.bench.works| && j != i ==> r.bench.works[j] == sys.bench.works[j]
    requires r.stages == sys.stages && r.queues.Keys == sys.queues.Keys
    requires forall k :: k in r.queues ==> r.queues[k].enqueued == sys.queues[k].enqueued && r.queues[k].settled == sys.queues[k].settled
    requires forall k, x :: k in r.queues && x in r.queues[k].cancelled ==>
      x in sys.queues[k].cancelled || (k in Keys(sys.bench.works[i].workload) && x == HandOff(i, k))
    requires forall k, x :: k in r.queues && x in OT.Rest(r.queues[k].entries) ==>
      x in OT.Rest(sys.queues[k].entries) && (k in Keys(sys.bench.works[i].workload) ==> x != HandOff(i, k))
    ensures EntriesValid(r)
    ensures forall k, h :: k in r.queues && h in OT.Rest(r.queues[k].entries) ==> h.work != i
  {
    var keys := Keys(sys.bench.works[i].workload);
    AllWaitingEnqueued(sys.queues);
    forall k | k in r.queues
      ensures QueueEntriesValid(r.bench.works, r.stages, k, r.queues[k])
      ensures forall h :: h in OT.Rest(r.queues[k].entries) ==> h.work != i
    {
      CutQueueEntriesValid(sys.bench.works, r.bench.works, sys.stages, k, i, sys.queues[k], r.queues[k], k in keys);
    }
  }

  /** The waiting entries of every queue were all pushed to it. */
  lemma AllWaitingEnqueued(m: OT.Queues<Workload, HandOff>)
    requires OT.AllValid(m)
    ensures forall k, x :: k in m && x in OT.Rest(m[k].entries) ==> x in m[k].enqueued
  {
    forall k, x | k in m && x in OT.Rest(m[k].entries)
      ensures x in m[k].enqueued
    {
      OT.ValidFacts(m[k]);
    }
  }

  /** A queue keeps its part of the invariant when work `i` goes off and, if the
      queue's key is one of the work's keys, the work's hand-off is spliced out of
      it; afterwards no waiting entry belongs to work `i`. */
  lemma CutQueueEntriesValid(works: seq<WB.WorkRec>, nworks: seq<WB.WorkRec>, stages: map<nat, WS.StageWork>,
                             k: Workload, i: nat, q: OT.TaskQueue<HandOff>, nq: OT.TaskQueue<HandOff>, cutHere: bool)
    requires QueueEntriesValid(works, stages, k, q)
    requires forall x :: x in OT.Rest(q.entries) ==> x in q.enqueued
    requires i < |works| && |nworks| == |works| && nworks[i].supply.Off?
    requires forall j :: 0 <= j < |works| ==> nworks[j].workload == works[j].workload
    requires forall j :: 0 <= j < |works| && j != i ==> nworks[j] == works[j]
    requires cutHere <==> k in Keys(works[i].workload)
    requires nq.enqueued == q.enqueued && nq.settled == q.settled
    requires forall x :: x in nq.cancelled ==> x in q.cancelled || (cutHere && x == HandOff(i, k))
    requires forall x :: x in OT.Rest(nq.entries) ==> x in OT.Rest(q.entries) && (cutHere ==> x != HandOff(i, k))
    ensures QueueEntriesValid(nworks, stages, k, nq)
    ensures forall h :: h in OT.Rest(nq.entries) ==> h.work != i
  {
    forall h | h in nq.enqueued
      ensures k in Keys(nworks[h.work].workload)
    {
      assert nworks[h.work].workload == works[h.work].workload;
    }
  }

  /** The queues after a cut-off of work `i` on `keys`, field by field. */
  lemma CutQueuesFacts(m: OT.Queues<Workload, HandOff>, r: OT.Queues<Workload, HandOff>, i: nat, keys: seq<Workload>, reason: Reason)
    requires OT.AllValid(m) && r.Keys == m.Keys
    requires forall k :: k in m ==> r[k] == (if k in keys then OT.Cut(m[k], HandOff(i, k), reason) else m[k])
    ensures OT.AllValid(r)
    ensures forall k :: k in r ==>
      && r[k].enqueued == m[k].enqueued && r[k].settled == m[k].settled && r[k].started == m[k].started
      && OT.Front(r[k].entries) == OT.Front(m[k].entries)
    ensures forall k, x :: k in r && x in r[k].cancelled ==> x in m[k].cancelled || (k in keys && x == HandOff(i, k))
    ensures forall k, x :: k in r && x in OT.Rest(r[k].entries) ==> x in OT.Rest(m[k].entries) && (k in keys ==> x != HandOff(i, k))
  {
  }

  /** The stage part of the invariant holds on when no workload changes, the
      stages stay as they are and hand-offs only begin. */
  lemma StagesWorkloadsValid(sys: System, r: System)
    requires StagesValid(sys) && r.stages == sys.stages && sys.resolved <= r.resolved
    requires |r.bench.works| == |sys.bench.works|
    requires forall j :: 0 <= j < |sys.bench.works| ==> r.bench.works[j].workload == sys.bench.works[j].workload
    ensures StagesValid(r)
  {
    forall j: nat | j in r.stages && j < |r.bench.works| && NeedsDeps(r.stages[j])
      ensures DepsDone(r, j)
    {
      assert DepsDone(sys, j);
    }
  }

  /** `work.supply.off(reason)` on stage work `id`, by its user or by anything
      the supply follows. */
  function StageCut(sys: System, id: nat, reason: Reason): (r: System)
    requires Valid(sys) && id in sys.stages
    ensures Valid(r)
    ensures r.bench == WB.CutWork(sys.bench, id, reason)
    ensures r.stages == sys.stages && r.ordering == sys.ordering && r.resolved == sys.resolved
    ensures forall k, h :: k in r.queues && h in OT.Rest(r.queues[k].entries) ==> h.work != id
  {
    CutOne(sys, id, reason)
  }

  /** The tail of stage `id` fires its next generation. When that was the last
      generation added, the stage turns its own supply off, with no reason: by
      then its start procedure has settled and every task it was given has
      finished. Otherwise only the tail moves. */
  function TailFires(sys: System, id: nat): (r: System)
    requires Valid(sys) && id in sys.stages && Quiescence.CanFire(sys.stages[id].tail)
    ensures Valid(r) && id in r.stages
    ensures r.stages[id].phase == sys.stages[id].phase && r.stages[id].tasks == sys.stages[id].tasks
    ensures r.ordering == sys.ordering && r.resolved == sys.resolved
    ensures var off := WS.FireTail(sys.stages[id], HasStart(sys.bench.works[id].workload)).1;
      && (off ==> r.bench == WB.CutWork(sys.bench, id, None))
      && (off ==> !WS.Starting(sys.stages[id].phase) && !sys.stages[id].phase.Idle?)
      && (off ==> forall g :: g in sys.stages[id].tasks ==> sys.stages[id].tasks[g].Finished?)
      && (!off ==> r.bench == sys.bench && r.queues == sys.queues)
  {
    var fired := WS.FireTail(sys.stages[id], HasStart(sys.bench.works[id].workload));
    StageUpdateValid(sys, id, fired.0);
    var moved := sys.(stages := sys.stages[id := fired.0]);
    if fired.1 then StageCut(moved, id, None) else moved
  }

  /** Every work from index `from` on goes off with `reason`, in allocation
      order, each with the consequences `CutOne` describes. */
  function CutEach(sys: System, from: nat, reason: Reason): (r: System)
    requires Core(sys) && from <= |sys.bench.works|
    ensures Core(r)
    ensures r.bench == WB.CutFrom(sys.bench, from, reason)
    ensures r.stages == sys.stages && r.ordering == sys.ordering && r.resolved == sys.resolved
    decreases |sys.bench.works| - from
  {
    if from == |sys.bench.works| then sys
    else CutEach(CutOne(sys, from, reason), from + 1, reason)
  }

  /** `workbench.supply.off(reason)`, or the cut-off of the supply the workbench
      was given: every live work goes off with the reason, in allocation order,
      and the workbench stops. Afterwards no hand-off waits in any queue. A
      workbench already stopped is left as it is. */
  function StopBench(sys: System, reason: Reason): (r: System)
    requires Valid(sys)
    ensures Valid(r)
    ensures r.bench == WB.CutBench(sys.bench, reason)
    ensures r.stages == sys.stages && r.ordering == sys.ordering && r.resolved == sys.resolved
    ensures forall k :: k in r.queues ==> |r.queues[k].entries| <= 1
    ensures sys.bench.supply.Off? ==> r == sys
  {
    if sys.bench.supply.Off? then
      NothingWaits(sys);
      sys
    else
      var cut := CutEach(sys, 0, reason);
      var r := cut.(bench := WB.CutBench(sys.bench, reason));
      StopValid(sys, reason, cut, r);
      NothingWaits(r);
      r
  }

  lemma StopValid(sys: System, reason: Reason, cut: System, r: System)
    requires Core(cut) && sys.bench.supply.On? && WB.Valid(sys.bench)
    requires cut.bench == WB.CutFrom(sys.bench, 0, reason)
    requires r == cut.(bench := WB.CutBench(sys.bench, reason))
    ensures Valid(r)
  {
    assert r.bench.works == cut.bench.works;
    assert WorksValid(r) && OrderingValid(r) && OrderingLive(r);
    EntriesKeepValid(cut, r);
    assert HandOffsValid(r);
    assert ResolvedValid(r);
    StagesWorkloadsValid(cut, r);
  }

  /** When every work is off, no hand-off waits. */
  lemma NothingWaits(sys: System)
    requires EntriesValid(sys)
    requires forall i :: 0 <= i < |sys.bench.works| ==> sys.bench.works[i].supply.Off?
    ensures forall k :: k in sys.queues ==> |sys.queues[k].entries| <= 1
  {
    forall k | k in sys.queues
      ensures |sys.queues[k].entries| <= 1
    {
      var e := sys.queues[k].entries;
      WaitingIsLive(sys, k, 1);
    }
  }

  /** An entry behind the head of a queue belongs to a live work. */
  lemma WaitingIsLive(sys: System, k: Workload, i: nat)
    requires EntriesValid(sys) && k in sys.queues
    ensures var e := sys.queues[k].entries;
      1 <= i < |e| ==> e[i].work < |sys.bench.works| && sys.bench.works[e[i].work].supply.On?
  {
    var e := sys.queues[k].entries;
    assert 1 <= i < |e| ==> e[i] == OT.Rest(e)[i - 1];
  }

  // ----------------------------------------------------------------------------
  // Hand-offs settling.

  /** The running head of the queue of `k` can settle: its stage is off, so the
      body's wait for the stage to be done is over, or the body never ran. */
  predicate HeadDone(sys: System, k: Workload)
  {
    && k in sys.queues && sys.queues[k].entries != []
    && sys.queues[k].entries[0].work < |sys.bench.works|
    && sys.bench.works[sys.queues[k].entries[0].work].supply.Off?
  }

  /** A queue exists only with the ordering work. */
  lemma QueuesNeedOrdering(sys: System, k: Workload)
    requires OrderingValid(sys) && k in sys.queues
    ensures sys.ordering.Some? && sys.ordering.value < |sys.bench.works|
  {
  }

  /** What the ordering work's `run` of the hand-off at the head of the queue of
      `k` comes to. When the body ran, it is the stage's `whenDone` (a value after
      a cut-off without reason, that reason otherwise), checked against the
      ordering work; when the workbench stopped before the entry started, it is
      the `WorkDoneError` the ordering work's `run` throws. It is a value exactly
      when the body ran, the stage ended without a reason and the workbench is
      still live. */
  function HandOffOutcome(sys: System, k: Workload): (r: Outcome)
    requires Valid(sys) && HeadDone(sys, k)
    ensures var h := sys.queues[k].entries[0];
      r.Ok? <==> h in sys.resolved && sys.bench.works[h.work].supply == Off(None) && sys.bench.supply.On?
  {
    QueuesNeedOrdering(sys, k);
    var h := sys.queues[k].entries[0];
    var o := sys.ordering.value;
    var reason := sys.bench.works[h.work].supply.reason;
    if h in sys.resolved then
      WB.Finish(sys.bench, o, if reason.None? then Ok(0) else Err(CutBy(reason)))
    else
      // The workbench is off, so is the ordering work: this is its `WorkDoneError`.
      WB.Finish(sys.bench, o, Ok(0))
  }

  /** The hand-off at the head of the queue of `k` settles: it leaves the queue,
      and the next entry, if any, starts; its hand-off begins while the workbench
      is live. */
  function HandOffSettles(sys: System, k: Workload): (r: System)
    requires Valid(sys) && HeadDone(sys, k)
    ensures Valid(r)
    ensures r.bench == sys.bench && r.stages == sys.stages && r.ordering == sys.ordering
    ensures k in r.queues && r.queues == sys.queues[k := r.queues[k]]
    ensures var q := sys.queues[k];
      && r.queues[k].entries == q.entries[1..]
      && r.queues[k].settled == q.settled + [q.entries[0]]
      && (|q.entries| > 1 ==> q.entries[1] in r.queues[k].started)
      && r.resolved == sys.resolved + (if |q.entries| > 1 && sys.bench.supply.On? then {q.entries[1]} else {})
  {
    var q := sys.queues[k];
    var nq := OT.Settle(q, HandOffOutcome(sys, k));
    var r := sys.(queues := sys.queues[k := nq],
                  resolved := sys.resolved + (if |q.entries| > 1 && sys.bench.supply.On? then {q.entries[1]} else {}));
    HandOffSettlesValid(sys, k, nq, r);
    r
  }

  lemma HandOffSettlesValid(sys: System, k: Workload, nq: OT.TaskQueue<HandOff>, r: System)
    requires Valid(sys) && HeadDone(sys, k)
    requires OT.Valid(nq)
    requires var q := sys.queues[k];
      && nq.entries == q.entries[1..] && nq.enqueued == q.enqueued && nq.cancelled == q.cancelled
      && nq.settled == q.settled + [q.entries[0]] && nq.started == q.started + OT.Front(q.entries[1..])
    requires r == sys.(queues := sys.queues[k := nq],
                       resolved := sys.resolved + (if |sys.queues[k].entries| > 1 && sys.bench.supply.On? then {sys.queues[k].entries[1]} else {}))
    ensures Valid(r)
  {
    QueuesNeedOrdering(sys, k);
    WorksFrameValid(sys, r);
    OT.AllValidUpdate(sys.queues, k, nq, r.queues);
    SettleEntriesValid(sys, k, nq, r);
    OT.ValidFacts(sys.queues[k]);
    SettleResolvedValid(sys, k, nq, r);
    StagesFrameValid(sys, r);
  }

  lemma SettleEntriesValid(sys: System, k: Workload, nq: OT.TaskQueue<HandOff>, r: System)
    requires EntriesValid(sys) && HeadDone(sys, k)
    requires var q := sys.queues[k];
      && nq.entries == q.entries[1..] && nq.enqueued == q.enqueued && nq.cancelled == q.cancelled
      && nq.settled == q.settled + [q.entries[0]]
    requires r.bench == sys.bench && r.stages == sys.stages && r.queues == sys.queues[k := nq]
    ensures EntriesValid(r)
  {
    var q := sys.queues[k];
    forall h | h in OT.Rest(nq.entries)
      ensures h in OT.Rest(q.entries)
    {
      assert OT.Rest(nq.entries) == q.entries[2..];
    }
  }

  lemma SettleResolvedValid(sys: System, k: Workload, nq: OT.TaskQueue<HandOff>, r: System)
    requires ResolvedValid(sys) && k in sys.queues && sys.queues[k].entries != []
    requires |sys.queues[k].entries| > 1 ==> sys.queues[k].entries[1].key == k
    requires var q := sys.queues[k];
      && nq.entries == q.entries[1..] && nq.started == q.started + OT.Front(q.entries[1..])
    requires r.bench == sys.bench && r.queues == sys.queues[k := nq]
    requires r.resolved == sys.resolved + (if |sys.queues[k].entries| > 1 && sys.bench.supply.On? then {sys.queues[k].entries[1]} else {})
    ensures ResolvedValid(r)
  {
    var q := sys.queues[k];
    forall h | h in r.resolved
      ensures h.key in r.queues && h in r.queues[h.key].started
    {
      if h !in sys.resolved {
        assert |q.entries| > 1 && h == q.entries[1];
        assert OT.Front(q.entries[1..]) == [h];
        assert h in q.entries;
      } else if h.key == k {
        assert h in q.started;
      } else {
        assert r.queues[h.key] == sys.queues[h.key];
      }
    }
    if sys.bench.supply.On? {
      forall k2 | k2 in r.queues && r.queues[k2].entries != []
        ensures r.queues[k2].entries[0] in r.resolved
      {
        if k2 == k {
          assert r.queues[k2].entries[0] == q.entries[1];
        }
      }
    }
  }

  // ----------------------------------------------------------------------------
  // Ordering theorems.

  /** Once a hand-off in the queue of `k` has started, the stage of every hand-off
      enqueued before it has ended: it was cut off before its turn, or its entry
      settled, which it does only once its stage is off. */
  lemma EarlierHandOffsEnded(sys: System, k: Workload, i: nat, j: nat)
    requires HandOffsValid(sys) && k in sys.queues
    requires i < j < |sys.queues[k].enqueued| && sys.queues[k].enqueued[j] in sys.queues[k].started
    ensures var h := sys.queues[k].enqueued[i];
      h.work < |sys.bench.works| && sys.bench.works[h.work].supply.Off?
  {
    var q := sys.queues[k];
    if q.enqueued[i] !in q.cancelled {
      OT.PredecessorsSettled(q, i, j);
    }
  }

  /** A stage past its hand-offs (its hook running or done, or started) comes after
      every stage that handed off before it on the same key: each of those has
      ended. With `k` the stage's `after` stage, this is the `after` ordering; with
      `k` the stage itself, earlier starts of the same stage. */
  lemma StageWaitsForPredecessors(sys: System, id: nat, k: Workload, j: nat)
    requires HandOffsValid(sys) && ResolvedValid(sys) && StagesValid(sys)
    requires id in sys.stages && id < |sys.bench.works| && NeedsDeps(sys.stages[id])
    requires k in sys.queues && j < |sys.queues[k].enqueued| && sys.queues[k].enqueued[j] == HandOff(id, k)
    ensures forall i :: 0 <= i < j ==>
      var h := sys.queues[k].enqueued[i];
      h.work < |sys.bench.works| && sys.bench.works[h.work].supply.Off?
  {
    var q := sys.queues[k];
    assert k in Keys(sys.bench.works[id].workload);
    assert DepsDone(sys, id);
    assert HandOff(id, k) in sys.resolved;
    forall i | 0 <= i < j
      ensures q.enqueued[i].work < |sys.bench.works| && sys.bench.works[q.enqueued[i].work].supply.Off?
    {
      EarlierHandOffsEnded(sys, k, i, j);
    }
  }

  /** A task a stage has handed to the workbench runs only after every stage that
      handed off before the stage, on any of its keys, has ended. */
  lemma TasksRunAfterPredecessors(sys: System, id: nat, g: nat, k: Workload, j: nat)
    requires HandOffsValid(sys) && ResolvedValid(sys) && StagesValid(sys)
    requires id in sys.stages && id < |sys.bench.works|
    requires g in sys.stages[id].tasks && sys.stages[id].tasks[g].Running?
    requires k in sys.queues && j < |sys.queues[k].enqueued| && sys.queues[k].enqueued[j] == HandOff(id, k)
    ensures sys.stages[id].phase.Started?
    ensures forall i :: 0 <= i < j ==>
      var h := sys.queues[k].enqueued[i];
      h.work < |sys.bench.works| && sys.bench.works[h.work].supply.Off?
  {
    assert WS.Valid(sys.stages[id], HasStart(sys.bench.works[id].workload));
    StageWaitsForPredecessors(sys, id, k, j);
  }
}
