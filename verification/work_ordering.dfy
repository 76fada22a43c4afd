/**
 * The ordering workload: the single workload whose work, in each workbench, is
 * the set of per-key hand-off queues shared by all work stages.
 */
module WorkOrdering {
  import opened Wrappers
  import opened Workloads
  import opened OrderedTasks

  /** The identity of the ordering workload. The library's constructor is private
      and its one instance is `WorkOrdering.$`; within a workbench the stage model
      shows that a single work of this kind exists (`Stages.OneOrderingWork`). */
  const OrderingId: nat := 0

  const Ordering: Workload := Workload(OrderingId, "ordering", OrderingKind)

  /** The allocator's `start`: a fresh set of queues, with no key queued yet. */
  function Start<K, E>(): (m: Queues<K, E>)
    ensures AllValid(m)
    ensures forall k :: k !in m
  {
    map[]
  }

  /** The ordering workload keeps the inherited descriptions: its work is `The work
      of ordering` and it prints as `Workload(ordering)`. */
  lemma OrderingNames()
    ensures WorkName(Ordering) == "The work of ordering"
    ensures ToString(Ordering) == "Workload(ordering)"
  {
  }
}
