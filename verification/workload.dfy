/**
 * Workloads: an immutable identity (`id`, `name`) plus the allocation strategy
 * that builds the work of that workload inside a workbench.
 */
module Workloads {
  import opened Wrappers

  /** The allocation strategy of a workload.
      - `Plain`: a user-supplied allocator, known only by an identifier;
      - `Stage`: the allocator of a work stage, with its optional `after` stage and
        whether a custom `start` hook was given;
      - `OrderingKind`: the allocator of the ordering workload, whose work is the
        shared set of ordered task queues. */
  datatype Kind =
    | Plain(allocator: nat)
    | Stage(after: Option<Workload>, hasStart: bool)
    | OrderingKind

  /** `id` stands for the object identity of the workload: two workloads constructed
      with equal names are still distinct keys of a workbench. */
  datatype Workload = Workload(id: nat, name: string, kind: Kind)

  const WorkOfPrefix: string := "The work of "
  const StagePrefix: string := "The "
  const StageSuffix: string := " stage"

  /** `new Workload(name, allocator)`. */
  function NewWorkload(id: nat, name: string, allocator: nat): (w: Workload)
    ensures w.name == name && w.kind == Plain(allocator) && w.id == id
  {
    Workload(id, name, Plain(allocator))
  }

  /** `Workload.workName()`: the inherited description of a work. */
  function BaseWorkName(name: string): string
  {
    WorkOfPrefix + name
  }

  /** `WorkStage.workName()`: the override used by work stages. */
  function StageWorkName(name: string): string
  {
    StagePrefix + name + StageSuffix
  }

  /** The description a workload gives of any of its works (the work argument is
      ignored by every implementation, so it is not a parameter here). */
  function WorkName(w: Workload): (r: string)
    ensures w.kind.Stage? ==> r == StageWorkName(w.name)
    ensures !w.kind.Stage? ==> r == BaseWorkName(w.name)
  {
    if w.kind.Stage? then StageWorkName(w.name) else BaseWorkName(w.name)
  }

  /** `toString()`: `Workload(<name>)`, or `WorkStage(<name>)` for a stage. */
  function ToString(w: Workload): string
  {
    (if w.kind.Stage? then "WorkStage(" else "Workload(") + w.name + ")"
  }

  /** The inherited work name is the fixed prefix followed by the workload name,
      so the name can be read back from it. */
  lemma BaseWorkNameRecoversName(name: string)
    ensures |BaseWorkName(name)| == 12 + |name|
    ensures BaseWorkName(name)[..12] == "The work of "
    ensures BaseWorkName(name)[12..] == name
  {
  }

  /** The stage work name wraps the stage name between `The ` and ` stage`. */
  lemma StageWorkNameRecoversName(name: string)
    ensures |StageWorkName(name)| == |name| + 10
    ensures StageWorkName(name)[..4] == "The "
    ensures StageWorkName(name)[4..4 + |name|] == name
    ensures StageWorkName(name)[4 + |name|..] == " stage"
  {
  }

  /** `toString()` wraps the name in the class name and parentheses. */
  lemma ToStringRecoversName(w: Workload)
    ensures w.kind.Stage? ==> ToString(w)[..10] == "WorkStage(" && ToString(w)[10..|ToString(w)| - 1] == w.name
    ensures !w.kind.Stage? ==> ToString(w)[..9] == "Workload(" && ToString(w)[9..|ToString(w)| - 1] == w.name
    ensures ToString(w)[|ToString(w)| - 1] == ')'
  {
  }

  /** In this model a stage never comes after itself: the stage it follows is a
      part of its value. The library reads `after` from the allocator object when
      the stage starts, so nothing there rules this out; see the README. */
  lemma AfterIsNotSelf(w: Workload)
    requires w.kind.Stage? && w.kind.after.Some?
    ensures w.kind.after.value != w
  {
    assert w.kind.after.value < w.kind.after;
    assert w.kind.after < w.kind;
    assert w.kind < w;
  }

  /** Distinct names give distinct work names, for plain workloads and for stages. */
  lemma WorkNameInjective(a: Workload, b: Workload)
    requires a.kind.Stage? == b.kind.Stage?
    requires a.name != b.name
    ensures WorkName(a) != WorkName(b)
  {
    if a.kind.Stage? {
      StageWorkNameRecoversName(a.name);
      StageWorkNameRecoversName(b.name);
    } else {
      BaseWorkNameRecoversName(a.name);
      BaseWorkNameRecoversName(b.name);
    }
  }
}
