/**
 * The tail of a work stage: every promise added to the stage (its start
 * procedure and each task) extends a chain, and the stage turns itself off when
 * the link that settles is still the last one added.
 *
 * Generation `k` is the `k`-th added promise. A generation "fires" (its
 * `finally` callback runs) once its own promise settled and the generation
 * before it fired, so generations fire in order; `fired` counts those that did.
 */
module Quiescence {
  datatype Tail = Tail(gen: nat, fired: nat, unsettled: set<nat>)

  /** The result of a firing: the new tail, and whether it turned the stage off. */
  datatype Fired = Fired(tail: Tail, off: bool)

  /** Generations fire in order and never ahead of those added; only generations
      that have not fired can still be pending. */
  ghost predicate Valid(t: Tail)
  {
    && t.fired <= t.gen
    && forall k :: k in t.unsettled ==> t.fired < k <= t.gen
  }

  /** `whenDone = Promise.resolve()`: nothing added, nothing pending. */
  function Initial(): (t: Tail)
    ensures Valid(t)
    ensures t.fired == t.gen && t.unsettled == {}
  {
    Tail(0, 0, {})
  }

  /** `addTask(promise)`: a new last generation, pending until its promise
      settles; nothing that already fired changes. */
  function Add(t: Tail): (r: Tail)
    requires Valid(t)
    ensures Valid(r)
    ensures r.gen == t.gen + 1 && r.fired == t.fired
    ensures r.unsettled == t.unsettled + {r.gen}
    ensures r.gen !in t.unsettled
  {
    Tail(t.gen + 1, t.fired, t.unsettled + {t.gen + 1})
  }

  /** The promise of generation `k` settled, with a value or a failure: failures
      are swallowed, so both count the same. */
  function Settle(t: Tail, k: nat): (r: Tail)
    requires Valid(t)
    ensures Valid(r)
    ensures r.gen == t.gen && r.fired == t.fired
    ensures r.unsettled == t.unsettled - {k}
  {
    t.(unsettled := t.unsettled - {k})
  }

  /** The next generation may fire: it exists and its promise has settled. */
  predicate CanFire(t: Tail)
  {
    t.fired < t.gen && t.fired + 1 !in t.unsettled
  }

  /** The `finally` callback of the next generation: it turns the stage off exactly
      when it is the last generation added, which happens only once every added
      promise has settled; otherwise a later generation is still to fire. */
  function Fire(t: Tail): (r: Fired)
    requires Valid(t) && CanFire(t)
    ensures Valid(r.tail)
    ensures r.tail.gen == t.gen && r.tail.unsettled == t.unsettled
    ensures r.tail.fired == t.fired + 1
    ensures r.off <==> r.tail.fired == t.gen
    ensures r.off ==> t.unsettled == {}
    ensures !r.off ==> r.tail.fired < r.tail.gen
    ensures forall k :: 0 < k <= r.tail.fired ==> k !in r.tail.unsettled
  {
    var next := t.(fired := t.fired + 1);
    Fired(next, next.fired == next.gen)
  }

  /** Runs every firing that can happen before a pending promise blocks the chain.
      The stage is turned off exactly when no added promise is pending and some
      generation was still to fire; the chain then stops right before the first
      pending generation, or at the last one. */
  method Drain(t: Tail) returns (r: Tail, off: bool)
    requires Valid(t)
    ensures Valid(r) && !CanFire(r)
    ensures r.gen == t.gen && r.unsettled == t.unsettled
    ensures forall k :: k in t.unsettled ==> r.fired < k
    ensures r.fired == t.gen || r.fired + 1 in t.unsettled
    ensures off <==> t.fired < t.gen && t.unsettled == {}
  {
    r := t;
    off := false;
    while CanFire(r)
      invariant Valid(r)
      invariant r.gen == t.gen && r.unsettled == t.unsettled
      invariant t.fired <= r.fired
      invariant forall k :: k in t.unsettled ==> r.fired < k
      invariant off <==> r.fired == t.gen && t.fired < t.gen
      decreases r.gen - r.fired
    {
      var f := Fire(r);
      r := f.tail;
      off := off || f.off;
    }
    assert off <==> t.fired < t.gen && t.unsettled == {} by {
      if t.unsettled != {} {
        var k :| k in t.unsettled;
        assert r.fired < k <= t.gen;
      }
    }
  }

  /** A promise added before the last generation fires postpones the cut-off: that
      firing no longer turns the stage off, and the new generation must settle and
      fire first. */
  lemma LateAddPostpones(t: Tail)
    requires Valid(t) && CanFire(t) && t.fired + 1 == t.gen
    ensures Fire(t).off
    ensures !Fire(Add(t)).off
    ensures !CanFire(Fire(Add(t)).tail)
    ensures var later := Settle(Fire(Add(t)).tail, t.gen + 1);
      CanFire(later) && Fire(later).off
  {
  }
}
