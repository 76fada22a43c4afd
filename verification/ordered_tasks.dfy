/**
 * The per-key FIFO hand-off queues shared by all work stages of a workbench.
 *
 * A `TaskQueue` holds the entries of one key: the head entry runs, the others
 * wait. Besides the live entries the state keeps the history a caller can
 * observe: the order entries were pushed, started and settled in, the entries
 * spliced out because their actor was cut off, and the state of the promise each
 * `enqueue` call returned.
 */
module OrderedTasks {
  import opened Wrappers
  import opened Supplies
  import opened Tasks
  import opened Sequences

  /** The promise returned by `enqueue`: still pending, resolved with the task's own
      promise (so it ends with the task's outcome), or settled. */
  datatype Caller = Waiting | Adopted | Settled(outcome: Outcome)

  /** Why the supply of an entry went off: the private "done" marker used after the
      entry's task settled, or the cut-off of the entry's actor. */
  datatype EntryOff = EntryDone | ActorOff(reason: Reason)

  datatype TaskQueue<E> = TaskQueue(
    entries: seq<E>,
    enqueued: seq<E>,
    started: seq<E>,
    settled: seq<E>,
    cancelled: set<E>,
    callers: map<E, Caller>)

  function Rest<E>(s: seq<E>): seq<E>
  {
    if s == [] then [] else s[1..]
  }

  function Front<E>(s: seq<E>): seq<E>
  {
    if s == [] then [] else [s[0]]
  }

  /** A freshly created queue. */
  function EmptyQueue<E>(): (q: TaskQueue<E>)
    ensures Valid(q)
    ensures q.entries == [] && q.enqueued == [] && q.started == [] && q.settled == []
    ensures q.cancelled == {} && q.callers == map[]
  {
    assert Filter<E>([], {}) == [];
    TaskQueue([], [], [], [], {}, map[])
  }

  /** The invariant of a task queue:
      - entries are pushed at most once;
      - everything pushed and not spliced out has started, except the waiting
        entries, and started entries are exactly those pushed before them in
        push order (`Filter` keeps order);
      - every started entry has settled, except the head;
      - a caller is waiting exactly when its entry waits behind the head, and
        only the head's caller follows a running task. */
  ghost predicate Valid<E>(q: TaskQueue<E>)
  {
    OrderValid(q) && CallersValid(q)
  }

  /** The order part of the invariant. */
  ghost predicate OrderValid<E>(q: TaskQueue<E>)
  {
    && Distinct(q.enqueued)
    && (forall x :: x in q.cancelled ==> x in q.enqueued)
    && q.started + Rest(q.entries) == Filter(q.enqueued, q.cancelled)
    && q.started == q.settled + Front(q.entries)
  }

  /** The caller part of the invariant. */
  ghost predicate CallersValid<E>(q: TaskQueue<E>)
  {
    && (forall x :: x in q.callers ==> x in q.enqueued)
    && (forall x :: x in q.enqueued ==> x in q.callers)
    && (forall x :: x in q.callers ==> (q.callers[x] == Waiting <==> x in Rest(q.entries)))
    && (forall x :: x in q.callers && q.callers[x] == Adopted ==> Front(q.entries) == [x])
  }

  /** Entries whose task was started and has not settled yet. */
  ghost function Running<E>(q: TaskQueue<E>): set<E>
  {
    set x | x in q.started && x !in q.settled
  }

  /** Consequences of the invariant used by the transitions below. */
  lemma ValidFacts<E>(q: TaskQueue<E>)
    requires Valid(q)
    ensures Distinct(q.started + Rest(q.entries))
    ensures forall x :: x in q.started + Rest(q.entries) <==> x in q.enqueued && x !in q.cancelled
    ensures forall x :: x in q.entries ==> x in q.enqueued && x !in q.cancelled
    ensures q.entries != [] ==> q.entries[0] in q.started && q.entries[0] !in q.settled
    ensures q.entries != [] ==> q.entries[0] !in Rest(q.entries)
    ensures forall x :: x in q.settled ==> x !in q.entries
    ensures forall x :: x in q.started ==> x !in Rest(q.entries)
  {
    FilterDistinct(q.enqueued, q.cancelled);
    FilterMembers(q.enqueued, q.cancelled);
    var live := q.started + Rest(q.entries);
    forall x | x in Rest(q.entries) ensures x !in q.started {
      var k :| 0 <= k < |Rest(q.entries)| && Rest(q.entries)[k] == x;
      assert live[|q.started| + k] == x;
      forall m | 0 <= m < |q.started| ensures q.started[m] != x {
        assert live[m] == q.started[m];
      }
    }
    if q.entries != [] {
      assert q.entries == [q.entries[0]] + Rest(q.entries);
      assert q.started[|q.started| - 1] == q.entries[0];
      assert live[|q.started| - 1] == q.entries[0];
      forall x | x in q.settled ensures x != q.entries[0] {
        var m :| 0 <= m < |q.settled| && q.settled[m] == x;
        assert live[m] == x;
      }
    }
  }

  /** Only entries that were pushed are ever started. */
  lemma StartedWereEnqueued<E>(q: TaskQueue<E>)
    requires Valid(q)
    ensures forall x :: x in q.started ==> x in q.enqueued
  {
    ValidFacts(q);
    forall x | x in q.started
      ensures x in q.enqueued
    {
      assert x in q.started + Rest(q.entries);
    }
  }

  /** Each entry's task is started at most once. */
  lemma StartsOnce<E>(q: TaskQueue<E>)
    requires Valid(q)
    ensures Distinct(q.started)
  {
    ValidFacts(q);
    var live := q.started + Rest(q.entries);
    forall i, j | 0 <= i < j < |q.started| ensures q.started[i] != q.started[j] {
      assert live[i] == q.started[i] && live[j] == q.started[j];
    }
  }

  /** At most one task of a queue runs at any time, and it is the head entry. */
  lemma RunningIsHead<E>(q: TaskQueue<E>)
    requires Valid(q)
    ensures Running(q) == (if q.entries == [] then {} else {q.entries[0]})
  {
    ValidFacts(q);
    FilterDistinct(q.enqueued, q.cancelled);
    if q.entries == [] {
      assert q.started == q.settled;
    } else {
      forall x | x in Running(q) ensures x == q.entries[0] {
        assert q.started == q.settled + [q.entries[0]];
      }
    }
  }

  /** `_runNext`: start the head entry, if any; its caller adopts the task's promise. */
  function RunNext<E(==)>(q: TaskQueue<E>): (r: TaskQueue<E>)
    ensures r.entries == q.entries && r.enqueued == q.enqueued && r.settled == q.settled && r.cancelled == q.cancelled
    ensures r.started == q.started + Front(q.entries)
    ensures q.entries != [] && q.entries[0] in q.callers && q.callers[q.entries[0]] == Waiting ==> r.callers == q.callers[q.entries[0] := Adopted]
    ensures !(q.entries != [] && q.entries[0] in q.callers && q.callers[q.entries[0]] == Waiting) ==> r.callers == q.callers
  {
    if q.entries == [] then q
    else
      var first := q.entries[0];
      q.(started := q.started + [first],
         callers := if first in q.callers && q.callers[first] == Waiting then q.callers[first := Adopted] else q.callers)
  }

  /** `reject(reason)`: settles a still waiting caller with the cut-off reason. */
  function Reject<E(==)>(q: TaskQueue<E>, e: E, reason: Reason): (r: TaskQueue<E>)
    ensures r.entries == q.entries && r.enqueued == q.enqueued && r.started == q.started
    ensures r.settled == q.settled && r.cancelled == q.cancelled
    ensures e in q.callers && q.callers[e] == Waiting ==> r.callers == q.callers[e := Settled(Err(CutBy(reason)))]
    ensures !(e in q.callers && q.callers[e] == Waiting) ==> r.callers == q.callers
  {
    if e in q.callers && q.callers[e] == Waiting then q.(callers := q.callers[e := Settled(Err(CutBy(reason)))]) else q
  }

  /** The `whenOff` handler of an entry's supply. The "done" marker is ignored;
      any other reason splices the entry out unless it is the head, then rejects
      its caller. */
  function OnEntryOff<E(==)>(q: TaskQueue<E>, e: E, why: EntryOff): (r: TaskQueue<E>)
    ensures why.EntryDone? ==> r == q
    ensures why.ActorOff? && e in q.entries && Position(q.entries, e) > 0 ==>
      var i := Position(q.entries, e);
      && r.entries == q.entries[..i] + q.entries[i + 1..]
      && r.cancelled == q.cancelled + {e}
    ensures why.ActorOff? && !(e in q.entries && Position(q.entries, e) > 0) ==>
      r.entries == q.entries && r.cancelled == q.cancelled
    ensures r.enqueued == q.enqueued && r.started == q.started && r.settled == q.settled
    ensures why.ActorOff? && e in q.callers && q.callers[e] == Waiting ==> r.callers == q.callers[e := Settled(Err(CutBy(why.reason)))]
    ensures !(why.ActorOff? && e in q.callers && q.callers[e] == Waiting) ==> r.callers == q.callers
  {
    match why
    case EntryDone => q
    case ActorOff(reason) =>
      var spliced :=
        if e in q.entries && Position(q.entries, e) > 0 then
          var i := Position(q.entries, e);
          q.(entries := q.entries[..i] + q.entries[i + 1..], cancelled := q.cancelled + {e})
        else q;
      Reject(spliced, e, reason)
  }

  /** `TaskQueue.enqueue(actor, task)`, as the order of operations evidently
      intends: push the entry, register the cut-off handler (which runs at once
      when the actor is already off), and start the entry when the queue was empty
      before the push.

      The pushed entry starts immediately exactly when the queue was empty; the
      existing entries keep their order; an entry whose actor is already off is
      rejected with the actor's reason and is spliced out unless it is the head. */
  function Enqueue<E(==)>(q: TaskQueue<E>, e: E, actor: Supply): (r: TaskQueue<E>)
    requires Valid(q) && e !in q.enqueued
    ensures Valid(r)
    ensures r == Admitted(q, e, actor)
  {
    var pushed := q.(entries := q.entries + [e], enqueued := q.enqueued + [e], callers := q.callers[e := Waiting]);
    var handled := if actor.Off? then OnEntryOff(pushed, e, ActorOff(actor.reason)) else pushed;
    var r := if q.entries == [] then RunNext(handled) else handled;
    EnqueueFacts(q, e, actor, pushed, handled, r);
    r
  }

  /** The queue after an enqueue, case by case: into an empty queue the entry
      starts at once; behind a running head it waits; behind a running head with
      an actor already off it is cancelled on the spot. */
  function Admitted<E>(q: TaskQueue<E>, e: E, actor: Supply): TaskQueue<E>
  {
    if q.entries == [] then
      q.(entries := [e], enqueued := q.enqueued + [e], started := q.started + [e],
         callers := q.callers[e := if actor.Off? then Settled(Err(CutBy(actor.reason))) else Adopted])
    else if actor.On? then
      q.(entries := q.entries + [e], enqueued := q.enqueued + [e], callers := q.callers[e := Waiting])
    else
      q.(enqueued := q.enqueued + [e], cancelled := q.cancelled + {e}, callers := q.callers[e := Settled(Err(CutBy(actor.reason)))])
  }

  /** What an enqueue promises: the new entry is pushed last; it starts exactly
      when the queue was empty, and nothing else starts or settles; the entries
      already queued keep their order; an actor already off rejects the caller
      with its reason; every other caller is untouched. */
  lemma EnqueueSpec<E>(q: TaskQueue<E>, e: E, actor: Supply)
    requires Valid(q) && e !in q.enqueued
    ensures var r := Enqueue(q, e, actor);
      && r.enqueued == q.enqueued + [e]
      && (actor.On? ==> r.entries == q.entries + [e])
      && (actor.Off? ==> r.entries == (if q.entries == [] then [e] else q.entries))
      && (e in r.started <==> q.entries == [])
      && r.started == q.started + (if q.entries == [] then [e] else [])
      && r.settled == q.settled
      && e in r.callers
      && (actor.Off? ==> r.callers[e] == Settled(Err(CutBy(actor.reason))))
      && (actor.On? ==> r.callers[e] == (if q.entries == [] then Adopted else Waiting))
      && (forall x :: x in q.callers ==> x in r.callers && r.callers[x] == q.callers[x])
  {
    StartedWereEnqueued(q);
    assert e !in q.callers;
    AdmittedSpec(q, e, actor);
  }

  lemma AdmittedSpec<E>(q: TaskQueue<E>, e: E, actor: Supply)
    requires e !in q.callers && e !in q.started
    ensures var r := Admitted(q, e, actor);
      && r.enqueued == q.enqueued + [e]
      && (actor.On? ==> r.entries == q.entries + [e])
      && (actor.Off? ==> r.entries == (if q.entries == [] then [e] else q.entries))
      && (e in r.started <==> q.entries == [])
      && r.started == q.started + (if q.entries == [] then [e] else [])
      && r.settled == q.settled
      && e in r.callers
      && (actor.Off? ==> r.callers[e] == Settled(Err(CutBy(actor.reason))))
      && (actor.On? ==> r.callers[e] == (if q.entries == [] then Adopted else Waiting))
      && (forall x :: x in q.callers ==> x in r.callers && r.callers[x] == q.callers[x])
  {
  }

  /** An enqueue splices out only the new entry, and only when its actor is off and
      it would have to wait. */
  lemma EnqueueCancels<E>(q: TaskQueue<E>, e: E, actor: Supply)
    requires Valid(q) && e !in q.enqueued
    ensures Enqueue(q, e, actor).cancelled == q.cancelled + (if actor.Off? && q.entries != [] then {e} else {})
  {
  }

  /** The three shapes an enqueue can take, and the invariant for each. */
  lemma EnqueueFacts<E>(q: TaskQueue<E>, e: E, actor: Supply, pushed: TaskQueue<E>, handled: TaskQueue<E>, r: TaskQueue<E>)
    requires Valid(q) && e !in q.enqueued
    requires pushed == q.(entries := q.entries + [e], enqueued := q.enqueued + [e], callers := q.callers[e := Waiting])
    requires handled == if actor.Off? then OnEntryOff(pushed, e, ActorOff(actor.reason)) else pushed
    requires r == if q.entries == [] then RunNext(handled) else handled
    ensures Valid(r)
    ensures r == Admitted(q, e, actor)
  {
    FilterAppend(q.enqueued, [e], q.cancelled);
    assert Filter([e], q.cancelled) == [e] by {
      assert [e][..0] == [];
    }
    ValidFacts(q);
    if q.entries == [] {
      var c := if actor.Off? then Settled(Err(CutBy(actor.reason))) else Adopted;
      IdleShape(q, e, actor, pushed, handled, r);
      IdleOrder(q, e, r);
      IdleCallers(q, e, c, r);
    } else if actor.Off? {
      BusyCutShape(q, e, actor.reason, pushed, handled);
      BusyCutOrder(q, e, r);
      BusyCutCallers(q, e, Settled(Err(CutBy(actor.reason))), r);
    } else {
      BusyOrder(q, e, r);
      BusyCallers(q, e, r);
    }
  }

  /** How an enqueue into an empty queue unfolds. */
  lemma IdleShape<E>(q: TaskQueue<E>, e: E, actor: Supply, pushed: TaskQueue<E>, handled: TaskQueue<E>, r: TaskQueue<E>)
    requires q.entries == [] && e !in q.callers
    requires pushed == q.(entries := q.entries + [e], enqueued := q.enqueued + [e], callers := q.callers[e := Waiting])
    requires handled == if actor.Off? then OnEntryOff(pushed, e, ActorOff(actor.reason)) else pushed
    requires r == RunNext(handled)
    ensures r == q.(entries := [e], enqueued := q.enqueued + [e], started := q.started + [e],
                    callers := q.callers[e := if actor.Off? then Settled(Err(CutBy(actor.reason))) else Adopted])
  {
    assert pushed.entries == [e];
    assert Position(pushed.entries, e) == 0;
    assert handled.entries == [e] && handled.cancelled == q.cancelled;
  }

  /** How an enqueue behind a running head unfolds when the actor is already off. */
  lemma BusyCutShape<E>(q: TaskQueue<E>, e: E, reason: Reason, pushed: TaskQueue<E>, handled: TaskQueue<E>)
    requires q.entries != [] && e !in q.entries && e !in q.callers
    requires pushed == q.(entries := q.entries + [e], enqueued := q.enqueued + [e], callers := q.callers[e := Waiting])
    requires handled == OnEntryOff(pushed, e, ActorOff(reason))
    ensures handled == q.(enqueued := q.enqueued + [e], cancelled := q.cancelled + {e},
                          callers := q.callers[e := Settled(Err(CutBy(reason)))])
  {
    PositionAfter(q.entries, [e], e);
    assert Position(pushed.entries, e) == |q.entries|;
    assert pushed.entries[..|q.entries|] + pushed.entries[|q.entries| + 1..] == q.entries;
  }

  lemma IdleOrder<E>(q: TaskQueue<E>, e: E, r: TaskQueue<E>)
    requires OrderValid(q) && e !in q.enqueued && q.entries == []
    requires Filter(q.enqueued + [e], q.cancelled) == Filter(q.enqueued, q.cancelled) + [e]
    requires r.entries == [e] && r.enqueued == q.enqueued + [e] && r.started == q.started + [e]
    requires r.settled == q.settled && r.cancelled == q.cancelled
    ensures OrderValid(r)
  {
    assert Distinct(r.enqueued);
  }

  lemma IdleCallers<E>(q: TaskQueue<E>, e: E, c: Caller, r: TaskQueue<E>)
    requires CallersValid(q) && e !in q.enqueued && q.entries == [] && c != Waiting
    requires r.entries == [e] && r.enqueued == q.enqueued + [e] && r.callers == q.callers[e := c]
    ensures CallersValid(r)
  {
  }

  lemma BusyOrder<E>(q: TaskQueue<E>, e: E, r: TaskQueue<E>)
    requires OrderValid(q) && e !in q.enqueued && q.entries != []
    requires Filter(q.enqueued + [e], q.cancelled) == Filter(q.enqueued, q.cancelled) + [e]
    requires r.entries == q.entries + [e] && r.enqueued == q.enqueued + [e] && r.started == q.started
    requires r.settled == q.settled && r.cancelled == q.cancelled
    ensures OrderValid(r)
  {
    assert Rest(q.entries + [e]) == Rest(q.entries) + [e];
    assert Front(q.entries + [e]) == Front(q.entries);
    assert Distinct(r.enqueued);
  }

  lemma BusyCallers<E>(q: TaskQueue<E>, e: E, r: TaskQueue<E>)
    requires CallersValid(q) && e !in q.enqueued && q.entries != []
    requires r.entries == q.entries + [e] && r.enqueued == q.enqueued + [e] && r.callers == q.callers[e := Waiting]
    ensures CallersValid(r)
  {
    assert Rest(q.entries + [e]) == Rest(q.entries) + [e];
    assert Front(q.entries + [e]) == Front(q.entries);
  }

  lemma BusyCutOrder<E>(q: TaskQueue<E>, e: E, r: TaskQueue<E>)
    requires OrderValid(q) && e !in q.enqueued
    requires Filter(q.enqueued + [e], q.cancelled) == Filter(q.enqueued, q.cancelled) + [e]
    requires r.entries == q.entries && r.enqueued == q.enqueued + [e] && r.started == q.started
    requires r.settled == q.settled && r.cancelled == q.cancelled + {e}
    ensures OrderValid(r)
  {
    FilterUnion(r.enqueued, q.cancelled, {e});
    FilterMembers(q.enqueued, q.cancelled);
    FilterSingleDropped(Filter(q.enqueued, q.cancelled), e);
    assert Distinct(r.enqueued);
  }

  lemma BusyCutCallers<E>(q: TaskQueue<E>, e: E, c: Caller, r: TaskQueue<E>)
    requires CallersValid(q) && e !in q.enqueued && e !in q.entries && q.entries != [] && c != Waiting && c != Adopted
    requires r.entries == q.entries && r.enqueued == q.enqueued + [e] && r.callers == q.callers[e := c]
    ensures CallersValid(r)
  {
  }

  /** The settlement of the running head (the `finally` callback): shift it off,
      mark its supply done, and start the next entry. The head's caller ends with
      exactly the task's own outcome. */
  function Settle<E(==)>(q: TaskQueue<E>, outcome: Outcome): (r: TaskQueue<E>)
    requires Valid(q) && q.entries != []
    ensures Valid(r)
    ensures r.entries == q.entries[1..]
    ensures r.enqueued == q.enqueued && r.cancelled == q.cancelled
    ensures r.settled == q.settled + [q.entries[0]]
    ensures r.started == q.started + Front(q.entries[1..])
    ensures q.entries[0] in q.callers && q.entries[0] in r.callers
    ensures q.callers[q.entries[0]] == Adopted ==> r.callers[q.entries[0]] == Settled(outcome)
    ensures q.callers[q.entries[0]] != Adopted ==> r.callers[q.entries[0]] == q.callers[q.entries[0]]
    ensures |q.entries| > 1 ==> q.entries[1] in r.callers && r.callers[q.entries[1]] == Adopted
    ensures forall x :: x in q.callers && x !in q.entries[..if |q.entries| > 1 then 2 else 1] ==> x in r.callers && r.callers[x] == q.callers[x]
  {
    ValidFacts(q);
    var head := q.entries[0];
    var resolved := if q.callers[head] == Adopted then q.callers[head := Settled(outcome)] else q.callers;
    var shifted := q.(entries := q.entries[1..], settled := q.settled + [head], callers := resolved);
    var r := RunNext(OnEntryOff(shifted, head, EntryDone));
    SettleFacts(q, outcome, resolved, r);
    r
  }

  lemma SettleFacts<E>(q: TaskQueue<E>, outcome: Outcome, resolved: map<E, Caller>, r: TaskQueue<E>)
    requires Valid(q) && q.entries != [] && q.entries[0] in q.callers
    requires resolved == if q.callers[q.entries[0]] == Adopted then q.callers[q.entries[0] := Settled(outcome)] else q.callers
    requires r == RunNext(q.(entries := q.entries[1..], settled := q.settled + [q.entries[0]], callers := resolved))
    ensures Valid(r)
    ensures |q.entries| > 1 ==> r.callers == resolved[q.entries[1] := Adopted]
    ensures |q.entries| == 1 ==> r.callers == resolved
  {
    ValidFacts(q);
    var head := q.entries[0];
    if |q.entries| > 1 {
      assert q.entries[1] in Rest(q.entries);
      assert q.entries[1] != head;
      assert q.callers[q.entries[1]] == Waiting;
      assert resolved[q.entries[1]] == Waiting;
    }
    SettleOrder(q, r);
    SettleCallers(q, outcome, resolved, r);
  }

  lemma SettleOrder<E>(q: TaskQueue<E>, r: TaskQueue<E>)
    requires OrderValid(q) && q.entries != []
    requires r.entries == q.entries[1..] && r.enqueued == q.enqueued && r.cancelled == q.cancelled
    requires r.settled == q.settled + [q.entries[0]] && r.started == q.started + Front(q.entries[1..])
    ensures OrderValid(r)
  {
    if |q.entries| > 1 {
      assert Rest(q.entries) == [q.entries[1]] + q.entries[2..];
      assert Rest(r.entries) == q.entries[2..];
    }
  }

  lemma SettleCallers<E>(q: TaskQueue<E>, outcome: Outcome, resolved: map<E, Caller>, r: TaskQueue<E>)
    requires CallersValid(q) && q.entries != [] && q.entries[0] in q.callers
    requires Distinct(q.started + Rest(q.entries)) && q.entries[0] !in Rest(q.entries)
    requires forall x :: x in q.entries ==> x in q.enqueued
    requires resolved == if q.callers[q.entries[0]] == Adopted then q.callers[q.entries[0] := Settled(outcome)] else q.callers
    requires r.entries == q.entries[1..] && r.enqueued == q.enqueued
    requires |q.entries| > 1 ==> r.callers == resolved[q.entries[1] := Adopted]
    requires |q.entries| == 1 ==> r.callers == resolved
    ensures CallersValid(r)
  {
    assert q.callers[q.entries[0]] != Waiting;
    if |q.entries| > 1 {
      SecondNotLater(q.started, q.entries);
      assert q.entries[1] in Rest(q.entries);
      SettleCallersNext(q, resolved, r);
    } else {
      SettleCallersLast(q, resolved, r);
    }
  }

  /** The entry behind the head is not waiting again further back. */
  lemma SecondNotLater<E>(started: seq<E>, entries: seq<E>)
    requires Distinct(started + Rest(entries)) && |entries| > 1
    ensures entries[1] !in entries[2..]
  {
    var live := started + Rest(entries);
    forall k | 0 <= k < |entries| - 2
      ensures entries[2..][k] != entries[1]
    {
      assert live[|started| + 1 + k] == entries[2..][k];
      assert live[|started|] == entries[1];
    }
  }

  lemma SettleCallersNext<E>(q: TaskQueue<E>, resolved: map<E, Caller>, r: TaskQueue<E>)
    requires CallersValid(q) && |q.entries| > 1 && q.entries[0] in q.callers
    requires q.callers[q.entries[0]] != Waiting && q.entries[1] !in q.entries[2..]
    requires forall x :: x in q.entries ==> x in q.enqueued
    requires q.entries[0] != q.entries[1]
    requires resolved.Keys == q.callers.Keys && resolved[q.entries[0]] != Waiting && resolved[q.entries[0]] != Adopted
    requires forall x :: x in q.callers && x != q.entries[0] ==> resolved[x] == q.callers[x]
    requires r.entries == q.entries[1..] && r.enqueued == q.enqueued
    requires r.callers == resolved[q.entries[1] := Adopted]
    ensures CallersValid(r)
  {
    var head, next := q.entries[0], q.entries[1];
    assert Rest(q.entries) == [next] + Rest(r.entries);
    forall x | x in r.callers
      ensures (r.callers[x] == Waiting <==> x in Rest(r.entries))
      ensures r.callers[x] == Adopted ==> Front(r.entries) == [x]
    {
      if x != head && x != next {
        assert r.callers[x] == q.callers[x];
      }
    }
  }

  lemma SettleCallersLast<E>(q: TaskQueue<E>, resolved: map<E, Caller>, r: TaskQueue<E>)
    requires CallersValid(q) && |q.entries| == 1 && q.entries[0] in q.callers
    requires resolved.Keys == q.callers.Keys && resolved[q.entries[0]] != Waiting && resolved[q.entries[0]] != Adopted
    requires forall x :: x in q.callers && x != q.entries[0] ==> resolved[x] == q.callers[x]
    requires r.entries == [] && r.enqueued == q.enqueued
    requires r.callers == resolved
    ensures CallersValid(r)
  {
    var head := q.entries[0];
    assert Rest(q.entries) == [];
    forall x | x in r.callers
      ensures r.callers[x] != Waiting && r.callers[x] != Adopted
    {
      if x != head {
        assert r.callers[x] == q.callers[x];
      }
    }
  }

  /** The cut-off of an entry's actor. A waiting entry is spliced out, the others
      keeping their order, and its caller is rejected with the actor's reason; the
      running head is never removed and its caller, like any caller already
      settled, is left as is. */
  function Cut<E(==)>(q: TaskQueue<E>, e: E, reason: Reason): (r: TaskQueue<E>)
    requires Valid(q)
    ensures Valid(r)
    ensures e in Rest(q.entries) ==>
      && e !in r.entries
      && (exists i :: 1 <= i < |q.entries| && q.entries[i] == e && r.entries == q.entries[..i] + q.entries[i + 1..])
      && e in r.callers && r.callers[e] == Settled(Err(CutBy(reason)))
      && (forall x :: x in q.callers && x != e ==> x in r.callers && r.callers[x] == q.callers[x])
    ensures e !in Rest(q.entries) ==> r == q
    ensures r.enqueued == q.enqueued && r.started == q.started && r.settled == q.settled
    ensures r.cancelled == q.cancelled + (if e in Rest(q.entries) then {e} else {})
    ensures |r.entries| <= |q.entries| && Front(r.entries) == Front(q.entries)
    ensures forall x :: x in Rest(r.entries) ==> x in Rest(q.entries) && x != e
  {
    var r := OnEntryOff(q, e, ActorOff(reason));
    CutFacts(q, e, reason, r);
    CutShape(q, e, reason, r);
    r
  }

  /** The shape of a cut-off queue, from the two ways `CutFacts` leaves it. */
  lemma CutShape<E>(q: TaskQueue<E>, e: E, reason: Reason, r: TaskQueue<E>)
    requires e in Rest(q.entries) ==>
      var i := Position(q.entries, e);
      && 1 <= i < |q.entries|
      && r == q.(entries := q.entries[..i] + q.entries[i + 1..], cancelled := q.cancelled + {e},
                 callers := q.callers[e := Settled(Err(CutBy(reason)))])
      && e !in r.entries
    requires e !in Rest(q.entries) ==> r == q
    ensures e in Rest(q.entries) ==>
      && e !in r.entries
      && (exists i :: 1 <= i < |q.entries| && q.entries[i] == e && r.entries == q.entries[..i] + q.entries[i + 1..])
      && e in r.callers && r.callers[e] == Settled(Err(CutBy(reason)))
      && (forall x :: x in q.callers && x != e ==> x in r.callers && r.callers[x] == q.callers[x])
    ensures r.enqueued == q.enqueued && r.started == q.started && r.settled == q.settled
    ensures r.cancelled == q.cancelled + (if e in Rest(q.entries) then {e} else {})
    ensures |r.entries| <= |q.entries| && Front(r.entries) == Front(q.entries)
    ensures forall x :: x in Rest(r.entries) ==> x in Rest(q.entries) && x != e
  {
    if e in Rest(q.entries) {
      var i := Position(q.entries, e);
      SpliceShape(q.entries, i);
      assert q.entries[i] == e;
    }
  }

  lemma CutFacts<E>(q: TaskQueue<E>, e: E, reason: Reason, r: TaskQueue<E>)
    requires Valid(q)
    requires r == OnEntryOff(q, e, ActorOff(reason))
    ensures Valid(r)
    ensures e in Rest(q.entries) ==>
      var i := Position(q.entries, e);
      && 1 <= i < |q.entries|
      && r == q.(entries := q.entries[..i] + q.entries[i + 1..], cancelled := q.cancelled + {e},
                 callers := q.callers[e := Settled(Err(CutBy(reason)))])
      && e !in r.entries
    ensures e !in Rest(q.entries) ==> r == q
  {
    if e in Rest(q.entries) {
      CutWaiting(q, e, reason, r);
    } else {
      CutNotWaiting(q, e, reason, r);
    }
  }

  lemma CutWaiting<E>(q: TaskQueue<E>, e: E, reason: Reason, r: TaskQueue<E>)
    requires Valid(q) && e in Rest(q.entries)
    requires r == OnEntryOff(q, e, ActorOff(reason))
    ensures Valid(r)
    ensures var i := Position(q.entries, e);
      && 1 <= i < |q.entries|
      && r == q.(entries := q.entries[..i] + q.entries[i + 1..], cancelled := q.cancelled + {e},
                 callers := q.callers[e := Settled(Err(CutBy(reason)))])
      && e !in r.entries
  {
    WaitingFacts(q);
    var i := Position(q.entries, e);
    assert i > 0 by {
      assert q.entries[0] !in Rest(q.entries);
    }
    assert e in q.callers && q.callers[e] == Waiting;
    SpliceResult(q, e, reason, i, r);
    SpliceShape(q.entries, i);
    CutOrder(q, e, i, r);
    CutCallers(q, e, i, reason, r);
  }

  /** The handler on a waiting entry splices it out and rejects its caller. */
  lemma SpliceResult<E>(q: TaskQueue<E>, e: E, reason: Reason, i: nat, r: TaskQueue<E>)
    requires e in q.entries && i == Position(q.entries, e) && i > 0
    requires e in q.callers && q.callers[e] == Waiting
    requires r == OnEntryOff(q, e, ActorOff(reason))
    ensures r == q.(entries := q.entries[..i] + q.entries[i + 1..], cancelled := q.cancelled + {e},
                    callers := q.callers[e := Settled(Err(CutBy(reason)))])
  {
  }

  /** The consequences of the invariant a cut-off of a waiting entry needs. */
  lemma WaitingFacts<E>(q: TaskQueue<E>)
    requires Valid(q)
    ensures Distinct(q.started + Rest(q.entries))
    ensures forall x :: x in q.entries ==> x in q.enqueued
    ensures q.entries != [] ==> q.entries[0] !in Rest(q.entries)
  {
    ValidFacts(q);
  }

  lemma CutNotWaiting<E>(q: TaskQueue<E>, e: E, reason: Reason, r: TaskQueue<E>)
    requires Valid(q) && e !in Rest(q.entries)
    requires r == OnEntryOff(q, e, ActorOff(reason))
    ensures r == q
  {
    ValidFacts(q);
    if e in q.entries {
      assert q.entries == [q.entries[0]] + Rest(q.entries);
    }
  }

  /** Splicing a waiting entry out keeps the head and drops it from the rest. */
  lemma SpliceShape<E>(s: seq<E>, i: nat)
    requires 1 <= i < |s|
    ensures Front(s[..i] + s[i + 1..]) == Front(s)
    ensures Rest(s) == s[1..i] + [s[i]] + s[i + 1..]
    ensures Rest(s[..i] + s[i + 1..]) == s[1..i] + s[i + 1..]
    ensures s[..i] + s[i + 1..] == [s[0]] + s[1..i] + s[i + 1..]
  {
  }

  lemma CutOrder<E>(q: TaskQueue<E>, e: E, i: nat, r: TaskQueue<E>)
    requires OrderValid(q) && 1 <= i < |q.entries| && q.entries[i] == e && e in q.enqueued
    requires Distinct(q.started + Rest(q.entries)) && q.entries[0] != e
    requires Front(r.entries) == Front(q.entries)
    requires Rest(q.entries) == q.entries[1..i] + [e] + q.entries[i + 1..]
    requires Rest(r.entries) == q.entries[1..i] + q.entries[i + 1..]
    requires r.entries == [q.entries[0]] + q.entries[1..i] + q.entries[i + 1..]
    requires r.cancelled == q.cancelled + {e}
    requires r.enqueued == q.enqueued && r.started == q.started && r.settled == q.settled
    ensures OrderValid(r)
    ensures e !in r.entries
  {
    var a := q.started + q.entries[1..i];
    var b := q.entries[i + 1..];
    assert q.started + Rest(q.entries) == a + [e] + b;
    DistinctSplit(a, e, b);
    FilterOne(a, e, b);
    FilterUnion(q.enqueued, q.cancelled, {e});
    assert q.started + Rest(r.entries) == a + b;
  }

  lemma CutCallers<E>(q: TaskQueue<E>, e: E, i: nat, reason: Reason, r: TaskQueue<E>)
    requires CallersValid(q) && 1 <= i < |q.entries| && q.entries[i] == e && e in q.callers
    requires Front(r.entries) == Front(q.entries)
    requires Rest(q.entries) == q.entries[1..i] + [e] + q.entries[i + 1..]
    requires Rest(r.entries) == q.entries[1..i] + q.entries[i + 1..]
    requires r.enqueued == q.enqueued
    requires r.callers == q.callers[e := Settled(Err(CutBy(reason)))]
    requires e !in r.entries
    ensures CallersValid(r)
  {
    forall x | x in r.callers && x != e ensures (r.callers[x] == Waiting <==> x in Rest(r.entries)) {
      assert x in Rest(q.entries) <==> x in Rest(r.entries);
    }
  }

  /** Tasks start in enqueue order, each only after every earlier entry settled:
      if an entry has started, every entry pushed before it that was not spliced
      out has already settled. */
  lemma PredecessorsSettled<E>(q: TaskQueue<E>, i: nat, j: nat)
    requires Valid(q)
    requires i < j < |q.enqueued|
    requires q.enqueued[j] in q.started && q.enqueued[i] !in q.cancelled
    ensures q.enqueued[i] in q.settled
  {
    ValidFacts(q);
    FilterDistinct(q.enqueued, q.cancelled);
    var live := Filter(q.enqueued, q.cancelled);
    var x := q.enqueued[i];
    var y := q.enqueued[j];
    FilterKeepsOrder(q.enqueued, q.cancelled, i, j);
    PositionAppend(q.started, Rest(q.entries), y);
    var py := Position(live, y);
    var px := Position(live, x);
    assert py < |q.started|;
    assert px < py;
    assert q.started[px] == x;
    if q.entries != [] {
      assert y != q.entries[0] || py == |q.started| - 1;
      assert px < |q.settled|;
    }
    assert q.settled[px] == x;
  }

  /** The ordering work: one lazily created queue per key. */
  type Queues<K, E> = map<K, TaskQueue<E>>

  ghost predicate AllValid<K, E>(m: Queues<K, E>)
  {
    forall k {:trigger Valid(m[k])} :: k in m ==> Valid(m[k])
  }

  /** `OrderedTasks.runAfter(key, actor, task)`: creates the queue of `key` only
      when there is none, reuses it otherwise, and leaves the other keys' queues
      untouched. */
  function RunAfter<K(==), E(==)>(m: Queues<K, E>, key: K, e: E, actor: Supply): (r: Queues<K, E>)
    requires AllValid(m)
    requires key in m ==> e !in m[key].enqueued
    ensures AllValid(r)
    ensures r.Keys == m.Keys + {key}
    ensures forall k :: k in m && k != key ==> r[k] == m[k]
    ensures key in m ==> r[key] == Admitted(m[key], e, actor)
    ensures key !in m ==> r[key] == Admitted(EmptyQueue(), e, actor)
  {
    var q := Enqueue(QueueOf(m, key), e, actor);
    AllValidUpdate(m, key, q, m[key := q]);
    m[key := q]
  }

  /** The queue of `key`, or a fresh one when the key has none yet. */
  function QueueOf<K, E>(m: Queues<K, E>, key: K): (q: TaskQueue<E>)
    requires AllValid(m)
    ensures Valid(q)
    ensures key in m ==> q == m[key]
    ensures key !in m ==> q == EmptyQueue()
  {
    if key in m then m[key] else EmptyQueue()
  }

  lemma AllValidUpdate<K, E>(m: Queues<K, E>, key: K, q: TaskQueue<E>, r: Queues<K, E>)
    requires AllValid(m) && Valid(q) && r == m[key := q]
    ensures AllValid(r)
  {
  }

  // ----------------------------------------------------------------------------
  // The enqueue as written.

  /** `TaskQueue.enqueue` exactly as written: the entry is started when the queue
      holds one entry after the push and the cut-off handler ran. When the actor is
      already off and one entry was running, the handler splices the new entry out
      and the length test then starts the running head a second time. */
  function EnqueueAsWritten<E(==)>(q: TaskQueue<E>, e: E, actor: Supply): (r: TaskQueue<E>)
    ensures r.enqueued == q.enqueued + [e]
    ensures actor.On? && q.entries == [] ==> r.started == q.started + [e]
    ensures actor.On? && q.entries != [] ==> r.started == q.started
  {
    var pushed := q.(entries := q.entries + [e], enqueued := q.enqueued + [e], callers := q.callers[e := Waiting]);
    var handled := if actor.Off? then OnEntryOff(pushed, e, ActorOff(actor.reason)) else pushed;
    if |handled.entries| == 1 then RunNext(handled) else handled
  }

  /** The counterexample: one entry runs alone in a valid queue; another entry is
      enqueued with an actor that is already off. As written, the running entry
      is started a second time, so its task runs twice and the queue leaves its
      invariant. `EnqueueSpec` shows the corrected `Enqueue` starts nothing in
      this case. */
  lemma EnqueueAsWrittenRestartsHead<E>(q: TaskQueue<E>, e: E)
    requires Valid(q) && |q.entries| == 1 && e !in q.enqueued
    ensures EnqueueAsWritten(q, e, Off(None)).started == q.started + [q.entries[0]]
    ensures q.entries[0] in q.started
    ensures !Valid(EnqueueAsWritten(q, e, Off(None)))
  {
    ValidFacts(q);
    AsWrittenRestartsLoneHead(q, e, None);
    StartedTwiceInvalid(EnqueueAsWritten(q, e, Off(None)), q.started, q.entries[0]);
  }

  /** As written, an entry enqueued with an actor already off behind a lone entry
      is spliced out, after which the lone entry is started again. */
  lemma AsWrittenRestartsLoneHead<E>(q: TaskQueue<E>, e: E, reason: Reason)
    requires |q.entries| == 1 && q.entries[0] != e
    ensures EnqueueAsWritten(q, e, Off(reason)).started == q.started + [q.entries[0]]
  {
    var pushed := q.(entries := q.entries + [e], enqueued := q.enqueued + [e], callers := q.callers[e := Waiting]);
    assert pushed.entries == [q.entries[0], e];
    assert Position(pushed.entries, e) == 1;
    var handled := OnEntryOff(pushed, e, ActorOff(reason));
    assert handled.entries == q.entries by {
      assert pushed.entries[..1] + pushed.entries[2..] == q.entries;
    }
    assert handled.started == q.started;
  }

  /** A queue that started the same entry twice breaks the invariant. */
  lemma StartedTwiceInvalid<E>(q: TaskQueue<E>, before: seq<E>, x: E)
    requires q.started == before + [x] && x in before
    ensures !Valid(q)
  {
    var i :| 0 <= i < |before| && before[i] == x;
    assert q.started[i] == q.started[|before|];
    assert !Distinct(q.started);
    if Valid(q) {
      StartsOnce(q);
    }
  }
}
