/**
 * `WorkDoneError`: the failure reported when a work, or the whole workbench, is
 * already done. Also the shapes of task outcomes used throughout the model.
 */
module WorkDoneErrors {
  import opened Wrappers
  import opened Supplies
  import opened Workloads

  /** `work` is the identity of the work instance, `None` when there is none (the
      workbench refused to create one). */
  datatype WorkDoneError = WorkDoneError(workload: Workload, work: Option<nat>, reason: Reason, message: string)

  /** The message used when no explicit one is given. */
  function DefaultMessage(workload: Workload, reason: Reason): string
  {
    WorkName(workload) + (if reason.Some? then " already terminated (" + reason.value + ")" else " already done")
  }

  /** `new WorkDoneError(workload, work, reason, message?)`. */
  function NewWorkDoneError(workload: Workload, work: Option<nat>, reason: Reason, message: Option<string>): (e: WorkDoneError)
    ensures e.workload == workload && e.work == work && e.reason == reason
    ensures message.Some? ==> e.message == message.value
    ensures message.None? ==> e.message == DefaultMessage(workload, reason)
  {
    WorkDoneError(workload, work, reason, if message.Some? then message.value else DefaultMessage(workload, reason))
  }

  /** A default message starts with the work name; a graceful completion ends with
      ` already done`, a failure carries its reason between ` already terminated (`
      and the closing parenthesis. */
  lemma DefaultMessageShape(workload: Workload, work: Option<nat>, reason: Reason)
    ensures var m := NewWorkDoneError(workload, work, reason, None).message;
      var n := |WorkName(workload)|;
      && n <= |m| && m[..n] == WorkName(workload)
      && (reason.None? ==> m[n..] == " already done")
      && (reason.Some? ==>
            && m[n..n + 21] == " already terminated ("
            && m[n + 21..|m| - 1] == reason.value
            && m[|m| - 1] == ')')
  {
    var m := NewWorkDoneError(workload, work, reason, None).message;
    var n := |WorkName(workload)|;
    if reason.Some? {
      assert m == WorkName(workload) + " already terminated (" + reason.value + ")";
    } else {
      assert m == WorkName(workload) + " already done";
    }
  }

  /** Graceful and failed terminations of the same workload are told apart by
      their default messages, and so are two different failure reasons. */
  lemma DefaultMessageDistinguishesReasons(workload: Workload, a: Reason, b: Reason)
    requires a != b
    ensures NewWorkDoneError(workload, None, a, None).message != NewWorkDoneError(workload, None, b, None).message
  {
    DefaultMessageShape(workload, None, a);
    DefaultMessageShape(workload, None, b);
    var ma := NewWorkDoneError(workload, None, a, None).message;
    var mb := NewWorkDoneError(workload, None, b, None).message;
    var n := |WorkName(workload)|;
    if a.Some? && b.Some? {
      assert |ma| == n + 22 + |a.value|;
      assert |mb| == n + 22 + |b.value|;
    } else if a.None? && b.Some? {
      assert ma[n + 9] != mb[n + 9];
    } else if a.Some? {
      assert ma[n + 9] != mb[n + 9];
    }
  }
}

/** Task identities, values and outcomes. */
module Tasks {
  import opened Wrappers
  import opened Supplies
  import opened WorkDoneErrors

  type TaskId = nat
  type Value = int

  /** Why a promise was rejected:
      - `Thrown`: the task body (or a custom start hook) failed;
      - `Done`: a `WorkDoneError`;
      - `CutBy`: an ordering-queue entry rejected with its actor's cut-off reason. */
  datatype Failure = Thrown(text: string) | Done(error: WorkDoneError) | CutBy(reason: Reason)

  type Outcome = Result<Value, Failure>
}
