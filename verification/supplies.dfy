/**
 * The lifecycle handle ("supply") the coordination core is built on, reduced to
 * its observable state: either still on, or cut off with a reason.
 */
module Supplies {
  import opened Wrappers

  /** A cut-off reason: `None` is a graceful completion (`off()` without argument),
      `Some(text)` a failure. */
  type Reason = Option<string>

  datatype Supply = On | Off(reason: Reason)

  /** `supply.off(reason)`: the first cut-off wins, later ones change nothing. */
  function CutOff(s: Supply, reason: Reason): (r: Supply)
    ensures r.Off?
    ensures s.Off? ==> r == s
    ensures s.On? ==> r.reason == reason
  {
    if s.Off? then s else Off(reason)
  }

  /** `dependent.needs(dependency)`: the dependent goes off, with the same reason,
      as soon as the dependency is off. */
  function Needs(dependent: Supply, dependency: Supply): (r: Supply)
    ensures dependency.On? ==> r == dependent
    ensures dependency.Off? ==> r.Off?
    ensures dependency.Off? && dependent.On? ==> r.reason == dependency.reason
  {
    if dependency.Off? then CutOff(dependent, dependency.reason) else dependent
  }

  /** Cutting a supply off twice is the same as cutting it off once. */
  lemma CutOffIdempotent(s: Supply, first: Reason, second: Reason)
    ensures CutOff(CutOff(s, first), second) == CutOff(s, first)
  {
  }
}
