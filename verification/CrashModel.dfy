/**
  How operations end when the process may be killed before any file-system
  operation and when any check may throw.
*/
module CrashModel {
  /** How an operation ends: normally, by a refused `require`, or because the process was killed. */
  datatype Outcome = Completed | Refused | Killed {
    predicate IsFailure() {
      !Completed?
    }

    function PropagateFailure(): Outcome
      requires IsFailure()
    {
      this
    }
  }

  /** A check of the source: it throws unless the condition holds, and leaves the disk alone. */
  method Require(condition: bool) returns (o: Outcome)
    ensures o == if condition then Completed else Refused
  {
    o := if condition then Completed else Refused;
  }
}
