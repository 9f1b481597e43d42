/** What a circuit relation surfaces to its caller: either the proving
    backend is handed a public output to prove, or an assertion failed and no
    proof exists. */
module Circuit {

  /** How an unsatisfied predicate is surfaced: as a false output value
      (Permissive) or as a refusal to produce any proof (Strict). */
  datatype Policy = Permissive | Strict

  /** The result of running a circuit method on its inputs. */
  datatype Outcome<+T> = Proved(output: T) | Rejected

  /** An assertion (`assert`, `assertEquals`, `assertGreaterThanOrEqual`)
      followed by returning `output`: a failed assertion means no proof. */
  function Assert<T>(satisfied: bool, output: T): (r: Outcome<T>)
    ensures r.Proved? <==> satisfied
    ensures r.Proved? ==> r.output == output
  {
    if satisfied then Proved(output) else Rejected
  }

  /** The enforcement policy applied to a computed verdict: Strict asserts it,
      Permissive always returns the output and leaves the check to the caller. */
  function Enforce<T>(policy: Policy, satisfied: bool, output: T): (r: Outcome<T>)
    ensures r.Proved? <==> policy == Permissive || satisfied
    ensures r.Proved? ==> r.output == output
  {
    match policy
    case Strict => Assert(satisfied, output)
    case Permissive => Proved(output)
  }
}
