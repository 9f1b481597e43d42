/** `AgeCheck.verify_age` of AgeCheck.ts: a smart-contract method that asserts
    the argument is at least 18. The contract declares no state, so the
    method is modelled as a function of its argument alone. */
module AgeCheckContract {
  import opened Field
  import opened Circuit

  /** The threshold, fixed in the contract and not a parameter of the call. */
  const Threshold: Felt := 18

  function VerifyAge(age: Felt): (r: Outcome<()>)
    ensures r.Proved? <==> age >= 18
  {
    Assert(Gte(age, Threshold), ())
  }

  /** Age 20 is accepted and age 15 is rejected. */
  lemma ScenarioAges()
    ensures VerifyAge(20) == Proved(())
    ensures VerifyAge(15) == Rejected
  {
  }
}
