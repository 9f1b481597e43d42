/** `AgeCheck.verifyAge` of age.ts: a program whose public input is the
    target age and which asserts that the private age reaches it. It has no
    public output, modelled as the unit value. */
module AgeCheckProgram {
  import opened Field
  import opened Circuit

  function VerifyAge(targetAge: Felt, privateAge: Felt): (r: Outcome<()>)
    ensures r.Proved? <==> privateAge >= targetAge
  {
    Assert(Gte(privateAge, targetAge), ())
  }

  /** An age equal to the target is accepted. */
  lemma BoundaryAccepted(targetAge: Felt)
    ensures VerifyAge(targetAge, targetAge) == Proved(())
  {
  }

  /** Target 18: age 25 is proved, age 16 is rejected. */
  lemma ScenarioAges()
    ensures VerifyAge(18, 25) == Proved(())
    ensures VerifyAge(18, 16) == Rejected
  {
  }
}
