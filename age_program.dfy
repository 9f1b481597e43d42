/** `AgeProgram.prove`: asserts that the private age is at least the public
    minimum and outputs the constant `isValid = 1`. */
module AgeProgram {
  import opened Field
  import opened Circuit

  datatype PublicInputs = PublicInputs(minimumAge: Felt)

  datatype PrivateInputs = PrivateInputs(age: Felt)

  datatype PublicOutputs = PublicOutputs(isValid: Felt)

  /** `Field(1)`, the value of `isValid` in every proof. */
  const ValidFlag: Felt := 1

  function Prove(pub: PublicInputs, priv: PrivateInputs): (r: Outcome<PublicOutputs>)
    ensures r.Proved? <==> priv.age >= pub.minimumAge
    ensures r.Proved? ==> r.output.isValid == 1
  {
    Assert(Gte(priv.age, pub.minimumAge), PublicOutputs(ValidFlag))
  }

  /** The output carries no information about the witness: every accepted
      age yields the same outcome. */
  lemma OutputIndependentOfWitness(pub: PublicInputs, w1: PrivateInputs, w2: PrivateInputs)
    requires Prove(pub, w1).Proved? && Prove(pub, w2).Proved?
    ensures Prove(pub, w1) == Prove(pub, w2) == Proved(PublicOutputs(1))
  {
  }

  /** The comparison is `>=`, so an age equal to the minimum is accepted. */
  lemma BoundaryAccepted(minimumAge: Felt)
    ensures Prove(PublicInputs(minimumAge), PrivateInputs(minimumAge)) == Proved(PublicOutputs(1))
  {
  }

  /** Minimum 18: age 25 is proved, age 17 is rejected. */
  lemma ScenarioAges()
    ensures Prove(PublicInputs(18), PrivateInputs(25)) == Proved(PublicOutputs(1))
    ensures Prove(PublicInputs(18), PrivateInputs(17)) == Rejected
  {
  }
}
