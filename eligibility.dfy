/** The four eligibility relations are one circuit: a public minimum, a
    private age, the verdict `age >= minimum` and a policy. This module states
    that single circuit and proves each variant an instance of it. */
module Eligibility {
  import opened Field
  import opened Circuit
  import AgeVerificationProgram
  import AgeProgram
  import AgeCheckProgram
  import AgeCheckContract

  /** The shared eligibility circuit: the verdict is its output, the policy
      decides whether a false verdict is still proved. */
  function Check(policy: Policy, minimumAge: Felt, age: Felt): (r: Outcome<bool>)
    ensures r.Proved? <==> policy == Permissive || age >= minimumAge
    ensures r.Proved? ==> (r.output <==> age >= minimumAge)
  {
    Enforce(policy, Gte(age, minimumAge), Gte(age, minimumAge))
  }

  /** `proveAge` is the shared circuit applied to the derived age, with the
      verdict wrapped in `PublicOutputs`. */
  lemma ProveAgeIsCheckOfDerivedAge(policy: Policy, pub: AgeVerificationProgram.PublicInputs,
                                    priv: AgeVerificationProgram.PrivateInputs)
    ensures var c := Check(policy, pub.minimumAge, AgeVerificationProgram.DerivedAge(pub, priv));
      AgeVerificationProgram.ProveAge(policy, pub, priv) ==
        if c.Proved? then Proved(AgeVerificationProgram.PublicOutputs(c.output)) else Rejected
  {
  }

  /** `AgeProgram.prove` accepts exactly what the strict circuit accepts. */
  lemma AgeProgramIsStrictCheck(pub: AgeProgram.PublicInputs, priv: AgeProgram.PrivateInputs)
    ensures AgeProgram.Prove(pub, priv).Proved? <==> Check(Strict, pub.minimumAge, priv.age).Proved?
  {
  }

  /** `verifyAge` accepts exactly what the strict circuit accepts. */
  lemma VerifyAgeIsStrictCheck(targetAge: Felt, privateAge: Felt)
    ensures AgeCheckProgram.VerifyAge(targetAge, privateAge).Proved? <==>
            Check(Strict, targetAge, privateAge).Proved?
  {
  }

  /** `verify_age` is `verifyAge` with the target fixed at 18. */
  lemma ContractIsVerifyAgeAt18(age: Felt)
    ensures AgeCheckContract.VerifyAge(age) == AgeCheckProgram.VerifyAge(18, age)
  {
  }

  /** As deployed, `proveAge` accepts the same birth years as `AgeProgram`
      given the field-subtracted age, and so inherits the wrap-around. */
  lemma ProveAgeAgreesWithAgeProgram(pub: AgeVerificationProgram.PublicInputs,
                                     priv: AgeVerificationProgram.PrivateInputs)
    ensures AgeVerificationProgram.ProveAge(AgeVerificationProgram.DeployedPolicy, pub, priv).Proved? <==>
            AgeProgram.Prove(AgeProgram.PublicInputs(pub.minimumAge),
                             AgeProgram.PrivateInputs(AgeVerificationProgram.DerivedAge(pub, priv))).Proved?
  {
  }

  /** The guarded `proveAge` accepts a birth year exactly when it is not in
      the future and `AgeProgram` accepts the integer age. */
  lemma GuardedProveAgeAgreesWithAgeProgram(pub: AgeVerificationProgram.PublicInputs,
                                            priv: AgeVerificationProgram.PrivateInputs)
    ensures AgeVerificationProgram.ProveAgeGuarded(Strict, pub, priv).Proved? <==>
            priv.yearOfBirth <= pub.currentYear &&
            AgeProgram.Prove(AgeProgram.PublicInputs(pub.minimumAge),
                             AgeProgram.PrivateInputs(pub.currentYear - priv.yearOfBirth)).Proved?
  {
  }
}
