/** `AgeVerificationProgram.proveAge`: derives the age from a private year of
    birth and a public current year by field subtraction, compares it with a
    public minimum and outputs the verdict `isEligible`. The assertion of the
    verdict is live in the source, so the deployed policy is Strict; the
    Permissive form is the one the comments describe with the assertion removed. */
module AgeVerificationProgram {
  import opened Field
  import opened Circuit

  datatype PublicInputs = PublicInputs(minimumAge: Felt, currentYear: Felt)

  /** The only public output; the year of birth has no field here. */
  datatype PublicOutputs = PublicOutputs(isEligible: bool)

  datatype PrivateInputs = PrivateInputs(yearOfBirth: Felt)

  /** The policy the program applies as written: the assertion is active. */
  const DeployedPolicy: Policy := Strict

  /** `currentYear.sub(yearOfBirth)`: the age as a field element. */
  function DerivedAge(pub: PublicInputs, priv: PrivateInputs): (age: Felt)
    ensures age == (pub.currentYear - priv.yearOfBirth) % P
  {
    Sub(pub.currentYear, priv.yearOfBirth)
  }

  /** `age.greaterThanOrEqual(minimumAge)`. */
  predicate IsEligible(pub: PublicInputs, priv: PrivateInputs)
    ensures IsEligible(pub, priv) <==> (pub.currentYear - priv.yearOfBirth) % P >= pub.minimumAge
  {
    Gte(DerivedAge(pub, priv), pub.minimumAge)
  }

  /** The circuit method under a given policy. */
  function ProveAge(policy: Policy, pub: PublicInputs, priv: PrivateInputs): (r: Outcome<PublicOutputs>)
    ensures r.Proved? <==>
      policy == Permissive || (pub.currentYear - priv.yearOfBirth) % P >= pub.minimumAge
    ensures r.Proved? ==>
      (r.output.isEligible <==> (pub.currentYear - priv.yearOfBirth) % P >= pub.minimumAge)
  {
    var age := DerivedAge(pub, priv);
    var isEligible := Gte(age, pub.minimumAge);
    Enforce(policy, isEligible, PublicOutputs(isEligible))
  }

  /** Under the strict policy a proof exists exactly for eligible witnesses,
      and every proof carries `isEligible == true`. */
  lemma StrictProofsAreEligible(pub: PublicInputs, priv: PrivateInputs)
    ensures ProveAge(Strict, pub, priv).Proved? <==> IsEligible(pub, priv)
    ensures ProveAge(Strict, pub, priv).Proved? ==> ProveAge(Strict, pub, priv).output.isEligible
  {
  }

  /** Under the permissive policy proving never fails and the output is the
      verdict itself. */
  lemma PermissiveAlwaysProves(pub: PublicInputs, priv: PrivateInputs)
    ensures ProveAge(Permissive, pub, priv) == Proved(PublicOutputs(IsEligible(pub, priv)))
  {
  }

  /** The strict program is the permissive one with its output checked: a
      verifier of permissive proofs must inspect `isEligible` to get the same
      assurance. */
  lemma StrictIsCheckedPermissive(pub: PublicInputs, priv: PrivateInputs)
    ensures ProveAge(Strict, pub, priv) ==
      (var p := ProveAge(Permissive, pub, priv); if p.output.isEligible then p else Rejected)
  {
  }

  /** The outcome reveals nothing of the year of birth beyond the verdict:
      two witnesses with the same verdict give identical outcomes. */
  lemma OutcomeDependsOnlyOnVerdict(policy: Policy, pub: PublicInputs, w1: PrivateInputs, w2: PrivateInputs)
    requires IsEligible(pub, w1) == IsEligible(pub, w2)
    ensures ProveAge(policy, pub, w1) == ProveAge(policy, pub, w2)
  {
  }

  /** A year of birth not after the current year gives the ordinary age. */
  lemma AgeWithoutWrap(pub: PublicInputs, priv: PrivateInputs)
    requires priv.yearOfBirth <= pub.currentYear
    ensures DerivedAge(pub, priv) == pub.currentYear - priv.yearOfBirth
    ensures IsEligible(pub, priv) <==> pub.currentYear - priv.yearOfBirth >= pub.minimumAge
  {
  }

  /** A year of birth after the current year wraps to P - (yearOfBirth -
      currentYear), which exceeds every minimum that leaves room for the gap,
      so both policies prove the person eligible. */
  lemma AgeWrapsAround(pub: PublicInputs, priv: PrivateInputs)
    requires pub.currentYear < priv.yearOfBirth
    ensures DerivedAge(pub, priv) == P - (priv.yearOfBirth - pub.currentYear)
    ensures (priv.yearOfBirth - pub.currentYear) + pub.minimumAge <= P ==>
      IsEligible(pub, priv) &&
      ProveAge(Strict, pub, priv) == Proved(PublicOutputs(true)) &&
      ProveAge(Permissive, pub, priv) == Proved(PublicOutputs(true))
  {
  }

  /** Whatever the minimum age, some year of birth later than the current
      year passes the strict program. */
  lemma FutureBirthYearAlwaysProvable(pub: PublicInputs)
    requires pub.currentYear + 1 < P
    ensures exists yob: Felt ::
              pub.currentYear < yob && ProveAge(Strict, pub, PrivateInputs(yob)) == Proved(PublicOutputs(true))
  {
    var yob: Felt := pub.currentYear + 1;
    AgeWrapsAround(pub, PrivateInputs(yob));
    assert ProveAge(Strict, pub, PrivateInputs(yob)) == Proved(PublicOutputs(true));
  }

  /** Minimum 18 in 2026, born 2001: age 25, proved eligible under both policies. */
  lemma ScenarioBorn2001()
    ensures DerivedAge(PublicInputs(18, 2026), PrivateInputs(2001)) == 25
    ensures ProveAge(DeployedPolicy, PublicInputs(18, 2026), PrivateInputs(2001)) == Proved(PublicOutputs(true))
    ensures ProveAge(Permissive, PublicInputs(18, 2026), PrivateInputs(2001)) == Proved(PublicOutputs(true))
  {
  }

  /** Minimum 18 in 2026, born 2010: age 16, rejected as deployed; the
      permissive form proves it with `isEligible == false`. */
  lemma ScenarioBorn2010()
    ensures DerivedAge(PublicInputs(18, 2026), PrivateInputs(2010)) == 16
    ensures ProveAge(DeployedPolicy, PublicInputs(18, 2026), PrivateInputs(2010)) == Rejected
    ensures ProveAge(Permissive, PublicInputs(18, 2026), PrivateInputs(2010)) == Proved(PublicOutputs(false))
  {
  }

  /** The program as intended: it first asserts `currentYear >= yearOfBirth`
      (as integers) so the subtraction cannot wrap, then runs as before. */
  function ProveAgeGuarded(policy: Policy, pub: PublicInputs, priv: PrivateInputs): (r: Outcome<PublicOutputs>)
    ensures r.Proved? <==>
      priv.yearOfBirth <= pub.currentYear &&
      (policy == Permissive || pub.currentYear - priv.yearOfBirth >= pub.minimumAge)
    ensures r.Proved? ==>
      (r.output.isEligible <==> pub.currentYear - priv.yearOfBirth >= pub.minimumAge)
  {
    if !Gte(pub.currentYear, priv.yearOfBirth) then Rejected
    else ProveAge(policy, pub, priv)
  }

  /** The guard changes nothing for a year of birth not after the current year. */
  lemma GuardedAgreesWhenBornInThePast(policy: Policy, pub: PublicInputs, priv: PrivateInputs)
    requires priv.yearOfBirth <= pub.currentYear
    ensures ProveAgeGuarded(policy, pub, priv) == ProveAge(policy, pub, priv)
  {
  }

  /** Born in 2030 with current year 2026 and minimum 18: the program as
      written proves eligibility although the integer age is -4; the guarded
      program rejects it. */
  lemma FutureBirthYearAccepted()
    ensures DerivedAge(PublicInputs(18, 2026), PrivateInputs(2030)) == P - 4
    ensures ProveAge(DeployedPolicy, PublicInputs(18, 2026), PrivateInputs(2030)) == Proved(PublicOutputs(true))
    ensures ProveAgeGuarded(DeployedPolicy, PublicInputs(18, 2026), PrivateInputs(2030)) == Rejected
  {
  }
}
