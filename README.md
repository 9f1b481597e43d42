# Age and commitment circuits of the o1js workshop, modelled in Dafny

The repository defines a handful of zero-knowledge circuit relations in the
o1js DSL. Each takes a public input and a private witness, computes over
field elements, and either asserts a predicate (a failed assertion means the
proving backend produces no proof) or returns a public output. This project
models those relations as pure Dafny functions and proves what they accept,
what they output and what they keep private:

- `Field`: o1js `Field` elements as canonical integers in `[0, P)` with `P`
  the Pallas base-field prime; wrapping subtraction (`sub`) and comparison of
  canonical representatives (`greaterThanOrEqual`).
- `Circuit`: the result of a circuit method, `Proved(output) | Rejected`, an
  assertion, and the enforcement policy `Permissive | Strict` as an explicit
  parameter.
- `AgeVerificationProgram`: `proveAge` (age = `currentYear - yearOfBirth` in
  the field, verdict `isEligible`, assertion live), under either policy, plus a
  guarded form that refuses a year of birth after the current year.
- `CommitmentProgram`: `prove` (hash of `[secret, salt]`, `assertEquals`,
  output the recomputed commitment). The hash is a function parameter, so every
  result holds for every hash; injectivity in the secret is a lemma hypothesis.
- `AgeProgram`: `prove` (assert `age >= minimumAge`, output `isValid = 1`).
- `AgeCheckProgram`: `verifyAge` of `age.ts` (assert only, no output).
- `AgeCheckContract`: `verify_age` of `AgeCheck.ts` (assert `age >= 18`).
- `Eligibility`: one parameterised eligibility circuit and lemmas showing each
  of the four variants is an instance of it.

The policy of `proveAge` as written is Strict: the comment above line 32 of
`AgeVerificationProgram.ts` says "uncomment below", but the assertion on that
line is not commented out. The Permissive form is the program with that line
removed, as the comments at lines 27-30 describe.

## Model

| member | source | states |
|---|---|---|
| `Field.Sub` | commitment-proof/src/AgeVerificationProgram.ts:24 | field subtraction is `(a - b) mod P`, never integer subtraction |
| `Field.Gte` | commitment-proof/src/AgeVerificationProgram.ts:25 | `greaterThanOrEqual` holds exactly when field subtraction of the operands does not wrap (the canonical representatives compare as integers), and when it fails the reverse subtraction does not wrap; the same comparison is `assertGreaterThanOrEqual` in AgeProgram.ts:23, age.ts:12 and AgeCheck.ts:5 |
| `Field.SubWithoutWrap` | commitment-proof/src/AgeVerificationProgram.ts:24 | when `b <= a` the field difference is the integer difference |
| `Field.SubWrapsAround` | commitment-proof/src/AgeVerificationProgram.ts:24 | when `a < b` the field difference is `P - (b - a)` |
| `Circuit.Assert` | commitment-proof/src/AgeProgram.ts:23-29 | an assertion followed by a return proves exactly when the condition holds, and then with that output |
| `Circuit.Enforce` | commitment-proof/src/AgeVerificationProgram.ts:27-39 | Permissive always proves; Strict proves exactly when the verdict holds; the output is the returned value either way |
| `AgeVerificationProgram.DerivedAge` | commitment-proof/src/AgeVerificationProgram.ts:24 | the derived age is `(currentYear - yearOfBirth) mod P` |
| `AgeVerificationProgram.IsEligible` | commitment-proof/src/AgeVerificationProgram.ts:25 | `isEligible` holds exactly when `(currentYear - yearOfBirth) mod P >= minimumAge` |
| `AgeVerificationProgram.ProveAge` | commitment-proof/src/AgeVerificationProgram.ts:23-39 | proves iff the policy is Permissive or the wrapped age is `>= minimumAge`; `isEligible` is true exactly when the wrapped age is `>= minimumAge` |
| `AgeVerificationProgram.StrictProofsAreEligible` | commitment-proof/src/AgeVerificationProgram.ts:32-39 | under the strict policy a proof exists iff the verdict holds, and every proof has `isEligible == true` |
| `AgeVerificationProgram.PermissiveAlwaysProves` | commitment-proof/src/AgeVerificationProgram.ts:25-30 | with the assertion removed proving always succeeds and the output is the verdict |
| `AgeVerificationProgram.StrictIsCheckedPermissive` | commitment-proof/src/AgeVerificationProgram.ts:27-39 | the strict outcome is the permissive outcome filtered by its `isEligible` output |
| `AgeVerificationProgram.OutcomeDependsOnlyOnVerdict` | commitment-proof/src/AgeVerificationProgram.ts:8-10 | two years of birth with the same verdict give identical outcomes, so the output reveals no more than the verdict |
| `AgeVerificationProgram.AgeWithoutWrap` | commitment-proof/src/AgeVerificationProgram.ts:24-25 | a year of birth not after the current year gives the ordinary age and the ordinary verdict |
| `AgeVerificationProgram.AgeWrapsAround` | commitment-proof/src/AgeVerificationProgram.ts:24-25 | a future year of birth gives age `P - (yearOfBirth - currentYear)`, which passes every minimum that leaves room for the gap, under both policies |
| `AgeVerificationProgram.FutureBirthYearAlwaysProvable` | commitment-proof/src/AgeVerificationProgram.ts:24-32 | for every public input some year of birth after the current year passes the strict program |
| `AgeVerificationProgram.ScenarioBorn2001` | commitment-proof/src/AgeVerificationInteract.test.ts:12-36 | minimum 18, 2026, born 2001: age 25, proved with `isEligible` true under both policies |
| `AgeVerificationProgram.ScenarioBorn2010` | commitment-proof/src/AgeVerificationInteract.test.ts:43-52 | minimum 18, 2026, born 2010: age 16, rejected as written, proved with `isEligible` false when permissive |
| `AgeVerificationProgram.ProveAgeGuarded` | commitment-proof/src/AgeVerificationProgram.ts:24-32 | the corrected program proves iff the year of birth is not in the future and (Permissive or the integer age is `>= minimumAge`); `isEligible` is the integer verdict |
| `AgeVerificationProgram.GuardedAgreesWhenBornInThePast` | commitment-proof/src/AgeVerificationProgram.ts:24-39 | the guard changes no outcome for a year of birth not after the current year |
| `AgeVerificationProgram.FutureBirthYearAccepted` | commitment-proof/src/AgeVerificationProgram.ts:24-32 | born 2030 in 2026 with minimum 18: proved eligible as written (age `P - 4`), rejected by the guarded program |
| `CommitmentProgram.Prove` | commitment-proof/src/CommitmentProgram.ts:23-35 | proves iff the public commitment equals `Hash(secret, salt)`; on success the output commitment equals the public commitment |
| `CommitmentProgram.RoundTrip` | commitment-proof/src/CommitmentProgram.ts:24-35 | using `Hash(secret, salt)` as the commitment always proves, with that commitment as output |
| `CommitmentProgram.ScenarioValidCommitments` | commitment-proof/src/interact.ts:29-96 | the commitments to (42, 12345) and (999, 888) are provable |
| `CommitmentProgram.WrongSecretRejected` | commitment-proof/src/CommitmentProgram.ts:29 | for a hash injective in the secret, a different secret with the same salt is rejected |
| `CommitmentProgram.ScenarioWrongSecret` | commitment-proof/src/interact.ts:113-135 | secret 9999 against the commitment to (999, 888) is rejected, given injectivity |
| `CommitmentProgram.ArgumentOrderMatters` | commitment-proof/src/CommitmentProgram.ts:24-27 | the secret is the first hash argument: swapping secret and salt is rejected whenever the hash is not symmetric on them |
| `CommitmentProgram.OutcomeIndependentOfWitness` | commitment-proof/src/CommitmentProgram.ts:7-9 | every accepted witness yields the same outcome, carrying only the public commitment |
| `CommitmentProgram.ProvableIffHashImage` | commitment-proof/src/CommitmentProgram.ts:24-29 | a commitment is provable by some witness iff it is a hash of some pair |
| `AgeProgram.Prove` | commitment-proof/src/AgeProgram.ts:22-29 | proves iff `age >= minimumAge`; every proof outputs `isValid == 1` |
| `AgeProgram.OutputIndependentOfWitness` | commitment-proof/src/AgeProgram.ts:25-29 | every accepted age yields the same outcome `isValid == 1` |
| `AgeProgram.BoundaryAccepted` | commitment-proof/src/AgeProgram.ts:23 | an age equal to the minimum is accepted |
| `AgeProgram.ScenarioAges` | commitment-proof/src/age-interact.ts:10-45 | minimum 18: age 25 proved, age 17 rejected |
| `AgeCheckProgram.VerifyAge` | commitment-proof/src/age.ts:3-15 | proves iff `privateAge >= targetAge`; the only result is success, with no public output |
| `AgeCheckProgram.BoundaryAccepted` | commitment-proof/src/age.ts:12 | an age equal to the target is accepted |
| `AgeCheckProgram.ScenarioAges` | commitment-proof/src/age.test.ts:8-24 | target 18: age 25 proved, age 16 rejected |
| `AgeCheckContract.VerifyAge` | commitment-proof/src/AgeCheck.ts:3-7 | proves iff `age >= 18` |
| `AgeCheckContract.ScenarioAges` | commitment-proof/src/AgeCheck.test.ts:21-42 | age 20 accepted, age 15 rejected |
| `Eligibility.Check` | commitment-proof/src/AgeVerificationProgram.ts:25-39 | the shared eligibility circuit that the four variants are proved to be instances of (a unification, not a source function) proves iff Permissive or `age >= minimumAge`, with the verdict as output |
| `Eligibility.ProveAgeIsCheckOfDerivedAge` | commitment-proof/src/AgeVerificationProgram.ts:24-39 | `proveAge` is the shared circuit on the field-derived age, under the same policy |
| `Eligibility.AgeProgramIsStrictCheck` | commitment-proof/src/AgeProgram.ts:23 | `AgeProgram.prove` accepts exactly what the strict shared circuit accepts |
| `Eligibility.VerifyAgeIsStrictCheck` | commitment-proof/src/age.ts:12 | `verifyAge` accepts exactly what the strict shared circuit accepts |
| `Eligibility.ContractIsVerifyAgeAt18` | commitment-proof/src/AgeCheck.ts:5 | `verify_age` is `verifyAge` with the threshold fixed at the constant 18 |
| `Eligibility.ProveAgeAgreesWithAgeProgram` | commitment-proof/src/AgeVerificationProgram.ts:24-32 | as written, `proveAge` accepts exactly when `AgeProgram.prove` accepts the field-subtracted age |
| `Eligibility.GuardedProveAgeAgreesWithAgeProgram` | commitment-proof/src/AgeVerificationProgram.ts:24-32 | the guarded `proveAge` accepts iff the year of birth is not in the future and `AgeProgram.prove` accepts the integer age |

## Left out

- The proving backend (`compile`, `prove`, `verify`, verification keys, arithmetisation): a proof is modelled only as `Proved(output)`; binding of a proof to its public input and checking it at verification time are not modelled.
- Poseidon's internals: the hash is an arbitrary function parameter; injectivity in the secret is a hypothesis of the lemmas that need it, not a claim about Poseidon.
- The o1js comparison gadget: `greaterThanOrEqual` and `assertGreaterThanOrEqual` are modelled as comparing canonical representatives over the whole field. If the library refuses operands wider than some bit bound, a wrapped-around age would be rejected there instead of accepted, and the finding below would not be reachable.
- Error messages of failed assertions (line 32 of `AgeVerificationProgram.ts` passes one): `Rejected` carries none.
- Malformed inputs: every field element is canonical by its type, so there is no out-of-range witness to reject.
- The Mina chain around `AgeCheck`: local blockchain, deployment, transactions, signing, `AccountUpdate`, keys. The contract declares no state fields, so `AgeCheckContract.VerifyAge` takes no state and a call changes nothing besides succeeding or failing.
- Demonstration scripts and console output; their sample values appear only as scenario lemmas.
- `index.ts` only re-exports; `async`/`await` has no counterpart because the relations are sequential.

## Findings

| source | as written | input that shows it | evidently intended | confidence | as-written member | corrected member |
|---|---|---|---|---|---|---|
| commitment-proof/src/AgeVerificationProgram.ts:24 | the age is `currentYear.sub(yearOfBirth)` with no check that the year of birth is not after the current year, so the subtraction wraps to `P - (yearOfBirth - currentYear)` and passes any realistic minimum | currentYear 2026, yearOfBirth 2030, minimumAge 18: age `P - 4`, proof produced with `isEligible` true | refuse a year of birth after the current year before subtracting, so eligibility means the integer age reaches the minimum | not executed; high for the model, subject to the comparison-gadget caveat under Left out | `AgeVerificationProgram.FutureBirthYearAccepted` | `AgeVerificationProgram.ProveAgeGuarded` |
