/** `CommitmentProgram.prove`: proves knowledge of a private (secret, salt)
    pair whose Poseidon hash is the public commitment. Poseidon is not
    modelled; every statement holds for any hash function passed in. */
module CommitmentProgram {
  import opened Field
  import opened Circuit

  /** `Poseidon.hash` on an array of exactly two field elements. */
  type Hash2 = (Felt, Felt) -> Felt

  datatype PublicInputs = PublicInputs(commitment: Felt)

  /** The only public output; neither the secret nor the salt has a field here. */
  datatype PublicOutputs = PublicOutputs(commitment: Felt)

  datatype PrivateInputs = PrivateInputs(secret: Felt, salt: Felt)

  /** Hypothesis on the hash: with the salt fixed, different secrets give
      different hashes. Used only as a lemma precondition. */
  ghost predicate InjectiveInSecret(hash: Hash2) {
    forall s1: Felt, s2: Felt, salt: Felt :: hash(s1, salt) == hash(s2, salt) ==> s1 == s2
  }

  /** Hashes `[secret, salt]`, asserts the public commitment equals the
      result and outputs the recomputed value. */
  function Prove(hash: Hash2, pub: PublicInputs, priv: PrivateInputs): (r: Outcome<PublicOutputs>)
    ensures r.Proved? <==> pub.commitment == hash(priv.secret, priv.salt)
    ensures r.Proved? ==> r.output.commitment == pub.commitment
  {
    var computedCommitment := hash(priv.secret, priv.salt);
    Assert(pub.commitment == computedCommitment, PublicOutputs(computedCommitment))
  }

  /** Committing to (secret, salt) and proving with the same pair always succeeds. */
  lemma RoundTrip(hash: Hash2, secret: Felt, salt: Felt)
    ensures Prove(hash, PublicInputs(hash(secret, salt)), PrivateInputs(secret, salt)) ==
      Proved(PublicOutputs(hash(secret, salt)))
  {
  }

  /** The two demo commitments, (42, 12345) and (999, 888), are provable. */
  lemma ScenarioValidCommitments(hash: Hash2)
    ensures Prove(hash, PublicInputs(hash(42, 12345)), PrivateInputs(42, 12345)).Proved?
    ensures Prove(hash, PublicInputs(hash(999, 888)), PrivateInputs(999, 888)).Proved?
  {
    RoundTrip(hash, 42, 12345);
    RoundTrip(hash, 999, 888);
  }

  /** With a hash injective in its first argument, a wrong secret and the
      right salt never prove a commitment. */
  lemma WrongSecretRejected(hash: Hash2, secret: Felt, wrongSecret: Felt, salt: Felt)
    requires InjectiveInSecret(hash)
    requires wrongSecret != secret
    ensures Prove(hash, PublicInputs(hash(secret, salt)), PrivateInputs(wrongSecret, salt)) == Rejected
  {
  }

  /** The demo's wrong secret 9999 against the commitment to (999, 888). */
  lemma ScenarioWrongSecret(hash: Hash2)
    requires InjectiveInSecret(hash)
    ensures Prove(hash, PublicInputs(hash(999, 888)), PrivateInputs(9999, 888)) == Rejected
  {
    WrongSecretRejected(hash, 999, 9999, 888);
  }

  /** The secret is the hash's first argument and the salt its second: when
      the hash is not symmetric on a pair, swapping the two is rejected. */
  lemma ArgumentOrderMatters(hash: Hash2, secret: Felt, salt: Felt)
    requires hash(salt, secret) != hash(secret, salt)
    ensures Prove(hash, PublicInputs(hash(secret, salt)), PrivateInputs(salt, secret)) == Rejected
  {
  }

  /** A successful proof reveals nothing of the witness: any two witnesses
      accepted for the same commitment give the same outcome. */
  lemma OutcomeIndependentOfWitness(hash: Hash2, pub: PublicInputs, w1: PrivateInputs, w2: PrivateInputs)
    requires Prove(hash, pub, w1).Proved? && Prove(hash, pub, w2).Proved?
    ensures Prove(hash, pub, w1) == Prove(hash, pub, w2) == Proved(PublicOutputs(pub.commitment))
  {
  }

  /** A commitment can be proved exactly when it is the hash of some pair. */
  lemma ProvableIffHashImage(hash: Hash2, c: Felt)
    ensures (exists w: PrivateInputs :: Prove(hash, PublicInputs(c), w).Proved?) <==>
            (exists secret: Felt, salt: Felt :: hash(secret, salt) == c)
  {
    if exists w: PrivateInputs :: Prove(hash, PublicInputs(c), w).Proved? {
      var w: PrivateInputs :| Prove(hash, PublicInputs(c), w).Proved?;
      assert hash(w.secret, w.salt) == c;
    }
    if exists secret: Felt, salt: Felt :: hash(secret, salt) == c {
      var secret: Felt, salt: Felt :| hash(secret, salt) == c;
      assert Prove(hash, PublicInputs(c), PrivateInputs(secret, salt)).Proved?;
    }
  }
}
