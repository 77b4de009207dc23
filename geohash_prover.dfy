/**
 * The prefix-equality circuit of geohash-prover/src/lib.rs.
 *
 * A `CompareCircuit` holds two sequences of BN254 scalar-field elements: the
 * public `shorter` (the challenge) and the private `larger` (the precise
 * location). Synthesising it allocates one public input per element of
 * `shorter`, one witness per element of the first `|shorter|` elements of
 * `larger`, and one equality constraint per position. The Groth16 backend
 * (setup, proving, verification) is kept abstract: `VerifyProof` receives the
 * backend's verifier as a parameter.
 */
module GeohashProver {
  import opened Wrappers
  import opened Bytes

  /** The order of the BN254 scalar field `Fr`. */
  const BN254_R: nat := 21888242871839275222246405745257275088548364400416034343698204186575808495617

  /** An element of BN254's `Fr`, by its canonical representative. */
  type Fr = x: nat | x < BN254_R

  /** `Fr::from(v as u64)`: a `u64` taken into the field, reduced modulo its order. */
  function FrFromU64(v: nat): Fr
    requires v < 0x1_0000_0000_0000_0000
  {
    v % BN254_R
  }

  /**
   * `PrimeString::from(&str)` followed by `Vec::from`: each byte of the string
   * becomes the field element with the same value. No reduction takes place,
   * because every byte is below the field order.
   */
  function PrimeString(s: seq<u8>): (r: seq<Fr>)
    ensures |r| == |s|
    ensures forall i | 0 <= i < |s| :: r[i] == s[i] as nat
  {
    seq(|s|, i requires 0 <= i < |s| => FrFromU64(s[i] as nat))
  }

  /** Distinct byte strings give distinct field-element sequences. */
  lemma PrimeStringInjective(a: seq<u8>, b: seq<u8>)
    requires PrimeString(a) == PrimeString(b)
    ensures a == b
  {
    assert |a| == |PrimeString(a)| == |b|;
    forall i | 0 <= i < |a| ensures a[i] == b[i] {
      assert PrimeString(a)[i] == PrimeString(b)[i];
    }
  }

  /** Prefix over the encoded strings is exactly prefix over the byte strings. */
  lemma PrimeStringPreservesPrefix(s: seq<u8>, prefix: seq<u8>)
    ensures StartsWith(PrimeString(s), PrimeString(prefix)) <==> StartsWith(s, prefix)
  {
    var es, ep := PrimeString(s), PrimeString(prefix);
    if StartsWith(es, ep) {
      forall i | 0 <= i < |prefix| ensures s[i] == prefix[i] {
        assert es[..|ep|][i] == ep[i];
      }
      StartsWithAt(s, prefix);
    }
    if StartsWith(s, prefix) {
      StartsWithAt(s, prefix);
      assert es[..|ep|] == ep;
    }
  }

  /** `CompareCircuit<Fr>`: both assignments are optional, as in the source. */
  datatype CompareCircuit = CompareCircuit(shorter: Option<seq<Fr>>, larger: Option<seq<Fr>>)

  /** `CompareCircuit::new`. */
  function NewCircuit(shorter: seq<Fr>, larger: seq<Fr>): (c: CompareCircuit)
    ensures c.shorter == Some(shorter) && c.larger == Some(larger)
  {
    CompareCircuit(Some(shorter), Some(larger))
  }

  /** `CompareCircuit::new_from_str`: both strings are encoded byte by byte. */
  function NewFromStr(shorter: seq<u8>, larger: seq<u8>): (c: CompareCircuit)
    ensures c.shorter.Some? && |c.shorter.value| == |shorter|
    ensures forall i | 0 <= i < |shorter| :: c.shorter.value[i] == shorter[i] as nat
    ensures c.larger.Some? && |c.larger.value| == |larger|
    ensures forall i | 0 <= i < |larger| :: c.larger.value[i] == larger[i] as nat
  {
    NewCircuit(PrimeString(shorter), PrimeString(larger))
  }

  /**
   * arkworks' `SynthesisError`. `generate_constraints` returns only the first
   * two; the Groth16 verifier can also fail, for example with
   * `MalformedVerifyingKey` when the number of public inputs does not match
   * the key. Its remaining variants are not told apart here.
   */
  datatype SynthesisError = AssignmentMissing | Unsatisfiable | MalformedVerifyingKey | OtherSynthesisError

  /** A variable of the constraint system: an instance (public) or a witness (private) slot. */
  datatype Variable = Instance(index: nat) | Witness(index: nat)

  /** `lhs.enforce_equal(rhs)`: the two variables must carry the same value. */
  datatype Constraint = Equal(lhs: Variable, rhs: Variable)

  predicate InScope(instance: seq<Fr>, witnesses: seq<Fr>, v: Variable)
  {
    match v
    case Instance(i) => i < |instance|
    case Witness(i) => i < |witnesses|
  }

  function Value(instance: seq<Fr>, witnesses: seq<Fr>, v: Variable): Fr
    requires InScope(instance, witnesses, v)
  {
    match v
    case Instance(i) => instance[i]
    case Witness(i) => witnesses[i]
  }

  predicate ConstraintInScope(instance: seq<Fr>, witnesses: seq<Fr>, c: Constraint)
  {
    InScope(instance, witnesses, c.lhs) && InScope(instance, witnesses, c.rhs)
  }

  predicate AllInScope(instance: seq<Fr>, witnesses: seq<Fr>, cs: seq<Constraint>)
  {
    forall k | 0 <= k < |cs| :: ConstraintInScope(instance, witnesses, cs[k])
  }

  /** Every constraint of `cs` holds under the assignment `instance`, `witnesses`. */
  predicate Holds(instance: seq<Fr>, witnesses: seq<Fr>, cs: seq<Constraint>)
    requires AllInScope(instance, witnesses, cs)
  {
    forall k | 0 <= k < |cs| :: Value(instance, witnesses, cs[k].lhs) == Value(instance, witnesses, cs[k].rhs)
  }

  /**
   * The constraints `generate_constraints` emits when its public inputs start
   * at instance slot `i0` and its witnesses at witness slot `w0`: for each
   * position `k < n`, witness `w0 + k` equals instance `i0 + k`.
   */
  function PositionalEqualities(i0: nat, w0: nat, n: nat): (cs: seq<Constraint>)
    ensures |cs| == n
    ensures forall k | 0 <= k < n :: cs[k] == Equal(Witness(w0 + k), Instance(i0 + k))
  {
    seq(n, k requires 0 <= k < n => Equal(Witness(w0 + k), Instance(i0 + k)))
  }

  /**
   * The heart of the circuit: appended after any earlier assignment, the
   * positional equalities hold exactly when `larger` starts with `shorter`.
   */
  lemma PositionalEqualitiesHoldIffPrefix(
    instance0: seq<Fr>, witnesses0: seq<Fr>, shorter: seq<Fr>, larger: seq<Fr>)
    requires |shorter| <= |larger|
    ensures AllInScope(instance0 + shorter, witnesses0 + larger[..|shorter|],
                       PositionalEqualities(|instance0|, |witnesses0|, |shorter|))
    ensures Holds(instance0 + shorter, witnesses0 + larger[..|shorter|],
                  PositionalEqualities(|instance0|, |witnesses0|, |shorter|))
            <==> StartsWith(larger, shorter)
  {
    var inst, wit := instance0 + shorter, witnesses0 + larger[..|shorter|];
    var cs := PositionalEqualities(|instance0|, |witnesses0|, |shorter|);
    assert AllInScope(inst, wit, cs);
    if Holds(inst, wit, cs) {
      forall k | 0 <= k < |shorter| ensures larger[..|shorter|][k] == shorter[k] {
        assert Value(inst, wit, cs[k].lhs) == Value(inst, wit, cs[k].rhs);
      }
    }
    if StartsWith(larger, shorter) {
      forall k | 0 <= k < |cs| ensures Value(inst, wit, cs[k].lhs) == Value(inst, wit, cs[k].rhs) {
        assert larger[..|shorter|][k] == shorter[k];
      }
    }
  }

  /** Appending in-scope constraints to an assignment that only grows keeps earlier constraints' verdicts. */
  lemma HoldsExtend(instance: seq<Fr>, witnesses: seq<Fr>, more: seq<Fr>, moreW: seq<Fr>,
                    old_cs: seq<Constraint>, new_cs: seq<Constraint>)
    requires AllInScope(instance, witnesses, old_cs)
    requires AllInScope(instance + more, witnesses + moreW, new_cs)
    ensures AllInScope(instance + more, witnesses + moreW, old_cs + new_cs)
    ensures Holds(instance + more, witnesses + moreW, old_cs + new_cs) <==>
            Holds(instance, witnesses, old_cs) && Holds(instance + more, witnesses + moreW, new_cs)
  {
    var inst, wit, all := instance + more, witnesses + moreW, old_cs + new_cs;
    forall k | 0 <= k < |old_cs|
      ensures ConstraintInScope(inst, wit, all[k])
      ensures Value(inst, wit, all[k].lhs) == Value(instance, witnesses, old_cs[k].lhs)
      ensures Value(inst, wit, all[k].rhs) == Value(instance, witnesses, old_cs[k].rhs)
    {
      assert all[k] == old_cs[k];
    }
    forall k | |old_cs| <= k < |all| ensures ConstraintInScope(inst, wit, all[k]) {
      assert all[k] == new_cs[k - |old_cs|];
    }
    if Holds(inst, wit, all) {
      forall k | 0 <= k < |new_cs|
        ensures Value(inst, wit, new_cs[k].lhs) == Value(inst, wit, new_cs[k].rhs)
      {
        assert all[|old_cs| + k] == new_cs[k];
      }
    }
    if Holds(instance, witnesses, old_cs) && Holds(inst, wit, new_cs) {
      forall k | 0 <= k < |all| ensures Value(inst, wit, all[k].lhs) == Value(inst, wit, all[k].rhs) {
        if k >= |old_cs| {
          assert all[k] == new_cs[k - |old_cs|];
        }
      }
    }
  }

  /**
   * The constraint system `generate_constraints` writes into (arkworks'
   * `ConstraintSystemRef`): the instance and witnesses assignments and the
   * constraints, all of which only grow.
   */
  class ConstraintSystem {
    var instance: seq<Fr>
    var witnesses: seq<Fr>
    var constraints: seq<Constraint>

    /** Every constraint mentions only allocated variables. */
    predicate Valid()
      reads this
    {
      AllInScope(instance, witnesses, constraints)
    }

    /** The assignment satisfies every constraint. */
    predicate IsSatisfied()
      reads this
      requires Valid()
    {
      Holds(instance, witnesses, constraints)
    }

    /** A fresh system: arkworks allocates instance slot 0 to the constant one. */
    constructor ()
      ensures Valid()
      ensures instance == [1] && witnesses == [] && constraints == []
    {
      instance := [1];
      witnesses := [];
      constraints := [];
    }

    /** `FpVar::new_input`: a new public slot carrying `v`. */
    method NewInput(v: Fr) returns (x: Variable)
      requires Valid()
      modifies this
      ensures Valid()
      ensures instance == old(instance) + [v] && x == Instance(|old(instance)|)
      ensures witnesses == old(witnesses) && constraints == old(constraints)
    {
      x := Instance(|instance|);
      instance := instance + [v];
      assert AllInScope(old(instance), witnesses, constraints);
      forall k | 0 <= k < |constraints| ensures ConstraintInScope(instance, witnesses, constraints[k]) {
        assert ConstraintInScope(old(instance), witnesses, constraints[k]);
      }
    }

    /** `FpVar::new_witness`: a new private slot carrying `v`. */
    method NewWitness(v: Fr) returns (x: Variable)
      requires Valid()
      modifies this
      ensures Valid()
      ensures witnesses == old(witnesses) + [v] && x == Witness(|old(witnesses)|)
      ensures instance == old(instance) && constraints == old(constraints)
    {
      x := Witness(|witnesses|);
      witnesses := witnesses + [v];
      forall k | 0 <= k < |constraints| ensures ConstraintInScope(instance, witnesses, constraints[k]) {
        assert ConstraintInScope(instance, old(witnesses), constraints[k]);
      }
    }

    /** `lhs.enforce_equal(rhs)`. */
    method EnforceEqual(lhs: Variable, rhs: Variable)
      requires Valid()
      requires InScope(instance, witnesses, lhs) && InScope(instance, witnesses, rhs)
      modifies this
      ensures Valid()
      ensures constraints == old(constraints) + [Equal(lhs, rhs)]
      ensures instance == old(instance) && witnesses == old(witnesses)
    {
      constraints := constraints + [Equal(lhs, rhs)];
    }
  }

  /** The length check of `generate_constraints`: both sides non-empty and `shorter` no longer than `larger`. */
  predicate WellShaped(shorter: seq<Fr>, larger: seq<Fr>)
  {
    !(|shorter| == 0 || |larger| == 0 || |shorter| > |larger|)
  }

  /**
   * `CompareCircuit::generate_constraints`. Missing assignments give
   * `AssignmentMissing`, a badly shaped instance gives `Unsatisfiable`, and in
   * both cases nothing is allocated. Otherwise the public inputs are `shorter`,
   * the witnesses are the first `|shorter|` elements of `larger`, and the new
   * constraints are the positional equalities; the system is then satisfied
   * exactly when it was before and `larger` starts with `shorter`.
   */
  method GenerateConstraints(circuit: CompareCircuit, cs: ConstraintSystem)
    returns (r: Result<Unit, SynthesisError>)
    requires cs.Valid()
    modifies cs
    ensures cs.Valid()
    ensures circuit.shorter.None? || circuit.larger.None? ==> r == Err(AssignmentMissing)
    ensures circuit.shorter.Some? && circuit.larger.Some? ==>
              (r.Err? <==> !WellShaped(circuit.shorter.value, circuit.larger.value)) &&
              (r.Err? ==> r.error == Unsatisfiable)
    ensures r.Err? ==> cs.instance == old(cs.instance) && cs.witnesses == old(cs.witnesses) &&
                       cs.constraints == old(cs.constraints)
    ensures r.Ok? ==>
              var shorter, larger := circuit.shorter.value, circuit.larger.value;
              && cs.instance == old(cs.instance) + shorter
              && cs.witnesses == old(cs.witnesses) + larger[..|shorter|]
              && cs.constraints == old(cs.constraints) +
                   PositionalEqualities(|old(cs.instance)|, |old(cs.witnesses)|, |shorter|)
              && (cs.IsSatisfied() <==> old(cs.IsSatisfied()) && StartsWith(larger, shorter))
  {
    if circuit.shorter.None? || circuit.larger.None? {
      return Err(AssignmentMissing);
    }
    var shorter, larger := circuit.shorter.value, circuit.larger.value;
    if |shorter| == 0 || |larger| == 0 || |shorter| > |larger| {
      return Err(Unsatisfiable);
    }
    ghost var instance0, witnesses0, constraints0 := cs.instance, cs.witnesses, cs.constraints;
    var n := |shorter|;

    // Public inputs, one per element of `shorter`.
    var shorterVars: seq<Variable> := [];
    var i := 0;
    while i < n
      invariant 0 <= i <= n
      invariant cs.Valid()
      invariant cs.instance == instance0 + shorter[..i]
      invariant cs.witnesses == witnesses0 && cs.constraints == constraints0
      invariant |shorterVars| == i
      invariant forall k | 0 <= k < i :: shorterVars[k] == Instance(|instance0| + k)
    {
      var v := cs.NewInput(shorter[i]);
      assert shorter[..i + 1] == shorter[..i] + [shorter[i]];
      shorterVars := shorterVars + [v];
      i := i + 1;
    }
    assert shorter[..n] == shorter;

    // Witnesses, one per element of `larger.take(n)`.
    var largerVars: seq<Variable> := [];
    i := 0;
    while i < n
      invariant 0 <= i <= n
      invariant cs.Valid()
      invariant cs.instance == instance0 + shorter
      invariant cs.witnesses == witnesses0 + larger[..i]
      invariant cs.constraints == constraints0
      invariant |largerVars| == i
      invariant forall k | 0 <= k < i :: largerVars[k] == Witness(|witnesses0| + k)
    {
      var v := cs.NewWitness(larger[i]);
      assert larger[..i + 1] == larger[..i] + [larger[i]];
      largerVars := largerVars + [v];
      i := i + 1;
    }

    // One equality per zipped pair.
    ghost var expected := PositionalEqualities(|instance0|, |witnesses0|, n);
    i := 0;
    while i < n
      invariant 0 <= i <= n
      invariant cs.Valid()
      invariant cs.instance == instance0 + shorter
      invariant cs.witnesses == witnesses0 + larger[..n]
      invariant cs.constraints == constraints0 + expected[..i]
    {
      cs.EnforceEqual(largerVars[i], shorterVars[i]);
      assert expected[..i + 1] == expected[..i] + [expected[i]];
      i := i + 1;
    }
    assert expected[..n] == expected;
    PositionalEqualitiesHoldIffPrefix(instance0, witnesses0, shorter, larger);
    HoldsExtend(instance0, witnesses0, shorter, larger[..n], constraints0, expected);
    r := Ok(Unit);
  }

  /**
   * The statement a proof of `NewFromStr(shorter, larger)` establishes: the
   * instance is well shaped and the precise location starts with the challenge,
   * both as byte strings.
   */
  lemma CircuitStatementOnBytes(shorter: seq<u8>, larger: seq<u8>)
    ensures var c := NewFromStr(shorter, larger);
            (WellShaped(c.shorter.value, c.larger.value) && StartsWith(c.larger.value, c.shorter.value))
            <==> (0 < |shorter| <= |larger| && StartsWith(larger, shorter))
  {
    PrimeStringPreservesPrefix(larger, shorter);
  }

  /**
   * `verify_proof`: the public-input string is encoded with `PrimeString`
   * and handed, with the verifying key and the proof, to the Groth16 verifier
   * (a parameter here). Whatever the private location, the verifier receives
   * exactly the public inputs `new_from_str` stores as `shorter`.
   */
  function VerifyProof<Vk, Proof>(
    groth16Verify: (Vk, seq<Fr>, Proof) -> Result<bool, SynthesisError>,
    vk: Vk, publicInputs: seq<u8>, proof: Proof): (r: Result<bool, SynthesisError>)
    ensures forall larger: seq<u8> :: r == groth16Verify(vk, NewFromStr(publicInputs, larger).shorter.value, proof)
  {
    groth16Verify(vk, PrimeString(publicInputs), proof)
  }

  /** The encoding of the test strings "abc" and "def". */
  lemma NewFromStrExample()
    ensures NewFromStr(AsciiBytes("abc"), AsciiBytes("def")) ==
            CompareCircuit(Some([97, 98, 99]), Some([100, 101, 102]))
  {
    var c := NewFromStr(AsciiBytes("abc"), AsciiBytes("def"));
    assert c.shorter.value == [97, 98, 99];
    assert c.larger.value == [100, 101, 102];
  }

  /**
   * The instances the tests reject ("" / "bcdef", "bcd" / "", "abcdef" / "abc")
   * are refused with `Unsatisfiable`; the instance "abc" / "abcdef" is
   * synthesised and its constraints are satisfied.
   */
  method SynthesisScenarios() returns (emptyShorter: Result<Unit, SynthesisError>,
                                       emptyLarger: Result<Unit, SynthesisError>,
                                       tooLong: Result<Unit, SynthesisError>,
                                       prefix: Result<Unit, SynthesisError>,
                                       satisfied: bool)
    ensures emptyShorter == Err(Unsatisfiable)
    ensures emptyLarger == Err(Unsatisfiable)
    ensures tooLong == Err(Unsatisfiable)
    ensures prefix == Ok(Unit) && satisfied
  {
    var cs := new ConstraintSystem();
    emptyShorter := GenerateConstraints(NewFromStr([], AsciiBytes("bcdef")), cs);
    emptyLarger := GenerateConstraints(NewFromStr(AsciiBytes("bcd"), []), cs);
    tooLong := GenerateConstraints(NewFromStr(AsciiBytes("abcdef"), AsciiBytes("abc")), cs);
    var abc, abcdef := AsciiBytes("abc"), AsciiBytes("abcdef");
    assert cs.IsSatisfied();
    assert StartsWith(abcdef, abc) by {
      assert abcdef[..3] == abc;
    }
    PrimeStringPreservesPrefix(abcdef, abc);
    var circuit := NewFromStr(abc, abcdef);
    assert WellShaped(circuit.shorter.value, circuit.larger.value);
    assert StartsWith(circuit.larger.value, circuit.shorter.value);
    prefix := GenerateConstraints(circuit, cs);
    assert prefix.value == Unit;
    satisfied := cs.IsSatisfied();
  }
}
