/**
 * The attendance pallet of
 * polkadot-sdk-solochain-template/pallets/attendance/src/lib.rs.
 *
 * The pallet keeps a set of challenges (geohash cells), a record of which
 * account has proved presence in which challenge, the oracle's public key and
 * a Groth16 verifying key. Its four dispatchables become the methods of the
 * class `Pallet`; the storage items become its fields. The runtime's
 * cryptography (the payload hasher, key and signature parsing, signature
 * verification, proof and key deserialisation, Groth16 verification) is
 * supplied by a `Config` value, and the calls to `T::Mint::mint` and
 * `deposit_event` are recorded in two append-only logs.
 */
module Attendance {
  import opened Wrappers
  import opened Bytes
  import GeohashProver

  /** The caller of a dispatchable, as `ensure_signed` and `ensure_root` see it. */
  datatype Origin<AccountId> = Root | Signed(who: AccountId) | Unsigned

  /** The pallet's `Error` enum. */
  datatype Error = InvalidGeohash | InvalidPublicKey | InvalidSignature | AlreadySubmitted | InvalidProof

  /** A dispatchable's error: a bad origin or one of the pallet's errors. */
  datatype DispatchError = BadOrigin | Module(error: Error)

  type DispatchResult = Result<Unit, DispatchError>

  /** The pallet's `Event` enum. */
  datatype Event<AccountId> =
    | ChallengeCreated(who: AccountId, challenge: seq<u8>)
    | SubmissionAccepted(who: AccountId, challenge: seq<u8>, signature: seq<u8>)

  /** Which dispatchable minted. */
  datatype Route = BySignature | ByProof

  /**
   * One call of `T::Mint::mint(&who)`. The mint itself receives only `who`;
   * the challenge and the route are recorded so that the ledger's invariant
   * can be stated.
   */
  datatype MintRecord<AccountId> = MintRecord(who: AccountId, challenge: seq<u8>, route: Route)

  /**
   * The runtime's choices for the pallet's associated types, as functions:
   * `PayloadHasher::hash`, `PublicKeyOfOracle::from_slice`,
   * `Signature::from_slice`, `Verify::verify`, and the arkworks calls of
   * `verify_zkp` (`Proof::deserialize_uncompressed`,
   * `VerifyingKey::deserialize_uncompressed`, `Groth16::<Bn254>::verify`).
   * A parser's `None` is its `Err(())`.
   */
  datatype Config<!Digest, !Public, !Sig, !Vk, !Proof> = Config(
    payloadHash: seq<u8> -> Digest,
    publicKeyFromSlice: seq<u8> -> Option<Public>,
    signatureFromSlice: seq<u8> -> Option<Sig>,
    verify: (Sig, Digest, Public) -> bool,
    deserializeProof: seq<u8> -> Option<Proof>,
    deserializeVerifyingKey: seq<u8> -> Option<Vk>,
    groth16Verify: (Vk, seq<GeohashProver.Fr>, Proof) -> Result<bool, GeohashProver.SynthesisError>)

  /** The alphabet of geohash's base-32: the digits and the lower-case letters but a, i, l and o. */
  const GEOHASH_ALPHABET: string := "0123456789bcdefghjkmnpqrstuvwxyz"

  /** A geohash symbol, by character ranges. */
  predicate IsGeohashSymbol(c: u8)
  {
    || (0x30 <= c <= 0x39)                                // '0' ..= '9'
    || (0x62 <= c <= 0x7a && c != 0x69 && c != 0x6c && c != 0x6f)  // 'b' ..= 'z' but 'i', 'l', 'o'
  }

  /** `*c as char` is in the alphabet exactly when `c` is a geohash symbol. */
  lemma AlphabetMembership(c: u8)
    ensures (c as int as char in GEOHASH_ALPHABET) <==> IsGeohashSymbol(c)
  {
    var ch := c as int as char;
    if ch in GEOHASH_ALPHABET {
      var j :| 0 <= j < |GEOHASH_ALPHABET| && GEOHASH_ALPHABET[j] == ch;
      assert IsGeohashSymbol(c);
    }
    if IsGeohashSymbol(c) {
      var j := if c <= 0x39 then c as int - 0x30
               else if c <= 0x68 then c as int - 0x62 + 10
               else if c <= 0x6b then c as int - 0x6a + 17
               else if c <= 0x6e then c as int - 0x6d + 19
               else c as int - 0x70 + 21;
      assert GEOHASH_ALPHABET[j] == ch;
    }
  }

  /**
   * `valid_geohash`: every byte, read as a character, is in the geohash
   * alphabet. The empty string is valid.
   */
  function ValidGeohash(geohash: seq<u8>): (valid: bool)
    ensures valid <==> forall i | 0 <= i < |geohash| :: IsGeohashSymbol(geohash[i])
  {
    forall i | 0 <= i < |geohash| :: AlphabetMembership(geohash[i]); geohash[i] as int as char in GEOHASH_ALPHABET
  }

  /** The strings the unit test `test_valid_geohash` expects valid and invalid. */
  lemma ValidGeohashExamples()
    ensures ValidGeohash(AsciiBytes("bcd"))
    ensures ValidGeohash(AsciiBytes("ezs42"))
    ensures ValidGeohash(AsciiBytes("u4pruydqqvj"))
    ensures !ValidGeohash(AsciiBytes("abc"))
    ensures !ValidGeohash(AsciiBytes("!@#"))
    ensures !ValidGeohash(AsciiBytes("ABC"))
    ensures ValidGeohash([])
  {
    assert !IsGeohashSymbol(AsciiBytes("abc")[0]);
    assert !IsGeohashSymbol(AsciiBytes("!@#")[0]);
    assert !IsGeohashSymbol(AsciiBytes("ABC")[0]);
  }

  /** `geohash_in_geohash`: the location lies in the challenge's cell when it starts with it. */
  function GeohashInGeohash(geohash: seq<u8>, challenge: seq<u8>): (inside: bool)
    ensures inside <==> |challenge| <= |geohash| && forall i | 0 <= i < |challenge| :: geohash[i] == challenge[i]
  {
    StartsWithAt(geohash, challenge);
    StartsWith(geohash, challenge)
  }

  /**
   * The public input `verify_zkp` builds: each byte of the challenge taken as
   * a `u64` into BN254's `Fr`. It is the encoding the prover gives the
   * circuit's public `shorter` side.
   */
  function ChallengePublicInput(challenge: seq<u8>): (input: seq<GeohashProver.Fr>)
    ensures input == GeohashProver.PrimeString(challenge)
  {
    seq(|challenge|, i requires 0 <= i < |challenge| => GeohashProver.FrFromU64(challenge[i] as nat))
  }

  /**
   * None of the `expect`s of `verify_zkp` fires: the proof deserialises, a
   * verifying key is stored and deserialises, and the Groth16 verifier
   * returns a verdict rather than an error.
   */
  predicate ZkpDefined<Digest, Public, Sig, Vk, Proof>(
    config: Config<Digest, Public, Sig, Vk, Proof>, verifyingKey: Option<seq<u8>>,
    proof: seq<u8>, challenge: seq<u8>)
  {
    && config.deserializeProof(proof).Some?
    && verifyingKey.Some?
    && config.deserializeVerifyingKey(verifyingKey.value).Some?
    && config.groth16Verify(config.deserializeVerifyingKey(verifyingKey.value).value,
                            ChallengePublicInput(challenge),
                            config.deserializeProof(proof).value).Ok?
  }

  /** The cap of `RawProof` and `RawVerifyingKey`, `BoundedVec<u8, ConstU32<64>>`. */
  const RAW_PROOF_CAP: nat := 64

  /**
   * The length of arkworks' uncompressed BN254 Groth16 proof: a G1 point
   * (64 bytes), a G2 point (128 bytes) and another G1 point (64 bytes).
   */
  const UNCOMPRESSED_PROOF_SIZE: nat := 256

  /**
   * `Proof::deserialize_uncompressed` succeeds only on a slice holding at
   * least a whole uncompressed proof.
   */
  ghost predicate ProofDeserialiserNeedsWholeProof<Digest, Public, Sig, Vk, Proof>(
    config: Config<Digest, Public, Sig, Vk, Proof>)
  {
    forall bytes: seq<u8> :: config.deserializeProof(bytes).Some? ==> |bytes| >= UNCOMPRESSED_PROOF_SIZE
  }

  /**
   * With arkworks' proof size, no proof that fits `RawProof` deserialises,
   * so the `expect("proof")` of `verify_zkp` fires on every signed call of
   * `submission_with_proof`: its acceptance path cannot be reached with the
   * pallet's 64-byte cap.
   */
  lemma CappedProofNeverDeserialises<Digest, Public, Sig, Vk, Proof>(
    config: Config<Digest, Public, Sig, Vk, Proof>, verifyingKey: Option<seq<u8>>,
    proof: seq<u8>, challenge: seq<u8>)
    requires ProofDeserialiserNeedsWholeProof(config)
    requires |proof| <= RAW_PROOF_CAP
    ensures config.deserializeProof(proof).None?
    ensures !ZkpDefined(config, verifyingKey, proof, challenge)
  {
  }

  /**
   * `verify_zkp`: the Groth16 verdict on the proof against the challenge's
   * public input. The pallet accepts a proof exactly when the prover's own
   * `verify_proof`, given the challenge as its public input, reports success
   * with the same key and proof: both ends encode the challenge the same way.
   */
  function VerifyZkp<Digest, Public, Sig, Vk, Proof>(
    config: Config<Digest, Public, Sig, Vk, Proof>, verifyingKey: Option<seq<u8>>,
    proof: seq<u8>, challenge: seq<u8>): (accepted: bool)
    requires ZkpDefined(config, verifyingKey, proof, challenge)
    ensures accepted <==>
            GeohashProver.VerifyProof(config.groth16Verify,
                                      config.deserializeVerifyingKey(verifyingKey.value).value,
                                      challenge, config.deserializeProof(proof).value) == Ok(true)
  {
    var p := config.deserializeProof(proof).value;
    var vk := config.deserializeVerifyingKey(verifyingKey.value).value;
    config.groth16Verify(vk, ChallengePublicInput(challenge), p).value
  }

  /**
   * The `expect("oracle key")` of `submission_with_signature` is reached only
   * by a signed caller with no submission for the challenge yet whose
   * location lies in the challenge; there an oracle key must be stored.
   */
  predicate OracleKeyReachable<AccountId(==)>(
    origin: Origin<AccountId>, submissions: map<(seq<u8>, AccountId), bool>,
    challenge: seq<u8>, location: seq<u8>)
  {
    origin.Signed? && (challenge, origin.who) !in submissions && GeohashInGeohash(location, challenge)
  }

  /**
   * The verdict of `submission_with_signature`, checks in source order: the
   * origin, the replay guard, the prefix relation, the oracle key's parse,
   * the signature's parse and its verification over the hash of the
   * location. It reads the submissions record and the oracle key, and not
   * the challenges.
   */
  function SignatureVerdict<AccountId(==), Digest, Public, Sig, Vk, Proof>(
    config: Config<Digest, Public, Sig, Vk, Proof>, origin: Origin<AccountId>,
    submissions: map<(seq<u8>, AccountId), bool>, oracle: Option<seq<u8>>,
    challenge: seq<u8>, location: seq<u8>, signature: seq<u8>): (r: DispatchResult)
    requires OracleKeyReachable(origin, submissions, challenge, location) ==> oracle.Some?
    ensures !origin.Signed? ==> r == Err(BadOrigin)
    ensures origin.Signed? && (challenge, origin.who) in submissions ==> r == Err(Module(AlreadySubmitted))
    ensures origin.Signed? && (challenge, origin.who) !in submissions && !StartsWith(location, challenge) ==>
              r == Err(Module(InvalidGeohash))
    ensures OracleKeyReachable(origin, submissions, challenge, location) ==>
              (config.publicKeyFromSlice(oracle.value).None? ==> r == Err(Module(InvalidPublicKey)))
    ensures OracleKeyReachable(origin, submissions, challenge, location) &&
            config.publicKeyFromSlice(oracle.value).Some? ==>
              (config.signatureFromSlice(signature).None? ==> r == Err(Module(InvalidSignature)))
    ensures OracleKeyReachable(origin, submissions, challenge, location) &&
            config.publicKeyFromSlice(oracle.value).Some? && config.signatureFromSlice(signature).Some? ==>
              r == if config.verify(config.signatureFromSlice(signature).value, config.payloadHash(location),
                                    config.publicKeyFromSlice(oracle.value).value)
                   then Ok(Unit) else Err(Module(InvalidSignature))
  {
    if !origin.Signed? then Err(BadOrigin)
    else if (challenge, origin.who) in submissions then Err(Module(AlreadySubmitted))
    else if !GeohashInGeohash(location, challenge) then Err(Module(InvalidGeohash))
    else
      var message := config.payloadHash(location);
      match config.publicKeyFromSlice(oracle.value)
      case None => Err(Module(InvalidPublicKey))
      case Some(publicKey) =>
        match config.signatureFromSlice(signature)
        case None => Err(Module(InvalidSignature))
        case Some(sig) =>
          if config.verify(sig, message, publicKey) then Ok(Unit) else Err(Module(InvalidSignature))
  }

  /**
   * A signed submission is accepted exactly when it is not a replay, the
   * location lies in the challenge, the oracle key and the signature parse,
   * and the signature verifies over the hash of the location.
   */
  lemma SignatureVerdictOk<AccountId, Digest, Public, Sig, Vk, Proof>(
    config: Config<Digest, Public, Sig, Vk, Proof>, who: AccountId,
    submissions: map<(seq<u8>, AccountId), bool>, oracle: Option<seq<u8>>,
    challenge: seq<u8>, location: seq<u8>, signature: seq<u8>)
    requires OracleKeyReachable(Signed(who), submissions, challenge, location) ==> oracle.Some?
    ensures SignatureVerdict(config, Signed(who), submissions, oracle, challenge, location, signature).Ok? <==>
            && (challenge, who) !in submissions
            && StartsWith(location, challenge)
            && config.publicKeyFromSlice(oracle.value).Some?
            && config.signatureFromSlice(signature).Some?
            && config.verify(config.signatureFromSlice(signature).value, config.payloadHash(location),
                             config.publicKeyFromSlice(oracle.value).value)
  {
  }

  /**
   * Once `(challenge, who)` is recorded, every further signature submission
   * by `who` for that challenge fails with `AlreadySubmitted`, whatever the
   * location, the oracle key and the signature.
   */
  lemma SignatureReplayRejected<AccountId, Digest, Public, Sig, Vk, Proof>(
    config: Config<Digest, Public, Sig, Vk, Proof>, who: AccountId,
    submissions: map<(seq<u8>, AccountId), bool>, oracle: Option<seq<u8>>,
    challenge: seq<u8>, location: seq<u8>, signature: seq<u8>)
    requires (challenge, who) in submissions
    ensures SignatureVerdict(config, Signed(who), submissions, oracle, challenge, location, signature) ==
            Err(Module(AlreadySubmitted))
  {
  }

  /** The keys of the submissions the mint log accounts for. */
  function MintedKeys<AccountId(==)>(mints: seq<MintRecord<AccountId>>): (keys: set<(seq<u8>, AccountId)>)
    ensures forall i | 0 <= i < |mints| :: (mints[i].challenge, mints[i].who) in keys
    ensures forall k | k in keys :: exists i | 0 <= i < |mints| :: k == (mints[i].challenge, mints[i].who)
  {
    if mints == [] then {}
    else
      var last := mints[|mints| - 1];
      MintedKeys(mints[..|mints| - 1]) + {(last.challenge, last.who)}
  }

  /** Every stored challenge passed the alphabet check and maps to true. */
  predicate ChallengesWellFormed(challenges: map<seq<u8>, bool>)
  {
    forall g | g in challenges :: challenges[g] && ValidGeohash(g)
  }

  /** Every submission record is true, and the records are exactly the pairs something was minted for. */
  predicate SubmissionsMatchMints<AccountId(==)>(submissions: map<(seq<u8>, AccountId), bool>,
                                                 mints: seq<MintRecord<AccountId>>)
  {
    && (forall k | k in submissions :: submissions[k])
    && submissions.Keys == MintedKeys(mints)
  }

  /** A mint by signature is the first mint for its (challenge, account) pair. */
  predicate SignatureMintsFirst<AccountId(==)>(mints: seq<MintRecord<AccountId>>)
  {
    forall i, j | 0 <= j < i < |mints| && mints[i].route == BySignature ::
      (mints[j].challenge, mints[j].who) != (mints[i].challenge, mints[i].who)
  }

  /** Every event names stored entries. */
  predicate EventsRecorded<AccountId(==)>(challenges: map<seq<u8>, bool>, submissions: map<(seq<u8>, AccountId), bool>,
                                      events: seq<Event<AccountId>>)
  {
    && (forall i | 0 <= i < |events| && events[i].ChallengeCreated? :: events[i].challenge in challenges)
    && (forall i | 0 <= i < |events| && events[i].SubmissionAccepted? ::
          (events[i].challenge, events[i].who) in submissions)
  }

  /** No challenge was announced twice. */
  predicate ChallengesAnnouncedOnce<AccountId>(events: seq<Event<AccountId>>)
  {
    forall i, j | 0 <= j < i < |events| && events[i].ChallengeCreated? && events[j].ChallengeCreated? ::
      events[j].challenge != events[i].challenge
  }

  /** The ledger's invariant: the five properties above together. */
  predicate Ledger<AccountId(==)>(challenges: map<seq<u8>, bool>, submissions: map<(seq<u8>, AccountId), bool>,
                                  events: seq<Event<AccountId>>, mints: seq<MintRecord<AccountId>>)
  {
    && ChallengesWellFormed(challenges)
    && SubmissionsMatchMints(submissions, mints)
    && SignatureMintsFirst(mints)
    && EventsRecorded(challenges, submissions, events)
    && ChallengesAnnouncedOnce(events)
  }

  /** Appending a mint adds its pair to the minted keys. */
  lemma MintedKeysAppend<AccountId>(mints: seq<MintRecord<AccountId>>, m: MintRecord<AccountId>)
    ensures MintedKeys(mints + [m]) == MintedKeys(mints) + {(m.challenge, m.who)}
  {
    assert (mints + [m])[..|mints|] == mints;
  }

  /** Storing a new, well-formed challenge and announcing it keeps the ledger's invariant. */
  lemma CreateKeepsLedger<AccountId>(challenges: map<seq<u8>, bool>,
                                         submissions: map<(seq<u8>, AccountId), bool>,
                                         events: seq<Event<AccountId>>, mints: seq<MintRecord<AccountId>>,
                                         who: AccountId, challenge: seq<u8>)
    requires Ledger(challenges, submissions, events, mints)
    requires ValidGeohash(challenge) && challenge !in challenges
    ensures Ledger(challenges[challenge := true], submissions, events + [ChallengeCreated(who, challenge)], mints)
  {
    var events' := events + [ChallengeCreated(who, challenge)];
    forall i, j | 0 <= j < i < |events'| && events'[i].ChallengeCreated? && events'[j].ChallengeCreated?
      ensures events'[j].challenge != events'[i].challenge
    {
      if i == |events| {
        assert events[j].challenge in challenges;
      }
    }
  }

  /**
   * Minting by signature for a pair not yet recorded, recording it and
   * announcing it keeps the ledger's invariant; in particular the new mint is
   * the first for its pair.
   */
  lemma SignatureMintKeepsLedger<AccountId>(challenges: map<seq<u8>, bool>,
                                                submissions: map<(seq<u8>, AccountId), bool>,
                                                events: seq<Event<AccountId>>, mints: seq<MintRecord<AccountId>>,
                                                who: AccountId, challenge: seq<u8>, signature: seq<u8>)
    requires Ledger(challenges, submissions, events, mints)
    requires (challenge, who) !in submissions
    ensures Ledger(challenges, submissions[(challenge, who) := true],
                   events + [SubmissionAccepted(who, challenge, signature)],
                   mints + [MintRecord(who, challenge, BySignature)])
  {
    var m := MintRecord(who, challenge, BySignature);
    var submissions', events', mints' :=
      submissions[(challenge, who) := true], events + [SubmissionAccepted(who, challenge, signature)], mints + [m];
    MintedKeysAppend(mints, m);
    assert SubmissionsMatchMints(submissions', mints');
    forall i, j | 0 <= j < i < |mints'| && mints'[i].route == BySignature
      ensures (mints'[j].challenge, mints'[j].who) != (mints'[i].challenge, mints'[i].who)
    {
      if i == |mints| {
        assert (mints[j].challenge, mints[j].who) in MintedKeys(mints);
      }
    }
    assert SignatureMintsFirst(mints');
    assert EventsRecorded(challenges, submissions', events');
    assert ChallengesAnnouncedOnce(events') by {
      forall i, j | 0 <= j < i < |events'| && events'[i].ChallengeCreated? && events'[j].ChallengeCreated?
        ensures events'[j].challenge != events'[i].challenge
      {
        assert i < |events|;
      }
    }
  }

  /** Minting by proof and recording the pair, whether or not it was recorded, keeps the ledger's invariant. */
  lemma ProofMintKeepsLedger<AccountId>(challenges: map<seq<u8>, bool>,
                                            submissions: map<(seq<u8>, AccountId), bool>,
                                            events: seq<Event<AccountId>>, mints: seq<MintRecord<AccountId>>,
                                            who: AccountId, challenge: seq<u8>)
    requires Ledger(challenges, submissions, events, mints)
    ensures Ledger(challenges, submissions[(challenge, who) := true], events,
                   mints + [MintRecord(who, challenge, ByProof)])
  {
    var m := MintRecord(who, challenge, ByProof);
    var submissions', mints' := submissions[(challenge, who) := true], mints + [m];
    MintedKeysAppend(mints, m);
    assert SubmissionsMatchMints(submissions', mints');
    assert SignatureMintsFirst(mints') by {
      forall i, j | 0 <= j < i < |mints'| && mints'[i].route == BySignature
        ensures (mints'[j].challenge, mints'[j].who) != (mints'[i].challenge, mints'[i].who)
      {
        assert i < |mints|;
      }
    }
    assert EventsRecorded(challenges, submissions', events);
  }

  /**
   * The pallet's storage and the effects it has had on the runtime: the
   * `Challenges` map, the `Submissions` double map (keyed by challenge and
   * account), the `Oracle` and `ProofVerifyingKey` values, the deposited
   * events and the calls to `T::Mint::mint`.
   */
  class Pallet<AccountId(==), Digest, Public, Sig, Vk, Proof> {
    const config: Config<Digest, Public, Sig, Vk, Proof>
    var challenges: map<seq<u8>, bool>
    var submissions: map<(seq<u8>, AccountId), bool>
    var oracle: Option<seq<u8>>
    var proofVerifyingKey: Option<seq<u8>>
    var events: seq<Event<AccountId>>
    var mints: seq<MintRecord<AccountId>>

    /** The storage and the logs satisfy the ledger's invariant. */
    predicate Valid()
      reads this
    {
      Ledger(challenges, submissions, events, mints)
    }

    /**
     * A fresh chain: no challenges, submissions, oracle key, events or mints.
     * The pallet has no setter for `ProofVerifyingKey`; its value is whatever
     * genesis storage holds.
     */
    constructor (config: Config<Digest, Public, Sig, Vk, Proof>, genesisVerifyingKey: Option<seq<u8>>)
      ensures Valid()
      ensures this.config == config
      ensures challenges == map[] && submissions == map[] && oracle == None
      ensures proofVerifyingKey == genesisVerifyingKey && events == [] && mints == []
    {
      this.config := config;
      challenges := map[];
      submissions := map[];
      oracle := None;
      proofVerifyingKey := genesisVerifyingKey;
      events := [];
      mints := [];
    }

    /**
     * `create_challenge`: a signed caller stores a new, well-formed geohash.
     * A malformed or already stored geohash is refused with `InvalidGeohash`;
     * every refusal leaves the pallet as it was.
     */
    method CreateChallenge(origin: Origin<AccountId>, challenge: seq<u8>) returns (r: DispatchResult)
      requires Valid()
      modifies this
      ensures Valid()
      ensures !origin.Signed? ==> r == Err(BadOrigin)
      ensures origin.Signed? && !ValidGeohash(challenge) ==> r == Err(Module(InvalidGeohash))
      ensures origin.Signed? && challenge in old(challenges) ==> r == Err(Module(InvalidGeohash))
      ensures origin.Signed? && ValidGeohash(challenge) && challenge !in old(challenges) ==> r == Ok(Unit)
      ensures r.Err? ==> unchanged(this)
      ensures r.Ok? ==>
                && challenges == old(challenges)[challenge := true]
                && events == old(events) + [ChallengeCreated(origin.who, challenge)]
                && submissions == old(submissions) && oracle == old(oracle)
                && proofVerifyingKey == old(proofVerifyingKey) && mints == old(mints)
    {
      if !origin.Signed? {
        return Err(BadOrigin);
      }
      var who := origin.who;
      if !ValidGeohash(challenge) {
        return Err(Module(InvalidGeohash));
      }
      if challenge in challenges {
        return Err(Module(InvalidGeohash));
      }
      CreateKeepsLedger(challenges, submissions, events, mints, who, challenge);
      challenges := challenges[challenge := true];
      events := events + [ChallengeCreated(who, challenge)];
      r := Ok(Unit);
    }

    /**
     * `submission_with_signature`: the verdict is `SignatureVerdict` on the
     * submissions record and the oracle key (the challenges are not read).
     * On acceptance the caller is minted for once, the pair is recorded and
     * `SubmissionAccepted` carries the submitted signature; on refusal
     * nothing changes.
     */
    method SubmissionWithSignature(origin: Origin<AccountId>, challenge: seq<u8>, location: seq<u8>,
                                   signature: seq<u8>) returns (r: DispatchResult)
      requires Valid()
      requires OracleKeyReachable(origin, submissions, challenge, location) ==> oracle.Some?
      modifies this
      ensures Valid()
      ensures r == SignatureVerdict(config, origin, old(submissions), old(oracle), challenge, location, signature)
      ensures r.Err? ==> unchanged(this)
      ensures r.Ok? ==>
                && mints == old(mints) + [MintRecord(origin.who, challenge, BySignature)]
                && submissions == old(submissions)[(challenge, origin.who) := true]
                && events == old(events) + [SubmissionAccepted(origin.who, challenge, signature)]
                && challenges == old(challenges) && oracle == old(oracle)
                && proofVerifyingKey == old(proofVerifyingKey)
    {
      r := SignatureVerdict(config, origin, submissions, oracle, challenge, location, signature);
      if r.Err? {
        return;
      }
      var who := origin.who;
      SignatureMintKeepsLedger(challenges, submissions, events, mints, who, challenge, signature);
      Mint(who, challenge, BySignature);
      submissions := submissions[(challenge, who) := true];
      events := events + [SubmissionAccepted(who, challenge, signature)];
    }

    /**
     * `T::Mint::mint(&who)`, with the ledger's record of why. This is the
     * runtime's minting hook, not a dispatchable: only the two submission
     * methods call it, each just before it writes the matching submission
     * record, which is why it neither needs nor keeps `Valid()` on its own.
     */
    method Mint(who: AccountId, challenge: seq<u8>, route: Route)
      modifies this
      ensures mints == old(mints) + [MintRecord(who, challenge, route)]
      ensures challenges == old(challenges) && submissions == old(submissions)
      ensures oracle == old(oracle) && proofVerifyingKey == old(proofVerifyingKey) && events == old(events)
    {
      mints := mints + [MintRecord(who, challenge, route)];
    }

    /** `set_oracle_public_key`: only the root origin may overwrite the oracle key. */
    method SetOraclePublicKey(origin: Origin<AccountId>, publicKey: seq<u8>) returns (r: DispatchResult)
      requires Valid()
      modifies this
      ensures Valid()
      ensures origin.Root? <==> r == Ok(Unit)
      ensures !origin.Root? ==> r == Err(BadOrigin) && unchanged(this)
      ensures origin.Root? ==>
                && oracle == Some(publicKey)
                && challenges == old(challenges) && submissions == old(submissions)
                && proofVerifyingKey == old(proofVerifyingKey)
                && events == old(events) && mints == old(mints)
    {
      if !origin.Root? {
        return Err(BadOrigin);
      }
      oracle := Some(publicKey);
      r := Ok(Unit);
    }

    /**
     * `submission_with_proof`: a signed caller whose proof verifies against
     * the challenge's public input is minted for and recorded. The
     * submissions record is not consulted, so every accepted proof mints
     * again, and no event is deposited. A proof that does not verify is
     * refused with `InvalidProof` and nothing changes.
     */
    method SubmissionWithProof(origin: Origin<AccountId>, challenge: seq<u8>, proof: seq<u8>)
      returns (r: DispatchResult)
      requires Valid()
      requires origin.Signed? ==> ZkpDefined(config, proofVerifyingKey, proof, challenge)
      modifies this
      ensures Valid()
      ensures !origin.Signed? ==> r == Err(BadOrigin)
      ensures origin.Signed? && !VerifyZkp(config, old(proofVerifyingKey), proof, challenge) ==>
                r == Err(Module(InvalidProof))
      ensures origin.Signed? && VerifyZkp(config, old(proofVerifyingKey), proof, challenge) ==> r == Ok(Unit)
      ensures r.Err? ==> unchanged(this)
      ensures r.Ok? ==>
                && mints == old(mints) + [MintRecord(origin.who, challenge, ByProof)]
                && submissions == old(submissions)[(challenge, origin.who) := true]
                && events == old(events)
                && challenges == old(challenges) && oracle == old(oracle)
                && proofVerifyingKey == old(proofVerifyingKey)
    {
      if !origin.Signed? {
        return Err(BadOrigin);
      }
      var who := origin.who;
      if !VerifyZkp(config, proofVerifyingKey, proof, challenge) {
        return Err(Module(InvalidProof));
      }
      ProofMintKeepsLedger(challenges, submissions, events, mints, who, challenge);
      Mint(who, challenge, ByProof);
      submissions := submissions[(challenge, who) := true];
      r := Ok(Unit);
    }
  }
  /** The account `ALICE` of the pallet's unit tests. */
  const ALICE: int := 1

  /**
   * The mock runtime of the unit tests: `MockHasher` hashes everything to the
   * zero `H256`, and sp_core's `Dummy` serves as oracle key, signature and
   * verifier: it parses every byte string and accepts every signature. The
   * arkworks deserialisers and Groth16 are not the runtime's choice; the
   * three proof-side fields here are arbitrary stand-ins, and no scenario on
   * this configuration reaches them, since its genesis verifying key is `None`.
   */
  function MockConfig(): (config: Config<seq<u8>, Unit, Unit, Unit, Unit>)
    ensures forall location :: config.payloadHash(location) == seq(32, _ => 0 as u8)
    ensures forall bytes, sig, digest, key ::
              && config.publicKeyFromSlice(bytes) == Some(Unit)
              && config.signatureFromSlice(bytes) == Some(Unit)
              && config.verify(sig, digest, key)
  {
    Config(
      (_: seq<u8>) => seq(32, _ => 0 as u8),
      (_: seq<u8>) => Some(Unit),
      (_: seq<u8>) => Some(Unit),
      (_: Unit, _: seq<u8>, _: Unit) => true,
      (_: seq<u8>) => None,
      (_: seq<u8>) => None,
      (_: Unit, _: seq<GeohashProver.Fr>, _: Unit) => Err(GeohashProver.AssignmentMissing))
  }

  /**
   * The unit test `create_challenge`: "bcd" is stored by a signed caller, and
   * creating it a second time fails with `InvalidGeohash`.
   */
  method CreateChallengeTwice() returns (first: DispatchResult, stored: bool, second: DispatchResult)
    ensures first == Ok(Unit) && stored
    ensures second == Err(Module(InvalidGeohash))
  {
    var pallet := new Pallet<int, seq<u8>, Unit, Unit, Unit, Unit>(MockConfig(), None);
    var bcd := AsciiBytes("bcd");
    ValidGeohashExamples();
    first := pallet.CreateChallenge(Signed(ALICE), bcd);
    stored := bcd in pallet.challenges;
    second := pallet.CreateChallenge(Signed(ALICE), bcd);
  }

  /**
   * The unit test `submit_valid_geohash_for_challenge`, followed by a replay:
   * with the oracle key set by root and "bcd" created, ALICE's submission
   * from "bcdefg" is accepted and mints once; submitting it again fails with
   * `AlreadySubmitted` and mints nothing more.
   */
  method SubmitValidGeohashThenReplay()
    returns (setKey: DispatchResult, created: DispatchResult, submitted: DispatchResult,
             replayed: DispatchResult, minted: seq<MintRecord<int>>)
    ensures setKey == Ok(Unit) && created == Ok(Unit) && submitted == Ok(Unit)
    ensures replayed == Err(Module(AlreadySubmitted))
    ensures minted == [MintRecord(ALICE, AsciiBytes("bcd"), BySignature)]
  {
    var pallet := new Pallet<int, seq<u8>, Unit, Unit, Unit, Unit>(MockConfig(), None);
    var bcd, bcdefg := AsciiBytes("bcd"), AsciiBytes("bcdefg");
    ValidGeohashExamples();
    setKey := pallet.SetOraclePublicKey(Root, []);
    created := pallet.CreateChallenge(Signed(ALICE), bcd);
    assert StartsWith(bcdefg, bcd) by {
      assert bcdefg[..3] == bcd;
    }
    submitted := pallet.SubmissionWithSignature(Signed(ALICE), bcd, bcdefg, []);
    replayed := pallet.SubmissionWithSignature(Signed(ALICE), bcd, bcdefg, []);
    minted := pallet.mints;
  }

  /**
   * The unit test `submit_proof_for_challenge` as written: on a fresh chain
   * where only "bcd" was created, it calls `submission_with_signature` for
   * "bcd" from "bcdefg". No oracle key is stored, so the call reaches the
   * `expect("oracle key")` with nothing to unwrap: the precondition of
   * `SubmissionWithSignature` does not hold there.
   */
  method SubmitProofForChallengeAsWritten() returns (created: DispatchResult, panics: bool)
    ensures created == Ok(Unit)
    ensures panics
  {
    var pallet := new Pallet<int, seq<u8>, Unit, Unit, Unit, Unit>(MockConfig(), None);
    var bcd, bcdefg := AsciiBytes("bcd"), AsciiBytes("bcdefg");
    ValidGeohashExamples();
    created := pallet.CreateChallenge(Signed(ALICE), bcd);
    assert StartsWith(bcdefg, bcd) by {
      assert bcdefg[..3] == bcd;
    }
    panics := OracleKeyReachable(Signed(ALICE), pallet.submissions, bcd, bcdefg) && pallet.oracle.None?;
  }

  /**
   * Proof submissions do not consult the submissions record: the same
   * accepted proof, submitted twice by the same account, mints twice, and
   * no event is deposited. This describes the logic of the dispatchable;
   * with arkworks' proof size and the 64-byte `RawProof` cap the path is not
   * reachable (`CappedProofNeverDeserialises`).
   */
  method RepeatedProofSubmissions<Digest, Public, Sig, Vk, Proof>(
    config: Config<Digest, Public, Sig, Vk, Proof>, verifyingKey: seq<u8>, challenge: seq<u8>, proof: seq<u8>)
    returns (first: DispatchResult, second: DispatchResult, minted: seq<MintRecord<int>>,
             events: seq<Event<int>>)
    requires ZkpDefined(config, Some(verifyingKey), proof, challenge)
    requires VerifyZkp(config, Some(verifyingKey), proof, challenge)
    ensures first == Ok(Unit) && second == Ok(Unit)
    ensures minted == [MintRecord(ALICE, challenge, ByProof), MintRecord(ALICE, challenge, ByProof)]
    ensures events == []
  {
    var pallet := new Pallet<int, Digest, Public, Sig, Vk, Proof>(config, Some(verifyingKey));
    first := pallet.SubmissionWithProof(Signed(ALICE), challenge, proof);
    second := pallet.SubmissionWithProof(Signed(ALICE), challenge, proof);
    minted := pallet.mints;
    events := pallet.events;
  }
}
