# Proof-of-location core, modelled in Dafny

This project models the logic behind a proof of where a device was. A device's
location, given as a geohash, is attested in one of two ways:

- an oracle signs it;
- a zero-knowledge proof shows that the precise geohash lies inside a public
  challenge cell.

An on-chain attendance pallet then records each accepted attendance and
rewards the account that submitted it.

The project has five modules, one per core source file, plus two shared ones:

| module | file | models |
|---|---|---|
| `Attendance` | `attendance.dfy` | The attendance pallet (`pallets/attendance/src/lib.rs`). |
| `GeohashProver` | `geohash_prover.dfy` | The prefix-equality circuit (`geohash-prover/src/lib.rs`). |
| `ArkFields` | `ark_fields.dfy` | The Schnorr-style signature over BLS12-381's G1 (`ark-fields/src/lib.rs`). |
| `OracleEnv` | `oracle_env.dfy` | The oracle's hex helpers (`oracle/src/env.rs`), base16 as in section 8 of RFC 4648. |
| `Oracle` | `oracle.dfy` | The oracle library's types and its generic composition (`oracle/src/lib.rs`). |
| `Bytes`, `Wrappers` | `bytes.dfy`, `wrappers.dfy` | Shared: `u8`, byte-string prefix, ASCII literals, `Option` and `Result`. |

### Attendance

- The pallet is a class, `Attendance.Pallet`. Its storage items are fields:
  - `Challenges` and `Submissions` are maps;
  - `Oracle` and `ProofVerifyingKey` are options.
- `deposit_event` and `T::Mint::mint` are recorded in two append-only logs.
- Each dispatchable is a method. Its contract states three things:
  - the verdict, in the source's check order;
  - that nothing changes on error;
  - the whole new state on success.
- The methods keep a ledger invariant, `Attendance.Ledger`:
  - every stored challenge maps to true and passes the alphabet check;
  - submission records are exactly the pairs something was minted for;
  - a mint by signature is always the first mint for its pair;
  - events name stored entries;
  - no challenge is announced twice.
- A `Config` record holds the runtime's associated types: `PayloadHasher`,
  `PublicKeyOfOracle`, `Signature` and `Verify`, as the hash, the two parsers
  and the verifier.
- The same record also holds the fixed arkworks calls of `verify_zkp`, kept
  abstract as extra fields. They are not associated types of the pallet:
  - `Proof::deserialize_uncompressed`;
  - `VerifyingKey::deserialize_uncompressed`;
  - `Groth16::<Bn254>::verify`.

### The circuit

- The arkworks constraint system is a class with instance, witness and constraint sequences.
- `GenerateConstraints` allocates inputs and witnesses, then emits equalities, in three loops.
- It is proved to leave a system that is satisfied exactly when `larger` starts with `shorter`.

### The signature

- G1 has prime order r and is cyclic, so a point is represented by its discrete logarithm to the generator.
- Completeness, uniqueness of the response and the nonce-reuse relation are proved in the scalar field.

### Parameters in place of randomness and the environment

Randomness becomes parameters:

- the private key of `generate_key_pair`;
- the nonce of `sign`.

The environment, the network and the chain also become parameters:

- the location source and the signer of the oracle;
- the genesis value of `ProofVerifyingKey`.

## Model

| member | source | states |
|---|---|---|
| Attendance.ValidGeohash | polkadot-sdk-solochain-template/pallets/attendance/src/lib.rs:246-250 | A geohash is valid iff each of its bytes is a decimal digit or a letter from b to z other than i, l and o; the empty geohash is valid. |
| Attendance.AlphabetMembership | polkadot-sdk-solochain-template/pallets/attendance/src/lib.rs:249 | A byte read as a character is in the alphabet "0123456789bcdefghjkmnpqrstuvwxyz" iff it lies in those character ranges. |
| Attendance.ValidGeohashExamples | polkadot-sdk-solochain-template/pallets/attendance/src/tests.rs:17-38 | "bcd", "ezs42" and "u4pruydqqvj" are valid; "abc", "!@#" and "ABC" are not. |
| Bytes.StartsWithAt | polkadot-sdk-solochain-template/pallets/attendance/src/lib.rs:252-254 | `starts_with` holds iff the location is at least as long as the challenge and agrees with it at every position of the challenge. |
| Attendance.ChallengePublicInput | polkadot-sdk-solochain-template/pallets/attendance/src/lib.rs:264-265 | The pallet's public input for a challenge is the prover's `PrimeString` encoding of the same bytes. |
| Attendance.CappedProofNeverDeserialises | polkadot-sdk-solochain-template/pallets/attendance/src/lib.rs:79-80 | If the deserialiser needs the 256 bytes of an uncompressed proof, no proof within the 64-byte `RawProof` cap deserialises, and `verify_zkp`'s `expect("proof")` (lib.rs:257) is always reached. |
| Attendance.VerifyZkp | polkadot-sdk-solochain-template/pallets/attendance/src/lib.rs:256-268 | `verify_zkp` accepts iff the prover's `verify_proof`, given the challenge as public input, returns `Ok(true)` with the same key and proof. |
| Attendance.GeohashInGeohash | polkadot-sdk-solochain-template/pallets/attendance/src/lib.rs:252-254 | The location lies in the challenge iff it is at least as long and agrees with the challenge at each of the challenge's positions. |
| Attendance.SignatureVerdict | polkadot-sdk-solochain-template/pallets/attendance/src/lib.rs:171-194 | The first failing check decides the result, in the source's order. An unsigned or root origin gets `BadOrigin`. A recorded pair gets `AlreadySubmitted`. A location outside the challenge gets `InvalidGeohash`. An oracle key that does not parse gets `InvalidPublicKey`. A signature that does not parse gets `InvalidSignature`. Otherwise the result is `Ok` iff the signature verifies over the hash of the location, and `InvalidSignature` if not. |
| Attendance.SignatureVerdictOk | polkadot-sdk-solochain-template/pallets/attendance/src/lib.rs:171-194 | A signed submission is accepted iff all of these hold: it is not a replay, the location starts with the challenge, the oracle key and the signature parse, and the signature verifies over the hash of the location. |
| Attendance.SignatureReplayRejected | polkadot-sdk-solochain-template/pallets/attendance/src/lib.rs:172-175 | Once (challenge, who) is recorded, every signature submission by who for that challenge fails with `AlreadySubmitted`. |
| Attendance.CreateKeepsLedger | polkadot-sdk-solochain-template/pallets/attendance/src/lib.rs:151-159 | Storing a new, valid challenge and announcing it keeps the ledger invariant; in particular no challenge is announced twice. |
| Attendance.SignatureMintKeepsLedger | polkadot-sdk-solochain-template/pallets/attendance/src/lib.rs:172-203 | Minting by signature for an unrecorded pair, recording it and announcing it keeps the ledger invariant; the new mint is the first for its pair. |
| Attendance.ProofMintKeepsLedger | polkadot-sdk-solochain-template/pallets/attendance/src/lib.rs:226-232 | Minting by proof and recording the pair, whether or not it was already recorded, keeps the ledger invariant. |
| Attendance.Pallet.constructor | polkadot-sdk-solochain-template/pallets/attendance/src/lib.rs:103-114 | A fresh chain has no challenges, submissions, oracle key, events or mints; the verifying key is the genesis value. |
| Attendance.Pallet.CreateChallenge | polkadot-sdk-solochain-template/pallets/attendance/src/lib.rs:147-161 | An unsigned or root origin gets `BadOrigin`. A malformed or existing geohash gets `InvalidGeohash`, with no change. Otherwise the challenge is stored as true and `ChallengeCreated` is appended; nothing else changes. |
| Attendance.Pallet.SubmissionWithSignature | polkadot-sdk-solochain-template/pallets/attendance/src/lib.rs:165-206 | The result is the verdict computed from the submissions record and the oracle key; challenges are not read. A refusal changes nothing. On acceptance, in order: one mint for who, the record set to true, and `SubmissionAccepted` with the same signature. |
| Attendance.Pallet.Mint | polkadot-sdk-solochain-template/pallets/attendance/src/lib.rs:196 | A call of `T::Mint::mint` appends one record to the mint log and changes no storage. It is the runtime's hook, called only by the two submission methods. |
| Attendance.Pallet.SetOraclePublicKey | polkadot-sdk-solochain-template/pallets/attendance/src/lib.rs:210-217 | Only root succeeds, and then overwrites the oracle key; nothing else changes. Any other origin gets `BadOrigin` with no change. |
| Attendance.Pallet.SubmissionWithProof | polkadot-sdk-solochain-template/pallets/attendance/src/lib.rs:221-235 | A proof that does not verify gets `InvalidProof` with no change. An accepted proof mints and records the pair, without checking earlier records and without emitting an event. |
| Attendance.MockConfig | polkadot-sdk-solochain-template/pallets/attendance/src/mock.rs:58-77 | The mock hashes every payload to zero; its `Dummy` parses every key and signature and accepts every signature. Its proof-side fields are arbitrary stand-ins that no scenario on it reaches. |
| Attendance.CreateChallengeTwice | polkadot-sdk-solochain-template/pallets/attendance/src/tests.rs:40-55 | Creating "bcd" succeeds and stores it; creating it again fails with `InvalidGeohash`. |
| Attendance.SubmitValidGeohashThenReplay | polkadot-sdk-solochain-template/pallets/attendance/src/tests.rs:57-84 | With the oracle key set by root, ALICE's submission for "bcd" from "bcdefg" is accepted. A replay fails with `AlreadySubmitted`, and exactly one mint results. |
| Attendance.SubmitProofForChallengeAsWritten | polkadot-sdk-solochain-template/pallets/attendance/src/tests.rs:86-109 | The test's signature submission on a chain with no oracle key reaches the `expect("oracle key")` with nothing stored. |
| Attendance.RepeatedProofSubmissions | polkadot-sdk-solochain-template/pallets/attendance/src/lib.rs:226-234 | The same accepted proof submitted twice by the same account is accepted twice and mints twice, with no events. |
| GeohashProver.PrimeString | geohash-prover/src/lib.rs:94-110 | Encoding keeps length and order, and maps each byte to the field element of the same value. |
| GeohashProver.PrimeStringInjective | geohash-prover/src/lib.rs:94-104 | Distinct byte strings have distinct encodings. |
| GeohashProver.PrimeStringPreservesPrefix | geohash-prover/src/lib.rs:94-104 | Prefix over the encodings holds iff prefix over the byte strings holds. |
| GeohashProver.NewCircuit | geohash-prover/src/lib.rs:18-23 | `new` stores both assignments as present. |
| GeohashProver.NewFromStr | geohash-prover/src/lib.rs:25-30 | `new_from_str` stores both strings' encodings, position by position. |
| GeohashProver.PositionalEqualities | geohash-prover/src/lib.rs:84-86 | The k-th emitted constraint equates witness k with public input k. |
| GeohashProver.PositionalEqualitiesHoldIffPrefix | geohash-prover/src/lib.rs:84-86 | The positional equalities over `shorter` and the first `len(shorter)` elements of `larger` hold iff `larger` starts with `shorter`. |
| GeohashProver.ConstraintSystem.constructor | geohash-prover/src/lib.rs:62-63 | A fresh system holds only the constant-one instance slot. |
| GeohashProver.ConstraintSystem.NewInput | geohash-prover/src/lib.rs:72-75 | Allocating a public input appends its value to the instance and nothing else. |
| GeohashProver.ConstraintSystem.NewWitness | geohash-prover/src/lib.rs:78-82 | Allocating a witness appends its value to the witnesses and nothing else. |
| GeohashProver.ConstraintSystem.EnforceEqual | geohash-prover/src/lib.rs:84-86 | `enforce_equal` appends one equality constraint and nothing else. |
| GeohashProver.GenerateConstraints | geohash-prover/src/lib.rs:62-89 | A missing side gives `AssignmentMissing`. An empty side, or `shorter` longer than `larger`, gives `Unsatisfiable`. On error nothing changes. Otherwise it allocates exactly `shorter` as inputs and `larger[..len(shorter)]` as witnesses, with one equality per position, and the system is satisfied iff it was before and `larger` starts with `shorter`. |
| GeohashProver.CircuitStatementOnBytes | geohash-prover/src/lib.rs:62-89 | A circuit built from strings is well shaped and satisfied iff the challenge is non-empty, no longer than the location, and a prefix of it. |
| GeohashProver.VerifyProof | geohash-prover/src/lib.rs:53-60 | Whatever the private location, `verify_proof` gives Groth16 exactly the public inputs that `new_from_str` stores as `shorter`. |
| GeohashProver.NewFromStrExample | geohash-prover/src/lib.rs:129-140 | "abc" and "def" encode to [97, 98, 99] and [100, 101, 102]. |
| GeohashProver.SynthesisScenarios | geohash-prover/src/lib.rs:142-178 | "" / "bcdef", "bcd" / "" and "abcdef" / "abc" are refused with `Unsatisfiable`; "abc" / "abcdef" is synthesised and satisfied. |
| ArkFields.GenerateKeyPair | ark-fields/src/lib.rs:21-30 | The public key is the generator times the private key. |
| ArkFields.Hash | ark-fields/src/lib.rs:32-44 | The challenge digest is SHA-256 of serialised public key ‖ message ‖ serialised R, in that order. |
| ArkFields.Sign | ark-fields/src/lib.rs:46-59 | The commitment is the generator times the nonce. |
| ArkFields.Verify | ark-fields/src/lib.rs:61-66 | `verify` holds iff z = log R + c·log pk in the scalar field, with c recomputed from (public key, R, message); no private key is involved. |
| ArkFields.Completeness | ark-fields/src/lib.rs:46-66 | An honest signature verifies under its keypair's public key, for every message and nonce. |
| ArkFields.ResponseUnique | ark-fields/src/lib.rs:61-66 | For a given key, message and commitment, at most one response verifies. |
| ArkFields.NonceReuseRelation | ark-fields/src/lib.rs:46-59 | Two signatures with the same nonce satisfy z1 − z2 = (c1 − c2)·x modulo r. |
| ArkFields.SignThenVerifyHello | ark-fields/src/lib.rs:72-79 | A fresh keypair's signature on "hello" verifies. |
| OracleEnv.StripHexPrefix | oracle/src/env.rs:6 | One leading "0x" is removed; any other string is kept as it is. |
| OracleEnv.LowerHexDigit | oracle/src/env.rs:13-15 | Each digit the encoder writes is a hex digit that decodes to its nibble, and is never 'x'. |
| OracleEnv.ArrayToHex | oracle/src/env.rs:13-15 | The output has two lower-case digits per byte, high nibble first, bytes in order. |
| OracleEnv.DecodeFrom | oracle/src/env.rs:9 | Decoding succeeds iff every character is a hex digit, and yields byte j from characters 2j and 2j+1. On failure it reports the first non-digit and its index. |
| OracleEnv.TryHexToArray | oracle/src/env.rs:5-11 | Filling the N-byte array pair by pair gives the decoding of the stripped string, and exactly N bytes on success. |
| OracleEnv.DecodeArrayToHex | oracle/src/env.rs:9-14 | Decoding `array_to_hex(a)` gives back `a`. |
| OracleEnv.TryHexToArrayRoundTrip | oracle/src/env.rs:5-15 | `try_hex_to_array(array_to_hex(a))` and `try_hex_to_array("0x" + array_to_hex(a))` both pass the length check and give `a`. |
| OracleEnv.UpperCasePrefixKept | oracle/src/env.rs:6 | "0X" is not stripped; decoding then fails at index 1 on 'X'. |
| OracleEnv.EnvironmentKeyExample | oracle/src/env.rs:21-29 | 62 zeros followed by "2a" decode to 31 zero bytes followed by 0x2a. |
| Oracle.NewKey | oracle/src/lib.rs:9-17 | `Key::new(b).as_bytes() == b`. |
| Oracle.NewHash | oracle/src/lib.rs:19-27 | `Hash::new(b).as_bytes() == b`. |
| Oracle.GetLocation | oracle/src/lib.rs:47-52 | `location` returns exactly the location source's answer, error included. |
| Oracle.SignLocation | oracle/src/lib.rs:54-61 | A hasher error is returned unchanged. Otherwise the signer's answer on the digest and key is returned unchanged. |
| Oracle.SignLocationShortCircuits | oracle/src/lib.rs:60 | When hashing fails the result is an error and does not depend on the signer. |
| Oracle.SignLocationOkIsSignedDigest | oracle/src/lib.rs:60 | Every returned signature is the signer's answer on the hasher's digest of exactly this location. |

## Findings

| source | as written | input that shows it | evidently intended | confidence | as-written member | corrected member |
|---|---|---|---|---|---|---|
| polkadot-sdk-solochain-template/pallets/attendance/src/tests.rs:86-109 | The test `submit_proof_for_challenge` calls `submission_with_signature` without ever setting the oracle key. The call therefore reaches `Oracle::get().expect("oracle key")` (lib.rs:182) with nothing stored, and panics. | A fresh chain where ALICE creates "bcd", then submits "bcd" from "bcdefg". | Two readings, both unexecuted. (a) Going by its name, the test may have meant to call `submission_with_proof`; that call needs a stored verifying key, which no dispatchable can set. (b) It may have meant the signature submission to succeed with the oracle key set by root first, as `submit_valid_geohash_for_challenge` does. The corrected member models (b). | high that the test as written panics; low on which intent (not executed) | Attendance.SubmitProofForChallengeAsWritten | Attendance.SubmitValidGeohashThenReplay |

## Left out

- Asynchrony: `location` and `sign_location` are async. They are modelled as plain functions.
- I/O and the network: geohash.rs and main.rs are not part of this model.
  - geohash.rs makes an HTTP request to ipinfo.io and encodes floating-point coordinates.
  - main.rs is the command line.
- `try_key_from_environment` (env.rs:17-19) reads an environment variable. Only its hex decoding is modelled.
- ed25519.rs and blake2_256.rs are not part of this model. The oracle's `Signer`, `Hasher` and `Location` are parameters (records of functions).
- Randomness: `thread_rng` draws in `generate_key_pair` and `sign` are parameters.
- Cryptography is kept abstract in every module:
  - SHA-256 and `serialize_uncompressed` in the signature;
  - the pallet's hasher, key and signature parsers, and `Verify`;
  - Groth16 setup, proving and verification, and the arkworks deserialisers.
- Curve arithmetic: G1 is represented by discrete logarithms. Encodings of points are not modelled.
- The `hex` crate is not part of this model beyond the behaviour it documents:
  - both letter cases are accepted;
  - the first bad character and its index are reported;
  - the encoder writes lower case.
- `try_hex_to_array` turns its error into a `String` with `to_string`; the model keeps the structured error.
- Panics are preconditions:
  - the length assertion of `try_hex_to_array` (env.rs:7);
  - `expect("oracle key")` (lib.rs:182), required only on the path that reaches it;
  - the four `expect`s of `verify_zkp` (lib.rs:257-267).
- The pallet has no setter for `ProofVerifyingKey`. Its value is a constructor parameter standing for genesis storage.
- FRAME machinery is not modelled: macros, weights, storage hashers, transactional rollback and event deposit internals. An origin is `Root`, `Signed(who)` or `Unsigned`, and an event is an entry in a log.
- `BoundedVec` length bounds (`MaxGeohashLength`, 32 and 64 bytes) are not modelled on the pallet's arguments and storage. No check in the pallet's own code reads them.
- Attendance.Pallet.SubmissionWithProof: the model's proof and verifying-key deserialisers are unconstrained, so it describes an acceptance path that the source as written never reaches. `RawProof` and `RawVerifyingKey` are capped at 64 bytes (lib.rs:79-80). An uncompressed BN254 Groth16 proof takes 256 bytes, and a verifying key takes more. So the real `Proof::deserialize_uncompressed` always fails, and `expect("proof")` (lib.rs:257) fires on every signed call. `CappedProofNeverDeserialises` states this for the proof, taking arkworks' size as an assumption about the deserialiser. The same holds for `RepeatedProofSubmissions`.
- The mock's global `MINTS` map is replaced by the mint log, which also records the challenge and route of each mint.
- ArkFields.Sign: its contract states only the commitment. The response is characterised by Completeness, the contract of Verify, ResponseUnique and NonceReuseRelation.
- Oracle.SignLocation: "never calls `S::sign` after a hasher error" is about effects, which pure functions do not have. SignLocationShortCircuits states instead that the result is then independent of the signer.
