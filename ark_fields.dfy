/**
 * The Schnorr-style signature of ark-fields/src/lib.rs over the prime-order
 * subgroup G1 of BLS12-381.
 *
 * That subgroup is cyclic of prime order r and generated by the standard
 * generator, so it is modelled through its isomorphism with the integers
 * modulo r: a point is represented by its discrete logarithm to the
 * generator. SHA-256 and the uncompressed point serialisation stay abstract
 * (`Primitives`), and the random scalars the source draws from `thread_rng`
 * are parameters.
 */
module ArkFields {
  import opened Bytes

  /** The order r of BLS12-381's scalar field `Fr` (and of the group G1). */
  const R: nat := 0x73eda753299d7d483339d80809a1d80553bda402fffe5bfeffffffff00000001

  /** An element of `Fr`, by its canonical representative. */
  type Scalar = x: nat | x < R

  function Add(a: Scalar, b: Scalar): Scalar
  {
    (a + b) % R
  }

  function Mul(a: Scalar, b: Scalar): Scalar
  {
    (a * b) % R
  }

  lemma MulOne(x: Scalar)
    ensures Mul(1, x) == x && Mul(x, 1) == x
  {
  }

  lemma MulCommutes(a: Scalar, b: Scalar)
    ensures Mul(a, b) == Mul(b, a)
  {
    assert a * b == b * a;
  }

  /** A point of G1, written as the multiple `dlog` of the generator. */
  datatype G1 = G1(dlog: Scalar)

  /** `G1Projective::generator()`. */
  function Generator(): G1
  {
    G1(1)
  }

  /** Point addition. */
  function PointAdd(p: G1, q: G1): G1
  {
    G1(Add(p.dlog, q.dlog))
  }

  /** Scalar multiplication `p * k`. */
  function ScalarMul(p: G1, k: Scalar): G1
  {
    G1(Mul(p.dlog, k))
  }

  /** `Keypair`; its fields are private, so only `GenerateKeyPair` builds one. */
  datatype Keypair = Keypair(privateKey: Scalar, publicKey: G1)

  /** `Signature { R, z }`: the commitment point and the response scalar. */
  datatype Signature = Signature(commitment: G1, z: Scalar)

  /** What the signature is built on and is not modelled: SHA-256 and `serialize_uncompressed` of a point. */
  datatype Primitives = Primitives(sha256: seq<u8> -> seq<u8>, serializeUncompressed: G1 -> seq<u8>)

  /** The state of a `Sha256` hasher: the bytes it has absorbed so far. */
  datatype Sha256 = Sha256(absorbed: seq<u8>)

  function Sha256New(): Sha256
  {
    Sha256([])
  }

  function Update(h: Sha256, data: seq<u8>): Sha256
  {
    Sha256(h.absorbed + data)
  }

  function Finalize(prims: Primitives, h: Sha256): seq<u8>
  {
    prims.sha256(h.absorbed)
  }

  /**
   * `hash(message, public_key, R)`: three `update` calls on one hasher, in
   * the order public key, message, commitment (not the parameter order), so
   * the digest is SHA-256 of their concatenation in that order.
   */
  function Hash(prims: Primitives, message: seq<u8>, publicKey: G1, commitment: G1): (digest: seq<u8>)
    ensures digest == prims.sha256(prims.serializeUncompressed(publicKey) + message +
                                   prims.serializeUncompressed(commitment))
  {
    var hasher := Sha256New();
    var hasher := Update(hasher, prims.serializeUncompressed(publicKey));
    var hasher := Update(hasher, message);
    var hasher := Update(hasher, prims.serializeUncompressed(commitment));
    assert hasher.absorbed == prims.serializeUncompressed(publicKey) + message +
                              prims.serializeUncompressed(commitment);
    Finalize(prims, hasher)
  }

  /** The unsigned integer a byte string spells in big-endian order. */
  function BigEndian(bytes: seq<u8>): nat
  {
    if bytes == [] then 0 else BigEndian(bytes[..|bytes| - 1]) * 0x100 + bytes[|bytes| - 1] as nat
  }

  /** `Fr::from_be_bytes_mod_order`. */
  function FromBeBytesModOrder(bytes: seq<u8>): Scalar
  {
    BigEndian(bytes) % R
  }

  /** The challenge scalar `c` both `sign` and `verify` compute. */
  function ChallengeScalar(prims: Primitives, message: seq<u8>, publicKey: G1, commitment: G1): Scalar
  {
    FromBeBytesModOrder(Hash(prims, message, publicKey, commitment))
  }

  /** A keypair whose public key is the generator times its private key. */
  predicate IsKeypair(kp: Keypair)
  {
    kp.publicKey == ScalarMul(Generator(), kp.privateKey)
  }

  /** `generate_key_pair`, with the random private key passed in. */
  function GenerateKeyPair(privateKey: Scalar): (kp: Keypair)
    ensures IsKeypair(kp) && kp.privateKey == privateKey
  {
    Keypair(privateKey, ScalarMul(Generator(), privateKey))
  }

  /** `sign`, with the random nonce `r` passed in: `R = G·r`, `z = r + c·x`. */
  function Sign(prims: Primitives, kp: Keypair, message: seq<u8>, nonce: Scalar): (sig: Signature)
    ensures sig.commitment.dlog == nonce
  {
    var commitment := ScalarMul(Generator(), nonce);
    var c := ChallengeScalar(prims, message, kp.publicKey, commitment);
    Signature(commitment, Add(nonce, Mul(c, kp.privateKey)))
  }

  /**
   * `verify`: accepts exactly when `R + public_key·c == G·z`; it never fails.
   * In the exponent: the response is the commitment's logarithm plus `c`
   * times the public key's, with `c` recomputed from the public key, the
   * commitment and the message; no private key is involved.
   */
  function Verify(prims: Primitives, publicKey: G1, sig: Signature, message: seq<u8>): (ok: bool)
    ensures ok <==> sig.z == Add(sig.commitment.dlog,
                                 Mul(ChallengeScalar(prims, message, publicKey, sig.commitment), publicKey.dlog))
  {
    var c := ChallengeScalar(prims, message, publicKey, sig.commitment);
    MulCommutes(publicKey.dlog, c);
    MulOne(sig.z);
    PointAdd(sig.commitment, ScalarMul(publicKey, c)) == ScalarMul(Generator(), sig.z)
  }

  /** Completeness: an honestly made signature verifies under the keypair's public key. */
  lemma Completeness(prims: Primitives, kp: Keypair, message: seq<u8>, nonce: Scalar)
    requires IsKeypair(kp)
    ensures Verify(prims, kp.publicKey, Sign(prims, kp, message, nonce), message)
  {
    var sig := Sign(prims, kp, message, nonce);
    var c := ChallengeScalar(prims, message, kp.publicKey, sig.commitment);
    MulOne(kp.privateKey);
    MulOne(sig.z);
    MulCommutes(kp.privateKey, c);
    assert ScalarMul(Generator(), sig.z) == G1(sig.z);
  }

  /** For a given public key, message and commitment, at most one response verifies. */
  lemma ResponseUnique(prims: Primitives, publicKey: G1, commitment: G1, z1: Scalar, z2: Scalar, message: seq<u8>)
    requires Verify(prims, publicKey, Signature(commitment, z1), message)
    requires Verify(prims, publicKey, Signature(commitment, z2), message)
    ensures z1 == z2
  {
  }

  lemma ModShift(y: int, k: int)
    ensures (y + R * k) % R == y % R
  {
    var q := y / R;
    assert y == R * q + y % R;
    assert y + R * k == R * (q + k) + y % R;
  }

  lemma Distributes(a: int, b: int, x: int)
    ensures a * x - b * x == (a - b) * x
  {
  }

  /** Reducing inside a sum does not change the difference of two residues. */
  lemma DifferenceOfResidues(n: int, p1: int, p2: int)
    ensures ((n + p1 % R) % R - (n + p2 % R) % R) % R == (p1 - p2) % R
  {
    var a, b := n + p1 % R, n + p2 % R;
    assert a % R == a - R * (a / R);
    assert b % R == b - R * (b / R);
    assert p1 % R == p1 - R * (p1 / R);
    assert p2 % R == p2 - R * (p2 / R);
    var k := p2 / R - p1 / R + b / R - a / R;
    assert a % R - b % R == (p1 - p2) + R * k;
    ModShift(p1 - p2, k);
  }

  /**
   * Why the nonce must be fresh: two signatures made with the same nonce
   * under challenges `c1` and `c2` satisfy `z1 - z2 = (c1 - c2)·x` modulo r,
   * which gives the private key `x` away whenever `c1 != c2`.
   */
  lemma NonceReuseRelation(prims: Primitives, kp: Keypair, m1: seq<u8>, m2: seq<u8>, nonce: Scalar)
    ensures var s1, s2 := Sign(prims, kp, m1, nonce), Sign(prims, kp, m2, nonce);
            var c1 := ChallengeScalar(prims, m1, kp.publicKey, s1.commitment);
            var c2 := ChallengeScalar(prims, m2, kp.publicKey, s2.commitment);
            (s1.z - s2.z) % R == ((c1 - c2) * kp.privateKey) % R
  {
    var s1, s2 := Sign(prims, kp, m1, nonce), Sign(prims, kp, m2, nonce);
    var c1 := ChallengeScalar(prims, m1, kp.publicKey, s1.commitment);
    var c2 := ChallengeScalar(prims, m2, kp.publicKey, s2.commitment);
    var x := kp.privateKey;
    assert s1.z == (nonce + (c1 * x) % R) % R;
    assert s2.z == (nonce + (c2 * x) % R) % R;
    DifferenceOfResidues(nonce, c1 * x, c2 * x);
    Distributes(c1, c2, x);
  }

  /** The unit test `g1_works`: a fresh keypair's signature on "hello" verifies. */
  lemma SignThenVerifyHello(prims: Primitives, privateKey: Scalar, nonce: Scalar)
    ensures var kp := GenerateKeyPair(privateKey);
            Verify(prims, kp.publicKey, Sign(prims, kp, AsciiBytes("hello"), nonce), AsciiBytes("hello"))
  {
    Completeness(prims, GenerateKeyPair(privateKey), AsciiBytes("hello"), nonce);
  }
}
