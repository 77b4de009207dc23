/**
 * The attestation library of oracle/src/lib.rs: the `Key` and `Hash`
 * newtypes, the `Location`, `Hasher` and `Signer` capabilities, and the two
 * generic compositions `location` and `sign_location`.
 *
 * Each capability trait becomes a record of the functions its implementor
 * supplies; a generic parameter `L`, `H` or `S` becomes a value of that
 * record. Errors are the source's `String`s.
 */
module Oracle {
  import opened Wrappers
  import opened Bytes

  type Bytes32 = s: seq<u8> | |s| == 32 witness seq(32, _ => 0 as u8)

  /** `Key([u8; 32])`. */
  datatype Key = Key(bytes: Bytes32)
  {
    /** `Key::as_bytes`. */
    function AsBytes(): Bytes32
    {
      bytes
    }
  }

  /** `Key::new`: the key holds exactly the given bytes. */
  function NewKey(bytes: Bytes32): (k: Key)
    ensures k.AsBytes() == bytes
  {
    Key(bytes)
  }

  /** `Hash([u8; 32])`. */
  datatype Hash = Hash(bytes: Bytes32)
  {
    /** `Hash::as_bytes`. */
    function AsBytes(): Bytes32
    {
      bytes
    }
  }

  /** `Hash::new`: the hash holds exactly the given bytes. */
  function NewHash(bytes: Bytes32): (h: Hash)
    ensures h.AsBytes() == bytes
  {
    Hash(bytes)
  }

  /**
   * A `Location` implementor: `current_location(accuracy)` and the
   * `AsRef<[u8]>` view of its `Output`.
   */
  datatype Location<!Output> = Location(currentLocation: u8 -> Result<Output, string>,
                                       asRef: Output -> seq<u8>)

  /** A `Hasher` implementor. */
  datatype Hasher = Hasher(hash: seq<u8> -> Result<Hash, string>)

  /** A `Signer` implementor: `sign` and `generate_key`. */
  datatype Signer<Signature> = Signer(sign: (Hash, Key) -> Result<Signature, string>,
                                      generateKey: () -> (Key, Key))

  /** `location::<L>(accuracy)`: whatever the location source answers, error included. */
  function GetLocation<Output>(l: Location<Output>, accuracy: u8): (r: Result<Output, string>)
    ensures r == l.currentLocation(accuracy)
  {
    l.currentLocation(accuracy)
  }

  /**
   * `sign_location::<L, S, H>(key, location)`: hash the location's bytes; a
   * hasher error is returned as it is and nothing is signed; otherwise the
   * signer's answer on that digest and key is returned as it is.
   */
  function SignLocation<Output, Signature>(l: Location<Output>, s: Signer<Signature>, h: Hasher,
                                           key: Key, location: Output): (r: Result<Signature, string>)
    ensures h.hash(l.asRef(location)).Err? ==> r == Err(h.hash(l.asRef(location)).error)
    ensures h.hash(l.asRef(location)).Ok? ==> r == s.sign(h.hash(l.asRef(location)).value, key)
  {
    match h.hash(l.asRef(location))
    case Err(e) => Err(e)
    case Ok(digest) => s.sign(digest, key)
  }

  /**
   * The result of `sign_location` does not depend on the signer when the
   * hasher fails: two signers give the same error.
   */
  lemma SignLocationShortCircuits<Output, Signature>(l: Location<Output>, s1: Signer<Signature>,
                                                    s2: Signer<Signature>, h: Hasher,
                                                    key: Key, location: Output)
    requires h.hash(l.asRef(location)).Err?
    ensures SignLocation(l, s1, h, key, location) == SignLocation(l, s2, h, key, location)
    ensures SignLocation(l, s1, h, key, location).Err?
  {
  }

  /**
   * A signature `sign_location` returns was made by the signer over the
   * hasher's digest of exactly this location's bytes, under the given key.
   */
  lemma SignLocationOkIsSignedDigest<Output, Signature>(l: Location<Output>, s: Signer<Signature>, h: Hasher,
                                                       key: Key, location: Output, sig: Signature)
    requires SignLocation(l, s, h, key, location) == Ok(sig)
    ensures exists digest :: h.hash(l.asRef(location)) == Ok(digest) && s.sign(digest, key) == Ok(sig)
  {
    var digest := h.hash(l.asRef(location)).value;
    assert h.hash(l.asRef(location)) == Ok(digest);
  }
}
