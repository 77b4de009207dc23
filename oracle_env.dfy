/**
 * The hex helpers of oracle/src/env.rs: `try_hex_to_array` and
 * `array_to_hex`, base16 as in section 8 of RFC 4648.
 *
 * Rust `String`s are modelled by their UTF-8 bytes, since both helpers work
 * on bytes (`len()` counts bytes). The decoder is the `hex` crate's
 * `decode_to_slice` (both letter cases accepted, the first offending byte
 * and its index reported); the encoder is `hex::encode` (lower case). The
 * `hex` crate is not part of this model beyond that behaviour.
 */
module OracleEnv {
  import opened Wrappers
  import opened Bytes

  /** `hex::FromHexError::InvalidHexCharacter { c, index }`, the only error reachable once the length is checked. */
  datatype FromHexError = InvalidHexCharacter(c: u8, index: nat)

  /** The bytes of "0x". */
  const HEX_PREFIX: seq<u8> := [0x30, 0x78]

  /** `strip_prefix("0x").unwrap_or(..)`: one leading "0x" is removed, nothing else. */
  function StripHexPrefix(s: seq<u8>): (r: seq<u8>)
    ensures StartsWith(s, HEX_PREFIX) ==> s == HEX_PREFIX + r
    ensures !StartsWith(s, HEX_PREFIX) ==> r == s
  {
    if StartsWith(s, HEX_PREFIX) then s[2..] else s
  }

  /** '0'..'9', 'a'..'f' or 'A'..'F'. */
  predicate IsHexDigit(c: u8)
  {
    (0x30 <= c <= 0x39) || (0x61 <= c <= 0x66) || (0x41 <= c <= 0x46)
  }

  /** The nibble a hex digit stands for. */
  function HexValue(c: u8): (v: nat)
    requires IsHexDigit(c)
    ensures v < 16
  {
    if c <= 0x39 then (c - 0x30) as nat
    else if c >= 0x61 then (c - 0x61) as nat + 10
    else (c - 0x41) as nat + 10
  }

  /** `val(hi) << 4 | val(lo)`: the low nibble fits below the shifted high one, so this is `16·hi + lo`. */
  function HexPair(hi: u8, lo: u8): u8
    requires IsHexDigit(hi) && IsHexDigit(lo)
  {
    (HexValue(hi) * 16 + HexValue(lo)) as u8
  }

  /** The lower-case digit `hex::encode` writes for a nibble. */
  function LowerHexDigit(n: nat): (c: u8)
    requires n < 16
    ensures IsHexDigit(c) && HexValue(c) == n
    ensures c != 0x78
  {
    if n < 10 then (0x30 + n) as u8 else (0x61 + n - 10) as u8
  }

  /**
   * `array_to_hex` (`hex::encode`): two lower-case digits per byte, high
   * nibble first, bytes in order.
   */
  function ArrayToHex(bytes: seq<u8>): (s: seq<u8>)
    ensures |s| == 2 * |bytes|
    ensures forall i | 0 <= i < |bytes| ::
              s[2 * i] == LowerHexDigit(bytes[i] as nat / 16) && s[2 * i + 1] == LowerHexDigit(bytes[i] as nat % 16)
  {
    if bytes == [] then []
    else
      var rest := ArrayToHex(bytes[1..]);
      var s := [LowerHexDigit(bytes[0] as nat / 16), LowerHexDigit(bytes[0] as nat % 16)] + rest;
      assert forall i | 1 <= i < |bytes| :: s[2 * i] == rest[2 * (i - 1)] && s[2 * i + 1] == rest[2 * (i - 1) + 1];
      s
  }

  /**
   * `hex::decode_to_slice` from the pair at position `i` on: pairs are read
   * in order, high digit before low digit, and the first byte that is not a
   * hex digit ends decoding with its index.
   */
  function DecodeFrom(s: seq<u8>, i: nat): (r: Result<seq<u8>, FromHexError>)
    requires |s| % 2 == 0 && 2 * i <= |s|
    decreases |s| - 2 * i
    ensures r.Ok? <==> forall k | 2 * i <= k < |s| :: IsHexDigit(s[k])
    ensures r.Ok? ==> |r.value| == |s| / 2 - i &&
                      forall j | 0 <= j < |r.value| :: r.value[j] == HexPair(s[2 * (i + j)], s[2 * (i + j) + 1])
    ensures r.Err? ==> var e := r.error;
                       && 2 * i <= e.index < |s| && s[e.index] == e.c && !IsHexDigit(e.c)
                       && forall k | 2 * i <= k < e.index :: IsHexDigit(s[k])
  {
    if 2 * i == |s| then Ok([])
    else if !IsHexDigit(s[2 * i]) then Err(InvalidHexCharacter(s[2 * i], 2 * i))
    else if !IsHexDigit(s[2 * i + 1]) then Err(InvalidHexCharacter(s[2 * i + 1], 2 * i + 1))
    else
      match DecodeFrom(s, i + 1)
      case Ok(rest) =>
        var out := [HexPair(s[2 * i], s[2 * i + 1])] + rest;
        assert forall j | 1 <= j < |out| :: out[j] == rest[j - 1];
        Ok(out)
      case Err(e) => Err(e)
  }

  /** Decoding a whole even-length hex string. */
  function DecodeHex(s: seq<u8>): Result<seq<u8>, FromHexError>
    requires |s| % 2 == 0
  {
    DecodeFrom(s, 0)
  }

  /** Bytes already produced, in front of whatever the rest decodes to. */
  function Prepend(done: seq<u8>, rest: Result<seq<u8>, FromHexError>): Result<seq<u8>, FromHexError>
  {
    match rest
    case Ok(v) => Ok(done + v)
    case Err(e) => Err(e)
  }

  /** Decoding one more valid pair moves its byte from the rest to the bytes already produced. */
  lemma DecodeStep(s: seq<u8>, done: seq<u8>, i: nat)
    requires |s| % 2 == 0 && 2 * i < |s|
    requires IsHexDigit(s[2 * i]) && IsHexDigit(s[2 * i + 1])
    ensures Prepend(done, DecodeFrom(s, i)) == Prepend(done + [HexPair(s[2 * i], s[2 * i + 1])], DecodeFrom(s, i + 1))
  {
    if DecodeFrom(s, i + 1).Ok? {
      var rest := DecodeFrom(s, i + 1).value;
      assert done + [HexPair(s[2 * i], s[2 * i + 1])] + rest == done + ([HexPair(s[2 * i], s[2 * i + 1])] + rest);
    }
  }

  /**
   * `try_hex_to_array::<N>`: strip one "0x", require exactly `2·N` bytes
   * (the source panics otherwise), then fill a zeroed `[u8; N]` pair by pair.
   */
  method TryHexToArray(n: nat, hexString: seq<u8>) returns (r: Result<seq<u8>, FromHexError>)
    requires |StripHexPrefix(hexString)| == 2 * n
    ensures r == DecodeHex(StripHexPrefix(hexString))
    ensures r.Ok? ==> |r.value| == n
  {
    var hex := StripHexPrefix(hexString);
    var out := new u8[n];
    var i := 0;
    assert Prepend(out[..0], DecodeFrom(hex, 0)) == DecodeFrom(hex, 0) by {
      if DecodeFrom(hex, 0).Ok? {
        assert out[..0] + DecodeFrom(hex, 0).value == DecodeFrom(hex, 0).value;
      }
    }
    while i < n
      invariant 0 <= i <= n
      invariant DecodeHex(hex) == Prepend(out[..i], DecodeFrom(hex, i))
    {
      if !IsHexDigit(hex[2 * i]) {
        return Err(InvalidHexCharacter(hex[2 * i], 2 * i));
      }
      if !IsHexDigit(hex[2 * i + 1]) {
        return Err(InvalidHexCharacter(hex[2 * i + 1], 2 * i + 1));
      }
      DecodeStep(hex, out[..i], i);
      out[i] := HexPair(hex[2 * i], hex[2 * i + 1]);
      assert out[..i + 1] == out[..i] + [out[i]];
      i := i + 1;
    }
    assert DecodeFrom(hex, n) == Ok([]);
    assert out[..n] + [] == out[..];
    r := Ok(out[..]);
  }

  /** A decoded pair of `hex::encode` digits is the byte they came from. */
  lemma HexPairOfEncoded(b: u8)
    ensures HexPair(LowerHexDigit(b as nat / 16), LowerHexDigit(b as nat % 16)) == b
  {
  }

  /** Every byte `array_to_hex` writes is a hex digit. */
  lemma ArrayToHexDigits(bytes: seq<u8>)
    ensures forall k | 0 <= k < |ArrayToHex(bytes)| :: IsHexDigit(ArrayToHex(bytes)[k])
  {
    var s := ArrayToHex(bytes);
    forall k | 0 <= k < |s| ensures IsHexDigit(s[k]) {
      var i := k / 2;
      if k % 2 == 0 {
        assert k == 2 * i;
        assert s[2 * i] == LowerHexDigit(bytes[i] as nat / 16);
      } else {
        assert k == 2 * i + 1;
        assert s[2 * i + 1] == LowerHexDigit(bytes[i] as nat % 16);
      }
    }
  }

  /** Round trip: decoding what `array_to_hex` wrote gives back the bytes. */
  lemma DecodeArrayToHex(bytes: seq<u8>)
    ensures DecodeHex(ArrayToHex(bytes)) == Ok(bytes)
  {
    var s := ArrayToHex(bytes);
    ArrayToHexDigits(bytes);
    var r := DecodeFrom(s, 0);
    assert r.Ok?;
    forall j | 0 <= j < |bytes| ensures r.value[j] == bytes[j] {
      DecodedPair(s, r.value, j);
      PairOfArrayToHex(bytes, j);
    }
    assert r.value == bytes;
  }

  lemma PairOfArrayToHex(bytes: seq<u8>, j: nat)
    requires j < |bytes|
    ensures 2 * j + 1 < |ArrayToHex(bytes)|
    ensures IsHexDigit(ArrayToHex(bytes)[2 * j]) && IsHexDigit(ArrayToHex(bytes)[2 * j + 1])
    ensures HexPair(ArrayToHex(bytes)[2 * j], ArrayToHex(bytes)[2 * j + 1]) == bytes[j]
  {
    HexPairOfEncoded(bytes[j]);
  }

  lemma DecodedPair(s: seq<u8>, decoded: seq<u8>, j: nat)
    requires |s| % 2 == 0 && 2 * j + 1 < |s|
    requires DecodeFrom(s, 0) == Ok(decoded)
    ensures j < |decoded| && IsHexDigit(s[2 * j]) && IsHexDigit(s[2 * j + 1])
    ensures decoded[j] == HexPair(s[2 * j], s[2 * j + 1])
  {
    assert decoded[j] == HexPair(s[2 * (0 + j)], s[2 * (0 + j) + 1]);
  }

  /** `array_to_hex` never starts with "0x", so stripping leaves it alone. */
  lemma ArrayToHexHasNoPrefix(bytes: seq<u8>)
    ensures StripHexPrefix(ArrayToHex(bytes)) == ArrayToHex(bytes)
  {
    if |bytes| > 0 {
      assert ArrayToHex(bytes)[1] != 0x78;
    }
  }

  /**
   * Round trip through `try_hex_to_array`: the hex of any `N` bytes, with or
   * without a leading "0x", passes the length check and decodes to those bytes.
   */
  lemma TryHexToArrayRoundTrip(bytes: seq<u8>)
    ensures |StripHexPrefix(ArrayToHex(bytes))| == 2 * |bytes|
    ensures DecodeHex(StripHexPrefix(ArrayToHex(bytes))) == Ok(bytes)
    ensures |StripHexPrefix(HEX_PREFIX + ArrayToHex(bytes))| == 2 * |bytes|
    ensures DecodeHex(StripHexPrefix(HEX_PREFIX + ArrayToHex(bytes))) == Ok(bytes)
  {
    ArrayToHexHasNoPrefix(bytes);
    DecodeArrayToHex(bytes);
    var prefixed := HEX_PREFIX + ArrayToHex(bytes);
    assert prefixed[..2] == HEX_PREFIX;
    assert prefixed[2..] == ArrayToHex(bytes);
  }

  /** Only a lower-case "0x" is stripped: "0X" stays and then fails as a hex digit. */
  lemma UpperCasePrefixKept(rest: seq<u8>)
    requires |rest| % 2 == 0
    ensures StripHexPrefix([0x30, 0x58] + rest) == [0x30, 0x58] + rest
    ensures DecodeHex([0x30, 0x58] + rest) == Err(InvalidHexCharacter(0x58, 1))
  {
    var s := [0x30, 0x58] + rest;
    assert s[0] == 0x30 && s[1] == 0x58;
    assert !IsHexDigit(s[1]);
  }

  /** The key of the source's unit test: 62 zeros then "2a" is 31 zero bytes then 0x2a. */
  lemma EnvironmentKeyExample()
    ensures var s := seq(62, _ => 0x30 as u8) + [0x32, 0x61];
            |StripHexPrefix(s)| == 64 &&
            DecodeHex(StripHexPrefix(s)) == Ok(seq(31, _ => 0 as u8) + [0x2a])
  {
    var s := seq(62, _ => 0x30 as u8) + [0x32, 0x61];
    assert s[1] == 0x30;
    assert StripHexPrefix(s) == s;
    var expected := seq(31, _ => 0 as u8) + [0x2a];
    assert forall k | 0 <= k < 64 :: IsHexDigit(s[k]);
    var r := DecodeHex(s);
    forall j | 0 <= j < 32 ensures r.value[j] == expected[j] {
      if j < 31 {
        assert s[2 * j] == 0x30 && s[2 * j + 1] == 0x30;
      } else {
        assert s[62] == 0x32 && s[63] == 0x61;
      }
    }
    assert r.value == expected;
  }
}
