/** Bytes, byte strings and the prefix relation shared by the pallet, the prover and the oracle. */
module Bytes {

  /** Rust's `u8`. */
  newtype u8 = x: int | 0 <= x < 0x100

  /**
   * `s.starts_with(prefix)` on slices (of bytes, or of field elements): `s`
   * is at least as long as `prefix` and agrees with it position by position.
   */
  predicate StartsWith<T(==)>(s: seq<T>, prefix: seq<T>)
  {
    |prefix| <= |s| && s[..|prefix|] == prefix
  }

  lemma StartsWithAt<T>(s: seq<T>, prefix: seq<T>)
    ensures StartsWith(s, prefix) <==>
            |prefix| <= |s| && forall i | 0 <= i < |prefix| :: s[i] == prefix[i]
  {
    if |prefix| <= |s| && forall i | 0 <= i < |prefix| :: s[i] == prefix[i] {
      assert s[..|prefix|] == prefix;
    }
  }

  predicate IsAscii(s: string)
  {
    forall i | 0 <= i < |s| :: s[i] as int < 0x80
  }

  /** `str::as_bytes` for a string made of ASCII characters (UTF-8 encodes each of them as one byte). */
  function AsciiBytes(s: string): (b: seq<u8>)
    requires IsAscii(s)
    ensures |b| == |s| && forall i | 0 <= i < |s| :: b[i] as int == s[i] as int
  {
    seq(|s|, i requires 0 <= i < |s| => s[i] as int as u8)
  }
}
