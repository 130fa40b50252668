/**
 * Types shared by every part of the model: optional values, results with
 * an error, bytes, and hex digests.
 *
 * SHA-256 itself (FIPS 180-4) is not modelled. Every operation that hashes
 * takes the hash function as a parameter of type `Hasher`, so every
 * property proved here holds for any function that returns 64 lower-case
 * hexadecimal characters, and in particular for SHA-256.
 */
module Common {

  datatype Option<T> = None | Some(value: T)

  datatype Result<T, E> = Ok(value: T) | Err(error: E)

  type Byte = b: int | 0 <= b < 256

  type Bytes = seq<Byte>

  predicate IsLowerHexChar(c: char) {
    '0' <= c <= '9' || 'a' <= c <= 'f'
  }

  /** What `hashlib.sha256(...).hexdigest()` returns: 64 lower-case hex characters. */
  predicate IsHexDigest(s: string) {
    |s| == 64 && forall i :: 0 <= i < |s| ==> IsLowerHexChar(s[i])
  }

  type HexDigest = s: string | IsHexDigest(s)
    witness seq(64, i => '0')

  /** The hex-digest function `sha256_hex`, left uninterpreted. */
  type Hasher = Bytes -> HexDigest

  /**
   * The collision-resistance assumption, stated for one pair of inputs only:
   * equal digests of `a` and `b` imply equal inputs. It is never assumed
   * globally; lemmas that need it list the pairs in their requires clause.
   */
  predicate NoCollision(sha: Hasher, a: Bytes, b: Bytes) {
    sha(a) == sha(b) ==> a == b
  }

  /** Python's `x or ""` for an optional string. */
  function OrEmpty(o: Option<string>): string {
    match o
    case None => ""
    case Some(s) => s
  }

  /** `s[..n]` clamped the way a Python slice or an SQL LIMIT clamps it. */
  function Take<T>(s: seq<T>, n: nat): (r: seq<T>)
    ensures |r| <= n && |r| <= |s|
    ensures r == s[..|r|]
    ensures n >= |s| ==> r == s
  {
    if n < |s| then s[..n] else s
  }

  function Reverse<T>(s: seq<T>): (r: seq<T>)
    ensures |r| == |s|
    ensures forall i :: 0 <= i < |s| ==> r[i] == s[|s| - 1 - i]
  {
    if s == [] then [] else Reverse(s[1..]) + [s[0]]
  }
}
