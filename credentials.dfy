/**
 * The credential hasher of auth.py: `hash_password` is the hex spelling of
 * SHA-256 over the password's UTF-8 bytes, and `verify_password` compares a
 * stored digest against it. SHA-256 itself is a parameter `sha`, so every
 * lemma holds of any deterministic 32-byte hash; none assumes it injective.
 */
module Credentials {
  import opened Wrappers
  import opened Bytes
  import Utf8

  type Digest = s: seq<byte> | |s| == 32 witness seq(32, _ => 0)

  /** SHA-256 as FIPS 180-4 defines it; its internals are not part of this model. */
  type Sha256 = seq<byte> -> Digest

  /** `hash_password`: a 64-character lowercase hex string that reads back as the SHA-256 of the password's bytes. */
  function HashPassword(sha: Sha256, password: string): (h: string)
    ensures |h| == 64 && IsHexString(h)
    ensures HexDecode(h) == Some(sha(Utf8.Encode(password)))
  {
    HexDecodeEncode(sha(Utf8.Encode(password)));
    HexEncode(sha(Utf8.Encode(password)))
  }

  /** `verify_password`: the stored text is exactly the hex digest of this password's bytes. */
  function VerifyPassword(sha: Sha256, password: string, hashed: string): (ok: bool)
    ensures ok <==> HexDecode(hashed) == Some(sha(Utf8.Encode(password)))
    ensures ok ==> |hashed| == 64 && IsHexString(hashed)
  {
    HexEncodeDecode(hashed);
    HashPassword(sha, password) == hashed
  }

  /** A password always verifies against its own hash. */
  lemma VerifyOwnHash(sha: Sha256, password: string)
    ensures VerifyPassword(sha, password, HashPassword(sha, password))
  {
  }

  /**
   * A password verifies against another password's hash exactly when the two
   * byte strings collide under SHA-256; distinct passwords are told apart
   * iff the hash tells their encodings apart.
   */
  lemma VerifyOtherHash(sha: Sha256, password: string, other: string)
    ensures VerifyPassword(sha, password, HashPassword(sha, other))
            <==> sha(Utf8.Encode(password)) == sha(Utf8.Encode(other))
  {
  }

  /** Nothing but a 64-digit lowercase hex string can verify, e.g. never an upper-case digest or a plaintext password of another length. */
  lemma OnlyDigestsVerify(sha: Sha256, password: string, hashed: string)
    requires |hashed| != 64 || !IsHexString(hashed)
    ensures !VerifyPassword(sha, password, hashed)
  {
  }
}
