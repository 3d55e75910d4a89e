/**
  Salted password hashing: the stored value is base64 of a 48-byte buffer, the
  16-byte salt followed by the 32-byte PBKDF2 key derived from password and salt.
 */
module PasswordHelper {
  import opened Wrappers

  newtype byte = x: int | 0 <= x < 256

  const SaltSize: nat := 16
  const HashSize: nat := 32
  const Iterations: nat := 10000

  /**
    The library calls the helper depends on, as deterministic functions:
    PBKDF2 with HMAC-SHA256 (password, salt, iteration count, bytes requested),
    base64 encoding, and base64 decoding (None where Convert.FromBase64String
    throws a FormatException).
   */
  datatype CryptoLibrary = CryptoLibrary(
    pbkdf2: (string, seq<byte>, nat, nat) -> seq<byte>,
    toBase64: seq<byte> -> string,
    fromBase64: string -> Option<seq<byte>>)

  /** KeyDerivation.Pbkdf2 returns exactly the number of bytes requested. */
  ghost predicate DerivesRequestedLength(lib: CryptoLibrary)
  {
    forall password, salt, iterations, n :: |lib.pbkdf2(password, salt, iterations, n)| == n
  }

  /** Base64 decoding inverts base64 encoding. */
  ghost predicate Base64RoundTrips(lib: CryptoLibrary)
  {
    forall bytes :: lib.fromBase64(lib.toBase64(bytes)) == Some(bytes)
  }

  /** Both library guarantees. */
  ghost predicate Lawful(lib: CryptoLibrary)
  {
    DerivesRequestedLength(lib) && Base64RoundTrips(lib)
  }

  /** The exceptions VerifyPassword can throw. */
  datatype HashError =
    | InvalidBase64        // FormatException from Convert.FromBase64String
    | BlockCopyOutOfRange  // ArgumentException from Buffer.BlockCopy

  /** The key both operations derive: PBKDF2 at the fixed iteration count and length. */
  function DerivedKey(lib: CryptoLibrary, password: string, salt: seq<byte>): seq<byte>
  {
    lib.pbkdf2(password, salt, Iterations, HashSize)
  }

  /** What HashPassword returns for a given salt: base64 of salt followed by key. */
  function StoredHash(lib: CryptoLibrary, password: string, salt: seq<byte>): (stored: string)
    ensures Base64RoundTrips(lib) ==> lib.fromBase64(stored) == Some(salt + DerivedKey(lib, password, salt))
  {
    lib.toBase64(salt + DerivedKey(lib, password, salt))
  }

  /** What VerifyPassword returns, or the exception it throws. */
  function PasswordCheck(lib: CryptoLibrary, password: string, storedHash: string): (r: Result<bool, HashError>)
    ensures r == Failure(InvalidBase64) <==> lib.fromBase64(storedHash).None?
    ensures r == Failure(BlockCopyOutOfRange) <==>
      lib.fromBase64(storedHash).Some? && |lib.fromBase64(storedHash).value| < SaltSize + HashSize
  {
    match lib.fromBase64(storedHash)
    case None => Failure(InvalidBase64)
    case Some(buffer) =>
      if |buffer| < SaltSize + HashSize then Failure(BlockCopyOutOfRange)
      else Success(DerivedKey(lib, password, buffer[..SaltSize]) == buffer[SaltSize..SaltSize + HashSize])
  }

  /** A stored hash VerifyPassword can split without throwing. */
  predicate WellFormedHash(lib: CryptoLibrary, storedHash: string)
  {
    lib.fromBase64(storedHash).Some? && |lib.fromBase64(storedHash).value| >= SaltSize + HashSize
  }

  /**
    Buffer.BlockCopy between two distinct byte arrays: count bytes from
    src[srcOffset..] to dst[dstOffset..]; it throws, copying nothing, when an
    offset or the count is negative or either range runs past its array.
   */
  method BlockCopy(src: array<byte>, srcOffset: int, dst: array<byte>, dstOffset: int, count: int) returns (ok: bool)
    requires src != dst
    modifies dst
    ensures ok <==> 0 <= srcOffset && 0 <= dstOffset && 0 <= count
                    && srcOffset + count <= src.Length && dstOffset + count <= dst.Length
    ensures ok ==> forall k :: 0 <= k < dst.Length ==>
      dst[k] == if dstOffset <= k < dstOffset + count then src[srcOffset + k - dstOffset] else old(dst[k])
    ensures !ok ==> dst[..] == old(dst[..])
  {
    ok := 0 <= srcOffset && 0 <= dstOffset && 0 <= count
          && srcOffset + count <= src.Length && dstOffset + count <= dst.Length;
    if !ok {
      return;
    }
    var i := 0;
    while i < count
      invariant 0 <= i <= count
      invariant forall k :: 0 <= k < dst.Length ==>
        dst[k] == if dstOffset <= k < dstOffset + i then src[srcOffset + k - dstOffset] else old(dst[k])
    {
      dst[dstOffset + i] := src[srcOffset + i];
      i := i + 1;
    }
  }

  /** A fresh array holding the bytes of s (the arrays the library calls return). */
  method ToArray(s: seq<byte>) returns (a: array<byte>)
    ensures fresh(a) && a[..] == s
  {
    a := new byte[|s|](i => if 0 <= i < |s| then s[i] else 0);
  }

  /**
    HashPassword with the salt the random generator drew: the buffer it encodes
    is 48 bytes, salt in [0, 16) and derived key in [16, 48).
   */
  method HashPassword(lib: CryptoLibrary, password: string, salt: seq<byte>) returns (stored: string)
    requires DerivesRequestedLength(lib)
    requires |salt| == SaltSize
    ensures stored == StoredHash(lib, password, salt)
  {
    var saltBytes := ToArray(salt);
    var hash := ToArray(lib.pbkdf2(password, salt, Iterations, HashSize));
    var hashBytes := new byte[SaltSize + HashSize];
    var copiedSalt := BlockCopy(saltBytes, 0, hashBytes, 0, SaltSize);
    assert hashBytes[..SaltSize] == salt;
    var copiedHash := BlockCopy(hash, 0, hashBytes, SaltSize, HashSize);
    assert copiedSalt && copiedHash;
    assert hashBytes[..SaltSize] == salt;
    assert hashBytes[SaltSize..] == DerivedKey(lib, password, salt);
    assert hashBytes[..] == hashBytes[..SaltSize] + hashBytes[SaltSize..];
    stored := lib.toBase64(hashBytes[..]);
  }

  /**
    VerifyPassword: decode, split at offset 16 into salt and stored key,
    re-derive the key from the password and salt and compare element-wise.
   */
  method VerifyPassword(lib: CryptoLibrary, password: string, storedHash: string) returns (r: Result<bool, HashError>)
    ensures r == PasswordCheck(lib, password, storedHash)
  {
    var decoded := lib.fromBase64(storedHash);
    if decoded.None? {
      return Failure(InvalidBase64);
    }
    var hashBytes := ToArray(decoded.value);
    var salt := new byte[SaltSize];
    var ok := BlockCopy(hashBytes, 0, salt, 0, SaltSize);
    if !ok {
      return Failure(BlockCopyOutOfRange);
    }
    var storedPasswordHash := new byte[HashSize];
    ok := BlockCopy(hashBytes, SaltSize, storedPasswordHash, 0, HashSize);
    if !ok {
      return Failure(BlockCopyOutOfRange);
    }
    assert salt[..] == decoded.value[..SaltSize];
    assert storedPasswordHash[..] == decoded.value[SaltSize..SaltSize + HashSize];
    var computedHash := lib.pbkdf2(password, salt[..], Iterations, HashSize);
    r := Success(computedHash == storedPasswordHash[..]);
  }

  /** The stored value decodes to salt in bytes [0, 16) and key in [16, 48) of a 48-byte buffer. */
  lemma {:induction false} StoredHashLayout(lib: CryptoLibrary, password: string, salt: seq<byte>)
    requires Lawful(lib)
    requires |salt| == SaltSize
    ensures lib.fromBase64(StoredHash(lib, password, salt)).Some?
    ensures var buffer := lib.fromBase64(StoredHash(lib, password, salt)).value;
      && |buffer| == SaltSize + HashSize == 48
      && buffer[..SaltSize] == salt
      && buffer[SaltSize..] == DerivedKey(lib, password, salt)
    ensures WellFormedHash(lib, StoredHash(lib, password, salt))
  {
    var key := DerivedKey(lib, password, salt);
    assert lib.fromBase64(lib.toBase64(salt + key)) == Some(salt + key);
    assert (salt + key)[..SaltSize] == salt;
    assert (salt + key)[SaltSize..] == key;
  }

  /** VerifyPassword's split recovers exactly the salt and key HashPassword wrote. */
  lemma {:induction false} SplitInvertsLayout(salt: seq<byte>, key: seq<byte>)
    requires |salt| == SaltSize && |key| == HashSize
    ensures (salt + key)[..SaltSize] == salt
    ensures (salt + key)[SaltSize..SaltSize + HashSize] == key
  {
    assert (salt + key)[SaltSize..SaltSize + HashSize] == (salt + key)[SaltSize..];
  }

  /** Verifying against a stored hash is true exactly when the re-derived key equals the stored key. */
  lemma {:induction false} VerifyAgainstStored(lib: CryptoLibrary, attempt: string, password: string, salt: seq<byte>)
    requires Lawful(lib)
    requires |salt| == SaltSize
    ensures PasswordCheck(lib, attempt, StoredHash(lib, password, salt))
         == Success(DerivedKey(lib, attempt, salt) == DerivedKey(lib, password, salt))
  {
    StoredHashLayout(lib, password, salt);
    var buffer := salt + DerivedKey(lib, password, salt);
    assert buffer[SaltSize..SaltSize + HashSize] == buffer[SaltSize..];
  }

  /** The round trip: a password verifies against its own hash, whatever the salt. */
  lemma {:induction false} VerifyRoundTrip(lib: CryptoLibrary, password: string, salt: seq<byte>)
    requires Lawful(lib)
    requires |salt| == SaltSize
    ensures PasswordCheck(lib, password, StoredHash(lib, password, salt)) == Success(true)
  {
    VerifyAgainstStored(lib, password, password, salt);
  }

  /** A well-formed hash never makes verification throw; a malformed one always does. */
  lemma {:induction false} CheckFailsExactlyOnMalformed(lib: CryptoLibrary, password: string, storedHash: string)
    ensures PasswordCheck(lib, password, storedHash).Success? <==> WellFormedHash(lib, storedHash)
    ensures lib.fromBase64(storedHash).None? ==> PasswordCheck(lib, password, storedHash) == Failure(InvalidBase64)
  {
  }
}
