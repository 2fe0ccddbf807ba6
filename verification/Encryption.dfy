/** Field encryption under a passphrase, with a cached key, and under a raw key: the envelopes a column holds, and what
    reading them gives back. */
module Encryption {
  import opened Wrappers
  import opened Encoding
  import opened Sequences
  import Store

  type Bytes = seq<Byte>

  /** Key derivation, authenticated encryption and text encoding. `proper` texts are those the decoder gives back:
      Unicode text without a leading byte order mark. */
  datatype Cipher = Cipher(
    derive: (string, Bytes) -> Bytes,
    seal: (Bytes, Bytes, Bytes) -> Bytes,
    open: (Bytes, Bytes, Bytes) -> Option<Bytes>,
    utf8: string -> Bytes,
    text: Bytes -> string,
    proper: string -> bool)

  const TagLength := 16

  ghost predicate Lawful(c: Cipher) {
    && (forall key, nonce, plain :: c.open(key, nonce, c.seal(key, nonce, plain)) == Some(plain))
    && (forall key, nonce, plain :: |c.seal(key, nonce, plain)| == |plain| + TagLength)
    && (forall s :: c.proper(s) ==> c.text(c.utf8(s)) == s)
    && (forall s :: c.utf8(s) == [] <==> s == "")
  }

  // --- envelopes ---

  const SaltLength := 16
  const NonceLength := 12
  const Magic: Bytes := [0x76, 0x31]
  const RawMagic: Bytes := [0x62, 0x31]

  /** Copies the parts one behind another into a new buffer. */
  method Concat(parts: seq<Bytes>) returns (out: array<Byte>)
    ensures fresh(out) && out[..] == Flat(parts)
  {
    var total := 0;
    for p := 0 to |parts|
      invariant total == |Flat(parts[..p])|
    {
      assert parts[..p + 1][..p] == parts[..p];
      total := total + |parts[p]|;
    }
    assert parts[..|parts|] == parts;
    out := new Byte[total](_ => 0);
    var offset := 0;
    for p := 0 to |parts|
      invariant offset == |Flat(parts[..p])| && offset <= total && out[..offset] == Flat(parts[..p])
    {
      assert parts[..p + 1][..p] == parts[..p];
      FlatGrows(parts, p + 1);
      CopyInto(out, offset, parts[p]);
      offset := offset + |parts[p]|;
    }
    assert parts[..|parts|] == parts;
  }

  lemma {:induction false} FlatGrows(parts: seq<Bytes>, p: nat)
    requires p <= |parts|
    ensures |Flat(parts[..p])| <= |Flat(parts)|
  {
    if p == |parts| {
      assert parts[..p] == parts;
    } else {
      assert parts[..|parts| - 1][..p] == parts[..p];
      FlatGrows(parts[..|parts| - 1], p);
    }
  }

  method CopyInto(out: array<Byte>, offset: nat, part: Bytes)
    requires offset + |part| <= out.Length
    modifies out
    ensures out[..offset] == old(out[..offset]) && out[offset..offset + |part|] == part
    ensures out[..offset + |part|] == old(out[..offset]) + part
  {
    for i := 0 to |part|
      invariant out[..offset] == old(out[..offset]) && out[offset..offset + i] == part[..i]
    {
      out[offset + i] := part[i];
    }
    assert part[..|part|] == part;
    assert out[..offset + |part|] == out[..offset] + out[offset..offset + |part|];
  }

  method SameBytes(a: array<Byte>, b: array<Byte>) returns (same: bool)
    ensures same <==> a[..] == b[..]
  {
    if a.Length != b.Length {
      assert |a[..]| != |b[..]|;
      return false;
    }
    for i := 0 to a.Length
      invariant a[..i] == b[..i]
    {
      if a[i] != b[i] {
        assert a[..][i] != b[..][i];
        return false;
      }
    }
    assert a[..a.Length] == a[..] && b[..b.Length] == b[..];
    return true;
  }

  function Pack(salt: Bytes, nonce: Bytes, ct: Bytes): string {
    "v1x" + ToHex(Magic + salt + nonce + ct)
  }

  datatype Envelope = Envelope(salt: Bytes, nonce: Bytes, ct: Bytes)

  function Unpack(data: string): (e: Result<Envelope, string>)
    ensures e.Ok? ==> |e.value.salt| == SaltLength && |e.value.nonce| == NonceLength && |e.value.ct| > TagLength
  {
    if !("v1x" <= data) then Err("not a passphrase-envelope column value")
    else
      var bytes := FromHex(Lowered(data[3..]));
      if bytes.None? then Err("malformed encrypted column value") else Opened(bytes.value)
  }

  function Opened(b: Bytes): Result<Envelope, string> {
    if |b| < |Magic| + SaltLength + NonceLength + 1 + TagLength then Err("encrypted column too short")
    else if b[0] != Magic[0] || b[1] != Magic[1] then Err("bad magic on encrypted column")
    else Ok(Envelope(b[2..18], b[18..30], b[30..]))
  }

  lemma HexAfterPrefix(prefix: string, bytes: Bytes)
    requires |prefix| == 3
    ensures prefix <= prefix + ToHex(bytes) && FromHex(Lowered((prefix + ToHex(bytes))[3..])) == Some(bytes)
  {
    assert (prefix + ToHex(bytes))[3..] == ToHex(bytes);
    HexIsLower(bytes);
    HexRoundTrip(bytes);
  }

  /** The parts come back from their places, unless the ciphertext is no longer than its tag. */
  lemma UnpackUndoesPack(salt: Bytes, nonce: Bytes, ct: Bytes)
    requires |salt| == SaltLength && |nonce| == NonceLength
    ensures Unpack(Pack(salt, nonce, ct)) == if |ct| > TagLength then Ok(Envelope(salt, nonce, ct))
      else Err("encrypted column too short")
  {
    var b := Magic + salt + nonce + ct;
    HexAfterPrefix("v1x", b);
    if |ct| > TagLength {
      assert b[2..18] == salt && b[18..30] == nonce && b[30..] == ct;
    }
  }

  // --- what an encryptor without a cache does ---

  function Encrypted(c: Cipher, passphrase: string, plain: string, salt: Bytes, nonce: Bytes): string {
    Pack(salt, nonce, c.seal(c.derive(passphrase, salt), nonce, c.utf8(plain)))
  }

  function Decrypted(c: Cipher, passphrase: string, data: string): Option<string> {
    match Unpack(data)
    case Err(_) => None
    case Ok(e) =>
      match c.open(c.derive(passphrase, e.salt), e.nonce, e.ct)
      case None => None
      case Some(plain) => Some(c.text(plain))
  }

  /** A text comes back as the decoder renders its bytes, unless it is empty: the envelope of the empty text fails the
      length check. */
  lemma DecryptAfterEncrypt(c: Cipher, passphrase: string, plain: string, salt: Bytes, nonce: Bytes)
    requires Lawful(c) && |salt| == SaltLength && |nonce| == NonceLength
    ensures Decrypted(c, passphrase, Encrypted(c, passphrase, plain, salt, nonce))
         == if plain == "" then None else Some(c.text(c.utf8(plain)))
  {
    UnpackUndoesPack(salt, nonce, c.seal(c.derive(passphrase, salt), nonce, c.utf8(plain)));
  }

  /** So a proper text is read back exactly when it is not empty. */
  lemma DecryptUndoesEncrypt(c: Cipher, passphrase: string, plain: string, salt: Bytes, nonce: Bytes)
    requires Lawful(c) && c.proper(plain) && |salt| == SaltLength && |nonce| == NonceLength
    ensures Decrypted(c, passphrase, Encrypted(c, passphrase, plain, salt, nonce)) == if plain == "" then None
      else Some(plain)
  {
    DecryptAfterEncrypt(c, passphrase, plain, salt, nonce);
  }

  // --- the encryptor with a cached key ---

  datatype Cache = Cache(salt: Bytes, key: Bytes)

  class LazyEncryptor {
    const cipher: Cipher
    const passphrase: string
    var cached: Option<Cache>

    /** The cached key always belongs to the cached salt. */
    ghost predicate Valid()
      reads this
    {
      cached.Some? ==> cached.value.key == cipher.derive(passphrase, cached.value.salt)
    }

    constructor (cipher: Cipher, passphrase: string)
      ensures Valid() && this.cipher == cipher && this.passphrase == passphrase && cached.None?
    {
      this.cipher, this.passphrase, cached := cipher, passphrase, None;
    }

    /** Without a salt the cached one is used, or the drawn one becomes it; another salt replaces the cached one. */
    method KeyFor(envelopeSalt: Option<Bytes>, drawn: Bytes) returns (key: Bytes)
      requires Valid()
      modifies this`cached
      ensures Valid() && cached.Some? && key == cached.value.key
      ensures cached.value.salt == if envelopeSalt.Some? then envelopeSalt.value else if old(cached).Some?
        then old(cached).value.salt else drawn
    {
      if envelopeSalt.None? {
        if cached.None? {
          cached := Some(Cache(drawn, cipher.derive(passphrase, drawn)));
        }
        return cached.value.key;
      }
      if cached.Some? && cached.value.salt == envelopeSalt.value {
        return cached.value.key;
      }
      key := cipher.derive(passphrase, envelopeSalt.value);
      cached := Some(Cache(envelopeSalt.value, key));
    }

    /** Encrypts as an uncached encryptor would with the cached salt, or with a freshly drawn one. */
    method EncryptUtf8(plain: string, drawn: Bytes, nonce: Bytes) returns (data: string)
      requires Valid()
      modifies this`cached
      ensures Valid() && cached.Some?
      ensures cached.value.salt == if old(cached).Some? then old(cached).value.salt else drawn
      ensures data == Encrypted(cipher, passphrase, plain, cached.value.salt, nonce)
    {
      var key := KeyFor(None, drawn);
      data := Pack(cached.value.salt, nonce, cipher.seal(key, nonce, cipher.utf8(plain)));
    }

    /** Decrypts as an uncached encryptor would, whatever the cache holds. */
    method DecryptToUtf8(data: string) returns (plain: Option<string>)
      requires Valid()
      modifies this`cached
      ensures Valid()
      ensures plain == Decrypted(cipher, passphrase, data)
      ensures cached == old(cached) || (cached.Some? && |cached.value.salt| == SaltLength)
    {
      var e := Unpack(data);
      if e.Err? {
        return None;
      }
      var key := KeyFor(Some(e.value.salt), []);
      var bytes := cipher.open(key, e.value.nonce, e.value.ct);
      return if bytes.None? then None else Some(cipher.text(bytes.value));
    }

    method Close()
      modifies this`cached
      ensures Valid() && cached.None?
    {
      cached := None;
    }
  }

  // --- runs ---

  datatype Op = Encrypt(plain: string, drawn: Bytes, nonce: Bytes) | Decrypt(data: string) | Close

  ghost predicate DrawsProperly(op: Op) {
    op.Encrypt? ==> |op.drawn| == SaltLength && |op.nonce| == NonceLength
  }

  /** The salts an encryptor caches are sixteen bytes long if those it draws are. */
  ghost predicate Salted(e: LazyEncryptor)
    reads e
  {
    e.Valid() && (e.cached.Some? ==> |e.cached.value.salt| == SaltLength)
  }

  /** A reply that does not depend on the cache: decryption as without one, and envelopes that open to their text. */
  ghost predicate AsUncached(c: Cipher, passphrase: string, op: Op, reply: Option<string>) {
    match op
    case Encrypt(plain, _, _) =>
      reply.Some? && (c.proper(plain)
        ==> Decrypted(c, passphrase, reply.value) == if plain == "" then None else Some(plain))
    case Decrypt(data) => reply == Decrypted(c, passphrase, data)
    case Close => reply == None
  }

  method Perform(e: LazyEncryptor, op: Op) returns (reply: Option<string>)
    requires Salted(e) && Lawful(e.cipher) && DrawsProperly(op)
    modifies e
    ensures Salted(e) && AsUncached(e.cipher, e.passphrase, op, reply)
  {
    match op {
      case Encrypt(plain, drawn, nonce) =>
        var data := e.EncryptUtf8(plain, drawn, nonce);
        if e.cipher.proper(plain) {
          DecryptUndoesEncrypt(e.cipher, e.passphrase, plain, e.cached.value.salt, nonce);
        }
        reply := Some(data);
      case Decrypt(data) => reply := e.DecryptToUtf8(data);
      case Close =>
        e.Close();
        reply := None;
    }
  }

  /** In every run of encryptions, decryptions and closings each reply is as if there were no cache. */
  method Run(e: LazyEncryptor, ops: seq<Op>) returns (replies: seq<Option<string>>)
    requires Salted(e) && Lawful(e.cipher) && forall k | 0 <= k < |ops| :: DrawsProperly(ops[k])
    modifies e
    ensures Salted(e) && |replies| == |ops|
    ensures forall k | 0 <= k < |ops| :: AsUncached(e.cipher, e.passphrase, ops[k], replies[k])
  {
    replies := [];
    for k := 0 to |ops|
      invariant Salted(e) && |replies| == k
      invariant forall j | 0 <= j < k :: AsUncached(e.cipher, e.passphrase, ops[j], replies[j])
    {
      var reply := Perform(e, ops[k]);
      replies := replies + [reply];
    }
  }

  /** The encryptor as the store sees it; each encryption draws a nonce, and may find another salt in the cache. */
  function FieldsOf(c: Cipher, passphrase: string, saltOf: nat -> Bytes, nonceOf: nat -> Bytes): Store.FieldEncryptor {
    Store.FieldEncryptor(
      (plain: string, n: nat) => Encrypted(c, passphrase, plain, saltOf(n), nonceOf(n)),
      (data: string) => Decrypted(c, passphrase, data),
      (plain: string) => c.text(c.utf8(plain)))
  }

  /** Such an encryptor obeys the law the backends rely on, and every proper secret comes back as it was stored. */
  lemma StoreMayUseIt(
    c: Cipher, passphrase: string, saltOf: nat -> Bytes, nonceOf: nat -> Bytes, lower: string -> string)
    requires Lawful(c) && (forall n :: |saltOf(n)| == SaltLength) && (forall n :: |nonceOf(n)| == NonceLength)
    ensures var config := Store.Config(Some(FieldsOf(c, passphrase, saltOf, nonceOf)), lower);
            && Store.Lawful(config)
            && forall plain | c.proper(plain) && plain != "" :: Store.Sealed(config, plain) == Store.Text(plain)
  {
    var enc := FieldsOf(c, passphrase, saltOf, nonceOf);
    forall plain: string, n: nat
      ensures Store.IsEncryptedFormat(enc.encrypt(plain, n))
      ensures enc.decrypt(enc.encrypt(plain, n)) == if plain == "" then None else Some(enc.comesBack(plain))
    {
      DecryptAfterEncrypt(c, passphrase, plain, saltOf(n), nonceOf(n));
      HexAfterPrefix("v1x",
        Magic + saltOf(n) + nonceOf(n) + c.seal(c.derive(passphrase, saltOf(n)), nonceOf(n), c.utf8(plain)));
    }
  }

  // --- the raw-key encryptor ---

  function PackRaw(nonce: Bytes, ct: Bytes): string {
    "b1x" + ToHex(RawMagic + nonce + ct)
  }

  function UnpackRaw(data: string): Option<(Bytes, Bytes)> {
    if !("b1x" <= data) then None
    else
      var bytes := FromHex(Lowered(data[3..]));
      if bytes.None? || |bytes.value| < |RawMagic| + NonceLength + 1 + TagLength then None
      else if bytes.value[0] != RawMagic[0] || bytes.value[1] != RawMagic[1] then None
      else Some((bytes.value[2..14], bytes.value[14..]))
  }

  lemma UnpackRawUndoesPack(nonce: Bytes, ct: Bytes)
    requires |nonce| == NonceLength
    ensures UnpackRaw(PackRaw(nonce, ct)) == if |ct| > TagLength then Some((nonce, ct)) else None
  {
    var b := RawMagic + nonce + ct;
    HexAfterPrefix("b1x", b);
    if |ct| > TagLength {
      assert b[2..14] == nonce && b[14..] == ct;
    }
  }

  function RawEncrypted(c: Cipher, key: Bytes, plain: string, nonce: Bytes): string {
    PackRaw(nonce, c.seal(key, nonce, c.utf8(plain)))
  }

  function RawDecrypted(c: Cipher, key: Bytes, data: string): Option<string> {
    match UnpackRaw(data)
    case None => None
    case Some((nonce, ct)) =>
      match c.open(key, nonce, ct)
      case None => None
      case Some(plain) => Some(c.text(plain))
  }

  lemma RawDecryptUndoesEncrypt(c: Cipher, key: Bytes, plain: string, nonce: Bytes)
    requires Lawful(c) && c.proper(plain) && |nonce| == NonceLength
    ensures RawDecrypted(c, key, RawEncrypted(c, key, plain, nonce)) == if plain == "" then None else Some(plain)
  {
    UnpackRawUndoesPack(nonce, c.seal(key, nonce, c.utf8(plain)));
  }

  class RawEncryptor {
    const cipher: Cipher
    const local: array<Byte>

    /** The key is copied: the caller's buffer is neither kept nor changed. */
    constructor (cipher: Cipher, key: array<Byte>)
      requires key.Length == 32
      ensures this.cipher == cipher && fresh(local) && local[..] == key[..]
    {
      this.cipher := cipher;
      var copy := new Byte[32](k requires 0 <= k < 32 reads key => key[k]);
      assert copy[..] == key[..];
      this.local := copy;
    }

    method EncryptUtf8(plain: string, nonce: Bytes) returns (data: string)
      ensures data == RawEncrypted(cipher, local[..], plain, nonce)
    {
      data := PackRaw(nonce, cipher.seal(local[..], nonce, cipher.utf8(plain)));
    }

    method DecryptToUtf8(data: string) returns (plain: Option<string>)
      ensures plain == RawDecrypted(cipher, local[..], data)
    {
      var parts := UnpackRaw(data);
      if parts.None? {
        return None;
      }
      var bytes := cipher.open(local[..], parts.value.0, parts.value.1);
      return if bytes.None? then None else Some(cipher.text(bytes.value));
    }

    /** Zeroes the copy. */
    method Close()
      modifies local
      ensures forall k | 0 <= k < local.Length :: local[k] == 0
    {
      for k := 0 to local.Length
        invariant forall j | 0 <= j < k :: local[j] == 0
      {
        local[k] := 0;
      }
    }
  }

  /** A key of another length is refused. */
  method OpenRaw(cipher: Cipher, key: array<Byte>) returns (e: Option<RawEncryptor>)
    ensures e.Some? <==> key.Length == 32
    ensures e.Some? ==>
      fresh(e.value) && fresh(e.value.local) && e.value.cipher == cipher && e.value.local[..] == key[..]
  {
    if key.Length != 32 {
      return None;
    }
    var r := new RawEncryptor(cipher, key);
    return Some(r);
  }
}
