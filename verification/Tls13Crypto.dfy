/**
 The TLS 1.3 key schedule, record nonce and record protection (RFC 8446 sections 5.2, 5.3
 and 7.1) over cryptographic primitives that are given as functions with stated laws.
 */
module Tls13Crypto {
  import opened Bytes

  datatype Suite = Suite(
    hash: bytes -> bytes,
    hmac: (bytes, bytes) -> bytes,
    extract: (bytes, bytes) -> bytes,
    expand: (bytes, bytes, nat) -> bytes,
    share: bytes -> bytes,
    agree: (bytes, bytes) -> Option<bytes>,
    encrypt: (bytes, bytes, bytes, bytes) -> bytes,
    decrypt: (bytes, bytes, bytes, bytes) -> Option<bytes>)

  const DIGEST_LEN := 32
  const KEY_LEN := 16
  const NONCE_LEN := 12
  const TAG_LEN := 16
  const SEQ_MODULUS: int := 0x1_0000_0000_0000_0000

  /** Decryption inverts encryption, whose output is longer by the tag. */
  ghost predicate AeadLaws(c: Suite) {
    && (forall k, n, a, p :: |c.encrypt(k, n, a, p)| == |p| + TAG_LEN)
    && (forall k, n, a, p :: c.decrypt(k, n, a, c.encrypt(k, n, a, p)) == Some(p))
  }

  /** Key agreement is symmetric and accepts every honest share. */
  ghost predicate ExchangeLaws(c: Suite) {
    && (forall x, y :: c.agree(x, c.share(y)) == c.agree(y, c.share(x)))
    && (forall x, y :: c.agree(x, c.share(y)).Some?)
    && (forall x :: |c.share(x)| == 32)
  }

  ghost predicate Lawful(c: Suite) {
    AeadLaws(c) && ExchangeLaws(c) && (forall k, m :: |c.hmac(k, m)| == DIGEST_LEN)
  }

  // ---------------------------------------------------------------- key schedule

  const LABEL_PREFIX: bytes := Ascii("tls13 ")

  function HkdfLabel(len: nat, name: bytes, context: bytes): bytes {
    U16(len) + [(|LABEL_PREFIX| + |name|) % 256] + LABEL_PREFIX + name
      + [|context| % 256] + context
  }

  function ExpandLabel(c: Suite, secret: bytes, name: bytes, context: bytes, len: nat): bytes {
    c.expand(secret, HkdfLabel(len, name, context), len)
  }

  function DeriveSecret(c: Suite, secret: bytes, name: bytes, transcript: bytes): bytes {
    ExpandLabel(c, secret, name, c.hash(transcript), DIGEST_LEN)
  }

  function EarlySecret(c: Suite, psk: bytes): bytes { c.extract([], psk) }

  function HandshakeSecret(c: Suite, early: bytes, shared: bytes): bytes {
    c.extract(DeriveSecret(c, early, Ascii("derived"), []), shared)
  }

  function MasterSecret(c: Suite, handshake: bytes): bytes {
    c.extract(DeriveSecret(c, handshake, Ascii("derived"), []), Zeros(DIGEST_LEN))
  }

  type Iv = s: bytes | |s| == NONCE_LEN witness Zeros(NONCE_LEN)

  datatype Keys = Keys(key: bytes, iv: Iv)

  function TrafficKeys(c: Suite, secret: bytes): Keys {
    Keys(ExpandLabel(c, secret, Ascii("key"), [], KEY_LEN),
         Fit(ExpandLabel(c, secret, Ascii("iv"), [], NONCE_LEN), NONCE_LEN))
  }

  function Finished(c: Suite, secret: bytes, transcript: bytes): bytes {
    c.hmac(ExpandLabel(c, secret, Ascii("finished"), [], DIGEST_LEN), c.hash(transcript))
  }

  function Binder(c: Suite, early: bytes, name: bytes, transcript: bytes): bytes {
    Finished(c, DeriveSecret(c, early, name, []), transcript)
  }

  /** Distinct derivations never share an HKDF input: the label encodes all its parts. */
  lemma HkdfLabelInjective(len: nat, name: bytes, context: bytes,
                                              len': nat, name': bytes, context': bytes)
    requires len < 65536 && len' < 65536
    requires |LABEL_PREFIX| + |name| < 256 && |LABEL_PREFIX| + |name'| < 256
    requires |context| < 256 && |context'| < 256
    requires HkdfLabel(len, name, context) == HkdfLabel(len', name', context')
    ensures len == len' && name == name' && context == context'
  {
    var a, b := HkdfLabel(len, name, context), HkdfLabel(len', name', context');
    var p := |LABEL_PREFIX|;
    assert GetU16(a, 0) == len && GetU16(b, 0) == len';
    assert a[2] == p + |name| && b[2] == p + |name'|;
    assert a[3 + p..3 + p + |name|] == name && b[3 + p..3 + p + |name'|] == name';
    assert a[4 + p + |name|..] == context && b[4 + p + |name'|..] == context';
  }

  // ---------------------------------------------------------------- record nonce

  /** The low `k` bytes of a number, most significant first. */
  function BigEndian(n: nat, k: nat): (r: bytes)
    ensures |r| == k
    decreases k
  {
    if k == 0 then [] else BigEndian(n / 256, k - 1) + [n % 256]
  }

  function Pow256(k: nat): nat { if k == 0 then 1 else 256 * Pow256(k - 1) }

  lemma {:induction false} BigEndianInjective(m: nat, n: nat, k: nat)
    requires m < Pow256(k) && n < Pow256(k)
    requires BigEndian(m, k) == BigEndian(n, k)
    ensures m == n
    decreases k
  {
    if k > 0 {
      var a, b := BigEndian(m, k), BigEndian(n, k);
      assert a[..k - 1] == BigEndian(m / 256, k - 1) && b[..k - 1] == BigEndian(n / 256, k - 1);
      assert a[k - 1] == m % 256 && b[k - 1] == n % 256;
      BigEndianInjective(m / 256, n / 256, k - 1);
    }
  }

  /** The write IV combined with the left-padded sequence number. */
  function Nonce(iv: Iv, seqno: nat): Iv {
    iv[..4] + seq(8, i requires 0 <= i < 8 => Xor(iv[4 + i], BigEndian(seqno, 8)[i]))
  }

  lemma Pow256Of8()
    ensures Pow256(8) == SEQ_MODULUS
  {
    assert Pow256(2) == 65536;
    assert Pow256(4) == 0x1_0000_0000;
    assert Pow256(6) == 0x1_0000_0000_0000;
  }

  /** For any IV, sequence numbers below 2^64 give distinct nonces. */
  lemma NonceInjective(iv: Iv, m: nat, n: nat)
    requires m < SEQ_MODULUS && n < SEQ_MODULUS
    requires Nonce(iv, m) == Nonce(iv, n)
    ensures m == n
  {
    var a, b := BigEndian(m, 8), BigEndian(n, 8);
    forall i | 0 <= i < 8 ensures a[i] == b[i] {
      assert Nonce(iv, m)[4 + i] == Xor(iv[4 + i], a[i]);
      assert Nonce(iv, n)[4 + i] == Xor(iv[4 + i], b[i]);
      XorCancels(iv[4 + i], a[i], b[i]);
    }
    assert a == b;
    Pow256Of8();
    BigEndianInjective(m, n, 8);
  }

  lemma {:induction false} NumberOfBigEndian(n: nat, k: nat)
    requires n < Pow256(k)
    ensures Number(BigEndian(n, k)) == n
    decreases k
  {
    if k > 0 {
      var b := BigEndian(n, k);
      assert b[..k - 1] == BigEndian(n / 256, k - 1) && b[k - 1] == n % 256;
      NumberOfBigEndian(n / 256, k - 1);
    }
  }

  lemma {:induction false} LeadingZeros(k: nat, s: bytes)
    ensures Number(Zeros(k) + s) == Number(s)
    decreases k + |s|
  {
    var t := Zeros(k) + s;
    if s != [] {
      assert t[..|t| - 1] == Zeros(k) + s[..|s| - 1];
      LeadingZeros(k, s[..|s| - 1]);
    } else if k > 0 {
      assert t[..k - 1] == Zeros(k - 1) + [];
      LeadingZeros(k - 1, []);
    }
  }

  /** What a nonce is: over the zero IV its twelve bytes, read as one big-endian number, are the
      sequence number; over any IV each byte is combined with the byte of that number; and
      record zero is sealed under the IV itself. */
  lemma NonceMeaning(iv: Iv, n: nat)
    requires n < 0x1_0000_0000_0000_0000
    ensures Number(Nonce(Zeros(12), n)) == n
    ensures forall i :: 0 <= i < 12 ==> Nonce(iv, n)[i] == Xor(iv[i], Nonce(Zeros(12), n)[i])
    ensures Nonce(iv, 0) == iv
  {
    var b := BigEndian(n, 8);
    forall x: byte ensures Xor(0, x) == x && Xor(x, 0) == x {
      XorLaws(0, x);
      XorLaws(x, 0);
    }
    assert Nonce(Zeros(12), n) == Zeros(4) + b;
    LeadingZeros(4, b);
    Pow256Of8();
    NumberOfBigEndian(n, 8);
    BigEndianZero(8);
  }

  lemma {:induction false} BigEndianZero(k: nat)
    ensures BigEndian(0, k) == Zeros(k)
    decreases k
  {
    if k > 0 { BigEndianZero(k - 1); }
  }

  /** Right shift by `k` bytes. */
  function ShiftRight(n: nat, k: nat): nat
    decreases k
  {
    if k == 0 then n else ShiftRight(n / 256, k - 1)
  }

  lemma {:induction false} BigEndianAt(n: nat, k: nat, i: nat)
    requires i < k
    ensures BigEndian(n, k)[i] == ShiftRight(n, k - 1 - i) % 256
    decreases k
  {
    if i < k - 1 {
      BigEndianAt(n / 256, k - 1, i);
    }
  }

  /** tls13_nonce: copy the fixed part, then shift and combine one byte at a time. */
  method MakeNonce(iv: Iv, seqno: nat) returns (nonce: bytes)
    ensures nonce == Nonce(iv, seqno)
  {
    var buf := new byte[NONCE_LEN](_ => 0);
    forall i | 0 <= i < 4 { buf[i] := iv[i]; }
    for i := 0 to 8
      invariant forall j :: 0 <= j < 4 + i ==> buf[j] == Nonce(iv, seqno)[j]
    {
      BigEndianAt(seqno, 8, i);
      buf[4 + i] := Xor(iv[4 + i], ShiftRight(seqno, 7 - i) % 256);
    }
    nonce := buf[..];
  }

  // ---------------------------------------------------------------- record protection

  function Seal(c: Suite, keys: Keys, seqno: nat, aad: bytes, data: bytes, contentType: byte): bytes {
    c.encrypt(keys.key, Nonce(keys.iv, seqno), aad, data + [contentType])
  }

  datatype Opened = Rejected | Opened(contentType: byte, data: bytes)

  function Open(c: Suite, keys: Keys, seqno: nat, aad: bytes, record: bytes): Opened {
    if |record| < 1 + TAG_LEN then Rejected
    else
      match c.decrypt(keys.key, Nonce(keys.iv, seqno), aad, record)
      case None => Rejected
      case Some(p) => if p == [] then Rejected else Opened(p[|p| - 1], p[..|p| - 1])
  }

  /** A record is opened exactly when it is long enough and decrypts, under the nonce of its
      sequence number and with its header as additional data; the last byte of the plaintext is
      then the content type. */
  lemma OpenExactly(c: Suite, keys: Keys, seqno: nat, aad: bytes, record: bytes, contentType: byte, data: bytes)
    ensures Open(c, keys, seqno, aad, record) == Opened(contentType, data) <==>
              |record| >= 17 && c.decrypt(keys.key, Nonce(keys.iv, seqno), aad, record) == Some(data + [contentType])
  {
    var r := c.decrypt(keys.key, Nonce(keys.iv, seqno), aad, record);
    if r.Some? && r.value != [] { assert r.value == r.value[..|r.value| - 1] + [r.value[|r.value| - 1]]; }
  }

  /** Opening a sealed record under the same keys, sequence number and header recovers it. */
  lemma OpenSealed(c: Suite, keys: Keys, seqno: nat, aad: bytes, data: bytes, contentType: byte)
    requires AeadLaws(c)
    ensures Open(c, keys, seqno, aad, Seal(c, keys, seqno, aad, data, contentType))
         == Opened(contentType, data)
    ensures |Seal(c, keys, seqno, aad, data, contentType)| == |data| + 1 + TAG_LEN
  {
    var p: bytes := data + [contentType];
    assert p[..|p| - 1] == data;
    var n := Nonce(keys.iv, seqno);
    assert |c.encrypt(keys.key, n, aad, p)| == |p| + TAG_LEN;
    assert c.decrypt(keys.key, n, aad, c.encrypt(keys.key, n, aad, p)) == Some(p);
  }
}
