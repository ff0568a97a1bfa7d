/**
 The TLS 1.2 transmit path: records built in place inside one buffer, over the plaintext they
 protect, and the receive-side decoding that recovers it.
 */
module Tls12Send {
  import opened Bytes

  const TX_BUFSIZE := 4096
  const HEADER_LEN := 5

  /** Sizes of a cipher suite; a block size of zero means a stream or AEAD cipher. */
  datatype Sizes = Sizes(iv: nat, mac: nat, block: nat, auth: nat)

  predicate SizesOk(z: Sizes) { z.iv < 256 && z.mac < 256 && z.block <= 256 && z.auth < 256 }

  /** The suite under the connection's keys, by sequence number: record IV, MAC, encryption
      and its authentication tag, and decryption. */
  datatype Cipher = Cipher(
    sizes: Sizes,
    iv: (nat, nat) -> bytes,
    mac: (nat, bytes) -> bytes,
    encrypt: (nat, bytes, bytes) -> bytes,
    tag: (nat, bytes, bytes) -> bytes,
    decrypt: (nat, bytes, bytes) -> bytes)

  ghost predicate Lawful(c: Cipher) {
    && SizesOk(c.sizes)
    && (forall n, k :: |c.iv(n, k)| == c.sizes.iv)
    && (forall n, p :: |c.mac(n, p)| == c.sizes.mac)
    && (forall n, iv, p :: |c.encrypt(n, iv, p)| == |p|)
    && (forall n, iv, p :: |c.tag(n, iv, p)| == c.sizes.auth)
    && (forall n, iv, p :: c.decrypt(n, iv, c.encrypt(n, iv, p)) == p)
  }

  /** What distinguishes the records of a call: content type and protocol version. */
  datatype Kind = Kind(contentType: byte, major: byte, minor: byte)

  // ---------------------------------------------------------------- record contents

  /** Padding after `len` bytes: up to the next block boundary, and never none.  (The mask of
      a negated length by a power of two less one is the remainder.) */
  function PadLen(z: Sizes, len: nat): (r: nat)
    ensures r <= z.block
    ensures z.block > 0 ==> 1 <= r && len + r == z.block * (len / z.block + 1)
  {
    if z.block == 0 then 0
    else
      PadRemainder(z.block, len);
      (-(len + 1)) % z.block + 1
  }

  lemma PadRemainder(block: nat, len: nat)
    requires block > 0
    ensures len + ((-(len + 1)) % block + 1) == block * (len / block + 1)
  {
    var q, r := len / block, len % block;
    assert len == block * q + r;
    assert -(len + 1) == block * (-(q + 1)) + (block - r - 1) by {
      assert block * (-(q + 1)) == -(block * q) - block;
    }
    RemainderOf(block, -(q + 1), block - r - 1);
  }

  function Repeat(b: byte, n: nat): (r: bytes)
    ensures |r| == n
  {
    seq(n, _ => b)
  }

  function Padding(z: Sizes, len: nat): bytes
    requires SizesOk(z)
  {
    var n := PadLen(z, len);
    if n == 0 then [] else Repeat(n - 1, n)
  }

  /** The bytes encrypted for a record: plaintext, MAC, padding. */
  function Inner(c: Cipher, seqno: nat, plain: bytes): bytes
    requires SizesOk(c.sizes)
  {
    plain + c.mac(seqno, plain) + Padding(c.sizes, |plain| + c.sizes.mac)
  }

  function Header(k: Kind, len: nat): bytes { [k.contentType, k.major, k.minor] + U16(len) }

  /** The part of a record before the ciphertext. */
  function RecordHead(c: Cipher, k: Kind, seqno: nat, plain: bytes): bytes
    requires SizesOk(c.sizes)
  {
    var iv := c.iv(seqno, |plain|);
    Header(k, |iv| + |Inner(c, seqno, plain)| + c.sizes.auth) + iv
  }

  /** The ciphertext and authentication tag of a record. */
  function RecordTail(c: Cipher, seqno: nat, plain: bytes): bytes
    requires SizesOk(c.sizes)
  {
    var iv, inner := c.iv(seqno, |plain|), Inner(c, seqno, plain);
    c.encrypt(seqno, iv, inner) + c.tag(seqno, iv, inner)
  }

  function Record(c: Cipher, k: Kind, seqno: nat, plain: bytes): bytes
    requires SizesOk(c.sizes)
  {
    RecordHead(c, k, seqno, plain) + RecordTail(c, seqno, plain)
  }

  function RecordLen(len: nat): nat { if len > TX_BUFSIZE then TX_BUFSIZE else len }

  /** The records of a payload; an empty payload gives one empty record. */
  function Records(c: Cipher, k: Kind, seqno: nat, payload: bytes): bytes
    requires SizesOk(c.sizes)
    decreases |payload|
  {
    if |payload| <= TX_BUFSIZE then Record(c, k, seqno, payload)
    else Record(c, k, seqno, payload[..TX_BUFSIZE]) + Records(c, k, seqno + 1, payload[TX_BUFSIZE..])
  }

  // ---------------------------------------------------------------- headroom

  function RecordCount(len: nat): nat {
    if len == 0 then 1 else (len + TX_BUFSIZE - 1) / TX_BUFSIZE
  }

  function Each(z: Sizes): nat { HEADER_LEN + z.iv + z.mac + z.block + z.auth }

  function Reserved(z: Sizes, len: nat): nat { RecordCount(len) * Each(z) }

  lemma ReservedStep(z: Sizes, len: nat)
    ensures Reserved(z, len) >= Each(z)
    ensures len > TX_BUFSIZE ==> Reserved(z, len) == Reserved(z, len - TX_BUFSIZE) + Each(z)
  {
    var n := RecordCount(len);
    assert n >= 1;
    assert n * Each(z) >= Each(z) by { assert n * Each(z) == (n - 1) * Each(z) + Each(z); }
    if len > TX_BUFSIZE {
      assert n == RecordCount(len - TX_BUFSIZE) + 1;
    }
  }

  /** Each record adds at most the reserved amount to its plaintext. */
  lemma RecordGrowth(c: Cipher, k: Kind, seqno: nat, plain: bytes)
    requires Lawful(c)
    ensures |Record(c, k, seqno, plain)| <= |plain| + Each(c.sizes)
  {
  }

  // ---------------------------------------------------------------- in-place construction

  /** Move the plaintext at `p` down to `ciphertext` and append a trailer to it. */
  method Gather(buf: array<byte>, ciphertext: nat, p: nat, len: nat, trailer: bytes) returns (end: nat)
    requires ciphertext <= p && p + len <= buf.Length && ciphertext + |trailer| <= p
    modifies buf
    ensures end == ciphertext + len + |trailer|
    ensures buf[..end] == old(buf[..ciphertext]) + (old(buf[p..p + len]) + trailer)
    ensures buf[p + len..] == old(buf[p + len..])
  {
    var mid := Write(buf, ciphertext, buf[p..p + len], p + len);
    end := Write(buf, mid, trailer, p + len);
  }

  /** Replace the last bytes written by a transformation of the same length. */
  method Overwrite(buf: array<byte>, start: nat, data: bytes, ghost keep: nat)
    requires start + |data| <= keep <= buf.Length
    modifies buf
    ensures buf[..start + |data|] == old(buf[..start]) + data
    ensures buf[keep..] == old(buf[keep..])
  {
    var _ := Write(buf, start, data, keep);
  }

  lemma CipherLens(c: Cipher, seqno: nat, iv: bytes, plain: bytes)
    requires Lawful(c)
    ensures SizesOk(c.sizes) && |c.mac(seqno, plain)| == c.sizes.mac && |c.encrypt(seqno, iv, plain)| == |plain|
    ensures |c.tag(seqno, iv, plain)| == c.sizes.auth && |c.iv(seqno, |plain|)| == c.sizes.iv
  {
  }

  /** What is appended to the plaintext of a record. */
  function Trailer(c: Cipher, seqno: nat, plain: bytes): bytes
    requires SizesOk(c.sizes)
  {
    c.mac(seqno, plain) + Padding(c.sizes, |plain| + c.sizes.mac)
  }

  lemma TrailerLen(c: Cipher, seqno: nat, plain: bytes)
    requires Lawful(c)
    ensures |Trailer(c, seqno, plain)| <= c.sizes.mac + c.sizes.block
    ensures Inner(c, seqno, plain) == plain + Trailer(c, seqno, plain)
  {
    CipherLens(c, seqno, [], plain);
  }

  /** Encrypt the plaintext at `p`, with its MAC and padding, to the place at or before it:
      in place after moving it down, or straight across when nothing is appended. */
  method EncryptDown(c: Cipher, seqno: nat, iv: bytes, buf: array<byte>, ciphertext: nat, p: nat, len: nat)
    returns (next: nat)
    requires Lawful(c) && ciphertext + c.sizes.mac + c.sizes.block <= p && p + len <= buf.Length
    modifies buf
    ensures next == ciphertext + |Inner(c, seqno, old(buf[p..p + len]))| <= p + len
    ensures buf[..next] == old(buf[..ciphertext]) + c.encrypt(seqno, iv, Inner(c, seqno, old(buf[p..p + len])))
    ensures buf[p + len..] == old(buf[p + len..])
  {
    var plain := buf[p..p + len];
    CipherLens(c, seqno, iv, plain);
    var trailer := Trailer(c, seqno, plain);
    TrailerLen(c, seqno, plain);
    CipherLens(c, seqno, iv, plain + trailer);
    hide Lawful, Inner, Trailer, SizesOk;
    if |trailer| > 0 {
      ghost var front := buf[..ciphertext];
      next := Gather(buf, ciphertext, p, len, trailer);
      assert buf[ciphertext..next] == plain + trailer by {
        assert buf[..next][ciphertext..] == plain + trailer;
      }
      assert buf[..ciphertext] == front by { assert buf[..next][..ciphertext] == front; }
      Overwrite(buf, ciphertext, c.encrypt(seqno, iv, buf[ciphertext..next]), p + len);
    } else {
      assert plain + trailer == plain;
      next := ciphertext + len;
      Overwrite(buf, ciphertext, c.encrypt(seqno, iv, plain), p + len);
    }
  }

  /** The protected part of a record, from the plaintext at `p` to the place at or before it. */
  method BuildTail(c: Cipher, seqno: nat, buf: array<byte>, ciphertext: nat, p: nat, len: nat)
    returns (next: nat)
    requires Lawful(c) && p + len <= buf.Length
    requires ciphertext + c.sizes.mac + c.sizes.block + c.sizes.auth <= p
    modifies buf
    ensures next <= p + len
    ensures buf[..next] == old(buf[..ciphertext]) + RecordTail(c, seqno, old(buf[p..p + len]))
    ensures buf[p + len..] == old(buf[p + len..])
  {
    var plain := buf[p..p + len];
    TrailerLen(c, seqno, plain);
    var iv, inner := c.iv(seqno, len), Inner(c, seqno, plain);
    CipherLens(c, seqno, iv, inner);
    hide Lawful, Inner, Trailer, SizesOk;
    next := EncryptDown(c, seqno, iv, buf, ciphertext, p, len);
    next := Write(buf, next, c.tag(seqno, iv, inner), p + len);
  }

  /** Build one record at `w` from the plaintext at `p`, overwriting it.  The plaintext that
      follows is untouched, and no byte is overwritten before it is used. */
  method BuildRecord(c: Cipher, k: Kind, seqno: nat, buf: array<byte>, w: nat, p: nat, len: nat)
    returns (next: nat)
    requires Lawful(c) && p + len <= buf.Length && w + Each(c.sizes) <= p
    modifies buf
    ensures next <= p + len
    ensures buf[..next] == old(buf[..w]) + Record(c, k, seqno, old(buf[p..p + len]))
    ensures buf[p + len..] == old(buf[p + len..])
  {
    var plain := buf[p..p + len];
    CipherLens(c, seqno, [], plain);
    var head := RecordHead(c, k, seqno, plain);
    assert |head| == HEADER_LEN + c.sizes.iv;
    hide Lawful, RecordHead, RecordTail, SizesOk;
    ghost var tail := buf[p..];
    var ciphertext := Write(buf, w, head, p);
    assert ciphertext <= p;           // tls_send_record's own assertion
    assert buf[p..p + len] == plain by { assert buf[p..][..len] == tail[..len]; }
    assert buf[p + len..] == tail[len..] by { assert buf[p..][len..] == tail[len..]; }
    next := BuildTail(c, seqno, buf, ciphertext, p, len);
  }

  lemma RecordsUnfold(c: Cipher, k: Kind, seqno: nat, payload: bytes)
    requires SizesOk(c.sizes)
    ensures var n := RecordLen(|payload|);
            Records(c, k, seqno, payload)
            == Record(c, k, seqno, payload[..n])
               + if n < |payload| then Records(c, k, seqno + 1, payload[n..]) else []
  {
    hide Record;
    if |payload| <= TX_BUFSIZE { assert payload[..|payload|] == payload; }
  }

  lemma CountUnfold(len: nat)
    ensures RecordCount(len) == 1 + if RecordLen(len) < len then RecordCount(len - RecordLen(len)) else 0
  {
  }

  /** What remains of a payload after its next record, seen in the buffer. */
  lemma RestUntouched(before: bytes, now: bytes, p: nat, n: nat, rem: nat)
    requires n <= rem && p + rem <= |before| == |now| && now[p + n..] == before[p + n..]
    ensures now[p + n..p + rem] == before[p..p + rem][n..]
  {
    assert now[p + n..p + rem] == now[p + n..][..rem - n];
    assert before[p..p + rem][n..] == before[p + n..][..rem - n];
  }

  /** What is still to be sent, as records. */
  function Remaining(c: Cipher, k: Kind, seqno: nat, payload: bytes, more: bool): bytes
    requires SizesOk(c.sizes)
  {
    if more then Records(c, k, seqno, payload) else []
  }

  /** One turn of the loop: the next record of the plaintext at `p`. */
  method NextRecord(c: Cipher, k: Kind, seqno: nat, buf: array<byte>, w: nat, p: nat, rem: nat)
    returns (next: nat)
    requires Lawful(c) && w + Reserved(c.sizes, rem) <= p && p + rem <= buf.Length
    modifies buf
    ensures var n := RecordLen(rem);
            && next <= p + n && (n < rem ==> next + Reserved(c.sizes, rem - n) <= p + n)
            && buf[..next] + Remaining(c, k, seqno + 1, buf[p + n..p + rem], n < rem)
               == old(buf[..w]) + Records(c, k, seqno, old(buf[p..p + rem]))
  {
    hide Record, Records, Reserved, Lawful;
    assert SizesOk(c.sizes) by { CipherLens(c, 0, [], []); }
    var n := RecordLen(rem);
    ghost var before, front, rest := buf[..], buf[..w], buf[p..p + rem];
    ReservedStep(c.sizes, rem);
    RecordsUnfold(c, k, seqno, rest);
    assert rest[..n] == buf[p..p + n];
    RecordGrowth(c, k, seqno, rest[..n]);
    next := BuildRecord(c, k, seqno, buf, w, p, n);
    RestUntouched(before, buf[..], p, n, rem);
    assert buf[p + n..p + rem] == rest[n..];
    assert buf[..next] == front + Record(c, k, seqno, rest[..n]);
  }

  /** tls_send_record: build all the records of a payload inside its own buffer, starting in
      the reserved headroom before it. */
  method SendRecord(c: Cipher, k: Kind, seqno: nat, buf: array<byte>, start: nat, len: nat)
    returns (end: nat, nextSeq: nat)
    requires Lawful(c) && start == Reserved(c.sizes, len) && start + len <= buf.Length
    modifies buf
    ensures end <= start + len && nextSeq == seqno + RecordCount(len)
    ensures buf[..end] == Records(c, k, seqno, old(buf[start..start + len]))
  {
    hide Record, Records, RecordCount, Reserved, Lawful;
    assert SizesOk(c.sizes) by { CipherLens(c, 0, [], []); }
    ghost var all := Records(c, k, seqno, buf[start..start + len]);
    var p, rem: nat := start, len;
    end, nextSeq := 0, seqno;
    var more := true;
    assert buf[..0] + all == all;
    while more
      invariant p + rem == start + len && end <= p
      invariant more ==> end + Reserved(c.sizes, rem) <= p
      invariant buf[..end] + Remaining(c, k, nextSeq, buf[p..p + rem], more) == all
      invariant nextSeq + (if more then RecordCount(rem) else 0) == seqno + RecordCount(len)
      decreases more, rem
    {
      CountUnfold(rem);
      end := NextRecord(c, k, nextSeq, buf, end, p, rem);
      nextSeq := nextSeq + 1;
      p, rem := p + RecordLen(rem), rem - RecordLen(rem);
      more := rem > 0;
    }
    assert buf[..end] + [] == buf[..end];
  }

  // ---------------------------------------------------------------- decoding

  /** The last byte says how many more equal bytes precede it. */
  predicate PaddingValid(data: bytes)
    requires |data| > 0
  {
    var pad := data[|data| - 1];
    pad + 1 <= |data| && forall i :: |data| - 1 - pad <= i < |data| ==> data[i] == pad
  }

  /** tls_verify_padding: the padding length, or none if it is malformed. */
  method VerifyPadding(data: bytes) returns (r: Option<nat>)
    requires |data| > 0
    ensures r == if PaddingValid(data) then Some((data[|data| - 1] as int) + 1) else None
  {
    var padding := |data| - 1;
    var pad := data[padding];
    if pad + 1 > |data| { return None; }
    for i := 0 to pad
      invariant padding == |data| - 1 - i
      invariant forall j :: padding <= j < |data| ==> data[j] == pad
    {
      padding := padding - 1;
      if data[padding] != pad { return None; }
    }
    r := Some((pad as int) + 1);
  }

  /** Strip block padding as the receive path does: malformed padding counts as none. */
  function StripPadding(z: Sizes, data: bytes): bytes {
    if z.block == 0 || |data| == 0 || !PaddingValid(data) then data
    else data[..|data| - 1 - data[|data| - 1]]
  }

  /** The receive path on one record body: IV, decryption, padding, MAC, tag. */
  function OpenBody(c: Cipher, seqno: nat, body: bytes): Option<bytes> {
    var z := c.sizes;
    if |body| < z.iv + z.auth then None
    else
      var iv, auth := body[..z.iv], body[|body| - z.auth..];
      var data := c.decrypt(seqno, iv, body[z.iv..|body| - z.auth]);
      var unpadded := StripPadding(z, data);
      if |unpadded| < z.mac then None else CheckMac(c, seqno, iv, auth, data, unpadded)
  }

  /** The checks on a decrypted record: its MAC, and the tag received with it. */
  function CheckMac(c: Cipher, seqno: nat, iv: bytes, auth: bytes, data: bytes, unpadded: bytes): Option<bytes>
    requires |unpadded| >= c.sizes.mac
  {
    var plain, mac := unpadded[..|unpadded| - c.sizes.mac], unpadded[|unpadded| - c.sizes.mac..];
    if mac != c.mac(seqno, plain) || auth != c.tag(seqno, iv, data) then None else Some(plain)
  }

  /** Decode a run of records, each under the next sequence number. */
  function DecodeAll(c: Cipher, seqno: nat, stream: bytes): Option<bytes>
    decreases |stream|
  {
    if |stream| < HEADER_LEN || |stream| < HEADER_LEN + GetU16(stream, 3) then None
    else
      var end := HEADER_LEN + GetU16(stream, 3);
      match OpenBody(c, seqno, stream[HEADER_LEN..end])
      case None => None
      case Some(plain) =>
        if end == |stream| then Some(plain)
        else
          match DecodeAll(c, seqno + 1, stream[end..])
          case None => None
          case Some(more) => Some(plain + more)
  }

  lemma StripInner(c: Cipher, seqno: nat, plain: bytes)
    requires Lawful(c)
    ensures StripPadding(c.sizes, Inner(c, seqno, plain)) == plain + c.mac(seqno, plain)
  {
    CipherLens(c, seqno, [], plain);
    var z := c.sizes;
    var body := plain + c.mac(seqno, plain);
    var data := Inner(c, seqno, plain);
    if z.block > 0 {
      var n := PadLen(z, |body|);
      assert forall i :: |data| - n <= i < |data| ==> data[i] == n - 1;
      assert data[..|data| - n] == body;
    }
  }

  lemma OpenTail(c: Cipher, seqno: nat, plain: bytes)
    requires Lawful(c)
    ensures OpenBody(c, seqno, c.iv(seqno, |plain|) + RecordTail(c, seqno, plain)) == Some(plain)
  {
    var z := c.sizes;
    var inner := Inner(c, seqno, plain);
    CipherLens(c, seqno, [], plain);
    var iv := c.iv(seqno, |plain|);
    CipherLens(c, seqno, iv, inner);
    assert c.decrypt(seqno, iv, c.encrypt(seqno, iv, inner)) == inner;
    StripInner(c, seqno, plain);
    hide Lawful, Inner, StripPadding, SizesOk;
    var body := iv + RecordTail(c, seqno, plain);
    assert body[..z.iv] == iv;
    assert body[z.iv..|body| - z.auth] == c.encrypt(seqno, iv, inner);
    assert body[|body| - z.auth..] == c.tag(seqno, iv, inner);
    var unpadded := plain + c.mac(seqno, plain);
    assert unpadded[..|unpadded| - z.mac] == plain && unpadded[|unpadded| - z.mac..] == c.mac(seqno, plain);
  }

  lemma RecordShape(c: Cipher, k: Kind, seqno: nat, plain: bytes, rest: bytes)
    requires Lawful(c) && |plain| <= TX_BUFSIZE
    ensures var rec := Record(c, k, seqno, plain);
            var stream := rec + rest;
            && |rec| >= HEADER_LEN && HEADER_LEN + GetU16(stream, 3) == |rec|
            && stream[HEADER_LEN..|rec|] == c.iv(seqno, |plain|) + RecordTail(c, seqno, plain)
            && stream[|rec|..] == rest
  {
    var inner := Inner(c, seqno, plain);
    CipherLens(c, seqno, [], plain);
    var iv := c.iv(seqno, |plain|);
    CipherLens(c, seqno, iv, inner);
    TrailerLen(c, seqno, plain);
    var n := |iv| + |inner| + c.sizes.auth;
    assert n < 65536;
    U16RoundTrip(n);
    hide Lawful, Inner;
    var rec := Record(c, k, seqno, plain);
    var stream := rec + rest;
    assert stream[3] == U16(n)[0] && stream[4] == U16(n)[1];
    assert rec[HEADER_LEN..] == iv + RecordTail(c, seqno, plain);
    assert stream[HEADER_LEN..|rec|] == rec[HEADER_LEN..];
  }

  /** Decoding the records of a payload gives it back, for every length and every suite. */
  lemma {:induction false} DecodeInvertsRecords(c: Cipher, k: Kind, seqno: nat, payload: bytes)
    requires Lawful(c)
    ensures DecodeAll(c, seqno, Records(c, k, seqno, payload)) == Some(payload)
    decreases |payload|
  {
    hide Lawful, Record, Records, OpenBody, GetU16, RecordTail, SizesOk;
    assert SizesOk(c.sizes) by { CipherLens(c, 0, [], []); }
    var n := RecordLen(|payload|);
    var plain, more := payload[..n], payload[n..];
    var rest := if n < |payload| then Records(c, k, seqno + 1, more) else [];
    RecordsUnfold(c, k, seqno, payload);
    RecordShape(c, k, seqno, plain, rest);
    OpenTail(c, seqno, plain);
    assert plain + more == payload;
    var stream := Records(c, k, seqno, payload);
    var end := HEADER_LEN + GetU16(stream, 3);
    assert OpenBody(c, seqno, stream[HEADER_LEN..end]) == Some(plain);
    if n < |payload| {
      DecodeInvertsRecords(c, k, seqno + 1, more);
      RecordsNonEmpty(c, k, seqno + 1, more);
      assert stream[end..] == rest;
    } else {
      assert plain == payload;
    }
  }

  lemma RecordsNonEmpty(c: Cipher, k: Kind, seqno: nat, payload: bytes)
    requires Lawful(c)
    ensures |Records(c, k, seqno, payload)| >= HEADER_LEN
  {
    hide Record;
    var n := RecordLen(|payload|);
    RecordsUnfold(c, k, seqno, payload);
    RecordShape(c, k, seqno, payload[..n], []);
  }
}
