/**
 What a TLS 1.2 record is on the wire, and that nothing else is ever opened: a record whose MAC
 or tag fails is refused, whatever its bytes.
 */
module Tls12Sound {
  import opened Bytes
  import opened Tls12Send
  import opened Tls12Receive
  import opened Tls12Exchange

  // ---------------------------------------------------------------- the wire

  /** `n` equal bytes. */
  function Run(b: byte, n: nat): bytes { seq(n, _ => b) }

  /** Bytes of padding up to the next block boundary, and never none for a block cipher. */
  function Pad(block: nat, len: nat): nat { if block == 0 then 0 else block - len % block }

  /** What a record encrypts: plaintext, MAC, and padding that names its own length less one. */
  function Inside(c: Cipher, n: nat, plain: bytes): bytes
    requires c.sizes.block <= 256
  {
    var pad := Pad(c.sizes.block, |plain| + c.sizes.mac);
    plain + c.mac(n, plain) + if pad == 0 then [] else Run(pad - 1, pad)
  }

  /** The bytes of a record: type, version and length, then the record IV, the encryption of
      plaintext, MAC and padding, and the tag over it. */
  lemma RecordOnWire(c: Cipher, k: Kind, n: nat, plain: bytes)
    requires Lawful(c) && |plain| <= 4096
    ensures c.sizes.block <= 256
    ensures var z, iv, inside := c.sizes, c.iv(n, |plain|), Inside(c, n, plain);
            var len := z.iv + |inside| + z.auth;
            && |inside| == |plain| + z.mac + Pad(z.block, |plain| + z.mac) && len < 65536
            && Record(c, k, n, plain) ==
                 [k.contentType, k.major, k.minor, len / 256, len % 256] + iv
                   + c.encrypt(n, iv, inside) + c.tag(n, iv, inside)
  {
    CipherLens(c, n, [], plain);
    CipherLens(c, n, c.iv(n, |plain|), Inner(c, n, plain));
    PaddingOnWire(c.sizes, |plain| + c.sizes.mac);
    assert Inside(c, n, plain) == Inner(c, n, plain);
    hide Lawful, Inner, SizesOk, Inside, Pad;
  }

  lemma PaddingOnWire(z: Sizes, len: nat)
    requires SizesOk(z)
    ensures var pad := Pad(z.block, len);
            && Padding(z, len) == (if pad == 0 then [] else Run(pad - 1, pad))
            && (z.block > 0 ==> 1 <= pad <= z.block && (len + pad) % z.block == 0)
  {
    if z.block > 0 { PadToBlock(z.block, len); }
  }

  lemma PadToBlock(block: nat, len: nat)
    requires block > 0
    ensures (-(len + 1)) % block + 1 == block - len % block
    ensures (len + (block - len % block)) % block == 0
  {
    PadRemainder(block, len);
    assert len == block * (len / block) + len % block;
    assert block * (len / block + 1) == block * (len / block) + block;
    RemainderOf(block, len / block + 1, 0);
  }

  /** A payload is cut every 4096 bytes, under successive sequence numbers; an empty one is one
      empty record. */
  lemma PayloadOnWire(c: Cipher, k: Kind, n: nat, payload: bytes)
    requires SizesOk(c.sizes)
    ensures Records(c, k, n, payload) ==
              if |payload| <= 4096 then Record(c, k, n, payload)
              else Record(c, k, n, payload[..4096]) + Records(c, k, n + 1, payload[4096..])
  {
  }

  /** The headroom reserved: a header, an IV, a MAC, a block and a tag for every 4096 bytes begun,
      and for an empty payload. */
  lemma ReservedIs(z: Sizes, len: nat)
    ensures Reserved(z, len) ==
              (if len == 0 then 1 else (len + 4095) / 4096) * (5 + z.iv + z.mac + z.block + z.auth)
  {
  }

  /** Padding is valid exactly when the data ends in k + 1 bytes of value k. */
  lemma PaddingExactly(data: bytes)
    requires |data| > 0
    ensures PaddingValid(data) <==> exists k: byte :: EndsPadded(data, k)
  {
    if PaddingValid(data) {
      var k: byte := data[|data| - 1];
      assert EndsPadded(data, k);
    }
    if k: byte :| EndsPadded(data, k) {
      var n: nat := k as nat + 1;
      var end := data[|data| - n..];
      assert data[|data| - 1] == end[n - 1];
      assert forall i :: |data| - n <= i < |data| ==> data[i] == end[i - (|data| - n)];
    }
  }

  predicate EndsPadded(data: bytes, k: byte) {
    var n: nat := k as nat + 1;
    |data| >= n && data[|data| - n..] == Run(k, n)
  }

  // ---------------------------------------------------------------- soundness of opening

  /** The body protects the plaintext as record number `n`: its decryption is the plaintext with
      its MAC and at most well-formed padding, and it ends in the tag over that. */
  ghost predicate Genuine(c: Cipher, n: nat, body: bytes, plain: bytes) {
    var z := c.sizes;
    |body| >= z.iv + z.auth &&
      var iv := body[..z.iv];
      var data := c.decrypt(n, iv, body[z.iv..|body| - z.auth]);
      && body[|body| - z.auth..] == c.tag(n, iv, data)
      && exists padding :: data == plain + c.mac(n, plain) + padding && PaddingLike(z, padding)
  }

  ghost predicate PaddingLike(z: Sizes, padding: bytes) {
    padding == [] || (z.block > 0 && exists k: byte :: |padding| == k as nat + 1 && EndsPadded(padding, k))
  }

  /** For every buffers whatsoever, what is opened is genuine: a failing MAC or tag is refused. */
  lemma OpenedIsGenuine(c: Cipher, n: nat, bufs: seq<Buf>, plain: bytes)
    requires OpenBuffers(c, n, bufs) == Some(plain)
    ensures Genuine(c, n, Contents(bufs), plain)
  {
    hide Contents, OpenLast, PaddingLike;
    var z, body := c.sizes, Contents(bufs);
    var iv := body[..z.iv];
    var data := c.decrypt(n, iv, body[z.iv..|body| - z.auth]);
    var last := |bufs[|bufs| - 1].data| - if |bufs| == 1 then z.iv else 0;
    LastIsGenuine(c, n, iv, body[|body| - z.auth..], data, last - z.auth, plain);
  }

  lemma LastIsGenuine(c: Cipher, n: nat, iv: bytes, auth: bytes, data: bytes, m: nat, plain: bytes)
    requires OpenLast(c, n, iv, auth, data, m) == Some(plain)
    ensures auth == c.tag(n, iv, data)
    ensures exists padding :: data == plain + c.mac(n, plain) + padding && PaddingLike(c.sizes, padding)
  {
    hide PaddingIn, PaddingLike, CheckMac;
    var last := data[|data| - m..];
    var pad := PaddingIn(c.sizes, last);
    var unpadded, padding := data[..|data| - pad], data[|data| - pad..];
    assert data == unpadded + padding;
    MacMatches(c, n, iv, auth, data, unpadded, plain);
    StrippedIsPadding(c.sizes, last);
    assert padding == last[m - pad..];
  }

  lemma MacMatches(c: Cipher, n: nat, iv: bytes, auth: bytes, data: bytes, unpadded: bytes, plain: bytes)
    requires |unpadded| >= c.sizes.mac && CheckMac(c, n, iv, auth, data, unpadded) == Some(plain)
    ensures auth == c.tag(n, iv, data) && unpadded == plain + c.mac(n, plain)
  {
  }

  lemma StrippedIsPadding(z: Sizes, last: bytes)
    ensures PaddingLike(z, last[|last| - PaddingIn(z, last)..])
  {
    var pad := PaddingIn(z, last);
    if pad > 0 {
      var k: byte := last[|last| - 1];
      var padding := last[|last| - pad..];
      assert padding == Run(k, pad);
      assert EndsPadded(padding, k) by { assert padding[|padding| - pad..] == padding; }
    }
  }

  /** The records of a stream protect successive parts of the payload, under successive
      sequence numbers. */
  ghost predicate AllGenuine(c: Cipher, seqno: nat, rs: Recs, payload: bytes) {
    match rs
    case NoRecs => payload == []
    case Then(before, rec) =>
      exists done, plain :: payload == done + plain && AllGenuine(c, seqno, before, done)
                         && Genuine(c, seqno + Count(before), Contents(rec.bufs), plain)
  }

  /** Whatever a stream of records, what is delivered from it was genuinely protected, record by
      record. */
  lemma {:induction false} StreamIsGenuine(c: Cipher, seqno: nat, rs: Recs, payload: bytes)
    requires OpenRecs(c, seqno, rs) == Some(payload)
    ensures AllGenuine(c, seqno, rs, payload)
  {
    hide OpenBuffers, Genuine;
    match rs
    case NoRecs =>
    case Then(before, rec) =>
      var done := OpenRecs(c, seqno, before).value;
      var plain := OpenBuffers(c, seqno + Count(before), rec.bufs).value;
      StreamIsGenuine(c, seqno, before, done);
      OpenedIsGenuine(c, seqno + Count(before), rec.bufs, plain);
      assert payload == done + plain;
  }

  /** A record with any byte of its MAC altered is refused: there is nothing it could deliver. */
  lemma AlteredMacRefused(c: Cipher, n: nat, bufs: seq<Buf>, plain: bytes, mac: bytes)
    requires Receivable(c) && c.sizes.block == 0
    requires |mac| == c.sizes.mac && mac != c.mac(n, plain) && |Contents(bufs)| >= c.sizes.iv + c.sizes.auth
    requires var body, z := Contents(bufs), c.sizes;
             c.decrypt(n, body[..z.iv], body[z.iv..|body| - z.auth]) == plain + mac
    ensures OpenBuffers(c, n, bufs) == None
  {
    hide OpenBuffers, Contents, Receivable;
    if OpenBuffers(c, n, bufs).Some? {
      var got := OpenBuffers(c, n, bufs).value;
      OpenedIsGenuine(c, n, bufs, got);
      MacLen(c, n, got);
      assert plain + mac == got + c.mac(n, got) by { NoPadding(c, n, Contents(bufs), got); }
      SameEnds(plain, mac, got, c.mac(n, got));
    }
  }

  lemma NoPadding(c: Cipher, n: nat, body: bytes, plain: bytes)
    requires Genuine(c, n, body, plain) && c.sizes.block == 0
    ensures c.decrypt(n, body[..c.sizes.iv], body[c.sizes.iv..|body| - c.sizes.auth]) == plain + c.mac(n, plain)
  {
    assert plain + c.mac(n, plain) + [] == plain + c.mac(n, plain);
  }

  lemma SameEnds(a: bytes, x: bytes, b: bytes, y: bytes)
    requires |x| == |y| && a + x == b + y
    ensures a == b && x == y
  {
    assert a == (a + x)[..|a|] && b == (b + y)[..|b|];
    assert x == (a + x)[|a|..] && y == (b + y)[|b|..];
  }

  lemma MacLen(c: Cipher, n: nat, plain: bytes)
    requires Receivable(c)
    ensures |c.mac(n, plain)| == c.sizes.mac
  {
  }
}
