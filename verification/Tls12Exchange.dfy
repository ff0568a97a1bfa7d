/**
 The two halves of the TLS 1.2 record engine together: what one side builds in place is what
 the other side opens out of its rotated receive buffers.
 */
module Tls12Exchange {
  import opened Bytes
  import opened Tls12Send
  import opened Tls12Receive

  /** Trailers small enough for the last receive buffer, as those of all real suites are. */
  ghost predicate Receivable(c: Cipher) {
    && Lawful(c) && c.sizes.mac + c.sizes.auth <= 256
    && (forall n, iv, x :: |c.decrypt(n, iv, x)| == |x|)
  }

  /** tls_new_ciphertext on the buffers of a record: the IV is taken from the first buffer, and
      the tag, the padding and the MAC from the last one only. */
  function OpenBuffers(c: Cipher, seqno: nat, bufs: seq<Buf>): Option<bytes> {
    var z, body := c.sizes, Contents(bufs);
    if bufs == [] || |bufs[0].data| < z.iv then None
    else
      var last := |bufs[|bufs| - 1].data| - if |bufs| == 1 then z.iv else 0;
      if last < z.auth || |body| < z.iv + z.auth then None else OpenWhole(c, seqno, body, last - z.auth)
  }

  /** The padding at the end of the last buffer, malformed padding counting as none. */
  function PaddingIn(z: Sizes, last: bytes): (r: nat)
    ensures r <= |last|
  {
    if z.block == 0 || |last| == 0 || !PaddingValid(last) then 0 else (last[|last| - 1] as int) + 1
  }

  /** The rest of the routine, with `n` decrypted bytes in the last buffer. */
  function OpenLast(c: Cipher, seqno: nat, iv: bytes, auth: bytes, data: bytes, n: nat): Option<bytes> {
    if n > |data| then None
    else
      var pad := PaddingIn(c.sizes, data[|data| - n..]);
      if n - pad < c.sizes.mac then None
      else
        CheckMac(c, seqno, iv, auth, data, data[..|data| - pad])
  }

  // ---------------------------------------------------------------- buffers against bytes

  lemma PaddingInLast(z: Sizes, data: bytes, n: nat)
    requires n <= |data| && (n == |data| || n >= 256)
    ensures StripPadding(z, data) == data[..|data| - PaddingIn(z, data[|data| - n..])]
  {
    var last := data[|data| - n..];
    if |data| > 0 && n > 0 {
      var pad := data[|data| - 1];
      assert last[n - 1] == pad;
      assert forall i :: |data| - n <= i < |data| ==> data[i] == last[i - (|data| - n)];
      assert forall i :: 0 <= i < n ==> last[i] == data[i + (|data| - n)];
      assert PaddingValid(last) <==> PaddingValid(data);
    }
    assert data[..|data|] == data;
  }

  lemma LastSuffices(c: Cipher, seqno: nat, iv: bytes, auth: bytes, data: bytes, n: nat)
    requires n <= |data| && (n == |data| || n >= 256 + c.sizes.mac)
    ensures var unpadded := StripPadding(c.sizes, data);
            OpenLast(c, seqno, iv, auth, data, n)
            == if |unpadded| < c.sizes.mac then None else CheckMac(c, seqno, iv, auth, data, unpadded)
  {
    PaddingInLast(c.sizes, data, n);
    var pad := PaddingIn(c.sizes, data[|data| - n..]);
    PaddingSmall(c.sizes, data[|data| - n..]);
  }

  lemma PaddingSmall(z: Sizes, last: bytes)
    ensures PaddingIn(z, last) <= 256
  {
  }

  lemma {:induction false} LastIsPart(bufs: seq<Buf>)
    requires bufs != []
    ensures |bufs[|bufs| - 1].data| <= |Contents(bufs)|
  {
    if |bufs| > 1 {
      LastIsPart(bufs[1..]);
    } else {
      assert bufs[1..] == [];
    }
  }

  lemma ContentsEnds(bufs: seq<Buf>)
    requires bufs != []
    ensures if |bufs| == 1 then Contents(bufs) == bufs[0].data
            else |bufs[0].data| + |bufs[|bufs| - 1].data| <= |Contents(bufs)|
  {
    if |bufs| > 1 {
      LastIsPart(bufs[1..]);
    } else {
      assert bufs[1..] == [] && bufs[0].data + [] == bufs[0].data;
    }
  }

  /** Buffers as the receiver hands them on: one, or a first that holds the IV and a last of
      at least 512 bytes. */
  predicate WellCut(z: Sizes, bufs: seq<Buf>) {
    bufs != [] && (|bufs| > 1 ==> |bufs[0].data| >= z.iv && |bufs[|bufs| - 1].data| >= RX_MIN_BUFSIZE)
  }

  lemma SmallTrailer(c: Cipher)
    requires Receivable(c)
    ensures c.sizes.mac + c.sizes.auth <= 256
  {
  }

  lemma DecryptLen(c: Cipher, seqno: nat, iv: bytes, x: bytes)
    requires Receivable(c)
    ensures |c.decrypt(seqno, iv, x)| == |x|
  {
  }

  /** Looking only into the first and last buffers loses nothing: for every record, well formed
      or not, the result is that of opening its bytes as a whole. */
  lemma OpenBuffersIsOpenBody(c: Cipher, seqno: nat, bufs: seq<Buf>)
    requires Receivable(c) && WellCut(c.sizes, bufs)
    ensures OpenBuffers(c, seqno, bufs) == OpenBody(c, seqno, Contents(bufs))
  {
    ContentsEnds(bufs);
    SmallTrailer(c);
    var z, body := c.sizes, Contents(bufs);
    var last := |bufs[|bufs| - 1].data| - if |bufs| == 1 then z.iv else 0;
    hide OpenBody, OpenWhole, Contents, Receivable, Lawful;
    if |body| >= z.iv + z.auth { OpenWholeIsOpenBody(c, seqno, body, last - z.auth); } else { ShortBody(c, seqno, body); }
  }

  /** The record opened with `n` decrypted bytes taken to lie in the last buffer. */
  function OpenWhole(c: Cipher, seqno: nat, body: bytes, n: nat): Option<bytes>
    requires |body| >= c.sizes.iv + c.sizes.auth
  {
    var z := c.sizes;
    var iv, auth := body[..z.iv], body[|body| - z.auth..];
    OpenLast(c, seqno, iv, auth, c.decrypt(seqno, iv, body[z.iv..|body| - z.auth]), n)
  }

  lemma ShortBody(c: Cipher, seqno: nat, body: bytes)
    requires |body| < c.sizes.iv + c.sizes.auth
    ensures OpenBody(c, seqno, body) == None
  {
  }

  lemma OpenWholeIsOpenBody(c: Cipher, seqno: nat, body: bytes, n: nat)
    requires Receivable(c) && |body| >= c.sizes.iv + c.sizes.auth
    requires var len := |body| - c.sizes.iv - c.sizes.auth; n == len || 256 + c.sizes.mac <= n <= len
    ensures OpenWhole(c, seqno, body, n) == OpenBody(c, seqno, body)
  {
    var z := c.sizes;
    var iv, x := body[..z.iv], body[z.iv..|body| - z.auth];
    DecryptLen(c, seqno, iv, x);
    hide OpenLast, StripPadding, Receivable, Lawful, CheckMac;
    LastSuffices(c, seqno, iv, body[|body| - z.auth..], c.decrypt(seqno, iv, x), n);
  }

  lemma {:induction false} FilledFull(caps: seq<nat>, body: bytes, i: nat)
    requires |body| == Sum(caps) && i < |caps|
    ensures |Fill(caps, body)[i].data| == caps[i]
  {
    if i > 0 { FilledFull(caps[1..], body[caps[0]..], i - 1); }
  }

  /** The receiver's buffers are well cut, whatever the record and the reserve. */
  lemma FilledIsWellCut(z: Sizes, len: nat, reserve: Reserve, body: bytes)
    requires 0 < len == |body| && SizesOk(z)
    ensures WellCut(z, Fill(Caps(len, reserve), body))
  {
    var caps := Caps(len, reserve);
    CapsFit(len, reserve);
    FragmentSizes(len + reserve);
    FilledFull(caps, body, 0);
    FilledFull(caps, body, |caps| - 1);
    if |caps| > 1 {
      FirstFragment(len + reserve);
      OnlyFragment(len + reserve);
    }
  }

  lemma OnlyFragment(total: nat)
    requires |FragLens(total)| > 1
    ensures FragLens(total)[0] == RX_BUFSIZE && total >= RX_MIN_BUFSIZE
  {
    FragmentSizes(total);
  }

  // ---------------------------------------------------------------- end to end

  /** Opening the records received, in order, each under the next sequence number. */
  function OpenRecs(c: Cipher, seqno: nat, rs: Recs): Option<bytes> {
    match rs
    case NoRecs => Some([])
    case Then(before, rec) =>
      match OpenRecs(c, seqno, before)
      case None => None
      case Some(done) =>
        match OpenBuffers(c, seqno + Count(before), rec.bufs)
        case None => None
        case Some(plain) => Some(done + plain)
  }

  /** One record sent is one record framed and opened. */
  lemma RecordCrosses(c: Cipher, k: Kind, seqno: nat, r: Reserves, found: Recs,
                                         done: bytes, plain: bytes, rest: bytes)
    returns (found': Recs)
    requires Receivable(c) && |plain| <= TX_BUFSIZE && OpenRecs(c, seqno, found) == Some(done)
    requires plain != [] || c.sizes.iv + c.sizes.mac + c.sizes.block + c.sizes.auth > 0
    ensures Frame(r, found, Record(c, k, seqno + Count(found), plain) + rest) == Frame(r, found', rest)
    ensures Count(found') == Count(found) + 1 && OpenRecs(c, seqno, found') == Some(done + plain)
  {
    hide Record, RecordTail, Frame, OpenBuffers, OpenBody, Lawful, Receivable, Fill, Caps, SizesOk, GetU16, OpenRecs, Contents;
    var n := seqno + Count(found);
    LawfulSizes(c);
    var rec := Record(c, k, n, plain);
    RecordShape(c, k, n, plain, rest);
    OpenTail(c, n, plain);
    BodyNonEmpty(c, n, plain);
    var body := c.iv(n, |plain|) + RecordTail(c, n, plain);
    var header := Cut(rec, rest, body);
    FrameOne(r, found, header, body, rest);
    var reserve := r(Count(found));
    var bufs := Fill(Caps(|body|, reserve), body);
    found' := Recs.Then(found, Rec(header, bufs));
    FilledIsWellCut(c.sizes, |body|, reserve, body);
    BuffersAreTheRecord(|body|, reserve, body);
    OpenBuffersIsOpenBody(c, n, bufs);
    OpenOneMore(c, seqno, found, Rec(header, bufs), done, plain);
  }

  lemma LawfulSizes(c: Cipher)
    requires Receivable(c)
    ensures Lawful(c) && SizesOk(c.sizes)
  {
  }

  /** The header of a record whose length field matches its body. */
  lemma Cut(rec: bytes, rest: bytes, body: bytes) returns (header: bytes)
    requires |rec| >= 5 && 5 + GetU16(rec + rest, 3) == |rec| && (rec + rest)[5..|rec|] == body
    ensures |header| == 5 && GetU16(header, 3) == |body| && rec + rest == header + body + rest
  {
    var stream := rec + rest;
    header := stream[..5];
    assert rec == header + body;
  }

  lemma OpenOneMore(c: Cipher, seqno: nat, found: Recs, rec: Rec, done: bytes, plain: bytes)
    requires OpenRecs(c, seqno, found) == Some(done)
    requires OpenBuffers(c, seqno + Count(found), rec.bufs) == Some(plain)
    ensures var more := Recs.Then(found, rec);
            OpenRecs(c, seqno, more) == Some(done + plain) && Count(more) == Count(found) + 1
  {
    hide OpenBuffers;
  }

  lemma BodyNonEmpty(c: Cipher, seqno: nat, plain: bytes)
    requires Lawful(c)
    requires plain != [] || c.sizes.iv + c.sizes.mac + c.sizes.block + c.sizes.auth > 0
    ensures |c.iv(seqno, |plain|) + RecordTail(c, seqno, plain)| > 0
  {
    CipherLens(c, seqno, [], plain);
    TrailerLen(c, seqno, plain);
    CipherLens(c, seqno, c.iv(seqno, |plain|), Inner(c, seqno, plain));
    assert c.sizes.block > 0 ==> |Padding(c.sizes, |plain| + c.sizes.mac)| > 0;
  }

  lemma {:induction false} PayloadCrossesFrom(c: Cipher, k: Kind, seqno: nat, r: Reserves, found: Recs,
                                              done: bytes, payload: bytes)
    requires Receivable(c) && OpenRecs(c, seqno, found) == Some(done)
    requires payload != [] || c.sizes.iv + c.sizes.mac + c.sizes.block + c.sizes.auth > 0
    ensures var t := Frame(r, found, Records(c, k, seqno + Count(found), payload));
            !t.stalled && t.rest == [] && OpenRecs(c, seqno, t.found) == Some(done + payload)
    decreases |payload|
  {
    hide Record, Records, Frame, OpenRecs, Receivable, SizesOk, Lawful;
    LawfulSizes(c);
    var n := RecordLen(|payload|);
    var plain, more := payload[..n], payload[n..];
    var seqno' := seqno + Count(found);
    RecordsUnfold(c, k, seqno', payload);
    var rest := if n < |payload| then Records(c, k, seqno' + 1, more) else [];
    var found' := RecordCrosses(c, k, seqno, r, found, done, plain, rest);
    if n < |payload| {
      PayloadCrossesFrom(c, k, seqno, r, found', done + plain, more);
      assert done + plain + more == done + payload;
    } else {
      assert plain == payload;
      FrameNothing(r, found');
    }
  }

  lemma FrameNothing(r: Reserves, found: Recs)
    ensures Frame(r, found, []) == Framed(found, [], false)
  {
  }

  /** A payload of any length crosses: the records built in place, received in whatever pieces
      into rotated buffers and opened from their first and last buffers, give back exactly the
      payload and leave nothing over. */
  lemma PayloadCrosses(c: Cipher, k: Kind, seqno: nat, r: Reserves, payload: bytes)
    requires Receivable(c)
    requires payload != [] || c.sizes.iv + c.sizes.mac + c.sizes.block + c.sizes.auth > 0
    ensures var t := Frame(r, NoRecs, Records(c, k, seqno, payload));
            !t.stalled && t.rest == [] && OpenRecs(c, seqno, t.found) == Some(payload)
  {
    hide Records, Frame, Receivable;
    PayloadCrossesFrom(c, k, seqno, r, NoRecs, [], payload);
    assert [] + payload == payload;
  }

  /** The laws asked of a suite can be met, here with the sizes of AES-128-CBC with SHA-1. */
  function NullCipher(): Cipher {
    Cipher(Sizes(16, 20, 16, 0), (_, _) => Zeros(16), (_, _) => Zeros(20), (_, _, p) => p, (_, _, _) => [],
           (_, _, p) => p)
  }

  lemma CipherLawsSatisfiable()
    ensures Receivable(NullCipher())
  {
  }
}
