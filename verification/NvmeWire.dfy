/**
 PDUs as a controller writes them, byte by byte (section 3.6 of the NVMe TCP Transport
 Specification): every multi-byte field is little-endian.
 */
module NvmeWire {
  import opened Bytes
  import opened NvmeSession
  import opened NvmeFraming
  import NvmeStack

  // ---------------------------------------------------------------- the bytes

  function Two(n: nat): bytes { [n % 256, n / 256 % 256] }

  function Four(n: nat): bytes { [n % 256, n / 256 % 256, n / 65536 % 256, n / 16777216 % 256] }

  /** The header of a C2HData PDU with any announced length and data offset. */
  function DataHeader(flags: byte, hlen: byte, pdo: byte, plen: nat, cid: nat, ttag: nat, offset: nat, len: nat): bytes {
    [7, flags, hlen, pdo] + Four(plen) + Two(cid) + Two(ttag) + Four(offset) + Four(len) + [0, 0, 0, 0]
  }

  /** A Response PDU: the completion is its last sixteen bytes. */
  function Response(flags: byte, hlen: byte, pdo: byte, result: nat, high: nat, head: nat, queue: nat, cid: nat, status: nat): bytes {
    [5, flags, hlen, pdo] + Four(24) + Four(result) + Four(high) + Two(head) + Two(queue) + Two(cid) + Two(status)
  }

  lemma TwoRead(n: nat, s: bytes, i: nat)
    requires n < 0x1_0000 && i + 2 <= |s| && s[i..i + 2] == Two(n)
    ensures GetLe16(s, i) == n
  {
    assert s[i] == s[i..i + 2][0] && s[i + 1] == s[i..i + 2][1];
  }

  lemma FourRead(n: nat, s: bytes, i: nat)
    requires n < 0x1_0000_0000 && i + 4 <= |s| && s[i..i + 4] == Four(n)
    ensures GetLe32(s, i) == n
  {
    var w := s[i..i + 4];
    assert s[i] == w[0] && s[i + 1] == w[1] && s[i + 2] == w[2] && s[i + 3] == w[3];
    Halves(n);
  }

  lemma Halves(n: nat)
    requires n < 0x1_0000_0000
    ensures n == n % 256 + 256 * (n / 256 % 256) + 65536 * (n / 65536 % 256) + 16777216 * (n / 16777216 % 256)
  {
    var a := n / 256;
    var b := a / 256;
    var c := b / 256;
    assert n == 256 * a + n % 256 && a == 256 * b + a % 256 && b == 256 * c + b % 256 && c < 256;
    assert n / 65536 == b && n / 16777216 == c;
  }

  lemma DataHeaderFields(flags: byte, hlen: byte, pdo: byte, plen: nat, cid: nat, ttag: nat, offset: nat, len: nat)
    requires plen < 0x1_0000_0000 && offset < 0x1_0000_0000
    ensures var hdr := DataHeader(flags, hlen, pdo, plen, cid, ttag, offset, len);
            |hdr| == 24 && hdr[0] == 7 && GetLe32(hdr, 4) == plen && GetLe32(hdr, 12) == offset
  {
    var hdr := DataHeader(flags, hlen, pdo, plen, cid, ttag, offset, len);
    assert hdr[4..8] == Four(plen) && hdr[12..16] == Four(offset);
    FourRead(plen, hdr, 4);
    FourRead(offset, hdr, 12);
  }

  // ---------------------------------------------------------------- data

  /** What follows once the session has had a PDU. */
  ghost predicate GoesOn<S>(h: Handler<S>, s: S, offset: nat, p: Pdu, rest: bytes, r: Parsed<S>) {
    var (t, outcome) := h(s, p);
    match outcome
    case Accepted => r == Parse(h, t, offset + |p.payload|, rest)
    case AcceptedAndSent => r == Parse(h, t, 0, rest)
    case Deferred => r.state == t && r.deferred && !r.failed && r.rest == p.header + p.payload && r.dropped == rest
    case Refused => r.state == t && r.failed
  }

  /** A C2HData PDU whose length and offset fit is dispatched with exactly its payload, whatever
      the session and whatever follows. */
  lemma DataDispatched<S>(h: Handler<S>, s: S, flags: byte, hlen: byte, pdo: byte, cid: nat, ttag: nat,
                          offset: nat, payload: bytes, rest: bytes)
    requires |payload| <= 4096 && offset < 0x1_0000_0000
    ensures var hdr := DataHeader(flags, hlen, pdo, 24 + |payload|, cid, ttag, offset, |payload|);
            GoesOn(h, s, offset, Pdu(hdr, payload), rest, Parse(h, s, offset, hdr + payload + rest))
  {
    var hdr := DataHeader(flags, hlen, pdo, 24 + |payload|, cid, ttag, offset, |payload|);
    DataHeaderFields(flags, hlen, pdo, 24 + |payload|, cid, ttag, offset, |payload|);
    assert WellFormed(Pdu(hdr, payload), offset);
    hide DataHeader, WellFormed, Parse;
    ParseOne(h, s, offset, Pdu(hdr, payload), rest);
  }

  /** A C2HData header is refused exactly when it announces less than itself, more than 4096
      bytes, or an offset other than the one reached. */
  lemma DataRefused<S>(h: Handler<S>, s: S, flags: byte, hlen: byte, pdo: byte, plen: nat, cid: nat, ttag: nat,
                       at: nat, len: nat, offset: nat)
    requires plen < 0x1_0000_0000 && at < 0x1_0000_0000
    ensures var hdr := DataHeader(flags, hlen, pdo, plen, cid, ttag, at, len);
            var r := Parse(h, s, offset, hdr);
            && (plen < 24 || plen > 4120 || at != offset ==> r.failed && r.state == s)
            && (24 < plen <= 4120 && at == offset ==> !r.failed && r.state == s && r.rest == hdr)
  {
    var hdr := DataHeader(flags, hlen, pdo, plen, cid, ttag, at, len);
    DataHeaderFields(flags, hlen, pdo, plen, cid, ttag, at, len);
    assert hdr[..24] == hdr;
    hide DataHeader, Dispatched;
  }

  // ---------------------------------------------------------------- completions and the rest

  lemma ResponseFields(flags: byte, hlen: byte, pdo: byte, result: nat, high: nat, head: nat, queue: nat, cid: nat, status: nat)
    requires result < 0x1_0000_0000 && cid < 0x1_0000 && status < 0x1_0000
    ensures var hdr := Response(flags, hlen, pdo, result, high, head, queue, cid, status);
            |hdr| == 24 && hdr[0] == 5 && NvmeStack.CompletionOf(hdr) == Completion(cid, status, result)
  {
    var hdr := Response(flags, hlen, pdo, result, high, head, queue, cid, status);
    assert hdr[8..12] == Four(result) && hdr[20..22] == Two(cid) && hdr[22..24] == Two(status);
    FourRead(result, hdr, 8);
    TwoRead(cid, hdr, 20);
    TwoRead(status, hdr, 22);
  }

  /** A Response PDU is dispatched without payload, and the session gets exactly the identifier,
      status and result written into it. */
  lemma ResponseDispatched(w: NvmeStack.Wiring, a: NvmeStack.Admin, offset: nat, flags: byte, hlen: byte, pdo: byte, result: nat,
                           high: nat, head: nat, queue: nat, cid: nat, status: nat, rest: bytes)
    requires result < 0x1_0000_0000 && cid < 0x1_0000 && status < 0x1_0000 && a.session.stuck.NoPdu?
    ensures var hdr := Response(flags, hlen, pdo, result, high, head, queue, cid, status);
            && NvmeStack.EventOf(w, a, Pdu(hdr, []))
               == Some(CompletionArrives(Completion(cid, status, result), w.choices(a.handled).1))
            && GoesOn(NvmeStack.Handling(w), a, offset, Pdu(hdr, []), rest,
                      Parse(NvmeStack.Handling(w), a, offset, hdr + rest))
  {
    var hdr := Response(flags, hlen, pdo, result, high, head, queue, cid, status);
    ResponseFields(flags, hlen, pdo, result, high, head, queue, cid, status);
    assert WellFormed(Pdu(hdr, []), offset);
    assert hdr + [] + rest == hdr + rest;
    hide Response, WellFormed, Parse, NvmeStack.CompletionOf, NvmeStack.Handling;
    ParseOne(NvmeStack.Handling(w), a, offset, Pdu(hdr, []), rest);
  }

  /** An ICResp is 128 bytes and is accepted exactly when its format version is zero. */
  lemma IcRespChecked<S>(h: Handler<S>, s: S, offset: nat, common: bytes, pfv: nat, tail: bytes, rest: bytes)
    requires |common| == 7 && pfv < 0x1_0000 && |tail| == 118
    ensures var hdr := [1] + common + Two(pfv) + tail;
            var r := Parse(h, s, offset, hdr + rest);
            if pfv == 0 then GoesOn(h, s, offset, Pdu(hdr, []), rest, r) else r.failed && r.state == s
  {
    var hdr := [1] + common + Two(pfv) + tail;
    assert hdr[8..10] == Two(pfv);
    TwoRead(pfv, hdr, 8);
    hide GetLe16, Dispatched;
    if pfv == 0 {
      assert WellFormed(Pdu(hdr, []), offset);
      assert hdr + [] + rest == hdr + rest;
      hide Parse, WellFormed;
      ParseOne(h, s, offset, Pdu(hdr, []), rest);
      hide *;
      DispatchedGoesOn(h, s, offset, Pdu(hdr, []), rest);
    } else {
      hide Parse;
      ParseBadHeader(h, s, offset, hdr, rest);
    }
  }

  lemma DispatchedGoesOn<S>(h: Handler<S>, s: S, offset: nat, p: Pdu, rest: bytes)
    ensures GoesOn(h, s, offset, p, rest, Dispatched(h, s, offset, p, rest))
  {
    hide Parse;
  }

  /** Terminate requests and unknown types are refused at their eighth byte, and nothing a host
      would send is ever dispatched to the session. */
  lemma ForeignRefused<S>(h: Handler<S>, s: S, offset: nat, stream: bytes)
    requires |stream| >= 128 && stream[0] != 1 && stream[0] != 5 && stream[0] != 7 && stream[0] != 9
    ensures Parse(h, s, offset, stream).failed && Parse(h, s, offset, stream).state == s
  {
    hide Dispatched;
  }
}
