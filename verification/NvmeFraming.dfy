/**
 NVMe/TCP PDU framing (section 3.6 of the NVMe TCP Transport Specification): the incremental
 receiver of the driver, and the one-shot parser it is proved to refine.
 */
module NvmeFraming {
  import opened Bytes

  const PDU_ICREQ := 0x00
  const PDU_ICRESP := 0x01
  const PDU_COMMAND := 0x04
  const PDU_RESPONSE := 0x05
  const PDU_C2HDATA := 0x07
  const PDU_R2T := 0x09
  const COMMON_LEN := 8
  const MAX_HEADER := 128
  const MAX_CMD_DATA := 4096

  datatype Pdu = Pdu(header: bytes, payload: bytes)

  /** What the session does with a complete PDU: accept it, accept it and transmit a command
      (which restarts the data offset), defer it, or fail. */
  datatype Outcome = Accepted | AcceptedAndSent | Deferred | Refused

  /** The session behind the parser: what a complete PDU does to its state. */
  type Handler<!S> = (S, Pdu) -> (S, Outcome)

  function GetLe16(s: bytes, i: nat): nat
    requires i + 2 <= |s|
  {
    (s[i] as int) + 256 * (s[i + 1] as int)
  }

  function GetLe32(s: bytes, i: nat): nat
    requires i + 4 <= |s|
  {
    (s[i] as int) + 256 * (s[i + 1] as int) + 65536 * (s[i + 2] as int) + 16777216 * (s[i + 3] as int)
  }

  /** Header length by PDU type, for a COMMAND as the PDU says; zero for the types the host
      does not know. */
  function HeaderLen(t: byte, hlen: byte): nat {
    if t == PDU_ICREQ || t == PDU_ICRESP then 128
    else if t == PDU_COMMAND && hlen <= MAX_HEADER then if hlen < COMMON_LEN then COMMON_LEN else hlen
    else if t == PDU_RESPONSE || t == PDU_C2HDATA || t == PDU_R2T then 24
    else 0
  }

  /** Payload length announced by a header (negative if plen is shorter than the header). */
  function DataLen(header: bytes): int
    requires |header| >= COMMON_LEN
  {
    if header[0] == PDU_C2HDATA then GetLe32(header, 4) - 24 else 0
  }

  /** The checks made on a complete header, given the data already received for the command. */
  predicate HeaderOk(header: bytes, offset: nat)
    requires |header| >= COMMON_LEN
  {
    if |header| < 24 then false
    else if header[0] == PDU_ICRESP then GetLe16(header, 8) == 0
    else if header[0] == PDU_C2HDATA then 0 <= DataLen(header) <= MAX_CMD_DATA && GetLe32(header, 12) == offset
    else header[0] == PDU_RESPONSE || header[0] == PDU_R2T
  }

  /** The session's state, the data offset at the last PDU boundary, the bytes held, whether they
      are a complete PDU that was deferred, and the bytes dropped behind it. */
  datatype Parsed<S> = Parsed(state: S, offset: nat, rest: bytes, failed: bool, deferred: bool, dropped: bytes)

  function Holding<S>(s: S, offset: nat, rest: bytes): Parsed<S> { Parsed(s, offset, rest, false, false, []) }

  function Failed<S>(s: S, offset: nat): Parsed<S> { Parsed(s, offset, [], true, false, []) }

  /** What follows once the session has had a PDU: a deferred one stays in the parser, and the
      bytes after it are dropped. */
  function Dispatched<S>(h: Handler<S>, s: S, offset: nat, p: Pdu, rest: bytes): Parsed<S>
    decreases |rest|, 1
  {
    var (s1, outcome) := h(s, p);
    match outcome
    case Refused => Failed(s1, offset)
    case Deferred => Parsed(s1, offset, p.header + p.payload, false, true, rest)
    case Accepted => Parse(h, s1, offset + |p.payload|, rest)
    case AcceptedAndSent => Parse(h, s1, 0, rest)
  }

  /** The one-shot parser. */
  function Parse<S>(h: Handler<S>, s: S, offset: nat, stream: bytes): Parsed<S>
    decreases |stream|, 0
  {
    if |stream| < COMMON_LEN then Holding(s, offset, stream)
    else
      var n := HeaderLen(stream[0], stream[2]);
      if n == 0 then Failed(s, offset)
      else if |stream| < n then Holding(s, offset, stream)
      else if !HeaderOk(stream[..n], offset) then Failed(s, offset)
      else
        var len := DataLen(stream[..n]);
        if |stream| < n + len then Holding(s, offset, stream)
        else Dispatched(h, s, offset, Pdu(stream[..n], stream[n..n + len]), stream[n + len..])
  }

  /** Continue when more bytes arrive; a deferred PDU is dispatched again before them. */
  function Resume<S>(h: Handler<S>, r: Parsed<S>, more: bytes): Parsed<S> {
    if r.failed || more == [] then r else Parse(h, r.state, r.offset, r.rest + more)
  }

  /** A stream that so far holds only part of a PDU. */
  predicate Unfinished(offset: nat, a: bytes) {
    || |a| < COMMON_LEN
    || (HeaderLen(a[0], a[2]) > |a|)
    || (HeaderLen(a[0], a[2]) != 0 && HeaderOk(a[..HeaderLen(a[0], a[2])], offset)
        && |a| < HeaderLen(a[0], a[2]) + DataLen(a[..HeaderLen(a[0], a[2])]))
  }

  /** A stream with a complete header that passes the checks. */
  predicate HeaderValid(offset: nat, a: bytes) {
    |a| >= COMMON_LEN && 0 < HeaderLen(a[0], a[2]) <= |a| && HeaderOk(a[..HeaderLen(a[0], a[2])], offset)
  }

  lemma ParseInvalid<S>(h: Handler<S>, s: S, offset: nat, a: bytes)
    requires !Unfinished(offset, a) && !HeaderValid(offset, a)
    ensures Parse(h, s, offset, a) == Failed(s, offset)
  {
    hide DataLen, HeaderOk, Dispatched;
  }

  lemma ParseUnfinished<S>(h: Handler<S>, s: S, offset: nat, a: bytes)
    requires Unfinished(offset, a)
    ensures Parse(h, s, offset, a) == Holding(s, offset, a)
  {
  }

  /** The complete PDU at the front of a stream. */
  lemma TakeFirst(offset: nat, a: bytes) returns (p: Pdu, rest: bytes)
    requires !Unfinished(offset, a) && HeaderValid(offset, a)
    ensures WellFormed(p, offset) && a == p.header + p.payload + rest && |rest| < |a|
  {
    var n := HeaderLen(a[0], a[2]);
    HeaderOkBounds(a[..n], offset);
    hide HeaderLen, HeaderOk, DataLen;
    var end := n + DataLen(a[..n]);
    p, rest := Pdu(a[..n], a[n..end]), a[end..];
  }

  /** Parsing a concatenation resumes the parse of its first part, unless that ended by deferring
      a PDU, which drops whatever follows in the same delivery. */
  lemma {:induction false} ParseAppend<S>(h: Handler<S>, s: S, offset: nat, a: bytes, b: bytes)
    ensures Parse(h, s, offset, a + b) == CarriedOn(h, Parse(h, s, offset, a), b)
    decreases |a|
  {
    if Unfinished(offset, a) {
      ParseUnfinished(h, s, offset, a);
    } else {
      var n := HeaderLen(a[0], a[2]);
      hide Parse, DataLen, HeaderOk, HeaderLen, Dispatched;
      if !HeaderValid(offset, a) {
        assert n > 0 ==> (a + b)[..n] == a[..n];
        ParseInvalid(h, s, offset, a);
        ParseInvalid(h, s, offset, a + b);
      } else {
        var p, rest := TakeFirst(offset, a);
        assert a + b == p.header + p.payload + (rest + b);
        ParseOne(h, s, offset, p, rest);
        ParseOne(h, s, offset, p, rest + b);
        hide Unfinished, WellFormed;
        var next := NextOffset(h(s, p).1, offset, p);
        ParseAppend(h, h(s, p).0, next, rest, b);
        DispatchAppend(h, s, offset, p, rest, b);
      }
    }
  }

  /** The parse of the first part, carried on. */
  function CarriedOn<S>(h: Handler<S>, r: Parsed<S>, b: bytes): Parsed<S> {
    if r.failed then r
    else if r.deferred then r.(dropped := r.dropped + b)
    else Parse(h, r.state, r.offset, r.rest + b)
  }

  lemma DispatchAppend<S>(h: Handler<S>, s: S, offset: nat, p: Pdu, rest: bytes, b: bytes)
    requires var next := NextOffset(h(s, p).1, offset, p);
             Parse(h, h(s, p).0, next, rest + b) == CarriedOn(h, Parse(h, h(s, p).0, next, rest), b)
    ensures Dispatched(h, s, offset, p, rest + b) == CarriedOn(h, Dispatched(h, s, offset, p, rest), b)
  {
    hide Parse;
  }

  function Concat(chunks: seq<bytes>): bytes {
    if chunks == [] then [] else chunks[0] + Concat(chunks[1..])
  }

  function FeedAll<S>(h: Handler<S>, r: Parsed<S>, chunks: seq<bytes>): Parsed<S>
    decreases |chunks|
  {
    if chunks == [] then r else FeedAll(h, Resume(h, r, chunks[0]), chunks[1..])
  }

  /** Framing is independent of segmentation: whatever the session behind the parser, as long as
      it defers nothing, it gets the same PDUs with the same headers and payloads however the
      stream is cut, and the same unfinished prefix is kept. */
  lemma {:induction false} SegmentationIrrelevant<S>(h: Handler<S>, s: S, offset: nat, held: bytes, chunks: seq<bytes>)
    requires Parse(h, s, offset, held) == Holding(s, offset, held)
    requires !Parse(h, s, offset, held + Concat(chunks)).deferred
    ensures FeedAll(h, Holding(s, offset, held), chunks) == Parse(h, s, offset, held + Concat(chunks))
    decreases |chunks|
  {
    hide Parse;
    if chunks == [] {
      assert held + [] == held;
    } else {
      var r := Parse(h, s, offset, held + chunks[0]);
      var rest := Concat(chunks[1..]);
      ParseAppend(h, s, offset, held + chunks[0], rest);
      assert held + chunks[0] + rest == held + Concat(chunks);
      if chunks[0] == [] { assert held + chunks[0] == held; }
      assert r == Resume(h, Holding(s, offset, held), chunks[0]);
      if r.failed {
        FailedStays(h, r, chunks[1..]);
      } else {
        ParseSettles(h, s, offset, held + chunks[0]);
        SegmentationIrrelevant(h, r.state, r.offset, r.rest, chunks[1..]);
      }
    }
  }

  lemma {:induction false} FailedStays<S>(h: Handler<S>, r: Parsed<S>, chunks: seq<bytes>)
    requires r.failed
    ensures FeedAll(h, r, chunks) == r
    decreases |chunks|
  {
    hide Parse;
    if chunks != [] { FailedStays(h, r, chunks[1..]); }
  }

  /** Bytes are dropped only behind a deferred PDU. */
  lemma {:induction false} DropsBehindDeferred<S>(h: Handler<S>, s: S, offset: nat, a: bytes)
    ensures !Parse(h, s, offset, a).deferred ==> Parse(h, s, offset, a).dropped == []
    decreases |a|
  {
    if Unfinished(offset, a) {
      ParseUnfinished(h, s, offset, a);
    } else if HeaderValid(offset, a) {
      hide Parse, Unfinished, HeaderValid, WellFormed;
      var p, rest := TakeFirst(offset, a);
      ParseOne(h, s, offset, p, rest);
      DropsBehindDeferred(h, h(s, p).0, NextOffset(h(s, p).1, offset, p), rest);
    } else {
      ParseInvalid(h, s, offset, a);
    }
  }

  /** What is kept is an unfinished PDU, unless one was deferred: parsing it dispatches nothing. */
  lemma ParseSettles<S>(h: Handler<S>, s: S, offset: nat, stream: bytes)
    ensures var r := Parse(h, s, offset, stream);
            !r.failed && !r.deferred ==> Parse(h, r.state, r.offset, r.rest) == r == Holding(r.state, r.offset, r.rest)
  {
    hide Parse;
    DropsBehindDeferred(h, s, offset, stream);
    ParseAppend(h, s, offset, stream, []);
    var r := Parse(h, s, offset, stream);
    assert stream + [] == stream && r.rest + [] == r.rest;
  }

  // ---------------------------------------------------------------- encoded PDUs

  /** A PDU as a controller sends it, whose length field matches its payload. */
  predicate WellFormed(p: Pdu, offset: nat) {
    && |p.header| >= 24 && |p.header| == HeaderLen(p.header[0], p.header[2]) && HeaderOk(p.header, offset)
    && |p.payload| == DataLen(p.header)
  }

  function OnWire(ps: seq<Pdu>): bytes {
    if ps == [] then [] else ps[0].header + ps[0].payload + OnWire(ps[1..])
  }

  function NextOffset(outcome: Outcome, offset: nat, p: Pdu): nat {
    if outcome == AcceptedAndSent then 0 else offset + |p.payload|
  }

  /** The PDUs form a run the session accepts, each data PDU at the offset reached. */
  predicate Accepts<S>(h: Handler<S>, s: S, offset: nat, ps: seq<Pdu>)
    decreases |ps|
  {
    ps != [] ==>
      && WellFormed(ps[0], offset) && h(s, ps[0]).1 != Refused && h(s, ps[0]).1 != Deferred
      && Accepts(h, h(s, ps[0]).0, NextOffset(h(s, ps[0]).1, offset, ps[0]), ps[1..])
  }

  /** The session after handling PDUs one by one. */
  function HandleAll<S>(h: Handler<S>, s: S, ps: seq<Pdu>): S
    decreases |ps|
  {
    if ps == [] then s else HandleAll(h, h(s, ps[0]).0, ps[1..])
  }

  /** One complete PDU at the front of a stream. */
  lemma ParseOne<S>(h: Handler<S>, s: S, offset: nat, p: Pdu, rest: bytes)
    requires WellFormed(p, offset)
    ensures Parse(h, s, offset, p.header + p.payload + rest) == Dispatched(h, s, offset, p, rest)
  {
    hide DataLen, HeaderOk, HeaderLen, Dispatched;
    var a := p.header + p.payload + rest;
    var n, end := |p.header|, |p.header| + |p.payload|;
    assert a[0] == p.header[0] && a[..n] == p.header;
    assert a[n..end] == p.payload && a[end..] == rest;
  }

  /** Parsing inverts encoding: the session has handled exactly the PDUs sent, in order. */
  lemma {:induction false} ParseInvertsEncoding<S>(h: Handler<S>, s: S, offset: nat, ps: seq<Pdu>)
    requires Accepts(h, s, offset, ps)
    ensures var r := Parse(h, s, offset, OnWire(ps));
            !r.failed && !r.deferred && r.state == HandleAll(h, s, ps) && r.rest == []
    decreases |ps|
  {
    if ps != [] {
      hide Parse, WellFormed;
      ParseOne(h, s, offset, ps[0], OnWire(ps[1..]));
      ParseInvertsEncoding(h, h(s, ps[0]).0, NextOffset(h(s, ps[0]).1, offset, ps[0]), ps[1..]);
    } else {
      ParseEmpty(h, s, offset);
    }
  }

  lemma HeaderLens(t: byte, hlen: byte)
    ensures HeaderLen(t, hlen) == 0 || COMMON_LEN <= HeaderLen(t, hlen) <= MAX_HEADER
  {
  }

  lemma HeaderOkBounds(header: bytes, offset: nat)
    requires |header| >= COMMON_LEN && HeaderOk(header, offset)
    ensures |header| >= 24 && 0 <= DataLen(header) <= MAX_CMD_DATA
  {
  }

  lemma ParseBadType<S>(h: Handler<S>, s: S, offset: nat, stream: bytes)
    requires |stream| >= COMMON_LEN && HeaderLen(stream[0], stream[2]) == 0
    ensures Parse(h, s, offset, stream) == Failed(s, offset)
  {
  }

  lemma ParseBadHeader<S>(h: Handler<S>, s: S, offset: nat, header: bytes, rest: bytes)
    requires |header| >= COMMON_LEN && HeaderLen(header[0], header[2]) == |header| && !HeaderOk(header, offset)
    ensures Parse(h, s, offset, header + rest) == Failed(s, offset)
  {
    hide HeaderOk, HeaderLen, Dispatched;
    assert (header + rest)[..|header|] == header;
  }

  lemma ParseEmpty<S>(h: Handler<S>, s: S, offset: nat)
    ensures Parse(h, s, offset, []) == Holding(s, offset, [])
  {
  }

  // ---------------------------------------------------------------- the receiver

  /** The receive state of one queue: header and payload buffers filled as bytes arrive. */
  class Receiver<!S> {
    const handler: Handler<S>
    const hdr: array<byte>
    const cmdBuf: array<byte>
    var hdrLen: nat
    var hdrExpect: nat
    var dataLen: nat
    var dataExpect: nat
    var cmdDataOffset: nat
    var failed: bool
    var state: S                      // the session behind the parser
    var dropped: bytes                // freed unread behind a deferred PDU

    /** The data offset at the last PDU boundary. */
    ghost function Base(): int
      reads this
    {
      cmdDataOffset - dataLen
    }

    /** The PDU held in the buffers so far. */
    ghost function Held(): bytes
      requires Shaped()
      reads this, hdr, cmdBuf
    {
      hdr[..hdrLen] + cmdBuf[..dataLen]
    }

    ghost predicate Shaped()
      reads this
    {
      && hdr.Length == MAX_HEADER && cmdBuf.Length == MAX_CMD_DATA && hdr != cmdBuf
      && hdrLen <= hdrExpect <= MAX_HEADER && dataLen <= dataExpect <= MAX_CMD_DATA
      && dataLen <= cmdDataOffset
    }

    /** The counters agree with the bytes held. */
    ghost predicate Valid()
      reads this, hdr, cmdBuf
    {
      && Shaped()
      && (hdrLen < COMMON_LEN ==> hdrExpect == COMMON_LEN)
      && (hdrLen >= COMMON_LEN ==> hdrExpect == HeaderLen(hdr[0], hdr[2]) && hdrExpect >= COMMON_LEN)
      && (Stuck() || dropped == [])
      && (if hdrLen < hdrExpect then dataExpect == 0
          else HeaderOk(hdr[..hdrLen], Base()) && dataExpect == DataLen(hdr[..hdrLen]))
    }

    /** The PDU held is complete: it was deferred. */
    ghost predicate Stuck()
      reads this
    {
      hdrLen == hdrExpect && dataLen == dataExpect
    }

    ghost function View(): Parsed<S>
      requires Valid()
      reads this, hdr, cmdBuf
    {
      if failed then Failed(state, Base()) else Parsed(state, Base(), Held(), false, Stuck(), dropped)
    }

    constructor (h: Handler<S>, s: S)
      ensures Valid() && !failed && fresh(hdr) && fresh(cmdBuf) && handler == h
      ensures View() == Holding(s, 0, [])
    {
      handler, state := h, s;
      hdr := new byte[MAX_HEADER](_ => 0);
      cmdBuf := new byte[MAX_CMD_DATA](_ => 0);
      hdrLen, hdrExpect, dataLen, dataExpect := 0, COMMON_LEN, 0, 0;
      cmdDataOffset, failed, dropped := 0, false, [];
    }

    /** Expect a new PDU header. */
    method Reset()
      modifies this`hdrLen, this`hdrExpect, this`dataLen, this`dataExpect
      ensures hdrLen == dataLen == dataExpect == 0 && hdrExpect == COMMON_LEN
    {
      hdrLen, hdrExpect, dataLen, dataExpect := 0, COMMON_LEN, 0, 0;
    }

    method TakeHeader(data: bytes)
      requires Shaped() && hdrLen + |data| <= hdrExpect
      modifies hdr, this`hdrLen
      ensures Shaped() && hdrLen == old(hdrLen) + |data|
      ensures hdr[..hdrLen] == old(hdr[..hdrLen]) + data
    {
      for i := 0 to |data|
        invariant hdr[..hdrLen] == old(hdr[..hdrLen]) && hdr[hdrLen..hdrLen + i] == data[..i]
        modifies hdr
      {
        hdr[hdrLen + i] := data[i];
      }
      hdrLen := hdrLen + |data|;
    }

    method TakeData(data: bytes)
      requires Shaped() && dataLen + |data| <= dataExpect
      modifies cmdBuf, this`dataLen, this`cmdDataOffset
      ensures Shaped() && dataLen == old(dataLen) + |data| && Base() == old(Base())
      ensures cmdBuf[..dataLen] == old(cmdBuf[..dataLen]) + data
    {
      for i := 0 to |data|
        invariant cmdBuf[..dataLen] == old(cmdBuf[..dataLen]) && cmdBuf[dataLen..dataLen + i] == data[..i]
        modifies cmdBuf
      {
        cmdBuf[dataLen + i] := data[i];
      }
      dataLen := dataLen + |data|;
      cmdDataOffset := cmdDataOffset + |data|;
    }

    ghost predicate Complete()
      reads this, hdr, cmdBuf
    {
      Valid() && Stuck() && !failed
    }

    lemma CompleteIsWellFormed()
      requires Complete()
      ensures Base() >= 0 && WellFormed(Pdu(hdr[..hdrLen], cmdBuf[..dataLen]), Base())
      ensures hdrLen >= 24
    {
    }

    /** `data` has been consumed out of `data + rest`: the parse is over, ended by a deferral that
        drops the rest, or goes on. */
    ghost predicate Follows(t: Parsed<S>, rest: bytes)
      reads this, hdr, cmdBuf
    {
      Shaped() && if failed then t.failed && t.state == state
                  else Valid() && if Stuck() then View() == t
                                  else Parse(handler, state, Base(), Held() + rest) == t
    }

    /** Dispatch a complete PDU to the session, and make ready for the next unless it is
        deferred. */
    method PduComplete(rest: bytes)
      requires Complete()
      modifies this
      ensures Follows(Parse(handler, old(state), old(Base()), old(Held()) + rest), rest)
    {
      hide Parse, DataLen, HeaderOk, HeaderLen;
      CompleteIsWellFormed();
      var p := Pdu(hdr[..hdrLen], cmdBuf[..dataLen]);
      ParseOne(handler, state, Base(), p, rest);
      assert p.header + p.payload + rest == Held() + rest;
      var (s1, outcome) := handler(state, p);
      state := s1;
      if outcome == Refused { failed := true; return; }
      if outcome == Deferred { dropped := rest; return; }
      dropped := [];
      if outcome == AcceptedAndSent { cmdDataOffset := 0; }
      Reset();
      assert Held() == [] && [] + rest == rest;
    }

    /** Receive header bytes; at eight bytes the type fixes the header length, and a complete
        header is checked and, if no payload follows, dispatched. */
    method HeaderBytes(data: bytes, rest: bytes)
      requires Valid() && !failed && hdrLen < hdrExpect && |data| <= hdrExpect - hdrLen
      modifies this, hdr
      ensures Follows(Parse(handler, old(state), old(Base()), old(Held()) + (data + rest)), rest)
    {
      hide Parse, DataLen, HeaderOk, HeaderLen;
      ghost var stream := Held() + (data + rest);
      TakeHeader(data);
      ghost var header := hdr[..hdrLen];
      assert Held() + rest == stream && header + rest == stream;
      if hdrLen == COMMON_LEN {
        HeaderLens(hdr[0], hdr[2]);
        var n := HeaderLen(hdr[0], hdr[2]);
        if n == 0 {
          ParseBadType(handler, state, Base(), stream);
          failed := true;
          return;
        }
        hdrExpect := n;
      }
      if hdrLen < hdrExpect { return; }
      if !HeaderOk(hdr[..hdrLen], cmdDataOffset) {
        ParseBadHeader(handler, state, Base(), header, rest);
        failed := true;
        return;
      }
      HeaderOkBounds(hdr[..hdrLen], cmdDataOffset);
      dataExpect := DataLen(hdr[..hdrLen]);
      if dataExpect == 0 {
        assert Held() + rest == stream;
        PduComplete(rest);
      }
    }

    /** Receive payload bytes, dispatching the PDU when the last one is there. */
    method DataBytes(data: bytes, rest: bytes)
      requires Valid() && !failed && hdrLen == hdrExpect && |data| <= dataExpect - dataLen
      modifies this, cmdBuf
      ensures Follows(Parse(handler, old(state), old(Base()), old(Held()) + (data + rest)), rest)
    {
      hide Parse, DataLen, HeaderOk, HeaderLen;
      ghost var stream := Held() + (data + rest);
      TakeData(data);
      assert Held() + rest == stream;
      if dataLen < dataExpect { return; }
      PduComplete(rest);
    }

    /** Consume received bytes.  Whatever the session, the result is that of the one-shot parser
        on the bytes held before followed by those received. */
    method Deliver(iob: bytes)
      requires Valid() && !failed
      modifies this, hdr, cmdBuf
      ensures var t := Resume(handler, old(View()), iob);
              Shaped() && failed == t.failed && state == t.state && (!failed ==> Valid() && View() == t)
    {
      hide Parse, DataLen, HeaderOk, HeaderLen;
      if iob == [] { return; }
      var pos := 0;
      assert iob[0..] == iob;
      ghost var total := Resume(handler, View(), iob);
      while pos < |iob|
        invariant pos <= |iob| && Valid() && !failed && (pos == |iob| ==> !Stuck())
        invariant Parse(handler, state, Base(), Held() + iob[pos..]) == total
        decreases |iob| - pos, if Stuck() then 1 else 0
      {
        var avail := |iob| - pos;
        var want := if hdrLen < hdrExpect then hdrExpect - hdrLen else dataExpect - dataLen;
        var len := if want < avail then want else avail;
        var data := iob[pos..pos + len];
        assert iob[pos..] == data + iob[pos + len..];
        if hdrLen < hdrExpect {
          HeaderBytes(data, iob[pos + len..]);
        } else {
          DataBytes(data, iob[pos + len..]);
        }
        if failed { return; }
        if hdrLen == hdrExpect && dataLen == dataExpect { return; }
        pos := pos + len;
      }
      assert Held() + iob[pos..] == Held();
      ValidSettled();
    }

    /** The bytes held never contain a complete PDU, unless it was deferred. */
    lemma ValidSettled()
      requires Valid() && !failed && !Stuck()
      ensures Parse(handler, state, Base(), Held()) == Holding(state, Base(), Held())
    {
      if hdrLen < hdrExpect {
        assert Held() == hdr[..hdrLen];
      } else {
        hide HeaderLen, Dispatched;
        assert Held()[..hdrLen] == hdr[..hdrLen];
      }
    }
  }
}
