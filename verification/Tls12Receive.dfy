/**
 The TLS 1.2 receive path: each record is received into a list of buffers that is rotated as
 they fill, and handed on when the list has come back to its original order.
 */
module Tls12Receive {
  import opened Bytes

  const RX_BUFSIZE := 4096
  const RX_MIN_BUFSIZE := 512
  const HEADER_LEN := 5

  // ---------------------------------------------------------------- fragment lengths

  /** How a total length is divided: full buffers, the last enlarged rather than tiny. */
  function FragLens(total: nat): seq<nat> {
    if total == 0 then []
    else
      var frag := if total > RX_BUFSIZE then RX_BUFSIZE else total;
      if total - frag < RX_MIN_BUFSIZE then [total] else [frag] + FragLens(total - frag)
  }

  function Sum(ns: seq<nat>): nat { if ns == [] then 0 else ns[0] + Sum(ns[1..]) }

  /** All fragments but the last are exactly 4096 bytes, the last is at least 512 whenever the
      total is (and never above 4607), and together they are the total. */
  lemma {:induction false} FragmentSizes(total: nat)
    ensures var fs := FragLens(total);
            && Sum(fs) == total && (total > 0 ==> fs != [])
            && (forall i :: 0 <= i < |fs| - 1 ==> fs[i] == RX_BUFSIZE)
            && (fs != [] ==> 0 < fs[|fs| - 1] < RX_BUFSIZE + RX_MIN_BUFSIZE)
            && (total >= RX_MIN_BUFSIZE ==> fs[|fs| - 1] >= RX_MIN_BUFSIZE)
    decreases total
  {
    var frag := if total > RX_BUFSIZE then RX_BUFSIZE else total;
    if total > 0 && total - frag >= RX_MIN_BUFSIZE {
      FragmentSizes(total - frag);
    } else if total > 0 {
      assert FragLens(total) == [total] && Sum([total]) == total by { assert [total][1..] == []; }
    }
  }

  lemma FragStep(total: nat, frag: nat, rest: nat)
    requires total > 0
    requires var f := if total > RX_BUFSIZE then RX_BUFSIZE else total;
             if total - f < RX_MIN_BUFSIZE then frag == total && rest == 0 else frag == f && rest == total - f
    ensures FragLens(total) == [frag] + FragLens(rest)
  {
  }

  /** The allocation loop of tls_newdata_process_header. */
  method Allocate(total: nat) returns (frags: seq<nat>)
    ensures frags == FragLens(total)
  {
    frags := [];
    var remaining: nat := total;
    while remaining > 0
      invariant frags + FragLens(remaining) == FragLens(total)
    {
      hide FragLens;
      var fragLen := remaining;
      if fragLen > RX_BUFSIZE { fragLen := RX_BUFSIZE; }
      var left := remaining - fragLen;
      if left < RX_MIN_BUFSIZE {
        fragLen := fragLen + left;
        left := 0;
      }
      FragStep(remaining, fragLen, left);
      assert frags + ([fragLen] + FragLens(left)) == frags + [fragLen] + FragLens(left);
      frags := frags + [fragLen];
      remaining := left;
    }
  }

  // ---------------------------------------------------------------- filling with rotation

  datatype Buf = Buf(cap: nat, data: bytes)

  function Room(b: Buf): int { b.cap - |b.data| }

  predicate Positive(caps: seq<nat>) { forall i :: 0 <= i < |caps| ==> caps[i] > 0 }

  /** The buffers, in their original order, after `body` has been received into them. */
  function Fill(caps: seq<nat>, body: bytes): (r: seq<Buf>)
    ensures |r| == |caps|
  {
    if caps == [] then []
    else if |body| >= caps[0] then [Buf(caps[0], body[..caps[0]])] + Fill(caps[1..], body[caps[0]..])
    else [Buf(caps[0], body)] + Fill(caps[1..], [])
  }

  /** How many of them are full. */
  function FullCount(caps: seq<nat>, body: bytes): (r: nat)
    ensures r <= |caps|
  {
    if caps == [] || |body| < caps[0] then 0 else 1 + FullCount(caps[1..], body[caps[0]..])
  }

  function Rotated<T>(s: seq<T>, i: nat): seq<T>
    requires i <= |s|
  {
    s[i..] + s[..i]
  }

  /** The list as the driver holds it: the buffer being filled comes first. */
  function Queue(caps: seq<nat>, body: bytes): seq<Buf> {
    Rotated(Fill(caps, body), FullCount(caps, body))
  }

  function Contents(bs: seq<Buf>): bytes {
    if bs == [] then [] else bs[0].data + Contents(bs[1..])
  }

  /** The buffers together hold what was received. */
  lemma {:induction false} ContentsOfFill(caps: seq<nat>, body: bytes)
    requires |body| <= Sum(caps)
    ensures Contents(Fill(caps, body)) == body
  {
    if caps != [] {
      if |body| >= caps[0] {
        ContentsOfFill(caps[1..], body[caps[0]..]);
        assert body == body[..caps[0]] + body[caps[0]..];
      } else {
        ContentsOfFill(caps[1..], []);
        assert body + [] == body;
      }
    }
  }

  /** While bytes are missing, the first buffer in the list has room, and the next bytes go to
      it and to no other. */
  lemma {:induction false} FillNext(caps: seq<nat>, body: bytes, x: bytes)
    requires Positive(caps) && |body| < Sum(caps)
    ensures FullCount(caps, body) < |caps|
    ensures var b := Fill(caps, body)[FullCount(caps, body)];
            && Room(b) > 0 && |body| + Room(b) <= Sum(caps)
            && (|x| <= Room(b) ==>
                  && Fill(caps, body + x) == Fill(caps, body)[FullCount(caps, body) := Buf(b.cap, b.data + x)]
                  && FullCount(caps, body + x) == FullCount(caps, body) + if |x| == Room(b) then 1 else 0)
  {
    if |body| >= caps[0] {
      FillNext(caps[1..], body[caps[0]..], x);
      assert (body + x)[..caps[0]] == body[..caps[0]] && (body + x)[caps[0]..] == body[caps[0]..] + x;
    } else {
      FullOfEmpty(caps[1..]);
      if |x| <= caps[0] - |body| && |body + x| == caps[0] {
        assert (body + x)[..caps[0]] == body + x && (body + x)[caps[0]..] == [];
      }
    }
  }

  lemma FullOfEmpty(caps: seq<nat>)
    requires Positive(caps)
    ensures FullCount(caps, []) == 0
  {
  }

  /** The full list is back in its original order. */
  lemma FullQueue(caps: seq<nat>, body: bytes)
    requires |body| == Sum(caps)
    ensures FullCount(caps, body) == |caps| && Queue(caps, body) == Fill(caps, body)
  {
    AllFull(caps, body);
  }

  lemma {:induction false} AllFull(caps: seq<nat>, body: bytes)
    requires |body| == Sum(caps)
    ensures FullCount(caps, body) == |caps|
  {
    if caps != [] { AllFull(caps[1..], body[caps[0]..]); }
  }

  // ---------------------------------------------------------------- framing

  /** A record as handed on: its header and its buffers. */
  datatype Rec = Rec(header: bytes, bufs: seq<Buf>)

  datatype Recs = NoRecs | Then(before: Recs, last: Rec)

  function Count(rs: Recs): nat { if rs == NoRecs then 0 else 1 + Count(rs.before) }

  /** Space left at the start of the first buffer. */
  type Reserve = n: nat | n < RX_MIN_BUFSIZE

  /** The least reserve after which the data following the record IV is aligned. */
  function ReserveFor(iv: nat, align: nat): (r: Reserve)
    requires 0 < align <= RX_MIN_BUFSIZE
    ensures r < align && exists q: nat :: iv + r == align * q
  {
    var q := if iv % align == 0 then iv / align else iv / align + 1;
    var r := align * q - iv;
    assert iv == align * (iv / align) + iv % align;
    assert iv + r == align * q;
    r
  }

  /** Buffer capacities for a record: the first gives up the alignment reserve. */
  function Caps(len: nat, reserve: Reserve): seq<nat>
    requires 0 < len
  {
    FragmentSizes(len + reserve);
    var fs := FragLens(len + reserve);
    FirstFragment(len + reserve);
    [fs[0] - reserve] + fs[1..]
  }

  lemma FirstFragment(total: nat)
    requires total > 0
    ensures FragLens(total) != [] && (FragLens(total)[0] == total || FragLens(total)[0] == RX_BUFSIZE)
  {
  }

  /** Every buffer has room, and together they hold exactly the record. */
  lemma CapsFit(len: nat, reserve: Reserve)
    requires 0 < len
    ensures Positive(Caps(len, reserve)) && Sum(Caps(len, reserve)) == len && Caps(len, reserve) != []
  {
    var fs, caps := FragLens(len + reserve), Caps(len, reserve);
    FragmentSizes(len + reserve);
    FirstFragment(len + reserve);
    assert caps[1..] == fs[1..];
  }

  /** What the active cipher asks of the receive buffers: its record IV length and alignment,
      which divides the buffer size. */
  type Alignment = a: (nat, nat) | 0 < a.1 <= RX_MIN_BUFSIZE && RX_BUFSIZE % a.1 == 0 witness (0, 1)

  /** Alignment reserve for each record in turn: the active cipher may change between them. */
  type Reserves = nat -> Reserve

  function ReservesFor(specs: nat -> Alignment): Reserves { n => ReserveFor(specs(n).0, specs(n).1) }

  /** Of a record that needs several buffers, the first one is a multiple of the alignment once
      the record IV has been stripped from it. */
  lemma FirstBufferAligned(spec: Alignment, len: nat)
    requires 0 < len && |Caps(len, ReserveFor(spec.0, spec.1))| > 1
    ensures (Caps(len, ReserveFor(spec.0, spec.1))[0] - spec.0) % spec.1 == 0
  {
    var (iv, align) := spec;
    var reserve := ReserveFor(iv, align);
    FirstFragment(len + reserve);
    var q: nat :| iv + reserve == align * q;
    var m := RX_BUFSIZE / align;
    assert RX_BUFSIZE == align * m;
    assert RX_BUFSIZE - (iv + reserve) == align * (m - q) by { assert align * (m - q) == align * m - align * q; }
    RemainderOf(align, m - q, 0);
  }

  /** Records found, the unfinished rest, and whether a record of length zero was met. */
  datatype Framed = Framed(found: Recs, rest: bytes, stalled: bool)

  /** One-shot framing of a byte stream. */
  function Frame(r: Reserves, found: Recs, stream: bytes): Framed
    decreases |stream|
  {
    if |stream| < HEADER_LEN then Framed(found, stream, false)
    else
      var len := GetU16(stream, 3);
      if len == 0 then Framed(found, [], true)
      else if |stream| < HEADER_LEN + len then Framed(found, stream, false)
      else
        var rec := Rec(stream[..HEADER_LEN], Fill(Caps(len, r(Count(found))), stream[HEADER_LEN..HEADER_LEN + len]));
        Frame(r, Then(found, rec), stream[HEADER_LEN + len..])
  }

  /** Every record handed on has buffers of the prescribed sizes, in order, that together are
      exactly the bytes announced by its header. */
  lemma BuffersAreTheRecord(len: nat, reserve: Reserve, body: bytes)
    requires 0 < len == |body|
    ensures Contents(Fill(Caps(len, reserve), body)) == body
  {
    CapsFit(len, reserve);
    ContentsOfFill(Caps(len, reserve), body);
  }

  // ---------------------------------------------------------------- rotation steps

  lemma RotateHead(bs: seq<Buf>, i: nat, b: Buf)
    requires i < |bs|
    ensures Rotated(bs, i)[0] == bs[i]
    ensures Rotated(bs[i := b], i) == Rotated(bs, i)[0 := b]
    ensures Rotated(bs[i := b], i + 1) == Rotated(bs[i := b], i)[1..] + [b]
  {
    var bs' := bs[i := b];
    assert bs'[..i] == bs[..i] && bs'[i + 1..] == bs[i + 1..];
    assert bs'[i..] == [b] + bs[i + 1..] && bs[i..] == [bs[i]] + bs[i + 1..];
    assert bs'[..i + 1] == bs'[..i] + [b];
  }

  lemma FirstFull(caps: seq<nat>, body: bytes)
    requires caps != [] && |body| == Sum(caps)
    ensures Room(Fill(caps, body)[0]) == 0
  {
  }

  /** Receiving into the first buffer, and rotating it to the back when it fills, keeps the
      list in step with the bytes received; it has come full circle exactly at the end. */
  lemma QueueStep(caps: seq<nat>, body: bytes, x: bytes)
    requires Positive(caps) && |body| < Sum(caps)
    ensures Queue(caps, body) != [] && Room(Queue(caps, body)[0]) > 0
    ensures var q := Queue(caps, body);
            var b := Buf(q[0].cap, q[0].data + x);
            |x| <= Room(q[0]) ==>
              && |body + x| <= Sum(caps)
              && (|x| < Room(q[0]) ==> |body + x| < Sum(caps) && Queue(caps, body + x) == q[0 := b])
              && (|x| == Room(q[0]) ==> Queue(caps, body + x) == q[1..] + [b])
  {
    hide Fill, FullCount;
    FillNext(caps, body, x);
    var i := FullCount(caps, body);
    var bs := Fill(caps, body);
    RotateHead(bs, i, Buf(bs[i].cap, bs[i].data + x));
  }

  lemma CircleClosed(caps: seq<nat>, body: bytes)
    requires Positive(caps) && |body| <= Sum(caps) && caps != []
    ensures Queue(caps, body) != [] && Room(Queue(caps, body)[0]) >= 0
    ensures Room(Queue(caps, body)[0]) == 0 <==> |body| == Sum(caps)
    ensures |body| == Sum(caps) ==> Queue(caps, body) == Fill(caps, body)
  {
    if |body| == Sum(caps) {
      FullQueue(caps, body);
      FirstFull(caps, body);
    } else {
      QueueStep(caps, body, []);
    }
  }

  // ---------------------------------------------------------------- the receiver

  class Receiver {
    const reserves: Reserves
    var header: bytes
    var bufs: seq<Buf>                // buffer being filled first
    var inData: bool
    var records: Recs                 // records handed on so far
    var stalled: bool
    ghost var caps: seq<nat>
    ghost var body: bytes

    ghost predicate Valid()
      reads this
    {
      if inData then
        && |header| == HEADER_LEN && GetU16(header, 3) > 0
        && caps == Caps(GetU16(header, 3), reserves(Count(records)))
        && |body| < GetU16(header, 3) && bufs == Queue(caps, body)
      else
        |header| < HEADER_LEN && body == []
    }

    /** The unfinished record received so far. */
    ghost function Held(): bytes
      reads this
    {
      header + body
    }

    constructor (specs: nat -> Alignment)
      ensures Valid() && !stalled && reserves == ReservesFor(specs) && records == NoRecs && Held() == []
    {
      reserves := ReservesFor(specs);
      header, bufs, inData, records, stalled := [], [], false, NoRecs, false;
      caps, body := [], [];
    }

    ghost predicate Follows(t: Framed, rest: bytes)
      reads this
    {
      if stalled then t.stalled && t.found == records
      else Valid() && Frame(reserves, records, Held() + rest) == t
    }

    /** A complete header: allocate the buffers of the record. */
    method ProcessHeader(ghost rest: bytes)
      requires !inData && |header| == HEADER_LEN && body == [] && !stalled
      modifies this
      ensures Follows(Frame(reserves, old(records), old(header) + rest), rest)
    {
      var len := GetU16(header, 3);
      assert GetU16(header + rest, 3) == len;
      if len == 0 { stalled := true; return; }
      var reserve := reserves(Count(records));
      var frags := Allocate(len + reserve);
      FirstFragment(len + reserve);
      CapsFit(len, reserve);
      caps := Caps(len, reserve);
      var cs := [frags[0] - reserve] + frags[1..];
      assert cs == caps;
      bufs := seq(|cs|, i requires 0 <= i < |cs| => Buf(cs[i], []));
      EmptyQueue(caps);
      inData := true;
      assert header + [] == header;
    }

    /** Receive bytes into the first buffer; when it fills, move it to the back, and hand the
        record on if the buffer that comes up is full. */
    method DataBytes(x: bytes, ghost rest: bytes)
      requires Valid() && inData && !stalled && |x| <= Room(bufs[0])
      modifies this
      ensures Follows(Frame(reserves, old(records), old(Held()) + (x + rest)), rest)
    {
      hide Fill, FullCount, Queue, Frame, Caps, GetU16;
      var len := GetU16(header, 3);
      CapsFit(len, reserves(Count(records)));
      QueueStep(caps, body, x);
      ghost var stream := Held() + (x + rest);
      body := body + x;
      assert Held() + rest == stream;
      bufs := bufs[0 := Buf(bufs[0].cap, bufs[0].data + x)];
      if Room(bufs[0]) > 0 { return; }
      bufs := bufs[1..] + [bufs[0]];
      CircleClosed(caps, body);
      if Room(bufs[0]) > 0 { return; }
      FrameOne(reserves, records, header, body, rest);
      records := Then(records, Rec(header, bufs));
      header, bufs, inData, body := [], [], false, [];
      assert Held() + rest == rest;
    }

    method HeaderBytes(x: bytes, ghost rest: bytes)
      requires Valid() && !inData && !stalled && |x| <= HEADER_LEN - |header|
      modifies this
      ensures Follows(Frame(reserves, old(records), old(Held()) + (x + rest)), rest)
    {
      hide Frame;
      assert Held() + (x + rest) == header + x + rest;
      header := header + x;
      if |header| == HEADER_LEN {
        ProcessHeader(rest);
      } else {
        assert Held() == header;
      }
    }

    /** tls_cipherstream_deliver: for any cutting of the stream, the records handed on and the
        bytes kept are those of the one-shot framing. */
    method Deliver(iob: bytes)
      requires Valid() && !stalled
      modifies this
      ensures var t := Frame(reserves, old(records), old(Held()) + iob);
              && stalled == t.stalled && records == t.found
              && (!stalled ==> Valid() && Held() == t.rest)
    {
      hide Frame, Queue, Caps, GetU16;
      var pos := 0;
      ghost var t := Frame(reserves, records, Held() + iob);
      assert iob[0..] == iob;
      while pos < |iob|
        invariant pos <= |iob| && !stalled && Follows(t, iob[pos..])
      {
        if inData { RoomInFront(); }
        var room := if inData then Room(bufs[0]) else HEADER_LEN - |header|;
        var fragLen := if |iob| - pos > room then room else |iob| - pos;
        var x := iob[pos..pos + fragLen];
        ghost var rest := iob[pos + fragLen..];
        assert iob[pos..] == x + rest;
        if inData { DataBytes(x, rest); } else { HeaderBytes(x, rest); }
        if stalled { return; }
        pos := pos + fragLen;
      }
      assert Held() + iob[pos..] == Held();
      HeldSettled();
    }

    lemma RoomInFront()
      requires Valid() && inData
      ensures bufs != [] && Room(bufs[0]) > 0
    {
      CapsFit(GetU16(header, 3), reserves(Count(records)));
      QueueStep(caps, body, []);
    }

    lemma HeldSettled()
      requires Valid()
      ensures Frame(reserves, records, Held()) == Framed(records, Held(), false)
    {
      if inData { assert GetU16(Held(), 3) == GetU16(header, 3); }
    }
  }

  /** One complete record at the front of a stream. */
  lemma FrameOne(r: Reserves, found: Recs, header: bytes, body: bytes, rest: bytes)
    requires |header| == HEADER_LEN && 0 < GetU16(header, 3) == |body|
    ensures Frame(r, found, header + body + rest)
         == Frame(r, Then(found, Rec(header, Fill(Caps(|body|, r(Count(found))), body))), rest)
  {
    hide Fill, Caps;
    var s := header + body + rest;
    assert GetU16(s, 3) == |body| && s[..HEADER_LEN] == header;
    assert s[HEADER_LEN..HEADER_LEN + |body|] == body && s[HEADER_LEN + |body|..] == rest;
  }

  lemma FrameUnfinished(r: Reserves, found: Recs, a: bytes)
    requires |a| < HEADER_LEN || (GetU16(a, 3) > 0 && |a| < HEADER_LEN + GetU16(a, 3))
    ensures Frame(r, found, a) == Framed(found, a, false)
  {
  }

  lemma FrameStalls(r: Reserves, found: Recs, a: bytes)
    requires |a| >= HEADER_LEN && a[3] == 0 && a[4] == 0
    ensures Frame(r, found, a) == Framed(found, [], true)
  {
  }

  lemma HeaderPrefix(a: bytes, header: bytes)
    requires header <= a && |header| == HEADER_LEN
    ensures GetU16(header, 3) == GetU16(a, 3)
  {
  }

  /** Framing does not depend on how the stream was cut. */
  lemma {:induction false} FrameAppend(r: Reserves, found: Recs, a: bytes, b: bytes)
    ensures var t := Frame(r, found, a);
            Frame(r, found, a + b) == if t.stalled then t else Frame(r, t.found, t.rest + b)
    decreases |a|
  {
    if |a| < HEADER_LEN || (GetU16(a, 3) > 0 && |a| < HEADER_LEN + GetU16(a, 3)) {
      FrameUnfinished(r, found, a);
    } else {
      hide Fill, Caps, Frame, GetU16;
      var len := GetU16(a, 3);
      if len == 0 {
        FrameStalls(r, found, a);
        FrameStalls(r, found, a + b);
      }
      if len > 0 && |a| >= HEADER_LEN + len {
        var header, body, rest := a[..HEADER_LEN], a[HEADER_LEN..HEADER_LEN + len], a[HEADER_LEN + len..];
        assert a == header + body + rest && a + b == header + body + (rest + b);
        HeaderPrefix(a, header);
        FrameOne(r, found, header, body, rest);
        FrameOne(r, found, header, body, rest + b);
        FrameAppend(r, Then(found, Rec(header, Fill(Caps(len, r(Count(found))), body))), rest, b);
      }
    }
  }

  lemma {:induction false} EmptyFill(caps: seq<nat>, i: nat)
    requires Positive(caps) && i < |caps|
    ensures Fill(caps, [])[i] == Buf(caps[i], [])
  {
    if i > 0 { EmptyFill(caps[1..], i - 1); }
  }

  lemma EmptyQueue(caps: seq<nat>)
    requires Positive(caps)
    ensures Queue(caps, []) == seq(|caps|, i requires 0 <= i < |caps| => Buf(caps[i], []))
  {
    FullOfEmpty(caps);
    forall i | 0 <= i < |caps| ensures Fill(caps, [])[i] == Buf(caps[i], []) { EmptyFill(caps, i); }
  }
}
