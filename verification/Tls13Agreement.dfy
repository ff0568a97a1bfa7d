/**
 Whole runs against an honest server: the handshake completes with both sides holding the
 same secrets, and application data crosses in both directions unchanged and in order.
 */
module Tls13Agreement {
  import opened Bytes
  import opened Tls13Crypto
  import opened Tls13Conn
  import opened Tls13Peer
  import opened Tls13Runs

  // ---------------------------------------------------------------- the client's wire

  function HelloRecord(w: World): bytes { PlainRecord(TYPE_HANDSHAKE, HelloMessage(w)) }

  /** The client Finished, protected under the client handshake key as its first record. */
  function FinishedRecord(w: World, secrets: Secrets, transcript: bytes): bytes {
    Protected(w.c, TrafficKeys(w.c, secrets.clientHs), 0, TYPE_HANDSHAKE,
              FinishedMessage(w.c, secrets.clientHs, transcript))
  }

  function Count(t: Trace<bytes>): nat {
    match t
    case Nothing => 0
    case Then(before, _) => Count(before) + 1
  }

  /** The application records for the submitted buffers, numbered from zero. */
  function AppRecords(c: Suite, keys: Keys, base: Trace<bytes>, ps: Trace<bytes>): Trace<bytes> {
    match ps
    case Nothing => base
    case Then(before, p) =>
      Then(AppRecords(c, keys, base, before),
           Protected(c, keys, Count(before) % SEQ_MODULUS, TYPE_DATA, p))
  }

  /** Everything the client should have handed to the socket once the handshake is done. */
  function Script(w: World, s: Conn): Trace<bytes> {
    AppRecords(w.c, TrafficKeys(w.c, s.secrets.clientAp),
               Then(Then(Nothing, HelloRecord(w)), FinishedRecord(w, s.secrets, s.transcript)),
               s.net.submitted)
  }

  /** Records handed over, together with the one still pending. */
  function SentOrPending(s: Conn): Trace<bytes> {
    if s.tx.pending.Some? then Then(s.net.sent, s.tx.pending.value) else s.net.sent
  }

  predicate Shape(w: World, s: Conn) {
    match s.phase
    case ServerFlight =>
      s.net.submitted == Nothing && SentOrPending(s) == Then(Nothing, HelloRecord(w))
    case ClientFinished =>
      && s.net.submitted == Nothing && s.net.sent == Then(Nothing, HelloRecord(w))
      && (if s.tx.pending.Some? then s.tx.pending.value == FinishedRecord(w, s.secrets, s.transcript)
          else s.tx.keys == TrafficKeys(w.c, s.secrets.clientHs) && s.tx.seqno == 0)
    case Data =>
      && s.tx.keys == TrafficKeys(w.c, s.secrets.clientAp)
      && s.tx.seqno == Count(s.net.submitted) % SEQ_MODULUS
      && SentOrPending(s) == Script(w, s)
    case _ => false
  }

  /** Nothing waits while the socket's window is open, and Finished is never left unbuilt. */
  predicate Settled(s: Conn) {
    (s.tx.pending.Some? ==> s.net.window == 0) && (s.phase == ClientFinished ==> s.tx.pending.Some?)
  }

  lemma BuildShapes(w: World, s: Conn)
    requires Shape(w, s) && s.tx.pending == None
    ensures var t := Build(w, s);
            && Shape(w, t) && t.phase == s.phase && t.net == s.net
            && t.transcript == s.transcript && t.secrets == s.secrets && t.rx == s.rx
            && (if s.phase == ClientFinished then t.tx.pending.Some? else t == s)
  {
    hide HelloRecord, HelloMessage, FinishedMessage, Protected, TrafficKeys, AfterSeal, AppRecords;
    if s.phase == ClientFinished {
      assert Build(w, s).tx.pending == Some(FinishedRecord(w, s.secrets, s.transcript));
    }
  }

  lemma FlushShapes(w: World, s: Conn)
    requires Shape(w, s)
    ensures var t := Flush(w, s);
            && Shape(w, t) && t.transcript == s.transcript && t.secrets == s.secrets && t.rx == s.rx
            && (s.net.window == 0 || s.tx.pending == None ==> t == s) && (s.net.sent != Nothing ==> t.net.sent != Nothing)
            && (t.tx.pending.Some? ==> s.net.window == 0)
            && (if s.phase == ClientFinished && s.tx.pending.Some? && s.net.window != 0
                then t.phase == Data else t.phase == s.phase)
  {
    hide HelloRecord, FinishedRecord, TrafficKeys;
  }

  /** The transmit routine settles any well-shaped connection and keeps it in step. */
  lemma TxSettles(w: World, s: Conn, sv: Server)
    requires Shape(w, s) && InSync(w, s, sv)
    ensures var t := Tx(w, s);
            && Shape(w, t) && Settled(t) && InSync(w, t, sv)
            && t.rx == s.rx && t.net.delivered == s.net.delivered
            && (s.phase != ClientFinished ==> t.phase == s.phase)
            && (s.net.sent != Nothing ==> t.net.sent != Nothing)
            && (s.phase == ServerFlight && s.tx.pending == None ==> t.tx == s.tx && t.net.sent == s.net.sent)
  {
    hide Build, Flush, Shape, Script, HelloMessage;
    TxKeepsRx(w, s);
    assert s.phase != HelloPhase && s.phase != Failed;
    if s.tx.pending == None { BuildShapes(w, s); }
    var s1 := if s.tx.pending == None then Build(w, s) else s;
    FlushShapes(w, s1);
    NotifyShapes(w, Flush(w, s1));
  }

  lemma NotifyShapes(w: World, s: Conn)
    requires Shape(w, s)
    ensures Shape(w, Notify(s))
  {
    hide HelloRecord, FinishedRecord, TrafficKeys, AppRecords, PlainWindow;
  }

  // ---------------------------------------------------------------- the server's stream

  predicate LegalItems(c: Suite, priv: bytes, psk: bytes, sv: Server, items: seq<Item>)
    decreases |items|
  {
    items != [] ==>
      && Legal(c, priv, sv, items[0])
      && LegalItems(c, priv, psk, Emit(c, priv, psk, sv, items[0]).0, items[1..])
  }

  /** The bytes of the server's records. */
  function Stream(c: Suite, priv: bytes, psk: bytes, sv: Server, items: seq<Item>): bytes
    requires LegalItems(c, priv, psk, sv, items)
    decreases |items|
  {
    if items == [] then []
    else Emit(c, priv, psk, sv, items[0]).1 + Stream(c, priv, psk, Emit(c, priv, psk, sv, items[0]).0, items[1..])
  }

  /** The server once it has sent them all. */
  function After(c: Suite, priv: bytes, psk: bytes, sv: Server, items: seq<Item>): Server
    requires LegalItems(c, priv, psk, sv, items)
    decreases |items|
  {
    if items == [] then sv else After(c, priv, psk, Emit(c, priv, psk, sv, items[0]).0, items[1..])
  }

  /** The application payloads in the server's records. */
  function Payloads(t: Trace<bytes>, items: seq<Item>): Trace<bytes>
    decreases |items|
  {
    if items == [] then t else Payloads(Payload(t, items[0]), items[1..])
  }

  /** In step with the server, with the client's own wire as it should be. */
  predicate Synced(w: World, s: Conn, sv: Server) {
    && InSync(w, s, sv) && Shape(w, s) && Settled(s)
    && (sv.stage == AwaitExtensions || sv.stage == AwaitFinished ==>
          s.tx.keys == TrafficKeys(w.c, s.secrets.clientHs) && s.tx.seqno == 0)
    && (sv.stage != AwaitHello ==> s.net.sent != Nothing)
  }

  /** How an honest item changes the secrets and the transcript. */
  lemma EmitKeeps(c: Suite, priv: bytes, psk: bytes, sv: Server, i: Item)
    requires Legal(c, priv, sv, i)
    ensures var sv' := Emit(c, priv, psk, sv, i).0;
            && (sv.stage == Open ==> sv'.stage == Open && sv'.secrets == sv.secrets && sv'.transcript == sv.transcript)
            && (!i.Hello? ==> sv'.secrets.clientHs == sv.secrets.clientHs)
            && (sv'.stage == Open <==> sv.stage == Open || i.ExtensionsAndFinished? || i.FinishedAlone?)
            && (sv'.stage == AwaitHello <==> sv.stage == AwaitHello && !i.Hello?)
            && (sv'.stage == AwaitHello ==> sv' == sv)
            && (i.Hello? ==> sv.stage == AwaitHello)
            && (i.ExtensionsAndFinished? || i.FinishedAlone? ==> sv.stage == AwaitExtensions || sv.stage == AwaitFinished)
  {
    hide HelloLegal, HandshakeSecrets, MasterSecret, TrafficKeys, DeriveSecret, ServerShared, FinishedMessage;
  }

  lemma ReceivedShapes(w: World, priv: bytes, s: Conn, sv: Server, i: Item, r: Conn)
    requires Synced(w, s, sv) && s.net.sent != Nothing && Legal(w.c, priv, sv, i)
    requires Stepped(w, s, i, Some(r), Emit(w.c, priv, w.psk, sv, i).0)
    ensures Shape(w, r) && r.net.sent == s.net.sent
    ensures r.phase == ServerFlight ==> r.tx.pending == None
    ensures var stage := Emit(w.c, priv, w.psk, sv, i).0.stage;
            stage == AwaitExtensions || stage == AwaitFinished ==>
              r.tx.keys == TrafficKeys(w.c, r.secrets.clientHs) && r.tx.seqno == 0
  {
    hide Emit, Legal, HelloRecord, HelloMessage, FinishedRecord, TrafficKeys, AppRecords;
    EmitKeeps(w.c, priv, w.psk, sv, i);
  }

  /** One honest record, including the transmit routine that runs after it. */
  lemma RecordSyncs(w: World, priv: bytes, s: Conn, sv: Server, i: Item, rest: bytes)
    requires ValidWorld(w) && Synced(w, s, sv) && s.net.sent != Nothing && Legal(w.c, priv, sv, i)
    ensures var (sv', rec) := Emit(w.c, priv, w.psk, sv, i);
            && 5 <= |rec| <= MAX_RECORD && GetU16(rec, 3) == |rec| - 5
            && OnRecord(w, s, rec).Some?
            && var t := Tx(w, Consumed(OnRecord(w, s, rec).value, rec, rest));
               && Synced(w, t, sv') && t.net.sent != Nothing
               && t.rx.buf == rest && t.net.delivered == Payload(s.net.delivered, i)
  {
    hide Emit, Legal, OnRecord, Tx, HelloRecord, HelloMessage, FinishedRecord, TrafficKeys, AppRecords, Script, InstallTx, GetU16;
    EmitInSync(w, priv, s, sv, i);
    var (sv', rec) := Emit(w.c, priv, w.psk, sv, i);
    var s1 := OnRecord(w, s, rec).value;
    ReceivedShapes(w, priv, s, sv, i, s1);
    EmitKeeps(w.c, priv, w.psk, sv, i);
    var s2 := Consumed(s1, rec, rest);
    ConsumedShapes(w, s1, rec, rest);
    TxSettles(w, s2, sv');
  }

  lemma ConsumedShapes(w: World, s: Conn, rec: bytes, rest: bytes)
    ensures Shape(w, Consumed(s, rec, rest)) == Shape(w, s)
  {
    hide HelloRecord, FinishedRecord, TrafficKeys, AppRecords;
  }

  /** Every record the server sends has at most `r` bytes. */
  predicate RecordsFit(c: Suite, priv: bytes, psk: bytes, sv: Server, items: seq<Item>, r: nat)
    requires LegalItems(c, priv, psk, sv, items)
    decreases |items|
  {
    items != [] ==>
      && |Emit(c, priv, psk, sv, items[0]).1| <= r
      && RecordsFit(c, priv, psk, Emit(c, priv, psk, sv, items[0]).0, items[1..], r)
  }

  /** The unfinished rest of the receive buffer is shorter than the next record. */
  predicate Partial(c: Suite, priv: bytes, psk: bytes, sv: Server, items: seq<Item>, buf: bytes)
    requires LegalItems(c, priv, psk, sv, items)
  {
    if items == [] then buf == [] else |buf| < |Emit(c, priv, psk, sv, items[0]).1|
  }

  /** Where a run stands: in step with a server that still has `items` to send, of whose bytes
      the buffer holds the unfinished beginning and `tail` has not arrived. */
  predicate Standing(w: World, priv: bytes, s: Conn, sv: Server, items: seq<Item>, tail: bytes) {
    && Synced(w, s, sv) && LegalItems(w.c, priv, w.psk, sv, items)
    && s.rx.buf + tail == Stream(w.c, priv, w.psk, sv, items)
  }

  /** Two standings of the same exchange: what is still to come completes both alike. */
  predicate SameOutcome(w: World, priv: bytes, s: Conn, sv: Server, items: seq<Item>,
                        s': Conn, sv': Server, items': seq<Item>)
    requires LegalItems(w.c, priv, w.psk, sv, items) && LegalItems(w.c, priv, w.psk, sv', items')
  {
    && After(w.c, priv, w.psk, sv, items) == After(w.c, priv, w.psk, sv', items')
    && Payloads(s.net.delivered, items) == Payloads(s'.net.delivered, items')
  }

  /** Sending `done` takes the server from one state to another and the consumer from one history
      to another. */
  predicate Passed(w: World, priv: bytes, from: Trace<bytes>, sv: Server, done: seq<Item>, to: Trace<bytes>, sv': Server) {
    LegalItems(w.c, priv, w.psk, sv, done) && After(w.c, priv, w.psk, sv, done) == sv' && Payloads(from, done) == to
  }

  lemma {:induction false} PassedOn(w: World, priv: bytes, from: Trace<bytes>, sv: Server, xs: seq<Item>,
                                    mid: Trace<bytes>, sv1: Server, ys: seq<Item>, to: Trace<bytes>, sv': Server)
    requires Passed(w, priv, from, sv, xs, mid, sv1) && Passed(w, priv, mid, sv1, ys, to, sv')
    ensures Passed(w, priv, from, sv, xs + ys, to, sv')
    decreases |xs|
  {
    hide Emit, Legal, Payload;
    if xs == [] {
      assert xs + ys == ys;
    } else {
      assert (xs + ys)[1..] == xs[1..] + ys;
      PassedOn(w, priv, Payload(from, xs[0]), Emit(w.c, priv, w.psk, sv, xs[0]).0, xs[1..], mid, sv1, ys, to, sv');
    }
  }

  lemma PassedOne(w: World, priv: bytes, from: Trace<bytes>, sv: Server, i: Item)
    requires Legal(w.c, priv, sv, i)
    ensures Passed(w, priv, from, sv, [i], Payload(from, i), Emit(w.c, priv, w.psk, sv, i).0)
  {
    hide Emit, Legal, Payload;
    assert [i][1..] == [];
    var sv1 := Emit(w.c, priv, w.psk, sv, i).0;
    assert LegalItems(w.c, priv, w.psk, sv1, []) && After(w.c, priv, w.psk, sv1, []) == sv1;
    assert Payloads(Payload(from, i), []) == Payload(from, i);
  }

  lemma HeaderInPrefix(buf: bytes, tail: bytes, rec: bytes, more: bytes)
    requires buf + tail == rec + more && |rec| >= 5 && GetU16(rec, 3) == |rec| - 5
    ensures |buf| >= 5 ==> GetU16(buf, 3) == |rec| - 5
    ensures |buf| >= |rec| ==> buf[..|rec|] == rec && buf[|rec|..] + tail == more
  {
    if |buf| >= 5 {
      assert buf[3] == (buf + tail)[3] == rec[3] && buf[4] == (buf + tail)[4] == rec[4];
    }
    if |buf| >= |rec| {
      assert buf[..|rec|] == (buf + tail)[..|rec|] == rec;
      assert buf[|rec|..] + tail == (buf + tail)[|rec|..];
    }
  }

  /** The receive loop consumes exactly the complete records of the server's stream. */
  lemma {:induction false} RxLoopSyncs(w: World, priv: bytes, s: Conn, sv: Server, items: seq<Item>, tail: bytes, r: nat)
    returns (sv': Server, done: seq<Item>, items': seq<Item>)
    requires ValidWorld(w) && Standing(w, priv, s, sv, items, tail) && s.net.sent != Nothing
    requires RecordsFit(w.c, priv, w.psk, sv, items, r)
    ensures var t := RxLoop(w, s);
            && Standing(w, priv, t, sv', items', tail) && t.net.sent != Nothing
            && Partial(w.c, priv, w.psk, sv', items', t.rx.buf)
            && RecordsFit(w.c, priv, w.psk, sv', items', r)
            && SameOutcome(w, priv, s, sv, items, t, sv', items')
            && items == done + items' && Passed(w, priv, s.net.delivered, sv, done, t.net.delivered, sv')
    decreases |items|
  {
    hide Emit, Legal, OnRecord, Tx, Synced, GetU16;
    if items == [] {
      return sv, [], items;
    }
    var (sv1, rec) := Emit(w.c, priv, w.psk, sv, items[0]);
    RecordSyncs(w, priv, s, sv, items[0], if |s.rx.buf| >= |rec| then s.rx.buf[|rec|..] else []);
    HeaderInPrefix(s.rx.buf, tail, rec, Stream(w.c, priv, w.psk, sv1, items[1..]));
    if |s.rx.buf| < |rec| {
      return sv, [], items;
    }
    var s2 := Tx(w, Consumed(OnRecord(w, s, rec).value, rec, s.rx.buf[|rec|..]));
    TxKeepsRx(w, Consumed(OnRecord(w, s, rec).value, rec, s.rx.buf[|rec|..]));
    sv', done, items' := RxLoopSyncs(w, priv, s2, sv1, items[1..], tail, r);
    PassedOne(w, priv, s.net.delivered, sv, items[0]);
    PassedOn(w, priv, s.net.delivered, sv, [items[0]], s2.net.delivered, sv1, done, RxLoop(w, s2).net.delivered, sv');
    done := [items[0]] + done;
  }

  // ---------------------------------------------------------------- runs

  /** The consumer never submits while an earlier record is still pending (it suffices that it
      submits only into a non-zero window); the server speaks only once the ClientHello has
      been handed to the socket; the socket reports the opening of a closed window. */
  predicate Permitted(s: Conn, e: Event) {
    match e
    case Fed(_) => s.net.sent != Nothing
    case Submitted(_) => s.phase == Data ==> s.tx.pending == None
    case WindowReported(_) => true
    case WindowShrinks(n) => s.net.window != 0 || n == 0
  }

  lemma PositiveWindowPermits(s: Conn, data: bytes)
    requires PlainWindow(s) > 0
    ensures Permitted(s, Submitted(data))
  {
  }

  /** Transmission after a change to the socket window or to the pending slot. */
  lemma TxSyncs(w: World, s: Conn, sv: Server)
    requires InSync(w, s, sv) && Shape(w, s) && (sv.stage != AwaitHello ==> s.net.sent != Nothing)
    requires sv.stage == AwaitExtensions || sv.stage == AwaitFinished ==>
               s.tx.keys == TrafficKeys(w.c, s.secrets.clientHs) && s.tx.seqno == 0
    ensures Synced(w, Tx(w, s), sv)
  {
    hide Tx, HelloRecord, HelloMessage, FinishedRecord, TrafficKeys, Script;
    TxSettles(w, s, sv);
    TxKeepsRx(w, s);
  }

  lemma SubmitShapes(w: World, s: Conn, data: bytes)
    requires Shape(w, s) && s.phase == Data && s.tx.pending == None
    ensures var record := Protected(w.c, s.tx.keys, s.tx.seqno, TYPE_DATA, data);
            Shape(w, s.(tx := AfterSeal(s.tx).(pending := Some(record)),
                        net := s.net.(submitted := Then(s.net.submitted, data))))
  {
    hide HelloRecord, FinishedRecord, TrafficKeys, Protected, Nonce;
    NextModulo(Count(s.net.submitted));
  }

  lemma NextModulo(n: nat)
    ensures (n % SEQ_MODULUS + 1) % SEQ_MODULUS == (n + 1) % SEQ_MODULUS
  {
    var q, r := n / SEQ_MODULUS, n % SEQ_MODULUS;
    assert n == q * SEQ_MODULUS + r;
    if r + 1 == SEQ_MODULUS {
      assert n + 1 == (q + 1) * SEQ_MODULUS;
    } else {
      assert n + 1 == q * SEQ_MODULUS + (r + 1);
    }
  }

  lemma OtherEventSyncs(w: World, s: Conn, sv: Server, e: Event)
    requires Synced(w, s, sv) && Permitted(s, e) && !e.Fed?
    ensures var t := Next(w, s, e);
            Synced(w, t, sv) && t.rx == s.rx && t.net.delivered == s.net.delivered
  {
    hide Tx, HelloRecord, HelloMessage, FinishedRecord, TrafficKeys, AppRecords, Protected, AfterSeal, InstallTx;
    match e
    case Submitted(data) =>
      if s.phase == Data {
        SubmitShapes(w, s, data);
        var s1 := s.(tx := AfterSeal(s.tx).(pending := Some(Protected(w.c, s.tx.keys, s.tx.seqno, TYPE_DATA, data))),
                     net := s.net.(submitted := Then(s.net.submitted, data)));
        TxSyncs(w, s1, sv);
        TxKeepsRx(w, s1);
      }
    case WindowReported(n) =>
      var s1 := s.(net := s.net.(window := n));
      TxSyncs(w, s1, sv);
      TxKeepsRx(w, s1);
    case WindowShrinks(n) =>
  }

  /** A run whose deliveries are each at most `d` bytes. */
  predicate HonestRun(w: World, s: Conn, es: seq<Event>, d: nat)
    decreases |es|
  {
    es != [] ==>
      && Permitted(s, es[0]) && (es[0].Fed? ==> |es[0].chunk| <= d)
      && HonestRun(w, Next(w, s, es[0]), es[1..], d)
  }

  lemma FeedSyncs(w: World, priv: bytes, s: Conn, sv: Server, items: seq<Item>,
                                     chunk: bytes, tail: bytes, r: nat)
    returns (sv': Server, done: seq<Item>, items': seq<Item>)
    requires ValidWorld(w) && Standing(w, priv, s, sv, items, chunk + tail) && s.net.sent != Nothing
    requires RecordsFit(w.c, priv, w.psk, sv, items, r) && r <= MAX_RECORD
    requires Partial(w.c, priv, w.psk, sv, items, s.rx.buf) && |chunk| <= MAX_RECORD - r + 1
    ensures var t := Feed(w, s, chunk);
            && Standing(w, priv, t, sv', items', tail)
            && Partial(w.c, priv, w.psk, sv', items', t.rx.buf)
            && RecordsFit(w.c, priv, w.psk, sv', items', r)
            && SameOutcome(w, priv, s, sv, items, t, sv', items')
            && items == done + items' && Passed(w, priv, s.net.delivered, sv, done, t.net.delivered, sv')
  {
    hide RxLoop, Emit, Legal, HelloMessage, HelloRecord, FinishedRecord, TrafficKeys, AppRecords, InstallTx, LegalItems, Stream;
    if items == [] {
      StreamEmpty(w.c, priv, w.psk, sv);
      assert chunk == [];
    }
    var s1 := SetBuf(s, s.rx.buf + chunk);
    assert s1.rx.buf + tail == s.rx.buf + (chunk + tail);
    assert Synced(w, s1, sv);
    sv', done, items' := RxLoopSyncs(w, priv, s1, sv, items, tail, r);
  }

  lemma StreamEmpty(c: Suite, priv: bytes, psk: bytes, sv: Server)
    ensures LegalItems(c, priv, psk, sv, []) && Stream(c, priv, psk, sv, []) == []
  {
  }

  /** Against an honest server, for every cutting of its bytes into deliveries and every
      behaviour of the socket and the consumer, the connection never fails and never falls out
      of step. */
  lemma {:induction false} RunSyncs(w: World, priv: bytes, s: Conn, sv: Server, items: seq<Item>,
                                    es: seq<Event>, tail: bytes, r: nat)
    returns (sv': Server, done: seq<Item>, items': seq<Item>)
    requires ValidWorld(w) && Standing(w, priv, s, sv, items, FedBytes(es) + tail)
    requires RecordsFit(w.c, priv, w.psk, sv, items, r) && r <= MAX_RECORD
    requires Partial(w.c, priv, w.psk, sv, items, s.rx.buf)
    requires HonestRun(w, s, es, MAX_RECORD - r + 1)
    ensures var t := Run(w, s, es);
            && Standing(w, priv, t, sv', items', tail)
            && Partial(w.c, priv, w.psk, sv', items', t.rx.buf)
            && SameOutcome(w, priv, s, sv, items, t, sv', items')
            && items == done + items' && Passed(w, priv, s.net.delivered, sv, done, t.net.delivered, sv')
    decreases |es|
  {
    hide RxLoop, Emit, Legal, Feed, Submit, WindowChanged, Synced, LegalItems, Stream, After, Payloads, Partial, RecordsFit;
    if es == [] {
      assert FedBytes(es) + tail == tail;
      assert Passed(w, priv, s.net.delivered, sv, [], s.net.delivered, sv) by { PassedNothing(w, priv, s.net.delivered, sv); }
      return sv, [], items;
    }
    var e, rest := es[0], FedBytes(es[1..]);
    var t := Next(w, s, e);
    var sv1, first, items1 := sv, [], items;
    if e.Fed? {
      assert FedBytes(es) + tail == e.chunk + (rest + tail);
      sv1, first, items1 := FeedSyncs(w, priv, s, sv, items, e.chunk, rest + tail, r);
    } else {
      assert FedBytes(es) == rest;
      PassedNothing(w, priv, s.net.delivered, sv);
      OtherEventSyncs(w, s, sv, e);
    }
    sv', done, items' := RunSyncs(w, priv, t, sv1, items1, es[1..], tail, r);
    PassedOn(w, priv, s.net.delivered, sv, first, t.net.delivered, sv1, done, Run(w, s, es).net.delivered, sv');
    done := first + done;
  }

  lemma PassedNothing(w: World, priv: bytes, from: Trace<bytes>, sv: Server)
    ensures Passed(w, priv, from, sv, [], from, sv)
  {
  }

  lemma OpenedSynced(w: World, window: nat)
    requires ValidWorld(w)
    ensures Synced(w, OpenedConn(w, window), Greeted(HelloMessage(w)))
    ensures OpenedConn(w, window).rx.buf == [] && OpenedConn(w, window).net.delivered == Nothing
  {
    hide Tls13Hello.Truncated, Tls13Hello.ReadClientHello, Tls13Hello.ClientHello, PlainRecord, AppRecords, FinishedRecord, TrafficKeys;
    Tls13Hello.ClientHelloReadBack(w.c, w.random, w.c.share(w.priv), w.psk, w.identity, Ascii("ext binder"));
    assert [] + HelloMessage(w) == HelloMessage(w);
  }

  lemma FirstPartial(w: World, priv: bytes, s: Conn, sv: Server, items: seq<Item>)
    requires ValidWorld(w) && InSync(w, s, sv) && LegalItems(w.c, priv, w.psk, sv, items)
    ensures Partial(w.c, priv, w.psk, sv, items, [])
  {
    hide Emit, Legal, InSync;
    if items != [] { EmitInSync(w, priv, s, sv, items[0]); }
  }

  // ---------------------------------------------------------------- the peer's reading

  /** A record of the client opened by the server, framing included. */
  function PeerOpen(c: Suite, keys: Keys, seqno: nat, rec: bytes): Opened {
    if |rec| < 5 || rec[0] != TYPE_DATA || GetU16(rec, 3) != |rec| - 5 then Rejected
    else Tls13Crypto.Open(c, keys, seqno, rec[..5], rec[5..])
  }

  /** The Finished the server computes over ClientHello..server Finished. */
  function ExpectedFinished(c: Suite, sv: Server): Opened {
    Opened.Opened(TYPE_HANDSHAKE, FinishedMessage(c, sv.secrets.clientHs, sv.transcript))
  }

  /** The server reading the client's records in order: a ClientHello, the expected Finished
      under the client handshake key, then application data under the client application key
      numbered from zero. */
  function PeerData(c: Suite, sv: Server, sent: Trace<bytes>): Option<Trace<bytes>> {
    match sent
    case Nothing => None
    case Then(Nothing, _) => None
    case Then(Then(Nothing, _), fin) =>
      if PeerOpen(c, TrafficKeys(c, sv.secrets.clientHs), 0, fin) == ExpectedFinished(c, sv) then Some(Nothing)
      else None
    case Then(before, rec) =>
      match PeerData(c, sv, before)
      case None => None
      case Some(ps) =>
        match PeerOpen(c, TrafficKeys(c, sv.secrets.clientAp), Count(ps) % SEQ_MODULUS, rec)
        case Rejected => None
        case Opened(t, p) => if t == TYPE_DATA then Some(Then(ps, p)) else None
  }

  /** Every buffer is short enough for the record length field. */
  predicate Short(ps: Trace<bytes>) {
    match ps
    case Nothing => true
    case Then(before, p) => Short(before) && |p| + 1 + TAG_LEN < 65536
  }

  lemma PeerOpens(c: Suite, keys: Keys, seqno: nat, contentType: byte, data: bytes)
    requires AeadLaws(c) && |data| + 1 + TAG_LEN < 65536
    ensures PeerOpen(c, keys, seqno, Protected(c, keys, seqno, contentType, data)) == Opened.Opened(contentType, data)
  {
    hide Seal, Tls13Crypto.Open;
    var n := |data| + 1 + TAG_LEN;
    var header := Header(TYPE_DATA, n);
    OpenSealed(c, keys, seqno, header, data, contentType);
    var r := Protected(c, keys, seqno, contentType, data);
    assert r[..5] == header && r[5..] == Seal(c, keys, seqno, header, data, contentType);
    U16RoundTrip(n);
    assert r[3] == U16(n)[0] && r[4] == U16(n)[1];
  }

  /** A buffer too long for the record length field is not read back. */
  lemma PeerRejects(c: Suite, keys: Keys, seqno: nat, contentType: byte, data: bytes)
    requires AeadLaws(c) && |data| + 1 + TAG_LEN >= 65536
    ensures PeerOpen(c, keys, seqno, Protected(c, keys, seqno, contentType, data)) == Rejected
  {
    hide Seal, Tls13Crypto.Open;
    OpenSealed(c, keys, seqno, Header(TYPE_DATA, |data| + 1 + TAG_LEN), data, contentType);
    var r := Protected(c, keys, seqno, contentType, data);
    assert GetU16(r, 3) < 65536 <= |r| - 5;
  }

  /** The peer's in-order reading of the prescribed records yields the submitted buffers exactly
      when each is short enough for the length field. */
  lemma {:induction false} PeerReadsScript(w: World, sv: Server, ps: Trace<bytes>)
    requires Lawful(w.c)
    ensures var base := Then(Then(Nothing, HelloRecord(w)), FinishedRecord(w, sv.secrets, sv.transcript));
            PeerData(w.c, sv, AppRecords(w.c, TrafficKeys(w.c, sv.secrets.clientAp), base, ps))
            == if Short(ps) then Some(ps) else None
  {
    hide HelloRecord, Protected, TrafficKeys, PeerOpen;
    match ps
    case Nothing => FinishedOpens(w, sv);
    case Then(before, p) =>
      var keys := TrafficKeys(w.c, sv.secrets.clientAp);
      PeerReadsScript(w, sv, before);
      if |p| + 1 + TAG_LEN < 65536 {
        PeerOpens(w.c, keys, Count(before) % SEQ_MODULUS, TYPE_DATA, p);
      } else {
        PeerRejects(w.c, keys, Count(before) % SEQ_MODULUS, TYPE_DATA, p);
      }
      AppRecordsDepth(w.c, keys, HelloRecord(w), FinishedRecord(w, sv.secrets, sv.transcript), before);
  }

  lemma FinishedOpens(w: World, sv: Server)
    requires Lawful(w.c)
    ensures PeerOpen(w.c, TrafficKeys(w.c, sv.secrets.clientHs), 0, FinishedRecord(w, sv.secrets, sv.transcript))
         == ExpectedFinished(w.c, sv)
  {
    hide Protected, TrafficKeys, PeerOpen;
    var fin := FinishedMessage(w.c, sv.secrets.clientHs, sv.transcript);
    assert |fin| == 36 by { hide ExpandLabel; }
    PeerOpens(w.c, TrafficKeys(w.c, sv.secrets.clientHs), 0, TYPE_HANDSHAKE, fin);
  }

  /** The second record of a history. */
  function Second(t: Trace<bytes>): Option<bytes> {
    match t
    case Nothing => None
    case Then(Nothing, _) => None
    case Then(Then(Nothing, _), rec) => Some(rec)
    case Then(before, _) => Second(before)
  }

  /** The second record handed down is the Finished that the server computes. */
  predicate FinishedAgrees(c: Suite, sv: Server, sent: Trace<bytes>) {
    Second(sent).Some? &&
      PeerOpen(c, TrafficKeys(c, sv.secrets.clientHs), 0, Second(sent).value) == ExpectedFinished(c, sv)
  }

  lemma {:induction false} SecondOfScript(c: Suite, keys: Keys, a: bytes, b: bytes, ps: Trace<bytes>)
    ensures Second(AppRecords(c, keys, Then(Then(Nothing, a), b), ps)) == Some(b)
  {
    hide Protected;
    if ps.Then? {
      SecondOfScript(c, keys, a, b, ps.before);
      AppRecordsDepth(c, keys, a, b, ps.before);
    }
  }

  lemma ShapeFinished(w: World, s: Conn, sv: Server)
    requires Lawful(w.c) && InSync(w, s, sv) && Shape(w, s) && Settled(s)
    requires s.phase == ClientFinished || s.phase == Data
    ensures FinishedAgrees(w.c, sv, SentOrPending(s))
  {
    hide HelloRecord, HelloMessage, FinishedRecord, TrafficKeys, PeerOpen;
    FinishedOpens(w, sv);
    SecondOfScript(w.c, TrafficKeys(w.c, s.secrets.clientAp), HelloRecord(w),
                   FinishedRecord(w, s.secrets, s.transcript), s.net.submitted);
  }

  /** The peer reads one buffer per record after the first two. */
  lemma {:induction false} PeerCounts(c: Suite, sv: Server, sent: Trace<bytes>)
    ensures var d := PeerData(c, sv, sent); d.Some? ==> Count(d.value) + 2 == Count(sent)
  {
    hide PeerOpen, TrafficKeys, ExpectedFinished;
    if sent.Then? && sent.before.Then? && sent.before.before.Then? { PeerCounts(c, sv, sent.before); }
  }

  lemma {:induction false} ScriptCounts(c: Suite, keys: Keys, base: Trace<bytes>, ps: Trace<bytes>)
    ensures Count(AppRecords(c, keys, base, ps)) == Count(base) + Count(ps)
  {
    hide Protected;
    if ps.Then? { ScriptCounts(c, keys, base, ps.before); }
  }

  lemma {:induction false} AppRecordsDepth(c: Suite, keys: Keys, a: bytes, b: bytes, ps: Trace<bytes>)
    ensures var t := AppRecords(c, keys, Then(Then(Nothing, a), b), ps); t.Then? && t.before.Then?
  {
    hide Protected;
    if ps.Then? { AppRecordsDepth(c, keys, a, b, ps.before); }
  }

  // ---------------------------------------------------------------- main theorems

  /** The setting of a run against an honest server holding the same pre-shared key: all its
      items, a bound `r` on its records, and the matching bound on deliveries. */
  ghost predicate Setting(w: World, priv: bytes, window: nat, items: seq<Item>, es: seq<Event>, r: nat) {
    var sv := Greeted(HelloMessage(w));
    && ValidWorld(w) && LegalItems(w.c, priv, w.psk, sv, items)
    && r <= MAX_RECORD && RecordsFit(w.c, priv, w.psk, sv, items, r)
    && HonestRun(w, OpenedConn(w, window), es, MAX_RECORD - r + 1)
  }

  /** Stream fidelity, at any moment of a run.  The server state `sv` is reached by sending a first
      part `done` of the items, with which the client agrees on transcript, secrets, receive key and
      sequence number; the consumer has been given exactly the payloads of those items; and
      the server's in-order decryption of what the client handed down, including a pending
      record, yields exactly the submitted buffers, each once and in order, all after the
      client Finished, if and only if each fits the record length field. */
  lemma StreamFidelity(w: World, priv: bytes, window: nat, items: seq<Item>,
                                          es: seq<Event>, tail: bytes, r: nat)
    returns (sv: Server, done: seq<Item>, rest: seq<Item>)
    requires Setting(w, priv, window, items, es, r)
    requires FedBytes(es) + tail == Stream(w.c, priv, w.psk, Greeted(HelloMessage(w)), items)
    ensures var t := Run(w, OpenedConn(w, window), es);
            && t.phase != Failed && InSync(w, t, sv)
            && items == done + rest && Passed(w, priv, Nothing, Greeted(HelloMessage(w)), done, t.net.delivered, sv)
            && LegalItems(w.c, priv, w.psk, sv, rest)
            && After(w.c, priv, w.psk, sv, rest) == After(w.c, priv, w.psk, Greeted(HelloMessage(w)), items)
            && Payloads(t.net.delivered, rest) == Payloads(Nothing, items)
            && t.rx.buf + tail == Stream(w.c, priv, w.psk, sv, rest)
            && Partial(w.c, priv, w.psk, sv, rest, t.rx.buf)
            && (t.phase != Data ==> t.net.submitted == Nothing)
            && (t.phase == Data ==>
                  (PeerData(w.c, sv, SentOrPending(t)) == Some(t.net.submitted) <==> Short(t.net.submitted)))
            && (t.phase == ClientFinished || t.phase == Data ==> FinishedAgrees(w.c, sv, SentOrPending(t)))
            && Settled(t)
  {
    hide Tx, Emit, Legal, HelloMessage, Run, AppRecords, HelloRecord, FinishedRecord, TrafficKeys, RecordsFit, HonestRun, OpenedConn, Stream, After, LegalItems, Payloads, Partial, PeerData, Passed;
    var s := OpenedConn(w, window);
    var sv0 := Greeted(HelloMessage(w));
    OpenedSynced(w, window);
    FirstPartial(w, priv, s, sv0, items);
    assert [] + (FedBytes(es) + tail) == FedBytes(es) + tail;
    sv, done, rest := RunSyncs(w, priv, s, sv0, items, es, tail, r);
    var t := Run(w, s, es);
    if t.phase == Data { PeerReadsScript(w, sv, t.net.submitted); }
    if t.phase == ClientFinished || t.phase == Data { ShapeFinished(w, t, sv); }
  }

  /** Handshake agreement: once every byte of an honest server's complete flight has been
      delivered, in whatever pieces and with ChangeCipherSpec records anywhere, both sides hold
      the same handshake and application secrets and transcript, their record counters agree,
      the consumer has been given every payload, and the client is in DATA unless the socket
      still shows a closed window, with its Finished waiting; the Finished on the wire is the
      one the server computes. */
  lemma HandshakeAgreement(w: World, priv: bytes, window: nat, items: seq<Item>,
                                              es: seq<Event>, r: nat)
    requires Setting(w, priv, window, items, es, r)
    requires FedBytes(es) == Stream(w.c, priv, w.psk, Greeted(HelloMessage(w)), items)
    requires After(w.c, priv, w.psk, Greeted(HelloMessage(w)), items).stage == Open
    ensures var t := Run(w, OpenedConn(w, window), es);
            var sv := After(w.c, priv, w.psk, Greeted(HelloMessage(w)), items);
            && t.secrets == sv.secrets && t.transcript == sv.transcript
            && t.rx.keys == sv.keys && t.rx.seqno == sv.seqno && t.rx.buf == []
            && t.net.delivered == Payloads(Nothing, items)
            && (t.phase == Data || (t.phase == ClientFinished && t.net.window == 0))
            && FinishedAgrees(w.c, sv, SentOrPending(t))
            && (t.phase == Data ==>
                  (PeerData(w.c, sv, SentOrPending(t)) == Some(t.net.submitted) <==> Short(t.net.submitted)))
  {
    hide Tx, Emit, Legal, HelloMessage, Run, AppRecords, HelloRecord, FinishedRecord, TrafficKeys, RecordsFit, HonestRun, OpenedConn, PeerData, Setting;
    assert FedBytes(es) + [] == FedBytes(es);
    var sv, done, rest := StreamFidelity(w, priv, window, items, es, [], r);
    var t := Run(w, OpenedConn(w, window), es);
    assert t.rx.buf + [] == t.rx.buf;
    assert rest == [];
  }

  /** After a submission in a state as runs reach them. */
  lemma SubmitKeepsFidelity(w: World, s: Conn, sv: Server, data: bytes)
    requires Lawful(w.c) && InSync(w, s, sv) && Shape(w, s) && Settled(s) && s.phase == Data
    ensures var t := Submit(w, s, data);
            PeerData(w.c, sv, SentOrPending(t)) == Some(t.net.submitted)
            <==> s.tx.pending == None && Short(t.net.submitted)
  {
    hide HelloRecord, HelloMessage, FinishedRecord, TrafficKeys, Protected, Nonce, Build, Tx, PeerData;
    var record := Protected(w.c, s.tx.keys, s.tx.seqno, TYPE_DATA, data);
    var s1 := s.(tx := AfterSeal(s.tx).(pending := Some(record)),
                 net := s.net.(submitted := Then(s.net.submitted, data)));
    var t := Submit(w, s, data);
    TxData(w, s1);
    if s.tx.pending == None {
      SubmitShapes(w, s, data);
      FlushShapes(w, s1);
      NotifyShapes(w, Flush(w, s1));
      PeerReadsScript(w, sv, t.net.submitted);
    } else {
      assert Flush(w, s1) == s1;
      assert SentOrPending(t) == Then(s.net.sent, record) && t.net.submitted == Then(s.net.submitted, data);
      assert Count(Script(w, s)) == Count(s.net.sent) + 1;
      assert Count(Then(Nothing, HelloRecord(w))) == 1;
      assert Count(Then(Then(Nothing, HelloRecord(w)), FinishedRecord(w, s.secrets, s.transcript))) == 2;
      PeerCounts(w.c, sv, SentOrPending(t));
      ScriptCounts(w.c, TrafficKeys(w.c, s.secrets.clientAp),
                   Then(Then(Nothing, HelloRecord(w)), FinishedRecord(w, s.secrets, s.transcript)), s.net.submitted);
    }
  }

  /** The consumer's rule is exact: in any run against an honest server, after a further
      submission the peer reads exactly what was submitted if and only if no earlier record was
      pending (and every buffer fits the length field); otherwise the pending record has been
      overwritten and one buffer is missing. */
  lemma FidelityNeedsEmptySlot(w: World, priv: bytes, window: nat, items: seq<Item>,
                               es: seq<Event>, tail: bytes, r: nat, data: bytes)
    returns (sv: Server, done: seq<Item>)
    requires Setting(w, priv, window, items, es, r)
    requires FedBytes(es) + tail == Stream(w.c, priv, w.psk, Greeted(HelloMessage(w)), items)
    requires Run(w, OpenedConn(w, window), es).phase == Data
    ensures var s := Run(w, OpenedConn(w, window), es);
            var t := Submit(w, s, data);
            && Passed(w, priv, Nothing, Greeted(HelloMessage(w)), done, s.net.delivered, sv) && InSync(w, s, sv)
            && (PeerData(w.c, sv, SentOrPending(t)) == Some(t.net.submitted)
                <==> s.tx.pending == None && Short(t.net.submitted))
  {
    hide Tx, Emit, Legal, HelloMessage, Run, AppRecords, HelloRecord, FinishedRecord, TrafficKeys, RecordsFit, HonestRun, OpenedConn, Stream, After, LegalItems, Payloads, Partial, PeerData, Passed, Submit;
    var s0, sv0 := OpenedConn(w, window), Greeted(HelloMessage(w));
    OpenedSynced(w, window);
    FirstPartial(w, priv, s0, sv0, items);
    assert [] + (FedBytes(es) + tail) == FedBytes(es) + tail;
    var rest;
    sv, done, rest := RunSyncs(w, priv, s0, sv0, items, es, tail, r);
    SubmitKeepsFidelity(w, Run(w, s0, es), sv, data);
  }

  lemma TxData(w: World, s: Conn)
    requires s.phase == Data && s.tx.pending.Some?
    ensures Tx(w, s) == Notify(Flush(w, s))
  {
    hide Flush, Notify;
  }

  /** The laws asked of the primitives can be met. */
  function NullSuite(): Suite {
    Suite(_ => Zeros(32), (_, _) => Zeros(32), (_, _) => Zeros(32), (_, _, n) => Zeros(n),
          _ => Zeros(32), (_, _) => Some(Zeros(32)),
          (_, _, _, p: bytes) => p + Zeros(TAG_LEN),
          (_, _, _, r: bytes) => if |r| < TAG_LEN then None else Some(r[..|r| - TAG_LEN]))
  }

  lemma LawsSatisfiable()
    ensures Lawful(NullSuite())
  {
    forall p: bytes ensures (p + Zeros(TAG_LEN))[..|p|] == p {}
  }
}
