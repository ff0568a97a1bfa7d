/**
 The handshake completes: over a socket that keeps its window open, every cutting of an honest
 server's flight brings the connection to DATA, and every server has such a flight.
 */
module Tls13Completes {
  import opened Bytes
  import opened Tls13Crypto
  import opened Tls13Hello
  import opened Tls13Conn
  import opened Tls13Runs
  import opened Tls13Peer
  import opened Tls13Agreement

  // ---------------------------------------------------------------- an open socket

  /** The socket shows an open window after every record it takes. */
  ghost predicate OpenSocket(w: World) { forall k :: w.windowAfter(k) > 0 }

  /** Something has been sent and the socket's window is open. */
  predicate Flowing(n: Net) { n.sent != Nothing && n.window > 0 }

  lemma TxFlows(w: World, s: Conn)
    requires OpenSocket(w) && Flowing(s.net)
    ensures Flowing(Tx(w, s).net)
  {
    hide HelloMessage, FinishedMessage, Protected, PlainRecord, AfterSeal, InstallTx, TrafficKeys, PlainWindow;
  }

  /** A record changes nothing outside but what is delivered. */
  lemma OnRecordDelivers(w: World, s: Conn, record: bytes)
    requires |record| >= 5
    ensures var r := OnRecord(w, s, record);
            r.Some? ==> r.value.net == s.net.(delivered := r.value.net.delivered)
  {
    hide OnMessages, Tls13Crypto.Open;
    MessagesKeepNet(w, s, record[5..]);
    var o := Tls13Crypto.Open(w.c, s.rx.keys, s.rx.seqno, record[..5], record[5..]);
    if o.Opened? {
      MessagesKeepNet(w, s.(rx := s.rx.(seqno := (s.rx.seqno + 1) % SEQ_MODULUS)), o.data);
    }
  }

  lemma {:induction false} RxLoopFlows(w: World, s: Conn)
    requires OpenSocket(w) && Flowing(s.net)
    ensures Flowing(RxLoop(w, s).net)
    decreases |s.rx.buf|
  {
    hide OnRecord, Tx, GetU16;
    if |s.rx.buf| >= 5 {
      var total := 5 + GetU16(s.rx.buf, 3);
      if total <= MAX_RECORD && total <= |s.rx.buf| {
        var record := s.rx.buf[..total];
        OnRecordDelivers(w, s, record);
        var r := OnRecord(w, s, record);
        if r.Some? {
          var s2 := Consumed(r.value, record, s.rx.buf[total..]);
          TxKeepsRx(w, s2);
          TxFlows(w, s2);
          RxLoopFlows(w, Tx(w, s2));
        }
      }
    }
  }

  lemma FeedFlows(w: World, s: Conn, chunk: bytes)
    requires OpenSocket(w) && Flowing(s.net)
    ensures Flowing(Feed(w, s, chunk).net)
  {
    hide RxLoop, Flowing;
    RxLoopFlows(w, SetBuf(s, s.rx.buf + chunk));
  }

  // ---------------------------------------------------------------- deliveries

  /** The pieces delivered one after another. */
  function Deliveries(chunks: seq<bytes>): seq<Event> {
    if chunks == [] then [] else [Fed(chunks[0])] + Deliveries(chunks[1..])
  }

  function Joined(chunks: seq<bytes>): bytes {
    if chunks == [] then [] else chunks[0] + Joined(chunks[1..])
  }

  predicate PiecesAtMost(chunks: seq<bytes>, d: nat) {
    forall i :: 0 <= i < |chunks| ==> |chunks[i]| <= d
  }

  lemma {:induction false} DeliveriesFeed(chunks: seq<bytes>)
    ensures FedBytes(Deliveries(chunks)) == Joined(chunks)
  {
    if chunks != [] {
      DeliveriesFeed(chunks[1..]);
      assert Deliveries(chunks)[1..] == Deliveries(chunks[1..]);
    }
  }

  lemma {:induction false} DeliveriesHonest(w: World, s: Conn, chunks: seq<bytes>, d: nat)
    requires OpenSocket(w) && Flowing(s.net) && PiecesAtMost(chunks, d)
    ensures HonestRun(w, s, Deliveries(chunks), d) && Flowing(Run(w, s, Deliveries(chunks)).net)
    decreases |chunks|
  {
    hide Feed;
    if chunks != [] {
      FeedFlows(w, s, chunks[0]);
      DeliveriesHonest(w, Feed(w, s, chunks[0]), chunks[1..], d);
      assert Deliveries(chunks)[1..] == Deliveries(chunks[1..]);
    }
  }

  lemma OpenedFlows(w: World, window: nat)
    requires ValidWorld(w) && OpenSocket(w) && window > 0
    ensures Flowing(OpenedConn(w, window).net)
  {
    hide Tls13Hello.ClientHello, PlainRecord;
    ClientHelloReadBack(w.c, w.random, w.c.share(w.priv), w.psk, w.identity, Ascii("ext binder"));
  }

  /** With an open socket the handshake completes for every cutting of a complete flight: the
      client is in DATA, holds the server's secrets, has delivered every payload, and the
      server accepts its Finished. */
  lemma HandshakeCompletes(w: World, priv: bytes, window: nat, items: seq<Item>,
                                              chunks: seq<bytes>, r: nat)
    requires ValidWorld(w) && OpenSocket(w) && window > 0 && r <= MAX_RECORD
    requires LegalItems(w.c, priv, w.psk, Greeted(HelloMessage(w)), items)
    requires RecordsFit(w.c, priv, w.psk, Greeted(HelloMessage(w)), items, r)
    requires Joined(chunks) == Stream(w.c, priv, w.psk, Greeted(HelloMessage(w)), items)
    requires PiecesAtMost(chunks, MAX_RECORD - r + 1)
    requires After(w.c, priv, w.psk, Greeted(HelloMessage(w)), items).stage == Stage.Open
    ensures Setting(w, priv, window, items, Deliveries(chunks), r)
    ensures var t := Run(w, OpenedConn(w, window), Deliveries(chunks));
            var sv := After(w.c, priv, w.psk, Greeted(HelloMessage(w)), items);
            && t.phase == Data && t.secrets == sv.secrets && t.rx.seqno == sv.seqno
            && t.net.delivered == Payloads(Nothing, items)
            && PeerData(w.c, sv, SentOrPending(t)) == Some(t.net.submitted)
  {
    hide Tx, Emit, Legal, HelloMessage, Run, RecordsFit, HonestRun, OpenedConn, Stream, After, LegalItems, Payloads, PeerData;
    OpenedFlows(w, window);
    DeliveriesHonest(w, OpenedConn(w, window), chunks, MAX_RECORD - r + 1);
    DeliveriesFeed(chunks);
    var es := Deliveries(chunks);
    HandshakeAgreement(w, priv, window, items, es, r);
    NothingSubmitted(w, OpenedConn(w, window), chunks);
    OpenedSubmitsNothing(w, window);
  }

  lemma OpenedSubmitsNothing(w: World, window: nat)
    ensures OpenedConn(w, window).net.submitted == Nothing
  {
    hide Tx;
    TxKeepsRx(w, Initial(window));
  }

  /** Receiving submits nothing. */
  lemma {:induction false} NothingSubmitted(w: World, s: Conn, chunks: seq<bytes>)
    ensures Run(w, s, Deliveries(chunks)).net.submitted == s.net.submitted
    decreases |chunks|
  {
    hide Feed;
    if chunks != [] {
      FeedSubmitsNothing(w, s, chunks[0]);
      NothingSubmitted(w, Feed(w, s, chunks[0]), chunks[1..]);
      assert Deliveries(chunks)[1..] == Deliveries(chunks[1..]);
    }
  }

  lemma FeedSubmitsNothing(w: World, s: Conn, chunk: bytes)
    ensures Feed(w, s, chunk).net.submitted == s.net.submitted
  {
    hide RxLoop;
    RxLoopSubmitsNothing(w, SetBuf(s, s.rx.buf + chunk));
  }

  lemma {:induction false} RxLoopSubmitsNothing(w: World, s: Conn)
    ensures RxLoop(w, s).net.submitted == s.net.submitted
    decreases |s.rx.buf|
  {
    hide OnRecord, Tx, GetU16;
    if |s.rx.buf| >= 5 {
      var total := 5 + GetU16(s.rx.buf, 3);
      if total <= MAX_RECORD && total <= |s.rx.buf| {
        var record := s.rx.buf[..total];
        OnRecordDelivers(w, s, record);
        var r := OnRecord(w, s, record);
        if r.Some? {
          var s2 := Consumed(r.value, record, s.rx.buf[total..]);
          TxKeepsRx(w, s2);
          RxLoopSubmitsNothing(w, Tx(w, s2));
        }
      }
    }
  }

  // ---------------------------------------------------------------- every server has a flight

  function FlightExts(share: bytes): seq<Ext> {
    [Ext(EXT_SUPPORTED_VERSIONS, [3, 4]), Ext(EXT_PRE_SHARED_KEY, [0, 0]),
     Ext(EXT_KEY_SHARE, [0, GROUP_X25519, 0, 32] + share)]
  }

  /** The shortest flight of a server with the given key. */
  function Flight(c: Suite, priv: bytes): seq<Item> {
    [Hello(Zeros(32), [], FlightExts(c.share(priv))), ExtensionsAndFinished([ENCRYPTED_EXTENSIONS, 0, 0, 2, 0, 0])]
  }

  lemma FlightExtsFine(share: bytes)
    requires |share| == 32
    ensures var es := FlightExts(share);
            && AllAcceptable(es) && (forall e :: e in es ==> Encodable(e))
            && HelloAcceptable(HelloOf(AES_128_GCM_SHA256, es))
            && HelloOf(AES_128_GCM_SHA256, es).publicKey == share
            && |EncodeExts(es)| == 52
  {
    var es := FlightExts(share);
    assert es[2].body[4..] == share;
    assert es[..2] == [es[0], es[1]] && es[..1] == [es[0]];
    assert Last(es, EXT_KEY_SHARE) == Some(es[2].body);
    assert Last(es, EXT_PRE_SHARED_KEY) == Last(es[..2], EXT_PRE_SHARED_KEY) == Some(es[1].body);
    assert es[..2][..1] == es[..1];
    assert Last(es, EXT_SUPPORTED_VERSIONS) == Last(es[..2], EXT_SUPPORTED_VERSIONS)
        == Last(es[..1], EXT_SUPPORTED_VERSIONS) == Some(es[0].body);
    EncodeExtsSplit(es, 2);
    assert es[2..] == [es[2]];
    EncodeTwo(es[0], es[1]);
    assert EncodeExts([es[2]]) == EncodeExt(es[2]) by { assert [es[2]][1..] == []; }
  }

  lemma HelloLen(i: Item)
    requires i.Hello? && |i.random| == 32 && i.sessionId == []
    ensures |HelloMsg(i)| == 44 + |EncodeExts(i.exts)|
  {
    hide EncodeExts;
  }

  lemma FlightLegal(w: World, priv: bytes)
    requires ValidWorld(w)
    ensures var sv := Greeted(HelloMessage(w));
            var items := Flight(w.c, priv);
            && LegalItems(w.c, priv, w.psk, sv, items)
            && After(w.c, priv, w.psk, sv, items).stage == Stage.Open
  {
    var sv := Greeted(HelloMessage(w));
    var items := Flight(w.c, priv);
    ClientHelloReadBack(w.c, w.random, w.c.share(w.priv), w.psk, w.identity, Ascii("ext binder"));
    assert |HelloMessage(w)| <= MAX_CLIENT_HELLO && |w.c.share(priv)| == 32;
    hide ClientHello, ReadClientHello, HelloMessage, Emit, Legal, UsableWorld, ValidWorld;
    FlightHello(w.c, priv, w.psk, sv);
    var sv1 := Emit(w.c, priv, w.psk, sv, items[0]).0;
    FlightRest(w.c, priv, w.psk, sv1);
    assert items[1..] == [items[1]] && [items[1]][1..] == [];
    assert LegalItems(w.c, priv, w.psk, sv1, items[1..]);
    assert After(w.c, priv, w.psk, sv1, items[1..]) == Emit(w.c, priv, w.psk, sv1, items[1]).0;
  }

  lemma FlightHello(c: Suite, priv: bytes, psk: bytes, sv: Server)
    requires sv.stage == AwaitHello && |sv.transcript| <= MAX_CLIENT_HELLO && |c.share(priv)| == 32
    ensures var i := Flight(c, priv)[0];
            && Legal(c, priv, sv, i)
            && var sv1 := Emit(c, priv, psk, sv, i).0;
               sv1.stage == AwaitExtensions && |sv1.transcript| <= 700
  {
    hide HelloOf, HelloAcceptable, EncodeExts, AllAcceptable, HandshakeSecrets, TrafficKeys, PlainRecord, ServerShared, HelloMsg;
    FlightExtsFine(c.share(priv));
    HelloLen(Flight(c, priv)[0]);
  }

  lemma FlightRest(c: Suite, priv: bytes, psk: bytes, sv: Server)
    requires sv.stage == AwaitExtensions && |sv.transcript| <= 700
    ensures var i := Flight(c, priv)[1];
            Legal(c, priv, sv, i) && Emit(c, priv, psk, sv, i).0.stage == Stage.Open
  {
    hide ApplicationSecrets, TrafficKeys, Protected, FinishedMessage, HelloLegal;
  }

  /** No legal record exceeds the receive buffer. */
  lemma {:induction false} LegalRecordsFit(w: World, priv: bytes, s: Conn, sv: Server, items: seq<Item>)
    requires ValidWorld(w) && Synced(w, s, sv) && s.net.sent != Nothing
    requires LegalItems(w.c, priv, w.psk, sv, items)
    ensures RecordsFit(w.c, priv, w.psk, sv, items, MAX_RECORD)
    decreases |items|
  {
    hide Emit, Legal, OnRecord, Tx, Synced;
    if items != [] {
      RecordSyncs(w, priv, s, sv, items[0], []);
      var (sv', rec) := Emit(w.c, priv, w.psk, sv, items[0]);
      LegalRecordsFit(w, priv, Tx(w, Consumed(OnRecord(w, s, rec).value, rec, [])), sv', items[1..]);
    }
  }

  function Single(stream: bytes): seq<bytes> {
    if stream == [] then [] else [[stream[0]]] + Single(stream[1..])
  }

  lemma {:induction false} SingleJoins(stream: bytes)
    ensures Joined(Single(stream)) == stream && PiecesAtMost(Single(stream), 1)
  {
    if stream != [] {
      SingleJoins(stream[1..]);
      assert Single(stream)[1..] == Single(stream[1..]);
    }
  }

  /** Whatever its key, a server holding the same pre-shared key can complete the handshake,
      even delivering its flight one byte at a time. */
  lemma EveryServerCompletes(w: World, priv: bytes, window: nat)
    requires ValidWorld(w) && OpenSocket(w) && window > 0
    ensures var sv := Greeted(HelloMessage(w));
            && LegalItems(w.c, priv, w.psk, sv, Flight(w.c, priv))
            && var es := Deliveries(Single(Stream(w.c, priv, w.psk, sv, Flight(w.c, priv))));
               && Setting(w, priv, window, Flight(w.c, priv), es, MAX_RECORD)
               && Run(w, OpenedConn(w, window), es).phase == Data
  {
    hide HelloMessage, Flight, LegalItems, Stream, After, RecordsFit, Setting, OpenedConn, Run, Payloads, PeerData, Synced;
    var sv, items := Greeted(HelloMessage(w)), Flight(w.c, priv);
    FlightLegal(w, priv);
    OpenedSynced(w, window);
    OpenedFlows(w, window);
    LegalRecordsFit(w, priv, OpenedConn(w, window), sv, items);
    SingleJoins(Stream(w.c, priv, w.psk, sv, items));
    HandshakeCompletes(w, priv, window, items, Single(Stream(w.c, priv, w.psk, sv, items)), MAX_RECORD);
  }

  // ---------------------------------------------------------------- a pending record

  lemma {:induction false} RunAppend(w: World, s: Conn, es: seq<Event>, e: Event)
    ensures Run(w, s, es + [e]) == Next(w, Run(w, s, es), e)
    decreases |es|
  {
    hide Next;
    if es == [] {
      assert ([] + [e])[1..] == [];
    } else {
      assert (es + [e])[1..] == es[1..] + [e];
      RunAppend(w, Next(w, s, es[0]), es[1..], e);
    }
  }

  lemma SubmitOnClosedWindow(w: World, s: Conn, data: bytes)
    requires s.phase == Data && s.net.window == 0
    ensures var t := Submit(w, s, data); t.phase == Data && t.tx.pending.Some?
  {
    hide Protected, AfterSeal, Build, PlainWindow;
  }

  lemma {:induction false} HonestAppend(w: World, s: Conn, es: seq<Event>, e: Event, d: nat)
    requires HonestRun(w, s, es, d) && Permitted(Run(w, s, es), e) && !e.Fed?
    ensures HonestRun(w, s, es + [e], d) && FedBytes(es + [e]) == FedBytes(es)
    decreases |es|
  {
    hide Next;
    if es == [] {
      assert [e][1..] == [] && [] + [e] == [e];
      assert HonestRun(w, Next(w, s, e), [], d);
    } else {
      assert (es + [e])[1..] == es[1..] + [e];
      HonestAppend(w, Next(w, s, es[0]), es[1..], e, d);
    }
  }

  /** After the bytewise handshake nothing is pending. */
  lemma NothingPending(w: World, priv: bytes, window: nat)
    requires ValidWorld(w) && OpenSocket(w) && window > 0
    ensures var sv := Greeted(HelloMessage(w));
            && LegalItems(w.c, priv, w.psk, sv, Flight(w.c, priv))
            && var stream := Stream(w.c, priv, w.psk, sv, Flight(w.c, priv));
               var t := Run(w, OpenedConn(w, window), Deliveries(Single(stream)));
               FedBytes(Deliveries(Single(stream))) == stream && t.tx.pending == None && t.net.window > 0
  {
    hide HelloMessage, Flight, LegalItems, Stream, After, RecordsFit, Setting, OpenedConn, Run, Payloads, PeerData, Synced, HonestRun;
    var sv, items := Greeted(HelloMessage(w)), Flight(w.c, priv);
    EveryServerCompletes(w, priv, window);
    var stream := Stream(w.c, priv, w.psk, sv, items);
    var chunks := Single(stream);
    SingleJoins(stream);
    DeliveriesFeed(chunks);
    OpenedFlows(w, window);
    DeliveriesHonest(w, OpenedConn(w, window), chunks, 1);
    assert FedBytes(Deliveries(chunks)) + [] == stream;
    var _, _, _ := StreamFidelity(w, priv, window, items, Deliveries(chunks), [], MAX_RECORD);
  }

  /** A record may be pending in DATA, in a run as the agreement theorems speak of: after a
      completed handshake the window closes, and the consumer submits all the same. */
  lemma PendingIsReachable(w: World, priv: bytes, window: nat, data: bytes) returns (es: seq<Event>)
    requires ValidWorld(w) && OpenSocket(w) && window > 0
    ensures Setting(w, priv, window, Flight(w.c, priv), es, MAX_RECORD)
    ensures FedBytes(es) == Stream(w.c, priv, w.psk, Greeted(HelloMessage(w)), Flight(w.c, priv))
    ensures var t := Run(w, OpenedConn(w, window), es); t.phase == Data && t.tx.pending.Some?
  {
    var s := OpenedConn(w, window);
    EveryServerCompletes(w, priv, window);
    NothingPending(w, priv, window);
    es := Deliveries(Single(Stream(w.c, priv, w.psk, Greeted(HelloMessage(w)), Flight(w.c, priv))));
    assert HonestRun(w, s, es, 1);
    hide Run, OpenedConn, LegalItems, Stream, HelloMessage, Flight, Submit, RecordsFit, HonestRun, UsableWorld;
    HonestAppend(w, s, es, WindowShrinks(0), 1);
    RunAppend(w, s, es, WindowShrinks(0));
    var closed := es + [WindowShrinks(0)];
    HonestAppend(w, s, closed, Submitted(data), 1);
    RunAppend(w, s, closed, Submitted(data));
    SubmitOnClosedWindow(w, Run(w, s, closed), data);
    es := closed + [Submitted(data)];
  }
}
