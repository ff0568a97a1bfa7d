/**
 Where the connection's application secrets come from, against any peer: the handshake loop
 checks no order between ServerHello and Finished, so it is the order in which they were
 accepted that decides.
 */
module Tls13Keys {
  import opened Bytes
  import opened Tls13Crypto
  import opened Tls13Conn
  import Tls13Peer

  /** A handshake secret of the key schedule over the pre-shared key. */
  ghost predicate HandshakeFromPsk(w: World, handshake: bytes) {
    exists shared :: handshake == HandshakeSecret(w.c, EarlySecret(w.c, w.psk), shared)
  }

  /** A master secret of that key schedule. */
  ghost predicate MasterFromPsk(w: World, master: bytes) {
    exists shared :: master == MasterSecret(w.c, HandshakeSecret(w.c, EarlySecret(w.c, w.psk), shared))
  }

  /** The master secret over cleared memory, which depends on no key at all. */
  function KeylessMaster(c: Suite): bytes { MasterSecret(c, NO_SECRET) }

  /** The application secrets are those of the master secret, over one transcript. */
  ghost predicate ApFromMaster(w: World, s: Secrets) {
    exists transcript :: s.clientAp == DeriveSecret(w.c, s.master, Ascii("c ap traffic"), transcript)
                      && s.serverAp == DeriveSecret(w.c, s.master, Ascii("s ap traffic"), transcript)
  }

  ghost predicate KeysInv(w: World, s: Conn) {
    && (if s.rx.hellos == 0 then s.secrets.handshake == s.secrets.serverHs == NO_SECRET
        else HandshakeFromPsk(w, s.secrets.handshake))
    && (s.phase == ClientFinished || s.phase == Data ==> s.rx.finishedAfter.Some?)
    && (s.rx.finishedAfter.Some? ==>
          && ApFromMaster(w, s.secrets)
          && if s.rx.finishedAfter.value == 0 then s.secrets.master == KeylessMaster(w.c)
             else MasterFromPsk(w, s.secrets.master))
  }

  lemma TxKeepsKeys(w: World, s: Conn)
    requires KeysInv(w, s)
    ensures KeysInv(w, Tx(w, s))
  {
    TxKeepsRx(w, s);
    TxKeepsHandshake(w, s);
    hide Tx;
  }

  lemma TxKeepsHandshake(w: World, s: Conn)
    ensures var t := Tx(w, s);
            t.phase == ClientFinished || t.phase == Data ==> s.phase == ClientFinished || s.phase == Data
  {
    hide HelloMessage, FinishedMessage, Protected, PlainRecord, AfterSeal, InstallTx, TrafficKeys, PlainWindow;
  }

  lemma HelloKeepsKeys(w: World, s: Conn, msg: bytes)
    requires KeysInv(w, s) && OnServerHello(w, s, msg).Some?
    ensures KeysInv(w, OnServerHello(w, s, msg).value)
  {
    hide Tls13Hello.SpecParse, InstallTx, TrafficKeys, DeriveSecret, MasterSecret, HelloAcceptable;
    var t := OnServerHello(w, s, msg).value;
    assert HandshakeFromPsk(w, t.secrets.handshake);
  }

  lemma FinishedKeepsKeys(w: World, s: Conn, msg: bytes)
    requires KeysInv(w, s) && OnServerFinished(w, s, msg).Some?
    ensures KeysInv(w, OnServerFinished(w, s, msg).value)
  {
    hide TrafficKeys, DeriveSecret, MasterSecret, HandshakeSecret, Tls13Crypto.Finished;
    var t := OnServerFinished(w, s, msg).value;
    assert t.secrets.clientAp == DeriveSecret(w.c, t.secrets.master, Ascii("c ap traffic"), t.transcript);
    if s.rx.hellos > 0 {
      var shared :| s.secrets.handshake == HandshakeSecret(w.c, EarlySecret(w.c, w.psk), shared);
      assert t.secrets.master == MasterSecret(w.c, HandshakeSecret(w.c, EarlySecret(w.c, w.psk), shared));
    }
  }

  lemma MessageKeepsKeys(w: World, s: Conn, msg: bytes)
    requires KeysInv(w, s) && |msg| >= 4
    ensures OnMessage(w, s, msg).Some? ==> KeysInv(w, OnMessage(w, s, msg).value)
  {
    hide OnServerHello, OnServerFinished;
    if OnMessage(w, s, msg).Some? {
      if msg[0] == Tls13Hello.SERVER_HELLO {
        HelloKeepsKeys(w, s, msg);
      } else if msg[0] == FINISHED {
        FinishedKeepsKeys(w, s, msg);
      }
    }
  }

  lemma {:induction false} MessagesKeepKeys(w: World, s: Conn, data: bytes)
    requires KeysInv(w, s)
    ensures OnMessages(w, s, data).Some? ==> KeysInv(w, OnMessages(w, s, data).value)
    decreases |data|
  {
    hide OnMessage, KeysInv, GetU24;
    if |data| >= 4 && 4 + GetU24(data, 1) <= |data| {
      var total := 4 + GetU24(data, 1);
      MessageKeepsKeys(w, s, data[..total]);
      var r := OnMessage(w, s, data[..total]);
      if r.Some? { MessagesKeepKeys(w, r.value, data[total..]); }
    }
  }

  lemma RecordKeepsKeys(w: World, s: Conn, record: bytes)
    requires KeysInv(w, s) && |record| >= 5
    ensures OnRecord(w, s, record).Some? ==> KeysInv(w, OnRecord(w, s, record).value)
  {
    hide OnMessages, Open;
    MessagesKeepKeys(w, s, record[5..]);
    var o := Open(w.c, s.rx.keys, s.rx.seqno, record[..5], record[5..]);
    if o.Opened? {
      MessagesKeepKeys(w, s.(rx := s.rx.(seqno := (s.rx.seqno + 1) % SEQ_MODULUS)), o.data);
    }
  }

  lemma {:induction false} RxLoopKeepsKeys(w: World, s: Conn)
    requires KeysInv(w, s)
    ensures KeysInv(w, RxLoop(w, s))
    decreases |s.rx.buf|
  {
    hide OnRecord, Tx, GetU16;
    if |s.rx.buf| >= 5 {
      var total := 5 + GetU16(s.rx.buf, 3);
      if total <= MAX_RECORD && total <= |s.rx.buf| {
        var record := s.rx.buf[..total];
        RecordKeepsKeys(w, s, record);
        var r := OnRecord(w, s, record);
        if r.Some? {
          var s2 := Consumed(r.value, record, s.rx.buf[total..]);
          TxKeepsRx(w, s2);
          TxKeepsKeys(w, s2);
          RxLoopKeepsKeys(w, Tx(w, s2));
        }
      }
    }
  }

  lemma NextKeepsKeys(w: World, s: Conn, e: Event)
    requires KeysInv(w, s)
    ensures KeysInv(w, Next(w, s, e))
  {
    hide Tx, RxLoop, AfterSeal, Protected;
    match e
    case Fed(chunk) => RxLoopKeepsKeys(w, SetBuf(s, s.rx.buf + chunk));
    case Submitted(data) =>
      TxKeepsKeys(w, s.(tx := AfterSeal(s.tx).(pending := Some(Protected(w.c, s.tx.keys, s.tx.seqno, TYPE_DATA, data))),
                        net := s.net.(submitted := Then(s.net.submitted, data))));
    case WindowReported(n) => TxKeepsKeys(w, s.(net := s.net.(window := n)));
    case WindowShrinks(n) =>
  }

  lemma {:induction false} RunKeepsKeys(w: World, s: Conn, es: seq<Event>)
    requires KeysInv(w, s)
    ensures KeysInv(w, Run(w, s, es))
    decreases |es|
  {
    hide KeysInv, Next;
    if es != [] {
      NextKeepsKeys(w, s, es[0]);
      RunKeepsKeys(w, Next(w, s, es[0]), es[1..]);
    }
  }

  /** Against any peer, a connection that has finished its handshake holds application secrets
      of a master secret that is one of the pre-shared key's if and only if a ServerHello was
      accepted before the Finished that ended it; otherwise the master secret is the constant
      one over cleared memory (supposing that is not one of the key's by coincidence). */
  lemma SecretsFromPsk(w: World, window: nat, es: seq<Event>)
    ensures var s := Run(w, OpenedConn(w, window), es);
            s.phase == ClientFinished || s.phase == Data ==>
              && s.rx.finishedAfter.Some? && ApFromMaster(w, s.secrets)
              && (s.rx.finishedAfter.value == 0 ==> s.secrets.master == KeylessMaster(w.c))
              && (s.rx.finishedAfter.value > 0 ==> MasterFromPsk(w, s.secrets.master))
              && (!MasterFromPsk(w, KeylessMaster(w.c)) ==>
                    (MasterFromPsk(w, s.secrets.master) <==> s.rx.finishedAfter.value > 0))
  {
    hide Tx;
    TxKeepsKeys(w, Initial(window));
    RunKeepsKeys(w, OpenedConn(w, window), es);
  }

  /** Before any ServerHello a Finished is accepted exactly when it was computed over the
      transcript with the cleared secret. */
  lemma FinishedBeforeHello(w: World, s: Conn, msg: bytes)
    requires KeysInv(w, s) && s.rx.hellos == 0
    ensures OnServerFinished(w, s, msg).Some? <==>
              && |msg| == 36 && |s.transcript| + 36 <= TRANSCRIPT_SIZE
              && msg[4..] == Tls13Crypto.Finished(w.c, NO_SECRET, s.transcript)
  {
    hide TrafficKeys, DeriveSecret, MasterSecret, Tls13Crypto.Finished;
  }

  // ---------------------------------------------------------------- the other branch

  /** A Finished over the ClientHello alone, computed with the cleared secret. */
  function EarlyFinished(w: World): bytes { FinishedMessage(w.c, NO_SECRET, HelloMessage(w)) }

  lemma EarlyFinishedShape(w: World)
    requires ValidWorld(w)
    ensures var m := EarlyFinished(w);
            && |m| == 36 && m[0] == FINISHED && GetU24(m, 1) == 32
            && m[4..] == Tls13Crypto.Finished(w.c, NO_SECRET, HelloMessage(w))
            && |HelloMessage(w)| <= MAX_CLIENT_HELLO
  {
    hide ExpandLabel;
    assert |Tls13Crypto.Finished(w.c, NO_SECRET, HelloMessage(w))| == 32;
    hide Tls13Crypto.Finished, Tls13Hello.ClientHello, Tls13Hello.ReadClientHello;
    Tls13Hello.ClientHelloReadBack(w.c, w.random, w.c.share(w.priv), w.psk, w.identity, Ascii("ext binder"));
  }

  lemma OpenedAwaits(w: World, window: nat)
    requires ValidWorld(w)
    ensures var s := OpenedConn(w, window);
            && s.phase == ServerFlight && s.transcript == HelloMessage(w) && s.secrets == NO_SECRETS
            && s.rx == Initial(window).rx
  {
    TxKeepsRx(w, Initial(window));
    EarlyFinishedShape(w);
    hide HelloMessage, PlainRecord, PlainWindow, EarlyFinished;
    assert [] + HelloMessage(w) == HelloMessage(w);
  }

  /** The record is accepted as the end of the handshake. */
  lemma EarlyFinishedAccepted(w: World, s: Conn)
    requires ValidWorld(w) && s.transcript == HelloMessage(w) && s.secrets == NO_SECRETS && s.rx.hellos == 0
    ensures var r := OnRecord(w, s, PlainRecord(TYPE_HANDSHAKE, EarlyFinished(w)));
            r.Some? && r.value.phase == ClientFinished && r.value.rx.finishedAfter == Some(0)
  {
    EarlyFinishedShape(w);
    var m := EarlyFinished(w);
    hide HelloMessage, EarlyFinished, OnMessage, PlainRecord, Tls13Crypto.Finished;
    Tls13Peer.PlainShape(TYPE_HANDSHAKE, m);
    Tls13Peer.SingleMessage(w, s, m);
    FinishedEnds(w, s, m);
  }

  lemma FinishedEnds(w: World, s: Conn, m: bytes)
    requires |m| == 36 && m[0] == FINISHED && |s.transcript| + 36 <= TRANSCRIPT_SIZE
    requires m[4..] == Tls13Crypto.Finished(w.c, s.secrets.serverHs, s.transcript)
    ensures var r := OnMessage(w, s, m);
            r.Some? && r.value.phase == ClientFinished && r.value.rx.finishedAfter == Some(s.rx.hellos)
  {
    hide TrafficKeys, DeriveSecret, MasterSecret, Tls13Crypto.Finished;
  }

  /** The keyless branch is not empty: that record alone, right after the ClientHello, takes the
      connection past its handshake with no ServerHello accepted. */
  lemma KeylessIsReachable(w: World, window: nat)
    requires ValidWorld(w)
    ensures var es := [Fed(PlainRecord(TYPE_HANDSHAKE, EarlyFinished(w)))];
            var t := Run(w, OpenedConn(w, window), es);
            && AllEnabled(w, OpenedConn(w, window), es)
            && (t.phase == ClientFinished || t.phase == Data) && t.rx.finishedAfter == Some(0)
            && t.secrets.master == KeylessMaster(w.c)
  {
    var rec := PlainRecord(TYPE_HANDSHAKE, EarlyFinished(w));
    var es := [Fed(rec)];
    var s := OpenedConn(w, window);
    SecretsFromPsk(w, window, es);
    OpenedAwaits(w, window);
    EarlyFinishedAccepted(w, SetBuf(s, rec));
    EarlyFinishedShape(w);
    hide OpenedConn, EarlyFinished, PlainRecord, OnRecord, Tx, HelloMessage, KeylessMaster, KeysInv, Feed;
    Tls13Peer.PlainShape(TYPE_HANDSHAKE, EarlyFinished(w));
    FeedRecord(w, s, rec);
    var s2 := Consumed(OnRecord(w, SetBuf(s, rec), rec).value, rec, []);
    TxKeepsRx(w, s2);
    TxStays(w, s2);
    assert es[1..] == [] && Run(w, s, es) == Run(w, Next(w, s, es[0]), []);
  }

  /** Feeding one complete record to an empty buffer. */
  lemma FeedRecord(w: World, s: Conn, rec: bytes)
    requires s.rx.buf == [] && 5 <= |rec| <= MAX_RECORD && GetU16(rec, 3) == |rec| - 5
    requires OnRecord(w, SetBuf(s, rec), rec).Some?
    ensures Feed(w, s, rec) == Tx(w, Consumed(OnRecord(w, SetBuf(s, rec), rec).value, rec, []))
  {
    hide OnRecord, Tx, GetU16;
    var s1 := SetBuf(s, rec);
    assert s.rx.buf + rec == rec && rec[..|rec|] == rec && rec[|rec|..] == [];
    var s2 := Consumed(OnRecord(w, s1, rec).value, rec, []);
    TxKeepsRx(w, s2);
    assert RxLoop(w, Tx(w, s2)) == Tx(w, s2);
  }

  lemma TxStays(w: World, s: Conn)
    requires s.phase == ClientFinished
    ensures Tx(w, s).phase == ClientFinished || Tx(w, s).phase == Data
  {
    hide HelloMessage, FinishedMessage, Protected, PlainRecord, AfterSeal, InstallTx, TrafficKeys, PlainWindow;
  }
}
