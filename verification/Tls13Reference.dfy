/**
 The key schedule and the Finished of RFC 8446 (sections 4.4.4 and 7.1) written out byte by byte
 from the primitives alone, and the connection measured against them: for every peer, every
 secret it holds is the one the messages it accepted prescribe, and it accepts no ServerHello and
 no Finished but the right ones.
 */
module Tls13Reference {
  import opened Bytes
  import opened Tls13Crypto
  import opened Tls13Conn
  import Tls13Hello
  import Tls13Peer

  // ---------------------------------------------------------------- the key schedule

  function Text(s: string): bytes { seq(|s|, i requires 0 <= i < |s| => if s[i] < 128 as char then s[i] as int else 0) }

  predicate Plain(s: string) { |s| < 128 && forall i :: 0 <= i < |s| ==> s[i] < 128 as char }

  /** HkdfLabel: length, "tls13 " and the label, and the context, each with its own length. */
  function Info(len: nat, name: string, context: bytes): bytes {
    [len / 256 % 256, len % 256] + [(6 + |name|) % 256, 116, 108, 115, 49, 51, 32] + Text(name) + [|context| % 256] + context
  }

  function Expand(c: Suite, secret: bytes, name: string, context: bytes, len: nat): bytes {
    c.expand(secret, Info(len, name, context), len)
  }

  lemma ExpandIs(c: Suite, secret: bytes, name: string, context: bytes, len: nat)
    requires Plain(name)
    ensures ExpandLabel(c, secret, Ascii(name), context, len) == Expand(c, secret, name, context, len)
  {
    assert Ascii(name) == Text(name);
    assert LABEL_PREFIX == [116, 108, 115, 49, 51, 32];
    assert HkdfLabel(len, Ascii(name), context) == Info(len, name, context);
  }

  function Early(c: Suite, psk: bytes): bytes { c.extract([], psk) }

  function Handshake(c: Suite, psk: bytes, shared: bytes): bytes {
    c.extract(Expand(c, Early(c, psk), "derived", c.hash([]), 32), shared)
  }

  function Master(c: Suite, handshake: bytes): bytes {
    c.extract(Expand(c, handshake, "derived", c.hash([]), 32), seq(32, _ => 0))
  }

  function Verify(c: Suite, secret: bytes, transcript: bytes): bytes {
    c.hmac(Expand(c, secret, "finished", [], 32), c.hash(transcript))
  }

  /** The schedule the connection computes is this one. */
  lemma ScheduleIs(c: Suite, psk: bytes, shared: bytes, transcript: bytes)
    ensures var hs := HandshakeSecrets(c, psk, shared, transcript);
            && hs.handshake == Handshake(c, psk, shared)
            && hs.clientHs == Expand(c, hs.handshake, "c hs traffic", c.hash(transcript), 32)
            && hs.serverHs == Expand(c, hs.handshake, "s hs traffic", c.hash(transcript), 32)
  {
    hide ExpandLabel, Expand;
    ExpandIs(c, Early(c, psk), "derived", c.hash([]), 32);
    var hs := Handshake(c, psk, shared);
    ExpandIs(c, hs, "c hs traffic", c.hash(transcript), 32);
    ExpandIs(c, hs, "s hs traffic", c.hash(transcript), 32);
  }

  lemma ApplicationIs(c: Suite, s: Secrets, transcript: bytes)
    ensures var ap := ApplicationSecrets(c, s, transcript);
            && ap.master == Master(c, s.handshake)
            && ap.clientAp == Expand(c, ap.master, "c ap traffic", c.hash(transcript), 32)
            && ap.serverAp == Expand(c, ap.master, "s ap traffic", c.hash(transcript), 32)
            && ap.handshake == s.handshake && ap.clientHs == s.clientHs && ap.serverHs == s.serverHs
  {
    hide ExpandLabel, Expand;
    ExpandIs(c, s.handshake, "derived", c.hash([]), 32);
    assert Zeros(DIGEST_LEN) == seq(32, _ => 0);
    var master := Master(c, s.handshake);
    ExpandIs(c, master, "c ap traffic", c.hash(transcript), 32);
    ExpandIs(c, master, "s ap traffic", c.hash(transcript), 32);
  }

  /** Traffic keys, the verify_data of a Finished, and the binder of a pre-shared key. */
  lemma KeysAre(c: Suite, secret: bytes, psk: bytes, transcript: bytes)
    requires |Expand(c, secret, "iv", [], 12)| == 12
    ensures TrafficKeys(c, secret).key == Expand(c, secret, "key", [], 16)
    ensures TrafficKeys(c, secret).iv == Expand(c, secret, "iv", [], 12)
    ensures Tls13Crypto.Finished(c, secret, transcript) == Verify(c, secret, transcript)
    ensures Binder(c, EarlySecret(c, psk), Ascii("ext binder"), transcript)
         == Verify(c, Expand(c, Early(c, psk), "ext binder", c.hash([]), 32), transcript)
  {
    ExpandIs(c, secret, "key", [], 16);
    ExpandIs(c, secret, "iv", [], 12);
    VerifyIs(c, secret, transcript);
    ExpandIs(c, Early(c, psk), "ext binder", c.hash([]), 32);
    VerifyIs(c, Expand(c, Early(c, psk), "ext binder", c.hash([]), 32), transcript);
    hide ExpandLabel, Expand, Tls13Crypto.Finished, Verify;
  }

  lemma VerifyIs(c: Suite, secret: bytes, transcript: bytes)
    ensures Tls13Crypto.Finished(c, secret, transcript) == Verify(c, secret, transcript)
  {
    ExpandIs(c, secret, "finished", [], 32);
    hide ExpandLabel, Expand;
  }

  // ---------------------------------------------------------------- what was accepted

  /** The secrets prescribed by the messages accepted, in order. */
  function Prescribed(w: World, t: Trace<Accepted>): Secrets {
    match t
    case Nothing => NO_SECRETS
    case Then(before, AcceptedHello(msg, pre, shared)) =>
      var hs := Handshake(w.c, w.psk, shared);
      var at := w.c.hash(pre + msg);
      Prescribed(w, before).(handshake := hs,
                             clientHs := Expand(w.c, hs, "c hs traffic", at, 32),
                             serverHs := Expand(w.c, hs, "s hs traffic", at, 32))
    case Then(before, AcceptedFinished(msg, pre, _)) =>
      var s := Prescribed(w, before);
      var master := Master(w.c, s.handshake);
      var at := w.c.hash(pre + msg);
      s.(master := master,
         clientAp := Expand(w.c, master, "c ap traffic", at, 32),
         serverAp := Expand(w.c, master, "s ap traffic", at, 32))
  }

  /** A ServerHello for TLS 1.3 and AES-128-GCM-SHA256 with a key share that agrees to the shared
      secret, and with the pre-shared key selected. */
  predicate RightHello(w: World, msg: bytes, shared: bytes) {
    match Tls13Hello.SpecParse(msg)
    case None => false
    case Some(h) =>
      && h.version == 0x0304 && h.cipherSuite == 0x1301 && h.hasKeyShare && h.hasPsk
      && w.c.agree(w.priv, h.publicKey) == Some(shared)
  }

  /** Thirty-six bytes whose last thirty-two are the HMAC over the transcript. */
  predicate RightFinished(c: Suite, msg: bytes, before: bytes, secret: bytes) {
    |msg| == 36 && msg[4..] == Verify(c, secret, before)
  }

  /** Everything accepted was right, in view of what was accepted before it. */
  predicate AllRight(w: World, t: Trace<Accepted>) {
    match t
    case Nothing => true
    case Then(before, AcceptedHello(msg, pre, shared)) => AllRight(w, before) && RightHello(w, msg, shared)
    case Then(before, AcceptedFinished(msg, pre, secret)) =>
      && AllRight(w, before) && secret == Prescribed(w, before).serverHs
      && RightFinished(w.c, msg, pre, secret)
  }

  predicate FinishedAmong(t: Trace<Accepted>) {
    match t
    case Nothing => false
    case Then(before, a) => a.AcceptedFinished? || FinishedAmong(before)
  }

  /** Where the transcript stood after the last message accepted. */
  function Mark(t: Trace<Accepted>): bytes {
    if t.Nothing? then [] else t.last.before + t.last.msg
  }

  /** The transcript has only grown. */
  predicate Grown(t: Trace<Accepted>) {
    match t
    case Nothing => true
    case Then(before, a) => Grown(before) && Mark(before) <= a.before
  }

  predicate RefInv(w: World, s: Conn) {
    && s.secrets == Prescribed(w, s.rx.accepted) && AllRight(w, s.rx.accepted)
    && Grown(s.rx.accepted) && Mark(s.rx.accepted) <= s.transcript
    && (s.phase == ClientFinished || s.phase == Data ==> FinishedAmong(s.rx.accepted))
  }

  // ---------------------------------------------------------------- every step

  lemma PrefixOn(a: bytes, b: bytes, c: bytes)
    requires a <= b
    ensures a <= b + c
  {
  }

  lemma RefHello(w: World, s: Conn, msg: bytes)
    requires RefInv(w, s) && OnServerHello(w, s, msg).Some?
    ensures RefInv(w, OnServerHello(w, s, msg).value)
  {
    var shared := w.c.agree(w.priv, Tls13Hello.SpecParse(msg).value.publicKey).value;
    ScheduleIs(w.c, w.psk, shared, s.transcript + msg);
    hide Tls13Hello.SpecParse, InstallTx, TrafficKeys, HandshakeSecrets, Handshake, Expand;
  }

  lemma RefFinished(w: World, s: Conn, msg: bytes)
    requires RefInv(w, s) && OnServerFinished(w, s, msg).Some?
    ensures RefInv(w, OnServerFinished(w, s, msg).value)
  {
    ApplicationIs(w.c, s.secrets, s.transcript + msg);
    VerifyIs(w.c, s.secrets.serverHs, s.transcript);
    hide TrafficKeys, ApplicationSecrets, Master, Expand, Tls13Crypto.Finished, Verify, Handshake;
  }

  lemma RefMessage(w: World, s: Conn, msg: bytes)
    requires RefInv(w, s) && |msg| >= 4
    ensures OnMessage(w, s, msg).Some? ==> RefInv(w, OnMessage(w, s, msg).value)
  {
    hide OnServerHello, OnServerFinished, Prescribed, AllRight;
    if OnMessage(w, s, msg).Some? {
      if msg[0] == Tls13Hello.SERVER_HELLO {
        RefHello(w, s, msg);
      } else if msg[0] == FINISHED {
        RefFinished(w, s, msg);
      } else {
        PrefixOn(Mark(s.rx.accepted), s.transcript, msg);
      }
    }
  }

  lemma {:induction false} RefMessages(w: World, s: Conn, data: bytes)
    requires RefInv(w, s)
    ensures OnMessages(w, s, data).Some? ==> RefInv(w, OnMessages(w, s, data).value)
    decreases |data|
  {
    hide OnMessage, RefInv, GetU24;
    if |data| >= 4 && 4 + GetU24(data, 1) <= |data| {
      var total := 4 + GetU24(data, 1);
      RefMessage(w, s, data[..total]);
      var r := OnMessage(w, s, data[..total]);
      if r.Some? { RefMessages(w, r.value, data[total..]); }
    }
  }

  lemma RefRecord(w: World, s: Conn, record: bytes)
    requires RefInv(w, s) && |record| >= 5
    ensures OnRecord(w, s, record).Some? ==> RefInv(w, OnRecord(w, s, record).value)
  {
    hide OnMessages, Open, Prescribed, AllRight, Grown, FinishedAmong;
    RefMessages(w, s, record[5..]);
    var o := Open(w.c, s.rx.keys, s.rx.seqno, record[..5], record[5..]);
    if o.Opened? {
      RefMessages(w, s.(rx := s.rx.(seqno := (s.rx.seqno + 1) % SEQ_MODULUS)), o.data);
    }
  }

  lemma RefTx(w: World, s: Conn)
    requires RefInv(w, s)
    ensures RefInv(w, Tx(w, s))
  {
    TxKeepsRx(w, s);
    TxGrows(w, s);
    hide Tx, Prescribed, AllRight, Grown, FinishedAmong;
  }

  lemma TxGrows(w: World, s: Conn)
    ensures var t := Tx(w, s);
            && s.transcript <= t.transcript
            && (t.phase == ClientFinished || t.phase == Data ==> s.phase == ClientFinished || s.phase == Data)
  {
    hide HelloMessage, FinishedMessage, Protected, PlainRecord, AfterSeal, InstallTx, TrafficKeys, PlainWindow;
  }

  lemma {:induction false} RefRxLoop(w: World, s: Conn)
    requires RefInv(w, s)
    ensures RefInv(w, RxLoop(w, s))
    decreases |s.rx.buf|
  {
    hide OnRecord, Tx, GetU16, Prescribed, AllRight, Grown, FinishedAmong;
    if |s.rx.buf| >= 5 {
      var total := 5 + GetU16(s.rx.buf, 3);
      if total <= MAX_RECORD && total <= |s.rx.buf| {
        var record := s.rx.buf[..total];
        RefRecord(w, s, record);
        var r := OnRecord(w, s, record);
        if r.Some? {
          var s2 := Consumed(r.value, record, s.rx.buf[total..]);
          TxKeepsRx(w, s2);
          RefTx(w, s2);
          RefRxLoop(w, Tx(w, s2));
        }
      }
    }
  }

  lemma RefNext(w: World, s: Conn, e: Event)
    requires RefInv(w, s)
    ensures RefInv(w, Next(w, s, e))
  {
    hide Tx, RxLoop, AfterSeal, Protected, Prescribed, AllRight, Grown, FinishedAmong;
    match e
    case Fed(chunk) => RefRxLoop(w, SetBuf(s, s.rx.buf + chunk));
    case Submitted(data) =>
      RefTx(w, s.(tx := AfterSeal(s.tx).(pending := Some(Protected(w.c, s.tx.keys, s.tx.seqno, TYPE_DATA, data))),
                  net := s.net.(submitted := Then(s.net.submitted, data))));
    case WindowReported(n) => RefTx(w, s.(net := s.net.(window := n)));
    case WindowShrinks(n) =>
  }

  lemma {:induction false} RefRun(w: World, s: Conn, es: seq<Event>)
    requires RefInv(w, s)
    ensures RefInv(w, Run(w, s, es))
    decreases |es|
  {
    hide RefInv, Next;
    if es != [] {
      RefNext(w, s, es[0]);
      RefRun(w, Next(w, s, es[0]), es[1..]);
    }
  }

  /** Against any peer and in every run, the connection holds exactly the secrets that the messages
      it accepted prescribe; every ServerHello it accepted was right; every Finished it accepted
      carried the HMAC, under the server handshake secret prescribed before it, of the transcript
      before it; and it is past its handshake only after such a Finished. */
  lemma ServerAuthenticated(w: World, window: nat, es: seq<Event>)
    ensures var s := Run(w, OpenedConn(w, window), es);
            && s.secrets == Prescribed(w, s.rx.accepted) && AllRight(w, s.rx.accepted)
            && Grown(s.rx.accepted) && Mark(s.rx.accepted) <= s.transcript
            && (s.phase == ClientFinished || s.phase == Data ==> FinishedAmong(s.rx.accepted))
  {
    hide Tx;
    RefTx(w, Initial(window));
    RefRun(w, OpenedConn(w, window), es);
  }

  // ---------------------------------------------------------------- exact acceptance

  /** A whole handshake message with the length it announces. */
  predicate Whole(msg: bytes, kind: nat) {
    |msg| >= 4 && msg[0] == kind && (msg[1] as int) * 65536 + (msg[2] as int) * 256 + msg[3] == |msg| - 4
  }

  /** In every state a Finished is accepted exactly when it is right and fits the transcript. */
  lemma FinishedExactly(w: World, s: Conn, msg: bytes)
    requires Whole(msg, 20)
    ensures OnMessages(w, s, msg).Some? <==>
              RightFinished(w.c, msg, s.transcript, s.secrets.serverHs) && |s.transcript| + |msg| <= 1024
    ensures OnMessages(w, s, msg).Some? ==>
              var t := OnMessages(w, s, msg).value;
              t.transcript == s.transcript + msg && t.phase == ClientFinished
  {
    NetworkOrder(0, msg, 1);
    Tls13Peer.SingleMessage(w, s, msg);
    VerifyIs(w.c, s.secrets.serverHs, s.transcript);
    hide OnMessages, Tls13Crypto.Finished, Verify, TrafficKeys, ApplicationSecrets;
  }

  /** In every state a ServerHello is accepted exactly when it is right and fits the transcript. */
  lemma HelloExactly(w: World, s: Conn, msg: bytes)
    requires Whole(msg, 2)
    ensures OnMessages(w, s, msg).Some? <==>
              (exists shared :: RightHello(w, msg, shared)) && |s.transcript| + |msg| <= 1024
    ensures OnMessages(w, s, msg).Some? ==>
              var t := OnMessages(w, s, msg).value;
              t.transcript == s.transcript + msg && t.phase == s.phase
  {
    NetworkOrder(0, msg, 1);
    Tls13Peer.SingleMessage(w, s, msg);
    hide OnMessages, Tls13Hello.SpecParse, TrafficKeys, HandshakeSecrets, InstallTx;
    if OnMessage(w, s, msg).Some? {
      var h := Tls13Hello.SpecParse(msg).value;
      assert RightHello(w, msg, w.c.agree(w.priv, h.publicKey).value);
    }
  }

  /** EncryptedExtensions only extend the transcript, tickets change nothing, and every other type
      is refused, as is a message that goes beyond its record. */
  lemma OthersExactly(w: World, s: Conn, msg: bytes, kind: nat)
    requires Whole(msg, kind)
    ensures kind == 8 ==>
              OnMessages(w, s, msg) == (if |s.transcript| + |msg| > 1024 then None
                                        else Some(s.(transcript := s.transcript + msg)))
    ensures kind == 4 ==> OnMessages(w, s, msg) == Some(s)
    ensures kind != 2 && kind != 4 && kind != 8 && kind != 20 ==> OnMessages(w, s, msg) == None
  {
    NetworkOrder(0, msg, 1);
    Tls13Peer.SingleMessage(w, s, msg);
    hide OnMessages, OnServerHello, OnServerFinished;
  }

  lemma FragmentRefused(w: World, s: Conn, data: bytes)
    requires |data| >= 4 && (data[1] as int) * 65536 + (data[2] as int) * 256 + data[3] > |data| - 4
    ensures OnMessages(w, s, data) == None
  {
    NetworkOrder(0, data, 1);
  }

  /** What is done with a record, by its outer type and the plaintext of a protected one: change
      cipher spec is ignored, plaintext handshake is read, protected handshake and data are read
      and delivered, and everything else is refused, as is a record that does not decrypt. */
  lemma RecordExactly(w: World, s: Conn, record: bytes)
    requires |record| >= 5
    ensures var s1 := s.(rx := s.rx.(seqno := (s.rx.seqno + 1) % 0x1_0000_0000_0000_0000));
            var plain := w.c.decrypt(s.rx.keys.key, Nonce(s.rx.keys.iv, s.rx.seqno), record[..5], record[5..]);
            OnRecord(w, s, record) ==
              if record[0] == 20 then Some(s)
              else if record[0] == 22 then OnMessages(w, s, record[5..])
              else if record[0] != 23 || |record| < 22 || plain == None || plain.value == [] then None
              else
                var p := plain.value;
                if p[|p| - 1] == 22 then OnMessages(w, s1, p[..|p| - 1])
                else if p[|p| - 1] != 23 then None
                else if |p| == 1 then Some(s1)
                else Some(s1.(net := s1.net.(delivered := Then(s1.net.delivered, p[..|p| - 1]))))
  {
    hide OnMessages, Nonce;
  }

  // ---------------------------------------------------------------- the receive buffer and the window

  /** A record header that announces more than the buffer holds, and a delivery that does not fit
      it, fail the connection and do nothing else. */
  lemma OversizeFails(w: World, s: Conn, chunk: bytes)
    ensures |s.rx.buf| >= 5 && (s.rx.buf[3] as int) * 256 + s.rx.buf[4] > 8209 ==> RxLoop(w, s) == s.(phase := Failed)
    ensures |s.rx.buf| + |chunk| > 8214 ==> Feed(w, s, chunk) == s.(phase := Failed)
  {
    hide OnRecord, Tx;
  }

  /** The plaintext window is the socket's exactly while a submission is accepted and overwrites
      nothing, and otherwise zero. */
  lemma WindowExactly(w: World, s: Conn, data: bytes)
    ensures PlainWindow(s) == if s.phase == Data && s.tx.pending == None then s.net.window else 0
    ensures s.phase != Data ==> Submit(w, s, data) == s
  {
    hide Tx;
  }

  /** A reported window is taken over, and an open one takes the pending record at once. */
  lemma WindowSends(w: World, s: Conn, n: nat)
    requires s.phase != Failed && s.tx.pending.Some? && n > 0
    ensures var t := WindowChanged(w, s, n);
            t.net.sent == Then(s.net.sent, s.tx.pending.value) && t.tx.pending == None
  {
    hide Build, TrafficKeys, PlainWindow;
    var s1 := s.(net := s.net.(window := n));
    assert Tx(w, s1) == Notify(Flush(w, s1));
    assert Flush(w, s1).net.sent == Then(s.net.sent, s.tx.pending.value);
  }

  // ---------------------------------------------------------------- records on the wire

  /** A protected record: type 23, version 3.3 and length in front, which are also its additional
      data, then the encryption of the data and its type. */
  lemma ProtectedOnWire(c: Suite, keys: Keys, n: nat, contentType: byte, data: bytes)
    requires |data| + 17 < 65536
    ensures var header := [23, 3, 3, (|data| + 17) / 256, (|data| + 17) % 256];
            Protected(c, keys, n, contentType, data)
            == header + c.encrypt(keys.key, Nonce(keys.iv, n), header, data + [contentType])
  {
    var n' := |data| + 17;
    var header: bytes := [23, 3, 3, n' / 256, n' % 256];
    assert U16(n') == [n' / 256, n' % 256] by { assert n' / 256 < 256; }
    assert Header(TYPE_DATA, |data| + 1 + TAG_LEN) == header;
    hide Nonce, Header;
  }

  lemma PlainOnWire(contentType: byte, body: bytes)
    requires |body| < 65536
    ensures PlainRecord(contentType, body) == [contentType, 3, 3, |body| / 256, |body| % 256] + body
  {
    assert |body| / 256 < 256;
  }

  /** The client Finished: type 20, a three-byte length of 32, and the HMAC. */
  lemma FinishedOnWire(c: Suite, secret: bytes, transcript: bytes)
    ensures FinishedMessage(c, secret, transcript) == [20, 0, 0, 32] + Verify(c, secret, transcript)
  {
    VerifyIs(c, secret, transcript);
    hide Verify, Tls13Crypto.Finished;
  }
}
