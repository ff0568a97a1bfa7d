/**
 The TLS 1.3 pre-shared-key connection as functions on values: what each routine of the
 filter between the plaintext consumer and the socket does to the connection.  The class in
 Tls13Client is proved against these functions.
 */
module Tls13Conn {
  import opened Bytes
  import opened Tls13Crypto
  import opened Tls13Hello

  /** What the connection is given: primitives, pre-shared key and identity, the randomness
      it draws, and the window the socket shows after taking its k-th record. */
  datatype World = World(c: Suite, psk: bytes, identity: bytes, random: bytes, priv: bytes,
                         windowAfter: nat -> nat)

  ghost predicate UsableWorld(w: World) { Lawful(w.c) && |w.random| == 32 }

  /** The ClientHello fits its buffer, which its guard does not ensure. */
  ghost predicate ValidWorld(w: World) {
    UsableWorld(w) && 157 + |w.identity| <= MAX_CLIENT_HELLO
  }

  datatype Phase = HelloPhase | ServerFlight | ClientFinished | Data | Failed

  /** An append-only history. */
  datatype Trace<T> = Nothing | Then(before: Trace<T>, last: T)

  datatype Secrets = Secrets(handshake: bytes, master: bytes, clientHs: bytes, serverHs: bytes,
                             clientAp: bytes, serverAp: bytes)

  datatype SealEvent = SealedWith(epoch: nat, iv: Iv, nonce: Iv)

  datatype TxSide = TxSide(keys: Keys, seqno: nat, pending: Option<bytes>,
                           epoch: nat, seals: Trace<SealEvent>)

  /** A handshake message acted upon: the transcript before it, and what it was acted upon with
      (the shared secret agreed, or the secret a Finished was checked with). */
  datatype Accepted =
    | AcceptedHello(msg: bytes, before: bytes, shared: bytes)
    | AcceptedFinished(msg: bytes, before: bytes, secret: bytes)

  /** The receiving side, with the records handled, the ServerHellos accepted so far, how many of
      them came before the last server Finished, and the messages acted upon. */
  datatype RxSide = RxSide(keys: Keys, seqno: nat, buf: bytes, records: Trace<bytes>,
                           hellos: nat, finishedAfter: Option<nat>, accepted: Trace<Accepted>)

  /** The two interfaces: the socket below, the consumer above. */
  datatype Net = Net(window: nat, taken: nat, sent: Trace<bytes>, notified: Trace<nat>,
                     submitted: Trace<bytes>, delivered: Trace<bytes>)

  datatype Conn = Conn(phase: Phase, transcript: bytes, secrets: Secrets,
                       tx: TxSide, rx: RxSide, net: Net)

  const MAX_CLIENT_HELLO := 512
  const MAX_RECORD := 8214
  const TRANSCRIPT_SIZE := 1024
  const TYPE_CHANGE_CIPHER: byte := 20
  const TYPE_HANDSHAKE: byte := 22
  const TYPE_DATA: byte := 23
  const ENCRYPTED_EXTENSIONS: byte := 8
  const NEW_SESSION_TICKET: byte := 4
  const FINISHED: byte := 20

  const NO_KEYS := Keys(Zeros(KEY_LEN), Zeros(NONCE_LEN))

  /** The secrets of a fresh connection, whose memory is cleared. */
  const NO_SECRET := Zeros(DIGEST_LEN)
  const NO_SECRETS := Secrets(NO_SECRET, NO_SECRET, NO_SECRET, NO_SECRET, NO_SECRET, NO_SECRET)

  function Initial(window: nat): Conn {
    Conn(HelloPhase, [], NO_SECRETS,
         TxSide(NO_KEYS, 0, None, 0, Nothing), RxSide(NO_KEYS, 0, [], Nothing, 0, None, Nothing),
         Net(window, 0, Nothing, Nothing, Nothing, Nothing))
  }

  // ---------------------------------------------------------------- records

  function Header(contentType: byte, len: nat): bytes { [contentType, 3, 3] + U16(len) }

  function PlainRecord(contentType: byte, body: bytes): bytes { Header(contentType, |body|) + body }

  /** A protected record as either side builds it. */
  function Protected(c: Suite, keys: Keys, seqno: nat, contentType: byte, data: bytes): bytes {
    var header := Header(TYPE_DATA, |data| + 1 + TAG_LEN);
    header + Seal(c, keys, seqno, header, data, contentType)
  }

  function AfterSeal(tx: TxSide): TxSide {
    tx.(seqno := (tx.seqno + 1) % SEQ_MODULUS,
        seals := Then(tx.seals, SealedWith(tx.epoch, tx.keys.iv, Nonce(tx.keys.iv, tx.seqno))))
  }

  function InstallTx(tx: TxSide, keys: Keys): TxSide {
    tx.(keys := keys, seqno := 0, epoch := tx.epoch + 1)
  }

  // ---------------------------------------------------------------- transmission

  function HelloMessage(w: World): bytes {
    ClientHello(w.c, w.random, w.c.share(w.priv), w.psk, w.identity, Ascii("ext binder"))
  }

  function FinishedMessage(c: Suite, secret: bytes, transcript: bytes): bytes {
    [FINISHED, 0, 0, 32] + Tls13Crypto.Finished(c, secret, transcript)
  }

  function Fail(s: Conn): Conn { s.(phase := Failed) }

  /** The plaintext window offered to the consumer. */
  function PlainWindow(s: Conn): nat {
    if s.phase != Data || s.tx.pending.Some? then 0 else s.net.window
  }

  function Build(w: World, s: Conn): Conn {
    match s.phase
    case HelloPhase =>
      var ch := HelloMessage(w);
      if !GuardAdmits(|w.identity|, MAX_CLIENT_HELLO) || |s.transcript| + |ch| > TRANSCRIPT_SIZE then Fail(s)
      else s.(phase := ServerFlight, transcript := s.transcript + ch,
              tx := s.tx.(pending := Some(PlainRecord(TYPE_HANDSHAKE, ch))))
    case ClientFinished =>
      var fin := FinishedMessage(w.c, s.secrets.clientHs, s.transcript);
      s.(tx := AfterSeal(s.tx).(pending := Some(Protected(w.c, s.tx.keys, s.tx.seqno, TYPE_HANDSHAKE, fin))))
    case _ => s
  }

  function Take(w: World, n: Net, record: bytes): Net {
    n.(sent := Then(n.sent, record), taken := n.taken + 1, window := w.windowAfter(n.taken + 1))
  }

  function Flush(w: World, s: Conn): Conn {
    if s.tx.pending == None || s.net.window == 0 then s
    else
      var s1 := s.(tx := s.tx.(pending := None), net := Take(w, s.net, s.tx.pending.value));
      if s.phase == ClientFinished then
        s1.(tx := InstallTx(s1.tx, TrafficKeys(w.c, s.secrets.clientAp)), phase := Data)
      else s1
  }

  function Notify(s: Conn): Conn {
    s.(net := s.net.(notified := Then(s.net.notified, PlainWindow(s))))
  }

  function Tx(w: World, s: Conn): Conn {
    if s.phase == Failed then s
    else
      var s1 := if s.tx.pending == None then Build(w, s) else s;
      if s1.phase == Failed then s1 else Notify(Flush(w, s1))
  }

  // ---------------------------------------------------------------- handshake messages

  function Append(s: Conn, msg: bytes): Option<Conn> {
    if |s.transcript| + |msg| > TRANSCRIPT_SIZE then None
    else Some(s.(transcript := s.transcript + msg))
  }

  predicate HelloAcceptable(h: ServerHello) {
    h.version == VERSION_1_3 && h.cipherSuite == AES_128_GCM_SHA256 && h.hasKeyShare && h.hasPsk
  }

  /** The secrets once the shared secret is known, over the transcript so far. */
  function HandshakeSecrets(c: Suite, psk: bytes, shared: bytes, transcript: bytes): Secrets {
    var hs := HandshakeSecret(c, EarlySecret(c, psk), shared);
    NO_SECRETS.(handshake := hs,
                clientHs := DeriveSecret(c, hs, Ascii("c hs traffic"), transcript),
                serverHs := DeriveSecret(c, hs, Ascii("s hs traffic"), transcript))
  }

  function ApplicationSecrets(c: Suite, s: Secrets, transcript: bytes): Secrets {
    var master := MasterSecret(c, s.handshake);
    s.(master := master,
       clientAp := DeriveSecret(c, master, Ascii("c ap traffic"), transcript),
       serverAp := DeriveSecret(c, master, Ascii("s ap traffic"), transcript))
  }

  /** The secrets and keys of a ServerHello appended to the transcript after `before`. */
  function InstallHandshake(w: World, s: Conn, msg: bytes, before: bytes, shared: bytes): Conn {
    var hs := HandshakeSecrets(w.c, w.psk, shared, s.transcript);
    s.(secrets := s.secrets.(handshake := hs.handshake, clientHs := hs.clientHs, serverHs := hs.serverHs),
       tx := InstallTx(s.tx, TrafficKeys(w.c, hs.clientHs)),
       rx := s.rx.(keys := TrafficKeys(w.c, hs.serverHs), seqno := 0, hellos := s.rx.hellos + 1,
                   accepted := Then(s.rx.accepted, AcceptedHello(msg, before, shared))))
  }

  function OnServerHello(w: World, s: Conn, msg: bytes): Option<Conn> {
    match SpecParse(msg)
    case None => None
    case Some(h) =>
      if !HelloAcceptable(h) then None
      else
        match Append(s, msg)
        case None => None
        case Some(s1) =>
          match w.c.agree(w.priv, h.publicKey)
          case None => None
          case Some(shared) => Some(InstallHandshake(w, s1, msg, s.transcript, shared))
  }

  /** The secrets and keys of a server Finished appended to the transcript after `before`. */
  function InstallApplication(w: World, s: Conn, msg: bytes, before: bytes): Conn {
    var secrets := ApplicationSecrets(w.c, s.secrets, s.transcript);
    s.(secrets := secrets, phase := ClientFinished,
       rx := s.rx.(keys := TrafficKeys(w.c, secrets.serverAp), seqno := 0, finishedAfter := Some(s.rx.hellos),
                   accepted := Then(s.rx.accepted, AcceptedFinished(msg, before, s.secrets.serverHs))))
  }

  function OnServerFinished(w: World, s: Conn, msg: bytes): Option<Conn> {
    if |msg| != 36 || Tls13Crypto.Finished(w.c, s.secrets.serverHs, s.transcript) != msg[4..] then None
    else
      match Append(s, msg)
      case None => None
      case Some(s1) => Some(InstallApplication(w, s1, msg, s.transcript))
  }

  function OnMessage(w: World, s: Conn, msg: bytes): Option<Conn>
    requires |msg| >= 4
  {
    if msg[0] == SERVER_HELLO then OnServerHello(w, s, msg)
    else if msg[0] == ENCRYPTED_EXTENSIONS then Append(s, msg)
    else if msg[0] == FINISHED then OnServerFinished(w, s, msg)
    else if msg[0] == NEW_SESSION_TICKET then Some(s)
    else None
  }

  function OnMessages(w: World, s: Conn, data: bytes): Option<Conn>
    decreases |data|
  {
    if |data| < 4 then Some(s)
    else
      var total := 4 + GetU24(data, 1);
      if total > |data| then None
      else
        match OnMessage(w, s, data[..total])
        case None => None
        case Some(s1) => OnMessages(w, s1, data[total..])
  }

  // ---------------------------------------------------------------- reception

  function Deliver(s: Conn, data: bytes): Conn {
    if data == [] then s else s.(net := s.net.(delivered := Then(s.net.delivered, data)))
  }

  function OnOpened(w: World, s: Conn, o: Opened): Option<Conn> {
    match o
    case Rejected => None
    case Opened(t, data) =>
      var s1 := s.(rx := s.rx.(seqno := (s.rx.seqno + 1) % SEQ_MODULUS));
      if t == TYPE_HANDSHAKE then OnMessages(w, s1, data)
      else if t == TYPE_DATA then Some(Deliver(s1, data))
      else None
  }

  function OnRecord(w: World, s: Conn, record: bytes): Option<Conn>
    requires |record| >= 5
  {
    if record[0] == TYPE_CHANGE_CIPHER then Some(s)
    else if record[0] == TYPE_HANDSHAKE then OnMessages(w, s, record[5..])
    else if record[0] != TYPE_DATA then None
    else OnOpened(w, s, Open(w.c, s.rx.keys, s.rx.seqno, record[..5], record[5..]))
  }

  function SetBuf(s: Conn, buf: bytes): Conn { s.(rx := s.rx.(buf := buf)) }

  /** A record has been handled: move the rest of the buffer down. */
  function Consumed(s: Conn, record: bytes, rest: bytes): Conn {
    s.(rx := s.rx.(buf := rest, records := Then(s.rx.records, record)))
  }

  /** Consume complete records, running the transmit routine after each. */
  function RxLoop(w: World, s: Conn): Conn
    decreases |s.rx.buf|
  {
    if |s.rx.buf| < 5 then s
    else
      var total := 5 + GetU16(s.rx.buf, 3);
      if total > MAX_RECORD then Fail(s)
      else if |s.rx.buf| < total then s
      else
        var record := s.rx.buf[..total];
        match OnRecord(w, s, record)
        case None => Fail(s)
        case Some(s1) =>
          var s2 := Consumed(s1, record, s.rx.buf[total..]);
          TxKeepsRx(w, s2);
          RxLoop(w, Tx(w, s2))
  }

  /** The transmit routine leaves the receiving side alone. */
  lemma TxKeepsRx(w: World, s: Conn)
    ensures Tx(w, s).rx == s.rx && Tx(w, s).secrets == s.secrets
    ensures Tx(w, s).net.delivered == s.net.delivered && Tx(w, s).net.submitted == s.net.submitted
  {
    hide HelloMessage, FinishedMessage, Protected, PlainRecord, AfterSeal, InstallTx, TrafficKeys, PlainWindow;
  }

  function Feed(w: World, s: Conn, chunk: bytes): Conn {
    if |s.rx.buf| + |chunk| > MAX_RECORD then Fail(s)
    else RxLoop(w, SetBuf(s, s.rx.buf + chunk))
  }

  /** Plaintext from the consumer; refused before the handshake is complete. */
  function Submit(w: World, s: Conn, data: bytes): Conn {
    if s.phase != Data then s
    else
      var record := Protected(w.c, s.tx.keys, s.tx.seqno, TYPE_DATA, data);
      Tx(w, s.(tx := AfterSeal(s.tx).(pending := Some(record)),
               net := s.net.(submitted := Then(s.net.submitted, data))))
  }

  /** The socket reports a new window. */
  function WindowChanged(w: World, s: Conn, window: nat): Conn {
    Tx(w, s.(net := s.net.(window := window)))
  }

  // ---------------------------------------------------------------- events

  datatype Event =
    | Fed(chunk: bytes)
    | Submitted(data: bytes)
    | WindowReported(window: nat)
    | WindowShrinks(window: nat)      // a change the socket does not report

  /** A socket reports every opening of a closed window. */
  predicate Enabled(s: Conn, e: Event) {
    && s.phase != Failed
    && match e
       case WindowShrinks(n) => s.net.window != 0 || n == 0
       case _ => true
  }

  function Next(w: World, s: Conn, e: Event): Conn {
    match e
    case Fed(chunk) => Feed(w, s, chunk)
    case Submitted(data) => Submit(w, s, data)
    case WindowReported(n) => WindowChanged(w, s, n)
    case WindowShrinks(n) => s.(net := s.net.(window := n))
  }

  /** The connection as opened over a socket with the given window. */
  function OpenedConn(w: World, window: nat): Conn { Tx(w, Initial(window)) }

  function Run(w: World, s: Conn, es: seq<Event>): Conn
    decreases |es|
  {
    if es == [] then s else Run(w, Next(w, s, es[0]), es[1..])
  }

  predicate AllEnabled(w: World, s: Conn, es: seq<Event>)
    decreases |es|
  {
    es == [] || (Enabled(s, es[0]) && AllEnabled(w, Next(w, s, es[0]), es[1..]))
  }
}
