/**
 An honest TLS 1.3 PSK server (RFC 8446 sections 4.2.11, 4.4.4 and 7.1), and the proof that
 the connection stays in step with it.
 */
module Tls13Peer {
  import opened Bytes
  import opened Tls13Crypto
  import opened Tls13Hello
  import opened Tls13Conn

  datatype Stage = AwaitHello | AwaitExtensions | AwaitFinished | Open

  datatype Server = Server(stage: Stage, transcript: bytes, secrets: Secrets, keys: Keys, seqno: nat)

  /** What the server sends next, one item per record. */
  datatype Item =
    | ChangeCipher(body: bytes)
    | Hello(random: bytes, sessionId: bytes, exts: seq<Ext>)
    | Extensions(msg: bytes)
    | ExtensionsAndFinished(msg: bytes)
    | FinishedAlone
    | Ticket(msg: bytes)
    | App(data: bytes)

  /** The server as it stands after reading the ClientHello. */
  function Greeted(ch: bytes): Server { Server(AwaitHello, ch, NO_SECRETS, NO_KEYS, 0) }

  predicate WellFormed(msg: bytes, kind: byte) {
    |msg| >= 4 && msg[0] == kind && GetU24(msg, 1) == |msg| - 4
  }

  predicate FitsTranscript(sv: Server, n: nat) { |sv.transcript| + n <= TRANSCRIPT_SIZE }

  predicate FitsRecord(n: nat) { 5 + n <= MAX_RECORD }

  predicate FitsProtected(n: nat) { FitsRecord(n + 1 + TAG_LEN) }

  /** A ServerHello message this client will accept, carrying the server's share. */
  predicate HelloLegal(c: Suite, priv: bytes, i: Item)
    requires i.Hello?
  {
    && |i.random| == 32 && |i.sessionId| < 256 && |EncodeExts(i.exts)| < 65536
    && (forall e :: e in i.exts ==> Encodable(e)) && AllAcceptable(i.exts)
    && HelloAcceptable(HelloOf(AES_128_GCM_SHA256, i.exts))
    && HelloOf(AES_128_GCM_SHA256, i.exts).publicKey == c.share(priv)
  }

  function HelloMsg(i: Item): bytes
    requires i.Hello? && |i.sessionId| < 256
  {
    EncodeServerHello(i.random, i.sessionId, AES_128_GCM_SHA256, i.exts)
  }

  /** RFC order: ServerHello, EncryptedExtensions, Finished, then application data and
      tickets; ChangeCipherSpec anywhere. */
  predicate Legal(c: Suite, priv: bytes, sv: Server, i: Item) {
    match i
    case ChangeCipher(body) => FitsRecord(|body|)
    case Hello(_, _, _) =>
      sv.stage == AwaitHello && HelloLegal(c, priv, i) && FitsTranscript(sv, |HelloMsg(i)|)
    case Extensions(msg) =>
      && sv.stage == AwaitExtensions && WellFormed(msg, ENCRYPTED_EXTENSIONS)
      && FitsTranscript(sv, |msg|)
    case ExtensionsAndFinished(msg) =>
      && sv.stage == AwaitExtensions && WellFormed(msg, ENCRYPTED_EXTENSIONS)
      && FitsTranscript(sv, |msg| + 36)
    case FinishedAlone => sv.stage == AwaitFinished && FitsTranscript(sv, 36)
    case Ticket(msg) =>
      sv.stage == Open && WellFormed(msg, NEW_SESSION_TICKET) && FitsProtected(|msg|)
    case App(data) => sv.stage == Open && FitsProtected(|data|)
  }

  /** The server's own computation of the shared secret, from the share it read. */
  function ServerShared(c: Suite, priv: bytes, ch: bytes): bytes {
    match ReadClientHello(ch)
    case None => []
    case Some(o) =>
      match c.agree(priv, o.keyShare)
      case None => []
      case Some(shared) => shared
  }

  function SendHello(c: Suite, priv: bytes, psk: bytes, sv: Server, msg: bytes): Server {
    var transcript := sv.transcript + msg;
    var secrets := HandshakeSecrets(c, psk, ServerShared(c, priv, sv.transcript), transcript);
    Server(AwaitExtensions, transcript, secrets, TrafficKeys(c, secrets.serverHs), 0)
  }

  function ServerFinishedMsg(c: Suite, sv: Server): bytes {
    FinishedMessage(c, sv.secrets.serverHs, sv.transcript)
  }

  function SendFinished(c: Suite, sv: Server): Server {
    var transcript := sv.transcript + ServerFinishedMsg(c, sv);
    var secrets := ApplicationSecrets(c, sv.secrets, transcript);
    Server(Open, transcript, secrets, TrafficKeys(c, secrets.serverAp), 0)
  }

  function SendExtensions(sv: Server, msg: bytes): Server {
    sv.(stage := AwaitFinished, transcript := sv.transcript + msg)
  }

  function Bump(sv: Server): Server { sv.(seqno := (sv.seqno + 1) % SEQ_MODULUS) }

  function Wrap(c: Suite, sv: Server, contentType: byte, data: bytes): bytes {
    Protected(c, sv.keys, sv.seqno, contentType, data)
  }

  /** One item sent: the server afterwards and the record on the wire. */
  function Emit(c: Suite, priv: bytes, psk: bytes, sv: Server, i: Item): (Server, bytes)
    requires Legal(c, priv, sv, i)
  {
    match i
    case ChangeCipher(body) => (sv, PlainRecord(TYPE_CHANGE_CIPHER, body))
    case Hello(_, _, _) => (SendHello(c, priv, psk, sv, HelloMsg(i)), PlainRecord(TYPE_HANDSHAKE, HelloMsg(i)))
    case Extensions(msg) => (Bump(SendExtensions(sv, msg)), Wrap(c, sv, TYPE_HANDSHAKE, msg))
    case ExtensionsAndFinished(msg) =>
      var sv1 := SendExtensions(sv, msg);
      (SendFinished(c, sv1), Wrap(c, sv, TYPE_HANDSHAKE, msg + ServerFinishedMsg(c, sv1)))
    case FinishedAlone => (SendFinished(c, sv), Wrap(c, sv, TYPE_HANDSHAKE, ServerFinishedMsg(c, sv)))
    case Ticket(msg) => (Bump(sv), Wrap(c, sv, TYPE_HANDSHAKE, msg))
    case App(data) => (Bump(sv), Wrap(c, sv, TYPE_DATA, data))
  }

  // ---------------------------------------------------------------- staying in step

  /** Client and server agree on the transcript, on every secret, and on the key and sequence
      number protecting the server's records. */
  predicate InSync(w: World, s: Conn, sv: Server) {
    && s.transcript == sv.transcript && s.secrets == sv.secrets
    && (sv.stage != AwaitHello ==> s.rx.keys == sv.keys && s.rx.seqno == sv.seqno)
    && (sv.stage == AwaitHello ==> sv.transcript == HelloMessage(w) && sv.secrets == NO_SECRETS)
    && (if sv.stage == Open then s.phase == ClientFinished || s.phase == Data else s.phase == ServerFlight)
  }

  lemma SharedAgrees(w: World, priv: bytes)
    requires ValidWorld(w)
    ensures w.c.agree(w.priv, w.c.share(priv)) == Some(ServerShared(w.c, priv, HelloMessage(w)))
  {
    hide ClientHello, ReadClientHello, Truncated;
    ClientHelloReadBack(w.c, w.random, w.c.share(w.priv), w.psk, w.identity, Ascii("ext binder"));
  }

  lemma MessagesStep(w: World, s: Conn, msg: bytes, rest: bytes)
    requires |msg| >= 4 && GetU24(msg, 1) == |msg| - 4
    ensures OnMessages(w, s, msg + rest) ==
              match OnMessage(w, s, msg) case None => None case Some(s1) => OnMessages(w, s1, rest)
  {
    hide OnMessage;
    assert GetU24(msg + rest, 1) == GetU24(msg, 1);
    assert (msg + rest)[..|msg|] == msg && (msg + rest)[|msg|..] == rest;
  }

  lemma SingleMessage(w: World, s: Conn, msg: bytes)
    requires |msg| >= 4 && GetU24(msg, 1) == |msg| - 4
    ensures OnMessages(w, s, msg) == OnMessage(w, s, msg)
  {
    hide OnMessage, GetU24;
    MessagesStep(w, s, msg, []);
    assert msg + [] == msg;
  }

  lemma HelloWellFormed(i: Item)
    requires i.Hello? && |i.random| == 32 && |i.sessionId| < 256 && |EncodeExts(i.exts)| < 65536
    ensures WellFormed(HelloMsg(i), SERVER_HELLO)
  {
    hide EncodeExts;
    var body := ServerHelloBody(i.random, i.sessionId, AES_128_GCM_SHA256, i.exts);
    U24RoundTrip(|body|);
    var msg := HelloMsg(i);
    assert msg[1..4] == U24(|body|) && GetU24(msg, 1) == GetU24(msg[1..4], 0);
  }

  lemma HelloInSync(w: World, priv: bytes, s: Conn, sv: Server, i: Item)
    requires ValidWorld(w) && InSync(w, s, sv) && i.Hello? && Legal(w.c, priv, sv, i)
    ensures var r := OnMessage(w, s, HelloMsg(i));
            && r.Some? && InSync(w, r.value, SendHello(w.c, priv, w.psk, sv, HelloMsg(i)))
            && r.value.net == s.net && r.value.phase == s.phase
            && r.value.tx == InstallTx(s.tx, TrafficKeys(w.c, r.value.secrets.clientHs))
  {
    hide HelloMessage, EncodeServerHello, EncodeExts, HelloOf, HelloAcceptable, SpecParse, ServerShared, InstallTx, TrafficKeys, DeriveSecret, HandshakeSecret;
    HelloWellFormed(i);
    ParseEncodedServerHello(i.random, i.sessionId, AES_128_GCM_SHA256, i.exts);
    SharedAgrees(w, priv);
  }

  lemma FinishedInSync(w: World, s: Conn, sv: Server)
    requires ValidWorld(w) && InSync(w, s, sv) && FitsTranscript(sv, 36)
    requires sv.stage == AwaitFinished
    ensures |ServerFinishedMsg(w.c, sv)| == 36 && WellFormed(ServerFinishedMsg(w.c, sv), FINISHED)
    ensures var r := OnMessage(w, s, ServerFinishedMsg(w.c, sv));
            && r.Some? && InSync(w, r.value, SendFinished(w.c, sv))
            && r.value.net == s.net && r.value.tx == s.tx && r.value.phase == ClientFinished
  {
    hide HelloMessage, ApplicationSecrets, TrafficKeys, ExpandLabel;
    assert |Tls13Crypto.Finished(w.c, sv.secrets.serverHs, sv.transcript)| == 32;
  }

  lemma ProtectedShape(c: Suite, keys: Keys, seqno: nat, contentType: byte, data: bytes)
    requires AeadLaws(c) && FitsProtected(|data|)
    ensures var r := Protected(c, keys, seqno, contentType, data);
            && |r| == 5 + |data| + 1 + TAG_LEN && r[0] == TYPE_DATA && GetU16(r, 3) == |r| - 5
            && Tls13Crypto.Open(c, keys, seqno, r[..5], r[5..]) == Opened.Opened(contentType, data)
  {
    hide Seal, Tls13Crypto.Open;
    OpenSealed(c, keys, seqno, Header(TYPE_DATA, |data| + 1 + TAG_LEN), data, contentType);
    var r := Protected(c, keys, seqno, contentType, data);
    var n := |data| + 1 + TAG_LEN;
    assert r[..5] == Header(TYPE_DATA, n) && r[5..] == Seal(c, keys, seqno, Header(TYPE_DATA, n), data, contentType);
    U16RoundTrip(n);
    assert r[3] == U16(n)[0] && r[4] == U16(n)[1];
  }

  lemma PlainShape(contentType: byte, body: bytes)
    requires FitsRecord(|body|)
    ensures var r := PlainRecord(contentType, body);
            |r| == 5 + |body| && r[0] == contentType && GetU16(r, 3) == |r| - 5 && r[5..] == body
  {
    U16RoundTrip(|body|);
    var r := PlainRecord(contentType, body);
    assert r[3] == U16(|body|)[0] && r[4] == U16(|body|)[1];
  }

  function Advanced(s: Conn): Conn { s.(rx := s.rx.(seqno := (s.rx.seqno + 1) % SEQ_MODULUS)) }

  /** A record protected by the server under its current key is opened by the client, and its
      content handled with the receive sequence number advanced. */
  lemma WrapOpens(w: World, s: Conn, sv: Server, contentType: byte, data: bytes)
    requires ValidWorld(w) && InSync(w, s, sv) && sv.stage != AwaitHello && FitsProtected(|data|)
    requires contentType == TYPE_HANDSHAKE || contentType == TYPE_DATA
    ensures var r := Wrap(w.c, sv, contentType, data);
            && 5 <= |r| <= MAX_RECORD && GetU16(r, 3) == |r| - 5
            && OnRecord(w, s, r) == if contentType == TYPE_HANDSHAKE then OnMessages(w, Advanced(s), data)
                                    else Some(Deliver(Advanced(s), data))
  {
    hide Protected, OnMessages, Deliver, Tls13Crypto.Open;
    ProtectedShape(w.c, sv.keys, sv.seqno, contentType, data);
  }

  /** What the consumer is given for an item. */
  function Payload(t: Trace<bytes>, i: Item): Trace<bytes> {
    if i.App? && i.data != [] then Then(t, i.data) else t
  }

  /** What one honest record does to the connection, apart from keeping it in step. */
  predicate Received(s: Conn, r: Conn, i: Item) {
    && r.net == s.net.(delivered := Payload(s.net.delivered, i))
    && (!i.Hello? ==> r.tx == s.tx)
    && (if i.ExtensionsAndFinished? || i.FinishedAlone? then r.phase == ClientFinished else r.phase == s.phase)
  }

  predicate Stepped(w: World, s: Conn, i: Item, r: Option<Conn>, sv: Server) {
    && r.Some? && InSync(w, r.value, sv) && Received(s, r.value, i)
    && (i.Hello? ==> r.value.tx == InstallTx(s.tx, TrafficKeys(w.c, r.value.secrets.clientHs)))
  }

  lemma PlainItemInSync(w: World, priv: bytes, s: Conn, sv: Server, i: Item)
    requires ValidWorld(w) && InSync(w, s, sv) && Legal(w.c, priv, sv, i)
    requires i.ChangeCipher? || i.Hello?
    ensures var (sv', rec) := Emit(w.c, priv, w.psk, sv, i);
            && 5 <= |rec| <= MAX_RECORD && GetU16(rec, 3) == |rec| - 5
            && Stepped(w, s, i, OnRecord(w, s, rec), sv')
  {
    hide PlainRecord, OnMessages, OnMessage, HelloMsg, SendHello, InstallTx, TrafficKeys, HelloMessage;
    hide EncodeExts, AllAcceptable, HelloOf, HelloAcceptable;
    if i.Hello? {
      PlainShape(TYPE_HANDSHAKE, HelloMsg(i));
      HelloWellFormed(i);
      SingleMessage(w, s, HelloMsg(i));
      HelloInSync(w, priv, s, sv, i);
    } else {
      PlainShape(TYPE_CHANGE_CIPHER, i.body);
    }
  }

  lemma ExtensionsInSync(w: World, s: Conn, sv: Server, msg: bytes)
    requires InSync(w, s, sv) && sv.stage == AwaitExtensions
    requires WellFormed(msg, ENCRYPTED_EXTENSIONS) && FitsTranscript(sv, |msg|)
    ensures var r := OnMessage(w, Advanced(s), msg);
            && r.Some? && r.value == Advanced(s).(transcript := s.transcript + msg)
            && InSync(w, r.value, Bump(SendExtensions(sv, msg)))
  {
    hide HelloMessage;
  }

  lemma FlightItemInSync(w: World, priv: bytes, s: Conn, sv: Server, i: Item)
    requires ValidWorld(w) && InSync(w, s, sv) && Legal(w.c, priv, sv, i)
    requires i.Extensions? || i.ExtensionsAndFinished? || i.FinishedAlone?
    ensures var (sv', rec) := Emit(w.c, priv, w.psk, sv, i);
            && 5 <= |rec| <= MAX_RECORD && GetU16(rec, 3) == |rec| - 5
            && Stepped(w, s, i, OnRecord(w, s, rec), sv')
  {
    hide OnMessages, OnMessage, OnRecord, Wrap, SendFinished, ServerFinishedMsg;
    match i
    case Extensions(msg) =>
      WrapOpens(w, s, sv, TYPE_HANDSHAKE, msg);
      SingleMessage(w, Advanced(s), msg);
      ExtensionsInSync(w, s, sv, msg);
    case ExtensionsAndFinished(msg) =>
      var sv1 := SendExtensions(sv, msg);
      ExtensionsInSync(w, s, sv, msg);
      var s1 := OnMessage(w, Advanced(s), msg).value;
      FinishedInSync(w, s1, Bump(sv1));
      SameFinished(w.c, sv1);
      var fin := ServerFinishedMsg(w.c, sv1);
      WrapOpens(w, s, sv, TYPE_HANDSHAKE, msg + fin);
      MessagesStep(w, Advanced(s), msg, fin);
      SingleMessage(w, s1, fin);
    case FinishedAlone =>
      FinishedInSync(w, Advanced(s), Bump(sv));
      SameFinished(w.c, sv);
      var fin := ServerFinishedMsg(w.c, sv);
      WrapOpens(w, s, sv, TYPE_HANDSHAKE, fin);
      SingleMessage(w, Advanced(s), fin);
  }

  /** The record sequence number plays no part in the Finished message. */
  lemma SameFinished(c: Suite, sv: Server)
    ensures ServerFinishedMsg(c, Bump(sv)) == ServerFinishedMsg(c, sv)
    ensures SendFinished(c, Bump(sv)) == SendFinished(c, sv)
  {
  }

  lemma OpenItemInSync(w: World, priv: bytes, s: Conn, sv: Server, i: Item)
    requires ValidWorld(w) && InSync(w, s, sv) && Legal(w.c, priv, sv, i)
    requires i.Ticket? || i.App?
    ensures var (sv', rec) := Emit(w.c, priv, w.psk, sv, i);
            && 5 <= |rec| <= MAX_RECORD && GetU16(rec, 3) == |rec| - 5
            && Stepped(w, s, i, OnRecord(w, s, rec), sv')
  {
    hide OnMessages, OnRecord, Wrap, HelloMessage, Tls13Hello.SpecParse;
    match i
    case Ticket(msg) =>
      WrapOpens(w, s, sv, TYPE_HANDSHAKE, msg);
      SingleMessage(w, Advanced(s), msg);
    case App(data) => WrapOpens(w, s, sv, TYPE_DATA, data);
  }

  /** Every record of an honest server is accepted and leaves client and server in step. */
  lemma EmitInSync(w: World, priv: bytes, s: Conn, sv: Server, i: Item)
    requires ValidWorld(w) && InSync(w, s, sv) && Legal(w.c, priv, sv, i)
    ensures var (sv', rec) := Emit(w.c, priv, w.psk, sv, i);
            && 5 <= |rec| <= MAX_RECORD && GetU16(rec, 3) == |rec| - 5
            && Stepped(w, s, i, OnRecord(w, s, rec), sv')
  {
    hide *;
    match i
    case ChangeCipher(_) => PlainItemInSync(w, priv, s, sv, i);
    case Hello(_, _, _) => PlainItemInSync(w, priv, s, sv, i);
    case Extensions(_) => FlightItemInSync(w, priv, s, sv, i);
    case ExtensionsAndFinished(_) => FlightItemInSync(w, priv, s, sv, i);
    case FinishedAlone => FlightItemInSync(w, priv, s, sv, i);
    case Ticket(_) => OpenItemInSync(w, priv, s, sv, i);
    case App(_) => OpenItemInSync(w, priv, s, sv, i);
  }
}
