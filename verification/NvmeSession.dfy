/**
 The NVMe/TCP session and DH-HMAC-CHAP authentication state machines as functions on
 values: what one call of each driver routine does to the session.  The driver class in
 NvmeDriver is proved against these functions; NvmeRuns reasons about whole runs of them.
 */
module NvmeSession {

  /** Session phases, in the order in which a session passes through them. */
  datatype Phase =
    | IcReq | ConnectAdmin | Auth | PropSet | IdentifyCtrl | IdentifyNs | IcReqIo

  datatype AuthStep = Start | CompleteNegotiate | Challenge | CompleteReply | Success1

  /** Admin commands.  The two AuthReceives differ in the step entered by sending them. */
  datatype Kind =
    | Connect | Negotiate | ReceiveChallenge | Reply | ReceiveSuccess1
    | PropertySet | IdentifyController | IdentifyNamespace

  datatype Command = Command(cid: int, kind: Kind)

  datatype Completion = Completion(cid: int, status: int, result: int)

  /** The fields of a received authentication (or Identify) buffer that the driver inspects. */
  datatype Message = Message(authType: int, authId: int, tId: int, hl: int, hashId: int,
                             dhgId: int, dhvLen: int, rvalid: int, namespaceOk: bool)

  /** A PDU whose handler failed: the parser is not reset and will run the handler again. */
  datatype Stuck = NoPdu | StuckCompletion | StuckData

  /** How the socket takes a transmission: sent, closed window, or no memory. */
  datatype Tx = Sent | WindowClosed | OutOfMemory

  /** How the Reply is prepared before it is sent. */
  datatype Prepare = Prepared | PrepareOutOfMemory | PrepareFailed

  datatype Rc = Ok | EAgain | ENoMem | EFatal

  /** What an observer of the admin connection records. */
  datatype Fact =
    | Transmitted(cmd: Command)
    | Completed(cid: int)
    | Lost(cid: int)
    | Validated(msg: Message)
    | Entered(phase: Phase)

  /** The facts recorded so far, oldest first. */
  datatype Log = Empty | Then(before: Log, fact: Fact)

  datatype AuthContext = AuthContext(step: AuthStep, completed: bool, rxComplete: bool,
                                     rxCid: int, transaction: int, hl: int)

  datatype Session = Session(
    phase: Phase, cid: int, txInFlight: bool, running: bool, auth: AuthContext,
    haveSecret: bool, cqe: Completion, buf: Message, stuck: Stuck,
    icReqSent: bool, ended: bool,
    issued: nat,          // command identifiers used so far
    log: Log)

  const CID_MODULUS := 0x1_0000
  const STATUS_AUTH_REQUIRED := 0x0c
  const RESULT_ATR := 0x2_0000
  const DHCHAP_MESSAGES := 0x01
  const MESSAGE_CHALLENGE := 0x01
  const MESSAGE_REPLY := 0x02
  const MESSAGE_SUCCESS1 := 0x03

  const NO_MESSAGE := Message(0, 0, 0, 0, 0, 0, 0, 0, false)

  function Opened(haveSecret: bool): Session {
    Session(IcReq, 0, false, true, AuthContext(Start, false, false, 0, 0, 0),
            haveSecret, Completion(0, 0, 0), NO_MESSAGE, NoPdu, false, false, 0, Empty)
  }

  // ---------------------------------------------------------------- transmission

  function TxRc(tx: Tx): Rc {
    match tx
    case Sent => Ok
    case WindowClosed => EAgain
    case OutOfMemory => ENoMem
  }

  /** The identifier is consumed whether or not the command reaches the wire; reaching it
      resets the PDU parser and stops the process. */
  function TxCommand(s: Session, kind: Kind, tx: Tx): (Session, Rc) {
    var s1 := s.(cid := (s.cid + 1) % CID_MODULUS, issued := s.issued + 1);
    if tx.Sent? then
      (s1.(txInFlight := true, running := false, stuck := NoPdu,
           log := Then(s1.log, Transmitted(Command(s1.cid, kind)))), Ok)
    else
      (s1, TxRc(tx))
  }

  function SetStep(s: Session, step: AuthStep): Session {
    s.(auth := s.auth.(step := step))
  }

  function Enter(s: Session, phase: Phase): Session {
    s.(phase := phase, log := Then(s.log, Entered(phase)))
  }

  function AuthTxReceiveStep(s: Session, next: AuthStep, tx: Tx): (Session, Rc) {
    var kind := if next == Challenge then ReceiveChallenge else ReceiveSuccess1;
    var (s1, rc) := TxCommand(SetStep(s, next), kind, tx);
    if rc == Ok then
      (s1.(auth := s1.auth.(rxCid := s1.cid)), Ok)
    else
      (SetStep(s1, if next == Challenge then CompleteNegotiate else CompleteReply), rc)
  }

  // ---------------------------------------------------------------- authentication

  function HashSize(hashId: int): int {
    if hashId == 1 then 32 else if hashId == 2 then 48 else if hashId == 3 then 64 else 0
  }

  function GroupSize(dhgId: int): int {
    if dhgId == 1 then 256 else if dhgId == 2 then 384 else if dhgId == 3 then 512 else 0
  }

  predicate MessageValid(m: Message, expected: int, transaction: int) {
    m.authType == DHCHAP_MESSAGES && m.authId == expected && m.tId == transaction
  }

  predicate ChallengeValid(m: Message, transaction: int) {
    && MessageValid(m, MESSAGE_CHALLENGE, transaction)
    && HashSize(m.hashId) != 0 && m.hl == HashSize(m.hashId)
    && (if m.dhgId != 0 then GroupSize(m.dhgId) != 0 && m.dhvLen == GroupSize(m.dhgId)
        else m.dhvLen == 0)
  }

  predicate Success1Valid(m: Message, transaction: int, hl: int) {
    MessageValid(m, MESSAGE_SUCCESS1, transaction) && m.hl == hl && m.rvalid == 0
  }

  /** The Reply is built in the receive buffer, over the challenge it answers. */
  function ReplyMessage(transaction: int, hl: int): Message {
    Message(DHCHAP_MESSAGES, MESSAGE_REPLY, transaction, hl, 0, 0, 0, 0, false)
  }

  function AuthRxChallenge(s: Session, prep: Prepare, tx: Tx): (Session, Rc) {
    if !ChallengeValid(s.buf, s.auth.transaction) then (s, EFatal)
    else
      var s1 := s.(auth := s.auth.(hl := s.buf.hl));
      match prep
      case PrepareFailed => (s1, EFatal)
      case PrepareOutOfMemory => (s1, ENoMem)
      case Prepared =>
        TxCommand(s1.(buf := ReplyMessage(s1.auth.transaction, s1.auth.hl)), Reply, tx)
  }

  function AuthRxData(s: Session, prep: Prepare, tx: Tx): (Session, Rc) {
    match s.auth.step
    case Challenge =>
      var (s1, rc) := AuthRxChallenge(s, prep, tx);
      if rc == Ok then (SetStep(s1, CompleteReply), Ok) else (s1, rc)
    case Success1 =>
      if Success1Valid(s.buf, s.auth.transaction, s.auth.hl) then
        (s.(auth := s.auth.(completed := true, step := Start),
            log := Then(s.log, Validated(s.buf))), Ok)
      else (s, EFatal)
    case _ => (s, EFatal)
  }

  function AuthRxComplete(s: Session, tx: Tx): (Session, Rc) {
    match s.auth.step
    case CompleteNegotiate => AuthTxReceiveStep(s, Challenge, tx)
    case CompleteReply => AuthTxReceiveStep(s, Success1, tx)
    case Challenge => (s, Ok)
    case _ =>
      if s.cqe.cid != s.auth.rxCid then (s, Ok)
      else (s.(auth := s.auth.(rxComplete := true)), Ok)
  }

  /** Authentication ends once both the success1 data and the final AuthReceive's completion
      have been seen, in whichever order they came. */
  function AuthFinish(r: (Session, Rc)): (Session, Rc) {
    if r.1 == Ok && r.0.auth.completed && r.0.auth.rxComplete then
      (Enter(r.0, PropSet).(running := true), Ok)
    else r
  }

  function AuthStepOnce(s: Session, tx: Tx, rng: bool, transaction: int): (Session, Rc) {
    match s.auth.step
    case Start =>
      if s.auth.completed then (s, Ok)
      else if !rng then (s, EFatal)
      else TxCommand(s.(auth := s.auth.(transaction := transaction, step := CompleteNegotiate)),
                     Negotiate, tx)
    case CompleteNegotiate =>
      if s.txInFlight then (s, Ok) else AuthTxReceiveStep(s, Challenge, tx)
    case CompleteReply =>
      if s.txInFlight then (s, Ok) else AuthTxReceiveStep(s, Success1, tx)
    case _ => (s, Ok)
  }

  // ---------------------------------------------------------------- session

  function AuthRequired(s: Session): (Session, Rc) {
    if !s.haveSecret then (s, EFatal) else (Enter(s, Auth).(running := true), Ok)
  }

  function RxCommand(s: Session, tx: Tx): (Session, Rc) {
    var s0 := s.(txInFlight := false);
    if s.cqe.status != 0 then
      if s.cqe.status == STATUS_AUTH_REQUIRED && s.phase == ConnectAdmin then AuthRequired(s0)
      else (s0, EFatal)
    else
      match s.phase
      case ConnectAdmin =>
        if (s.cqe.result / RESULT_ATR) % 2 == 1 then AuthRequired(s0)
        else (Enter(s0, PropSet).(running := true), Ok)
      case PropSet => (Enter(s0, IdentifyCtrl).(running := true), Ok)
      case IdentifyCtrl => (Enter(s0, IdentifyNs).(running := true), Ok)
      case IdentifyNs => (Enter(s0, IcReqIo).(running := true), Ok)
      case Auth => AuthFinish(AuthRxComplete(s0, tx))
      case _ => (s0, EFatal)
  }

  function RxData(s: Session, prep: Prepare, tx: Tx): (Session, Rc) {
    var s0 := s.(txInFlight := false);
    match s.phase
    case Auth => AuthFinish(AuthRxData(s0, prep, tx))
    case IdentifyCtrl => (s0, Ok)
    case IdentifyNs => if s.buf.namespaceOk then (s0, Ok) else (s0, EFatal)
    case _ => (s0, EFatal)
  }

  function TxIcReq(s: Session, tx: Tx): (Session, Rc) {
    if tx.Sent? then (s.(txInFlight := true, running := false, icReqSent := true), Ok)
    else (s, TxRc(tx))
  }

  function StepOnce(s: Session, tx: Tx, rng: bool, transaction: int): (Session, Rc) {
    match s.phase
    case IcReq => TxIcReq(s, tx)
    case ConnectAdmin => TxCommand(s, Connect, tx)
    case PropSet => TxCommand(s, PropertySet, tx)
    case Auth => AuthStepOnce(s, tx, rng, transaction)
    case IdentifyCtrl => TxCommand(s, IdentifyController, tx)
    case IdentifyNs => TxCommand(s, IdentifyNamespace, tx)
    case IcReqIo => (s, Ok)
  }

  /** One run of the session process: a closed window stops it, lack of memory does not. */
  function Process(s: Session, tx: Tx, rng: bool, transaction: int): Session {
    var (s1, rc) := StepOnce(s, tx, rng, transaction);
    match rc
    case EAgain => s1.(running := false)
    case EFatal => s1.(running := false, ended := true)
    case _ => s1
  }

  function WindowChanged(s: Session): Session {
    if s.txInFlight then s else s.(running := true)
  }

  function ReceiveIcResp(s: Session, versionOk: bool): Session {
    if versionOk then Enter(s, ConnectAdmin).(txInFlight := false, running := true)
    else s.(ended := true)
  }

  /** Handler outcome: success resets the parser, a deferral leaves the PDU in it. */
  function Handled(r: (Session, Rc), pdu: Stuck): Session {
    match r.1
    case Ok => r.0.(stuck := NoPdu)
    case EFatal => r.0.(ended := true)
    case _ => r.0.(stuck := pdu)
  }

  function ReceiveCompletion(s: Session, cqe: Completion, tx: Tx): Session {
    Handled(RxCommand(s.(cqe := cqe, log := Then(s.log, Completed(cqe.cid))), tx), StuckCompletion)
  }

  function ReceiveData(s: Session, msg: Message, prep: Prepare, tx: Tx): Session {
    Handled(RxData(s.(buf := msg), prep, tx), StuckData)
  }

  /** The next delivery runs the handler of a stuck PDU again before it consumes anything. */
  function Reprocess(s: Session, prep: Prepare, tx: Tx): Session {
    match s.stuck
    case NoPdu => s
    case StuckCompletion => Handled(RxCommand(s, tx), StuckCompletion)
    case StuckData => Handled(RxData(s, prep, tx), StuckData)
  }

  // ---------------------------------------------------------------- events

  datatype Event =
    | ProcessRuns(tx: Tx, rng: bool, transaction: int)
    | WindowOpens
    | IcRespArrives(versionOk: bool)
    | CompletionArrives(cqe: Completion, tx: Tx)
    | DataArrives(msg: Message, prep: Prepare, tx: Tx)
    | StuckPduRetried(prep: Prepare, tx: Tx)
    | CompletionDropped(cid: int)

  /** What the driver and the parser allow, whatever the target sends.  PDUs are consumed
      only when no PDU is stuck; what follows a stuck PDU in its segment is dropped. */
  predicate Enabled(s: Session, e: Event) {
    && !s.ended
    && match e
       case ProcessRuns(_, _, _) => s.running
       case WindowOpens => true
       case IcRespArrives(_) => s.phase == IcReq && s.icReqSent
       case CompletionArrives(_, _) => s.stuck.NoPdu?
       case DataArrives(_, _, _) => s.stuck.NoPdu?
       case StuckPduRetried(_, _) => !s.stuck.NoPdu?
       case CompletionDropped(_) => !s.stuck.NoPdu?
  }

  function Next(s: Session, e: Event): Session {
    match e
    case ProcessRuns(tx, rng, transaction) => Process(s, tx, rng, transaction)
    case WindowOpens => WindowChanged(s)
    case IcRespArrives(versionOk) => ReceiveIcResp(s, versionOk)
    case CompletionArrives(cqe, tx) => ReceiveCompletion(s, cqe, tx)
    case DataArrives(msg, prep, tx) => ReceiveData(s, msg, prep, tx)
    case StuckPduRetried(prep, tx) => Reprocess(s, prep, tx)
    case CompletionDropped(cid) => s.(log := Then(s.log, Lost(cid)))
  }
}
