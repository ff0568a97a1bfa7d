/**
 The NVMe/TCP session object.  Each method is one driver routine, updating the session's
 fields step by step; Drive runs the object through any sequence of events, and Session
 carries the whole-run theorems of NvmeRuns over to it.  The outcome of a transmission, the
 random transaction identifier and the preparation of the Reply come from outside and are
 parameters.
 */
module NvmeDriver {
  import opened NvmeSession
  import opened NvmeRuns
  import NvmeProgress
  import NvmeGenuine
  import NvmeDemand

  class Nvmetcp {
    var phase: Phase
    var cid: int
    var txInFlight: bool
    var running: bool                 // the process is scheduled
    var auth: AuthContext
    var haveSecret: bool
    var cqe: Completion
    var cmdBuf: Message
    var stuck: Stuck
    var icReqSent: bool
    var ended: bool
    ghost var issued: nat
    ghost var log: Log

    ghost function View(): Session
      reads this
    {
      Session(phase, cid, txInFlight, running, auth, haveSecret, cqe, cmdBuf, stuck,
              icReqSent, ended, issued, log)
    }

    constructor (secret: bool)
      ensures View() == Opened(secret)
    {
      phase, cid, txInFlight, running := IcReq, 0, false, true;
      auth := AuthContext(Start, false, false, 0, 0, 0);
      haveSecret, cqe, cmdBuf, stuck := secret, Completion(0, 0, 0), NO_MESSAGE, NoPdu;
      icReqSent, ended := false, false;
      issued, log := 0, Empty;
    }

    method TxPdu(ghost cmd: Command, tx: Tx) returns (rc: Rc)
      modifies this
      ensures rc == TxRc(tx)
      ensures View() == if tx.Sent? then old(View()).(txInFlight := true, running := false,
                                                      log := Then(old(log), Transmitted(cmd)))
                        else old(View())
    {
      rc := TxRc(tx);
      if rc != Ok { return; }
      log := Then(log, Transmitted(cmd));
      txInFlight := true;
      running := false;
    }

    method SendCommand(kind: Kind, tx: Tx) returns (rc: Rc)
      modifies this
      ensures (View(), rc) == TxCommand(old(View()), kind, tx)
    {
      cid := (cid + 1) % CID_MODULUS;
      issued := issued + 1;
      rc := TxPdu(Command(cid, kind), tx);
      if rc != Ok { return; }
      stuck := NoPdu;                 // the PDU parser is reset
    }

    method SendReceiveStep(next: AuthStep, tx: Tx) returns (rc: Rc)
      modifies this
      ensures (View(), rc) == AuthTxReceiveStep(old(View()), next, tx)
    {
      auth := auth.(step := next);
      rc := SendCommand(if next == Challenge then ReceiveChallenge else ReceiveSuccess1, tx);
      if rc != Ok {
        auth := auth.(step := if next == Challenge then CompleteNegotiate else CompleteReply);
        return;
      }
      auth := auth.(rxCid := cid);
    }

    method ReceiveChallengeData(prep: Prepare, tx: Tx) returns (rc: Rc)
      modifies this
      ensures (View(), rc) == AuthRxChallenge(old(View()), prep, tx)
    {
      if !ChallengeValid(cmdBuf, auth.transaction) { return EFatal; }
      auth := auth.(hl := cmdBuf.hl);
      match prep
      case PrepareFailed => return EFatal;
      case PrepareOutOfMemory => return ENoMem;
      case Prepared =>
        cmdBuf := ReplyMessage(auth.transaction, auth.hl);
        rc := SendCommand(Reply, tx);
    }

    method AuthData(prep: Prepare, tx: Tx) returns (rc: Rc)
      modifies this
      ensures (View(), rc) == AuthRxData(old(View()), prep, tx)
    {
      match auth.step
      case Challenge =>
        rc := ReceiveChallengeData(prep, tx);
        if rc == Ok { auth := auth.(step := CompleteReply); }
      case Success1 =>
        if !Success1Valid(cmdBuf, auth.transaction, auth.hl) { return EFatal; }
        auth := auth.(completed := true);
        log := Then(log, Validated(cmdBuf));
        auth := auth.(step := Start);
        rc := Ok;
      case _ => rc := EFatal;
    }

    method AuthCompletion(tx: Tx) returns (rc: Rc)
      modifies this
      ensures (View(), rc) == AuthRxComplete(old(View()), tx)
    {
      match auth.step
      case CompleteNegotiate => rc := SendReceiveStep(Challenge, tx);
      case Challenge => rc := Ok;
      case CompleteReply => rc := SendReceiveStep(Success1, tx);
      case _ =>
        rc := Ok;
        if cqe.cid != auth.rxCid { return; }
        auth := auth.(rxComplete := true);
    }

    method AuthTryComplete()
      modifies this
      ensures View() == if old(auth).completed && old(auth).rxComplete
                        then Enter(old(View()), PropSet) else old(View())
    {
      if auth.completed && auth.rxComplete {
        phase := PropSet;
        log := Then(log, Entered(PropSet));
      }
    }

    method AuthProcess(tx: Tx, rng: bool, transaction: int) returns (rc: Rc)
      modifies this
      ensures (View(), rc) == AuthStepOnce(old(View()), tx, rng, transaction)
    {
      match auth.step
      case Start =>
        if auth.completed { return Ok; }
        if !rng { return EFatal; }
        auth := auth.(transaction := transaction, step := CompleteNegotiate);
        rc := SendCommand(Negotiate, tx);
      case CompleteNegotiate =>
        rc := Ok;
        if !txInFlight { rc := SendReceiveStep(Challenge, tx); }
      case CompleteReply =>
        rc := Ok;
        if !txInFlight { rc := SendReceiveStep(Success1, tx); }
      case _ => rc := Ok;
    }

    method EnterPhase(p: Phase)
      modifies this
      ensures View() == Enter(old(View()), p).(running := true)
    {
      phase, running := p, true;
      log := Then(log, Entered(p));
    }

    method RequireAuth() returns (rc: Rc)
      modifies this
      ensures (View(), rc) == AuthRequired(old(View()))
    {
      if !haveSecret { return EFatal; }
      EnterPhase(Auth);
      rc := Ok;
    }

    method CommandComplete(tx: Tx) returns (rc: Rc)
      modifies this
      ensures (View(), rc) == RxCommand(old(View()), tx)
    {
      txInFlight := false;
      if cqe.status != 0 {
        rc := EFatal;
        if cqe.status == STATUS_AUTH_REQUIRED && phase == ConnectAdmin { rc := RequireAuth(); }
        return;
      }
      match phase
      case ConnectAdmin =>
        rc := Ok;
        if (cqe.result / RESULT_ATR) % 2 == 1 { rc := RequireAuth(); } else { EnterPhase(PropSet); }
      case PropSet => EnterPhase(IdentifyCtrl); rc := Ok;
      case IdentifyCtrl => EnterPhase(IdentifyNs); rc := Ok;
      case IdentifyNs => EnterPhase(IcReqIo); rc := Ok;
      case Auth =>
        rc := AuthCompletion(tx);
        if rc == Ok { FinishAuth(); }
      case _ => rc := EFatal;
    }

    method FinishAuth()
      requires phase == Auth
      modifies this
      ensures (View(), Ok) == AuthFinish((old(View()), Ok))
    {
      AuthTryComplete();
      if phase != Auth { running := true; }
    }

    method DataComplete(prep: Prepare, tx: Tx) returns (rc: Rc)
      modifies this
      ensures (View(), rc) == RxData(old(View()), prep, tx)
    {
      txInFlight := false;
      match phase
      case Auth =>
        rc := AuthData(prep, tx);
        if rc == Ok { FinishAuth(); }
      case IdentifyCtrl => rc := Ok;
      case IdentifyNs => rc := if cmdBuf.namespaceOk then Ok else EFatal;
      case _ => rc := EFatal;
    }

    method Step(tx: Tx, rng: bool, transaction: int)
      modifies this
      ensures View() == Process(old(View()), tx, rng, transaction)
    {
      var rc := Ok;
      match phase {
        case IcReq =>
          rc := TxRc(tx);
          if rc == Ok { txInFlight, running, icReqSent := true, false, true; }
        case ConnectAdmin => rc := SendCommand(Connect, tx);
        case PropSet => rc := SendCommand(PropertySet, tx);
        case Auth => rc := AuthProcess(tx, rng, transaction);
        case IdentifyCtrl => rc := SendCommand(IdentifyController, tx);
        case IdentifyNs => rc := SendCommand(IdentifyNamespace, tx);
        case IcReqIo =>
      }
      if rc == EAgain {
        running := false;
      } else if rc == EFatal {
        running, ended := false, true;
      }
    }

    method TxResume()
      modifies this
      ensures View() == WindowChanged(old(View()))
    {
      if txInFlight { return; }
      running := true;
    }

    method IcResp(versionOk: bool)
      modifies this
      ensures View() == ReceiveIcResp(old(View()), versionOk)
    {
      if !versionOk { ended := true; return; }
      EnterPhase(ConnectAdmin);
      txInFlight := false;
    }

    /** The tail of PDU processing: reset the parser, or leave the PDU in it. */
    method PduHandled(rc: Rc, pdu: Stuck)
      modifies this
      ensures View() == Handled((old(View()), rc), pdu)
    {
      match rc
      case Ok => stuck := NoPdu;
      case EFatal => ended := true;
      case _ => stuck := pdu;
    }

    method ResponsePdu(c: Completion, tx: Tx)
      modifies this
      ensures View() == ReceiveCompletion(old(View()), c, tx)
    {
      cqe := c;
      log := Then(log, Completed(c.cid));
      var rc := CommandComplete(tx);
      PduHandled(rc, StuckCompletion);
    }

    method DataPdu(msg: Message, prep: Prepare, tx: Tx)
      modifies this
      ensures View() == ReceiveData(old(View()), msg, prep, tx)
    {
      cmdBuf := msg;
      var rc := DataComplete(prep, tx);
      PduHandled(rc, StuckData);
    }

    method RetryStuckPdu(prep: Prepare, tx: Tx)
      modifies this
      ensures View() == Reprocess(old(View()), prep, tx)
    {
      match stuck
      case NoPdu =>
      case StuckCompletion =>
        var rc := CommandComplete(tx);
        PduHandled(rc, StuckCompletion);
      case StuckData =>
        var rc := DataComplete(prep, tx);
        PduHandled(rc, StuckData);
    }

    method Handle(e: Event)
      modifies this
      ensures View() == Next(old(View()), e)
    {
      hide Process, ReceiveCompletion, ReceiveData, Reprocess, ReceiveIcResp, WindowChanged;
      match e
      case ProcessRuns(tx, rng, transaction) => Step(tx, rng, transaction);
      case WindowOpens => TxResume();
      case IcRespArrives(versionOk) => IcResp(versionOk);
      case CompletionArrives(c, tx) => ResponsePdu(c, tx);
      case DataArrives(msg, prep, tx) => DataPdu(msg, prep, tx);
      case StuckPduRetried(prep, tx) => RetryStuckPdu(prep, tx);
      case CompletionDropped(c) => log := Then(log, Lost(c));
    }

    /** The object under any sequence of events behaves as the run of the state machine. */
    method Drive(es: seq<Event>)
      modifies this
      ensures View() == Run(old(View()), es)
    {
      hide Next;
      var i := 0;
      assert es[0..] == es;
      while i < |es|
        invariant i <= |es| && Run(View(), es[i..]) == Run(old(View()), es)
      {
        assert es[i..][1..] == es[i + 1..];
        Handle(es[i]);
        i := i + 1;
      }
    }
  }

  /** A fresh session against a FIFO target, whatever happens: commands leave in protocol order,
      AUTH is left only through its gate, Property Set is never skipped, and the session is
      never stuck without cause. */
  method Session(secret: bool, es: seq<Event>) returns (s: Nvmetcp)
    requires FifoRunOk(Opened(secret), es)
    ensures fresh(s) && InProtocolOrder(Wire(s.log)) && PropertySetOwnsItsPhase(s.log) && GateHonoured(s.log)
    ensures !s.ended && PhaseRank(s.phase) > 2 && EnteredAuth(s.log) ==>
              NvmeGenuine.ValidatedFor(s.log, s.auth.transaction, s.auth.hl)
    ensures !s.ended ==> NvmeDemand.Obeys(s.View(), NvmeDemand.FirstCompletion(es))
    ensures forall t :: !s.ended && s.phase != IcReqIo ==> NvmeProgress.Explained(s.View(), t)
  {
    s := new Nvmetcp(secret);
    s.Drive(es);
    NvmeProgress.FifoEnabled(Opened(secret), es);
    CommandsInProtocolOrder(secret, es);
    PropertySetNeverSkipped(secret, es);
    FifoIsHonest(Opened(secret), es);
    AuthenticationExitGate(secret, es);
    NvmeGenuine.Success1WasGenuine(secret, es);
    NvmeDemand.DemandObeyed(secret, es);
    forall t ensures !s.ended && s.phase != IcReqIo ==> NvmeProgress.Explained(s.View(), t) {
      NvmeProgress.NeverWedged(secret, es, t);
    }
  }
}
