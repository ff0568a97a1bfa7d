/**
 Whole-run properties of the NVMe/TCP session: for every sequence of process steps, window
 openings, completions, data arrivals, deferred sends and lost PDUs.
 */
module NvmeRuns {
  import opened NvmeSession

  // ---------------------------------------------------------------- runs

  function Run(s: Session, es: seq<Event>): Session
    decreases |es|
  {
    if es == [] then s else Run(Next(s, es[0]), es[1..])
  }

  predicate AllEnabled(s: Session, es: seq<Event>)
    decreases |es|
  {
    es == [] || (Enabled(s, es[0]) && AllEnabled(Next(s, es[0]), es[1..]))
  }

  function Facts(log: Log): nat { if log.Empty? then 0 else Facts(log.before) + 1 }

  lemma GrownLogDiffers(log: Log)
    ensures forall f :: Log.Then(log, f) != log
  {
    assert forall f :: Facts(Log.Then(log, f)) == Facts(log) + 1;
  }

  // ---------------------------------------------------------------- steps only advance

  function AuthRank(a: AuthContext): nat {
    match a.step
    case Start => if a.completed then 5 else 0
    case CompleteNegotiate => 1
    case Challenge => 2
    case CompleteReply => 3
    case Success1 => 4
  }

  function PhaseRank(p: Phase): nat {
    match p
    case IcReq => 0
    case ConnectAdmin => 1
    case Auth => 2
    case PropSet => 3
    case IdentifyCtrl => 4
    case IdentifyNs => 5
    case IcReqIo => 6
  }

  /** Position of a command in the protocol. */
  function Slot(k: Kind): nat {
    match k
    case Connect => 0
    case Negotiate => 1
    case ReceiveChallenge => 2
    case Reply => 3
    case ReceiveSuccess1 => 4
    case PropertySet => 5
    case IdentifyController => 6
    case IdentifyNamespace => 7
  }

  /** The slot of the last command sent, or -1. */
  function Top(log: Log): int {
    match log
    case Empty => -1
    case Then(before, Transmitted(c)) => Slot(c.kind)
    case Then(before, _) => Top(before)
  }

  /** Every command sent lies beyond all before it; only the Identify commands repeat. */
  predicate Ordered(log: Log) {
    match log
    case Empty => true
    case Then(before, Transmitted(c)) =>
      Ordered(before) && (Top(before) < Slot(c.kind) || (Top(before) == Slot(c.kind) && Slot(c.kind) >= 6))
    case Then(before, _) => Ordered(before)
  }

  /** No command beyond this slot has been sent. */
  function SlotBound(s: Session): int {
    match s.phase
    case IcReq => -1
    case ConnectAdmin => if s.txInFlight then 0 else -1
    case Auth => if AuthRank(s.auth) == 5 then 4 else AuthRank(s.auth)
    case PropSet => if s.txInFlight then 5 else 4
    case IdentifyCtrl => 6
    case IdentifyNs => 7
    case IcReqIo => 7
  }

  /** Where a send made on behalf of a received PDU can be deferred. */
  predicate Deferrable(s: Session) {
    s.phase == Auth && 1 <= AuthRank(s.auth) <= 3
  }

  predicate OrderInv(s: Session) {
    && Ordered(s.log)
    && (!s.ended ==>
          && Top(s.log) <= SlotBound(s)
          && (s.auth.completed ==> s.auth.step == Start)
          && (!s.stuck.NoPdu? ==> Deferrable(s))
          && (s.phase == ConnectAdmin || s.phase == PropSet ==> !s.txInFlight || !s.running))
  }

  lemma OrderTxCommand(s: Session, kind: Kind, tx: Tx)
    requires Ordered(s.log)
    requires Top(s.log) < Slot(kind) || (Top(s.log) == Slot(kind) && Slot(kind) >= 6)
    ensures var s1 := TxCommand(s, kind, tx).0;
            && Ordered(s1.log)
            && Top(s1.log) == if tx.Sent? then Slot(kind) else Top(s.log)
  {
  }

  lemma OrderReceiveStep(s: Session, next: AuthStep, tx: Tx)
    requires s.phase == Auth && OrderInv(s) && !s.ended
    requires (next == Challenge && s.auth.step == CompleteNegotiate)
          || (next == Success1 && s.auth.step == CompleteReply)
    ensures var (r, rc) := AuthTxReceiveStep(s, next, tx);
            && OrderInv(r) && r.phase == Auth && !r.ended && !r.auth.completed
            && (rc != Ok ==> Deferrable(r))
  {
    var kind := if next == Challenge then ReceiveChallenge else ReceiveSuccess1;
    OrderTxCommand(SetStep(s, next), kind, tx);
  }

  lemma OrderAuthRxComplete(s: Session, tx: Tx)
    requires s.phase == Auth && OrderInv(s) && !s.ended
    ensures var (r, rc) := AuthRxComplete(s, tx);
            && OrderInv(r) && r.phase == Auth && !r.ended
            && (r.auth.completed ==> r.txInFlight == s.txInFlight)
            && (rc != Ok ==> Deferrable(r))
  {
    hide AuthTxReceiveStep;
    if s.auth.step == CompleteNegotiate {
      OrderReceiveStep(s, Challenge, tx);
    } else if s.auth.step == CompleteReply {
      OrderReceiveStep(s, Success1, tx);
    }
  }

  lemma OrderRxCommand(s: Session, tx: Tx)
    requires OrderInv(s) && !s.ended
    ensures var r := RxCommand(s, tx);
            && Ordered(r.0.log)
            && (r.1 != EFatal ==> OrderInv(r.0) && (r.1 != Ok ==> Deferrable(r.0)))
  {
    hide AuthRxComplete;
    if s.phase == Auth && s.cqe.status == 0 {
      OrderAuthRxComplete(s.(txInFlight := false), tx);
    } else {
      hide AuthFinish;
    }
  }

  lemma OrderAuthRxData(s: Session, prep: Prepare, tx: Tx)
    requires s.phase == Auth && OrderInv(s) && !s.ended
    ensures OrderInv(AuthRxData(s, prep, tx).0)
  {
    if s.auth.step == Challenge {
      var s1 := s.(auth := s.auth.(hl := s.buf.hl));
      OrderTxCommand(s1.(buf := ReplyMessage(s1.auth.transaction, s1.auth.hl)), Reply, tx);
    } else {
    }
  }

  lemma OrderRxData(s: Session, prep: Prepare, tx: Tx)
    requires OrderInv(s) && !s.ended
    ensures var r := RxData(s, prep, tx);
            && Ordered(r.0.log)
            && (r.1 != EFatal ==> OrderInv(r.0) && (r.1 != Ok ==> Deferrable(r.0)))
  {
    if s.phase == Auth {
      OrderAuthRxData(s.(txInFlight := false), prep, tx);
    } else {
      hide AuthRxData;
    }
  }

  lemma OrderAuthStep(s: Session, tx: Tx, rng: bool, transaction: int)
    requires s.phase == Auth && OrderInv(s) && !s.ended
    ensures OrderInv(AuthStepOnce(s, tx, rng, transaction).0)
  {
    if s.auth.step == Start && !s.auth.completed {
      OrderTxCommand(s.(auth := s.auth.(transaction := transaction, step := CompleteNegotiate)),
                     Negotiate, tx);
    } else if s.auth.step == CompleteNegotiate {
      OrderReceiveStep(s, Challenge, tx);
    } else if s.auth.step == CompleteReply {
      OrderReceiveStep(s, Success1, tx);
    }
  }

  lemma OrderProcess(s: Session, tx: Tx, rng: bool, transaction: int)
    requires OrderInv(s) && !s.ended && s.running
    ensures OrderInv(Process(s, tx, rng, transaction))
  {
    if s.phase == Auth {
      hide AuthTxReceiveStep;
      OrderAuthStep(s, tx, rng, transaction);
    } else if s.phase == ConnectAdmin {
      OrderTxCommand(s, Connect, tx);
    } else if s.phase == PropSet {
      OrderTxCommand(s, PropertySet, tx);
    } else if s.phase == IdentifyCtrl {
      OrderTxCommand(s, IdentifyController, tx);
    } else if s.phase == IdentifyNs {
      OrderTxCommand(s, IdentifyNamespace, tx);
    }
  }

  lemma OrderRetry(s: Session, e: Event)
    requires OrderInv(s) && Enabled(s, e) && e.StuckPduRetried?
    ensures OrderInv(Next(s, e))
  {
    hide RxCommand, RxData;
    if s.stuck == StuckCompletion {
      OrderRxCommand(s, e.tx);
    } else {
      OrderRxData(s, e.prep, e.tx);
    }
  }

  lemma OrderArrival(s: Session, e: Event)
    requires OrderInv(s) && Enabled(s, e) && (e.CompletionArrives? || e.DataArrives?)
    ensures OrderInv(Next(s, e))
  {
    hide RxCommand, RxData;
    match e
    case CompletionArrives(cqe, tx) =>
      OrderRxCommand(s.(cqe := cqe, log := Then(s.log, Completed(cqe.cid))), tx);
    case DataArrives(msg, prep, tx) => OrderRxData(s.(buf := msg), prep, tx);
  }

  lemma OrderNext(s: Session, e: Event)
    requires OrderInv(s) && Enabled(s, e)
    ensures OrderInv(Next(s, e))
  {
    hide RxCommand, RxData, Process, Reprocess, ReceiveCompletion, ReceiveData;
    match e
    case ProcessRuns(tx, rng, transaction) => OrderProcess(s, tx, rng, transaction);
    case CompletionArrives(_, _) => OrderArrival(s, e);
    case DataArrives(_, _, _) => OrderArrival(s, e);
    case StuckPduRetried(_, _) => OrderRetry(s, e);
    case _ =>
  }

  // ---------------------------------------------------------------- the exit gate

  /** Identifier of the AuthReceive sent on entering step SUCCESS1, or 0 before that. */
  function FinalCid(log: Log): int {
    match log
    case Empty => 0
    case Then(before, Transmitted(Command(cid, ReceiveSuccess1))) => cid
    case Then(before, _) => FinalCid(before)
  }

  /** A completion carrying that identifier was consumed after the command was sent. */
  predicate FinalCompleted(log: Log) {
    match log
    case Empty => false
    case Then(before, Transmitted(Command(_, ReceiveSuccess1))) => false
    case Then(before, Completed(cid)) => FinalCompleted(before) || cid == FinalCid(before)
    case Then(before, _) => FinalCompleted(before)
  }

  /** A DH-HMAC-CHAP_Success1 message that asks for no controller authentication. */
  predicate PlainSuccess1(m: Message) {
    m.authType == DHCHAP_MESSAGES && m.authId == MESSAGE_SUCCESS1 && m.rvalid == 0
  }

  /** Success1 data was validated after that command was sent. */
  predicate FinalValidated(log: Log) {
    match log
    case Empty => false
    case Then(before, Transmitted(Command(_, ReceiveSuccess1))) => false
    case Then(before, Validated(m)) => PlainSuccess1(m) || FinalValidated(before)
    case Then(before, _) => FinalValidated(before)
  }

  predicate EnteredAuth(log: Log) {
    match log
    case Empty => false
    case Then(before, fact) => fact == Entered(Auth) || EnteredAuth(before)
  }

  /** Whenever an authenticating session left AUTH, the gate was satisfied just before. */
  predicate GateHonoured(log: Log) {
    match log
    case Empty => true
    case Then(before, Entered(PropSet)) =>
      && GateHonoured(before)
      && (EnteredAuth(before) ==>
            FinalCid(before) != 0 && FinalCompleted(before) && FinalValidated(before))
    case Then(before, _) => GateHonoured(before)
  }

  predicate WasSent(log: Log, cid: int) {
    match log
    case Empty => false
    case Then(before, Transmitted(c)) => c.cid == cid || WasSent(before, cid)
    case Then(before, _) => WasSent(before, cid)
  }

  /** The target completes only identifiers it was sent. */
  predicate Honest(s: Session, e: Event) {
    e.CompletionArrives? ==> WasSent(s.log, e.cqe.cid)
  }

  predicate GateInv(s: Session) {
    && GateHonoured(s.log)
    && !WasSent(s.log, 0)
    && (!s.ended ==>
          && s.cid == s.issued
          && (s.phase == IcReq || s.phase == ConnectAdmin ==>
                !EnteredAuth(s.log) && AuthRank(s.auth) == 0 && s.auth.rxCid == 0 && !s.auth.rxComplete)
          && (s.phase == Auth ==> GateAuth(s)))
  }

  predicate GateAuth(s: Session) {
    var rank := AuthRank(s.auth);
    && (rank <= 1 ==> s.auth.rxCid == 0)
    && (rank <= 3 ==> !s.auth.rxComplete)
    && (rank >= 4 ==> s.auth.rxCid == FinalCid(s.log) && s.auth.rxCid != 0)
    && (rank >= 4 && s.auth.rxComplete ==> FinalCompleted(s.log))
    && (rank == 5 ==> FinalValidated(s.log))
  }

  lemma GateReceiveStep(s: Session, next: AuthStep, tx: Tx)
    requires s.phase == Auth && GateInv(s) && !s.ended && AuthTxReceiveStep(s, next, tx).0.issued < CID_MODULUS
    requires (next == Challenge && s.auth.step == CompleteNegotiate)
          || (next == Success1 && s.auth.step == CompleteReply)
    ensures var r := AuthTxReceiveStep(s, next, tx).0;
            GateInv(r) && !r.ended && r.phase == Auth && !r.auth.rxComplete
  {
  }

  /** What is known of the completion being handled wherever the gate looks at it. */
  predicate CompletionLogged(s: Session) {
    && (AuthRank(s.auth) == 0 ==> s.cqe.cid != 0)
    && (AuthRank(s.auth) >= 4 && s.cqe.cid == FinalCid(s.log) ==> FinalCompleted(s.log))
  }

  lemma GateRxCommand(s: Session, tx: Tx)
    requires OrderInv(s) && GateInv(s) && !s.ended && RxCommand(s, tx).0.issued < CID_MODULUS
    requires CompletionLogged(s)
    ensures var r := RxCommand(s, tx).0; GateInv(r)
  {
    hide AuthRxComplete, AuthFinish;
    var s0 := s.(txInFlight := false);
    if s.phase == Auth && s.cqe.status == 0 {
      assert OrderInv(s0) && GateInv(s0) && CompletionLogged(s0);
      hide GateInv, OrderInv, CompletionLogged;
      FinishKeepsIssued(AuthRxComplete(s0, tx));
      GateAuthRxComplete(s0, tx);
      GateAuthFinish(AuthRxComplete(s0, tx));
    }
  }

  lemma GateAuthRxComplete(s: Session, tx: Tx)
    requires OrderInv(s) && GateInv(s) && !s.ended && s.phase == Auth && CompletionLogged(s)
    requires AuthRxComplete(s, tx).0.issued < CID_MODULUS
    ensures var r := AuthRxComplete(s, tx).0;
            GateInv(r) && OrderInv(r) && !r.ended && r.phase == Auth
  {
    hide AuthTxReceiveStep;
    OrderAuthRxComplete(s, tx);
    hide OrderInv;
    if s.auth.step == CompleteNegotiate {
      GateReceiveStep(s, Challenge, tx);
    } else if s.auth.step == CompleteReply {
      GateReceiveStep(s, Success1, tx);
    }
  }

  lemma GateAuthFinish(r: (Session, Rc))
    requires GateInv(r.0) && OrderInv(r.0) && !r.0.ended && r.0.phase == Auth
    ensures GateInv(AuthFinish(r).0)
  {
  }

  lemma FinishKeepsIssued(r: (Session, Rc))
    ensures AuthFinish(r).0.issued == r.0.issued
  {
  }

  lemma GateTxCommand(s: Session, kind: Kind, tx: Tx)
    requires GateInv(s) && !s.ended && TxCommand(s, kind, tx).0.issued < CID_MODULUS && kind != ReceiveSuccess1
    ensures var r := TxCommand(s, kind, tx).0;
            GateInv(r) && !r.ended && r.phase == s.phase && r.auth == s.auth
  {
  }

  lemma GateAuthRxData(s: Session, prep: Prepare, tx: Tx)
    requires OrderInv(s) && GateInv(s) && !s.ended && AuthRxData(s, prep, tx).0.issued < CID_MODULUS && s.phase == Auth
    ensures var r := AuthRxData(s, prep, tx).0;
            GateInv(r) && !r.ended && r.phase == Auth
  {
    if s.auth.step == Challenge {
      hide TxCommand;
      var s1 := s.(auth := s.auth.(hl := s.buf.hl));
      if ChallengeValid(s.buf, s.auth.transaction) && prep == Prepared {
        GateTxCommand(s1.(buf := ReplyMessage(s1.auth.transaction, s1.auth.hl)), Reply, tx);
      }
    } else {
      hide AuthRxChallenge;
    }
  }

  lemma GateRxData(s: Session, prep: Prepare, tx: Tx)
    requires OrderInv(s) && GateInv(s) && !s.ended && RxData(s, prep, tx).0.issued < CID_MODULUS
    ensures GateInv(RxData(s, prep, tx).0)
  {
    hide AuthRxData;
    if s.phase == Auth {
      var s0 := s.(txInFlight := false);
      GateAuthRxData(s0, prep, tx);
      OrderAuthRxData(s0, prep, tx);
    }
  }

  lemma GateAuthStep(s: Session, tx: Tx, rng: bool, transaction: int)
    requires OrderInv(s) && GateInv(s) && !s.ended && AuthStepOnce(s, tx, rng, transaction).0.issued < CID_MODULUS && s.phase == Auth
    ensures var r := AuthStepOnce(s, tx, rng, transaction).0;
            GateInv(r) && !r.ended && r.phase == Auth
  {
    hide AuthTxReceiveStep, TxCommand;
    if s.auth.step == CompleteNegotiate {
      if !s.txInFlight { GateReceiveStep(s, Challenge, tx); }
    } else if s.auth.step == CompleteReply {
      if !s.txInFlight { GateReceiveStep(s, Success1, tx); }
    } else if AuthRank(s.auth) == 0 && rng {
      GateTxCommand(s.(auth := s.auth.(transaction := transaction, step := CompleteNegotiate)),
                    Negotiate, tx);
    }
  }

  lemma GateStepOnce(s: Session, tx: Tx, rng: bool, transaction: int)
    requires OrderInv(s) && GateInv(s) && !s.ended && StepOnce(s, tx, rng, transaction).0.issued < CID_MODULUS
    ensures GateInv(StepOnce(s, tx, rng, transaction).0)
  {
    hide AuthStepOnce, TxCommand;
    match s.phase
    case Auth => GateAuthStep(s, tx, rng, transaction);
    case ConnectAdmin => GateTxCommand(s, Connect, tx);
    case PropSet => GateTxCommand(s, PropertySet, tx);
    case IdentifyCtrl => GateTxCommand(s, IdentifyController, tx);
    case IdentifyNs => GateTxCommand(s, IdentifyNamespace, tx);
    case _ =>
  }

  lemma GateCompletion(s: Session, e: Event)
    requires OrderInv(s) && GateInv(s) && Enabled(s, e) && Honest(s, e) && Next(s, e).issued < CID_MODULUS
    requires e.CompletionArrives?
    ensures GateInv(Next(s, e))
  {
    hide RxCommand, Handled;
    var s1 := s.(cqe := e.cqe, log := Then(s.log, Completed(e.cqe.cid)));
    GateHandled(RxCommand(s1, e.tx), StuckCompletion);
    GateRxCommand(s1, e.tx);
  }

  lemma GateRetry(s: Session, e: Event)
    requires OrderInv(s) && GateInv(s) && Enabled(s, e) && Next(s, e).issued < CID_MODULUS
    requires e.StuckPduRetried?
    ensures GateInv(Next(s, e))
  {
    hide RxCommand, RxData, Handled, GateInv;
    if s.stuck == StuckCompletion {
      GateHandled(RxCommand(s, e.tx), StuckCompletion);
      StuckLogged(s);
      GateRxCommand(s, e.tx);
    } else {
      GateHandled(RxData(s, e.prep, e.tx), StuckData);
      GateRxData(s, e.prep, e.tx);
    }
  }

  lemma GateHandled(r: (Session, Rc), pdu: Stuck)
    ensures GateInv(r.0) ==> GateInv(Handled(r, pdu))
    ensures Handled(r, pdu).issued == r.0.issued
  {
    hide GateHonoured, EnteredAuth, WasSent, FinalCid, FinalCompleted, FinalValidated, AuthRank;
  }

  /** A completion is left stuck only in a step where the gate does not look at it. */
  lemma StuckLogged(s: Session)
    requires OrderInv(s) && !s.ended && !s.stuck.NoPdu?
    ensures CompletionLogged(s)
  {
  }

  lemma GateProcess(s: Session, e: Event)
    requires OrderInv(s) && GateInv(s) && Enabled(s, e) && Next(s, e).issued < CID_MODULUS
    requires e.ProcessRuns?
    ensures GateInv(Next(s, e))
  {
    hide StepOnce;
    GateStepOnce(s, e.tx, e.rng, e.transaction);
  }

  lemma GateData(s: Session, e: Event)
    requires OrderInv(s) && GateInv(s) && Enabled(s, e) && Next(s, e).issued < CID_MODULUS
    requires e.DataArrives?
    ensures GateInv(Next(s, e))
  {
    hide RxData, Handled;
    GateHandled(RxData(s.(buf := e.msg), e.prep, e.tx), StuckData);
    GateRxData(s.(buf := e.msg), e.prep, e.tx);
  }

  lemma GateNext(s: Session, e: Event)
    requires OrderInv(s) && GateInv(s) && Enabled(s, e) && Honest(s, e)
    requires Next(s, e).issued < CID_MODULUS
    ensures GateInv(Next(s, e))
  {
    if e.ProcessRuns? || e.CompletionArrives? || e.DataArrives? || e.StuckPduRetried? {
      hide Next, GateInv, OrderInv, Enabled, Honest;
      match e
      case ProcessRuns(_, _, _) => GateProcess(s, e);
      case CompletionArrives(_, _) => GateCompletion(s, e);
      case DataArrives(_, _, _) => GateData(s, e);
      case StuckPduRetried(_, _) => GateRetry(s, e);
    }
  }

  // ---------------------------------------------------------------- a FIFO target

  function RemoveCid(cs: seq<Command>, cid: int): seq<Command> {
    if cs == [] then []
    else if cs[0].cid == cid then cs[1..]
    else [cs[0]] + RemoveCid(cs[1..], cid)
  }

  /** Commands sent whose completion has neither been consumed nor lost. */
  function Outstanding(log: Log): seq<Command> {
    match log
    case Empty => []
    case Then(before, Transmitted(c)) => Outstanding(before) + [c]
    case Then(before, Completed(cid)) => RemoveCid(Outstanding(before), cid)
    case Then(before, Lost(cid)) => RemoveCid(Outstanding(before), cid)
    case Then(before, _) => Outstanding(before)
  }

  /** Completions come in submission order, one for each command. */
  predicate Fifo(s: Session, e: Event) {
    var o := Outstanding(s.log);
    match e
    case CompletionArrives(cqe, _) => o != [] && o[0].cid == cqe.cid
    case CompletionDropped(cid) => o != [] && o[0].cid == cid
    case _ => true
  }

  /** The last fact is the completion of Property Set, the only command outstanding. */
  predicate CompletesPropertySet(log: Log) {
    && log.Then? && log.fact.Completed?
    && Outstanding(log.before) == [Command(log.fact.cid, PropertySet)]
  }

  /** Nothing is outstanding whenever PROP_SET is entered, and what moves the session on to
      IDENTIFY_CTRL is Property Set's own completion. */
  predicate PropertySetOwnsItsPhase(log: Log) {
    match log
    case Empty => true
    case Then(before, Entered(PropSet)) =>
      PropertySetOwnsItsPhase(before) && Outstanding(before) == []
    case Then(before, Entered(IdentifyCtrl)) =>
      PropertySetOwnsItsPhase(before) && CompletesPropertySet(before)
    case Then(before, _) => PropertySetOwnsItsPhase(before)
  }

  predicate AtMost(o: seq<Command>, hi: int) {
    forall i :: 0 <= i < |o| ==> o[i].cid <= hi
  }

  /** The final AuthReceive is the last command outstanding, until it completes. */
  predicate FinalReceiveLast(a: AuthContext, o: seq<Command>) {
    if a.rxComplete then o == []
    else o != [] && o[|o| - 1].cid == a.rxCid && AtMost(o[..|o| - 1], a.rxCid - 1)
  }

  predicate FifoAuth(s: Session, o: seq<Command>) {
    var rank := AuthRank(s.auth);
    if rank >= 4 then FinalReceiveLast(s.auth, o)
    else
      && !s.auth.rxComplete
      && (rank == 0 ==> o == [] && !s.txInFlight)
      && (rank == 1 ==> if s.txInFlight then |o| == 1 && s.stuck.NoPdu? else o == [])
  }

  predicate FifoShape(s: Session, o: seq<Command>) {
    match s.phase
    case IcReq => o == [] && AuthRank(s.auth) == 0 && !s.auth.rxComplete
    case ConnectAdmin =>
      AuthRank(s.auth) == 0 && !s.auth.rxComplete && if s.txInFlight then |o| == 1 else o == []
    case Auth => FifoAuth(s, o)
    case PropSet => if s.txInFlight then |o| == 1 && o[0].kind == PropertySet else o == []
    case _ => true
  }

  predicate FifoInv(s: Session) {
    && PropertySetOwnsItsPhase(s.log)
    && (!s.ended ==>
          && s.cid == s.issued
          && AtMost(Outstanding(s.log), s.cid)
          && FifoShape(s, Outstanding(s.log)))
  }

  lemma FifoTxCommand(s: Session, kind: Kind, tx: Tx)
    requires PropertySetOwnsItsPhase(s.log) && AtMost(Outstanding(s.log), s.cid)
    requires s.cid == s.issued && TxCommand(s, kind, tx).0.issued < CID_MODULUS
    ensures var s1 := TxCommand(s, kind, tx).0;
            && PropertySetOwnsItsPhase(s1.log) && AtMost(Outstanding(s1.log), s1.cid)
            && s1.cid == s1.issued == s.cid + 1
            && s1.phase == s.phase && s1.auth == s.auth && s1.ended == s.ended
            && (if tx.Sent? then s1.txInFlight && s1.stuck.NoPdu? && TxCommand(s, kind, tx).1 == Ok
                else s1.txInFlight == s.txInFlight && s1.stuck == s.stuck && TxCommand(s, kind, tx).1 != Ok)
            && Outstanding(s1.log) ==
                 (if tx.Sent? then Outstanding(s.log) + [Command(s1.cid, kind)] else Outstanding(s.log))
  {
  }

  lemma FifoReceiveStep(s: Session, next: AuthStep, tx: Tx)
    requires s.phase == Auth && !s.ended && !s.auth.rxComplete && !s.txInFlight
    requires PropertySetOwnsItsPhase(s.log) && AtMost(Outstanding(s.log), s.cid)
    requires s.cid == s.issued && AuthTxReceiveStep(s, next, tx).0.issued < CID_MODULUS
    requires (next == Challenge && s.auth.step == CompleteNegotiate && Outstanding(s.log) == [])
          || (next == Success1 && s.auth.step == CompleteReply)
    ensures var (r, rc) := AuthTxReceiveStep(s, next, tx);
            FifoInv(r) && !r.ended && r.phase == Auth && !r.auth.rxComplete && (rc != Ok ==> !r.txInFlight)
  {
    hide TxCommand, PropertySetOwnsItsPhase;
    var kind := if next == Challenge then ReceiveChallenge else ReceiveSuccess1;
    FifoTxCommand(SetStep(s, next), kind, tx);
  }

  lemma FifoAuthCompletion(s: Session, tx: Tx)
    requires OrderInv(s) && s.phase == Auth && !s.ended && !s.txInFlight && AuthRank(s.auth) != 0
    requires PropertySetOwnsItsPhase(s.log) && AtMost(Outstanding(s.log), s.cid)
    requires s.cid == s.issued && AuthFinish(AuthRxComplete(s, tx)).0.issued < CID_MODULUS
    requires AuthRank(s.auth) <= 3 ==>
               !s.auth.rxComplete && (AuthRank(s.auth) == 1 ==> Outstanding(s.log) == [])
    requires AuthRank(s.auth) >= 4 ==>
               if s.cqe.cid == s.auth.rxCid then Outstanding(s.log) == []
               else FinalReceiveLast(s.auth, Outstanding(s.log))
    ensures var (r, rc) := AuthFinish(AuthRxComplete(s, tx)); FifoInv(r) && (rc != Ok ==> !r.txInFlight)
  {
    hide AuthTxReceiveStep;
    if s.auth.step == CompleteNegotiate {
      FifoReceiveStep(s, Challenge, tx);
    } else if s.auth.step == CompleteReply {
      FifoReceiveStep(s, Success1, tx);
    }
  }

  lemma FinalReceivePopped(a: AuthContext, o: seq<Command>)
    requires FinalReceiveLast(a, o) && o != []
    ensures if o[0].cid == a.rxCid then o[1..] == [] else FinalReceiveLast(a, o[1..])
  {
    if |o| > 1 {
      assert o[..|o| - 1][0] == o[0];
      var rest := o[1..][..|o| - 2];
      forall i | 0 <= i < |rest| ensures rest[i].cid <= a.rxCid - 1 {
        assert rest[i] == o[..|o| - 1][i + 1];
      }
    }
  }

  lemma FifoPop(s: Session, e: Event) returns (s1: Session)
    requires FifoInv(s) && !s.ended && e.CompletionArrives? && Fifo(s, e)
    ensures s1 == s.(cqe := e.cqe, log := Then(s.log, Completed(e.cqe.cid)))
    ensures PropertySetOwnsItsPhase(s1.log) && Outstanding(s1.log) == Outstanding(s.log)[1..]
    ensures AtMost(Outstanding(s1.log), s.cid)
    ensures |Outstanding(s.log)| == 1 ==>
              Outstanding(s.log) == [Command(e.cqe.cid, Outstanding(s.log)[0].kind)]
  {
    s1 := s.(cqe := e.cqe, log := Then(s.log, Completed(e.cqe.cid)));
    assert Outstanding(s1.log) == Outstanding(s.log)[1..];
  }

  lemma FifoSetupCompletion(s: Session, e: Event)
    requires OrderInv(s) && FifoInv(s) && Enabled(s, e) && Fifo(s, e)
    requires e.CompletionArrives? && (s.phase == Auth ==> e.cqe.status != 0)
    ensures FifoInv(Next(s, e))
  {
    hide AuthRxComplete, AuthFinish;
    var s1 := FifoPop(s, e);
    var n := Next(s, e);
    assert n.log == s1.log || (n.log.Then? && n.log.before == s1.log && n.log.fact.Entered?);
    assert Outstanding(n.log) == Outstanding(s1.log);
  }

  lemma FifoAuthArrival(s: Session, e: Event)
    requires OrderInv(s) && FifoInv(s) && Enabled(s, e) && Fifo(s, e)
    requires Next(s, e).issued < CID_MODULUS
    requires e.CompletionArrives? && s.phase == Auth && e.cqe.status == 0
    ensures FifoInv(Next(s, e))
  {
    hide AuthRxComplete, AuthFinish, Handled;
    var s1 := FifoPop(s, e);
    if AuthRank(s.auth) >= 4 { FinalReceivePopped(s.auth, Outstanding(s.log)); }
    FifoHandled(RxCommand(s1, e.tx), StuckCompletion);
    assert RxCommand(s1, e.tx) == AuthFinish(AuthRxComplete(s1.(txInFlight := false), e.tx));
    FifoAuthCompletion(s1.(txInFlight := false), e.tx);
  }

  lemma FifoAuthData(s: Session, prep: Prepare, tx: Tx)
    requires OrderInv(s) && FifoInv(s) && s.phase == Auth && !s.ended && AuthFinish(AuthRxData(s.(txInFlight := false), prep, tx)).0.issued < CID_MODULUS
    requires AuthRank(s.auth) == 2 || AuthRank(s.auth) == 4
    ensures var (r, rc) := AuthFinish(AuthRxData(s.(txInFlight := false), prep, tx));
            FifoInv(r) && (rc != Ok ==> !r.txInFlight)
  {
    if s.auth.step == Challenge {
      hide AuthRxChallenge, PropertySetOwnsItsPhase;
      FifoChallenge(s, prep, tx);
    } else {
      hide AuthRxChallenge;
      var s0 := s.(txInFlight := false);
      assert FifoInv(AuthRxData(s0, prep, tx).0);
    }
  }

  lemma FifoChallenge(s: Session, prep: Prepare, tx: Tx)
    requires OrderInv(s) && FifoInv(s) && s.phase == Auth && !s.ended && s.auth.step == Challenge
    requires AuthRxChallenge(s.(txInFlight := false), prep, tx).0.issued < CID_MODULUS
    ensures var (r, rc) := AuthRxChallenge(s.(txInFlight := false), prep, tx);
            && FifoInv(r) && FifoInv(SetStep(r, CompleteReply)) && r.phase == Auth && r.auth.step == Challenge
            && !r.auth.rxComplete && !r.auth.completed && (rc != Ok ==> !r.txInFlight)
  {
    hide TxCommand, PropertySetOwnsItsPhase, Outstanding;
    var s1 := s.(txInFlight := false, auth := s.auth.(hl := s.buf.hl));
    if ChallengeValid(s.buf, s.auth.transaction) && prep == Prepared {
      FifoTxCommand(s1.(buf := ReplyMessage(s1.auth.transaction, s1.auth.hl)), Reply, tx);
    }
  }

  lemma FifoRxData(s: Session, prep: Prepare, tx: Tx)
    requires OrderInv(s) && FifoInv(s) && !s.ended && RxData(s, prep, tx).0.issued < CID_MODULUS
    ensures var r := RxData(s, prep, tx);
            FifoResult(r)
  {
    if s.phase == Auth && (AuthRank(s.auth) == 2 || AuthRank(s.auth) == 4) {
      hide AuthRxData, AuthFinish;
      FifoAuthData(s, prep, tx);
    } else {
      hide AuthRxChallenge;
    }
  }

  lemma FifoRetry(s: Session, e: Event)
    requires OrderInv(s) && FifoInv(s) && Enabled(s, e) && Next(s, e).issued < CID_MODULUS
    requires e.StuckPduRetried?
    ensures FifoInv(Next(s, e))
  {
    hide RxData, RxCommand, Handled, FifoInv, OrderInv;
    if s.stuck == StuckCompletion {
      FifoHandled(RxCommand(s, e.tx), StuckCompletion);
      FifoStuckCompletion(s, e.tx);
    } else {
      FifoHandled(RxData(s, e.prep, e.tx), StuckData);
      FifoRxData(s, e.prep, e.tx);
    }
  }

  /** What a handler leaves behind when it does not end the session. */
  predicate FifoResult(r: (Session, Rc)) {
    && PropertySetOwnsItsPhase(r.0.log)
    && (r.1 != EFatal ==> FifoInv(r.0) && (r.1 != Ok ==> !r.0.txInFlight))
  }

  lemma FifoHandled(r: (Session, Rc), pdu: Stuck)
    ensures FifoResult(r) ==> FifoInv(Handled(r, pdu))
    ensures Handled(r, pdu).issued == r.0.issued
  {
    hide PropertySetOwnsItsPhase, Outstanding, FinalReceiveLast, AtMost;
  }

  lemma FifoStuckCompletion(s: Session, tx: Tx)
    requires OrderInv(s) && FifoInv(s) && !s.ended && !s.stuck.NoPdu? && RxCommand(s, tx).0.issued < CID_MODULUS
    ensures FifoResult(RxCommand(s, tx))
  {
    hide AuthRxComplete, AuthFinish;
    if s.cqe.status == 0 {
      FifoAuthCompletion(s.(txInFlight := false), tx);
    }
  }

  lemma FifoAuthStep(s: Session, tx: Tx, rng: bool, transaction: int)
    requires OrderInv(s) && FifoInv(s) && !s.ended && AuthStepOnce(s, tx, rng, transaction).0.issued < CID_MODULUS && s.phase == Auth
    ensures FifoInv(AuthStepOnce(s, tx, rng, transaction).0)
  {
    hide AuthTxReceiveStep, TxCommand;
    if s.auth.step == CompleteNegotiate {
      if !s.txInFlight { FifoReceiveStep(s, Challenge, tx); }
    } else if s.auth.step == CompleteReply {
      if !s.txInFlight { FifoReceiveStep(s, Success1, tx); }
    } else if AuthRank(s.auth) == 0 && rng {
      FifoTxCommand(s.(auth := s.auth.(transaction := transaction, step := CompleteNegotiate)),
                    Negotiate, tx);
    }
  }

  lemma FifoStepOnce(s: Session, tx: Tx, rng: bool, transaction: int)
    requires OrderInv(s) && FifoInv(s) && !s.ended && s.running && StepOnce(s, tx, rng, transaction).0.issued < CID_MODULUS
    ensures FifoInv(StepOnce(s, tx, rng, transaction).0)
  {
    hide AuthStepOnce, TxCommand;
    match s.phase
    case Auth => FifoAuthStep(s, tx, rng, transaction);
    case ConnectAdmin => FifoTxCommand(s, Connect, tx);
    case PropSet => FifoTxCommand(s, PropertySet, tx);
    case IdentifyCtrl => FifoTxCommand(s, IdentifyController, tx);
    case IdentifyNs => FifoTxCommand(s, IdentifyNamespace, tx);
    case _ =>
  }

  lemma FifoProcess(s: Session, e: Event)
    requires OrderInv(s) && FifoInv(s) && Enabled(s, e) && Next(s, e).issued < CID_MODULUS
    requires e.ProcessRuns?
    ensures FifoInv(Next(s, e))
  {
    hide StepOnce;
    FifoStepOnce(s, e.tx, e.rng, e.transaction);
  }

  lemma FifoData(s: Session, e: Event)
    requires OrderInv(s) && FifoInv(s) && Enabled(s, e) && Next(s, e).issued < CID_MODULUS
    requires e.DataArrives?
    ensures FifoInv(Next(s, e))
  {
    hide RxData, Handled;
    FifoHandled(RxData(s.(buf := e.msg), e.prep, e.tx), StuckData);
    FifoRxData(s.(buf := e.msg), e.prep, e.tx);
  }

  lemma FifoNext(s: Session, e: Event)
    requires OrderInv(s) && FifoInv(s) && Enabled(s, e) && Fifo(s, e)
    requires Next(s, e).issued < CID_MODULUS
    ensures FifoInv(Next(s, e))
  {
    if e.ProcessRuns? || e.CompletionArrives? || e.DataArrives? || e.StuckPduRetried? {
      hide Next, FifoInv, OrderInv, Enabled, Fifo;
      match e
      case ProcessRuns(_, _, _) => FifoProcess(s, e);
      case CompletionArrives(cqe, _) =>
        if s.phase == Auth && cqe.status == 0 { FifoAuthArrival(s, e); } else { FifoSetupCompletion(s, e); }
      case DataArrives(_, _, _) => FifoData(s, e);
      case StuckPduRetried(_, _) => FifoRetry(s, e);
    }
  }

  // ---------------------------------------------------------------- whole runs

  predicate Advanced(s: Session, t: Session) {
    AuthRank(s.auth) <= AuthRank(t.auth) && PhaseRank(s.phase) <= PhaseRank(t.phase)
  }

  lemma AdvancedReceiveStep(s: Session, next: AuthStep, tx: Tx)
    requires (next == Challenge && s.auth.step == CompleteNegotiate)
          || (next == Success1 && s.auth.step == CompleteReply)
    ensures var r := AuthTxReceiveStep(s, next, tx).0; Advanced(s, r) && r.phase == s.phase
  {
  }

  lemma AdvancedAuthRxComplete(s: Session, tx: Tx)
    ensures var r := AuthRxComplete(s, tx).0; Advanced(s, r) && r.phase == s.phase
  {
    hide AuthTxReceiveStep;
    if s.auth.step == CompleteNegotiate {
      AdvancedReceiveStep(s, Challenge, tx);
    } else if s.auth.step == CompleteReply {
      AdvancedReceiveStep(s, Success1, tx);
    }
  }

  lemma AdvancedRxCommand(s: Session, tx: Tx)
    ensures Advanced(s, RxCommand(s, tx).0)
  {
    hide AuthRxComplete;
    AdvancedAuthRxComplete(s.(txInFlight := false), tx);
  }

  lemma AdvancedRxData(s: Session, prep: Prepare, tx: Tx)
    ensures Advanced(s, RxData(s, prep, tx).0)
  {
    hide AuthRxData;
    AdvancedAuthRxData(s.(txInFlight := false), prep, tx);
  }

  lemma AdvancedAuthRxData(s: Session, prep: Prepare, tx: Tx)
    ensures var r := AuthRxData(s, prep, tx).0; Advanced(s, r) && r.phase == s.phase
  {
    if s.auth.step == Challenge {
      hide TxCommand;
      TxKeepsStep(s.(auth := s.auth.(hl := s.buf.hl), buf := ReplyMessage(s.auth.transaction, s.buf.hl)), Reply, tx);
    } else {
      hide AuthRxChallenge;
    }
  }

  lemma TxKeepsStep(s: Session, kind: Kind, tx: Tx)
    ensures var r := TxCommand(s, kind, tx).0; r.phase == s.phase && r.auth == s.auth
  {
  }

  lemma AdvancedStepOnce(s: Session, tx: Tx, rng: bool, transaction: int)
    ensures Advanced(s, StepOnce(s, tx, rng, transaction).0)
  {
    if s.phase == Auth {
      hide AuthTxReceiveStep;
      if s.auth.step == CompleteNegotiate {
        AdvancedReceiveStep(s, Challenge, tx);
      } else if s.auth.step == CompleteReply {
        AdvancedReceiveStep(s, Success1, tx);
      }
    } else {
      hide AuthStepOnce;
    }
  }

  lemma AdvancedHandled(s: Session, r: (Session, Rc), pdu: Stuck)
    requires Advanced(s, r.0)
    ensures Advanced(s, Handled(r, pdu))
  {
  }

  lemma AdvancedArrival(s: Session, e: Event)
    requires e.CompletionArrives? || e.DataArrives? || e.StuckPduRetried?
    ensures Advanced(s, Next(s, e))
  {
    hide RxCommand, RxData, Handled;
    match e
    case CompletionArrives(cqe, tx) =>
      var s1 := s.(cqe := cqe, log := Then(s.log, Completed(cqe.cid)));
      AdvancedRxCommand(s1, tx);
      AdvancedHandled(s, RxCommand(s1, tx), StuckCompletion);
    case DataArrives(msg, prep, tx) =>
      AdvancedRxData(s.(buf := msg), prep, tx);
      AdvancedHandled(s, RxData(s.(buf := msg), prep, tx), StuckData);
    case StuckPduRetried(prep, tx) =>
      AdvancedRxCommand(s, tx);
      AdvancedRxData(s, prep, tx);
      AdvancedHandled(s, RxCommand(s, tx), StuckCompletion);
      AdvancedHandled(s, RxData(s, prep, tx), StuckData);
  }

  lemma AdvancedNext(s: Session, e: Event)
    requires Enabled(s, e)
    ensures Advanced(s, Next(s, e))
  {
    hide StepOnce, ReceiveCompletion, ReceiveData, Reprocess;
    match e
    case ProcessRuns(tx, rng, transaction) => AdvancedStepOnce(s, tx, rng, transaction);
    case CompletionArrives(_, _) => AdvancedArrival(s, e);
    case DataArrives(_, _, _) => AdvancedArrival(s, e);
    case StuckPduRetried(_, _) => AdvancedArrival(s, e);
    case _ =>
  }

  /** Under arbitrary completions, data, window changes and deferrals, neither the
      authentication step nor the session phase ever goes backwards. */
  lemma {:induction false} StepsOnlyAdvance(s: Session, es: seq<Event>)
    requires AllEnabled(s, es)
    ensures Advanced(s, Run(s, es))
    decreases |es|
  {
    if es != [] {
      hide Next;
      AdvancedNext(s, es[0]);
      StepsOnlyAdvance(Next(s, es[0]), es[1..]);
    }
  }

  /** The commands on the wire, in order. */
  function Wire(log: Log): seq<Command> {
    match log
    case Empty => []
    case Then(before, Transmitted(c)) => Wire(before) + [c]
    case Then(before, _) => Wire(before)
  }

  /** Protocol order, in which only the Identify commands may repeat. */
  predicate InProtocolOrder(w: seq<Command>) {
    forall i, j :: 0 <= i < j < |w| ==>
      Slot(w[i].kind) < Slot(w[j].kind) || (w[i].kind == w[j].kind && Slot(w[i].kind) >= 6)
  }

  lemma {:induction false} OrderedWire(log: Log)
    requires Ordered(log)
    ensures InProtocolOrder(Wire(log))
    ensures forall i :: 0 <= i < |Wire(log)| ==> Slot(Wire(log)[i].kind) <= Top(log)
  {
    if log.Then? { OrderedWire(log.before); }
  }

  lemma {:induction false} OrderRun(s: Session, es: seq<Event>)
    requires OrderInv(s) && AllEnabled(s, es)
    ensures OrderInv(Run(s, es))
    decreases |es|
  {
    hide Next, OrderInv, Enabled;
    if es != [] {
      OrderNext(s, es[0]);
      OrderRun(Next(s, es[0]), es[1..]);
    }
  }

  /** In every run, whatever the target sends, commands reach the wire in protocol order:
      Negotiate and Reply at most once, AuthReceive at most once for each of its two steps,
      and Property Set at most once, before any Identify. */
  lemma CommandsInProtocolOrder(haveSecret: bool, es: seq<Event>)
    requires AllEnabled(Opened(haveSecret), es)
    ensures InProtocolOrder(Wire(Run(Opened(haveSecret), es).log))
  {
    OrderRun(Opened(haveSecret), es);
    OrderedWire(Run(Opened(haveSecret), es).log);
  }

  /** Runs against a target that completes only identifiers it was sent, fewer than 65536. */
  predicate HonestRun(s: Session, es: seq<Event>)
    decreases |es|
  {
    es != [] ==>
      && Enabled(s, es[0]) && Honest(s, es[0])
      && Next(s, es[0]).issued < CID_MODULUS
      && HonestRun(Next(s, es[0]), es[1..])
  }

  lemma {:induction false} GateRun(s: Session, es: seq<Event>)
    requires OrderInv(s) && GateInv(s) && HonestRun(s, es)
    ensures GateInv(Run(s, es))
    decreases |es|
  {
    hide Next, OrderInv, GateInv, Enabled, Honest;
    if es != [] {
      OrderNext(s, es[0]);
      GateNext(s, es[0]);
      GateRun(Next(s, es[0]), es[1..]);
    }
  }

  /** Authentication exit gate: the session leaves AUTH only after Success1 was validated and
      a completion carrying the final AuthReceive's identifier was consumed, both after that
      command was sent. */
  lemma AuthenticationExitGate(haveSecret: bool, es: seq<Event>)
    requires HonestRun(Opened(haveSecret), es)
    ensures GateHonoured(Run(Opened(haveSecret), es).log)
  {
    GateRun(Opened(haveSecret), es);
  }

  /** Runs against a target that completes commands in submission order, one each. */
  predicate FifoRunOk(s: Session, es: seq<Event>)
    decreases |es|
  {
    es != [] ==>
      && Enabled(s, es[0]) && Fifo(s, es[0])
      && Next(s, es[0]).issued < CID_MODULUS
      && FifoRunOk(Next(s, es[0]), es[1..])
  }

  lemma {:induction false} FifoRun(s: Session, es: seq<Event>)
    requires OrderInv(s) && FifoInv(s) && FifoRunOk(s, es)
    ensures FifoInv(Run(s, es))
    decreases |es|
  {
    hide Next, OrderInv, FifoInv, Enabled, Fifo;
    if es != [] {
      OrderNext(s, es[0]);
      FifoNext(s, es[0]);
      FifoRun(Next(s, es[0]), es[1..]);
    }
  }

  lemma {:induction false} RemovedWasThere(cs: seq<Command>, cid: int, c: Command)
    requires c in RemoveCid(cs, cid)
    ensures c in cs
  {
    if cs[0].cid != cid && c != cs[0] { RemovedWasThere(cs[1..], cid, c); }
  }

  /** Only commands that were sent are outstanding. */
  lemma {:induction false} OutstandingWasSent(log: Log, c: Command)
    requires c in Outstanding(log)
    ensures WasSent(log, c.cid)
  {
    match log
    case Then(before, Transmitted(d)) => if c != d { OutstandingWasSent(before, c); }
    case Then(before, Completed(cid)) =>
      RemovedWasThere(Outstanding(before), cid, c);
      OutstandingWasSent(before, c);
    case Then(before, Lost(cid)) =>
      RemovedWasThere(Outstanding(before), cid, c);
      OutstandingWasSent(before, c);
    case Then(before, _) => OutstandingWasSent(before, c);
  }

  /** A target that completes in order completes only what it was sent. */
  lemma {:induction false} FifoIsHonest(s: Session, es: seq<Event>)
    requires FifoRunOk(s, es)
    ensures HonestRun(s, es)
    decreases |es|
  {
    hide Next, Enabled, Outstanding, WasSent;
    if es != [] {
      if es[0].CompletionArrives? { OutstandingWasSent(s.log, Outstanding(s.log)[0]); }
      FifoIsHonest(Next(s, es[0]), es[1..]);
    }
  }

  /** Property Set is never skipped: whatever the windows, retries and losses, nothing is
      outstanding when PROP_SET is entered and only Property Set's own completion leaves it. */
  lemma PropertySetNeverSkipped(haveSecret: bool, es: seq<Event>)
    requires FifoRunOk(Opened(haveSecret), es)
    ensures PropertySetOwnsItsPhase(Run(Opened(haveSecret), es).log)
  {
    FifoRun(Opened(haveSecret), es);
  }
}
