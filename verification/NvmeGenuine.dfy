/**
 What the validated Success1 was: for the transaction and hash length of this session.
 */
module NvmeGenuine {
  import opened NvmeSession
  import opened NvmeRuns

  /** A DH-HMAC-CHAP_Success1 message for the transaction, with the hash length, that asks for no
      controller authentication. */
  predicate IsSuccess1(m: Message, transaction: int, hl: int) {
    m.authType == 0x01 && m.authId == 0x03 && m.tId == transaction && m.hl == hl && m.rvalid == 0
  }

  /** Since the final AuthReceive was sent, a Success1 for this transaction and hash length, asking
      for no controller authentication, was validated. */
  predicate ValidatedFor(log: Log, transaction: int, hl: int) {
    match log
    case Empty => false
    case Then(before, Transmitted(Command(_, ReceiveSuccess1))) => false
    case Then(before, Validated(m)) => IsSuccess1(m, transaction, hl) || ValidatedFor(before, transaction, hl)
    case Then(before, _) => ValidatedFor(before, transaction, hl)
  }

  predicate GenuineInv(s: Session) {
    !s.ended ==>
      && (s.auth.completed ==> ValidatedFor(s.log, s.auth.transaction, s.auth.hl))
      && (s.phase == IcReq || s.phase == ConnectAdmin ==> !EnteredAuth(s.log) && !s.auth.completed)
      && (PhaseRank(s.phase) > 2 && EnteredAuth(s.log) ==> s.auth.completed)
  }

  /** A handler's result, where it does not fail. */
  predicate GenuineResult(r: (Session, Rc)) { r.1 != EFatal ==> GenuineInv(r.0) }

  lemma GenuineTxCommand(s: Session, kind: Kind, tx: Tx)
    requires GenuineInv(s) && !s.ended && (s.auth.completed ==> kind != ReceiveSuccess1)
    ensures var t := TxCommand(s, kind, tx).0;
            GenuineInv(t) && !t.ended && t.phase == s.phase && t.auth == s.auth
  {
  }

  lemma GenuineReceiveStep(s: Session, next: AuthStep, tx: Tx)
    requires GenuineInv(s) && !s.ended && s.phase == Auth && !s.auth.completed
    ensures var t := AuthTxReceiveStep(s, next, tx).0;
            GenuineInv(t) && !t.ended && t.phase == Auth && !t.auth.completed
  {
  }

  lemma GenuineAuthRxComplete(s: Session, tx: Tx)
    requires GenuineInv(s) && OrderInv(s) && !s.ended && s.phase == Auth
    ensures var t := AuthRxComplete(s, tx).0; GenuineInv(t) && !t.ended && t.phase == Auth
  {
    hide AuthTxReceiveStep;
    if s.auth.step == CompleteNegotiate {
      GenuineReceiveStep(s, Challenge, tx);
    } else if s.auth.step == CompleteReply {
      GenuineReceiveStep(s, Success1, tx);
    }
  }

  lemma GenuineFinish(r: (Session, Rc))
    requires GenuineInv(r.0) && !r.0.ended && r.0.phase == Auth
    ensures GenuineInv(AuthFinish(r).0)
  {
  }

  lemma GenuineRxCommand(s: Session, tx: Tx)
    requires GenuineInv(s) && OrderInv(s) && !s.ended
    ensures GenuineResult(RxCommand(s, tx))
  {
    hide AuthRxComplete, AuthFinish;
    var s0 := s.(txInFlight := false);
    if s.phase == Auth && s.cqe.status == 0 {
      GenuineAuthRxComplete(s0, tx);
      GenuineFinish(AuthRxComplete(s0, tx));
    }
  }

  lemma GenuineAuthRxData(s: Session, prep: Prepare, tx: Tx)
    requires GenuineInv(s) && OrderInv(s) && !s.ended && s.phase == Auth
    ensures var t := AuthRxData(s, prep, tx).0; GenuineInv(t) && !t.ended && t.phase == Auth
  {
    if s.auth.step == Challenge {
      hide TxCommand;
      var s1 := s.(auth := s.auth.(hl := s.buf.hl));
      GenuineTxCommand(s1.(buf := ReplyMessage(s1.auth.transaction, s1.auth.hl)), Reply, tx);
    } else {
      hide AuthRxChallenge;
    }
  }

  lemma GenuineRxData(s: Session, prep: Prepare, tx: Tx)
    requires GenuineInv(s) && OrderInv(s) && !s.ended
    ensures GenuineResult(RxData(s, prep, tx))
  {
    hide AuthRxData, AuthFinish;
    if s.phase == Auth {
      GenuineAuthRxData(s.(txInFlight := false), prep, tx);
      GenuineFinish(AuthRxData(s.(txInFlight := false), prep, tx));
    }
  }

  lemma GenuineHandled(r: (Session, Rc), pdu: Stuck)
    requires GenuineResult(r)
    ensures GenuineInv(Handled(r, pdu))
  {
    hide ValidatedFor, EnteredAuth;
  }

  lemma GenuineArrival(s: Session, e: Event)
    requires GenuineInv(s) && OrderInv(s) && Enabled(s, e)
    requires e.CompletionArrives? || e.DataArrives? || e.StuckPduRetried?
    ensures GenuineInv(Next(s, e))
  {
    hide RxCommand, RxData, Handled;
    match e
    case CompletionArrives(cqe, tx) =>
      var s1 := s.(cqe := cqe, log := Then(s.log, Completed(cqe.cid)));
      GenuineRxCommand(s1, tx);
      GenuineHandled(RxCommand(s1, tx), StuckCompletion);
    case DataArrives(msg, prep, tx) =>
      GenuineRxData(s.(buf := msg), prep, tx);
      GenuineHandled(RxData(s.(buf := msg), prep, tx), StuckData);
    case StuckPduRetried(prep, tx) =>
      hide GenuineInv, OrderInv;
      GenuineRxCommand(s, tx);
      GenuineRxData(s, prep, tx);
      GenuineHandled(RxCommand(s, tx), StuckCompletion);
      GenuineHandled(RxData(s, prep, tx), StuckData);
  }

  lemma GenuineAuthStep(s: Session, tx: Tx, rng: bool, transaction: int)
    requires GenuineInv(s) && OrderInv(s) && !s.ended && s.phase == Auth
    ensures GenuineInv(AuthStepOnce(s, tx, rng, transaction).0)
  {
    hide TxCommand, AuthTxReceiveStep;
    match s.auth.step
    case Start =>
      if !s.auth.completed {
        GenuineTxCommand(s.(auth := s.auth.(transaction := transaction, step := CompleteNegotiate)), Negotiate, tx);
      }
    case CompleteNegotiate => GenuineReceiveStep(s, Challenge, tx);
    case CompleteReply => GenuineReceiveStep(s, Success1, tx);
    case _ =>
  }

  lemma GenuineProcess(s: Session, tx: Tx, rng: bool, transaction: int)
    requires GenuineInv(s) && OrderInv(s) && !s.ended
    ensures GenuineInv(Process(s, tx, rng, transaction))
  {
    GenuineStep(s, tx, rng, transaction);
    hide StepOnce, ValidatedFor, EnteredAuth;
  }

  lemma GenuineStep(s: Session, tx: Tx, rng: bool, transaction: int)
    requires GenuineInv(s) && OrderInv(s) && !s.ended
    ensures GenuineInv(StepOnce(s, tx, rng, transaction).0)
  {
    hide AuthStepOnce, TxCommand, ValidatedFor, EnteredAuth;
    match s.phase
    case ConnectAdmin => GenuineTxCommand(s, Connect, tx);
    case PropSet => GenuineTxCommand(s, PropertySet, tx);
    case Auth => GenuineAuthStep(s, tx, rng, transaction);
    case IdentifyCtrl => GenuineTxCommand(s, IdentifyController, tx);
    case IdentifyNs => GenuineTxCommand(s, IdentifyNamespace, tx);
    case _ =>
  }

  lemma GenuineNext(s: Session, e: Event)
    requires GenuineInv(s) && OrderInv(s) && Enabled(s, e)
    ensures GenuineInv(Next(s, e))
  {
    hide Process, ReceiveCompletion, ReceiveData, Reprocess;
    match e
    case ProcessRuns(tx, rng, transaction) => GenuineProcess(s, tx, rng, transaction);
    case CompletionArrives(_, _) => GenuineArrival(s, e);
    case DataArrives(_, _, _) => GenuineArrival(s, e);
    case StuckPduRetried(_, _) => GenuineArrival(s, e);
    case _ =>
  }

  lemma {:induction false} GenuineRun(s: Session, es: seq<Event>)
    requires GenuineInv(s) && OrderInv(s) && AllEnabled(s, es)
    ensures GenuineInv(Run(s, es))
    decreases |es|
  {
    hide Next, GenuineInv, OrderInv, Enabled;
    if es != [] {
      OrderNext(s, es[0]);
      GenuineNext(s, es[0]);
      GenuineRun(Next(s, es[0]), es[1..]);
    }
  }

  /** Whatever the target sends, a session that was asked to authenticate and has gone beyond AUTH
      validated a Success1 carrying its own transaction identifier and hash length, after the
      final AuthReceive. */
  lemma Success1WasGenuine(haveSecret: bool, es: seq<Event>)
    requires AllEnabled(Opened(haveSecret), es)
    ensures var s := Run(Opened(haveSecret), es);
            !s.ended && PhaseRank(s.phase) > 2 && EnteredAuth(s.log) ==>
              ValidatedFor(s.log, s.auth.transaction, s.auth.hl)
  {
    GenuineRun(Opened(haveSecret), es);
  }
}
