/**
 Whether a session authenticates is decided by the target's answer to Connect, as received.
 */
module NvmeDemand {
  import opened Bytes
  import opened NvmeSession
  import opened NvmeRuns
  import opened NvmeGenuine

  /** The answer to Connect demands authentication: by its status, or by bit 17 of its result. */
  predicate Demands(answer: Completion) {
    answer.status == 0x0c || (answer.status == 0 && answer.result / 0x2_0000 % 2 == 1)
  }

  /** The first completion that arrives, which is the answer to Connect. */
  function FirstCompletion(es: seq<Event>): Option<Completion> {
    if es == [] then None
    else if es[0].CompletionArrives? then Some(es[0].cqe)
    else FirstCompletion(es[1..])
  }

  /** The answer, if any, once another event has happened. */
  function Seen(answer: Option<Completion>, e: Event): Option<Completion> {
    if answer == None && e.CompletionArrives? then Some(e.cqe) else answer
  }

  /** What a session that has not ended has done about the answer. */
  predicate DemandInv(s: Session, answer: Option<Completion>) {
    !s.ended ==>
      match answer
      case None => s.phase == IcReq || s.phase == ConnectAdmin
      case Some(c) =>
        && s.phase != IcReq && s.phase != ConnectAdmin
        && if Demands(c) then s.haveSecret && (s.phase == Auth || s.auth.completed) && EnteredAuth(s.log)
           else c.status == 0 && s.phase != Auth && !EnteredAuth(s.log)
  }

  // ---------------------------------------------------------------- one event

  /** Nothing that matters here has changed. */
  predicate Unmoved(s: Session, t: Session) {
    && t.phase == s.phase && t.haveSecret == s.haveSecret && t.auth.completed == s.auth.completed
    && EnteredAuth(t.log) == EnteredAuth(s.log)
  }

  lemma CommandUnmoved(s: Session, kind: Kind, tx: Tx)
    ensures Unmoved(s, TxCommand(s, kind, tx).0) && TxCommand(s, kind, tx).0.ended == s.ended
  {
  }

  lemma ReceiveUnmoved(s: Session, next: AuthStep, tx: Tx)
    ensures Unmoved(s, AuthTxReceiveStep(s, next, tx).0) && AuthTxReceiveStep(s, next, tx).0.ended == s.ended
  {
    hide TxCommand;
    CommandUnmoved(SetStep(s, next), if next == Challenge then ReceiveChallenge else ReceiveSuccess1, tx);
  }

  /** In AUTH the session stays there or has validated a Success1. */
  predicate InAuth(t: Session) {
    (t.phase == Auth || (t.phase == PropSet && t.auth.completed)) && EnteredAuth(t.log) && t.haveSecret
  }

  lemma FinishStays(r: (Session, Rc))
    requires r.0.phase == Auth && EnteredAuth(r.0.log) && r.0.haveSecret
    ensures InAuth(AuthFinish(r).0)
  {
  }

  lemma AuthCompletionStays(s: Session, tx: Tx)
    requires s.phase == Auth && EnteredAuth(s.log) && s.haveSecret
    ensures InAuth(AuthFinish(AuthRxComplete(s, tx)).0)
  {
    hide AuthTxReceiveStep, AuthFinish;
    ReceiveUnmoved(s, Challenge, tx);
    ReceiveUnmoved(s, Success1, tx);
    FinishStays(AuthRxComplete(s, tx));
  }

  lemma AuthDataStays(s: Session, prep: Prepare, tx: Tx)
    requires s.phase == Auth && EnteredAuth(s.log) && s.haveSecret
    ensures InAuth(AuthFinish(AuthRxData(s, prep, tx)).0)
  {
    hide TxCommand, AuthFinish;
    var s1 := s.(auth := s.auth.(hl := s.buf.hl));
    CommandUnmoved(s1.(buf := ReplyMessage(s1.auth.transaction, s1.auth.hl)), Reply, tx);
    FinishStays(AuthRxData(s, prep, tx));
  }

  /** A handler's result, where it does not fail. */
  predicate DemandResult(r: (Session, Rc), answer: Option<Completion>) { r.1 != EFatal ==> DemandInv(r.0, answer) }

  lemma DemandHandled(r: (Session, Rc), pdu: Stuck, answer: Option<Completion>)
    requires DemandResult(r, answer)
    ensures DemandInv(Handled(r, pdu), answer)
  {
    hide Demands, EnteredAuth;
  }

  /** The answer itself. */
  lemma AnswerHandled(s: Session, tx: Tx)
    requires DemandInv(s, None) && !s.ended && !EnteredAuth(s.log)
    ensures DemandResult(RxCommand(s, tx), Some(s.cqe))
  {
    hide AuthRxComplete, AuthFinish;
  }

  lemma LaterHandled(s: Session, answer: Option<Completion>, tx: Tx)
    requires DemandInv(s, answer) && answer.Some? && !s.ended
    ensures DemandResult(RxCommand(s, tx), answer)
  {
    hide AuthRxComplete, AuthFinish, Demands;
    if s.phase == Auth { AuthCompletionStays(s.(txInFlight := false), tx); }
  }

  lemma DataHandled(s: Session, answer: Option<Completion>, prep: Prepare, tx: Tx)
    requires DemandInv(s, answer) && !s.ended
    ensures DemandResult(RxData(s, prep, tx), answer)
  {
    hide AuthRxData, AuthFinish, Demands;
    if s.phase == Auth { AuthDataStays(s.(txInFlight := false), prep, tx); }
  }

  lemma DemandCompletion(s: Session, answer: Option<Completion>, e: Event)
    requires DemandInv(s, answer) && GenuineInv(s) && Enabled(s, e) && e.CompletionArrives?
    ensures DemandInv(Next(s, e), Seen(answer, e))
  {
    hide RxCommand, Handled, Demands;
    var s1 := s.(cqe := e.cqe, log := Then(s.log, Completed(e.cqe.cid)));
    assert EnteredAuth(s1.log) == EnteredAuth(s.log);
    if answer == None { AnswerHandled(s1, e.tx); } else { LaterHandled(s1, answer, e.tx); }
    DemandHandled(RxCommand(s1, e.tx), StuckCompletion, Seen(answer, e));
  }

  lemma DemandOther(s: Session, answer: Option<Completion>, e: Event)
    requires DemandInv(s, answer) && OrderInv(s) && Enabled(s, e) && (e.DataArrives? || e.StuckPduRetried?)
    ensures DemandInv(Next(s, e), answer)
  {
    hide RxCommand, RxData, Handled, Demands, EnteredAuth;
    if e.DataArrives? {
      DataHandled(s.(buf := e.msg), answer, e.prep, e.tx);
      DemandHandled(RxData(s.(buf := e.msg), e.prep, e.tx), StuckData, answer);
    } else if s.stuck == StuckCompletion {
      LaterHandled(s, answer, e.tx);
      DemandHandled(RxCommand(s, e.tx), StuckCompletion, answer);
    } else {
      DataHandled(s, answer, e.prep, e.tx);
      DemandHandled(RxData(s, e.prep, e.tx), StuckData, answer);
    }
  }

  lemma DemandProcess(s: Session, answer: Option<Completion>, tx: Tx, rng: bool, transaction: int)
    requires DemandInv(s, answer) && !s.ended
    ensures DemandInv(Process(s, tx, rng, transaction), answer)
  {
    StepUnmoved(s, tx, rng, transaction);
    hide StepOnce;
  }

  lemma StepUnmoved(s: Session, tx: Tx, rng: bool, transaction: int)
    ensures Unmoved(s, StepOnce(s, tx, rng, transaction).0)
  {
    hide TxCommand, AuthStepOnce;
    match s.phase
    case ConnectAdmin => CommandUnmoved(s, Connect, tx);
    case PropSet => CommandUnmoved(s, PropertySet, tx);
    case Auth => AuthStepUnmoved(s, tx, rng, transaction);
    case IdentifyCtrl => CommandUnmoved(s, IdentifyController, tx);
    case IdentifyNs => CommandUnmoved(s, IdentifyNamespace, tx);
    case _ =>
  }

  lemma AuthStepUnmoved(s: Session, tx: Tx, rng: bool, transaction: int)
    ensures Unmoved(s, AuthStepOnce(s, tx, rng, transaction).0)
  {
    hide TxCommand, AuthTxReceiveStep;
    CommandUnmoved(s.(auth := s.auth.(transaction := transaction, step := CompleteNegotiate)), Negotiate, tx);
    ReceiveUnmoved(s, Challenge, tx);
    ReceiveUnmoved(s, Success1, tx);
  }

  lemma DemandNext(s: Session, answer: Option<Completion>, e: Event)
    requires DemandInv(s, answer) && OrderInv(s) && GenuineInv(s) && Enabled(s, e)
    ensures DemandInv(Next(s, e), Seen(answer, e))
  {
    hide Process, ReceiveCompletion, ReceiveData, Reprocess;
    match e
    case ProcessRuns(tx, rng, transaction) => DemandProcess(s, answer, tx, rng, transaction);
    case CompletionArrives(_, _) => DemandCompletion(s, answer, e);
    case DataArrives(_, _, _) => DemandOther(s, answer, e);
    case StuckPduRetried(_, _) => DemandOther(s, answer, e);
    case _ =>
  }

  // ---------------------------------------------------------------- whole runs

  lemma {:induction false} DemandRun(s: Session, answer: Option<Completion>, es: seq<Event>)
    requires DemandInv(s, answer) && OrderInv(s) && GenuineInv(s) && AllEnabled(s, es)
    ensures DemandInv(Run(s, es), if answer == None then FirstCompletion(es) else answer)
    decreases |es|
  {
    hide Next, DemandInv, OrderInv, GenuineInv, Enabled;
    if es != [] {
      OrderNext(s, es[0]);
      GenuineNext(s, es[0]);
      DemandNext(s, answer, es[0]);
      DemandRun(Next(s, es[0]), Seen(answer, es[0]), es[1..]);
    }
  }

  /** If authentication was demanded the session holds a secret and is in AUTH, or has since
      validated a Success1 of its own transaction; if not, it never entered AUTH. */
  predicate Obeys(s: Session, answer: Option<Completion>) {
    match answer
    case None => s.phase == IcReq || s.phase == ConnectAdmin
    case Some(c) =>
      if Demands(c) then
        s.haveSecret && EnteredAuth(s.log)
        && (s.phase == Auth || ValidatedFor(s.log, s.auth.transaction, s.auth.hl))
      else
        c.status == 0 && !EnteredAuth(s.log)
        && s.phase != IcReq && s.phase != ConnectAdmin && s.phase != Auth
  }

  /** Against any target and in every run, a session that has not ended has obeyed the answer to
      Connect that it received. */
  lemma DemandObeyed(haveSecret: bool, es: seq<Event>)
    requires AllEnabled(Opened(haveSecret), es)
    ensures var s := Run(Opened(haveSecret), es); !s.ended ==> Obeys(s, FirstCompletion(es))
  {
    DemandRun(Opened(haveSecret), None, es);
    GenuineRun(Opened(haveSecret), es);
  }
}
