/**
 Whether a session can still be brought to its I/O queue: from every state reached against a
 FIFO target that answers what it was asked it can, unless Negotiate or the Reply was lost.
 */
module NvmeCompletes {
  import opened NvmeSession
  import opened NvmeRuns
  import opened NvmeProgress
  import opened NvmeNegotiate
  import opened NvmeTarget

  /** The run completes session setup against such a target. */
  predicate Completes(s: Session, es: seq<Event>) {
    TargetRun(s, es) && Run(s, es).phase == IcReqIo && !Run(s, es).ended
  }

  ghost predicate Completable(s: Session) { exists es :: Completes(s, es) }

  predicate Step(s: Session, e: Event) {
    Enabled(s, e) && Fifo(s, e) && Asked(s, e) && Next(s, e).issued < CID_MODULUS
  }

  /** One more event in front of a completing run. */
  lemma Before(s: Session, e: Event)
    requires Step(s, e) && Completable(Next(s, e))
    ensures Completable(s)
  {
    hide Next, Enabled, Fifo, Asked;
    var es :| Completes(Next(s, e), es);
    assert ([e] + es)[1..] == es;
    assert Completes(s, [e] + es);
  }

  /** Every event of such a run leads from reached states to reached states. */
  lemma StaysReached(s: Session, e: Event)
    requires Reached(s) && AskInv(s) && Step(s, e)
    ensures Reached(Next(s, e)) && AskInv(Next(s, e))
  {
    hide Next, Enabled, Fifo, Asked, OrderInv, FifoInv, WaitInv, LeftWhenDone, StuckInv, AskInv;
    AskNext(s, e);
    OrderNext(s, e);
    FifoNext(s, e);
    WaitNext(s, e);
    DoneNext(s, e);
    StuckNext(s, e);
  }

  // ---------------------------------------------------------------- distance to the I/O queue

  /** How far the session still is, by phase and authentication step. */
  function Major(s: Session): nat {
    match s.phase
    case IcReq => 11
    case ConnectAdmin => 10
    case Auth => 9 - AuthRank(s.auth)
    case PropSet => 3
    case IdentifyCtrl => 2
    case IdentifyNs => 1
    case IcReqIo => 0
  }

  /** How far within the step: what is still to be sent, or still to be completed. */
  function Minor(s: Session): nat {
    match s.phase
    case IcReq => if s.icReqSent then 0 else 1
    case Auth => if AuthRank(s.auth) >= 4 then |Outstanding(s.log)| else 0
    case _ => if Outstanding(s.log) == [] then 1 else 0
  }

  /** Commands that still have to be sent, at most. */
  function Need(s: Session): nat {
    match s.phase
    case IcReq => 8
    case ConnectAdmin => if Outstanding(s.log) == [] then 8 else 7
    case Auth => if AuthRank(s.auth) >= 4 then 3 else 7 - AuthRank(s.auth)
    case PropSet => if Outstanding(s.log) == [] then 3 else 2
    case IdentifyCtrl => if Outstanding(s.log) == [] then 2 else 1
    case IdentifyNs => if Outstanding(s.log) == [] then 1 else 0
    case IcReqIo => 0
  }

  /** An event that loses no Negotiate. */
  predicate Sends(e: Event) { e.ProcessRuns? ==> e.tx == Sent }

  lemma StaysNegotiated(s: Session, e: Event)
    requires Enabled(s, e) && Sends(e) && OrderInv(s) && !NegotiateLost(s)
    ensures !NegotiateLost(Next(s, e))
  {
    NegotiateNext(s, e);
    if AuthRank(s.auth) == 0 { RankZeroStays(s, e); }
    hide Next;
  }

  /** Step START is left only by the process run that sends Negotiate. */
  lemma RankZeroStays(s: Session, e: Event)
    requires Enabled(s, e) && AuthRank(s.auth) == 0 && OrderInv(s)
    ensures LeavesStart(s, e) || AuthRank(Next(s, e).auth) == 0
  {
    hide RxCommand, RxData, StepOnce;
    match e
    case ProcessRuns(tx, rng, transaction) => if !LeavesStart(s, e) { RankZeroSteps(s, tx, rng, transaction); }
    case CompletionArrives(cqe, tx) =>
      RankZeroHandles(s.(cqe := cqe, log := Then(s.log, Completed(cqe.cid))), Prepared, tx);
    case DataArrives(msg, prep, tx) => RankZeroHandles(s.(buf := msg), prep, tx);
    case StuckPduRetried(prep, tx) => RankZeroHandles(s, prep, tx);
    case _ =>
  }

  lemma RankZeroSteps(s: Session, tx: Tx, rng: bool, transaction: int)
    requires AuthRank(s.auth) == 0 && !(s.phase == Auth && rng)
    ensures AuthRank(StepOnce(s, tx, rng, transaction).0.auth) == 0
  {
    hide AuthTxReceiveStep;
  }

  lemma RankZeroHandles(s: Session, prep: Prepare, tx: Tx)
    requires AuthRank(s.auth) == 0
    ensures AuthRank(RxCommand(s, tx).0.auth) == 0 && AuthRank(RxData(s, prep, tx).0.auth) == 0
  {
    hide AuthTxReceiveStep, AuthRxChallenge;
  }

  /** Alive, with the Reply not lost and enough identifiers left. */
  predicate Alive(s: Session) {
    !s.ended && !ReplyLost(s) && s.issued + Need(s) < CID_MODULUS
  }

  predicate Closer(s: Session, t: Session) {
    Alive(t) && (Major(t) < Major(s) || (Major(t) == Major(s) && Minor(t) < Minor(s)))
  }

  /** The process run on an open window. */
  const GO := ProcessRuns(Sent, true, 1)

  /** The completion the target owes first. */
  function Answer(s: Session, status: int): Event
    requires Outstanding(s.log) != []
  {
    CompletionArrives(Completion(Outstanding(s.log)[0].cid, status, 0), Sent)
  }

  /** A challenge for the transaction of the session, and the success that follows it. */
  function ChallengeFor(s: Session): Message {
    Message(DHCHAP_MESSAGES, MESSAGE_CHALLENGE, s.auth.transaction, 32, 1, 0, 0, 0, false)
  }

  function Success1For(s: Session): Message {
    Message(DHCHAP_MESSAGES, MESSAGE_SUCCESS1, s.auth.transaction, s.auth.hl, 0, 0, 0, 0, false)
  }

  /** An event brings the session closer, alone or as a window opening before a process run. */
  predicate Brings(s: Session, e: Event) {
    Step(s, e) && Sends(e) && (Closer(s, Next(s, e)) ||
      (e == WindowOpens && Step(Next(s, e), GO) && Closer(s, Next(Next(s, e), GO))))
  }

  // ---------------------------------------------------------------- one step closer

  lemma SetupAnswered(s: Session)
    requires Reached(s) && Alive(s) && Outstanding(s.log) != []
    requires s.phase == PropSet || s.phase == IdentifyCtrl || s.phase == IdentifyNs
    ensures Brings(s, Answer(s, 0))
  {
    hide OrderInv, FifoInv, WaitInv, LeftWhenDone, RemoveCid, AuthRxComplete, AuthFinish;
    var t := Next(s, Answer(s, 0));
    assert !t.ended && Major(t) == Major(s) - 1 && t.issued == s.issued;
  }

  lemma ConnectAnswered(s: Session)
    requires Reached(s) && Alive(s) && s.phase == ConnectAdmin && Outstanding(s.log) != []
    ensures Brings(s, Answer(s, if s.haveSecret then STATUS_AUTH_REQUIRED else 0))
  {
    hide OrderInv, WaitInv, LeftWhenDone, RemoveCid, AuthRxComplete, AuthFinish, AtMost, PropertySetOwnsItsPhase;
    assert AuthRank(s.auth) == 0;
    var t := Next(s, Answer(s, if s.haveSecret then STATUS_AUTH_REQUIRED else 0));
    assert !t.ended && t.issued == s.issued && t.auth == s.auth;
  }

  lemma SetupSent(s: Session)
    requires Reached(s) && Alive(s) && !s.txInFlight && Outstanding(s.log) == []
    requires s.phase == ConnectAdmin || s.phase == PropSet || s.phase == IdentifyCtrl || s.phase == IdentifyNs
    ensures Brings(s, WindowOpens)
  {
    hide OrderInv, FifoInv, WaitInv, LeftWhenDone, AuthStepOnce;
    var t := Next(Next(s, WindowOpens), GO);
    assert t.phase == s.phase && !t.ended && t.issued == s.issued + 1;
    assert Outstanding(t.log) == [t.log.fact.cmd];
  }

  lemma Connected(s: Session)
    requires Reached(s) && Alive(s) && s.phase == IcReq
    ensures Brings(s, if s.icReqSent then IcRespArrives(true) else WindowOpens)
  {
    hide OrderInv, LeftWhenDone, AuthStepOnce;
  }

  lemma ReceiveStepCloser(s: Session, next: AuthStep)
    requires s.phase == Auth && Alive(s)
    requires (next == Challenge && s.auth.step == CompleteNegotiate) || (next == Success1 && s.auth.step == CompleteReply)
    ensures var (t, rc) := AuthTxReceiveStep(s, next, Sent);
            && rc == Ok && Alive(t) && t.phase == Auth && t.issued == s.issued + 1 && t.stuck.NoPdu?
            && AuthRank(t.auth) == AuthRank(s.auth) + 1
  {
  }

  /** A deferred AuthReceive goes out when the window opens. */
  lemma ReceiveResumed(s: Session)
    requires Reached(s) && Alive(s) && s.phase == Auth && !s.txInFlight
    requires s.auth.step == CompleteNegotiate || s.auth.step == CompleteReply
    ensures Brings(s, WindowOpens)
  {
    hide OrderInv, FifoInv, WaitInv, LeftWhenDone, AuthTxReceiveStep, Outstanding;
    ReceiveStepCloser(Next(s, WindowOpens), if s.auth.step == CompleteNegotiate then Challenge else Success1);
  }

  /** An AuthReceive goes out on the completion before it. */
  lemma ReceiveAnswered(s: Session)
    requires Reached(s) && Alive(s) && s.phase == Auth && Outstanding(s.log) != [] && s.stuck.NoPdu?
    requires s.auth.step == CompleteNegotiate || s.auth.step == CompleteReply
    ensures Brings(s, Answer(s, 0))
  {
    hide OrderInv, FifoInv, WaitInv, LeftWhenDone, AuthTxReceiveStep, RemoveCid;
    var e := Answer(s, 0);
    var s1 := s.(cqe := e.cqe, log := Then(s.log, Completed(e.cqe.cid)), txInFlight := false);
    ReceiveStepCloser(s1, if s.auth.step == CompleteNegotiate then Challenge else Success1);
  }

  lemma Negotiated(s: Session)
    requires Reached(s) && Alive(s) && s.phase == Auth && AuthRank(s.auth) == 0
    ensures Brings(s, WindowOpens)
  {
    hide OrderInv, WaitInv, LeftWhenDone, AuthTxReceiveStep, PropertySetOwnsItsPhase;
    assert !s.txInFlight;
  }

  lemma Challenged(s: Session)
    requires Reached(s) && Alive(s) && s.phase == Auth && s.auth.step == Challenge && !NegotiateLost(s)
    ensures Brings(s, if s.stuck.NoPdu? then DataArrives(ChallengeFor(s), Prepared, Sent)
                      else StuckPduRetried(Prepared, Sent))
  {
    hide FifoInv, WaitInv, LeftWhenDone, AuthTxReceiveStep, Outstanding;
    assert !s.auth.completed;
    assert !s.stuck.NoPdu? ==> ReplyDue(s);
  }

  lemma Finished(s: Session)
    requires Reached(s) && Alive(s) && s.phase == Auth && s.auth.step == Success1 && Outstanding(s.log) == []
    requires AskInv(s)
    ensures Brings(s, DataArrives(Success1For(s), Prepared, Sent))
  {
    hide WaitInv, AuthTxReceiveStep, AuthRxChallenge, PropertySetOwnsItsPhase;
    assert s.auth.rxComplete && s.stuck.NoPdu?;
    var t := Next(s, DataArrives(Success1For(s), Prepared, Sent));
    assert t.phase == PropSet && !t.ended;
    assert Outstanding(Then(s.log, Validated(Success1For(s)))) == [];
  }

  lemma Popped(s: Session)
    requires Reached(s) && Alive(s) && s.phase == Auth && AuthRank(s.auth) >= 4 && Outstanding(s.log) != []
    ensures Brings(s, Answer(s, 0))
  {
    hide WaitInv, AuthTxReceiveStep, PropertySetOwnsItsPhase, AtMost;
    var o, e := Outstanding(s.log), Answer(s, 0);
    assert s.stuck.NoPdu?;
    var s1 := s.(cqe := e.cqe, log := Then(s.log, Completed(e.cqe.cid)));
    assert Outstanding(s1.log) == o[1..];
    var t := Next(s, e);
    if e.cqe.cid == s.auth.rxCid { FinalReceivePopped(s.auth, o); }
    assert t.phase == Auth ==> t.log == s1.log && AuthRank(t.auth) == AuthRank(s.auth);
    assert t.phase != Auth ==> t.phase == PropSet && t.log == Then(s1.log, Entered(PropSet));
  }

  // ---------------------------------------------------------------- all the way

  /** From every such state some event of a FIFO target brings the session closer. */
  lemma SomethingBrings(s: Session) returns (e: Event)
    requires Reached(s) && Alive(s) && s.phase != IcReqIo && AskInv(s) && !NegotiateLost(s)
    ensures Brings(s, e)
  {
    hide Brings, Alive, OrderInv, FifoInv, LeftWhenDone, AskInv, NegotiateLost;
    assert s.txInFlight && s.phase != IcReq && !s.ended ==> Outstanding(s.log) != [] && s.stuck.NoPdu?;
    assert !s.ended by { AliveNotEnded(s); }
    if s.phase == IcReq {
      Connected(s);
      e := if s.icReqSent then IcRespArrives(true) else WindowOpens;
    } else if s.phase == Auth {
      e := AuthBrings(s);
    } else if Outstanding(s.log) == [] {
      SetupSent(s);
      e := WindowOpens;
    } else if s.phase == ConnectAdmin {
      ConnectAnswered(s);
      e := Answer(s, if s.haveSecret then STATUS_AUTH_REQUIRED else 0);
    } else {
      SetupAnswered(s);
      e := Answer(s, 0);
    }
  }

  lemma AliveNotEnded(s: Session)
    requires Alive(s)
    ensures !s.ended
  {
  }

  lemma AuthBrings(s: Session) returns (e: Event)
    requires Reached(s) && Alive(s) && s.phase == Auth && AskInv(s) && !NegotiateLost(s)
    ensures Brings(s, e)
  {
    hide Brings, OrderInv, PropertySetOwnsItsPhase, AtMost, AskInv, NegotiateLost;
    if AuthRank(s.auth) == 0 {
      Negotiated(s);
      e := WindowOpens;
    } else if s.auth.step == CompleteNegotiate || s.auth.step == CompleteReply {
      if s.txInFlight {
        ReceiveAnswered(s);
        e := Answer(s, 0);
      } else {
        ReceiveResumed(s);
        e := WindowOpens;
      }
    } else if s.auth.step == Challenge {
      Challenged(s);
      e := if s.stuck.NoPdu? then DataArrives(ChallengeFor(s), Prepared, Sent) else StuckPduRetried(Prepared, Sent);
    } else if Outstanding(s.log) != [] {
      Popped(s);
      e := Answer(s, 0);
    } else {
      Finished(s);
      e := DataArrives(Success1For(s), Prepared, Sent);
    }
  }

  lemma {:induction false} CanComplete(s: Session)
    requires Reached(s) && Alive(s) && AskInv(s) && !NegotiateLost(s)
    ensures Completable(s)
    decreases Major(s), Minor(s)
  {
    hide Completable, Next, NegotiateLost, AskInv, OrderInv, FifoInv, WaitInv, LeftWhenDone, StuckInv;
    if s.phase == IcReqIo {
      AlreadyComplete(s);
    } else {
      var e := SomethingBrings(s);
      hide Enabled, Fifo, Asked;
      StaysReached(s, e);
      StaysNegotiated(s, e);
      var t := Next(s, e);
      if Closer(s, t) {
        CanComplete(t);
      } else {
        StaysReached(t, GO);
        StaysNegotiated(t, GO);
        CanComplete(Next(t, GO));
        Before(t, GO);
      }
      Before(s, e);
    }
  }

  lemma AlreadyComplete(s: Session)
    requires s.phase == IcReqIo && !s.ended
    ensures Completable(s)
  {
    assert Completes(s, []);
  }

  lemma LostCannotComplete(s: Session)
    requires Reached(s) && AskInv(s) && !s.ended && (ReplyLost(s) || NegotiateLost(s))
    ensures !Completable(s)
  {
    forall es ensures !Completes(s, es) {
      if TargetRun(s, es) {
        TargetIsFifo(s, es);
        FifoEnabled(s, es);
        if ReplyLost(s) { ReplyLostForever(s, es); } else { NegotiateLostForever(s, es); }
      }
    }
  }

  /** Setup can be completed exactly when neither Negotiate nor the Reply was lost: from every
      state reached against a FIFO target that answers what it was asked, with eight
      identifiers left, there is a continuation against such a target that opens the I/O queue
      if and only if no Negotiate is missing behind the session and no Reply was lost. */
  lemma CompletableUnlessLost(haveSecret: bool, es: seq<Event>)
    requires TargetRun(Opened(haveSecret), es)
    ensures var s := Run(Opened(haveSecret), es);
            !s.ended && s.issued + 8 < CID_MODULUS ==>
              (Completable(s) <==> !ReplyLost(s) && !NegotiateLost(s))
  {
    var s := Run(Opened(haveSecret), es);
    TargetIsFifo(Opened(haveSecret), es);
    FifoReaches(haveSecret, es);
    AskRun(Opened(haveSecret), es);
    if !s.ended && s.issued + 8 < CID_MODULUS {
      hide Run, TargetRun, Reached, Completable, ReplyLost, NegotiateLost, AskInv;
      if ReplyLost(s) || NegotiateLost(s) {
        LostCannotComplete(s);
      } else {
        NeedAtMostEight(s);
        CanComplete(s);
      }
    }
  }

  lemma NeedAtMostEight(s: Session)
    ensures Need(s) <= 8
  {
  }

  /** The Reply can be lost: the window may close just as the challenge arrives. */
  lemma LostIsReachable() returns (es: seq<Event>)
    ensures TargetRun(Opened(true), es) && ReplyLost(Run(Opened(true), es))
  {
    var demand := CompletionArrives(Completion(1, STATUS_AUTH_REQUIRED, 0), Sent);
    var s0 := Opened(true);
    var s1 := Next(s0, GO);
    var s2 := Next(s1, IcRespArrives(true));
    var s3 := Next(s2, GO);
    assert Step(s0, GO) && Step(s1, IcRespArrives(true)) && Step(s2, GO) && Step(s3, demand);
    assert AtAuth(Next(s3, demand));
    hide Next, Step, ReplyLost, AtAuth;
    es := LostFromAuth(Next(s3, demand));
    Chain(s3, demand, es);
    Chain(s2, GO, [demand] + es);
    Chain(s1, IcRespArrives(true), [GO] + ([demand] + es));
    Chain(s0, GO, [IcRespArrives(true)] + ([GO] + ([demand] + es)));
    es := [GO] + ([IcRespArrives(true)] + ([GO] + ([demand] + es)));
  }

  /** Authentication is about to start. */
  predicate AtAuth(s: Session) {
    && !s.ended && s.running && s.phase == Auth && AuthRank(s.auth) == 0 && s.stuck.NoPdu?
    && Outstanding(s.log) == [] && s.cid == s.issued == 1
  }

  lemma LostFromAuth(s: Session) returns (es: seq<Event>)
    requires AtAuth(s)
    ensures TargetRun(s, es) && ReplyLost(Run(s, es))
  {
    var negotiated := CompletionArrives(Completion(2, 0, 0), Sent);
    var t := Next(s, GO);
    var u := Next(t, negotiated);
    assert Step(s, GO) && Outstanding(t.log) == [Command(2, Negotiate)];
    assert Step(t, negotiated);
    var challenge := DataArrives(ChallengeFor(u), Prepared, WindowClosed);
    assert u.auth.step == Challenge && u.phase == Auth && u.stuck.NoPdu? && u.issued == 3;
    assert Transmits(t.log, Negotiate) && Transmits(Then(t.log, Completed(2)), Negotiate);
    LostOnClosedWindow(u);
    hide Next, Step, ReplyLost;
    Chain(u, challenge, []);
    Chain(t, negotiated, [challenge] + []);
    Chain(s, GO, [negotiated] + ([challenge] + []));
    es := [GO] + ([negotiated] + ([challenge] + []));
  }

  lemma LostOnClosedWindow(s: Session)
    requires !s.ended && s.phase == Auth && s.auth.step == Challenge && s.stuck.NoPdu? && s.issued < 10
    requires Transmits(s.log, Negotiate)
    ensures var e := DataArrives(ChallengeFor(s), Prepared, WindowClosed);
            Step(s, e) && ReplyLost(Next(s, e)) && TargetRun(Next(s, e), [])
  {
  }

  /** Negotiate can be lost: the window may be closed just as authentication starts. */
  lemma NegotiateLossIsReachable() returns (es: seq<Event>)
    ensures TargetRun(Opened(true), es) && !Run(Opened(true), es).ended && NegotiateLost(Run(Opened(true), es))
  {
    var demand := CompletionArrives(Completion(1, STATUS_AUTH_REQUIRED, 0), Sent);
    var deferred := ProcessRuns(WindowClosed, true, 1);
    var s0 := Opened(true);
    var s1 := Next(s0, GO);
    var s2 := Next(s1, IcRespArrives(true));
    var s3 := Next(s2, GO);
    var s4 := Next(s3, demand);
    assert Step(s0, GO) && Step(s1, IcRespArrives(true)) && Step(s2, GO) && Step(s3, demand);
    assert AtAuth(s4) && !Transmits(s3.log, Negotiate);
    assert !Transmits(s4.log, Negotiate) by { assert !Transmits(Then(s3.log, Completed(1)), Negotiate); }
    var s5 := Next(s4, deferred);
    assert Step(s4, deferred) && !s5.ended && NegotiateLost(s5);
    hide Next, Step, NegotiateLost, AtAuth;
    Chain(s4, deferred, []);
    Chain(s3, demand, [deferred] + []);
    Chain(s2, GO, [demand] + ([deferred] + []));
    Chain(s1, IcRespArrives(true), [GO] + ([demand] + ([deferred] + [])));
    Chain(s0, GO, [IcRespArrives(true)] + ([GO] + ([demand] + ([deferred] + []))));
    es := [GO] + ([IcRespArrives(true)] + ([GO] + ([demand] + ([deferred] + []))));
  }

  lemma Chain(s: Session, e: Event, es: seq<Event>)
    ensures Step(s, e) && TargetRun(Next(s, e), es) ==> TargetRun(s, [e] + es)
    ensures Run(s, [e] + es) == Run(Next(s, e), es)
  {
    hide Next, Enabled, Fifo, Asked;
    assert ([e] + es)[1..] == es;
  }
}
