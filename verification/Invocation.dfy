/** The governed invocation of one Action: claim, execution, commit, what follows a commit, and how every
    failure and panic is reported. */
module Invocation {
  import opened Basics
  import U = UnitOfWork
  import C = CanonicalCommits

  /** An error, as far as the invocation tells errors apart. */
  datatype Fault = CommitUnknownFault | Fault(code: nat)

  datatype Verdict = Passes | Errs(fault: Fault) | Panics

  datatype Claim = ClaimErrs(fault: Fault) | ClaimPanics | Replay | Claimed

  /** What everything the invocation calls will do. `steps` is what the handler does to its unit of work, with
      the answers the store gives; `concurrency` also stands for the commits it returns. */
  datatype Script = Script(
    preClaim: Verdict, claim: Claim,
    steps: seq<U.Step>, execution: Verdict, commits: seq<C.Commit>, concurrency: Verdict, projection: Verdict,
    receiptValid: bool, injectedFailure: bool, failureAuditPanics: bool, successAuditPanics: bool,
    commitBegin: bool, commitAnswer: U.CommitAnswer,
    hook: Option<bool>, activator: Option<bool>,
    recording: Verdict, recoveryFault: Option<Fault>)

  const RESULT_INVALID := Fault(1)
  const INJECTED := Fault(2)
  const HANDLER_PANICKED := Fault(3)
  const COMMIT_REFUSED := Fault(4)

  datatype Effect =
    | RolledBack
    | CommitReturned(reply: U.Reply)
    | FailRecorded(fault: Fault)
    | HookRan
    | WorkflowsActivated(starts: seq<C.WorkflowStart>)

  datatype Answer = Succeeded | Replayed | Failed(fault: Fault)

  datatype Report = Report(answer: Answer, log: seq<Effect>, unit: Option<U.State>, panicked: bool)

  // ---------------------------------------------------------------- the invocation as a function

  /** `failOwnedInvocation`: a commit whose outcome is unknown is never recorded as failed. */
  function FailOwned(unit: U.State, log: seq<Effect>, fault: Fault, recording: Verdict): Report {
    if fault.CommitUnknownFault? then Report(Failed(fault), log, Some(unit), false)
    else
      match recording
      case Passes => Report(Failed(fault), log + [FailRecorded(fault)], Some(unit), false)
      case Errs(g) => Report(Failed(g), log + [FailRecorded(fault)], Some(unit), false)
      case Panics => Report(Failed(fault), log + [FailRecorded(fault)], Some(unit), true)
  }

  function Panicked(unit: Option<U.State>, log: seq<Effect>): Report {
    Report(Failed(HANDLER_PANICKED), log, unit, true)
  }

  function RolledBackUnit(unit: U.State): U.State { U.Apply(unit, U.RollBack).0 }

  /** An error before the commit: roll back, then record it. */
  function Abort(sc: Script, unit: U.State, fault: Fault, auditPanics: bool): Report {
    if auditPanics then Panicked(Some(RolledBackUnit(unit)), [RolledBack])
    else FailOwned(RolledBackUnit(unit), [RolledBack], fault, sc.recording)
  }

  function FaultOf(reply: U.Reply): Fault {
    if reply == U.Failure(U.CommitUnknown) then CommitUnknownFault else COMMIT_REFUSED
  }

  function AllStarts(commits: seq<C.Commit>): seq<C.WorkflowStart> { C.Gather(commits, C.StartsOf) }

  function Activated(sc: Script): seq<Effect> {
    if sc.activator.Some? && AllStarts(sc.commits) != [] then [WorkflowsActivated(AllStarts(sc.commits))] else []
  }

  function Hooked(sc: Script): seq<Effect> { if sc.hook.Some? then [HookRan] else [] }

  function AfterCommit(sc: Script, unit: U.State, log: seq<Effect>): Report {
    if sc.hook == Some(true) then Panicked(Some(unit), log + Hooked(sc))
    else if sc.activator == Some(true) && Activated(sc) != [] then
        Panicked(Some(unit), log + Hooked(sc) + Activated(sc))
    else Report(Succeeded, log + Hooked(sc) + Activated(sc), Some(unit), false)
  }

  function Finish(sc: Script, unit: U.State): Report {
    var reply := U.CommitReply(unit, sc.commitBegin, sc.commitAnswer);
    var after := U.Run(unit, U.CommitSteps(unit, sc.commitBegin, sc.commitAnswer));
    if reply.Done? then AfterCommit(sc, after, [CommitReturned(reply)])
    else FailOwned(after, [CommitReturned(reply)], FaultOf(reply), sc.recording)
  }

  function Owned(sc: Script, unit: U.State): Report {
    if sc.execution.Panics? then Panicked(Some(unit), [])
    else if sc.execution.Errs? then Abort(sc, unit, sc.execution.fault, sc.failureAuditPanics)
    else if sc.concurrency.Panics? then Panicked(Some(unit), [])
    else if sc.concurrency.Errs? then Abort(sc, unit, sc.concurrency.fault, sc.failureAuditPanics)
    else if sc.projection.Panics? then Panicked(Some(unit), [])
    else if sc.projection.Errs? then Abort(sc, unit, sc.projection.fault, false)
    else if !sc.receiptValid then Abort(sc, unit, RESULT_INVALID, false)
    else if sc.injectedFailure then Abort(sc, unit, INJECTED, false)
    else if sc.successAuditPanics then Panicked(Some(unit), [])
    else Finish(sc, unit)
  }

  function Body(sc: Script): Report {
    if sc.preClaim.Panics? || (sc.preClaim.Passes? && sc.claim.ClaimPanics?) then Panicked(None, [])
    else if sc.preClaim.Errs? then Report(Failed(sc.preClaim.fault), [], None, false)
    else if sc.claim.ClaimErrs? then Report(Failed(sc.claim.fault), [], None, false)
    else if sc.claim.Replay? then Report(Replayed, [], None, false)
    else Owned(sc, U.Run(U.INITIAL, sc.steps))
  }

  /** The deferred recovery. */
  function Recover(sc: Script, r: Report): Report {
    if r.unit.None? then r.(answer := Failed(HANDLER_PANICKED))
    else
      var verdict := if sc.recoveryFault.Some? then Errs(sc.recoveryFault.value) else Passes;
      FailOwned(RolledBackUnit(r.unit.value), r.log + [RolledBack], HANDLER_PANICKED, verdict).(panicked := true)
  }

  function Invoked(sc: Script): Report { if Body(sc).panicked then Recover(sc, Body(sc)) else Body(sc) }

  // ---------------------------------------------------------------- what an invocation promises

  /** The steps a handler can take on its unit of work. */
  ghost predicate HandlerSteps(steps: seq<U.Step>) {
    forall i :: 0 <= i < |steps| ==> !steps[i].CommitLocked? && !steps[i].RollBack?
  }

  function FailCount(log: seq<Effect>): nat {
    if log == [] then 0 else FailCount(log[1..]) + if log[0].FailRecorded? then 1 else 0
  }

  /** The hook and the activation of workflows come after a commit that reported success. */
  ghost predicate OnlyAfterCommit(log: seq<Effect>) {
    forall i :: 0 <= i < |log| && (log[i].HookRan? || log[i].WorkflowsActivated?) ==> log[0] == CommitReturned(U.Done)
  }

  ghost predicate NeverRecordsUnknown(log: seq<Effect>) {
    forall i :: 0 <= i < |log| && log[i].FailRecorded? ==> !log[i].fault.CommitUnknownFault?
  }

  lemma FailCountAppend(log: seq<Effect>, e: Effect)
    ensures FailCount(log + [e]) == FailCount(log) + if e.FailRecorded? then 1 else 0
  {
    if log != [] {
      assert (log + [e])[1..] == log[1..] + [e];
      FailCountAppend(log[1..], e);
    } else {
      assert (log + [e])[1..] == [];
    }
  }

  /** Every report of the body, panicked or not. */
  ghost predicate BodyFacts(r: Report) {
    && OnlyAfterCommit(r.log) && NeverRecordsUnknown(r.log)
    && (r.answer.Succeeded? && !r.panicked ==>
           r.unit.Some? && FailCount(r.log) == 0 && r.log != [] && r.log[0] == CommitReturned(U.Done))
    && (r.unit.None? ==> r.log == [])
    && (r.answer.Replayed? ==> r.unit.None?)
    && (!r.panicked && r.unit.Some? && r.answer.Failed? ==>
          FailCount(r.log) == 1 || (FailCount(r.log) == 0 && r.answer.fault.CommitUnknownFault?))
    && FailCount(r.log) <= 1
  }

  lemma FailOwnedFacts(unit: U.State, e: Effect, fault: Fault, recording: Verdict)
    requires e.RolledBack? || e.CommitReturned?
    ensures BodyFacts(FailOwned(unit, [e], fault, recording))
  {
    assert [e][1..] == [];
    assert FailCount([e]) == 0;
    FailCountAppend([e], FailRecorded(fault));
  }

  lemma PanickedFacts(unit: Option<U.State>)
    ensures BodyFacts(Panicked(unit, []))
    ensures unit.Some? ==> BodyFacts(Panicked(unit, [RolledBack]))
  {
    assert [RolledBack][1..] == [];
  }

  lemma AfterCommitFacts(sc: Script, unit: U.State)
    ensures BodyFacts(AfterCommit(sc, unit, [CommitReturned(U.Done)]))
  {
    var log := [CommitReturned(U.Done)];
    assert log[1..] == [] && FailCount(log) == 0;
    assert sc.hook.None? ==> log + Hooked(sc) == log;
    FailCountAppend(log, HookRan);
    var hooked := log + Hooked(sc);
    assert FailCount(hooked) == 0;
    assert Activated(sc) == [] ==> hooked + Activated(sc) == hooked;
    FailCountAppend(hooked, WorkflowsActivated(AllStarts(sc.commits)));
  }

  /** How everything after the claim can end: a panic, an abort, or the commit. */
  lemma OwnedCases(sc: Script, unit: U.State) returns (fault: Fault, auditPanics: bool)
    ensures var r := Owned(sc, unit);
            r == Panicked(Some(unit), []) || r == Abort(sc, unit, fault, auditPanics) || r == Finish(sc, unit)
  {
    fault, auditPanics := if !sc.receiptValid then RESULT_INVALID else INJECTED, false;
    if sc.execution.Errs? {
      fault, auditPanics := sc.execution.fault, sc.failureAuditPanics;
    } else if sc.concurrency.Errs? {
      fault, auditPanics := sc.concurrency.fault, sc.failureAuditPanics;
    } else if sc.projection.Errs? {
      fault := sc.projection.fault;
    }
  }

  lemma OwnedFacts(sc: Script, unit: U.State)
    ensures BodyFacts(Owned(sc, unit))
  {
    var fault, auditPanics := OwnedCases(sc, unit);
    PanickedFacts(Some(unit));
    PanickedFacts(Some(RolledBackUnit(unit)));
    FailOwnedFacts(RolledBackUnit(unit), RolledBack, fault, sc.recording);
    var reply := U.CommitReply(unit, sc.commitBegin, sc.commitAnswer);
    var after := U.Run(unit, U.CommitSteps(unit, sc.commitBegin, sc.commitAnswer));
    FailOwnedFacts(after, CommitReturned(reply), FaultOf(reply), sc.recording);
    AfterCommitFacts(sc, after);
  }

  lemma BodyHolds(sc: Script)
    ensures BodyFacts(Body(sc))
  {
    PanickedFacts(None);
    OwnedFacts(sc, U.Run(U.INITIAL, sc.steps));
  }

  lemma RecoverFacts(sc: Script, r: Report)
    requires BodyFacts(r) && r.panicked
    ensures var t := Recover(sc, r);
            && OnlyAfterCommit(t.log) && NeverRecordsUnknown(t.log) && t.panicked && t.answer.Failed?
            && (r.unit.None? ==> t.log == [] && t.unit.None?)
            && (r.unit.Some? ==> t.log == r.log + [RolledBack, FailRecorded(HANDLER_PANICKED)])
            && (r.unit.Some? ==> t.unit == Some(RolledBackUnit(r.unit.value)))
  {
    if r.unit.Some? {
      assert r.log + [RolledBack] + [FailRecorded(HANDLER_PANICKED)] ==
                 r.log + [RolledBack, FailRecorded(HANDLER_PANICKED)];
      var log := r.log + [RolledBack, FailRecorded(HANDLER_PANICKED)];
      assert r.log != [] ==> log[0] == r.log[0];
      assert forall i :: 0 <= i < |r.log| ==> log[i] == r.log[i];
    }
  }

  /** On every invocation: the post-commit hook and the activation of workflows only follow a commit that
      reported success; once a commit has returned an unknown outcome nothing more happens, no failure is
      recorded, nothing is rolled back, and the answer says so; and any other error returned after the claim
      without a panic is recorded exactly once. */
  lemma EveryInvocation(sc: Script)
    ensures var r := Invoked(sc);
            && OnlyAfterCommit(r.log) && NeverRecordsUnknown(r.log) && UnknownEnds(r)
            && (r.unit.None? ==> r.log == [])
            && (r.unit.Some? && r.answer.Failed? && !r.panicked ==>
                  FailCount(r.log) == 1 || (FailCount(r.log) == 0 && r.answer.fault.CommitUnknownFault?))
            && (r.unit.Some? && r.panicked ==>
                   r.answer.Failed? && |r.log| >= 2
                   && r.log[|r.log| - 2..] == [RolledBack, FailRecorded(HANDLER_PANICKED)])
            && (r.panicked ==> r.answer.Failed?)
  {
    BodyHolds(sc);
    OwnedUnknown(sc, U.Run(U.INITIAL, sc.steps));
    if Body(sc).panicked {
      RecoverFacts(sc, Body(sc));
      RecoverUnknown(sc, Body(sc));
    }
  }

  const UNKNOWN: Effect := CommitReturned(U.Failure(U.CommitUnknown))

  /** A commit of unknown outcome is the last thing that happens. */
  ghost predicate UnknownEnds(r: Report) {
    UNKNOWN in r.log ==> r.log == [UNKNOWN] && r.answer == Failed(CommitUnknownFault) && !r.panicked
  }

  lemma FinishUnknown(sc: Script, unit: U.State)
    ensures UnknownEnds(Finish(sc, unit))
  {
    var reply := U.CommitReply(unit, sc.commitBegin, sc.commitAnswer);
    var log := [CommitReturned(reply)];
    assert UNKNOWN !in Hooked(sc) && UNKNOWN !in Activated(sc);
    assert forall e :: e in log + Hooked(sc) + Activated(sc) ==> e == log[0] || e in Hooked(sc) || e in Activated(sc);
    assert forall e :: e in log + Hooked(sc) ==> e == log[0] || e in Hooked(sc);
  }

  lemma OwnedUnknown(sc: Script, unit: U.State)
    ensures UnknownEnds(Owned(sc, unit))
  {
    var fault, auditPanics := OwnedCases(sc, unit);
    FinishUnknown(sc, unit);
  }

  lemma RecoverUnknown(sc: Script, r: Report)
    requires UnknownEnds(r) && r.panicked && BodyFacts(r)
    ensures UnknownEnds(Recover(sc, r))
  {
    RecoverFacts(sc, r);
    assert UNKNOWN !in r.log;
    if r.unit.Some? {
      var log := r.log + [RolledBack, FailRecorded(HANDLER_PANICKED)];
      assert forall e :: e in log ==> e in r.log || e == RolledBack || e == FailRecorded(HANDLER_PANICKED);
    }
  }

  lemma CommitDoneLands(unit: U.State, beginOk: bool, answer: U.CommitAnswer)
    requires U.Invariant(unit)
    ensures var after := U.Run(unit, U.CommitSteps(unit, beginOk, answer));
            U.CommitReply(unit, beginOk, answer).Done? ==> after.phase.Committed? && U.Landed in after.handles
  {
    U.RunOneTwo(unit, U.BeginWriting(beginOk), U.CommitLocked(answer));
    U.RunOneTwo(unit, U.CommitLocked(answer), U.CommitLocked(answer));
    if unit.transaction.Some? {
      U.SuccessfulCommitLands(unit, answer);
      U.InvariantStep(unit, U.CommitLocked(answer));
    } else if U.DoBeginWriting(unit, beginOk).1.Done? {
      U.InvariantStep(unit, U.BeginWriting(beginOk));
      U.SuccessfulCommitLands(U.DoBeginWriting(unit, beginOk).0, answer);
      U.InvariantStep(U.DoBeginWriting(unit, beginOk).0, U.CommitLocked(answer));
    }
  }

  lemma CommitNotDone(unit: U.State, beginOk: bool, answer: U.CommitAnswer)
    requires !unit.phase.Committed? && !U.CommitReply(unit, beginOk, answer).Done?
    ensures !U.Run(unit, U.CommitSteps(unit, beginOk, answer)).phase.Committed?
  {
    U.RunOneTwo(unit, U.BeginWriting(beginOk), U.CommitLocked(answer));
    U.RunOneTwo(unit, U.CommitLocked(answer), U.CommitLocked(answer));
  }

  ghost predicate ReportsCommit(log: seq<Effect>) { log != [] && log[0] == CommitReturned(U.Done) }

  predicate PanicsAfterCommit(sc: Script) {
    sc.hook == Some(true) || (sc.activator == Some(true) && Activated(sc) != [])
  }

  /** The phase of the unit of work and the log tell the same story. */
  ghost predicate PhaseFacts(sc: Script, r: Report) {
    && r.unit.Some? && (r.unit.value.phase.Committed? <==> ReportsCommit(r.log))
    && (ReportsCommit(r.log) ==> U.Landed in r.unit.value.handles && (r.panicked <==> PanicsAfterCommit(sc)))
    && (ReportsCommit(r.log) && !r.panicked ==>
           r.answer.Succeeded? && r.log == [CommitReturned(U.Done)] + Hooked(sc) + Activated(sc))
    && (!ReportsCommit(r.log) ==> r.answer.Failed?) && (r.panicked ==> r.answer.Failed?)
  }

  lemma AfterCommitPhase(sc: Script, unit: U.State)
    requires unit.phase.Committed? && U.Landed in unit.handles
    ensures PhaseFacts(sc, AfterCommit(sc, unit, [CommitReturned(U.Done)]))
  {
    var log := [CommitReturned(U.Done)];
    assert (log + Hooked(sc))[0] == log[0] && (log + Hooked(sc) + Activated(sc))[0] == log[0];
  }

  lemma FailOwnedPhase(sc: Script, unit: U.State, e: Effect, fault: Fault)
    requires e != CommitReturned(U.Done) && !unit.phase.Committed?
    ensures PhaseFacts(sc, FailOwned(unit, [e], fault, sc.recording))
  {
  }

  lemma FinishPhase(sc: Script, unit: U.State)
    requires U.Invariant(unit) && !unit.phase.Committed?
    ensures PhaseFacts(sc, Finish(sc, unit))
  {
    var reply := U.CommitReply(unit, sc.commitBegin, sc.commitAnswer);
    var after := U.Run(unit, U.CommitSteps(unit, sc.commitBegin, sc.commitAnswer));
    if reply.Done? {
      CommitDoneLands(unit, sc.commitBegin, sc.commitAnswer);
      AfterCommitPhase(sc, after);
    } else {
      CommitNotDone(unit, sc.commitBegin, sc.commitAnswer);
      FailOwnedPhase(sc, after, CommitReturned(reply), FaultOf(reply));
    }
  }

  lemma AbortPhase(sc: Script, unit: U.State, fault: Fault, auditPanics: bool)
    requires !unit.phase.Committed?
    ensures PhaseFacts(sc, Abort(sc, unit, fault, auditPanics))
  {
    FailOwnedPhase(sc, RolledBackUnit(unit), RolledBack, fault);
  }

  lemma OwnedPhase(sc: Script, unit: U.State)
    requires U.Invariant(unit) && !unit.phase.Committed?
    ensures PhaseFacts(sc, Owned(sc, unit))
  {
    var fault, auditPanics := OwnedCases(sc, unit);
    AbortPhase(sc, unit, fault, auditPanics);
    FinishPhase(sc, unit);
  }

  lemma RecoverPhase(sc: Script, r: Report)
    requires r.unit.Some? && r.panicked
    ensures var t := Recover(sc, r);
            && t.unit == Some(RolledBackUnit(r.unit.value))
               && (t.unit.value.phase.Committed? <==> r.unit.value.phase.Committed?)
            && (ReportsCommit(t.log) <==> ReportsCommit(r.log)) && t.answer.Failed? && t.panicked
  {
  }

  lemma InvokedPhase(sc: Script)
    requires HandlerSteps(sc.steps) && Invoked(sc).unit.Some?
    ensures PhaseFacts(sc, Body(sc))
    ensures Invoked(sc).panicked == Body(sc).panicked
            && (ReportsCommit(Invoked(sc).log) <==> ReportsCommit(Body(sc).log))
    ensures Invoked(sc).unit.value.phase.Committed? <==> Body(sc).unit.value.phase.Committed?
    ensures Invoked(sc).answer.Failed? <==> Body(sc).answer.Failed?
  {
    HandlerNeverCommits(sc.steps);
    U.InvariantAlways(sc.steps);
    OwnedPhase(sc, U.Run(U.INITIAL, sc.steps));
    if Body(sc).panicked {
      RecoverPhase(sc, Body(sc));
    }
  }

  /** Success without replay means that the commit reported success and the data landed, that the hook ran
      after it, and that the workflows activated are exactly the starts of the commits, in order. */
  lemma SuccessMeansCommitted(sc: Script)
    requires HandlerSteps(sc.steps) && Invoked(sc).answer.Succeeded?
    ensures var r := Invoked(sc);
            && r.unit.Some? && r.unit.value.phase.Committed? && U.Landed in r.unit.value.handles && !r.panicked
            && r.log == [CommitReturned(U.Done)] + Hooked(sc) + Activated(sc)
  {
    BodyHolds(sc);
    InvokedPhase(sc);
  }

  /** The invocation gets as far as the commit. */
  predicate Reached(sc: Script) {
    && sc.preClaim.Passes? && sc.claim.Claimed? && sc.execution.Passes? && sc.concurrency.Passes?
       && sc.projection.Passes?
    && sc.receiptValid && !sc.injectedFailure && !sc.successAuditPanics
  }

  /** The commit it tries reports success. */
  predicate Commits(sc: Script) {
    Reached(sc) && U.CommitReply(U.Run(U.INITIAL, sc.steps), sc.commitBegin, sc.commitAnswer).Done?
  }

  lemma AbortTriesNothing(sc: Script, unit: U.State, fault: Fault, auditPanics: bool)
    ensures !CommitTried(Abort(sc, unit, fault, auditPanics).log)
  {
  }

  lemma OwnedReached(sc: Script, unit: U.State)
    requires sc.preClaim.Passes? && sc.claim.Claimed?
    ensures Reached(sc) ==> Owned(sc, unit) == Finish(sc, unit)
    ensures !Reached(sc) ==> !CommitTried(Owned(sc, unit).log)
  {
    if !Reached(sc) {
      if sc.execution.Errs? {
        AbortTriesNothing(sc, unit, sc.execution.fault, sc.failureAuditPanics);
      } else if sc.concurrency.Errs? {
        AbortTriesNothing(sc, unit, sc.concurrency.fault, sc.failureAuditPanics);
      } else if sc.projection.Errs? {
        AbortTriesNothing(sc, unit, sc.projection.fault, false);
      } else {
        AbortTriesNothing(sc, unit, if sc.receiptValid then INJECTED else RESULT_INVALID, false);
      }
    }
  }

  lemma ReachedExactly(sc: Script)
    ensures CommitTried(Body(sc).log) <==> Reached(sc)
    ensures Reached(sc) ==> Body(sc) == Finish(sc, U.Run(U.INITIAL, sc.steps))
    ensures ReportsCommit(Body(sc).log) <==> Commits(sc)
  {
    var unit := U.Run(U.INITIAL, sc.steps);
    if sc.preClaim.Passes? && sc.claim.Claimed? {
      assert Body(sc) == Owned(sc, unit);
      OwnedReached(sc, unit);
      FinishReply(sc, unit);
    } else {
      assert Body(sc).log == [];
    }
  }

  lemma FinishReply(sc: Script, unit: U.State)
    ensures Finish(sc, unit).log != []
            && Finish(sc, unit).log[0] == CommitReturned(U.CommitReply(unit, sc.commitBegin, sc.commitAnswer))
  {
    var log := [CommitReturned(U.CommitReply(unit, sc.commitBegin, sc.commitAnswer))];
    assert (log + Hooked(sc))[0] == log[0] && (log + Hooked(sc) + Activated(sc))[0] == log[0];
  }

  /** An invocation succeeds exactly when it reaches a commit that reports success and neither the hook nor
      the activation of workflows panics after it. */
  lemma SucceedsExactly(sc: Script)
    requires HandlerSteps(sc.steps)
    ensures Invoked(sc).answer.Succeeded? <==> Commits(sc) && !PanicsAfterCommit(sc)
  {
    BodyHolds(sc);
    ReachedExactly(sc);
    if Body(sc).panicked {
      RecoverFacts(sc, Body(sc));
    }
    if Invoked(sc).unit.Some? {
      InvokedPhase(sc);
    }
  }

  /** Data may be committed although the answer is an error: exactly when the commit reports success and the
      hook or the activation of workflows panics after it. */
  lemma CommittedYetFailedExactly(sc: Script)
    requires HandlerSteps(sc.steps)
    ensures Invoked(sc).answer.Failed? && Invoked(sc).unit.Some? && Invoked(sc).unit.value.phase.Committed? <==>
            Commits(sc) && PanicsAfterCommit(sc)
  {
    BodyHolds(sc);
    ReachedExactly(sc);
    if Body(sc).panicked {
      RecoverFacts(sc, Body(sc));
    }
    if Invoked(sc).unit.Some? {
      InvokedPhase(sc);
    }
  }

  lemma {:induction false} HandlerNeverCommits(steps: seq<U.Step>)
    requires HandlerSteps(steps)
    ensures !U.Run(U.INITIAL, steps).phase.Committed? && U.Landed !in U.Run(U.INITIAL, steps).handles
    decreases |steps|
  {
    if steps != [] {
      var n := |steps| - 1;
      HandlerNeverCommits(steps[..n]);
      HandlerStepLandsNothing(U.Run(U.INITIAL, steps[..n]), steps[n]);
    }
  }

  lemma HandlerStepLandsNothing(s: U.State, e: U.Step)
    requires !e.CommitLocked? && !e.RollBack? && !s.phase.Committed? && U.Landed !in s.handles
    ensures !U.Apply(s, e).0.phase.Committed? && U.Landed !in U.Apply(s, e).0.handles
  {
  }

  // ---------------------------------------------------------------- what a failure leaves behind

  /** The unit of work as the locked part of `commit` finds it. */
  function BeforeLock(unit: U.State, beginOk: bool): U.State {
    if unit.transaction.Some? then unit else U.DoBeginWriting(unit, beginOk).0
  }

  lemma OpenIsCurrent(unit: U.State)
    requires U.Invariant(unit)
    ensures U.Open in unit.handles <==> U.CurrentOpen(unit)
  {
  }

  lemma CommitLeavesOpenExactly(unit: U.State, beginOk: bool, answer: U.CommitAnswer)
    requires U.Invariant(unit)
    ensures U.Open in U.Run(unit, U.CommitSteps(unit, beginOk, answer)).handles <==>
                answer.Refused? && U.CurrentOpen(BeforeLock(unit, beginOk))
  {
    U.RunOneTwo(unit, U.BeginWriting(beginOk), U.CommitLocked(answer));
    U.RunOneTwo(unit, U.CommitLocked(answer), U.CommitLocked(answer));
    var begun := BeforeLock(unit, beginOk);
    if unit.transaction.None? {
      U.InvariantStep(unit, U.BeginWriting(beginOk));
    }
    OpenIsCurrent(begun);
    U.InvariantStep(begun, U.CommitLocked(answer));
    OpenIsCurrent(U.DoCommitLocked(begun, answer).0);
  }

  lemma RollBackLeavesNoneOpen(unit: U.State)
    requires U.Invariant(unit)
    ensures U.Open !in RolledBackUnit(unit).handles && U.Invariant(RolledBackUnit(unit))
  {
    U.InvariantStep(unit, U.RollBack);
    OpenIsCurrent(RolledBackUnit(unit));
  }

  ghost predicate CommitTried(log: seq<Effect>) { log != [] && log[0].CommitReturned? }

  /** Unless it panicked, the body leaves a handle open exactly when it tried a commit that was refused. */
  ghost predicate OpenOnlyIf(r: Report, refused: bool) {
    && r.unit.Some? && U.Invariant(r.unit.value)
    && (!r.panicked ==> (U.Open in r.unit.value.handles <==> CommitTried(r.log) && refused))
  }

  lemma CommitKeepsInvariant(unit: U.State, beginOk: bool, answer: U.CommitAnswer)
    requires U.Invariant(unit)
    ensures U.Invariant(U.Run(unit, U.CommitSteps(unit, beginOk, answer)))
  {
    U.RunOneTwo(unit, U.BeginWriting(beginOk), U.CommitLocked(answer));
    U.RunOneTwo(unit, U.CommitLocked(answer), U.CommitLocked(answer));
    U.InvariantStep(unit, U.BeginWriting(beginOk));
    U.InvariantStep(unit, U.CommitLocked(answer));
    U.InvariantStep(U.DoBeginWriting(unit, beginOk).0, U.CommitLocked(answer));
  }

  lemma FinishUnit(sc: Script, unit: U.State)
    ensures Finish(sc, unit).unit == Some(U.Run(unit, U.CommitSteps(unit, sc.commitBegin, sc.commitAnswer)))
    ensures CommitTried(Finish(sc, unit).log)
  {
    var log := [CommitReturned(U.CommitReply(unit, sc.commitBegin, sc.commitAnswer))];
    assert (log + Hooked(sc))[0] == log[0] && (log + Hooked(sc) + Activated(sc))[0] == log[0];
  }

  lemma FinishOpen(sc: Script, unit: U.State)
    requires U.Invariant(unit)
    ensures OpenOnlyIf(Finish(sc, unit), sc.commitAnswer.Refused? && U.CurrentOpen(BeforeLock(unit, sc.commitBegin)))
  {
    assert U.Invariant(U.Run(unit, U.CommitSteps(unit, sc.commitBegin, sc.commitAnswer))) by {
      CommitKeepsInvariant(unit, sc.commitBegin, sc.commitAnswer);
    }
    CommitLeavesOpenExactly(unit, sc.commitBegin, sc.commitAnswer);
    FinishUnit(sc, unit);
  }

  lemma AbortOpen(sc: Script, unit: U.State, fault: Fault, auditPanics: bool, refused: bool)
    requires U.Invariant(unit)
    ensures OpenOnlyIf(Abort(sc, unit, fault, auditPanics), refused)
  {
    RollBackLeavesNoneOpen(unit);
  }

  lemma OwnedOpen(sc: Script, unit: U.State, refused: bool)
    requires U.Invariant(unit) && OpenOnlyIf(Finish(sc, unit), refused)
    ensures OpenOnlyIf(Owned(sc, unit), refused)
  {
    var fault, auditPanics := OwnedCases(sc, unit);
    AbortOpen(sc, unit, fault, auditPanics, refused);
  }

  lemma RecoverOpen(sc: Script, r: Report)
    requires r.panicked && r.unit.Some? && U.Invariant(r.unit.value)
    ensures Recover(sc, r).panicked && Recover(sc, r).unit.Some? && U.Open !in Recover(sc, r).unit.value.handles
  {
    RollBackLeavesNoneOpen(r.unit.value);
  }

  lemma FinishRefused(sc: Script, unit: U.State)
    requires sc.commitAnswer.Refused? && U.CurrentOpen(BeforeLock(unit, sc.commitBegin)) && U.Invariant(unit)
    ensures Finish(sc, unit).panicked <==> sc.recording.Panics?
  {
    if unit.transaction.None? {
      U.InvariantStep(unit, U.BeginWriting(sc.commitBegin));
    }
  }

  /** The store refuses the commit before it touches the handle that is open then. */
  predicate RefusesOpen(sc: Script) {
    sc.commitAnswer.Refused? && U.CurrentOpen(BeforeLock(U.Run(U.INITIAL, sc.steps), sc.commitBegin))
  }

  lemma BodyOpen(sc: Script)
    ensures Body(sc).unit.Some? ==> OpenOnlyIf(Body(sc), RefusesOpen(sc))
    ensures Reached(sc) && RefusesOpen(sc) ==> (Body(sc).panicked <==> sc.recording.Panics?)
  {
    var unit := U.Run(U.INITIAL, sc.steps);
    U.InvariantAlways(sc.steps);
    FinishOpen(sc, unit);
    OwnedOpen(sc, unit, RefusesOpen(sc));
    if RefusesOpen(sc) {
      FinishRefused(sc, unit);
    }
  }

  /** No failure, panic or success leaves a physical transaction open, except a commit that the store refused
      before touching the open handle: the commit error path alone does not roll back. A panic while recording
      that failure does. */
  lemma TransactionsClosedExactly(sc: Script)
    ensures Invoked(sc).unit.Some? && U.Open in Invoked(sc).unit.value.handles <==>
            Reached(sc) && RefusesOpen(sc) && !sc.recording.Panics?
  {
    BodyOpen(sc);
    ReachedExactly(sc);
    if Body(sc).panicked && Body(sc).unit.Some? {
      RecoverOpen(sc, Body(sc));
    }
  }

  // ---------------------------------------------------------------- whose error the caller gets

  /** The stages of an invocation, in order. A failure audit that panics turns the error it reports into a
      panic. */
  datatype Stage =
    | PreClaim | Claiming | Execution | Concurrency | Projection | Receipt | Injection | SuccessAudit
    | Committing | Following

  const STAGES: seq<Stage> := [PreClaim, Claiming, Execution, Concurrency, Projection, Receipt, Injection,
                               SuccessAudit, Committing, Following]

  function Audited(v: Verdict, auditPanics: bool): Verdict { if v.Errs? && auditPanics then Panics else v }

  /** What the commit says, by the state the handler left and the store's answer: there must be an open
      transaction, or none yet in a unit that has not ended and a store that opens one. */
  function CommitVerdict(unit: U.State, beginOk: bool, answer: U.CommitAnswer): Verdict {
    var opens := if unit.transaction.Some? then U.CurrentOpen(unit) else beginOk && !U.Terminal(unit.phase);
    if unit.active == 0 && opens && answer.Unknown? then Errs(CommitUnknownFault)
    else if unit.active == 0 && opens && answer.Accepted? && !U.Terminal(unit.phase) then Passes
    else Errs(COMMIT_REFUSED)
  }

  function At(sc: Script, stage: Stage): Verdict {
    match stage
    case PreClaim => sc.preClaim
    case Claiming =>
      if sc.claim.ClaimErrs? then Errs(sc.claim.fault) else if sc.claim.ClaimPanics? then Panics else Passes
    case Execution => Audited(sc.execution, sc.failureAuditPanics)
    case Concurrency => Audited(sc.concurrency, sc.failureAuditPanics)
    case Projection => sc.projection
    case Receipt => if sc.receiptValid then Passes else Errs(RESULT_INVALID)
    case Injection => if sc.injectedFailure then Errs(INJECTED) else Passes
    case SuccessAudit => if sc.successAuditPanics then Panics else Passes
    case Committing => CommitVerdict(U.Run(U.INITIAL, sc.steps), sc.commitBegin, sc.commitAnswer)
    case Following =>
      if sc.hook == Some(true) || (sc.activator == Some(true) && AllStarts(sc.commits) != []) then Panics else Passes
  }

  /** The invocation stops at the k-th stage: that one does not pass and all before it do. */
  ghost predicate StopsAt(sc: Script, k: nat) {
    && k < |STAGES| && !At(sc, STAGES[k]).Passes?
    && (forall i :: 0 <= i < k ==> At(sc, STAGES[i]).Passes?)
    && !(k > 1 && sc.claim.Replay?)
  }

  predicate Replays(sc: Script) { sc.preClaim.Passes? && sc.claim.Replay? }

  /** What is already done when a stage speaks. */
  function SoFar(sc: Script, stage: Stage): seq<Effect> {
    if stage.Following? then
      [CommitReturned(U.Done)] + Hooked(sc) + if sc.hook == Some(true) then [] else Activated(sc)
    else if stage.Committing? then
      [CommitReturned(U.CommitReply(U.Run(U.INITIAL, sc.steps), sc.commitBegin, sc.commitAnswer))]
    else if At(sc, stage).Errs? then [RolledBack]
    else if (stage.Execution? && sc.execution.Errs?) || (stage.Concurrency? && sc.concurrency.Errs?) then [RolledBack]
    else []
  }

  const RECOVERED: seq<Effect> := [RolledBack, FailRecorded(HANDLER_PANICKED)]

  function RecoveryAnswer(sc: Script): Fault {
    if sc.recoveryFault.Some? then sc.recoveryFault.value else HANDLER_PANICKED
  }

  /** The error the caller gets when stage `k` stops the invocation. Before the claim it is the stage's own, or
      "panicked". After it, the stage's own is recorded first and the error of recording replaces it, except
      that an unknown commit is neither recorded nor replaced; a panic is answered by the recovery. */
  function FaultTold(sc: Script, stage: Stage): Fault {
    var v := At(sc, stage);
    if stage.PreClaim? || stage.Claiming? then if v.Errs? then v.fault else HANDLER_PANICKED
    else if v.Errs? && v.fault.CommitUnknownFault? then CommitUnknownFault
    else if v.Errs? && sc.recording.Passes? then v.fault
    else if v.Errs? && sc.recording.Errs? then sc.recording.fault
    else RecoveryAnswer(sc)
  }

  /** Everything that happened by then. */
  function Happened(sc: Script, stage: Stage): seq<Effect> {
    var v := At(sc, stage);
    if stage.PreClaim? || stage.Claiming? then []
    else if v.Errs? && v.fault.CommitUnknownFault? then SoFar(sc, stage)
    else if v.Errs? then
      SoFar(sc, stage) + [FailRecorded(v.fault)] + if sc.recording.Panics? then RECOVERED else []
    else SoFar(sc, stage) + RECOVERED
  }

  ghost predicate Ended(sc: Script, stage: Stage) {
    Invoked(sc).answer == Failed(FaultTold(sc, stage)) && Invoked(sc).log == Happened(sc, stage)
  }

  lemma CommitVerdictExactly(unit: U.State, beginOk: bool, answer: U.CommitAnswer)
    requires U.Invariant(unit)
    ensures var reply := U.CommitReply(unit, beginOk, answer);
            CommitVerdict(unit, beginOk, answer) == if reply.Done? then Passes else Errs(FaultOf(reply))
  {
    U.CommitExactly(unit, beginOk, answer);
  }

  /** What the recovery makes of a report that failed after the claim, panicked or not. */
  lemma FailOwnedEnds(sc: Script, unit: U.State, log: seq<Effect>, fault: Fault)
    requires Body(sc) == FailOwned(unit, log, fault, sc.recording)
    ensures Invoked(sc).answer ==
            Failed(if fault.CommitUnknownFault? then CommitUnknownFault
                   else if sc.recording.Passes? then fault
                   else if sc.recording.Errs? then sc.recording.fault
                   else RecoveryAnswer(sc))
    ensures Invoked(sc).log ==
            (if fault.CommitUnknownFault? then log
             else log + [FailRecorded(fault)] + if sc.recording.Panics? then RECOVERED else [])
  {
    var recorded := log + [FailRecorded(fault)];
    assert recorded + [RolledBack] + [FailRecorded(HANDLER_PANICKED)] == recorded + RECOVERED;
    assert recorded + [] == recorded;
  }

  lemma PanickedEnds(sc: Script, unit: U.State, log: seq<Effect>)
    requires Body(sc) == Panicked(Some(unit), log)
    ensures Invoked(sc).answer == Failed(RecoveryAnswer(sc)) && Invoked(sc).log == log + RECOVERED
  {
    assert log + [RolledBack] + [FailRecorded(HANDLER_PANICKED)] == log + RECOVERED;
  }

  lemma StagePassed(sc: Script, k: nat, i: nat)
    requires StopsAt(sc, k) && i < k
    ensures At(sc, STAGES[i]).Passes?
  {
  }

  lemma StoppedEarly(sc: Script, k: nat)
    requires StopsAt(sc, k) && k < 2
    ensures Ended(sc, STAGES[k])
  {
    if k == 1 {
      StagePassed(sc, k, 0);
    }
  }

  lemma StoppedExecuting(sc: Script, k: nat)
    requires StopsAt(sc, k) && 2 <= k < 4
    ensures Ended(sc, STAGES[k])
  {
    StagePassed(sc, k, 0);
    StagePassed(sc, k, 1);
    if k == 3 {
      StagePassed(sc, k, 2);
    }
    var unit := U.Run(U.INITIAL, sc.steps);
    var v := if k == 2 then sc.execution else sc.concurrency;
    assert Body(sc) == Owned(sc, unit);
    if v.Panics? {
      PanickedEnds(sc, unit, []);
    } else if sc.failureAuditPanics {
      PanickedEnds(sc, RolledBackUnit(unit), [RolledBack]);
    } else {
      FailOwnedEnds(sc, RolledBackUnit(unit), [RolledBack], v.fault);
    }
  }

  lemma ExecutionPassed(sc: Script, k: nat)
    requires StopsAt(sc, k) && k >= 4
    ensures sc.preClaim.Passes? && sc.claim.Claimed? && sc.execution.Passes? && sc.concurrency.Passes?
    ensures Body(sc) == Owned(sc, U.Run(U.INITIAL, sc.steps))
  {
    StagePassed(sc, k, 0);
    StagePassed(sc, k, 1);
    StagePassed(sc, k, 2);
    StagePassed(sc, k, 3);
  }

  lemma StoppedProjecting(sc: Script, k: nat)
    requires StopsAt(sc, k) && 4 <= k < 8
    ensures Ended(sc, STAGES[k])
  {
    ExecutionPassed(sc, k);
    assert k > 4 ==> sc.projection.Passes? by { if k > 4 { StagePassed(sc, k, 4); } }
    assert k > 5 ==> sc.receiptValid by { if k > 5 { StagePassed(sc, k, 5); } }
    assert k > 6 ==> !sc.injectedFailure by { if k > 6 { StagePassed(sc, k, 6); } }
    var unit, v := U.Run(U.INITIAL, sc.steps), At(sc, STAGES[k]);
    if v.Panics? {
      PanickedEnds(sc, unit, []);
    } else {
      FailOwnedEnds(sc, RolledBackUnit(unit), [RolledBack], v.fault);
    }
  }

  lemma ReachedCommit(sc: Script, k: nat)
    requires StopsAt(sc, k) && k >= 8
    ensures Reached(sc)
  {
    ExecutionPassed(sc, k);
    StagePassed(sc, k, 4);
    StagePassed(sc, k, 5);
    StagePassed(sc, k, 6);
    StagePassed(sc, k, 7);
  }

  lemma StoppedCommitting(sc: Script, k: nat)
    requires StopsAt(sc, k) && k >= 8
    ensures Ended(sc, STAGES[k])
  {
    ReachedCommit(sc, k);
    ReachedExactly(sc);
    var unit := U.Run(U.INITIAL, sc.steps);
    var after := U.Run(unit, U.CommitSteps(unit, sc.commitBegin, sc.commitAnswer));
    var reply := U.CommitReply(unit, sc.commitBegin, sc.commitAnswer);
    U.InvariantAlways(sc.steps);
    CommitVerdictExactly(unit, sc.commitBegin, sc.commitAnswer);
    if k == 8 {
      FailOwnedEnds(sc, after, [CommitReturned(reply)], FaultOf(reply));
    } else {
      StagePassed(sc, k, 8);
      var log := [CommitReturned(U.Done)] + Hooked(sc);
      assert log + [] == log;
      PanickedEnds(sc, after, SoFar(sc, Following));
    }
  }

  /** The exact answer and the exact log of an invocation that is stopped, whichever stage stops it. */
  lemma StoppedExactly(sc: Script, k: nat)
    requires StopsAt(sc, k)
    ensures Ended(sc, STAGES[k])
  {
    if k < 2 {
      StoppedEarly(sc, k);
    } else if k < 4 {
      StoppedExecuting(sc, k);
    } else if k < 8 {
      StoppedProjecting(sc, k);
    } else {
      StoppedCommitting(sc, k);
    }
  }

  /** Nothing stops an invocation exactly when it replays or every stage passes. */
  lemma {:induction false} FirstStop(sc: Script, k: nat) returns (stop: nat)
    requires k <= |STAGES| && (forall i :: 0 <= i < k ==> At(sc, STAGES[i]).Passes?) && !Replays(sc)
    requires k > 1 ==> !sc.claim.Replay?
    ensures StopsAt(sc, stop) || (forall i :: 0 <= i < |STAGES| ==> At(sc, STAGES[i]).Passes?)
    decreases |STAGES| - k
  {
    stop := k;
    if k < |STAGES| && At(sc, STAGES[k]).Passes? {
      assert STAGES[0].PreClaim? && At(sc, STAGES[0]).Passes?;
      stop := FirstStop(sc, k + 1);
    }
  }

  /** Every invocation: a replay is answered exactly when the claim finds one, and then nothing else is done;
      success is answered exactly when every stage passes, and then the log is the commit, the hook and the
      activation; otherwise some first stage stops it, and `StoppedExactly` says what the caller is told. */
  lemma AnsweredExactly(sc: Script) returns (stop: nat)
    ensures Invoked(sc).answer.Replayed? <==> Replays(sc)
    ensures Replays(sc) ==> Invoked(sc).log == [] && Invoked(sc).unit.None?
    ensures Invoked(sc).answer.Succeeded? <==>
            !Replays(sc) && forall i :: 0 <= i < |STAGES| ==> At(sc, STAGES[i]).Passes?
    ensures Invoked(sc).answer.Succeeded? ==>
              Invoked(sc).log ==
                [CommitReturned(U.Done)]
                + (if sc.hook.Some? then [HookRan] else [])
                + (if sc.activator.Some? && AllStarts(sc.commits) != [] then
                     [WorkflowsActivated(AllStarts(sc.commits))] else [])
    ensures Invoked(sc).answer.Failed? <==> StopsAt(sc, stop)
    ensures Invoked(sc).answer.Failed? ==> Ended(sc, STAGES[stop])
  {
    stop := |STAGES|;
    if !Replays(sc) {
      stop := FirstStop(sc, 0);
      if StopsAt(sc, stop) {
        StoppedExactly(sc, stop);
      } else {
        AllPassed(sc);
      }
    }
  }

  lemma Passed(sc: Script, stage: Stage)
    requires forall i :: 0 <= i < |STAGES| ==> At(sc, STAGES[i]).Passes?
    ensures At(sc, stage).Passes?
  {
    assert STAGES[0].PreClaim? && STAGES[1].Claiming? && STAGES[2].Execution? && STAGES[3].Concurrency?;
    assert STAGES[4].Projection? && STAGES[5].Receipt? && STAGES[6].Injection? && STAGES[7].SuccessAudit?;
    assert STAGES[8].Committing? && STAGES[9].Following?;
  }

  lemma AllPassed(sc: Script)
    requires !Replays(sc) && forall i :: 0 <= i < |STAGES| ==> At(sc, STAGES[i]).Passes?
    ensures Invoked(sc).answer.Succeeded?
    ensures Invoked(sc).log == [CommitReturned(U.Done)] + Hooked(sc) + Activated(sc)
  {
    var unit := U.Run(U.INITIAL, sc.steps);
    assert Reached(sc) by {
      Passed(sc, PreClaim);
      Passed(sc, Claiming);
      Passed(sc, Execution);
      Passed(sc, Concurrency);
      Passed(sc, Projection);
      Passed(sc, Receipt);
      Passed(sc, Injection);
      Passed(sc, SuccessAudit);
    }
    assert Body(sc) == Finish(sc, unit) by { ReachedExactly(sc); }
    assert U.CommitReply(unit, sc.commitBegin, sc.commitAnswer).Done? by {
      Passed(sc, Committing);
      U.InvariantAlways(sc.steps);
      CommitVerdictExactly(unit, sc.commitBegin, sc.commitAnswer);
    }
    assert !PanicsAfterCommit(sc) by { Passed(sc, Following); }
  }

  /** An invocation stopped after the claim and before the commit leaves its unit of work rolled back, with
      nothing landed and nothing open. */
  lemma StoppedRolledBack(sc: Script, k: nat)
    requires HandlerSteps(sc.steps) && StopsAt(sc, k) && 2 <= k < 8
    ensures var unit := Invoked(sc).unit;
            && unit.Some? && unit.value.phase.RolledBack?
            && U.Landed !in unit.value.handles && U.Open !in unit.value.handles
  {
    var unit := U.Run(U.INITIAL, sc.steps);
    HandlerNeverCommits(sc.steps);
    U.InvariantAlways(sc.steps);
    StagePassed(sc, k, 0);
    StagePassed(sc, k, 1);
    assert Body(sc) == Owned(sc, unit);
    NotReached(sc, k);
    OwnedReached(sc, unit);
    FinishUnit(sc, unit);
    var fault, auditPanics := OwnedCases(sc, unit);
    RolledBackTwice(unit);
  }

  lemma NotReached(sc: Script, k: nat)
    requires StopsAt(sc, k) && k < 8
    ensures !Reached(sc)
  {
    var v := At(sc, STAGES[k]);
  }

  lemma RolledBackTwice(unit: U.State)
    requires U.Invariant(unit) && !unit.phase.Committed? && U.Landed !in unit.handles
    ensures forall r :: r == RolledBackUnit(unit) || r == RolledBackUnit(RolledBackUnit(unit)) ==>
              r.phase.RolledBack? && U.Landed !in r.handles && U.Open !in r.handles
  {
    RollBackLeavesNoneOpen(unit);
    RollBackLeavesNoneOpen(RolledBackUnit(unit));
  }

  /** Everything passes: a handler that begins to write, and a store that accepts. */
  const SMOOTH: Script :=
    Script(Passes, Claimed, [U.BeginWriting(true)], Passes, [], Passes, Passes, true, false, false, false,
           true, U.Accepted, None, None, Passes, None)

  lemma SmoothUnit()
    ensures U.Run(U.INITIAL, SMOOTH.steps) == U.State(U.Writing, Some(0), [U.Open], 0, [])
  {
    U.RunOneTwo(U.INITIAL, U.BeginWriting(true), U.RollBack);
  }

  /** A store that refuses the commit leaves the transaction open behind an error. */
  lemma RefusedLeavesOpen()
    ensures var r := Invoked(SMOOTH.(commitAnswer := U.Refused));
            r.answer == Failed(COMMIT_REFUSED) && r.unit.Some? && U.Open in r.unit.value.handles
  {
    var sc := SMOOTH.(commitAnswer := U.Refused);
    SmoothUnit();
    TransactionsClosedExactly(sc);
    ReachedExactly(sc);
  }

  /** A hook that panics turns committed data into an error. */
  lemma PanickingHookFailsCommitted()
    ensures var r := Invoked(SMOOTH.(hook := Some(true)));
            r.answer == Failed(HANDLER_PANICKED) && r.unit.Some? && r.unit.value.phase.Committed?
  {
    var sc := SMOOTH.(hook := Some(true));
    SmoothUnit();
    CommittedYetFailedExactly(sc);
  }

  // ---------------------------------------------------------------- the service

  /** The loops of `executeCommittedWorkflowStarts`. */
  method CollectStarts(commits: seq<C.Commit>) returns (starts: seq<C.WorkflowStart>)
    ensures starts == AllStarts(commits)
  {
    starts := [];
    for i := 0 to |commits|
      invariant starts == C.Gather(commits[..i], C.StartsOf)
    {
      var own := commits[i].workflowStarts;
      ghost var before := starts;
      for j := 0 to |own|
        invariant starts == before + own[..j]
      {
        C.AppendNext(before, own, j);
        starts := starts + [own[j]];
      }
      assert own[..|own|] == own;
      C.GatherLast(commits[..i], commits[i], C.StartsOf);
      assert commits[..i + 1] == commits[..i] + [commits[i]];
    }
    assert commits[..|commits|] == commits;
  }

  /** One thing a handler does with its unit of work. */
  method HandlerStep(u: U.ActionUnitOfWork, e: U.Step, leases: seq<U.ConnectorCallLease>)
      returns (held: seq<U.ConnectorCallLease>)
    requires u.Valid() && u.leases == leases && !e.CommitLocked? && !e.RollBack?
    modifies u, u.phases, leases
    ensures u.Valid() && u.leases == held && u.Abs() == U.Apply(old(u.Abs()), e).0
    ensures |held| >= |leases| && held[..|leases|] == leases && forall k :: |leases| <= k < |held| ==> fresh(held[k])
  {
    held := leases;
    match e {
      case Acquire =>
        held := AcquireHeld(u, leases);
      case Release(k) =>
        if k < |leases| {
          ReleaseHeld(u, k, leases);
        }
      case BeginWriting(ok) => var _ := u.BeginWriting(ok);
      case BeginDeferredWriting => var _ := u.BeginDeferredWriting();
    }
  }

  method AcquireHeld(u: U.ActionUnitOfWork, leases: seq<U.ConnectorCallLease>) returns (held: seq<U.ConnectorCallLease>)
    requires u.Valid() && u.leases == leases
    modifies u
    ensures u.Valid() && u.leases == held && u.Abs() == U.Apply(old(u.Abs()), U.Acquire).0
    ensures |held| >= |leases| && held[..|leases|] == leases && forall k :: |leases| <= k < |held| ==> fresh(held[k])
  {
    held := leases;
    var lease := u.AcquireSynchronousConnectorCall();
    if lease != null {
      held := held + [lease];
    }
  }

  method ReleaseHeld(u: U.ActionUnitOfWork, k: nat, leases: seq<U.ConnectorCallLease>)
    requires u.Valid() && u.leases == leases && k < |leases|
    modifies leases[k], u`active
    ensures u.Valid() && u.leases == leases && u.Abs() == U.DoRelease(old(u.Abs()), k)
  {
    var lease := leases[k];
    assert lease.unitOfWork == u && lease.index == k;
    lease.Release();
  }

  /** A handler at work on its unit of work, lease by lease and write by write. */
  method RunHandler(u: U.ActionUnitOfWork, steps: seq<U.Step>)
    requires u.Valid() && u.Abs() == U.INITIAL && u.leases == [] && HandlerSteps(steps)
    modifies u, u.phases
    ensures u.Valid() && u.Abs() == U.Run(U.INITIAL, steps)
    ensures forall k :: 0 <= k < |u.leases| ==> fresh(u.leases[k])
  {
    var leases: seq<U.ConnectorCallLease> := [];
    for i := 0 to |steps|
      invariant u.Valid() && u.leases == leases && (forall k :: 0 <= k < |leases| ==> fresh(leases[k]))
      invariant u.Abs() == U.Run(U.INITIAL, steps[..i])
    {
      assert steps[..i + 1][..i] == steps[..i];
      var held := HandlerStep(u, steps[i], leases);
      assert forall k :: 0 <= k < |leases| ==> held[k] == held[..|leases|][k];
      leases := held;
    }
    assert steps[..|steps|] == steps;
  }

  ghost predicate Tells(r: Report, answer: Answer, log: seq<Effect>, panicked: bool) {
    r.answer == answer && r.log == log && r.panicked == panicked
  }

  /** `failOwnedInvocation`; recording is the unit of work's `fail`. */
  method FailOwnedInvocation(ghost unit: U.State, so: seq<Effect>, fault: Fault, recording: Verdict)
    returns (answer: Answer, log: seq<Effect>, panicked: bool)
    ensures Tells(FailOwned(unit, so, fault, recording), answer, log, panicked)
  {
    answer, log, panicked := Failed(fault), so, false;
    if fault.CommitUnknownFault? {
      return;
    }
    log := log + [FailRecorded(fault)];
    match recording {
      case Passes =>
      case Errs(g) => answer := Failed(g);
      case Panics => panicked := true;
    }
  }

  method AbortInvocation(u: U.ActionUnitOfWork, sc: Script, fault: Fault, auditPanics: bool)
    returns (answer: Answer, log: seq<Effect>, panicked: bool)
    requires u.Valid()
    modifies u, u.phases
    ensures u.Valid() && Tells(Abort(sc, old(u.Abs()), fault, auditPanics), answer, log, panicked)
    ensures Abort(sc, old(u.Abs()), fault, auditPanics).unit == Some(u.Abs())
  {
    u.RollBack();
    if auditPanics {
      return Failed(HANDLER_PANICKED), [RolledBack], true;
    }
    answer, log, panicked := FailOwnedInvocation(u.Abs(), [RolledBack], fault, sc.recording);
  }

  /** What follows a commit that reported success. */
  method FollowCommit(sc: Script, ghost unit: U.State, so: seq<Effect>)
      returns (answer: Answer, log: seq<Effect>, panicked: bool)
    ensures Tells(AfterCommit(sc, unit, so), answer, log, panicked)
  {
    log := so;
    assert so + [] == so;
    if sc.hook.Some? {
      log := log + [HookRan];
      if sc.hook.value {
        return Failed(HANDLER_PANICKED), log, true;
      }
    }
    assert log + [] == log;
    if sc.activator.Some? {
      var starts := CollectStarts(sc.commits);
      if |starts| > 0 {
        log := log + [WorkflowsActivated(starts)];
        if sc.activator.value {
          return Failed(HANDLER_PANICKED), log, true;
        }
      }
    }
    answer, panicked := Succeeded, false;
  }

  method CommitInvocation(u: U.ActionUnitOfWork, sc: Script) returns (answer: Answer, log: seq<Effect>, panicked: bool)
    requires u.Valid()
    modifies u, u.phases
    ensures u.Valid() && Tells(Finish(sc, old(u.Abs())), answer, log, panicked)
    ensures Finish(sc, old(u.Abs())).unit == Some(u.Abs())
  {
    ghost var before := u.Abs();
    FinishUnit(sc, before);
    var reply := u.Commit(sc.commitBegin, sc.commitAnswer);
    if !reply.Done? {
      answer, log, panicked := FailOwnedInvocation(u.Abs(), [CommitReturned(reply)], FaultOf(reply), sc.recording);
      return;
    }
    answer, log, panicked := FollowCommit(sc, u.Abs(), [CommitReturned(reply)]);
  }

  /** Everything after the claim. */
  method InvokeOwned(u: U.ActionUnitOfWork, sc: Script) returns (answer: Answer, log: seq<Effect>, panicked: bool)
    requires u.Valid()
    modifies u, u.phases
    ensures u.Valid() && Tells(Owned(sc, old(u.Abs())), answer, log, panicked)
    ensures Owned(sc, old(u.Abs())).unit == Some(u.Abs())
  {
    answer, log, panicked := Failed(HANDLER_PANICKED), [], true;
    if sc.execution.Panics? {
      return;
    }
    if sc.execution.Errs? {
      answer, log, panicked := AbortInvocation(u, sc, sc.execution.fault, sc.failureAuditPanics);
      return;
    }
    if sc.concurrency.Panics? {
      return;
    }
    if sc.concurrency.Errs? {
      answer, log, panicked := AbortInvocation(u, sc, sc.concurrency.fault, sc.failureAuditPanics);
      return;
    }
    if sc.projection.Panics? {
      return;
    }
    if sc.projection.Errs? {
      answer, log, panicked := AbortInvocation(u, sc, sc.projection.fault, false);
      return;
    }
    if !sc.receiptValid {
      answer, log, panicked := AbortInvocation(u, sc, RESULT_INVALID, false);
      return;
    }
    if sc.injectedFailure {
      answer, log, panicked := AbortInvocation(u, sc, INJECTED, false);
      return;
    }
    if sc.successAuditPanics {
      return;
    }
    answer, log, panicked := CommitInvocation(u, sc);
  }

  /** `Invoke`, up to its deferred recovery. */
  method InvokeBody(sc: Script, executionId: string)
    returns (answer: Answer, log: seq<Effect>, panicked: bool, unit: U.ActionUnitOfWork?)
    requires HandlerSteps(sc.steps)
    ensures Tells(Body(sc), answer, log, panicked) && (unit == null <==> Body(sc).unit.None?)
    ensures unit != null ==> fresh(unit) && fresh(unit.phases) && unit.Valid() && Body(sc).unit == Some(unit.Abs())
  {
    answer, log, panicked, unit := Failed(HANDLER_PANICKED), [], true, null;
    match sc.preClaim {
      case Panics => return;
      case Errs(fault) => return Failed(fault), [], false, null;
      case Passes =>
    }
    match sc.claim {
      case ClaimPanics => return;
      case ClaimErrs(fault) => return Failed(fault), [], false, null;
      case Replay => return Replayed, [], false, null;
      case Claimed =>
    }
    unit := new U.ActionUnitOfWork(executionId);
    RunHandler(unit, sc.steps);
    answer, log, panicked := InvokeOwned(unit, sc);
  }

  /** The deferred recovery, for an invocation that owns its unit of work. */
  method RecoverOwned(u: U.ActionUnitOfWork, sc: Script, so: seq<Effect>, ghost r: Report)
    returns (answer: Answer, log: seq<Effect>)
    requires u.Valid() && r.unit == Some(u.Abs()) && r.log == so
    modifies u, u.phases
    ensures u.Valid() && answer == Recover(sc, r).answer && log == Recover(sc, r).log
    ensures Recover(sc, r).unit == Some(u.Abs())
  {
    u.RollBack();
    var verdict := if sc.recoveryFault.Some? then Errs(sc.recoveryFault.value) else Passes;
    var panicked;
    answer, log, panicked := FailOwnedInvocation(u.Abs(), so + [RolledBack], HANDLER_PANICKED, verdict);
  }

  /** `Invoke`. */
  method Invoke(sc: Script, executionId: string)
    returns (answer: Answer, log: seq<Effect>, unit: U.ActionUnitOfWork?)
    requires HandlerSteps(sc.steps)
    ensures answer == Invoked(sc).answer && log == Invoked(sc).log && (unit == null <==> Invoked(sc).unit.None?)
    ensures unit != null ==> unit.Valid() && Invoked(sc).unit == Some(unit.Abs())
  {
    var panicked;
    answer, log, panicked, unit := InvokeBody(sc, executionId);
    if panicked {
      answer := Failed(HANDLER_PANICKED);
      if unit != null {
        answer, log := RecoverOwned(unit, sc, log, Body(sc));
      }
    }
  }
}
