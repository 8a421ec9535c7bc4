/** The unit of work behind one Action execution: its phase machine, the leases that let a handler call
    out to a connector, and the one physical transaction it may commit.

    Every mutex-held region is one step. `commit` is two of them, the lazy `beginWriting` after an
    unlocked look at `transaction` and then the locked commit, so a run is any sequence of steps: that
    covers every interleaving of every caller. */
module UnitOfWork {
  import opened Basics
  import Text

  datatype Phase = Prewrite | Writing | Committed | RolledBack

  predicate Terminal(p: Phase) { p.Committed? || p.RolledBack? }

  /** `transition`: the phase afterwards, and whether the request was accepted. */
  function Next(p: Phase, next: Phase): (Phase, bool) {
    if p == next then (p, true)
    else if p.Prewrite? || (p.Writing? && Terminal(next)) then (next, true)
    else (p, false)
  }

  /** A physical transaction: `Open` until its first rollback or commit attempt. */
  datatype Handle = Open | Landed | InDoubt | Undone

  /** What committing an open handle answers. `Failed` may come after the data landed (the receipt is
      read back after the SQL commit); `Refused` comes before the handle is touched. */
  datatype CommitAnswer = Accepted | Failed(landed: bool) | Unknown | Refused

  datatype Error =
    | WriteDuringConnectorCall | ConnectorCallAfterWrite
    | BeginFailed | PhaseInvalid | CommitFailed | CommitUnknown

  datatype Reply = Done | Granted(lease: nat) | Failure(error: Error)

  /** `leases[k]` tells whether the k-th lease ever granted has been released. */
  datatype State = State(phase: Phase, transaction: Option<nat>, handles: seq<Handle>, active: nat, leases: seq<bool>)

  datatype Step =
    | Acquire
    | Release(lease: nat)
    | BeginWriting(beginOk: bool)
    | BeginDeferredWriting
    | CommitLocked(answer: CommitAnswer)
    | RollBack

  const INITIAL: State := State(Prewrite, None, [], 0, [])

  // ---------------------------------------------------------------- the steps

  predicate CurrentOpen(s: State) {
    s.transaction.Some? && s.transaction.value < |s.handles| && s.handles[s.transaction.value].Open?
  }

  /** The current handle, if it is still open, ends as `h`. */
  function Close(s: State, h: Handle): (r: State)
    ensures !CurrentOpen(s) ==> r == s
  {
    if CurrentOpen(s) then s.(handles := s.handles[s.transaction.value := h]) else s
  }

  function DoAcquire(s: State): (State, Reply) {
    if s.transaction.Some? || !s.phase.Prewrite? then (s, Failure(ConnectorCallAfterWrite))
    else (s.(active := s.active + 1, leases := s.leases + [false]), Granted(|s.leases|))
  }

  function DoRelease(s: State, k: nat): State {
    if k < |s.leases| && !s.leases[k] then
      s.(leases := s.leases[k := true], active := if s.active > 0 then s.active - 1 else 0)
    else s
  }

  function DoBeginWriting(s: State, beginOk: bool): (State, Reply) {
    if s.active > 0 then (s, Failure(WriteDuringConnectorCall))
    else
      var (p, ok) := Next(s.phase, Writing);
      var reply := if ok then Done else Failure(PhaseInvalid);
      if s.transaction.Some? then (s.(phase := p), reply)
      else if !beginOk then (s.(phase := Next(s.phase, RolledBack).0), Failure(BeginFailed))
      else (s.(phase := p, transaction := Some(|s.handles|), handles := s.handles + [if ok then Open else Undone]),
          reply)
  }

  function DoBeginDeferredWriting(s: State): (State, Reply) {
    if s.active > 0 then (s, Failure(WriteDuringConnectorCall))
    else
      var (p, ok) := Next(s.phase, Writing);
      (s.(phase := p), if ok then Done else Failure(PhaseInvalid))
  }

  function DoCommitLocked(s: State, answer: CommitAnswer): (State, Reply) {
    if s.active > 0 then (s, Failure(WriteDuringConnectorCall))
    else
      match if CurrentOpen(s) then answer else Refused
      case Accepted =>
        var (p, ok) := Next(s.phase, Committed);
        (Close(s, Landed).(phase := p), if ok then Done else Failure(PhaseInvalid))
      case Failed(landed) =>
        (Close(s, if landed then Landed else Undone).(phase := Next(s.phase, RolledBack).0), Failure(CommitFailed))
      case Unknown => (Close(s, InDoubt), Failure(CommitUnknown))
      case Refused => (s.(phase := Next(s.phase, RolledBack).0), Failure(CommitFailed))
  }

  function DoRollBack(s: State): State {
    Close(s, Undone).(transaction := None, phase := Next(s.phase, RolledBack).0)
  }

  function Apply(s: State, e: Step): (State, Reply) {
    match e
    case Acquire => DoAcquire(s)
    case Release(k) => (DoRelease(s, k), Done)
    case BeginWriting(ok) => DoBeginWriting(s, ok)
    case BeginDeferredWriting => DoBeginDeferredWriting(s)
    case CommitLocked(answer) => DoCommitLocked(s, answer)
    case RollBack => (DoRollBack(s), Done)
  }

  function Run(s: State, steps: seq<Step>): State
    decreases |steps|
  {
    if steps == [] then s else Apply(Run(s, steps[..|steps| - 1]), steps[|steps| - 1]).0
  }

  // ---------------------------------------------------------------- what every step keeps

  function Unreleased(leases: seq<bool>): nat {
    if leases == [] then 0
    else Unreleased(leases[..|leases| - 1]) + if leases[|leases| - 1] then 0 else 1
  }

  ghost predicate Invariant(s: State) {
    // The counter counts exactly the leases not yet given back.
    && s.active == Unreleased(s.leases)
    // No write while an external call is out.
    && (s.active > 0 ==> s.transaction.None? && (s.phase.Prewrite? || s.phase.RolledBack?))
    // Nothing physical before the first write; a deferred write has nothing physical either.
    && (s.phase.Prewrite? ==> s.transaction.None? && s.handles == [])
    && (s.phase.Writing? && s.transaction.None? ==> s.handles == [])
    && (s.transaction.Some? ==> s.transaction.value < |s.handles|)
    // An open handle is always the current one, so none is forgotten.
    && (forall i :: 0 <= i < |s.handles| && s.handles[i].Open? ==>
          s.transaction == Some(i) && (s.phase.Writing? || s.phase.RolledBack?))
    // At most one handle ever lands, and none is open beside it.
    && (forall i, j :: 0 <= i < |s.handles| && 0 <= j < |s.handles| && s.handles[i].Landed? && s.handles[j].Landed? ==>
           i == j)
    && (Landed in s.handles ==> Terminal(s.phase) && Open !in s.handles)
    && (s.phase.Committed? ==> Landed in s.handles)
    // A commit in doubt ends the writing: nothing is open or landed beside it, and nothing will be opened.
    && (InDoubt in s.handles ==>
          Open !in s.handles && Landed !in s.handles && (s.transaction.Some? || s.phase.RolledBack?))
  }

  lemma {:induction false} UnreleasedUpdate(leases: seq<bool>, k: nat)
    requires k < |leases| && !leases[k]
    ensures Unreleased(leases) == Unreleased(leases[k := true]) + 1
  {
    var n := |leases| - 1;
    if k < n {
      assert leases[k := true][..n] == leases[..n][k := true];
      UnreleasedUpdate(leases[..n], k);
    } else {
      assert leases[k := true][..n] == leases[..n];
    }
  }

  lemma {:induction false} UnreleasedZero(leases: seq<bool>)
    ensures Unreleased(leases) == 0 <==> forall k :: 0 <= k < |leases| ==> leases[k]
  {
    if leases != [] {
      UnreleasedZero(leases[..|leases| - 1]);
    }
  }

  lemma InvariantAcquire(s: State)
    requires Invariant(s)
    ensures Invariant(DoAcquire(s).0)
  {
    assert (s.leases + [false])[..|s.leases|] == s.leases;
  }

  lemma InvariantRelease(s: State, k: nat)
    requires Invariant(s)
    ensures Invariant(DoRelease(s, k))
  {
    if k < |s.leases| && !s.leases[k] {
      UnreleasedUpdate(s.leases, k);
    }
  }

  lemma InvariantBegin(s: State, e: Step)
    requires Invariant(s) && (e.BeginWriting? || e.BeginDeferredWriting?)
    ensures Invariant(Apply(s, e).0)
  {
    var r := Apply(s, e).0;
    assert forall i :: 0 <= i < |s.handles| ==> r.handles[i] == s.handles[i];
  }

  lemma InvariantCommit(s: State, answer: CommitAnswer)
    requires Invariant(s)
    ensures Invariant(DoCommitLocked(s, answer).0)
  {
    var r := DoCommitLocked(s, answer).0;
    if s.active == 0 && CurrentOpen(s) && answer.Accepted? {
      assert r.handles[s.transaction.value].Landed?;
    }
  }

  lemma InvariantRollBack(s: State)
    requires Invariant(s)
    ensures Invariant(DoRollBack(s))
  {
    var r := DoRollBack(s);
    assert forall i :: 0 <= i < |s.handles| && s.handles[i].Landed? ==> r.handles[i].Landed?;
  }

  lemma InvariantStep(s: State, e: Step)
    requires Invariant(s)
    ensures Invariant(Apply(s, e).0)
  {
    match e
    case Acquire => InvariantAcquire(s);
    case Release(k) => InvariantRelease(s, k);
    case BeginWriting(_) => InvariantBegin(s, e);
    case BeginDeferredWriting => InvariantBegin(s, e);
    case CommitLocked(answer) => InvariantCommit(s, answer);
    case RollBack => InvariantRollBack(s);
  }

  /** Every reachable state satisfies the invariant, whatever the interleaving. */
  lemma {:induction false} InvariantAlways(steps: seq<Step>)
    ensures Invariant(Run(INITIAL, steps))
    decreases |steps|
  {
    if steps != [] {
      var n := |steps| - 1;
      InvariantAlways(steps[..n]);
      InvariantStep(Run(INITIAL, steps[..n]), steps[n]);
    }
  }

  lemma RunOneTwo(s: State, e: Step, f: Step)
    ensures Run(s, [e]) == Apply(s, e).0
    ensures Run(s, [e, f]) == Apply(Apply(s, e).0, f).0
  {
    assert [e][..0] == [] && [e, f][..1] == [e];
  }

  lemma {:induction false} RunPrefix(s: State, steps: seq<Step>, i: nat)
    requires i <= |steps|
    ensures Run(s, steps) == Run(Run(s, steps[..i]), steps[i..])
    decreases |steps|
  {
    var n := |steps| - 1;
    if i == |steps| {
      assert steps[..i] == steps && steps[i..] == [];
    } else {
      RunPrefix(s, steps[..n], i);
      assert steps[..n][..i] == steps[..i];
      assert steps[..n][i..] == steps[i..][..|steps| - i - 1];
      assert steps[i..][|steps| - i - 1] == steps[n];
    }
  }

  /** Phases only move forward: terminal phases absorb and Prewrite is never re-entered. */
  lemma {:induction false} PhasesMoveForward(s: State, steps: seq<Step>)
    ensures Terminal(s.phase) ==> Run(s, steps).phase == s.phase
    ensures !s.phase.Prewrite? ==> !Run(s, steps).phase.Prewrite?
    decreases |steps|
  {
    if steps != [] {
      PhasesMoveForward(s, steps[..|steps| - 1]);
    }
  }

  /** In a reachable state a lease is granted exactly when the phase is Prewrite (the transaction test
      beside it never decides), and once the phase has left Prewrite no later step of the run grants one. */
  lemma LeaseOnlyInPrewrite(steps: seq<Step>, i: nat, j: nat)
    requires i <= j <= |steps|
    ensures Apply(Run(INITIAL, steps[..j]), Acquire).1.Granted? <==> Run(INITIAL, steps[..j]).phase.Prewrite?
    ensures !Run(INITIAL, steps[..i]).phase.Prewrite? ==> !Apply(Run(INITIAL, steps[..j]), Acquire).1.Granted?
  {
    InvariantAlways(steps[..j]);
    RunPrefix(INITIAL, steps[..j], i);
    assert steps[..j][..i] == steps[..i];
    PhasesMoveForward(Run(INITIAL, steps[..i]), steps[..j][i..]);
  }

  // ---------------------------------------------------------------- commits over a whole run

  ghost predicate CommitReportsSuccess(s: State, e: Step) {
    e.CommitLocked? && Apply(s, e).1.Done?
  }

  /** A commit that reports success landed the current handle in that very step and left the phase
      Committed; it needed an open handle, an accepting store and no outstanding lease. */
  lemma SuccessfulCommitLands(s: State, answer: CommitAnswer)
    requires Invariant(s)
    ensures CommitReportsSuccess(s, CommitLocked(answer)) <==>
            s.active == 0 && CurrentOpen(s) && answer.Accepted? && s.phase.Writing?
    ensures CommitReportsSuccess(s, CommitLocked(answer)) ==>
            var r := Apply(s, CommitLocked(answer)).0;
            r.phase.Committed? && r.handles == s.handles[s.transaction.value := Landed]
  {
  }

  /** At most one commit of a run reports success, and at most one handle ever lands. */
  lemma CommitOnce(steps: seq<Step>, i: nat, j: nat)
    requires i < j < |steps|
    ensures !(CommitReportsSuccess(Run(INITIAL, steps[..i]), steps[i])
                && CommitReportsSuccess(Run(INITIAL, steps[..j]), steps[j]))
    ensures var h := Run(INITIAL, steps).handles;
            forall a, b :: 0 <= a < |h| && 0 <= b < |h| && h[a].Landed? && h[b].Landed? ==> a == b
  {
    InvariantAlways(steps);
    InvariantAlways(steps[..i]);
    InvariantAlways(steps[..j]);
    if CommitReportsSuccess(Run(INITIAL, steps[..i]), steps[i]) {
      assert steps[..i + 1][..i] == steps[..i];
      assert Run(INITIAL, steps[..i + 1]).phase.Committed?;
      RunPrefix(INITIAL, steps[..j], i + 1);
      assert steps[..j][..i + 1] == steps[..i + 1];
      PhasesMoveForward(Run(INITIAL, steps[..i + 1]), steps[..j][i + 1..]);
    }
  }

  /** The phase is not a faithful record of the store in the other direction: a store that lands the
      data and then fails to read the receipt back leaves a landed handle in a rolled back unit. */
  lemma RolledBackMayHaveLanded()
    ensures var s := Run(INITIAL, [BeginWriting(true), CommitLocked(Failed(true))]);
            s.phase.RolledBack? && s.handles == [Landed]
  {
    RunOneTwo(INITIAL, BeginWriting(true), CommitLocked(Failed(true)));
  }

  /** ... and that is the only way: a landed handle sits in a phase other than Committed exactly when
      some commit of the run found an open handle and the store either failed after landing it or
      accepted it after the phase had already been rolled back. */
  ghost predicate LandsSilently(s: State, e: Step) {
    && e.CommitLocked? && s.active == 0 && CurrentOpen(s)
    && (e.answer == Failed(true) || (e.answer.Accepted? && s.phase.RolledBack?))
  }

  ghost predicate SilentAt(steps: seq<Step>, i: nat)
    requires i < |steps|
  {
    LandsSilently(Run(INITIAL, steps[..i]), steps[i])
  }

  ghost predicate SomeSilentLanding(steps: seq<Step>) {
    exists i: nat :: i < |steps| && SilentAt(steps, i)
  }

  lemma SilentAtPrefix(steps: seq<Step>, n: nat, i: nat)
    requires i < n <= |steps|
    ensures SilentAt(steps[..n], i) == SilentAt(steps, i)
  {
    assert steps[..n][..i] == steps[..i];
  }

  lemma SilentLandingSplit(steps: seq<Step>)
    requires steps != []
    ensures var n := |steps| - 1;
            SomeSilentLanding(steps) <==> SomeSilentLanding(steps[..n]) || SilentAt(steps, n)
  {
    var n := |steps| - 1;
    forall i: nat | i < n ensures SilentAt(steps[..n], i) == SilentAt(steps, i) {
      SilentAtPrefix(steps, n, i);
    }
    if SomeSilentLanding(steps[..n]) {
      var i: nat :| i < n && SilentAt(steps[..n], i);
      assert SilentAt(steps, i);
    }
    if i: nat :| i < n && SilentAt(steps, i) {
      assert SilentAt(steps[..n], i);
    }
  }

  lemma {:induction false} LandedUnlessCommitted(steps: seq<Step>)
    ensures SomeSilentLanding(steps) <==>
            (Landed in Run(INITIAL, steps).handles && !Run(INITIAL, steps).phase.Committed?)
    decreases |steps|
  {
    if steps != [] {
      var n := |steps| - 1;
      LandedUnlessCommitted(steps[..n]);
      InvariantAlways(steps[..n]);
      SilentLandingSplit(steps);
      LandedStep(Run(INITIAL, steps[..n]), steps[n]);
    }
  }

  lemma LandedStep(s: State, e: Step)
    requires Invariant(s)
    ensures var r := Apply(s, e).0;
            (Landed in r.handles && !r.phase.Committed?) <==>
            (LandsSilently(s, e) || (Landed in s.handles && !s.phase.Committed?))
  {
    var r := Apply(s, e).0;
    if Landed in s.handles {
      var i :| 0 <= i < |s.handles| && s.handles[i].Landed?;
      assert r.handles[i].Landed? && r.phase == s.phase;
    } else if e.CommitLocked? && s.active == 0 && CurrentOpen(s) {
      assert r.handles[s.transaction.value] in r.handles;
      assert forall h :: h in r.handles ==> h in s.handles || h == r.handles[s.transaction.value];
    } else {
      assert forall h :: h in r.handles ==> h in s.handles || !h.Landed?;
    }
  }

  // ---------------------------------------------------------------- calls out, then writes

  datatype Observation =
    | CallStarted(lease: nat) | CallEnded(lease: nat)
    | TransactionBegun(handle: nat) | WriteAdmitted

  predicate Writes(o: Observation) { o.TransactionBegun? || o.WriteAdmitted? }

  /** What a step shows to the outside world. A begin that answers its caller without opening a
      transaction, as every deferred one does, still lets the caller stage a write. */
  function Observe(s: State, e: Step): seq<Observation> {
    var (r, reply) := Apply(s, e);
    if |r.leases| > |s.leases| then [CallStarted(|s.leases|)]
    else if r.leases != s.leases && e.Release? then [CallEnded(e.lease)]
    else if |r.handles| > |s.handles| then [TransactionBegun(|s.handles|)]
    else if (e.BeginWriting? || e.BeginDeferredWriting?) && reply.Done? then [WriteAdmitted]
    else []
  }

  function Trace(s: State, steps: seq<Step>): seq<Observation>
    decreases |steps|
  {
    if steps == [] then []
    else
      var n := |steps| - 1;
      Trace(s, steps[..n]) + Observe(Run(s, steps[..n]), steps[n])
  }

  /** Every external call starts and ends before the first write is admitted or transaction begun. */
  ghost predicate CallsBeforeWrites(t: seq<Observation>) {
    && (forall i, j :: 0 <= i < j < |t| && Writes(t[i]) ==> Writes(t[j]))
    && ((exists b :: 0 <= b < |t| && Writes(t[b])) ==> forall k: nat :: CallStarted(k) in t ==> CallEnded(k) in t)
  }

  ghost predicate TraceMatches(s: State, t: seq<Observation>) {
    && (forall k: nat :: CallStarted(k) in t <==> k < |s.leases|)
    && (forall k: nat :: CallEnded(k) in t <==> k < |s.leases| && s.leases[k])
    && (forall h: nat :: TransactionBegun(h) in t <==> h < |s.handles|)
    && ((exists b :: 0 <= b < |t| && Writes(t[b])) ==> !s.phase.Prewrite? && s.active == 0)
  }

  lemma TraceQuiet(s: State, t: seq<Observation>, e: Step)
    requires Invariant(s) && TraceMatches(s, t) && Observe(s, e) == []
    ensures TraceMatches(Apply(s, e).0, t)
  {
    var r := Apply(s, e).0;
    assert r.leases == s.leases;
    assert |r.handles| == |s.handles|;
  }

  lemma TraceCall(s: State, t: seq<Observation>, e: Step)
    requires Invariant(s) && TraceMatches(s, t)
    requires (e.Acquire? || e.Release?) && Observe(s, e) != []
    ensures forall b :: 0 <= b < |t| ==> !Writes(t[b])
    ensures |Observe(s, e)| == 1 && !Writes(Observe(s, e)[0])
    ensures TraceMatches(Apply(s, e).0, t + Observe(s, e))
  {
    var r, o := Apply(s, e).0, Observe(s, e);
    UnreleasedZero(s.leases);
    assert r.handles == s.handles;
    if e.Release? {
      assert r.leases == s.leases[e.lease := true] && o == [CallEnded(e.lease)];
      assert s.active > 0;
    } else {
      assert r.leases == s.leases + [false] && o == [CallStarted(|s.leases|)];
      assert s.phase.Prewrite?;
    }
    assert forall b :: 0 <= b < |t| ==> !Writes(t[b]);
    assert forall x :: x in t + o <==> x in t || x == o[0];
  }

  lemma TraceBegin(s: State, t: seq<Observation>, e: Step)
    requires Invariant(s) && TraceMatches(s, t) && Observe(s, e) != []
    requires e.BeginWriting? || e.BeginDeferredWriting?
    ensures |Observe(s, e)| == 1 && Writes(Observe(s, e)[0])
    ensures forall k: nat :: CallStarted(k) in t ==> CallEnded(k) in t
    ensures TraceMatches(Apply(s, e).0, t + Observe(s, e))
  {
    var r, o := Apply(s, e).0, Observe(s, e);
    UnreleasedZero(s.leases);
    assert r.leases == s.leases && r.active == 0 && !r.phase.Prewrite?;
    assert forall x :: x in t + o <==> x in t || x == o[0];
  }

  lemma CallsBeforeWritesGrow(t: seq<Observation>, o: Observation)
    requires CallsBeforeWrites(t)
    requires if Writes(o) then forall k: nat :: CallStarted(k) in t ==> CallEnded(k) in t
             else forall b :: 0 <= b < |t| ==> !Writes(t[b])
    ensures CallsBeforeWrites(t + [o])
  {
    assert forall x :: x in t + [o] <==> x in t || x == o;
  }

  lemma TraceStep(s: State, t: seq<Observation>, e: Step)
    requires Invariant(s) && TraceMatches(s, t) && CallsBeforeWrites(t)
    ensures TraceMatches(Apply(s, e).0, t + Observe(s, e)) && CallsBeforeWrites(t + Observe(s, e))
  {
    var o := Observe(s, e);
    if o == [] {
      TraceQuiet(s, t, e);
      assert t + o == t;
    } else if e.Acquire? || e.Release? {
      TraceCall(s, t, e);
      CallsBeforeWritesGrow(t, o[0]);
    } else {
      TraceBegin(s, t, e);
      CallsBeforeWritesGrow(t, o[0]);
    }
  }

  lemma {:induction false} TraceAlways(steps: seq<Step>)
    ensures TraceMatches(Run(INITIAL, steps), Trace(INITIAL, steps))
    ensures CallsBeforeWrites(Trace(INITIAL, steps))
    decreases |steps|
  {
    if steps != [] {
      var n := |steps| - 1;
      TraceAlways(steps[..n]);
      InvariantAlways(steps[..n]);
      TraceStep(Run(INITIAL, steps[..n]), Trace(INITIAL, steps[..n]), steps[n]);
    }
  }

  // ---------------------------------------------------------------- what one step settles for the rest of the run

  ghost predicate Begins(e: Step) { e.BeginWriting? || e.BeginDeferredWriting? }

  /** The state before step `i` of a run, and what that step answers. */
  ghost function Before(steps: seq<Step>, i: nat): State
    requires i <= |steps|
  {
    Run(INITIAL, steps[..i])
  }

  ghost function Answer(steps: seq<Step>, i: nat): Reply
    requires i < |steps|
  {
    Apply(Before(steps, i), steps[i]).1
  }

  lemma LaterState(steps: seq<Step>, i: nat, j: nat)
    requires i < j <= |steps|
    ensures Before(steps, i + 1) == Apply(Before(steps, i), steps[i]).0
    ensures Before(steps, j) == Run(Before(steps, i + 1), steps[i + 1..j])
    ensures Invariant(Before(steps, i)) && Invariant(Before(steps, j))
  {
    InvariantAlways(steps[..i]);
    InvariantAlways(steps[..j]);
    assert steps[..i + 1][..i] == steps[..i];
    RunPrefix(INITIAL, steps[..j], i + 1);
    assert steps[..j][..i + 1] == steps[..i + 1] && steps[..j][i + 1..] == steps[i + 1..j];
  }

  /** Once any begin, physical or deferred, has let a caller write, no later call out is granted. */
  lemma BegunClosesCalls(steps: seq<Step>, i: nat, j: nat)
    requires i < j <= |steps| && Begins(steps[i]) && Answer(steps, i).Done?
    ensures !Apply(Before(steps, j), Acquire).1.Granted?
  {
    LaterState(steps, i, j);
    PhasesMoveForward(Before(steps, i + 1), steps[i + 1..j]);
  }

  /** A rollback, a failed begin, a failed commit and a successful commit each end the unit of work for
      good: the phase stays what it became, no later call is granted, no later begin or commit succeeds. */
  ghost predicate Ends(e: Step, reply: Reply) {
    || e.RollBack? || reply == Failure(BeginFailed) || reply == Failure(CommitFailed)
    || (e.CommitLocked? && reply.Done?)
  }

  lemma EndingPhase(s: State, e: Step)
    requires Invariant(s) && Ends(e, Apply(s, e).1)
    ensures Apply(s, e).0.phase ==
            (if s.phase.Committed? || (e.CommitLocked? && Apply(s, e).1.Done?) then Committed else RolledBack)
  {
  }

  lemma EndedRefuses(s: State, e: Step)
    requires Invariant(s) && Terminal(s.phase) && (Begins(e) || e.CommitLocked? || e.Acquire?)
    ensures Apply(s, e).1.Failure?
  {
  }

  lemma EndedForGood(steps: seq<Step>, i: nat, j: nat, e: Step)
    requires i < j <= |steps| && Ends(steps[i], Answer(steps, i))
    requires Begins(e) || e.CommitLocked? || e.Acquire?
    ensures Before(steps, j).phase ==
            (if Before(steps, i).phase.Committed? || (steps[i].CommitLocked? && Answer(steps, i).Done?) then Committed
             else RolledBack)
    ensures Apply(Before(steps, j), e).1.Failure?
  {
    LaterState(steps, i, j);
    EndingPhase(Before(steps, i), steps[i]);
    PhasesMoveForward(Before(steps, i + 1), steps[i + 1..j]);
    EndedRefuses(Before(steps, j), e);
  }

  /** With nothing open and no way to open, every handle keeps its fate and new ones are undone. */
  ghost predicate Settled(s: State) {
    Open !in s.handles && (Terminal(s.phase) || s.transaction.Some?)
  }

  lemma {:induction false} SettledStays(s: State, steps: seq<Step>)
    requires Settled(s)
    ensures var r := Run(s, steps);
            && Settled(r) && s.handles <= r.handles
            && forall k :: |s.handles| <= k < |r.handles| ==> r.handles[k].Undone?
    ensures Terminal(s.phase) ==> Terminal(Run(s, steps).phase)
    decreases |steps|
  {
    if steps != [] {
      var n := |steps| - 1;
      SettledStays(s, steps[..n]);
      var q, r := Run(s, steps[..n]), Run(s, steps);
      assert forall h :: h in r.handles ==> h in q.handles || h.Undone?;
    }
  }

  lemma SettledAfter(s: State, e: Step)
    requires Invariant(s) && (e.RollBack? || Apply(s, e).1 == Failure(CommitUnknown))
    ensures Settled(Apply(s, e).0)
  {
    var r := Apply(s, e).0;
    forall k | 0 <= k < |r.handles| ensures !r.handles[k].Open? {
      assert k < |s.handles|;
    }
  }

  /** A rollback settles every handle there is: the open one is undone, the others keep their fate, and
      nothing the run does later lands or reopens anything. */
  lemma RolledBackNeverLands(steps: seq<Step>, i: nat, j: nat, k: nat)
    requires i < j <= |steps| && steps[i].RollBack? && k < |Before(steps, j).handles|
    ensures Before(steps, j).handles[k] ==
            (if k < |Before(steps, i).handles| && !Before(steps, i).handles[k].Open? then Before(steps, i).handles[k]
             else Undone)
  {
    LaterState(steps, i, j);
    SettledAfter(Before(steps, i), steps[i]);
    SettledStays(Before(steps, i + 1), steps[i + 1..j]);
  }

  lemma InDoubtKept(s: State, r: State, k: nat)
    requires Invariant(r) && k < |s.handles| && s.handles[k].InDoubt? && s.handles <= r.handles
    ensures InDoubt in r.handles && Landed !in r.handles && !CurrentOpen(r)
  {
    assert r.handles[k].InDoubt?;
  }

  /** A commit answered "unknown" leaves the phase alone and its handle in doubt for the rest of the run;
      nothing ever lands beside it, and no later commit succeeds. */
  lemma InDoubtForGood(steps: seq<Step>, i: nat, j: nat, e: Step)
    requires i < j <= |steps| && Answer(steps, i) == Failure(CommitUnknown)
    ensures Before(steps, i + 1).phase == Before(steps, i).phase
    ensures InDoubt in Before(steps, j).handles && Landed !in Before(steps, j).handles
    ensures !CommitReportsSuccess(Before(steps, j), e)
  {
    LaterState(steps, i, j);
    var s := Before(steps, i);
    SettledAfter(s, steps[i]);
    SettledStays(Before(steps, i + 1), steps[i + 1..j]);
    InDoubtKept(Before(steps, i + 1), Before(steps, j), s.transaction.value);
    if e.CommitLocked? {
      SuccessfulCommitLands(Before(steps, j), e.answer);
    }
  }

  // ---------------------------------------------------------------- what each caller is told

  /** Each answer of each step, by a condition on the state and the store's word alone. */
  lemma AnswersExactly(s: State, e: Step)
    requires Invariant(s)
    ensures Apply(s, e).1 == Failure(ConnectorCallAfterWrite) <==> e.Acquire? && !s.phase.Prewrite?
    ensures Apply(s, e).1.Granted? <==> e.Acquire? && s.phase.Prewrite?
    ensures Apply(s, e).1.Granted? ==> Apply(s, e).1.lease == |s.leases|
    ensures Apply(s, e).1 == Failure(WriteDuringConnectorCall) <==>
            (Begins(e) || e.CommitLocked?) && exists k :: 0 <= k < |s.leases| && !s.leases[k]
    ensures Apply(s, e).1 == Failure(BeginFailed) <==> e == BeginWriting(false) && s.active == 0 && s.transaction.None?
    ensures Apply(s, e).1 == Failure(CommitUnknown) <==>
            e == CommitLocked(Unknown) && s.active == 0 && CurrentOpen(s)
    ensures Apply(s, e).1 == Failure(CommitFailed) <==>
            e.CommitLocked? && s.active == 0 && (!CurrentOpen(s) || e.answer.Failed? || e.answer.Refused?)
    ensures Begins(e) ==>
              (Apply(s, e).1.Done? <==>
               s.active == 0 && !Terminal(s.phase) && (e == BeginWriting(false) ==> s.transaction.Some?))
    ensures Apply(s, e).1.Failure? && !Ends(e, Apply(s, e).1) && !e.BeginWriting? && !e.CommitLocked? ==>
              Apply(s, e).0 == s
    ensures Apply(s, e).1 == Failure(WriteDuringConnectorCall) ==> Apply(s, e).0 == s
  {
    UnreleasedZero(s.leases);
  }

  /** A handle is opened only by a begin that finds none, and exactly then the begin answers done; it
      changes only while open and current, by a rollback or by what the store answered to a commit. */
  lemma HandleLifecycle(s: State, e: Step, k: nat)
    requires Invariant(s) && k < |Apply(s, e).0.handles|
    ensures k >= |s.handles| ==>
              && k == |s.handles| && e == BeginWriting(true) && s.transaction.None? && s.active == 0
              && Apply(s, e).0.transaction == Some(k)
              && Apply(s, e).0.handles[k] == (if Apply(s, e).1.Done? then Open else Undone)
    ensures k < |s.handles| && Apply(s, e).0.handles[k] != s.handles[k] ==>
              && s.handles[k].Open? && s.transaction == Some(k)
              && (e.RollBack? || (e.CommitLocked? && s.active == 0))
              && Apply(s, e).0.handles[k] ==
                 (if e.RollBack? || e.answer == Failed(false) then Undone
                  else if e.answer.Unknown? then InDoubt
                  else Landed)
  {
  }

  /** `commit` as one caller runs it succeeds exactly when no call is out, the store accepts, and there
      is an open transaction in a writing unit or none yet in a unit that has not ended and one opens. */
  lemma CommitExactly(s: State, beginOk: bool, answer: CommitAnswer)
    requires Invariant(s)
    ensures CommitReply(s, beginOk, answer).Done? <==>
            && s.active == 0 && answer.Accepted? && !Terminal(s.phase)
            && (if s.transaction.Some? then CurrentOpen(s) else beginOk)
    ensures CommitReply(s, beginOk, answer) == Failure(CommitUnknown) <==>
            && s.active == 0 && answer.Unknown?
            && (if s.transaction.Some? then CurrentOpen(s) else beginOk && !Terminal(s.phase))
    ensures CommitReply(s, beginOk, answer) == Failure(BeginFailed) <==>
            s.active == 0 && s.transaction.None? && !beginOk
    ensures CommitReply(s, beginOk, answer).Done? ==>
              Run(s, CommitSteps(s, beginOk, answer)).phase.Committed?
    ensures CommitReply(s, beginOk, answer) == Failure(CommitUnknown) ==>
              InDoubt in Run(s, CommitSteps(s, beginOk, answer)).handles
  {
    var begin, commit := Step.BeginWriting(beginOk), Step.CommitLocked(answer);
    RunOneTwo(s, begin, commit);
    RunOneTwo(s, commit, commit);
    InvariantStep(s, begin);
    var t := if s.transaction.Some? then s else Apply(s, begin).0;
    var r := Apply(t, commit).0;
    if t.active == 0 && CurrentOpen(t) && answer.Unknown? {
      assert r.handles[t.transaction.value].InDoubt?;
    }
  }

  // ---------------------------------------------------------------- request identities

  function RequestId(executionId: string, issued: nat): string {
    executionId + ":connector:" + Text.Decimal(issued)
  }

  /** The identities handed to the n-th and m-th external call of one execution differ. */
  lemma RequestIdsDistinct(executionId: string, n: nat, m: nat)
    requires n != m
    ensures RequestId(executionId, n) != RequestId(executionId, m)
  {
    var p := executionId + ":connector:";
    if RequestId(executionId, n) == RequestId(executionId, m) {
      assert (p + Text.Decimal(n))[|p|..] == Text.Decimal(n);
      assert (p + Text.Decimal(m))[|p|..] == Text.Decimal(m);
      Text.DecimalInjective(n, m);
    }
  }

  lemma RequestIdExample()
    ensures RequestId("exec", 7) == "exec:connector:7"
  {
    assert Text.Decimal(7) == "7";
  }

  // ---------------------------------------------------------------- the objects

  /** `actionExecutionPhaseMachine`. */
  class PhaseMachine {
    var phase: Phase

    constructor ()
      ensures phase.Prewrite?
    {
      phase := Prewrite;
    }

    method Transition(next: Phase) returns (ok: bool)
      modifies this
      ensures (phase, ok) == Next(old(phase), next)
    {
      if phase == next {
        return true;
      }
      ok := false;
      match phase {
        case Prewrite => ok := next.Writing? || next.Committed? || next.RolledBack?;
        case Writing => ok := next.Committed? || next.RolledBack?;
        case Committed =>
        case RolledBack =>
      }
      if ok {
        phase := next;
      }
    }
  }

  /** `actionSynchronousConnectorCallLease`; `released` is its `sync.Once`. */
  class ConnectorCallLease {
    const unitOfWork: ActionUnitOfWork
    const requestId: string
    ghost const index: nat
    var released: bool

    constructor (u: ActionUnitOfWork, requestId: string, ghost index: nat)
      ensures unitOfWork == u && this.requestId == requestId && this.index == index && !released
    {
      this.unitOfWork := u;
      this.requestId := requestId;
      this.index := index;
      released := false;
    }

    method Release()
      requires unitOfWork.Valid() && index < |unitOfWork.leases| && unitOfWork.leases[index] == this
      modifies this, unitOfWork`active
      ensures unitOfWork.Valid()
      ensures unitOfWork.Abs() == old(Apply(unitOfWork.Abs(), Step.Release(index))).0
    {
      ghost var before := unitOfWork.Abs();
      ReleaseOnce();
      InvariantStep(before, Step.Release(index));
    }

    method ReleaseOnce()
      requires unitOfWork.Shape() && index < |unitOfWork.leases| && unitOfWork.leases[index] == this
      modifies this, unitOfWork`active
      ensures unitOfWork.Shape()
      ensures unitOfWork.Abs() == DoRelease(old(unitOfWork.Abs()), index)
    {
      if !released {
        ghost var before := unitOfWork.Abs();
        MarkReleased();
        assert unitOfWork.Abs() == before.(leases := before.leases[index := true]);
        if unitOfWork.active > 0 {
          unitOfWork.active := unitOfWork.active - 1;
        }
      }
    }

    method MarkReleased()
      requires unitOfWork.Shape() && index < |unitOfWork.leases| && unitOfWork.leases[index] == this
      modifies this`released
      ensures released && Flags(unitOfWork.leases) == old(Flags(unitOfWork.leases))[index := true]
    {
      released := true;
    }
  }

  ghost function Flags(leases: seq<ConnectorCallLease>): (r: seq<bool>)
    reads leases
    ensures |r| == |leases| && forall i :: 0 <= i < |leases| ==> r[i] == leases[i].released
  {
    seq(|leases|, i requires 0 <= i < |leases| reads leases => leases[i].released)
  }

  /** `actionUnitOfWork`. `handles` is the transaction store's view of the handles it gave out. */
  class ActionUnitOfWork {
    const executionId: string
    const phases: PhaseMachine
    var transaction: Option<nat>
    var active: nat
    var issued: nat
    var handles: seq<Handle>
    ghost var leases: seq<ConnectorCallLease>

    ghost predicate Valid()
      reads this, phases, leases
    {
      Shape() && Identified() && Invariant(Abs())
    }

    ghost predicate Identified()
      reads this
    {
      forall i :: 0 <= i < |leases| ==> leases[i].requestId == RequestId(executionId, i + 1)
    }

    ghost predicate Shape()
      reads this
    {
      && issued == |leases|
      && (forall i :: 0 <= i < |leases| ==> leases[i].unitOfWork == this && leases[i].index == i)
      && (transaction.Some? ==> transaction.value < |handles|)
    }

    ghost function Abs(): State
      reads this, phases, leases
    {
      State(phases.phase, transaction, handles, active, Flags(leases))
    }

    constructor (executionId: string)
      ensures Valid() && Abs() == INITIAL && fresh(phases) && leases == []
      ensures this.executionId == executionId
    {
      this.executionId := executionId;
      phases := new PhaseMachine();
      transaction, active, issued, handles, leases := None, 0, 0, [], [];
      new;
      assert Abs() == INITIAL;
    }

    method AcquireSynchronousConnectorCall() returns (lease: ConnectorCallLease?)
      requires Valid()
      modifies this`active, this`issued, this`leases
      ensures Valid()
      ensures Abs() == old(Apply(Abs(), Step.Acquire)).0
      ensures lease != null <==> old(Apply(Abs(), Step.Acquire)).1.Granted?
      ensures lease == null ==> leases == old(leases)
      ensures lease != null ==>
                  fresh(lease) && leases == old(leases) + [lease] && lease.requestId == RequestId(executionId, |leases|)
    {
      ghost var before := Abs();
      lease := TakeLease();
      InvariantStep(before, Step.Acquire);
    }

    method TakeLease() returns (lease: ConnectorCallLease?)
      requires Shape() && Identified()
      modifies this`active, this`issued, this`leases
      ensures Shape() && Identified()
      ensures Abs() == old(Apply(Abs(), Step.Acquire)).0
      ensures lease != null <==> old(Apply(Abs(), Step.Acquire)).1.Granted?
      ensures lease == null ==> leases == old(leases)
      ensures lease != null ==>
                  fresh(lease) && leases == old(leases) + [lease] && lease.requestId == RequestId(executionId, |leases|)
    {
      if transaction.Some? || !phases.phase.Prewrite? {
        return null;
      }
      ghost var given, flags := leases, Flags(leases);
      active := active + 1;
      issued := issued + 1;
      lease := new ConnectorCallLease(this, executionId + ":connector:" + Text.Decimal(issued), issued - 1);
      leases := leases + [lease];
      assert Flags(leases) == flags + [false];
      assert forall i :: 0 <= i < |given| ==> leases[i] == given[i];
    }

    method BeginWriting(beginOk: bool) returns (reply: Reply)
      requires Valid()
      modifies this`transaction, this`handles, phases
      ensures Valid()
      ensures (Abs(), reply) == old(Apply(Abs(), Step.BeginWriting(beginOk)))
    {
      ghost var before := Abs();
      reply := OpenTransaction(beginOk);
      InvariantStep(before, Step.BeginWriting(beginOk));
    }

    method OpenTransaction(beginOk: bool) returns (reply: Reply)
      requires Shape()
      modifies this`transaction, this`handles, phases
      ensures Shape()
      ensures (Abs(), reply) == old(Apply(Abs(), Step.BeginWriting(beginOk)))
    {
      if active > 0 {
        return Failure(WriteDuringConnectorCall);
      }
      if transaction.Some? {
        var ok := phases.Transition(Writing);
        return if ok then Done else Failure(PhaseInvalid);
      }
      if !beginOk {
        var _ := phases.Transition(RolledBack);
        return Failure(BeginFailed);
      }
      var id := |handles|;
      ghost var given := handles;
      transaction, handles := Some(id), handles + [Open];
      var ok := phases.Transition(Writing);
      if !ok {
        handles := handles[id := Undone];
        assert handles == given + [Undone];
      }
      return if ok then Done else Failure(PhaseInvalid);
    }

    method BeginDeferredWriting() returns (reply: Reply)
      requires Valid()
      modifies phases
      ensures Valid()
      ensures (Abs(), reply) == old(Apply(Abs(), Step.BeginDeferredWriting))
    {
      InvariantStep(Abs(), Step.BeginDeferredWriting);
      if active > 0 {
        return Failure(WriteDuringConnectorCall);
      }
      var ok := phases.Transition(Writing);
      return if ok then Done else Failure(PhaseInvalid);
    }

    /** The store's side of ending a handle: only an open one can still end. */
    method EndHandle(h: Handle)
      requires Shape()
      modifies this`handles
      ensures Shape() && Abs() == Close(old(Abs()), h)
    {
      if transaction.Some? && handles[transaction.value].Open? {
        handles := handles[transaction.value := h];
      }
    }

    method CommitLocked(answer: CommitAnswer) returns (reply: Reply)
      requires Valid()
      modifies this`handles, phases
      ensures Valid()
      ensures (Abs(), reply) == old(Apply(Abs(), Step.CommitLocked(answer)))
    {
      ghost var before := Abs();
      if active > 0 {
        return Failure(WriteDuringConnectorCall);
      }
      reply := CommitTransaction(answer);
      InvariantStep(before, Step.CommitLocked(answer));
    }

    method CommitTransaction(answer: CommitAnswer) returns (reply: Reply)
      requires Shape() && active == 0
      modifies this`handles, phases
      ensures Shape()
      ensures (Abs(), reply) == DoCommitLocked(old(Abs()), answer)
    {
      var live := transaction.Some? && handles[transaction.value].Open?;
      match if live then answer else Refused {
        case Accepted =>
          EndHandle(Landed);
          var ok := phases.Transition(Committed);
          return if ok then Done else Failure(PhaseInvalid);
        case Unknown =>
          EndHandle(InDoubt);
          return Failure(CommitUnknown);
        case Failed(landed) =>
          EndHandle(if landed then Landed else Undone);
          var _ := phases.Transition(RolledBack);
          return Failure(CommitFailed);
        case Refused =>
          var _ := phases.Transition(RolledBack);
          return Failure(CommitFailed);
      }
    }

    /** `commit` as one caller runs it: open a transaction if there is none, then the locked part. */
    method Commit(beginOk: bool, answer: CommitAnswer) returns (reply: Reply)
      requires Valid()
      modifies this`transaction, this`handles, phases
      ensures Valid()
      ensures Abs() == old(Run(Abs(), CommitSteps(Abs(), beginOk, answer)))
      ensures reply == CommitReply(old(Abs()), beginOk, answer)
      ensures reply.Done? ==> phases.phase.Committed? && Landed in handles && answer.Accepted?
    {
      ghost var before := Abs();
      RunOneTwo(before, Step.BeginWriting(beginOk), Step.CommitLocked(answer));
      RunOneTwo(before, Step.CommitLocked(answer), Step.CommitLocked(answer));
      if transaction.None? {
        reply := BeginWriting(beginOk);
        if !reply.Done? {
          return;
        }
      }
      SuccessfulCommitLands(Abs(), answer);
      reply := CommitLocked(answer);
    }

    method RollBack()
      requires Valid()
      modifies this`transaction, this`handles, phases
      ensures Valid()
      ensures Abs() == old(Apply(Abs(), Step.RollBack)).0
    {
      ghost var before := Abs();
      Abandon();
      InvariantStep(before, Step.RollBack);
    }

    method Abandon()
      requires Shape()
      modifies this`transaction, this`handles, phases
      ensures Shape() && Abs() == DoRollBack(old(Abs()))
    {
      if transaction.Some? {
        EndHandle(Undone);
        transaction := None;
      }
      var _ := phases.Transition(RolledBack);
    }
  }

  /** The steps one sequential `commit` takes from state `s`. */
  function CommitSteps(s: State, beginOk: bool, answer: CommitAnswer): seq<Step> {
    if s.transaction.Some? then [Step.CommitLocked(answer)]
    else if DoBeginWriting(s, beginOk).1.Done? then [Step.BeginWriting(beginOk), Step.CommitLocked(answer)]
    else [Step.BeginWriting(beginOk)]
  }

  /** What that `commit` answers. */
  function CommitReply(s: State, beginOk: bool, answer: CommitAnswer): Reply {
    if s.transaction.Some? then DoCommitLocked(s, answer).1
    else
      var (t, reply) := DoBeginWriting(s, beginOk);
      if reply.Done? then DoCommitLocked(t, answer).1 else reply
  }
}
