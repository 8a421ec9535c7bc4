/** Concurrent coding calls under one scope and idempotency key. A call looks its receipt up, runs its tool and
    stores its receipt in three critical sections, and others may come in between. */
module ConcurrentReceipts {
  import opened Basics
  import R = CodingReceipts

  /** How far a call has come. */
  datatype Stage = Waiting | Missed | Ran(answer: R.Answer) | Finished(answer: R.Answer)

  datatype Call = Call(request: R.Request, env: R.Environment)

  /** The shared state, the calls' stages, and which calls have put a file in place and stored a receipt, in order. */
  datatype System = System(files: R.Files, receipts: R.Receipts, stages: seq<Stage>, wrote: seq<nat>, stored: seq<nat>)

  function Start(s: R.State, calls: nat): System {
    System(s.files, s.receipts, seq(calls, _ => Waiting), [], [])
  }

  // ---------------------------------------------------------------- the three critical sections

  function Look(slot: string, q: R.Request, receipts: R.Receipts): Stage {
    if slot in receipts then Finished(receipts[slot])
    else if q.reconcile && q.tool.OtherTool? then Finished(R.RECEIPT_UNAVAILABLE)
    else Missed
  }

  /** The next critical section of call `i`. */
  function Advance(p: R.Platform, slot: string, calls: seq<Call>, s: System, i: nat): (r: System)
    requires i < |calls| == |s.stages|
    ensures |r.stages| == |s.stages|
  {
    var q := calls[i].request;
    match s.stages[i]
    case Waiting => s.(stages := s.stages[i := Look(slot, q, s.receipts)])
    case Missed =>
      var e := R.RunTool(p, s.files, q, calls[i].env);
      s.(files := e.files, stages := s.stages[i := Ran(e.answer)], wrote := if e.wrote then s.wrote + [i] else s.wrote)
    case Ran(answer) =>
      var done := s.(stages := s.stages[i := Finished(answer)]);
      if answer.status.Uncertain? then done
      else done.(receipts := s.receipts[slot := answer], stored := s.stored + [i])
    case Finished(_) => s
  }

  /** Any interleaving: whose section comes next, one after the other. */
  function Run(p: R.Platform, slot: string, calls: seq<Call>, s: System, schedule: seq<nat>): (r: System)
    requires |calls| == |s.stages|
    ensures |r.stages| == |s.stages|
    decreases |schedule|
  {
    if schedule == [] then s
    else if schedule[0] < |calls| then Run(p, slot, calls, Advance(p, slot, calls, s, schedule[0]), schedule[1..])
    else Run(p, slot, calls, s, schedule[1..])
  }

  /** A call that is not interrupted is the sequential call: same files, same receipts, same answer. */
  lemma UninterruptedIsSequential(p: R.Platform, slot: string, calls: seq<Call>, s: System, i: nat)
    requires i < |calls| == |s.stages| && s.stages[i].Waiting? && calls[i].request.idempotencyKey != ""
    ensures var t := Advance(p, slot, calls, Advance(p, slot, calls, Advance(p, slot, calls, s, i), i), i);
            var o := R.Serve(p, R.State(s.files, s.receipts), slot, calls[i].request, calls[i].env);
            R.State(t.files, t.receipts) == o.state && t.stages[i] == Finished(o.answer)
  {
  }

  // ---------------------------------------------------------------- retries of one write

  /** Every call is a retry of the same write or edit, made at once rather than in turn; none asks to reconcile. */
  ghost predicate Retries(calls: seq<Call>, q: R.Request) {
    && (q.tool.FileWrite? || q.tool.FileEdit?) && !q.reconcile && q.arguments.Some?
    && forall i :: 0 <= i < |calls| ==> calls[i].request == q
  }

  /** The path the write names, and the text it would leave there. */
  function Path(p: R.Platform, a: R.Arguments): Option<string> { p.clean(a.path) }

  function Left(p: R.Platform, files: R.Files, q: R.Request): Option<string>
    requires q.arguments.Some?
  {
    var a := q.arguments.value;
    if Path(p, a).None? then None else R.After(R.Before(files, Path(p, a).value), a, q.tool.FileEdit?)
  }

  /** The write leaves a text with another digest than the one it names. */
  predicate ChangesVersion(p: R.Platform, files: R.Files, q: R.Request)
    requires q.arguments.Some?
  {
    Left(p, files, q).Some? ==> p.digest(Left(p, files, q).value) != q.arguments.value.expectedSha256
  }

  /** Nobody has written and the files are as they were, or one has, and they are as it left them. */
  ghost predicate WrittenOnce(p: R.Platform, files: R.Files, q: R.Request, s: System)
    requires q.arguments.Some?
  {
    || (s.wrote == [] && s.files == files)
    || (|s.wrote| == 1 && Path(p, q.arguments.value).Some? && Left(p, files, q).Some?
        && s.files == files[Path(p, q.arguments.value).value := R.Utf8(Left(p, files, q).value)])
  }

  lemma FirstWrite(p: R.Platform, files: R.Files, q: R.Request, env: R.Environment)
    requires q.arguments.Some? && !q.tool.OtherTool?
    ensures var e := R.RunTool(p, files, q, env);
            if e.wrote then
              Path(p, q.arguments.value).Some? && Left(p, files, q).Some?
              && e.files == files[Path(p, q.arguments.value).value := R.Utf8(Left(p, files, q).value)]
            else e.files == files
  {
    R.WriteEffect(p, files, q.arguments, q.tool.FileEdit?, q.reconcile, env);
    if R.RunTool(p, files, q, env).wrote {
      R.WroteExactly(p, files, q.arguments.value, q.tool.FileEdit?, q.reconcile, env);
    }
  }

  /** Once the text is in place, a retry no longer finds the version it names. */
  lemma NextWriteRefused(p: R.Platform, files: R.Files, q: R.Request, env: R.Environment)
    requires R.HexDigests(p) && q.arguments.Some? && !q.tool.OtherTool? && !q.reconcile
    requires ChangesVersion(p, files, q) && Path(p, q.arguments.value).Some? && Left(p, files, q).Some?
    ensures var now := files[Path(p, q.arguments.value).value := R.Utf8(Left(p, files, q).value)];
            var code := if env.readFails then R.FileUnavailable else R.VersionConflict;
            R.RunTool(p, now, q, env) == R.Effect(now, R.Fails(code), false)
  {
  }

  lemma AdvanceWritesOnce(p: R.Platform, slot: string, calls: seq<Call>, q: R.Request, files: R.Files, s: System,
                          i: nat)
    requires R.HexDigests(p) && Retries(calls, q) && ChangesVersion(p, files, q)
    requires i < |calls| == |s.stages| && WrittenOnce(p, files, q, s)
    ensures WrittenOnce(p, files, q, Advance(p, slot, calls, s, i))
  {
    if s.stages[i].Missed? {
      assert calls[i].request == q;
      if s.wrote == [] {
        FirstWrite(p, files, q, calls[i].env);
      } else {
        NextWriteRefused(p, files, q, calls[i].env);
      }
    }
  }

  /** However many retries of one write run at once, and however their sections interleave, at most one of them puts
      the file in place: where the receipt comes too late, the version guard holds. */
  lemma {:induction false} RetriesWriteOnce(p: R.Platform, slot: string, calls: seq<Call>, q: R.Request, files: R.Files,
                                            s: System, schedule: seq<nat>)
    requires R.HexDigests(p) && Retries(calls, q) && ChangesVersion(p, files, q)
    requires |calls| == |s.stages| && WrittenOnce(p, files, q, s)
    ensures WrittenOnce(p, files, q, Run(p, slot, calls, s, schedule))
    ensures |Run(p, slot, calls, s, schedule).wrote| <= 1
    decreases |schedule|
  {
    if schedule != [] {
      if schedule[0] < |calls| {
        AdvanceWritesOnce(p, slot, calls, q, files, s, schedule[0]);
        RetriesWriteOnce(p, slot, calls, q, files, Advance(p, slot, calls, s, schedule[0]), schedule[1..]);
      } else {
        RetriesWriteOnce(p, slot, calls, q, files, s, schedule[1..]);
      }
    }
  }

  // ---------------------------------------------------------------- which receipt stays

  lemma CompletedMeansWrote(p: R.Platform, files: R.Files, q: R.Request, env: R.Environment)
    requires !q.tool.OtherTool? && !q.reconcile
    ensures var e := R.RunTool(p, files, q, env);
            (e.answer.status.Completed? <==> e.wrote) && !e.answer.status.Uncertain?
  {
    R.WriteEffect(p, files, q.arguments, q.tool.FileEdit?, q.reconcile, env);
  }

  function AnswerOf(stage: Stage): Option<R.Answer> {
    if stage.Ran? || stage.Finished? then Some(stage.answer) else None
  }

  /** The call ran its tool: it has an answer of its own. */
  predicate HasRun(s: System, i: nat)
    requires i < |s.stages|
  {
    s.stages[i].Ran? || i in s.stored
  }

  ghost predicate Told(slot: string, s: System) {
    && (forall k :: 0 <= k < |s.stored| ==> s.stored[k] < |s.stages| && s.stages[s.stored[k]].Finished?)
    && (s.stored == [] ==> slot !in s.receipts)
    && (s.stored != [] ==> slot in s.receipts && Some(s.receipts[slot]) == AnswerOf(s.stages[s.stored[|s.stored| - 1]]))
    && (forall i: nat :: i < |s.stages| && HasRun(s, i) ==>
          AnswerOf(s.stages[i]).Some? && !AnswerOf(s.stages[i]).value.status.Uncertain?
          && (AnswerOf(s.stages[i]).value.status.Completed? <==> i in s.wrote))
    && (forall i: nat :: i in s.wrote ==> i < |s.stages| && HasRun(s, i))
  }

  lemma AdvanceTold(p: R.Platform, slot: string, calls: seq<Call>, q: R.Request, s: System, i: nat)
    requires Retries(calls, q) && i < |calls| == |s.stages| && Told(slot, s)
    ensures Told(slot, Advance(p, slot, calls, s, i))
  {
    assert calls[i].request == q;
    var t := Advance(p, slot, calls, s, i);
    match s.stages[i]
    case Waiting =>
      assert !HasRun(s, i);
      assert forall k: nat :: k < |s.stages| && k != i ==> t.stages[k] == s.stages[k];
    case Missed =>
      CompletedMeansWrote(p, s.files, q, calls[i].env);
      assert !HasRun(s, i);
      assert forall k: nat :: k < |s.stages| && k != i ==>
                 t.stages[k] == s.stages[k] && (HasRun(t, k) <==> HasRun(s, k));
    case Ran(answer) =>
      assert HasRun(s, i);
      assert forall k: nat :: k < |s.stages| && k != i ==> t.stages[k] == s.stages[k];
    case Finished(_) =>
  }

  lemma {:induction false} ToldAlways(p: R.Platform, slot: string, calls: seq<Call>, q: R.Request, s: System,
                                      schedule: seq<nat>)
    requires Retries(calls, q) && |calls| == |s.stages| && Told(slot, s)
    ensures Told(slot, Run(p, slot, calls, s, schedule))
    decreases |schedule|
  {
    if schedule != [] {
      if schedule[0] < |calls| {
        AdvanceTold(p, slot, calls, q, s, schedule[0]);
        ToldAlways(p, slot, calls, q, Advance(p, slot, calls, s, schedule[0]), schedule[1..]);
      } else {
        ToldAlways(p, slot, calls, q, s, schedule[1..]);
      }
    }
  }

  /** What a later call is told is the answer of the retry that stored last. It is the completed one, so that the
      replay tells the truth about the file, exactly when the retry that put the file in place stored last; any other
      has stored its refusal over it. */
  lemma ReplayTrueExactly(p: R.Platform, slot: string, calls: seq<Call>, q: R.Request, before: R.State,
                          schedule: seq<nat>,
                          later: R.Request, env: R.Environment)
    requires Retries(calls, q) && slot !in before.receipts && later.idempotencyKey != ""
    ensures var t := Run(p, slot, calls, Start(before, |calls|), schedule);
            t.stored != [] ==>
              var told := R.Serve(p, R.State(t.files, t.receipts), slot, later, env).answer;
              && t.stored[|t.stored| - 1] < |t.stages| && Some(told) == AnswerOf(t.stages[t.stored[|t.stored| - 1]])
              && (told.status.Completed? <==> t.stored[|t.stored| - 1] in t.wrote)
  {
    var s := Start(before, |calls|);
    assert Told(slot, s);
    ToldAlways(p, slot, calls, q, s, schedule);
    var t := Run(p, slot, calls, s, schedule);
    if t.stored != [] {
      assert HasRun(t, t.stored[|t.stored| - 1]);
    }
  }

  // ---------------------------------------------------------------- what the schedule alone decides

  datatype Tag = Before | Between | Behind | Over

  /** What a schedule does to the stages of retries that all miss until one has stored: who ran a tool, and who
      stored, in order. It knows nothing of files or answers. */
  datatype Orders = Orders(tags: seq<Tag>, ran: seq<nat>, stored: seq<nat>)

  function NextOrders(o: Orders, i: nat): (r: Orders)
    requires i < |o.tags|
    ensures |r.tags| == |o.tags|
  {
    match o.tags[i]
    case Before => o.(tags := o.tags[i := if o.stored == [] then Between else Over])
    case Between => o.(tags := o.tags[i := Behind], ran := o.ran + [i])
    case Behind => o.(tags := o.tags[i := Over], stored := o.stored + [i])
    case Over => o
  }

  function OrdersOf(o: Orders, schedule: seq<nat>): (r: Orders)
    ensures |r.tags| == |o.tags|
    decreases |schedule|
  {
    if schedule == [] then o
    else if schedule[0] < |o.tags| then OrdersOf(NextOrders(o, schedule[0]), schedule[1..])
    else OrdersOf(o, schedule[1..])
  }

  function Fresh(calls: nat): Orders { Orders(seq(calls, _ => Before), [], []) }

  function TagOf(stage: Stage): Tag {
    match stage case Waiting => Before case Missed => Between case Ran(_) => Behind case Finished(_) => Over
  }

  /** The orders follow the system, and the first to run its tool is the one that wrote. */
  ghost predicate Follows(o: Orders, s: System) {
    && |o.tags| == |s.stages| && (forall i :: 0 <= i < |o.tags| ==> o.tags[i] == TagOf(s.stages[i]))
    && o.stored == s.stored && s.wrote == if o.ran == [] then [] else [o.ran[0]]
  }

  /** Nothing stands in the way of the write from these files. */
  ghost predicate WouldWrite(p: R.Platform, calls: seq<Call>, q: R.Request, files: R.Files) {
    forall i :: 0 <= i < |calls| ==> R.RunTool(p, files, q, calls[i].env).wrote
  }

  lemma AdvanceFollows(p: R.Platform, slot: string, calls: seq<Call>, q: R.Request, files: R.Files, o: Orders,
                       s: System, i: nat)
    requires R.HexDigests(p) && Retries(calls, q) && ChangesVersion(p, files, q) && WouldWrite(p, calls, q, files)
    requires i < |calls| == |s.stages| && WrittenOnce(p, files, q, s) && Told(slot, s) && Follows(o, s)
    ensures Follows(NextOrders(o, i), Advance(p, slot, calls, s, i))
  {
    assert calls[i].request == q;
    match s.stages[i]
    case Waiting =>
    case Missed =>
      if s.wrote == [] {
        assert R.RunTool(p, s.files, q, calls[i].env).wrote;
        assert o.ran == [] && (o.ran + [i])[0] == i;
      } else {
        NextWriteRefused(p, files, q, calls[i].env);
        assert (o.ran + [i])[0] == o.ran[0];
      }
    case Ran(answer) =>
      assert HasRun(s, i) && !answer.status.Uncertain? by { RanNotUncertain(slot, s, i); }
    case Finished(_) =>
  }

  lemma RanNotUncertain(slot: string, s: System, i: nat)
    requires i < |s.stages| && s.stages[i].Ran? && Told(slot, s)
    ensures HasRun(s, i) && !s.stages[i].answer.status.Uncertain?
  {
    assert HasRun(s, i);
  }

  lemma {:induction false} FollowsAlways(p: R.Platform, slot: string, calls: seq<Call>, q: R.Request, files: R.Files,
                                         o: Orders, s: System, schedule: seq<nat>)
    requires R.HexDigests(p) && Retries(calls, q) && ChangesVersion(p, files, q) && WouldWrite(p, calls, q, files)
    requires |calls| == |s.stages| && WrittenOnce(p, files, q, s) && Told(slot, s) && Follows(o, s)
    ensures Follows(OrdersOf(o, schedule), Run(p, slot, calls, s, schedule))
    decreases |schedule|
  {
    if schedule != [] {
      var i := schedule[0];
      if i < |calls| {
        AdvanceFollows(p, slot, calls, q, files, o, s, i);
        AdvanceTold(p, slot, calls, q, s, i);
        AdvanceWritesOnce(p, slot, calls, q, files, s, i);
        FollowsAlways(p, slot, calls, q, files, NextOrders(o, i), Advance(p, slot, calls, s, i), schedule[1..]);
      } else {
        FollowsAlways(p, slot, calls, q, files, o, s, schedule[1..]);
      }
    }
  }

  /** For retries of a write that nothing stands in the way of, the schedule alone decides whether the replay tells
      the truth: exactly when the retry that ran its tool first is also the one that stored last. */
  lemma ReplayTrueByScheduleExactly(p: R.Platform, slot: string, calls: seq<Call>, q: R.Request, before: R.State,
                                    schedule: seq<nat>, later: R.Request, env: R.Environment)
    requires R.HexDigests(p) && Retries(calls, q) && slot !in before.receipts && later.idempotencyKey != ""
    requires ChangesVersion(p, before.files, q) && WouldWrite(p, calls, q, before.files)
    ensures var t := Run(p, slot, calls, Start(before, |calls|), schedule);
            var o := OrdersOf(Fresh(|calls|), schedule);
            o.stored != [] ==>
              o.ran != [] && (R.Serve(p, R.State(t.files, t.receipts), slot, later, env).answer.status.Completed? <==>
                              o.stored[|o.stored| - 1] == o.ran[0])
  {
    var s := Start(before, |calls|);
    assert Told(slot, s) && WrittenOnce(p, before.files, q, s) && Follows(Fresh(|calls|), s);
    FollowsAlways(p, slot, calls, q, before.files, Fresh(|calls|), s, schedule);
    ReplayTrueExactly(p, slot, calls, q, before, schedule, later, env);
    StoredHasRun(Fresh(|calls|), schedule);
  }

  /** Whoever has stored has run. */
  ghost predicate RanFirst(o: Orders) {
    && (o.stored != [] ==> o.ran != []) && (forall i :: 0 <= i < |o.tags| && o.tags[i].Behind? ==> o.ran != [])
  }

  lemma {:induction false} StoredHasRun(o: Orders, schedule: seq<nat>)
    requires RanFirst(o)
    ensures RanFirst(OrdersOf(o, schedule))
    decreases |schedule|
  {
    if schedule != [] {
      if schedule[0] < |o.tags| {
        assert RanFirst(NextOrders(o, schedule[0]));
        StoredHasRun(NextOrders(o, schedule[0]), schedule[1..]);
      } else {
        StoredHasRun(o, schedule[1..]);
      }
    }
  }

  // ---------------------------------------------------------------- the ways it breaks, concretely

  lemma RunStep(p: R.Platform, slot: string, calls: seq<Call>, s: System, i: nat, rest: seq<nat>)
    requires i < |calls| == |s.stages|
    ensures Run(p, slot, calls, s, [i] + rest) == Run(p, slot, calls, Advance(p, slot, calls, s, i), rest)
  {
    assert ([i] + rest)[1..] == rest;
  }

  /** The schedule in which both calls look before either stores, and the refused one stores last. */
  const OVERLAP: seq<nat> := [0, 1, 0, 0, 1, 1]

  lemma RunOverlap(p: R.Platform, slot: string, calls: seq<Call>, s: System)
    requires |calls| == |s.stages| == 2
    ensures var a := Advance(p, slot, calls, Advance(p, slot, calls, s, 0), 1);
            var b := Advance(p, slot, calls, Advance(p, slot, calls, a, 0), 0);
            Run(p, slot, calls, s, OVERLAP) == Advance(p, slot, calls, Advance(p, slot, calls, b, 1), 1)
  {
    assert OVERLAP == [0] + ([1] + ([0] + ([0] + ([1] + ([1] + [])))));
    RunStep(p, slot, calls, s, 0, [1] + ([0] + ([0] + ([1] + ([1] + [])))));
    var s1 := Advance(p, slot, calls, s, 0);
    RunStep(p, slot, calls, s1, 1, [0] + ([0] + ([1] + ([1] + []))));
    var s2 := Advance(p, slot, calls, s1, 1);
    RunStep(p, slot, calls, s2, 0, [0] + ([1] + ([1] + [])));
    var s3 := Advance(p, slot, calls, s2, 0);
    RunStep(p, slot, calls, s3, 0, [1] + ([1] + []));
    var s4 := Advance(p, slot, calls, s3, 0);
    RunStep(p, slot, calls, s4, 1, [1] + []);
    RunStep(p, slot, calls, Advance(p, slot, calls, s4, 1), 1, []);
  }

  /** Two overlapping calls that both miss: each runs its tool, the second on what the first left, and the second's
      answer is the receipt that stays. */
  lemma OverlapRunsBoth(p: R.Platform, slot: string, calls: seq<Call>, before: R.State)
    requires |calls| == 2 && slot !in before.receipts
    requires !calls[0].request.tool.OtherTool? && !calls[1].request.tool.OtherTool?
    ensures var e := R.RunTool(p, before.files, calls[0].request, calls[0].env);
            var f := R.RunTool(p, e.files, calls[1].request, calls[1].env);
            var t := Run(p, slot, calls, Start(before, 2), OVERLAP);
            && t.files == f.files && t.wrote == (if e.wrote then [0] else []) + (if f.wrote then [1] else [])
            && t.stages == [Finished(e.answer), Finished(f.answer)]
            && (!f.answer.status.Uncertain? ==> slot in t.receipts && t.receipts[slot] == f.answer)
  {
    RunOverlap(p, slot, calls, Start(before, 2));
    var s := Start(before, 2);
    assert s.stages == [Waiting, Waiting];
    var s1 := Advance(p, slot, calls, s, 0);
    assert s1.stages == [Missed, Waiting];
    var s2 := Advance(p, slot, calls, s1, 1);
    assert s2.stages == [Missed, Missed];
    var e := R.RunTool(p, before.files, calls[0].request, calls[0].env);
    var s3 := Advance(p, slot, calls, s2, 0);
    assert s3.stages == [Ran(e.answer), Missed] && s3.files == e.files;
    var s4 := Advance(p, slot, calls, s3, 0);
    assert s4.stages == [Finished(e.answer), Missed];
    var f := R.RunTool(p, e.files, calls[1].request, calls[1].env);
    var s5 := Advance(p, slot, calls, s4, 1);
    assert s5.stages == [Finished(e.answer), Ran(f.answer)];
  }

  /** Two retries that overlap so: the file is in place, and every later call is told of a version conflict. */
  lemma OverlapLosesReceipt(p: R.Platform, slot: string, q: R.Request, env: R.Environment, before: R.State)
    requires R.HexDigests(p) && slot !in before.receipts && Retries([Call(q, env), Call(q, env)], q)
    requires R.RunTool(p, before.files, q, env).wrote && ChangesVersion(p, before.files, q)
    ensures var t := Run(p, slot, [Call(q, env), Call(q, env)], Start(before, 2), OVERLAP);
            t.wrote == [0] && slot in t.receipts && t.receipts[slot] == R.Fails(R.VersionConflict)
  {
    var calls := [Call(q, env), Call(q, env)];
    assert calls[0].request == q && !env.readFails;
    OverlapRunsBoth(p, slot, calls, before);
    FirstWrite(p, before.files, q, env);
    NextWriteRefused(p, before.files, q, env);
  }

  /** A write that leaves the digest it names puts the file in place twice: the guard does not see the first. */
  lemma SameVersionWritesTwice(p: R.Platform, slot: string, q: R.Request, env: R.Environment, before: R.State)
    requires R.HexDigests(p) && slot !in before.receipts && Retries([Call(q, env), Call(q, env)], q)
    requires q.tool.FileWrite? && R.RunTool(p, before.files, q, env).wrote && !ChangesVersion(p, before.files, q)
    ensures Run(p, slot, [Call(q, env), Call(q, env)], Start(before, 2), OVERLAP).wrote == [0, 1]
  {
    var calls := [Call(q, env), Call(q, env)];
    assert calls[0].request == q && !env.readFails;
    OverlapRunsBoth(p, slot, calls, before);
    FirstWrite(p, before.files, q, env);
    assert R.RunTool(p, R.RunTool(p, before.files, q, env).files, q, env).wrote;
  }

  const SAMPLE: R.Platform := R.Platform((s: string) => seq(64, _ => 'a'), (s: string) => Some(s))

  /** A call that creates an empty file. */
  function Creates(path: string): Call {
    var scope := R.Scope("r", "w", "u", "c", "n");
    Call(R.Request(scope, R.FileWrite, true, Some(R.Arguments(path, "", R.MISSING, "", "", false, false)), "k", false),
         R.Environment(false, false, false, false, false, R.Fails(R.InputInvalid)))
  }

  /** Two overlapping calls that create the same file, concretely: it is there, and the receipt says conflict. */
  lemma CreatedYetConflict()
    ensures var t := Run(SAMPLE, "", [Creates("a"), Creates("a")], Start(R.State(map[], map[]), 2), OVERLAP);
            "a" in t.files && "" in t.receipts && t.receipts[""] == R.Fails(R.VersionConflict)
  {
    var c := Creates("a");
    assert R.RunTool(SAMPLE, map[], c.request, c.env).wrote;
    assert |SAMPLE.digest("")| == 64 && |R.MISSING| == 7;
    OverlapLosesReceipt(SAMPLE, "", c.request, c.env, R.State(map[], map[]));
    assert c == Call(c.request, c.env);
    OverlapRunsBoth(SAMPLE, "", [c, c], R.State(map[], map[]));
    FirstWrite(SAMPLE, map[], c.request, c.env);
    NextWriteRefused(SAMPLE, map[], c.request, c.env);
  }

  /** Under one key but with different arguments both calls of an overlap write, concretely: only the receipt would
      have kept the second out. */
  lemma DifferentRequestsWriteTwice()
    ensures Run(SAMPLE, "", [Creates("a"), Creates("b")], Start(R.State(map[], map[]), 2), OVERLAP).wrote == [0, 1]
  {
    var calls := [Creates("a"), Creates("b")];
    OverlapRunsBoth(SAMPLE, "", calls, R.State(map[], map[]));
    assert R.RunTool(SAMPLE, map[], calls[0].request, calls[0].env).wrote;
    assert "a" != "b";
    assert R.RunTool(SAMPLE, map["a" := R.Utf8("")], calls[1].request, calls[1].env).wrote;
  }
}
