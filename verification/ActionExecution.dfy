/** A whole Action from end to end: what the handler was told, answered and staged, the check of its
    capabilities, the commits made of it, and the invocation around it. */
module ActionExecution {
  import opened Basics
  import opened Records
  import U = UnitOfWork
  import C = CanonicalCommits
  import P = Capabilities
  import O = HandlerOutput
  import I = Invocation

  /** What a handler ends with: its raw output and what it staged, an error, or a panic. */
  datatype Handled = Answered(payload: seq<O.Token>, staged: C.Staged) | Erred(fault: I.Fault) | Panicked

  /** One execution. The handler is any function of what its capability calls told it; `project` is the
      output projection for the caller, `number` how a JSON number is read. */
  datatype Execution = Execution(
    config: P.Config, calls: seq<P.Call>, handler: seq<P.Reply> -> Handled,
    sprint: Value -> string, number: string -> real, executionId: string, targetOk: bool,
    ofRecord: bool, recordFault: Option<I.Fault>, project: Data -> Option<Data>)

  const OUTPUT_INVALID := I.Fault(10)
  const CAPABILITY_INCOMPLETE := I.Fault(11)
  const COMMITS_INVALID := I.Fault(12)
  const PROJECTION_FAILED := I.Fault(13)

  function Lift(number: string -> real, v: O.Value): Value {
    match v
    case Plain(Str(s)) => Value.Text(s)
    case Plain(Num(text)) => Value.Number(number(text))
    case Plain(Bool(b)) => Value.Bool(b)
    case Plain(Null) => Value.Null
    case List(items) => Value.List(seq(|items|, i requires 0 <= i < |items| => Lift(number, items[i])))
    case Object(fields) => Value.Object(map name | name in fields :: Lift(number, fields[name]))
  }

  function LiftAll(number: string -> real, fields: map<string, O.Value>): Data {
    map name | name in fields :: Lift(number, fields[name])
  }

  function Session(x: Execution): P.State { P.Run(x.config, P.INITIAL, x.calls) }

  function Handling(x: Execution): Handled { x.handler(P.Replies(x.config, P.INITIAL, x.calls)) }

  /** What an execution hands to the invocation. */
  datatype Produced = Produced(commits: seq<C.Commit>, result: P.InvocationResult)

  function ResultOf(ofRecord: bool, output: Data): P.InvocationResult {
    var o := Some(P.Output(output, false));
    if ofRecord then P.InvocationResult(o, None, false) else P.InvocationResult(None, o, false)
  }

  /** Everything after the handler answered: decode, check the capabilities, build the commits. */
  function Complete(x: Execution, payload: seq<O.Token>, staged: C.Staged): Result<Produced, I.Fault> {
    var decoded := O.DecodeOutput(payload);
    if decoded.Err? then Err(OUTPUT_INVALID)
    else
      var output := LiftAll(x.number, decoded.value);
      if P.Completion(x.config, Session(x), output).Some? then Err(CAPABILITY_INCOMPLETE)
      else if !x.targetOk || C.SideEffectsOnly(staged) then Err(COMMITS_INVALID)
      else if x.ofRecord && x.recordFault.Some? then Err(x.recordFault.value)
      else Ok(Produced(C.Canonical(staged, x.sprint, x.executionId), ResultOf(x.ofRecord, output)))
  }

  function Produce(x: Execution): Result<Produced, I.Fault> {
    match Handling(x)
    case Answered(payload, staged) => Complete(x, payload, staged)
    case Erred(fault) => Err(fault)
    case Panicked => Err(I.HANDLER_PANICKED)
  }

  /** The part of `execute` behind the handler, against its function. */
  method CompleteExecution(x: Execution, session: P.CapabilitySession, payload: seq<O.Token>, staged: C.Staged)
    returns (r: Result<Produced, I.Fault>)
    requires session.config == x.config && session.Contents() == Session(x)
    ensures r == Complete(x, payload, staged)
  {
    var decoded := O.DecodeBusinessHandlerOutput(payload);
    if decoded.Err? {
      return Err(OUTPUT_INVALID);
    }
    var output := LiftAll(x.number, decoded.value);
    var incomplete := session.ValidateCapabilityCompletion(output);
    if incomplete.Some? {
      return Err(CAPABILITY_INCOMPLETE);
    }
    var commits := C.BuildCommits(staged, x.sprint, x.executionId, x.targetOk);
    if commits.Err? {
      return Err(COMMITS_INVALID);
    }
    if x.ofRecord && x.recordFault.Some? {
      return Err(x.recordFault.value);
    }
    r := Ok(Produced(commits.value, ResultOf(x.ofRecord, output)));
  }

  function ProjectedOutput(x: Execution, o: Option<P.Output>): Option<P.Output> {
    if o.Some? && x.project(o.value.fields).Some? then Some(P.Output(x.project(o.value.fields).value, o.value.noStore))
    else None
  }

  /** The result after projection: what the receipt of the commit holds. */
  function Receipt(x: Execution): P.InvocationResult
    requires Produce(x).Ok?
  {
    var r := Produce(x).value.result;
    P.InvocationResult(ProjectedOutput(x, r.record), ProjectedOutput(x, r.objectOutput), r.noStore)
  }

  /** What the caller gets: the receipt after the hook. */
  function Returned(x: Execution): P.InvocationResult
    requires Produce(x).Ok?
  {
    P.PostCommit(x.config, Session(x), Receipt(x)).1
  }

  function Output(r: P.InvocationResult): Data {
    if r.record.Some? then r.record.value.fields else if r.objectOutput.Some? then r.objectOutput.value.fields
    else map[]
  }

  /** The invocation's script, with the execution in its place; the session's hook never panics. */
  function ScriptFor(x: Execution, sc: I.Script): I.Script {
    if Handling(x).Panicked? then sc.(execution := I.Panics)
    else if Produce(x).Err? then sc.(execution := I.Errs(Produce(x).error))
    else
      var p := Produce(x).value;
      sc.(execution := I.Passes, commits := p.commits, hook := Some(false), receiptValid := true,
          projection := if x.project(Output(p.result)).Some? then I.Passes else I.Errs(PROJECTION_FAILED))
  }

  // ---------------------------------------------------------------- what an execution produces

  /** The payload is one JSON object with no repeated name. */
  ghost predicate OneObject(payload: seq<O.Token>) {
    exists j: O.Json :: j.Obj? && O.NoRepeats(j) && payload == O.Print(j)
  }

  lemma OneObjectExactly(payload: seq<O.Token>)
    ensures O.DecodeOutput(payload).Ok? <==> OneObject(payload)
  {
    if O.DecodeOutput(payload).Ok? {
      O.DecodeExactly(payload, O.DecodeOutput(payload).value);
    }
    if j: O.Json :| j.Obj? && O.NoRepeats(j) && payload == O.Print(j) {
      O.DecodeExactly(payload, O.Meaning(j).fields);
    }
  }

  /** An answer of the handler is completed exactly when it is one object with no repeated name, every capability is
      complete, the target is valid, no side effect lacks a mutation, and a record action's own check passes; the
      first of these that fails is the fault. What is produced is the decoded output, as the result of the record or
      of the object. */
  lemma CompletesExactly(x: Execution, payload: seq<O.Token>, staged: C.Staged)
    ensures var r := Complete(x, payload, staged);
            var complete := O.DecodeOutput(payload).Ok?
                            && P.Completion(x.config, Session(x),
                                            LiftAll(x.number, O.DecodeOutput(payload).value)).None?;
            var mutated := staged.plans != [] || staged.setCommits != [];
            var bare := && staged.jobs == [] && staged.intents == [] && staged.notifications == []
                        && staged.starts == [] && staged.withdrawals == [];
            && (!OneObject(payload) ==> r == Err(OUTPUT_INVALID))
            && (OneObject(payload) && !complete ==> r == Err(CAPABILITY_INCOMPLETE))
            && (complete && !(x.targetOk && (mutated || bare)) ==> r == Err(COMMITS_INVALID))
            && (complete && x.targetOk && (mutated || bare) && x.ofRecord && x.recordFault.Some? ==>
                  r == Err(x.recordFault.value))
            && (r.Ok? <==> complete && x.targetOk && (mutated || bare) && !(x.ofRecord && x.recordFault.Some?))
            && (r.Ok? ==>
                  && !r.value.result.noStore
                  && (r.value.result.record.Some? <==> x.ofRecord)
                  && (r.value.result.objectOutput.Some? <==> !x.ofRecord)
                  && Output(r.value.result) == LiftAll(x.number, O.DecodeOutput(payload).value)
                  && C.Conserves(staged, x.sprint, x.executionId, r.value.commits))
  {
    OneObjectExactly(payload);
    assert C.SideEffectsOnly(staged) <==>
           staged.plans == [] && staged.setCommits == []
           && !(&& staged.jobs == [] && staged.intents == [] && staged.notifications == []
                && staged.starts == [] && staged.withdrawals == []);
    if Complete(x, payload, staged).Ok? {
      C.CanonicalConserves(staged, x.sprint, x.executionId);
    }
  }

  /** Reading the output into record values loses nothing, as long as reading a number does not. */
  lemma {:induction false} LiftInjective(number: string -> real, v: O.Value, w: O.Value)
    requires forall a, b :: number(a) == number(b) ==> a == b
    requires Lift(number, v) == Lift(number, w)
    ensures v == w
    decreases v
  {
    match v {
      case Plain(s) =>
        match s {
          case Str(_) =>
          case Num(a) => assert number(a) == number(w.scalar.text);
          case Bool(_) =>
          case Null =>
        }
      case List(items) =>
        assert |items| == |w.items| by {
          assert |Lift(number, v).items| == |Lift(number, w).items|;
        }
        forall i | 0 <= i < |items| ensures items[i] == w.items[i] {
          assert Lift(number, v).items[i] == Lift(number, w).items[i];
          LiftInjective(number, items[i], w.items[i]);
        }
      case Object(fields) =>
        assert fields.Keys == Lift(number, v).fields.Keys == Lift(number, w).fields.Keys == w.fields.Keys;
        forall name | name in fields ensures fields[name] == w.fields[name] {
          assert Lift(number, v).fields[name] == Lift(number, w).fields[name];
          LiftInjective(number, fields[name], w.fields[name]);
        }
    }
  }

  // ---------------------------------------------------------------- a success, from end to end

  lemma ProducedMeans(x: Execution)
    requires Produce(x).Ok?
    ensures Handling(x).Answered? && !C.SideEffectsOnly(Handling(x).staged) && O.DecodeOutput(Handling(x).payload).Ok?
    ensures var output := LiftAll(x.number, O.DecodeOutput(Handling(x).payload).value);
            && P.Completion(x.config, Session(x), output).None?
            && Produce(x).value == Produced(C.Canonical(Handling(x).staged, x.sprint, x.executionId),
                   ResultOf(x.ofRecord, output))
  {
  }

  /** What a successful invocation does: commit, hook, and activation of the starts if there are any. */
  function CommittedLog(activates: bool, starts: seq<C.WorkflowStart>): seq<I.Effect> {
    [I.CommitReturned(U.Done), I.HookRan] + (if activates && starts != [] then [I.WorkflowsActivated(starts)] else [])
  }

  /** A successful invocation committed exactly what the handler staged, from an output that is one JSON object
      with no repeated name, after every capability call had come back sound; and it activated exactly the
      workflow starts staged and planned, after the commit and the hook. */
  lemma SuccessEndToEnd(x: Execution, base: I.Script)
    requires I.HandlerSteps(base.steps) && I.Invoked(ScriptFor(x, base)).answer.Succeeded?
    ensures Produce(x).Ok? && Handling(x).Answered?
    ensures exists j: O.Json :: j.Obj? && O.NoRepeats(j) && Handling(x).payload == O.Print(j)
    ensures P.LogSound(x.config, Session(x).log) && P.AtMostOnceEach(Session(x).log)
    ensures C.Conserves(Handling(x).staged, x.sprint, x.executionId, ScriptFor(x, base).commits)
    ensures var staged := Handling(x).staged;
            var starts := C.Gather(C.BaseOf(staged), C.StartsOf) + staged.starts;
            I.Invoked(ScriptFor(x, base)).log == CommittedLog(base.activator.Some?, starts)
  {
    SuccessProduces(x, base);
    ProducedMeans(x);
    var decoded := O.DecodeOutput(Handling(x).payload).value;
    O.DecodeExactly(Handling(x).payload, decoded);
    assert P.LogSound(x.config, Session(x).log) && P.AtMostOnceEach(Session(x).log) by {
      P.CompletionExactly(x.config, x.calls, LiftAll(x.number, decoded));
    }
    C.CanonicalConserves(Handling(x).staged, x.sprint, x.executionId);
    SuccessLog(ScriptFor(x, base));
  }

  lemma SuccessProduces(x: Execution, base: I.Script)
    requires I.HandlerSteps(base.steps) && I.Invoked(ScriptFor(x, base)).answer.Succeeded?
    ensures Produce(x).Ok?
    ensures ScriptFor(x, base).commits == Produce(x).value.commits && ScriptFor(x, base).hook == Some(false)
  {
    I.SucceedsExactly(ScriptFor(x, base));
  }

  lemma SuccessLog(sc: I.Script)
    requires I.HandlerSteps(sc.steps) && I.Invoked(sc).answer.Succeeded? && sc.hook == Some(false)
    ensures I.Invoked(sc).log == CommittedLog(sc.activator.Some?, I.AllStarts(sc.commits))
  {
    I.SuccessMeansCommitted(sc);
    assert [I.CommitReturned(U.Done)] + [I.HookRan] == [I.CommitReturned(U.Done), I.HookRan];
  }

  // ---------------------------------------------------------------- where the credential goes

  /** The caller of a successful invocation gets its receipt, and beside it the credential and nothing else: in the
      granted field, which the handler's own output left free, with the result marked as not to be stored. That is
      so whatever the projection did to the field: removed or masked, the credential is written there. A value of
      the receipt is lost exactly when the projection put another into that field. */
  lemma CredentialReturnedOnce(x: Execution)
    requires Produce(x).Ok?
    ensures Session(x).credential.None? ==> Returned(x) == Receipt(x)
    ensures Session(x).credential.Some? ==>
              var field, k := P.CredentialField(x.config), Session(x).credential.value;
              && Returned(x).noStore && !P.Occupied(Output(Produce(x).value.result), field)
              && P.OnlyFieldAdded(Receipt(x).record, Returned(x).record, field, k)
              && P.OnlyFieldAdded(Receipt(x).objectOutput, Returned(x).objectOutput, field, k)
              && P.ReplacesOnlyIfOccupied(Receipt(x).record, Returned(x).record, field, k)
              && P.ReplacesOnlyIfOccupied(Receipt(x).objectOutput, Returned(x).objectOutput, field, k)
  {
    ProducedMeans(x);
    var output := LiftAll(x.number, O.DecodeOutput(Handling(x).payload).value);
    P.CredentialHandedOutOnce(x.config, Session(x), output, Receipt(x));
  }

  /** The execution with every password blotted out. */
  function Masked(x: Execution): Execution { x.(calls := P.MaskCalls(x.calls)) }

  lemma CompletionIgnoresPassword(c: P.Config, s: P.State, output: Data)
    ensures P.Completion(c, P.MaskState(s), output) == P.Completion(c, s, output)
  {
  }

  /** No password reaches the handler, the commits or the receipt: with every password blotted out, the
      execution produces the same, the invocation takes the same steps, and the receipt is the same. Only what
      the hook puts into the result depends on it. */
  lemma PasswordOnlyReturned(x: Execution, base: I.Script)
    ensures Handling(Masked(x)) == Handling(x) && Produce(Masked(x)) == Produce(x)
    ensures I.Invoked(ScriptFor(Masked(x), base)) == I.Invoked(ScriptFor(x, base))
    ensures Produce(x).Ok? ==> Receipt(Masked(x)) == Receipt(x)
  {
    assert P.MaskState(P.INITIAL) == P.INITIAL by { assert P.MaskLog([]) == []; }
    P.CredentialInvisible(x.config, P.INITIAL, x.calls);
    assert Session(Masked(x)) == P.MaskState(Session(x));
    assert Produce(Masked(x)) == Produce(x) by {
      if Handling(x).Answered? {
        CompleteIgnoresPassword(x, Handling(x).payload, Handling(x).staged);
      }
    }
  }

  lemma CompleteIgnoresPassword(x: Execution, payload: seq<O.Token>, staged: C.Staged)
    requires Session(Masked(x)) == P.MaskState(Session(x))
    ensures Complete(Masked(x), payload, staged) == Complete(x, payload, staged)
  {
    if O.DecodeOutput(payload).Ok? {
      CompletionIgnoresPassword(x.config, Session(x), LiftAll(x.number, O.DecodeOutput(payload).value));
    }
  }
}
