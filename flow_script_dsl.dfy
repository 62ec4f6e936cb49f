/** The declarative flow-script DSL: a script is a list of named steps and an optional cancel
    handler; the executor runs the steps in order until one raises or the shared finish flag
    is set, and on a cancellation runs the handler once before rethrowing. Step bodies are
    sequences of actions; everything a body does besides finishing, raising and running a
    subflow is an opaque `Work` action that leaves a mark in the event log. */
module FlowScriptDsl {
  import opened Common
  import opened NavFlow
  import opened NavFlowScript

  datatype Action =
    | Work(note: string)          // any other call the block makes
    | Finish                       // `finish()`: marks the shared flag; the block goes on
    | Raise(error: Error)          // the block throws
    | RunSubflow(script: Script)   // `runSubflow { ... }`: same scope, same finish flag

  datatype FlowStep = FlowStep(name: string, body: seq<Action>)

  datatype CancelHandler = CancelHandler(reason: Option<string>, body: seq<Action>)

  datatype Script = Script(steps: seq<FlowStep>, cancelHandler: Option<CancelHandler>)

  /** What running a script leaves behind, in order. */
  datatype Event =
    | StepStarted(name: string)    // the "Step: <name>" trace
    | Worked(note: string)
    | CancelHandlerRan(reason: Option<string>)

  /** The finish flag afterwards, the events, and the exception that escaped, if any. */
  datatype Exec = Exec(finished: bool, events: seq<Event>, error: Option<Error>)

  /** Where a body lives in its script. */
  datatype Loc = InStep(i: nat) | InHandler

  predicate ValidLoc(sc: Script, loc: Loc)
  {
    match loc
    case InStep(i) => i < |sc.steps|
    case InHandler => sc.cancelHandler.Some?
  }

  function BodyOf(sc: Script, loc: Loc): seq<Action>
    requires ValidLoc(sc, loc)
  {
    match loc
    case InStep(i) => sc.steps[i].body
    case InHandler => sc.cancelHandler.value.body
  }

  /** `events` happened before `x`. */
  function Then(events: seq<Event>, x: Exec): Exec
  {
    Exec(x.finished, events + x.events, x.error)
  }

  lemma ThenThen(a: seq<Event>, b: seq<Event>, x: Exec)
    ensures Then(a, Then(b, x)) == Then(a + b, x)
  {
    assert a + (b + x.events) == (a + b) + x.events;
  }

  /** `FlowScriptExecutor.run` on a fresh or reused executor: `spent` is its `cancelInvoked`.
      A cancellation escaping the steps runs the handler (whose own exceptions are swallowed)
      the first time only; the exception is rethrown either way. */
  function RunScript(sc: Script, fin: bool, spent: bool): (r: Exec)
    ensures r.error == RunSteps(sc, 0, fin).error
    decreases sc, 2, 0
  {
    var x := RunSteps(sc, 0, fin);
    if x.error.Some? && IsCancellation(x.error.value) && !spent && sc.cancelHandler.Some? then
      var y := RunBody(sc, InHandler, 0, x.finished);
      Exec(y.finished, x.events + [CancelHandlerRan(sc.cancelHandler.value.reason)] + y.events, x.error)
    else x
  }

  /** The step loop from step `i`: stop once the flag is set, otherwise trace and run. */
  function RunSteps(sc: Script, i: nat, fin: bool): Exec
    requires i <= |sc.steps|
    decreases sc, 1, |sc.steps| - i
  {
    if i == |sc.steps| || fin then Exec(fin, [], None)
    else
      var b := Then([StepStarted(sc.steps[i].name)], RunBody(sc, InStep(i), 0, fin));
      if b.error.Some? then b else Then(b.events, RunSteps(sc, i + 1, b.finished))
  }

  /** A body from action `j`. */
  function RunBody(sc: Script, loc: Loc, j: nat, fin: bool): Exec
    requires ValidLoc(sc, loc) && j <= |BodyOf(sc, loc)|
    decreases sc, 0, |BodyOf(sc, loc)| - j
  {
    var body := BodyOf(sc, loc);
    if j == |body| then Exec(fin, [], None)
    else
      match body[j]
      case Work(note) => Then([Worked(note)], RunBody(sc, loc, j + 1, fin))
      case Finish => RunBody(sc, loc, j + 1, true)
      case Raise(e) => Exec(fin, [], Some(e))
      case RunSubflow(sub) =>
        assert body[j] in body;
        assert loc.InStep? ==> sc.steps[loc.i] in sc.steps;
        var x := RunScript(sub, fin, false);
        if x.error.Some? then x else Then(x.events, RunBody(sc, loc, j + 1, x.finished))
  }

  /** A script run once the flag is set starts no step, raises nothing and runs no handler;
      so a subflow run after `finish()` does nothing. */
  lemma FinishedScriptIsInert(sc: Script, spent: bool)
    ensures RunScript(sc, true, spent) == Exec(true, [], None)
  {
  }

  /** Once set, the finish flag stays set to the end of the body, through subflows. */
  lemma {:induction false} BodyKeepsFinished(sc: Script, loc: Loc, j: nat)
    requires ValidLoc(sc, loc) && j <= |BodyOf(sc, loc)|
    ensures RunBody(sc, loc, j, true).finished
    decreases |BodyOf(sc, loc)| - j
  {
    var body := BodyOf(sc, loc);
    if j < |body| {
      match body[j]
      case Work(_) => BodyKeepsFinished(sc, loc, j + 1);
      case Finish => BodyKeepsFinished(sc, loc, j + 1);
      case Raise(_) =>
      case RunSubflow(sub) =>
        FinishedScriptIsInert(sub, false);
        BodyKeepsFinished(sc, loc, j + 1);
    }
  }

  /** A body that calls `finish()` and completes leaves the flag set. */
  lemma {:induction false} FinishCallSetsFlag(sc: Script, loc: Loc, j: nat, fin: bool)
    requires ValidLoc(sc, loc) && j <= |BodyOf(sc, loc)|
    requires Finish in BodyOf(sc, loc)[j..]
    requires RunBody(sc, loc, j, fin).error.None?
    ensures RunBody(sc, loc, j, fin).finished
    decreases |BodyOf(sc, loc)| - j
  {
    var body := BodyOf(sc, loc);
    assert body[j..][0] == body[j];
    if body[j] == Finish {
      BodyKeepsFinished(sc, loc, j + 1);
    } else {
      assert body[j..] == [body[j]] + body[j + 1..];
      match body[j]
      case Work(_) => FinishCallSetsFlag(sc, loc, j + 1, fin);
      case RunSubflow(sub) =>
        var x := RunScript(sub, fin, false);
        FinishCallSetsFlag(sc, loc, j + 1, x.finished);
    }
  }

  /** A step whose body calls `finish()` and completes is the last step that starts: the
      script ends normally right after it. */
  lemma FinishEndsScript(sc: Script, i: nat, fin: bool)
    requires i < |sc.steps| && !fin
    requires Finish in sc.steps[i].body
    requires RunBody(sc, InStep(i), 0, fin).error.None?
    ensures RunSteps(sc, i, fin)
         == Exec(true, [StepStarted(sc.steps[i].name)] + RunBody(sc, InStep(i), 0, fin).events, None)
  {
    assert sc.steps[i].body[0..] == sc.steps[i].body;
    FinishCallSetsFlag(sc, InStep(i), 0, fin);
  }

  /** A body without finish, raise or subflow. */
  predicate PlainBody(body: seq<Action>)
  {
    forall k :: 0 <= k < |body| ==> body[k].Work?
  }

  /** Reference trace of plain steps: each step's start, then its work, in order. */
  function PlainTrace(steps: seq<FlowStep>): seq<Event>
  {
    if steps == [] then []
    else [StepStarted(steps[0].name)] + WorkTrace(steps[0].body) + PlainTrace(steps[1..])
  }

  function WorkTrace(body: seq<Action>): seq<Event>
  {
    if body == [] then []
    else (if body[0].Work? then [Worked(body[0].note)] else []) + WorkTrace(body[1..])
  }

  lemma {:induction false} PlainBodyRuns(sc: Script, loc: Loc, j: nat, fin: bool)
    requires ValidLoc(sc, loc) && j <= |BodyOf(sc, loc)| && PlainBody(BodyOf(sc, loc))
    ensures RunBody(sc, loc, j, fin) == Exec(fin, WorkTrace(BodyOf(sc, loc)[j..]), None)
    decreases |BodyOf(sc, loc)| - j
  {
    var body := BodyOf(sc, loc);
    if j < |body| {
      assert body[j..][1..] == body[j + 1..];
      PlainBodyRuns(sc, loc, j + 1, fin);
    } else {
      assert body[j..] == [];
    }
  }

  lemma {:induction false} PlainStepsRun(sc: Script, i: nat)
    requires i <= |sc.steps|
    requires forall k :: 0 <= k < |sc.steps| ==> PlainBody(sc.steps[k].body)
    ensures RunSteps(sc, i, false) == Exec(false, PlainTrace(sc.steps[i..]), None)
    decreases |sc.steps| - i
  {
    if i < |sc.steps| {
      assert sc.steps[i..][0] == sc.steps[i];
      assert sc.steps[i..][1..] == sc.steps[i + 1..];
      PlainBodyRuns(sc, InStep(i), 0, false);
      assert sc.steps[i].body[0..] == sc.steps[i].body;
      PlainStepsRun(sc, i + 1);
    } else {
      assert sc.steps[i..] == [];
    }
  }

  /** With no finish, raise or subflow anywhere, every step runs once, in declaration order,
      and the cancel handler never runs. */
  lemma PlainScriptRunsEveryStep(sc: Script, spent: bool)
    requires forall k :: 0 <= k < |sc.steps| ==> PlainBody(sc.steps[k].body)
    ensures RunScript(sc, false, spent) == Exec(false, PlainTrace(sc.steps), None)
  {
    PlainStepsRun(sc, 0);
    assert sc.steps[0..] == sc.steps;
  }

  /** The exception escaping the steps is the one the executor raises, whatever the handler
      does; the handler leaves its mark only after a cancellation, only on an executor that
      has not run it, and only when declared. */
  lemma CancelHandlerOnlyOnCancellation(sc: Script, fin: bool, spent: bool)
    ensures RunScript(sc, fin, spent).error == RunSteps(sc, 0, fin).error
    ensures var x := RunSteps(sc, 0, fin);
      (!(x.error.Some? && IsCancellation(x.error.value) && !spent && sc.cancelHandler.Some?))
      <==> RunScript(sc, fin, spent) == x
  {
    var x := RunSteps(sc, 0, fin);
    if x.error.Some? && IsCancellation(x.error.value) && !spent && sc.cancelHandler.Some? {
      assert |RunScript(sc, fin, spent).events| > |x.events|;
    }
  }

  class FinishFlag {
    var finished: bool

    constructor ()
      ensures !finished
    {
      finished := false;
    }

    method MarkFinished()
      modifies this
      ensures finished
    {
      finished := true;
    }
  }

  class FlowScriptExecutor {
    const script: Script
    const flag: FinishFlag
    var cancelInvoked: bool

    /** A subflow's executor shares its parent's flag; the top one gets a new flag. */
    constructor (script: Script, flag: FinishFlag)
      ensures this.script == script && this.flag == flag && !cancelInvoked
    {
      this.script := script;
      this.flag := flag;
      cancelInvoked := false;
    }

    /** `run`: the step loop, and the cancel handler on the first cancellation. */
    method Run() returns (events: seq<Event>, error: Option<Error>)
      modifies this, flag
      ensures var x := RunScript(script, old(flag.finished), old(cancelInvoked));
        events == x.events && error == x.error && flag.finished == x.finished
      ensures cancelInvoked == (old(cancelInvoked) || (error.Some? && IsCancellation(error.value)))
      decreases script, 2, 0
    {
      ghost var f0 := flag.finished;
      var i := 0;
      events := [];
      error := None;
      while i < |script.steps| && !flag.finished && error.None?
        invariant 0 <= i <= |script.steps|
        invariant error.None? ==> RunSteps(script, 0, f0) == Then(events, RunSteps(script, i, flag.finished))
        invariant error.Some? ==> RunSteps(script, 0, f0) == Exec(flag.finished, events, error)
        invariant cancelInvoked == old(cancelInvoked)
        decreases |script.steps| - i, if error.None? then 1 else 0
      {
        var stepEvents, stepError := RunStep(i);
        events := events + stepEvents;
        error := stepError;
        if stepError.None? {
          i := i + 1;
        }
      }
      if error.None? {
        assert RunSteps(script, i, flag.finished) == Exec(flag.finished, [], None);
        assert events + [] == events;
      }
      if error.Some? && IsCancellation(error.value) {
        if !cancelInvoked {
          cancelInvoked := true;
          if script.cancelHandler.Some? {
            // runCatching: whatever the handler raises is dropped
            var handlerEvents, _ := RunActions(script, InHandler);
            events := events + [CancelHandlerRan(script.cancelHandler.value.reason)] + handlerEvents;
          }
        }
      }
    }

    /** One pass of the loop: the trace, then the step's block. */
    method RunStep(i: nat) returns (events: seq<Event>, error: Option<Error>)
      requires i < |script.steps| && !flag.finished
      modifies flag
      ensures var x := RunSteps(script, i, old(flag.finished));
        (error.None? ==> x == Then(events, RunSteps(script, i + 1, flag.finished)))
        && (error.Some? ==> x == Exec(flag.finished, events, error))
      decreases script, 1, 2
    {
      ghost var b := RunBody(script, InStep(i), 0, flag.finished);
      var bodyEvents;
      bodyEvents, error := RunActions(script, InStep(i));
      events := [StepStarted(script.steps[i].name)] + bodyEvents;
      if error.None? {
        ThenThen([StepStarted(script.steps[i].name)], bodyEvents, RunSteps(script, i + 1, flag.finished));
      }
    }

    /** One body, action by action. */
    method RunActions(sc: Script, loc: Loc) returns (events: seq<Event>, error: Option<Error>)
      requires ValidLoc(sc, loc)
      modifies flag
      ensures var x := RunBody(sc, loc, 0, old(flag.finished));
        events == x.events && error == x.error && flag.finished == x.finished
      decreases sc, 1, 1
    {
      ghost var f0 := flag.finished;
      var j := 0;
      events := [];
      error := None;
      while j < |BodyOf(sc, loc)| && error.None?
        invariant 0 <= j <= |BodyOf(sc, loc)|
        invariant error.None? ==> RunBody(sc, loc, 0, f0) == Then(events, RunBody(sc, loc, j, flag.finished))
        invariant error.Some? ==> RunBody(sc, loc, 0, f0) == Exec(flag.finished, events, error)
        decreases |BodyOf(sc, loc)| - j, if error.None? then 1 else 0
      {
        var actionEvents, actionError := RunAction(sc, loc, j);
        if actionError.None? {
          ThenThen(events, actionEvents, RunBody(sc, loc, j + 1, flag.finished));
          j := j + 1;
        }
        events := events + actionEvents;
        error := actionError;
      }
      if error.None? {
        assert events + [] == events;
      }
    }

    /** One action; a subflow runs on a new executor sharing the flag. */
    method RunAction(sc: Script, loc: Loc, j: nat) returns (events: seq<Event>, error: Option<Error>)
      requires ValidLoc(sc, loc) && j < |BodyOf(sc, loc)|
      modifies flag
      ensures var x := RunBody(sc, loc, j, old(flag.finished));
        (error.None? ==> x == Then(events, RunBody(sc, loc, j + 1, flag.finished)))
        && (error.Some? ==> x == Exec(flag.finished, events, error))
      decreases sc, 1, 0
    {
      var body := BodyOf(sc, loc);
      match body[j] {
        case Work(note) =>
          events, error := [Worked(note)], None;
        case Finish =>
          flag.MarkFinished();
          events, error := [], None;
        case Raise(e) =>
          events, error := [], Some(e);
        case RunSubflow(sub) =>
          assert body[j] in body;
          assert loc.InStep? ==> sc.steps[loc.i] in sc.steps;
          var child := new FlowScriptExecutor(sub, flag);
          events, error := child.Run();
          if error.None? {
            assert events + [] == events;
          }
      }
    }
  }

  class FlowScriptBuilder {
    var steps: seq<FlowStep>
    var cancelHandler: Option<CancelHandler>

    constructor ()
      ensures steps == [] && cancelHandler == None
    {
      steps := [];
      cancelHandler := None;
    }

    method Step(name: string, body: seq<Action>)
      modifies this`steps
      ensures steps == old(steps) + [FlowStep(name, body)]
    {
      steps := steps + [FlowStep(name, body)];
    }

    /** The last `cancel` wins. */
    method Cancel(reason: Option<string>, body: seq<Action>)
      modifies this`cancelHandler
      ensures cancelHandler == Some(CancelHandler(reason, body))
    {
      cancelHandler := Some(CancelHandler(reason, body));
    }

    /** A snapshot: later calls on the builder do not change a built script. */
    method Build() returns (sc: Script)
      ensures sc.steps == steps && sc.cancelHandler == cancelHandler
    {
      sc := Script(steps, cancelHandler);
    }
  }

  /** `runFlow`: build the script, run it on a new executor with a new flag inside a new
      script scope, and dispose the scope afterwards. */
  method RunFlow(flow: NavFlow, tracing: bool, builder: FlowScriptBuilder)
    returns (scope: ScriptScope, events: seq<Event>, error: Option<Error>)
    ensures var x := RunScript(Script(builder.steps, builder.cancelHandler), false, false);
      events == x.events && error == x.error
    ensures fresh(scope) && scope.flow == flow && !scope.open && scope.queue == []
  {
    var sc := builder.Build();
    var flag := new FinishFlag();
    var executor := new FlowScriptExecutor(sc, flag);
    scope := new ScriptScope(flow, tracing);
    events, error := executor.Run();
    scope.Dispose();
  }

  /** `FlowCallResult`: `onSuccess` fires only for a non-null value, `onFailure` only for an
      exception. */
  datatype CallResult<+T> = CallResult(result: Try<Option<T>>)
  {
    function OnSuccessValue(): Option<T>
    {
      if result.Success? then result.value else None
    }

    function OnFailureError(): Option<Error>
    {
      if result.Failure? then Some(result.error) else None
    }
  }

  /** `call { ... }`: a cancellation propagates; any other exception is captured. */
  function Call<T>(outcome: Try<Option<T>>): (r: Try<CallResult<T>>)
    ensures r.Failure? <==> outcome.Failure? && IsCancellation(outcome.error)
    ensures r.Failure? ==> r.error == outcome.error
    ensures r.Success? ==> r.value.result == outcome
  {
    if outcome.Failure? && IsCancellation(outcome.error) then Failure(outcome.error)
    else Success(CallResult(outcome))
  }

  /** At most one of the two callbacks fires; a null success fires neither. */
  lemma CallbacksExclusive<T>(c: CallResult<T>)
    ensures !(c.OnSuccessValue().Some? && c.OnFailureError().Some?)
    ensures c.OnSuccessValue().Some? <==> c.result.Success? && c.result.value.Some?
    ensures c.OnFailureError().Some? <==> c.result.Failure?
  {
  }

  /** One `on<T>` or `match` case of a `branch`. */
  datatype BranchCase = OnTypeBranch(t: TypeTag) | MatchBranch(pred: Output -> bool)
  {
    predicate Accepts(o: Output)
    {
      match this
      case OnTypeBranch(t) => OutputIs(o, t)
      case MatchBranch(p) => p(o)
    }
  }

  /** Which handler `handle` runs. */
  datatype Handled = Branch(index: nat) | Fallback | Unhandled

  /** `BranchBuilder.handle`: the first accepting case, else the fallback when declared. */
  function Handle(cases: seq<BranchCase>, hasFallback: bool, o: Output): (h: Handled)
    ensures h.Branch? ==> h.index < |cases| && cases[h.index].Accepts(o)
                          && forall k :: 0 <= k < h.index ==> !cases[k].Accepts(o)
    ensures !h.Branch? ==> forall k :: 0 <= k < |cases| ==> !cases[k].Accepts(o)
    ensures h.Fallback? <==> !h.Branch? && hasFallback
  {
    if cases == [] then (if hasFallback then Fallback else Unhandled)
    else if cases[0].Accepts(o) then Branch(0)
    else
      match Handle(cases[1..], hasFallback, o)
      case Branch(k) => Branch(k + 1)
      case other => other
  }

  function Handles(cases: seq<BranchCase>, hasFallback: bool): Output -> bool
  {
    o => !Handle(cases, hasFallback, o).Unhandled?
  }

  /** `branch { ... }`: skips outputs no case handles and returns after handling one. */
  method RunBranch(scope: ScriptScope, cases: seq<BranchCase>, hasFallback: bool)
    returns (r: Try<(Output, Handled)>)
    modifies scope`queue
    ensures var k := FirstSatisfying(old(scope.queue), Handles(cases, hasFallback));
      (k >= 0 ==> r == Success((old(scope.queue)[k], Handle(cases, hasFallback, old(scope.queue)[k])))
                  && scope.queue == old(scope.queue)[k + 1..])
      && (k == -1 ==> r == Failure(Stalled(scope.open)) && scope.queue == [])
  {
    ghost var i := 0;
    while true
      invariant 0 <= i <= |old(scope.queue)| && scope.queue == old(scope.queue)[i..]
      invariant forall j :: 0 <= j < i ==> Handle(cases, hasFallback, old(scope.queue)[j]).Unhandled?
      decreases |scope.queue|
    {
      var next := scope.AwaitOutput(_ => true);
      if next.Failure? {
        return Failure(next.error);
      }
      i := i + 1;
      var h := Handle(cases, hasFallback, next.value);
      if !h.Unhandled? {
        return Success((next.value, h));
      }
    }
  }

  /** With an `otherwise`, a branch handles the very first output. */
  lemma FallbackTakesFirstOutput(cases: seq<BranchCase>, q: seq<Output>)
    requires q != []
    ensures FirstSatisfying(q, Handles(cases, true)) == 0
  {
    assert Handles(cases, true)(q[0]);
  }
}
