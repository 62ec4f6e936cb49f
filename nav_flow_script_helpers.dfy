/** Helpers scripts are written with: waiting for a mapped output, case analysis over outputs,
    push/run/pop around a block, and typed access to the top node. */
module NavFlowScriptHelpers {
  import opened Common
  import opened NavState
  import opened Navigator
  import opened NavFlow
  import opened NavFlowScript

  /** The callbacks `runCatchingNodeCall` makes, in order. */
  datatype Callback<+T> = Loading | Succeeded(value: T) | Errored(error: Error)

  /** `onLoading`, then exactly one of `onSuccess` and `onError`. Everything the block raises,
      a cancellation included, goes to `onError`. */
  function RunCatchingNodeCall<T>(outcome: Try<T>): (calls: seq<Callback<T>>)
    ensures |calls| == 2 && calls[0] == Loading && !calls[1].Loading?
    ensures calls[1].Succeeded? <==> outcome.Success?
    ensures calls[1].Succeeded? ==> calls[1].value == outcome.value
    ensures calls[1].Errored? ==> calls[1].error == outcome.error
  {
    match outcome
    case Success(v) => [Loading, Succeeded(v)]
    case Failure(e) => [Loading, Errored(e)]
  }

  /** The first queued output `mapper` maps to a value, or -1. */
  function FirstMapped<T>(q: seq<Output>, mapper: Output -> Option<T>): (k: int)
    ensures -1 <= k < |q|
    ensures k >= 0 ==> mapper(q[k]).Some? && forall j :: 0 <= j < k ==> mapper(q[j]).None?
    ensures k == -1 ==> forall j :: 0 <= j < |q| ==> mapper(q[j]).None?
  {
    if |q| == 0 then -1
    else if mapper(q[0]).Some? then 0
    else
      var k := FirstMapped(q[1..], mapper);
      if k == -1 then -1 else k + 1
  }

  function AnyOutput(): Output -> bool
  {
    _ => true
  }

  /** Takes outputs one at a time until `mapper` maps one; the earlier ones are consumed. */
  method AwaitMappedOutput<T>(scope: ScriptScope, mapper: Output -> Option<T>) returns (r: Try<T>)
    modifies scope`queue
    ensures var k := FirstMapped(old(scope.queue), mapper);
      (k >= 0 ==> r == Success(mapper(old(scope.queue)[k]).value)
                  && scope.queue == old(scope.queue)[k + 1..])
      && (k == -1 ==> r == Failure(Stalled(scope.open)) && scope.queue == [])
  {
    ghost var i := 0;
    while true
      invariant 0 <= i <= |old(scope.queue)| && scope.queue == old(scope.queue)[i..]
      invariant forall j :: 0 <= j < i ==> mapper(old(scope.queue)[j]).None?
      decreases |scope.queue|
    {
      ghost var before := scope.queue;
      var next := scope.AwaitOutput(AnyOutput());
      if next.Failure? {
        return Failure(next.error);
      }
      assert FirstSatisfying(before, AnyOutput()) == 0;
      i := i + 1;
      var mapped := mapper(next.value);
      if mapped.Some? {
        return Success(mapped.value);
      }
    }
  }

  /** One case of `awaitOutputCase`; a handler returning null (None) does not match. */
  datatype Matcher<R> =
    | OnType(t: TypeTag, handler: Output -> Option<R>)   // on<T> { ... }
    | OnMatch(pred: Output -> bool, handler: Output -> Option<R>)  // match(predicate) { ... }
  {
    function Apply(o: Output): Option<R>
    {
      match this
      case OnType(t, h) => if OutputIs(o, t) then h(o) else None
      case OnMatch(p, h) => if p(o) then h(o) else None
    }
  }

  /** The first matcher, in declaration order, that maps `o`, or -1. */
  function FirstHandled<R>(ms: seq<Matcher<R>>, o: Output): (i: int)
    ensures -1 <= i < |ms|
    ensures i >= 0 ==> ms[i].Apply(o).Some? && forall j :: 0 <= j < i ==> ms[j].Apply(o).None?
    ensures i == -1 ==> forall j :: 0 <= j < |ms| ==> ms[j].Apply(o).None?
  {
    if |ms| == 0 then -1
    else if ms[0].Apply(o).Some? then 0
    else
      var k := FirstHandled(ms[1..], o);
      if k == -1 then -1 else k + 1
  }

  /** `OutputCaseBuilder.map`: the first matcher's value; when none maps, the fallback's,
      else none. */
  function MapCase<R>(ms: seq<Matcher<R>>, fallback: Option<Output -> Option<R>>, o: Output): (r: Option<R>)
    ensures var i := FirstHandled(ms, o);
      (i >= 0 ==> r == ms[i].Apply(o))
      && (i == -1 && fallback.Some? ==> r == fallback.value(o))
      && (i == -1 && fallback.None? ==> r == None)
  {
    if |ms| == 0 then (if fallback.Some? then fallback.value(o) else None)
    else if ms[0].Apply(o).Some? then ms[0].Apply(o)
    else MapCase(ms[1..], fallback, o)
  }

  /** The mapper `awaitOutputCase` waits with. */
  function CaseMapper<R>(ms: seq<Matcher<R>>, fallback: Option<Output -> Option<R>>): Output -> Option<R>
  {
    o => MapCase(ms, fallback, o)
  }

  class OutputCaseBuilder<R> {
    var matchers: seq<Matcher<R>>
    var fallback: Option<Output -> Option<R>>

    constructor ()
      ensures matchers == [] && fallback == None
    {
      matchers := [];
      fallback := None;
    }

    method On(t: TypeTag, handler: Output -> Option<R>)
      modifies this`matchers
      ensures matchers == old(matchers) + [OnType(t, handler)]
    {
      matchers := matchers + [OnType(t, handler)];
    }

    method Match(pred: Output -> bool, handler: Output -> Option<R>)
      modifies this`matchers
      ensures matchers == old(matchers) + [OnMatch(pred, handler)]
    {
      matchers := matchers + [OnMatch(pred, handler)];
    }

    /** The last `otherwise` wins. */
    method Otherwise(handler: Output -> Option<R>)
      modifies this`fallback
      ensures fallback == Some(handler)
    {
      fallback := Some(handler);
    }
  }

  /** `awaitOutputCase`: waits for the first output some case maps, skipping the others. */
  method AwaitOutputCase<R>(scope: ScriptScope, builder: OutputCaseBuilder<R>) returns (r: Try<R>)
    modifies scope`queue
    ensures var mapper := CaseMapper(builder.matchers, builder.fallback);
      var k := FirstMapped(old(scope.queue), mapper);
      (k >= 0 ==> r == Success(MapCase(builder.matchers, builder.fallback, old(scope.queue)[k]).value)
                  && scope.queue == old(scope.queue)[k + 1..])
      && (k == -1 ==> r == Failure(Stalled(scope.open)) && scope.queue == [])
  {
    r := AwaitMappedOutput(scope, CaseMapper(builder.matchers, builder.fallback));
  }

  /** The `finally` of `withNode` and `pushForResult` on a started flow, after a dispose when
      one happened: an unguarded `pop()`. The flow ends as `FinallyState` says; on a disposed
      flow the pop raises, and that exception replaces the `outcome` of the guarded block. */
  method FinallyPop<T>(flow: NavFlow, outcome: Try<T>, disposedMeanwhile: bool) returns (r: Try<T>)
    requires flow.Valid() && flow.started
    modifies flow, flow.navigator
    ensures flow.Valid()
    ensures r == if disposedMeanwhile then Failure(NotStarted) else outcome
    ensures flow.State() == FinallyState(old(flow.navigator.stack), old(flow.collectors), old(flow.hooks),
                                         disposedMeanwhile, true)
  {
    if disposedMeanwhile {
      flow.Dispose();
    }
    var popped := flow.Pop();
    r := if popped.Failure? then Failure(popped.error) else outcome;
  }

  /** `withNode`: one push before the block, one unguarded pop in `finally`. The flow ends as
      `HelperState` says: other callers may navigate while the block runs (`external`) and the
      flow may be disposed; the pop then removes whatever is on top. The block's outcome is
      returned, except that on a disposed flow the pop raises and its exception replaces it. */
  method WithNode<R>(scope: ScriptScope, node: Node, external: seq<NavOp>, block: Try<R>,
                     disposedDuringBlock: bool)
    returns (r: Try<R>)
    requires scope.flow.Valid()
    modifies scope.flow, scope.flow.navigator
    ensures scope.flow.Valid()
    ensures !old(scope.flow.started) ==>
      r == Failure(NotStarted) && unchanged(scope.flow, scope.flow.navigator)
    ensures old(scope.flow.started) ==>
      r == (if disposedDuringBlock then Failure(NotStarted) else block)
      && scope.flow.State()
         == HelperState(old(scope.flow.navigator.stack), old(scope.flow.nextUid), node,
                        old(scope.flow.hooks), old(scope.flow.collectors), external,
                        disposedDuringBlock, true)
  {
    var flow := scope.flow;
    var pushed := flow.Push(node);
    if pushed.Failure? {
      return Failure(pushed.error);
    }
    OthersNavigate(flow, external);
    // finally
    r := FinallyPop(flow, block, disposedDuringBlock);
  }

  /** `pushForResult` (and `pushAndAwait`, which runs the same steps through `withNode`): push,
      wait for the first mapped output, unguarded pop in `finally`. The value is the first
      output the mapper maps, the outputs before it consumed. The flow ends as `HelperState`
      says: other callers may navigate while it waits (`external`) and the flow may be
      disposed; the pop then removes whatever is on top, or raises on the disposed flow and
      replaces the value with that exception. */
  method PushForResult<T>(scope: ScriptScope, node: Node, mapper: Output -> Option<T>,
                          external: seq<NavOp>, disposedMeanwhile: bool)
    returns (r: Try<T>)
    requires scope.flow.Valid()
    modifies scope`queue, scope.flow, scope.flow.navigator
    ensures scope.flow.Valid()
    ensures !old(scope.flow.started) ==>
      r == Failure(NotStarted) && unchanged(scope.flow, scope.flow.navigator)
      && scope.queue == old(scope.queue)
    ensures old(scope.flow.started) ==>
      var k := FirstMapped(old(scope.queue), mapper);
      (k >= 0 ==> scope.queue == old(scope.queue)[k + 1..])
      && (k == -1 ==> scope.queue == [])
      && (disposedMeanwhile ==> r == Failure(NotStarted))
      && (!disposedMeanwhile && k >= 0 ==> r == Success(mapper(old(scope.queue)[k]).value))
      && (!disposedMeanwhile && k == -1 ==> r == Failure(Stalled(scope.open)))
    ensures old(scope.flow.started) ==>
      scope.flow.State()
      == HelperState(old(scope.flow.navigator.stack), old(scope.flow.nextUid), node,
                     old(scope.flow.hooks), old(scope.flow.collectors), external,
                     disposedMeanwhile, true)
  {
    var flow := scope.flow;
    var pushed := flow.Push(node);
    if pushed.Failure? {
      return Failure(pushed.error);
    }
    OthersNavigate(flow, external);
    ghost var waited := flow.State();
    var value := AwaitMappedOutput(scope, mapper);
    assert flow.State() == waited && flow.Valid() && flow.started;
    // finally
    r := FinallyPop(flow, value, disposedMeanwhile);
  }

  /** `updateTopNode` / `withTopNode` (and the step context's `updateNode` / `withNode`): the
      block runs on the top node only when it is a T; otherwise the call raises naming both
      types, without running the block. */
  method WithTopNode<R>(flow: NavFlow, t: TypeTag, block: Node -> Try<R>) returns (r: Try<R>, ran: bool)
    requires flow.Valid()
    ensures var top := flow.navigator.stack[|flow.navigator.stack| - 1].node;
      (ran <==> IsInstance(top, t))
      && (ran ==> r == block(top))
      && (!ran ==> r == Failure(IllegalState(TypeMismatchMessage(t, top.cls))))
  {
    var node := flow.CurrentTopNode();
    if !IsInstance(node, t) {
      return Failure(IllegalState(TypeMismatchMessage(t, node.cls))), false;
    }
    r := block(node);
    ran := true;
  }
}
