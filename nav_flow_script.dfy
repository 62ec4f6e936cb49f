/** The script scope (`DefaultNavFlowScriptScope`): every runtime output emitted after the scope
    is created is queued, unbounded and in order; `awaitOutput` drains the queue until an
    output satisfies the predicate. Stack changes go through the flow's `mutateNavigator`. */
module NavFlowScript {
  import opened Common
  import opened NavState
  import opened Navigator
  import opened NavFlow

  /** A runtime output value; `cls` and `supertypes` are what `is T` tests. */
  datatype Output = Output(id: nat, cls: TypeTag, supertypes: set<TypeTag>)

  predicate OutputIs(o: Output, t: TypeTag)
  {
    t == o.cls || t in o.supertypes
  }

  /** The first queued output satisfying `pred`, or -1. */
  function FirstSatisfying(q: seq<Output>, pred: Output -> bool): (k: int)
    ensures -1 <= k < |q|
    ensures k >= 0 ==> pred(q[k]) && forall j :: 0 <= j < k ==> !pred(q[j])
    ensures k == -1 ==> forall j :: 0 <= j < |q| ==> !pred(q[j])
  {
    if |q| == 0 then -1
    else if pred(q[0]) then 0
    else
      var k := FirstSatisfying(q[1..], pred);
      if k == -1 then -1 else k + 1
  }

  /** Outputs queued later never overtake one already waiting: the match found in `q` stays
      the match when more outputs arrive. */
  lemma {:induction false} LaterOutputsDoNotOvertake(q: seq<Output>, more: seq<Output>, pred: Output -> bool)
    requires FirstSatisfying(q, pred) >= 0
    ensures FirstSatisfying(q + more, pred) == FirstSatisfying(q, pred)
  {
    var k := FirstSatisfying(q, pred);
    assert (q + more)[k] == q[k];
    assert forall j :: 0 <= j < k ==> (q + more)[j] == q[j];
  }

  /** How an await ends when the queue runs dry: on an open channel it stays suspended until
      the script's job is cancelled; on a cancelled channel it raises at once. */
  function Stalled(open: bool): Error
  {
    if open then JobCancelled else Cancellation(ChannelClosedMessage)
  }

  /** The predicate `awaitOutputOfType<T>()` passes. */
  function IsOfType(t: TypeTag): Output -> bool
  {
    o => OutputIs(o, t)
  }

  class ScriptScope {
    const flow: NavFlow
    /** whether an `onTrace` callback was given */
    const tracing: bool
    /** the unbounded output channel, oldest first */
    var queue: seq<Output>
    /** the channel has not been cancelled */
    var open: bool
    /** the collector copying runtime outputs into the channel is active */
    var collecting: bool
    /** the messages handed to `onTrace` */
    var traces: seq<string>

    constructor (flow: NavFlow, tracing: bool)
      ensures this.flow == flow && this.tracing == tracing
      ensures queue == [] && open && collecting && traces == []
    {
      this.flow := flow;
      this.tracing := tracing;
      queue := [];
      open := true;
      collecting := true;
      traces := [];
    }

    /** The runtime emits `o`: the collector, while active, appends it to the channel. */
    method Deliver(o: Output)
      modifies this`queue
      ensures queue == if collecting && open then old(queue) + [o] else old(queue)
    {
      if collecting && open {
        queue := queue + [o];
      }
    }

    /** Forwards the message only when tracing is on. */
    method Trace(message: string)
      modifies this`traces
      ensures traces == old(traces) + (if tracing then [message] else [])
    {
      if tracing {
        traces := traces + [message];
      }
    }

    /** Returns the first queued output satisfying `pred`; every output before it is consumed
        and lost to later awaits. */
    method AwaitOutput(pred: Output -> bool) returns (r: Try<Output>)
      modifies this`queue
      ensures var k := FirstSatisfying(old(queue), pred);
        (k >= 0 ==> r == Success(old(queue)[k]) && queue == old(queue)[k + 1..])
        && (k == -1 ==> r == Failure(Stalled(open)) && queue == [])
    {
      ghost var i := 0;
      while true
        invariant 0 <= i <= |old(queue)| && queue == old(queue)[i..]
        invariant forall j :: 0 <= j < i ==> !pred(old(queue)[j])
        decreases |queue|
      {
        if |queue| == 0 {
          return Failure(Stalled(open));
        }
        var next := queue[0];
        queue := queue[1..];
        i := i + 1;
        if pred(next) {
          return Success(next);
        }
      }
    }

    /** `awaitOutputOfType<T>()`: the first queued output that is a T. */
    method AwaitOutputOfType(t: TypeTag) returns (r: Try<Output>)
      modifies this`queue
      ensures var k := FirstSatisfying(old(queue), IsOfType(t));
        (k >= 0 ==> r == Success(old(queue)[k]) && OutputIs(old(queue)[k], t)
                    && queue == old(queue)[k + 1..])
        && (k == -1 ==> r == Failure(Stalled(open)) && queue == [])
    {
      r := AwaitOutput(IsOfType(t));
    }

    /** Cancels the collector and the channel; the queued outputs are discarded. */
    method Dispose()
      modifies this`queue, this`open, this`collecting
      ensures !open && !collecting && queue == []
    {
      collecting := false;
      open := false;
      queue := [];
    }

    /** `showNode { ... }`: arbitrary navigator calls through the corrected `mutateNavigator`,
        which refuses them before `start()`. */
    method ShowNode(ops: seq<NavOp>) returns (r: Try<()>)
      requires flow.Valid()
      modifies flow, flow.navigator
      ensures flow.started == old(flow.started) && flow.nextUid == old(flow.nextUid)
      ensures !old(flow.started) ==> r == Failure(NotStarted) && unchanged(flow, flow.navigator)
      ensures old(flow.started) ==> match ApplyAll(old(flow.navigator.stack), ops)
        case Success(after) =>
          r == Success(()) && flow.Valid() && flow.navigator.stack == after
          && flow.hooks == old(flow.hooks)
                           + MutationHooks(Nodes(old(flow.navigator.stack)), Nodes(after), old(flow.collectors))
          && flow.collectors == MutationLive(Nodes(old(flow.navigator.stack)), Nodes(after), old(flow.collectors))
        case Failure(e) =>
          r == Failure(e) && flow.navigator.stack == []
          && flow.navigator.state == NavState(LastGood(old(flow.navigator.stack), ops))
          && flow.hooks == old(flow.hooks) && flow.collectors == old(flow.collectors)
    {
      r := flow.MutateNavigator(ops);
    }

    /** `showRoot`: one new entry replaces the whole stack. */
    method ShowRoot(node: Node) returns (r: Try<()>)
      requires flow.Valid()
      modifies flow, flow.navigator
      ensures flow.started == old(flow.started) && flow.nextUid == old(flow.nextUid) + 1
      ensures !old(flow.started) ==>
        r == Failure(NotStarted) && flow.Valid() && flow.navigator.stack == old(flow.navigator.stack)
        && flow.hooks == old(flow.hooks) && flow.collectors == old(flow.collectors)
      ensures old(flow.started) ==>
        r == Success(()) && flow.Valid()
        && flow.navigator.stack == [DefaultStackEntry(old(flow.nextUid), node)]
        && flow.hooks == old(flow.hooks)
                         + MutationHooks(Nodes(old(flow.navigator.stack)), [node], old(flow.collectors))
        && flow.collectors == MutationLive(Nodes(old(flow.navigator.stack)), [node], old(flow.collectors))
    {
      var entry := flow.CreateEntry(node);
      ghost var s := flow.navigator.stack;
      assert ApplyAll(s, [ReplaceAllOp(entry)]) == Success([entry]) by {
        assert [ReplaceAllOp(entry)][1..] == [];
      }
      assert Nodes([entry]) == [node];
      r := flow.MutateNavigator([ReplaceAllOp(entry)]);
    }

    /** `pushNode`: one new entry on top. A node already on the stack is not attached again. */
    method PushNode(node: Node) returns (r: Try<()>)
      requires flow.Valid()
      modifies flow, flow.navigator
      ensures flow.started == old(flow.started) && flow.nextUid == old(flow.nextUid) + 1
      ensures !old(flow.started) ==>
        r == Failure(NotStarted) && flow.Valid() && flow.navigator.stack == old(flow.navigator.stack)
        && flow.hooks == old(flow.hooks) && flow.collectors == old(flow.collectors)
      ensures old(flow.started) ==>
        r == Success(()) && flow.Valid()
        && flow.navigator.stack == old(flow.navigator.stack) + [DefaultStackEntry(old(flow.nextUid), node)]
      ensures old(flow.started) ==>
        var before := Nodes(old(flow.navigator.stack));
        flow.hooks == old(flow.hooks) + MutationHooks(before, before + [node], old(flow.collectors))
        && flow.collectors == MutationLive(before, before + [node], old(flow.collectors))
    {
      var entry := flow.CreateEntry(node);
      ghost var s := flow.navigator.stack;
      assert ApplyAll(s, [PushOp(entry)]) == Success(s + [entry]) by {
        assert [PushOp(entry)][1..] == [];
      }
      assert Nodes(s + [entry]) == Nodes(s) + [node];
      r := flow.MutateNavigator([PushOp(entry)]);
    }

    /** `replaceTop`: one new entry takes the top slot. */
    method ReplaceTop(node: Node) returns (r: Try<()>)
      requires flow.Valid()
      modifies flow, flow.navigator
      ensures flow.started == old(flow.started) && flow.nextUid == old(flow.nextUid) + 1
      ensures !old(flow.started) ==>
        r == Failure(NotStarted) && flow.Valid() && flow.navigator.stack == old(flow.navigator.stack)
        && flow.hooks == old(flow.hooks) && flow.collectors == old(flow.collectors)
      ensures old(flow.started) ==>
        var s := old(flow.navigator.stack);
        r == Success(()) && flow.Valid()
        && flow.navigator.stack == s[..|s| - 1] + [DefaultStackEntry(old(flow.nextUid), node)]
      ensures old(flow.started) ==>
        var before := Nodes(old(flow.navigator.stack));
        var after := before[..|before| - 1] + [node];
        flow.hooks == old(flow.hooks) + MutationHooks(before, after, old(flow.collectors))
        && flow.collectors == MutationLive(before, after, old(flow.collectors))
    {
      var entry := flow.CreateEntry(node);
      ghost var s := flow.navigator.stack;
      ghost var t := s[..|s| - 1] + [entry];
      assert ApplyAll(s, [ReplaceTopOp(entry)]) == Success(t) by {
        assert [ReplaceTopOp(entry)][1..] == [];
      }
      assert Nodes(t) == Nodes(s)[..|s| - 1] + [node];
      r := flow.MutateNavigator([ReplaceTopOp(entry)]);
    }
  }

  /** `launchNavFlowScript`: a new scope runs the script, whose outcome is given, and is
      disposed afterwards whether the script returned or raised. */
  method LaunchNavFlowScript(flow: NavFlow, tracing: bool, scriptOutcome: Try<()>)
    returns (scope: ScriptScope, r: Try<()>)
    ensures fresh(scope) && scope.flow == flow && scope.tracing == tracing
    ensures r == scriptOutcome
    ensures !scope.open && !scope.collecting && scope.queue == []
  {
    scope := new ScriptScope(flow, tracing);
    r := scriptOutcome;
    scope.Dispose();
  }
}
