/** `pushAndAwaitResult` on a NavFlow: push a result node, wait for its first result, and pop
    in `finally` when asked to and the flow is still started. How the wait ends, what other
    callers do to the stack meanwhile, and whether the flow was disposed meanwhile, are
    inputs. */
module NavFlowHelpers {
  import opened Common
  import opened NavState
  import opened Navigator
  import opened NavFlow
  import opened ResultNode

  /** How waiting for the node's first result ends. */
  datatype Wait<+R> =
    | Emitted(result: KmposableResult<R>)  // the result flow emits `result`
    | Ended                 // the result flow completes without emitting
    | Raised(error: Error)  // the wait raises (including cancellation of the caller)

  /** `result.firstOrNull() ?: Canceled`, with an exception passed through. */
  function AwaitedResult<R>(w: Wait<R>): (r: Try<KmposableResult<R>>)
    ensures r.Success? <==> !w.Raised?
    ensures w.Emitted? ==> r == Success(w.result)
    ensures r.Success? && r.value.Ok? ==> w.Emitted?
    ensures w.Ended? ==> r == Success(Canceled)
  {
    match w
    case Emitted(res) => Success(res)
    case Ended => Success(Canceled)
    case Raised(e) => Failure(e)
  }

  /** The first overload. A flow that is not started raises from `push` before anything else.
      Otherwise the result is the awaited one whatever happens to the stack, and the flow ends
      as `HelperState` says: other callers may navigate while the helper waits (`external`)
      and the flow may be disposed; the `finally` then pops once when `autoPop` is set and the
      flow is still started, removing whatever entry is on top. */
  method PushAndAwaitResult<R>(flow: NavFlow, node: Node, autoPop: bool, external: seq<NavOp>,
                               wait: Wait<R>, disposedMeanwhile: bool)
    returns (r: Try<KmposableResult<R>>)
    requires flow.Valid()
    modifies flow, flow.navigator
    ensures flow.Valid()
    ensures !old(flow.started) ==> r == Failure(NotStarted) && unchanged(flow, flow.navigator)
    ensures old(flow.started) ==>
      r == AwaitedResult(wait)
      && flow.State() == HelperState(old(flow.navigator.stack), old(flow.nextUid), node, old(flow.hooks),
                                     old(flow.collectors), external, disposedMeanwhile, autoPop)
  {
    var pushed := flow.Push(node);
    if pushed.Failure? {
      return Failure(pushed.error);
    }
    OthersNavigate(flow, external);
    AfterWait(flow, autoPop, disposedMeanwhile);
    r := AwaitedResult(wait);
  }

  /** The end of the wait on a started flow: a dispose, when one happened, then the `finally`. */
  method AfterWait(flow: NavFlow, autoPop: bool, disposedMeanwhile: bool)
    requires flow.Valid() && flow.started
    modifies flow, flow.navigator
    ensures flow.Valid()
    ensures flow.State() == FinallyState(old(flow.navigator.stack), old(flow.collectors), old(flow.hooks),
                                         disposedMeanwhile, autoPop)
  {
    if disposedMeanwhile {
      flow.Dispose();
    }
    // finally
    if autoPop && flow.started {
      var _ := flow.Pop();
    }
  }

  /** The factory overload: one node from the factory, then `onResult` exactly once with the
      value returned; when the wait raises, `onResult` is not called. */
  method PushAndAwaitResultFrom<R>(flow: NavFlow, made: Node, autoPop: bool, external: seq<NavOp>,
                                   wait: Wait<R>, disposedMeanwhile: bool)
    returns (r: Try<KmposableResult<R>>, delivered: seq<KmposableResult<R>>)
    requires flow.Valid()
    modifies flow, flow.navigator
    ensures flow.Valid()
    ensures !old(flow.started) ==> r == Failure(NotStarted) && unchanged(flow, flow.navigator)
    ensures old(flow.started) ==>
      r == AwaitedResult(wait)
      && flow.State() == HelperState(old(flow.navigator.stack), old(flow.nextUid), made, old(flow.hooks),
                                     old(flow.collectors), external, disposedMeanwhile, autoPop)
    ensures delivered == if r.Success? then [r.value] else []
  {
    r := PushAndAwaitResult(flow, made, autoPop, external, wait, disposedMeanwhile);
    delivered := if r.Success? then [r.value] else [];
  }
}
