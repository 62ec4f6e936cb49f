/** The overlay host's two decisions: how a snapshot splits into a base layer and the overlays
    drawn above it, and whether an auto-closing overlay pops itself once it has a result. */
module Overlay {
  import opened Common
  import opened NavState
  import opened NavFlow
  import opened ResultNode

  datatype OverlayLayers = OverlayLayers(base: Entry, overlays: seq<Entry>)

  /** `indexOfLast { !it.node.isOverlayPresentation() }`. */
  function LastNonOverlay(s: seq<Entry>): (i: int)
    ensures -1 <= i < |s|
    ensures i >= 0 ==> !s[i].node.overlay && forall k :: i < k < |s| ==> s[k].node.overlay
    ensures i == -1 ==> forall k :: 0 <= k < |s| ==> s[k].node.overlay
  {
    if |s| == 0 then -1
    else if !s[|s| - 1].node.overlay then |s| - 1
    else LastNonOverlay(s[..|s| - 1])
  }

  /** `toOverlayLayers`: the base is the last entry not presented as an overlay, or the top when
      every entry is one; the overlays are the entries above the base. */
  function ToOverlayLayers(st: NavState): (l: OverlayLayers)
    requires st.Wellformed()
    ensures var s := st.stack;
      |l.overlays| < |s|
      && l.base == s[|s| - 1 - |l.overlays|]
      && l.overlays == s[|s| - |l.overlays|..]
    ensures (exists k :: 0 <= k < |st.stack| && !st.stack[k].node.overlay) ==>
      !l.base.node.overlay && forall k :: 0 <= k < |l.overlays| ==> l.overlays[k].node.overlay
    ensures (forall k :: 0 <= k < |st.stack| ==> st.stack[k].node.overlay) ==>
      l.base == st.stack[|st.stack| - 1] && l.overlays == []
  {
    var s := st.stack;
    var found := LastNonOverlay(s);
    var idx := if found >= 0 then found else |s| - 1;
    OverlayLayers(s[idx], if idx < |s| - 1 then s[idx + 1..] else [])
  }

  /** The base and the overlays, in order, are exactly the top of the stack from the base up:
      nothing above the base is dropped or reordered. */
  lemma LayersAreStackSuffix(st: NavState)
    requires st.Wellformed()
    ensures var l := ToOverlayLayers(st);
      [l.base] + l.overlays == st.stack[|st.stack| - 1 - |l.overlays|..]
  {
    var l := ToOverlayLayers(st);
    var s := st.stack;
    var b := |s| - 1 - |l.overlays|;
    assert s[b..] == [s[b]] + s[b + 1..];
  }

  /** No entry below the base is an overlay drawn above it, unless every entry is an overlay:
      the overlays are the longest run of overlay entries on top. */
  lemma OverlaysAreTopOverlayRun(st: NavState)
    requires st.Wellformed()
    requires exists k :: 0 <= k < |st.stack| && !st.stack[k].node.overlay
    ensures var l := ToOverlayLayers(st);
      forall k :: |st.stack| - |l.overlays| <= k < |st.stack| ==> st.stack[k].node.overlay
    ensures !st.stack[|st.stack| - 1 - |ToOverlayLayers(st).overlays|].node.overlay
  {
    var l := ToOverlayLayers(st);
    var s := st.stack;
    forall k | |s| - |l.overlays| <= k < |s|
      ensures s[k].node.overlay
    {
      assert s[k] == l.overlays[k - (|s| - |l.overlays|)];
    }
  }

  /** A single overlay entry is the base, with nothing drawn above it. */
  lemma SingleOverlayIsBase(e: Entry)
    requires e.node.overlay
    ensures ToOverlayLayers(NavState([e])) == OverlayLayers(e, [])
  {
  }

  /** `runAutoCloseOverlay`. `result` is the node's first result (none when its result flow
      ends without one) and `shouldAutoClose` the node's decision. It pops only when there is a
      result the node wants to close on, the flow is started, the node is still the top by
      identity and the stack can be popped; then it pops exactly once. */
  method RunAutoCloseOverlay<R>(flow: NavFlow, node: Node, result: Option<KmposableResult<R>>,
                                shouldAutoClose: KmposableResult<R> -> bool)
    returns (closed: bool)
    requires flow.Valid()
    modifies flow, flow.navigator
    ensures flow.Valid()
    ensures closed <==>
      result.Some? && shouldAutoClose(result.value) && old(flow.started)
      && old(flow.navigator.stack)[|old(flow.navigator.stack)| - 1].node == node
      && |old(flow.navigator.stack)| > 1
    ensures !closed ==> unchanged(flow, flow.navigator)
    ensures closed ==>
      var s := old(flow.navigator.stack);
      flow.navigator.stack == s[..|s| - 1]
      && flow.hooks == old(flow.hooks) + DetachHooks(node, old(flow.collectors))
      && flow.collectors == old(flow.collectors) - {node}
  {
    if result.None? {
      return false;
    }
    if !shouldAutoClose(result.value) {
      return false;
    }
    if !flow.started {
      return false;
    }
    var isStillTop := flow.CurrentTopNode() == node;
    if !isStillTop {
      return false;
    }
    var canPop := flow.CanPop();
    if !canPop.value {
      return false;
    }
    var popped := flow.Pop();
    closed := popped.value;
  }
}
