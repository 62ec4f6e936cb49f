/** The headless runtime (`NavFlow`): it owns a navigator and refuses stack changes before
    `start()`, except through the as-written `mutateNavigator`. `start()` attaches the node on
    top; once started, every node a call pushes or brings in is attached and every node it
    removes is detached; `dispose()` detaches every node on the stack. Attaching
    (`attachNode`) launches one output collector per node, and detaching (`detachNode`) cancels
    it. The lifecycle calls are recorded, in order, as a log of hooks. */
module NavFlow {
  import opened Common
  import opened NavState
  import opened Navigator

  /** One lifecycle call of the runtime, on one node. */
  datatype Hook =
    | Attach(node: Node)       // attachNode: onAttach() when the node is lifecycle-aware
    | Observe(node: Node)      // an output collector is launched for the node
    | StopObserve(node: Node)  // the node's collector is removed and cancelled
    | Detach(node: Node)       // detachNode: onDetach() when the node is lifecycle-aware

  /** What `ensureStarted()` raises. */
  const NotStarted := IllegalState(NotStartedMessage)

  /** `stack.map { it.node }`. */
  function Nodes(s: seq<Entry>): (ns: seq<Node>)
    ensures |ns| == |s|
    ensures forall i :: 0 <= i < |s| ==> ns[i] == s[i].node
  {
    seq(|s|, i requires 0 <= i < |s| => s[i].node)
  }

  function NodeSet(ns: seq<Node>): set<Node>
  {
    set n | n in ns
  }

  /** `xs.filterNot { it in ys }`: order and repetitions of `xs` are kept. */
  function Without(xs: seq<Node>, ys: seq<Node>): (r: seq<Node>)
    ensures |r| <= |xs|
    ensures forall n :: n in r <==> n in xs && n !in ys
  {
    if xs == [] then []
    else (if xs[0] in ys then [] else [xs[0]]) + Without(xs[1..], ys)
  }

  /** `firstOrNull { it.node == node }` as an index: the first entry holding `node`, or -1. */
  function FirstNodeIndex(s: seq<Entry>, node: Node): (i: int)
    ensures -1 <= i < |s|
    ensures i >= 0 ==> s[i].node == node
    ensures i >= 0 ==> forall j :: 0 <= j < i ==> s[j].node != node
    ensures i == -1 ==> forall j :: 0 <= j < |s| ==> s[j].node != node
  {
    if |s| == 0 then -1
    else if s[0].node == node then 0
    else
      var k := FirstNodeIndex(s[1..], node);
      if k == -1 then -1 else k + 1
  }

  // ---------------------------------------------------------------------------------------
  // The collectors a log of hooks leaves running

  function Step(live: set<Node>, x: Hook): set<Node>
  {
    match x
    case Observe(n) => live + {n}
    case StopObserve(n) => live - {n}
    case _ => live
  }

  /** The nodes whose collector is running after the calls in `h`, starting from none. */
  function Replay(h: seq<Hook>): set<Node>
    decreases |h|
  {
    if h == [] then {} else Step(Replay(h[..|h| - 1]), h[|h| - 1])
  }

  /** A collector is launched only for a node without one, and cancelled only when running. */
  predicate Admissible(live: set<Node>, x: Hook)
  {
    (x.Observe? ==> x.node !in live) && (x.StopObserve? ==> x.node in live)
  }

  /** Every call in `h` is admissible after the calls before it. */
  predicate Bracketed(h: seq<Hook>)
    decreases |h|
  {
    h == [] || (Bracketed(h[..|h| - 1]) && Admissible(Replay(h[..|h| - 1]), h[|h| - 1]))
  }

  lemma ReplayAppend(h: seq<Hook>, x: Hook)
    ensures Replay(h + [x]) == Step(Replay(h), x)
    ensures Bracketed(h + [x]) <==> Bracketed(h) && Admissible(Replay(h), x)
  {
    assert (h + [x])[..|h|] == h;
  }

  /** Each call of a bracketed log, at any position, was admissible when made. */
  lemma {:induction false} BracketedAt(h: seq<Hook>, i: nat)
    requires Bracketed(h) && i < |h|
    ensures Admissible(Replay(h[..i]), h[i])
    decreases |h|
  {
    if i < |h| - 1 {
      var p := h[..|h| - 1];
      BracketedAt(p, i);
      assert p[..i] == h[..i] && p[i] == h[i];
    }
  }

  /** Between two collectors launched for the same node, the first one was cancelled: at no
      point do two collectors run for one node. */
  lemma {:induction false} NoSecondCollector(h: seq<Hook>, i: nat, j: nat)
    requires Bracketed(h)
    requires i < j < |h| && h[i].Observe? && h[j] == h[i]
    ensures exists k :: i < k < j && h[k] == StopObserve(h[i].node)
  {
    var n := h[i].node;
    if forall k :: i < k < j ==> h[k] != StopObserve(n) {
      BracketedAt(h, j);
      StillLive(h, n, i + 1, j);
    }
  }

  /** A collector launched and not cancelled since is still running. */
  lemma {:induction false} StillLive(h: seq<Hook>, n: Node, a: nat, b: nat)
    requires 1 <= a <= b <= |h|
    requires h[a - 1] == Observe(n)
    requires forall k :: a <= k < b ==> h[k] != StopObserve(n)
    ensures n in Replay(h[..b])
    decreases b - a
  {
    if b == a {
      assert h[..a][..a - 1] == h[..a - 1];
    } else {
      StillLive(h, n, a, b - 1);
      assert h[..b][..b - 1] == h[..b - 1];
    }
  }

  // ---------------------------------------------------------------------------------------
  // The hooks attachNode and detachNode emit

  /** `attachNode`: onAttach (for a lifecycle-aware node), then a collector unless one is
      already running. */
  function AttachHooks(n: Node, live: set<Node>): seq<Hook>
  {
    [Attach(n)] + (if n in live then [] else [Observe(n)])
  }

  /** `detachNode`: the running collector is cancelled, then onDetach (for a lifecycle-aware
      node). */
  function DetachHooks(n: Node, live: set<Node>): seq<Hook>
  {
    (if n in live then [StopObserve(n)] else []) + [Detach(n)]
  }

  /** `nodes.forEach { attachNode(it) }`. */
  function AttachAllHooks(ns: seq<Node>, live: set<Node>): seq<Hook>
    decreases |ns|
  {
    if ns == [] then [] else AttachHooks(ns[0], live) + AttachAllHooks(ns[1..], live + {ns[0]})
  }

  /** `nodes.forEach { detachNode(it) }`. */
  function DetachAllHooks(ns: seq<Node>, live: set<Node>): seq<Hook>
    decreases |ns|
  {
    if ns == [] then [] else DetachHooks(ns[0], live) + DetachAllHooks(ns[1..], live - {ns[0]})
  }

  lemma {:induction false} AttachAllHooksSnoc(ns: seq<Node>, x: Node, live: set<Node>)
    ensures AttachAllHooks(ns + [x], live)
         == AttachAllHooks(ns, live) + AttachHooks(x, live + NodeSet(ns))
    decreases |ns|
  {
    if ns == [] {
      assert NodeSet(ns) == {};
    } else {
      assert (ns + [x])[1..] == ns[1..] + [x];
      AttachAllHooksSnoc(ns[1..], x, live + {ns[0]});
      assert live + {ns[0]} + NodeSet(ns[1..]) == live + NodeSet(ns) by {
        assert ns == [ns[0]] + ns[1..];
      }
    }
  }

  lemma {:induction false} DetachAllHooksSnoc(ns: seq<Node>, x: Node, live: set<Node>)
    ensures DetachAllHooks(ns + [x], live)
         == DetachAllHooks(ns, live) + DetachHooks(x, live - NodeSet(ns))
    decreases |ns|
  {
    if ns == [] {
      assert NodeSet(ns) == {};
    } else {
      assert (ns + [x])[1..] == ns[1..] + [x];
      DetachAllHooksSnoc(ns[1..], x, live - {ns[0]});
      assert live - {ns[0]} - NodeSet(ns[1..]) == live - NodeSet(ns) by {
        assert ns == [ns[0]] + ns[1..];
      }
    }
  }

  /** One more pass of `nodes.forEach { attachNode(it) }`. */
  lemma AttachAllStep(ns: seq<Node>, i: nat, live: set<Node>)
    requires i < |ns|
    ensures AttachAllHooks(ns[..i + 1], live)
         == AttachAllHooks(ns[..i], live) + AttachHooks(ns[i], live + NodeSet(ns[..i]))
    ensures live + NodeSet(ns[..i + 1]) == live + NodeSet(ns[..i]) + {ns[i]}
  {
    assert ns[..i + 1] == ns[..i] + [ns[i]];
    AttachAllHooksSnoc(ns[..i], ns[i], live);
    NodeSetSnoc(ns[..i], ns[i]);
  }

  /** One more pass of `nodes.forEach { detachNode(it) }`. */
  lemma DetachAllStep(ns: seq<Node>, i: nat, live: set<Node>)
    requires i < |ns|
    ensures DetachAllHooks(ns[..i + 1], live)
         == DetachAllHooks(ns[..i], live) + DetachHooks(ns[i], live - NodeSet(ns[..i]))
    ensures live - NodeSet(ns[..i + 1]) == live - NodeSet(ns[..i]) - {ns[i]}
  {
    assert ns[..i + 1] == ns[..i] + [ns[i]];
    DetachAllHooksSnoc(ns[..i], ns[i], live);
    NodeSetSnoc(ns[..i], ns[i]);
  }

  lemma NodeSetSnoc(ns: seq<Node>, x: Node)
    ensures NodeSet(ns + [x]) == NodeSet(ns) + {x}
  {
  }

  /** The nodes passed to `detachNode` in a log, in order. */
  function Detached(h: seq<Hook>): seq<Node>
  {
    if h == [] then [] else (if h[0].Detach? then [h[0].node] else []) + Detached(h[1..])
  }

  /** The nodes passed to `attachNode` in a log, in order. */
  function Attached(h: seq<Hook>): seq<Node>
  {
    if h == [] then [] else (if h[0].Attach? then [h[0].node] else []) + Attached(h[1..])
  }

  lemma {:induction false} DetachedAppend(a: seq<Hook>, b: seq<Hook>)
    ensures Detached(a + b) == Detached(a) + Detached(b)
    decreases |a|
  {
    if a == [] {
      assert a + b == b;
    } else {
      var ab := a + b;
      assert ab[0] == a[0] && ab[1..] == a[1..] + b;
      DetachedAppend(a[1..], b);
    }
  }

  lemma {:induction false} AttachedAppend(a: seq<Hook>, b: seq<Hook>)
    ensures Attached(a + b) == Attached(a) + Attached(b)
    decreases |a|
  {
    if a == [] {
      assert a + b == b;
    } else {
      var ab := a + b;
      assert ab[0] == a[0] && ab[1..] == a[1..] + b;
      AttachedAppend(a[1..], b);
    }
  }

  /** Detaching a list of nodes calls `detachNode` once per node, in list order, and
      `attachNode` never. */
  lemma {:induction false} DetachAllDetachesEach(ns: seq<Node>, live: set<Node>)
    ensures Detached(DetachAllHooks(ns, live)) == ns
    ensures Attached(DetachAllHooks(ns, live)) == []
    decreases |ns|
  {
    if ns != [] {
      var first := DetachHooks(ns[0], live);
      DetachedAppend(first, DetachAllHooks(ns[1..], live - {ns[0]}));
      AttachedAppend(first, DetachAllHooks(ns[1..], live - {ns[0]}));
      DetachAllDetachesEach(ns[1..], live - {ns[0]});
      if ns[0] in live {
        DetachedAppend([StopObserve(ns[0])], [Detach(ns[0])]);
        AttachedAppend([StopObserve(ns[0])], [Detach(ns[0])]);
      }
      assert Detached(first) == [ns[0]];
      assert ns == [ns[0]] + ns[1..];
    }
  }

  /** Attaching a list of nodes calls `attachNode` once per node, in list order, and
      `detachNode` never. */
  lemma {:induction false} AttachAllAttachesEach(ns: seq<Node>, live: set<Node>)
    ensures Attached(AttachAllHooks(ns, live)) == ns
    ensures Detached(AttachAllHooks(ns, live)) == []
    decreases |ns|
  {
    if ns != [] {
      var first := AttachHooks(ns[0], live);
      DetachedAppend(first, AttachAllHooks(ns[1..], live + {ns[0]}));
      AttachedAppend(first, AttachAllHooks(ns[1..], live + {ns[0]}));
      AttachAllAttachesEach(ns[1..], live + {ns[0]});
      if ns[0] !in live {
        DetachedAppend([Attach(ns[0])], [Observe(ns[0])]);
        AttachedAppend([Attach(ns[0])], [Observe(ns[0])]);
      }
      assert Attached(first) == [ns[0]];
      assert ns == [ns[0]] + ns[1..];
    }
  }

  /** A node missing from the list gets no hook at all. */
  lemma {:induction false} HooksOnlyForListedNodes(ns: seq<Node>, live: set<Node>, n: Node)
    requires n !in ns
    ensures forall h :: h in DetachAllHooks(ns, live) ==> h.node != n
    ensures forall h :: h in AttachAllHooks(ns, live) ==> h.node != n
    decreases |ns|
  {
    if ns != [] {
      assert n != ns[0] && n !in ns[1..];
      HooksOnlyForListedNodes(ns[1..], live - {ns[0]}, n);
      HooksOnlyForListedNodes(ns[1..], live + {ns[0]}, n);
    }
  }

  /** The hooks `mutateNavigator` emits when the stack's nodes go from `before` to `after`:
      departed nodes are detached in their old order, then arrived nodes attached in their new
      order. */
  function MutationHooks(before: seq<Node>, after: seq<Node>, live: set<Node>): seq<Hook>
  {
    var gone := Without(before, after);
    DetachAllHooks(gone, live) + AttachAllHooks(Without(after, before), live - NodeSet(gone))
  }

  /** The running collectors after those hooks. */
  function MutationLive(before: seq<Node>, after: seq<Node>, live: set<Node>): set<Node>
  {
    live - NodeSet(Without(before, after)) + NodeSet(Without(after, before))
  }

  /** `mutateNavigator` leaves nodes present both before and after alone: no detach, no attach,
      no collector restarted; a node that left is detached, a node that arrived attached. */
  lemma MutationSparesSurvivors(before: seq<Node>, after: seq<Node>, live: set<Node>, n: Node)
    ensures var h := MutationHooks(before, after, live);
      (n in before && n in after ==> forall x :: x in h ==> x.node != n)
      && (n in before && n !in after ==> n in Detached(h) && n !in Attached(h))
      && (n !in before && n in after ==> n in Attached(h) && n !in Detached(h))
  {
    var gone := Without(before, after);
    var added := Without(after, before);
    var live' := live - NodeSet(gone);
    var h := DetachAllHooks(gone, live) + AttachAllHooks(added, live');
    if n in before && n in after {
      HooksOnlyForListedNodes(gone, live, n);
      HooksOnlyForListedNodes(added, live', n);
    } else {
      DetachedAppend(DetachAllHooks(gone, live), AttachAllHooks(added, live'));
      AttachedAppend(DetachAllHooks(gone, live), AttachAllHooks(added, live'));
      DetachAllDetachesEach(gone, live);
      AttachAllAttachesEach(added, live');
    }
  }

  /** The entry `findEntryForNode` picks is also the one the navigator's `indexOf` finds, so
      `popTo(node)` acts on the first entry holding that node. */
  lemma FoundEntryIsFirstEqual(s: seq<Entry>, node: Node)
    requires FirstNodeIndex(s, node) >= 0
    ensures IndexOf(s, s[FirstNodeIndex(s, node)]) == FirstNodeIndex(s, node)
  {
    var i := FirstNodeIndex(s, node);
    assert s[i].Equals(s[i]);
  }

  // ---------------------------------------------------------------------------------------
  // Attachments paired with the stack

  /** No node is on the stack twice (collectors are keyed by node). */
  predicate DistinctNodes(s: seq<Entry>)
  {
    forall i, j :: 0 <= i < j < |s| ==> s[i].node != s[j].node
  }

  lemma NodeSetMember(s: seq<Entry>, n: Node)
    ensures n in NodeSet(Nodes(s)) <==> exists i :: 0 <= i < |s| && s[i].node == n
  {
    if n in NodeSet(Nodes(s)) {
      var i :| 0 <= i < |s| && Nodes(s)[i] == n;
    }
  }

  /** The nodes of a stack are those of its bottom part and of its top part; without repeated
      nodes the two parts share none. */
  lemma NodeSetSplit(s: seq<Entry>, k: nat)
    requires k <= |s|
    ensures NodeSet(Nodes(s)) == NodeSet(Nodes(s[..k])) + NodeSet(Nodes(s[k..]))
    ensures DistinctNodes(s) ==> NodeSet(Nodes(s[..k])) !! NodeSet(Nodes(s[k..]))
  {
    forall n ensures n in NodeSet(Nodes(s)) <==> n in NodeSet(Nodes(s[..k])) + NodeSet(Nodes(s[k..])) {
      NodeSetMember(s, n);
      NodeSetMember(s[..k], n);
      NodeSetMember(s[k..], n);
      if i :| 0 <= i < |s| && s[i].node == n {
        if i < k {
          assert s[..k][i].node == n;
        } else {
          assert s[k..][i - k].node == n;
        }
      }
      if i :| 0 <= i < |s[k..]| && s[k..][i].node == n {
        assert s[i + k].node == n;
      }
    }
    if DistinctNodes(s) {
      forall n | n in NodeSet(Nodes(s[..k])) ensures n !in NodeSet(Nodes(s[k..])) {
        NodeSetMember(s[..k], n);
        NodeSetMember(s[k..], n);
        var i :| 0 <= i < k && s[..k][i].node == n;
        if j :| 0 <= j < |s[k..]| && s[k..][j].node == n {
          assert false;
        }
      }
    }
  }

  lemma NodeSetReversed(s: seq<Entry>)
    ensures NodeSet(Nodes(Reversed(s))) == NodeSet(Nodes(s))
  {
    forall n ensures n in NodeSet(Nodes(Reversed(s))) <==> n in NodeSet(Nodes(s)) {
      NodeSetMember(s, n);
      NodeSetMember(Reversed(s), n);
      if i :| 0 <= i < |s| && s[i].node == n {
        assert Reversed(s)[|s| - 1 - i] == s[i];
      }
    }
  }

  /** Taking entries off the top of a stack without repeated nodes, in whatever order they are
      reported, leaves exactly the nodes below them. */
  lemma RemovedTopNodes(s: seq<Entry>, k: nat)
    requires k <= |s| && DistinctNodes(s)
    ensures NodeSet(Nodes(s)) - NodeSet(Nodes(Reversed(s[k..]))) == NodeSet(Nodes(s[..k]))
  {
    NodeSetSplit(s, k);
    NodeSetReversed(s[k..]);
  }

  lemma NodeSetPushed(s: seq<Entry>, e: Entry)
    ensures NodeSet(Nodes(s + [e])) == NodeSet(Nodes(s)) + {e.node}
  {
    assert Nodes(s + [e]) == Nodes(s) + [e.node];
  }

  /** Starting from collectors for exactly the nodes before, `mutateNavigator` leaves collectors
      for exactly the nodes after. */
  lemma MutationLiveSynced(before: seq<Node>, after: seq<Node>)
    ensures MutationLive(before, after, NodeSet(before)) == NodeSet(after)
  {
  }

  // ---------------------------------------------------------------------------------------

  class NavFlow {
    const navigator: StackNavigator
    var started: bool
    /** nodes with a running output collector (the keys of `outputCollectors`) */
    var collectors: set<Node>
    /** every lifecycle call made so far, in order */
    var hooks: seq<Hook>
    /** the allocation `createEntry` uses next */
    var nextUid: nat

    ghost predicate CollectorsTracked()
      reads this
    {
      collectors == Replay(hooks) && Bracketed(hooks)
    }

    ghost predicate Valid()
      reads this, navigator
    {
      navigator.Valid() && CollectorsTracked()
    }

    /** Whether the flow is started, its stack and its hook log. */
    ghost function State(): FlowState
      reads this, navigator
    {
      FlowState(started, navigator.stack, hooks)
    }

    /** Attachments are paired with the stack: a started flow observes exactly the nodes on its
        stack, and a flow not started observes none and holds its root alone. */
    ghost predicate Paired()
      reads this, navigator
    {
      if started then collectors == NodeSet(Nodes(navigator.stack))
      else collectors == {} && |navigator.stack| == 1
    }

    /** The root entry is created for `rootNode`; nothing is attached before `start()`. */
    constructor (rootNode: Node)
      ensures Valid() && Paired() && fresh(navigator)
      ensures !started && collectors == {} && hooks == []
      ensures navigator.stack == [DefaultStackEntry(0, rootNode)] && nextUid == 1
    {
      navigator := new StackNavigator(DefaultStackEntry(0, rootNode));
      started := false;
      collectors := {};
      hooks := [];
      nextUid := 1;
    }

    function CurrentTopNode(): (n: Node)
      reads this, navigator
      requires Valid()
      ensures n == navigator.stack[|navigator.stack| - 1].node
    {
      navigator.state.Top()
    }

    method CreateEntry(node: Node) returns (e: Entry)
      modifies this`nextUid
      ensures e == DefaultStackEntry(old(nextUid), node) && nextUid == old(nextUid) + 1
    {
      e := DefaultStackEntry(nextUid, node);
      nextUid := nextUid + 1;
    }

    method ObserveNodeOutputs(node: Node)
      requires CollectorsTracked()
      modifies this`hooks, this`collectors
      ensures CollectorsTracked()
      ensures node in old(collectors) ==> hooks == old(hooks) && collectors == old(collectors)
      ensures node !in old(collectors) ==>
        hooks == old(hooks) + [Observe(node)] && collectors == old(collectors) + {node}
    {
      if node in collectors {
        return;
      }
      ReplayAppend(hooks, Observe(node));
      hooks := hooks + [Observe(node)];
      collectors := collectors + {node};
    }

    method StopObservingNode(node: Node)
      requires CollectorsTracked()
      modifies this`hooks, this`collectors
      ensures CollectorsTracked()
      ensures node !in old(collectors) ==> hooks == old(hooks) && collectors == old(collectors)
      ensures node in old(collectors) ==>
        hooks == old(hooks) + [StopObserve(node)] && collectors == old(collectors) - {node}
    {
      if node !in collectors {
        return;
      }
      ReplayAppend(hooks, StopObserve(node));
      hooks := hooks + [StopObserve(node)];
      collectors := collectors - {node};
    }

    method AttachNode(node: Node)
      requires CollectorsTracked()
      modifies this`hooks, this`collectors
      ensures CollectorsTracked()
      ensures hooks == old(hooks) + AttachHooks(node, old(collectors))
      ensures collectors == old(collectors) + {node}
    {
      ReplayAppend(hooks, Attach(node));
      hooks := hooks + [Attach(node)];
      ObserveNodeOutputs(node);
    }

    method DetachNode(node: Node)
      requires CollectorsTracked()
      modifies this`hooks, this`collectors
      ensures CollectorsTracked()
      ensures hooks == old(hooks) + DetachHooks(node, old(collectors))
      ensures collectors == old(collectors) - {node}
    {
      StopObservingNode(node);
      ReplayAppend(hooks, Detach(node));
      hooks := hooks + [Detach(node)];
    }

    method AttachAll(ns: seq<Node>)
      requires CollectorsTracked()
      modifies this`hooks, this`collectors
      ensures CollectorsTracked()
      ensures hooks == old(hooks) + AttachAllHooks(ns, old(collectors))
      ensures collectors == old(collectors) + NodeSet(ns)
    {
      var i := 0;
      while i < |ns|
        invariant 0 <= i <= |ns|
        invariant CollectorsTracked()
        invariant hooks == old(hooks) + AttachAllHooks(ns[..i], old(collectors))
        invariant collectors == old(collectors) + NodeSet(ns[..i])
      {
        AttachAllStep(ns, i, old(collectors));
        ghost var done := AttachAllHooks(ns[..i], old(collectors));
        ghost var next := AttachHooks(ns[i], collectors);
        AttachNode(ns[i]);
        ConcatAssoc(old(hooks), done, next);
        i := i + 1;
      }
      assert ns[..i] == ns;
    }

    method DetachAll(ns: seq<Node>)
      requires CollectorsTracked()
      modifies this`hooks, this`collectors
      ensures CollectorsTracked()
      ensures hooks == old(hooks) + DetachAllHooks(ns, old(collectors))
      ensures collectors == old(collectors) - NodeSet(ns)
    {
      var i := 0;
      while i < |ns|
        invariant 0 <= i <= |ns|
        invariant CollectorsTracked()
        invariant hooks == old(hooks) + DetachAllHooks(ns[..i], old(collectors))
        invariant collectors == old(collectors) - NodeSet(ns[..i])
      {
        DetachAllStep(ns, i, old(collectors));
        ghost var done := DetachAllHooks(ns[..i], old(collectors));
        ghost var next := DetachHooks(ns[i], collectors);
        DetachNode(ns[i]);
        ConcatAssoc(old(hooks), done, next);
        i := i + 1;
      }
      assert ns[..i] == ns;
    }

    /** Idempotent: the first call attaches the node on top. */
    method Start()
      requires Valid()
      modifies this
      ensures Valid() && started && nextUid == old(nextUid)
      ensures old(started) ==> hooks == old(hooks) && collectors == old(collectors)
      ensures !old(started) ==>
        var top := navigator.stack[|navigator.stack| - 1].node;
        hooks == old(hooks) + AttachHooks(top, old(collectors))
        && collectors == old(collectors) + {top}
      ensures old(Paired()) ==> Paired()
    {
      if started {
        return;
      }
      started := true;
      AttachNode(CurrentTopNode());
      assert Nodes(navigator.stack[..0] + [navigator.stack[0]]) == [navigator.stack[0].node];
    }

    method Push(node: Node) returns (r: Try<()>)
      requires Valid()
      modifies this, navigator
      ensures Valid() && started == old(started)
      ensures !old(started) ==> r == Failure(NotStarted) && unchanged(this, navigator)
      ensures old(started) ==>
        r == Success(())
        && navigator.stack == old(navigator.stack) + [DefaultStackEntry(old(nextUid), node)]
        && nextUid == old(nextUid) + 1
        && hooks == old(hooks) + AttachHooks(node, old(collectors))
        && collectors == old(collectors) + {node}
      ensures old(Paired()) ==> Paired()
    {
      if !started {
        return Failure(NotStarted);
      }
      var entry := CreateEntry(node);
      NodeSetPushed(navigator.stack, entry);
      navigator.Push(entry);
      AttachNode(node);
      r := Success(());
    }

    /** Returns false instead of raising when the flow is not started. */
    method PushIfStarted(node: Node) returns (pushed: bool)
      requires Valid()
      modifies this, navigator
      ensures Valid() && started == old(started) && pushed == old(started)
      ensures !old(started) ==> unchanged(this, navigator)
      ensures old(started) ==>
        navigator.stack == old(navigator.stack) + [DefaultStackEntry(old(nextUid), node)]
        && hooks == old(hooks) + AttachHooks(node, old(collectors))
        && collectors == old(collectors) + {node}
      ensures old(Paired()) ==> Paired()
    {
      if !started {
        return false;
      }
      var _ := Push(node);
      return true;
    }

    /** Removes and detaches the top node; false at the root. */
    method Pop() returns (r: Try<bool>)
      requires Valid()
      modifies this, navigator
      ensures Valid() && started == old(started) && nextUid == old(nextUid)
      ensures !old(started) ==> r == Failure(NotStarted) && unchanged(this, navigator)
      ensures old(started) && |old(navigator.stack)| == 1 ==>
        r == Success(false) && unchanged(this, navigator)
      ensures old(started) && |old(navigator.stack)| > 1 ==>
        var s := old(navigator.stack);
        var top := s[|s| - 1].node;
        r == Success(true) && navigator.stack == s[..|s| - 1]
        && hooks == old(hooks) + DetachHooks(top, old(collectors))
        && collectors == old(collectors) - {top}
      ensures old(Paired()) && DistinctNodes(old(navigator.stack)) ==> Paired()
    {
      if !started {
        return Failure(NotStarted);
      }
      ghost var s := navigator.stack;
      if DistinctNodes(s) && |s| > 1 {
        RemovedTopNodes(s, |s| - 1);
        assert Nodes(Reversed(s[|s| - 1..])) == [s[|s| - 1].node];
      }
      var removed := navigator.Pop();
      if removed.Some? {
        DetachNode(removed.value.node);
      }
      r := Success(removed.Some?);
    }

    method PopIfStarted() returns (popped: bool)
      requires Valid()
      modifies this, navigator
      ensures Valid() && started == old(started) && nextUid == old(nextUid)
      ensures popped <==> old(started) && |old(navigator.stack)| > 1
      ensures !popped ==> unchanged(this, navigator)
      ensures popped ==>
        var s := old(navigator.stack);
        var top := s[|s| - 1].node;
        navigator.stack == s[..|s| - 1]
        && hooks == old(hooks) + DetachHooks(top, old(collectors))
        && collectors == old(collectors) - {top}
      ensures old(Paired()) && DistinctNodes(old(navigator.stack)) ==> Paired()
    {
      if !started {
        return false;
      }
      var r := Pop();
      popped := r.value;
    }

    /** Swaps the whole stack for `node`: every old node is detached, top first, then `node`
        is attached. */
    method ReplaceAll(node: Node) returns (r: Try<()>)
      requires Valid()
      modifies this, navigator
      ensures Valid() && started == old(started)
      ensures !old(started) ==> r == Failure(NotStarted) && unchanged(this, navigator)
      ensures old(started) ==>
        var gone := Nodes(Reversed(old(navigator.stack)));
        r == Success(())
        && navigator.stack == [DefaultStackEntry(old(nextUid), node)]
        && nextUid == old(nextUid) + 1
        && hooks == old(hooks) + DetachAllHooks(gone, old(collectors))
                               + AttachHooks(node, old(collectors) - NodeSet(gone))
        && collectors == old(collectors) - NodeSet(gone) + {node}
      ensures old(Paired()) ==> Paired()
    {
      if !started {
        return Failure(NotStarted);
      }
      NodeSetReversed(navigator.stack);
      assert Nodes([DefaultStackEntry(nextUid, node)]) == [node];
      var entry := CreateEntry(node);
      var removed := navigator.ReplaceAll(entry);
      DetachAll(Nodes(removed));
      AttachNode(node);
      r := Success(());
    }

    /** Swaps the top entry: the old top node is detached, then `node` is attached. */
    method ReplaceTop(node: Node) returns (r: Try<()>)
      requires Valid()
      modifies this, navigator
      ensures Valid() && started == old(started)
      ensures !old(started) ==> r == Failure(NotStarted) && unchanged(this, navigator)
      ensures old(started) ==>
        var s := old(navigator.stack);
        var top := s[|s| - 1].node;
        r == Success(())
        && navigator.stack == s[..|s| - 1] + [DefaultStackEntry(old(nextUid), node)]
        && nextUid == old(nextUid) + 1
        && hooks == old(hooks) + DetachHooks(top, old(collectors))
                               + AttachHooks(node, old(collectors) - {top})
        && collectors == old(collectors) - {top} + {node}
      ensures old(Paired()) && DistinctNodes(old(navigator.stack)) ==> Paired()
    {
      if !started {
        return Failure(NotStarted);
      }
      ghost var s := navigator.stack;
      if DistinctNodes(s) {
        RemovedTopNodes(s, |s| - 1);
        assert Nodes(Reversed(s[|s| - 1..])) == [s[|s| - 1].node];
        NodeSetPushed(s[..|s| - 1], DefaultStackEntry(nextUid, node));
      }
      var entry := CreateEntry(node);
      var removed := navigator.ReplaceTop(entry);
      DetachNode(removed.value.node);
      AttachNode(node);
      r := Success(());
    }

    /** Pops everything above the root, detaching each removed node top first. */
    method PopAll() returns (r: Try<()>)
      requires Valid()
      modifies this, navigator
      ensures Valid() && started == old(started) && nextUid == old(nextUid)
      ensures !old(started) ==> r == Failure(NotStarted) && unchanged(this, navigator)
      ensures old(started) ==>
        var s := old(navigator.stack);
        var gone := Nodes(Reversed(s[1..]));
        r == Success(()) && navigator.stack == s[..1]
        && hooks == old(hooks) + DetachAllHooks(gone, old(collectors))
        && collectors == old(collectors) - NodeSet(gone)
      ensures old(Paired()) && DistinctNodes(old(navigator.stack)) ==> Paired()
    {
      if !started {
        return Failure(NotStarted);
      }
      if DistinctNodes(navigator.stack) {
        RemovedTopNodes(navigator.stack, 1);
      }
      var removed := navigator.PopAll();
      DetachAll(Nodes(removed));
      r := Success(());
    }

    /** Pops to the first entry holding `target` (and that entry too when `inclusive`); a
        node not on the stack is a no-op. Popping the root inclusively raises and leaves the
        navigator emptied. */
    method PopTo(target: Node, inclusive: bool) returns (r: Try<()>)
      requires Valid()
      modifies this, navigator
      ensures started == old(started) && nextUid == old(nextUid)
      ensures r.Success? ==> Valid()
      ensures !old(started) ==> r == Failure(NotStarted) && unchanged(this, navigator)
      ensures old(started) && FirstNodeIndex(old(navigator.stack), target) == -1 ==>
        r == Success(()) && unchanged(this, navigator)
      ensures old(started) && FirstNodeIndex(old(navigator.stack), target) >= 0 ==>
        var s := old(navigator.stack);
        match Apply(s, PopToOp(s[FirstNodeIndex(s, target)], inclusive))
        case Success(c) =>
          r == Success(()) && navigator.stack == c.stack
          && hooks == old(hooks) + DetachAllHooks(Nodes(c.removed), old(collectors))
          && collectors == old(collectors) - NodeSet(Nodes(c.removed))
        case Failure(e) =>
          r == Failure(e) && navigator.stack == [] && navigator.state == old(navigator.state)
          && hooks == old(hooks) && collectors == old(collectors)
      ensures r.Success? && old(Paired()) && DistinctNodes(old(navigator.stack)) ==> Paired()
    {
      if !started {
        return Failure(NotStarted);
      }
      var i := FirstNodeIndex(navigator.state.stack, target);
      if i == -1 {
        return Success(());
      }
      ghost var s := navigator.stack;
      var removed := navigator.PopTo(navigator.state.stack[i], inclusive);
      if removed.Failure? {
        return Failure(removed.error);
      }
      if DistinctNodes(s) {
        RemovedTopNodes(s, |navigator.stack|);
      }
      DetachAll(Nodes(removed.value));
      r := Success(());
    }

    method CanPop() returns (r: Try<bool>)
      requires Valid()
      ensures !started ==> r == Failure(NotStarted)
      ensures started ==> r == Success(|navigator.stack| > 1)
    {
      if !started {
        return Failure(NotStarted);
      }
      r := Success(navigator.state.Size() > 1);
    }

    /** `popTo(root, inclusive = false)`: the same effect as `popAll()`. */
    method PopToRoot() returns (r: Try<()>)
      requires Valid()
      modifies this, navigator
      ensures Valid() && started == old(started) && nextUid == old(nextUid)
      ensures !old(started) ==> r == Failure(NotStarted) && unchanged(this, navigator)
      ensures old(started) ==>
        var s := old(navigator.stack);
        var gone := Nodes(Reversed(s[1..]));
        r == Success(()) && navigator.stack == s[..1]
        && hooks == old(hooks) + DetachAllHooks(gone, old(collectors))
        && collectors == old(collectors) - NodeSet(gone)
      ensures old(Paired()) && DistinctNodes(old(navigator.stack)) ==> Paired()
    {
      if !started {
        return Failure(NotStarted);
      }
      ghost var s := navigator.stack;
      var root := navigator.state.Root();
      assert FirstNodeIndex(s, root) == 0;
      assert IndexOf(s, s[0]) == 0 by {
        assert s[0].Equals(s[0]);
      }
      if |s| == 1 {
        assert s[..1] == s && s[1..] == [];
        assert Nodes(Reversed(s[1..])) == [];
        assert NodeSet([]) == {};
      }
      r := PopTo(root, false);
    }

    /** The node `sendEvent` hands the event to: the current top. */
    method SendEvent() returns (r: Try<Node>)
      requires Valid()
      ensures !started ==> r == Failure(NotStarted)
      ensures started ==> r == Success(navigator.stack[|navigator.stack| - 1].node)
    {
      if !started {
        return Failure(NotStarted);
      }
      r := Success(CurrentTopNode());
    }

    /** Detaches every node, root first, then pops back to the root and stops. A flow that was
        never started is left alone. */
    method Dispose()
      requires Valid()
      modifies this, navigator
      ensures Valid() && !started && nextUid == old(nextUid)
      ensures !old(started) ==> unchanged(this, navigator)
      ensures old(started) ==>
        var s := old(navigator.stack);
        navigator.stack == s[..1]
        && hooks == old(hooks) + DetachAllHooks(Nodes(s), old(collectors))
        && collectors == old(collectors) - NodeSet(Nodes(s))
      ensures old(Paired()) ==> Paired()
    {
      if !started {
        return;
      }
      DetachAll(Nodes(navigator.state.stack));
      var _ := navigator.PopAll();
      started := false;
    }

    /** Detaches the nodes of `before` missing from `after`, then attaches the nodes of `after`
        missing from `before`. */
    method SyncLifecycle(before: seq<Node>, after: seq<Node>)
      requires CollectorsTracked()
      modifies this`hooks, this`collectors
      ensures CollectorsTracked()
      ensures hooks == old(hooks) + MutationHooks(before, after, old(collectors))
      ensures collectors == MutationLive(before, after, old(collectors))
    {
      var gone, added := Without(before, after), Without(after, before);
      ghost var h0 := hooks;
      ghost var dh := DetachAllHooks(gone, collectors);
      ghost var ah := AttachAllHooks(added, collectors - NodeSet(gone));
      DetachAll(gone);
      AttachAll(added);
      ConcatAssoc(h0, dh, ah);
    }

    /** `mutateNavigator` as written: runs navigator calls without the started check, then
        detaches the nodes that left the stack and attaches the nodes that arrived, compared by
        node. A failing call raises: the navigator is left emptied and nothing is attached or
        detached. On a started flow the pairing is kept; before `start()` it is not (see
        `PreStartMutationUnpaired`). */
    method MutateNavigatorUnguarded(ops: seq<NavOp>) returns (r: Try<()>)
      requires Valid()
      modifies this, navigator
      ensures started == old(started) && nextUid == old(nextUid)
      ensures match ApplyAll(old(navigator.stack), ops)
        case Success(after) =>
          var before := Nodes(old(navigator.stack));
          r == Success(()) && Valid() && navigator.stack == after
          && hooks == old(hooks) + MutationHooks(before, Nodes(after), old(collectors))
          && collectors == MutationLive(before, Nodes(after), old(collectors))
        case Failure(e) =>
          r == Failure(e) && navigator.stack == []
          && navigator.state == NavState(LastGood(old(navigator.stack), ops))
          && hooks == old(hooks) && collectors == old(collectors)
      ensures r.Success? && old(started) && old(Paired()) ==> Paired()
    {
      ghost var s := navigator.stack;
      var beforeNodes := Nodes(navigator.state.stack);
      var i := 0;
      while i < |ops|
        invariant 0 <= i <= |ops|
        invariant navigator.Valid() && CollectorsTracked()
        invariant ApplyAll(old(navigator.stack), ops) == ApplyAll(navigator.stack, ops[i..])
        invariant LastGood(old(navigator.stack), ops) == LastGood(navigator.stack, ops[i..])
        invariant hooks == old(hooks) && collectors == old(collectors)
        invariant started == old(started) && nextUid == old(nextUid)
      {
        assert ops[i..][1..] == ops[i + 1..];
        var step := navigator.Perform(ops[i]);
        if step.Failure? {
          return Failure(step.error);
        }
        i := i + 1;
      }
      assert ops[i..] == [];
      SyncLifecycle(beforeNodes, Nodes(navigator.state.stack));
      r := Success(());
      MutationLiveSynced(Nodes(s), Nodes(navigator.stack));
    }

    /** `mutateNavigator` with the `ensureStarted()` check every other stack change makes:
        before `start()` it raises and changes nothing; on a started flow it is the call above,
        and it keeps attachments paired with the stack. */
    method MutateNavigator(ops: seq<NavOp>) returns (r: Try<()>)
      requires Valid()
      modifies this, navigator
      ensures started == old(started) && nextUid == old(nextUid)
      ensures !old(started) ==> r == Failure(NotStarted) && unchanged(this, navigator)
      ensures old(started) ==> match ApplyAll(old(navigator.stack), ops)
        case Success(after) =>
          var before := Nodes(old(navigator.stack));
          r == Success(()) && Valid() && navigator.stack == after
          && hooks == old(hooks) + MutationHooks(before, Nodes(after), old(collectors))
          && collectors == MutationLive(before, Nodes(after), old(collectors))
        case Failure(e) =>
          r == Failure(e) && navigator.stack == []
          && navigator.state == NavState(LastGood(old(navigator.stack), ops))
          && hooks == old(hooks) && collectors == old(collectors)
      ensures r.Success? && old(Paired()) ==> Paired()
    {
      if !started {
        return Failure(NotStarted);
      }
      r := MutateNavigatorUnguarded(ops);
    }
  }

  /** The stack after other callers navigate while a helper waits: their run of navigator
      calls, made through `mutateNavigator`; a run that would fail or empty the stack is not
      made. */
  function AfterOthers(s: seq<Entry>, external: seq<NavOp>): (r: seq<Entry>)
    requires |s| >= 1
    ensures |r| >= 1
    ensures external == [] ==> r == s
    ensures ApplyAll(s, external).Success? && |ApplyAll(s, external).value| >= 1 ==>
      r == ApplyAll(s, external).value
  {
    match ApplyAll(s, external)
    case Success(after) => if |after| >= 1 then after else s
    case Failure(_) => s
  }

  /** What the helpers' contracts say about a flow: started or not, the stack, the hook log. */
  datatype FlowState = FlowState(started: bool, stack: seq<Entry>, hooks: seq<Hook>)

  /** The `finally` of a helper on a started flow holding `mid`, with collectors `live` and hook
      log `h`: a dispose when one happened, then one `pop()` when `pop` is set and the flow is
      still started. The pop removes whatever entry is on top, nothing at the root. */
  ghost function FinallyState(mid: seq<Entry>, live: set<Node>, h: seq<Hook>, disposed: bool,
                              pop: bool): FlowState
    requires |mid| >= 1
  {
    if disposed then FlowState(false, mid[..1], h + DetachAllHooks(Nodes(mid), live))
    else if pop && |mid| > 1 then
      FlowState(true, mid[..|mid| - 1], h + DetachHooks(mid[|mid| - 1].node, live))
    else FlowState(true, mid, h)
  }

  /** A helper on a started flow with stack `s`, next uid `uid`, hook log `h` and collectors
      `live`: it pushes `node`, other callers run `external` while it waits, and its `finally`
      follows as `FinallyState` says. */
  ghost function HelperState(s: seq<Entry>, uid: nat, node: Node, h: seq<Hook>, live: set<Node>,
                             external: seq<NavOp>, disposed: bool, pop: bool): FlowState
  {
    var pushed := s + [DefaultStackEntry(uid, node)];
    var mid := AfterOthers(pushed, external);
    FinallyState(mid, MutationLive(Nodes(pushed), Nodes(mid), live + {node}),
                 h + AttachHooks(node, live) + MutationHooks(Nodes(pushed), Nodes(mid), live + {node}),
                 disposed, pop)
  }

  /** With no other navigation and no dispose, a helper that pops leaves the stack as it found
      it, having attached and then detached its node. */
  lemma HelperRestores(s: seq<Entry>, uid: nat, node: Node, h: seq<Hook>, live: set<Node>)
    requires |s| >= 1
    ensures HelperState(s, uid, node, h, live, [], false, true)
         == FlowState(true, s, h + AttachHooks(node, live) + DetachHooks(node, live + {node}))
  {
    var pushed := s + [DefaultStackEntry(uid, node)];
    MutationNone(Nodes(pushed), live + {node});
    assert AfterOthers(pushed, []) == pushed;
    assert pushed[..|pushed| - 1] == s && pushed[|pushed| - 1].node == node;
    assert h + AttachHooks(node, live) + [] == h + AttachHooks(node, live);
  }

  /** Without the pop, and with no other navigation and no dispose, the helper's entry stays on
      top. */
  lemma HelperKeepsEntry(s: seq<Entry>, uid: nat, node: Node, h: seq<Hook>, live: set<Node>)
    ensures HelperState(s, uid, node, h, live, [], false, false)
         == FlowState(true, s + [DefaultStackEntry(uid, node)], h + AttachHooks(node, live))
  {
    var pushed := s + [DefaultStackEntry(uid, node)];
    MutationNone(Nodes(pushed), live + {node});
    assert AfterOthers(pushed, []) == pushed;
    assert h + AttachHooks(node, live) + [] == h + AttachHooks(node, live);
  }

  /** When another caller pushes `e` while the helper waits, the helper's pop removes `e`, and
      the helper's own entry stays on the stack. */
  lemma HelperPopsOthersEntry(s: seq<Entry>, uid: nat, node: Node, h: seq<Hook>, live: set<Node>,
                              e: Entry)
    ensures var r := HelperState(s, uid, node, h, live, [PushOp(e)], false, true);
      r.started && r.stack == s + [DefaultStackEntry(uid, node)]
  {
    var pushed := s + [DefaultStackEntry(uid, node)];
    OthersPushAbove(pushed, e);
    assert (pushed + [e])[..|pushed + [e]| - 1] == pushed;
  }

  /** A dispose while the helper waits, with no other navigation, leaves the root alone and the
      flow stopped, whatever the pop flag says. */
  lemma HelperDisposed(s: seq<Entry>, uid: nat, node: Node, h: seq<Hook>, live: set<Node>, pop: bool)
    requires |s| >= 1
    ensures var r := HelperState(s, uid, node, h, live, [], true, pop);
      !r.started && r.stack == s[..1]
  {
    assert (s + [DefaultStackEntry(uid, node)])[..1] == s[..1];
  }

  /** Another caller pushing `e` while the helper waits puts `e` above the helper's node. */
  lemma OthersPushAbove(s: seq<Entry>, e: Entry)
    requires |s| >= 1
    ensures AfterOthers(s, [PushOp(e)]) == s + [e]
  {
    PushRun(s, e);
  }

  /** Nothing is left of a list whose every node is also in the other. */
  lemma {:induction false} WithoutCovered(xs: seq<Node>, ys: seq<Node>)
    requires forall n :: n in xs ==> n in ys
    ensures Without(xs, ys) == []
  {
    if xs != [] {
      assert xs[0] in ys;
      WithoutCovered(xs[1..], ys);
    }
  }

  /** `mutateNavigator` that keeps the stack's nodes: no hooks and the same collectors. */
  lemma MutationNone(xs: seq<Node>, live: set<Node>)
    ensures MutationHooks(xs, xs, live) == [] && MutationLive(xs, xs, live) == live
  {
    WithoutCovered(xs, xs);
    assert NodeSet(Without(xs, xs)) == {};
  }

  /** Other callers navigate while a helper waits on a started flow. */
  method OthersNavigate(flow: NavFlow, external: seq<NavOp>)
    requires flow.Valid() && flow.started
    modifies flow, flow.navigator
    ensures flow.Valid() && flow.started && flow.nextUid == old(flow.nextUid)
    ensures var before := old(flow.navigator.stack);
      var after := AfterOthers(before, external);
      flow.navigator.stack == after
      && flow.hooks == old(flow.hooks) + MutationHooks(Nodes(before), Nodes(after), old(flow.collectors))
      && flow.collectors == MutationLive(Nodes(before), Nodes(after), old(flow.collectors))
  {
    var s := flow.navigator.stack;
    var applied := ApplyAll(s, external);
    if applied.Success? && |applied.value| >= 1 {
      var _ := flow.MutateNavigator(external);
    } else {
      MutationNone(Nodes(s), flow.collectors);
    }
  }

  /** The nodes attached and detached with one more call at the front of a log. */
  lemma AttachedDetachedCons(x: Hook, h: seq<Hook>)
    ensures Attached([x] + h) == (if x.Attach? then [x.node] else []) + Attached(h)
    ensures Detached([x] + h) == (if x.Detach? then [x.node] else []) + Detached(h)
  {
    assert ([x] + h)[0] == x && ([x] + h)[1..] == h;
  }

  /** One push as a run of navigator calls. */
  lemma PushRun(s: seq<Entry>, e: Entry)
    requires |s| >= 1
    ensures ApplyAll(s, [PushOp(e)]) == Success(s + [e])
  {
    var c := Apply(s, PushOp(e));
    assert c == Success(Change(s + [e], []));
    assert [PushOp(e)][1..] == [];
    assert ApplyAll(s + [e], []) == Success(s + [e]);
  }

  /** The nodes of a stack with one more entry on top. */
  lemma NodesPushed(s: seq<Entry>, e: Entry)
    ensures Nodes(s + [e]) == Nodes(s) + [e.node]
  {
    var l, r := Nodes(s + [e]), Nodes(s) + [e.node];
    assert |l| == |r|;
    forall i | 0 <= i < |l|
      ensures l[i] == r[i]
    {
      if i < |s| {
        assert (s + [e])[i] == s[i];
      }
    }
  }

  /** The hooks `mutateNavigator` logs in the pre-start scenario below. */
  lemma PreStartMutationHooks(root: Node, a: Node)
    requires root != a
    ensures MutationHooks([root], [root, a], {}) == [Attach(a), Observe(a)]
    ensures MutationLive([root], [root, a], {}) == {a}
  {
    var none: seq<Node> := [];
    assert Without([root], [root, a]) == none by {
      assert [root][1..] == none;
    }
    assert Without([root, a], [root]) == [a] by {
      assert [root, a][1..] == [a] && [a][1..] == none;
    }
    assert NodeSet(none) == {} && NodeSet([a]) == {a};
    var nothing: set<Node> := {};
    assert nothing - NodeSet(none) == nothing;
    assert MutationHooks([root], [root, a], nothing)
      == DetachAllHooks(none, nothing) + AttachAllHooks([a], nothing);
    assert AttachAllHooks([a], {}) == [Attach(a), Observe(a)] by {
      assert [a][1..] == none;
    }
  }

  /** The hooks `start()` and `dispose()` log in the pre-start scenario below. */
  lemma PreStartLaterHooks(root: Node, a: Node)
    requires root != a
    ensures AttachHooks(a, {a}) == [Attach(a)]
    ensures DetachAllHooks([root, a], {a}) == [Detach(root), StopObserve(a), Detach(a)]
  {
    var none: seq<Node> := [];
    assert DetachAllHooks([a], {a}) == [StopObserve(a), Detach(a)] by {
      assert [a][1..] == none;
    }
    assert [root, a][1..] == [a] && {a} - {root} == {a};
  }

  /** The nodes attached and detached in the pre-start scenario's log. */
  lemma PreStartLog(root: Node, a: Node)
    ensures var h := [Attach(a), Observe(a), Attach(a), Detach(root), StopObserve(a), Detach(a)];
      Attached(h) == [a, a] && Detached(h) == [root, a]
  {
    var empty: seq<Hook> := [];
    AttachedDetachedCons(Detach(a), empty);
    AttachedDetachedCons(StopObserve(a), [Detach(a)]);
    AttachedDetachedCons(Detach(root), [StopObserve(a), Detach(a)]);
    AttachedDetachedCons(Attach(a), [Detach(root), StopObserve(a), Detach(a)]);
    AttachedDetachedCons(Observe(a), [Attach(a), Detach(root), StopObserve(a), Detach(a)]);
    AttachedDetachedCons(Attach(a), [Observe(a), Attach(a), Detach(root), StopObserve(a), Detach(a)]);
  }

  /** `mutateNavigator` as written, called before `start()`: push a node, then start and
      dispose. The root is detached without ever being attached, and the pushed node is
      attached twice but detached once. */
  method PreStartMutationUnpaired(root: Node, a: Node) returns (h: seq<Hook>)
    requires root != a
    ensures Attached(h) == [a, a] && Detached(h) == [root, a]
  {
    var flow := PushBeforeStart(root, a);
    PreStartLaterHooks(root, a);
    PreStartLog(root, a);
    ghost var s := flow.navigator.stack;
    assert |s| == 2 && s[1].node == a;
    flow.Start();
    assert flow.hooks == [Attach(a), Observe(a), Attach(a)] && flow.collectors == {a};
    flow.Dispose();
    h := flow.hooks;
    assert h == [Attach(a), Observe(a), Attach(a), Detach(root), StopObserve(a), Detach(a)];
  }

  /** The first step of the scenario above: a new flow on `root`, then `mutateNavigator` as
      written pushing `a` before `start()`. */
  method PushBeforeStart(root: Node, a: Node) returns (flow: NavFlow)
    requires root != a
    ensures fresh(flow) && fresh(flow.navigator) && flow.Valid() && !flow.started
    ensures Nodes(flow.navigator.stack) == [root, a]
    ensures flow.hooks == [Attach(a), Observe(a)] && flow.collectors == {a}
  {
    PreStartMutationHooks(root, a);
    flow := new NavFlow(root);
    var e := flow.CreateEntry(a);
    ghost var s0 := flow.navigator.stack;
    PushRun(s0, e);
    NodesPushed(s0, e);
    assert Nodes(s0) == [root];
    var _ := flow.MutateNavigatorUnguarded([PushOp(e)]);
  }

  /** The hooks of the refused scenario below. */
  lemma RefusedHooks(root: Node)
    ensures AttachHooks(root, {}) == [Attach(root), Observe(root)]
    ensures DetachAllHooks([root], {root}) == [StopObserve(root), Detach(root)]
    ensures var h := [Attach(root), Observe(root), StopObserve(root), Detach(root)];
      Attached(h) == [root] && Detached(h) == [root]
  {
    var none: seq<Node> := [];
    assert DetachAllHooks([root], {root}) == [StopObserve(root), Detach(root)] by {
      assert [root][1..] == none;
    }
    var empty: seq<Hook> := [];
    AttachedDetachedCons(Detach(root), empty);
    AttachedDetachedCons(StopObserve(root), [Detach(root)]);
    AttachedDetachedCons(Observe(root), [StopObserve(root), Detach(root)]);
    AttachedDetachedCons(Attach(root), [Observe(root), StopObserve(root), Detach(root)]);
  }

  /** The same calls with the started check: the early mutation is refused, and the one node
      detached on dispose is the one attached on start. */
  method PreStartMutationRefused(root: Node, a: Node) returns (r: Try<()>, h: seq<Hook>)
    ensures r == Failure(NotStarted)
    ensures Attached(h) == [root] && Detached(h) == [root]
  {
    RefusedHooks(root);
    var flow := new NavFlow(root);
    var e := flow.CreateEntry(a);
    r := flow.MutateNavigator([PushOp(e)]);
    flow.Start();
    assert Nodes(flow.navigator.stack) == [root];
    flow.Dispose();
    h := flow.hooks;
  }
}
