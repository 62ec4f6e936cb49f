/** Nodes, stack entries and the immutable navigation snapshot (`KmposableNavState`). */
module NavState {
  import opened Common

  /** A node instance. `ref` is its identity: two nodes are `==` exactly when they are the same
      instance. The remaining fields are the capabilities the core tests with `is`/`as?`. */
  datatype Node = Node(
    ref: nat,
    cls: TypeTag,              // node::class
    supertypes: set<TypeTag>,  // every other class or interface the node is an instance of
    stateful: bool,            // is a StatefulNode
    id: Option<string>,        // StatefulNode.id, when it is one
    lifecycleAware: bool,      // is a LifecycleAwareNode
    resultNode: bool,          // is a ResultNode
    overlay: bool              // isOverlayPresentation()
  )

  /** `KClass.isInstance(node)`. */
  predicate IsInstance(n: Node, t: TypeTag)
  {
    t == n.cls || t in n.supertypes
  }

  /** A stack entry (`DefaultStackEntry`). `uid` is the allocation: two entries are `==` exactly
      when they are the same object (Kotlin `===`). */
  datatype Entry = Entry(uid: nat, node: Node, tag: Option<string>)
  {
    /** The data-class `equals`: same node and same tag, whatever the allocation. */
    predicate Equals(other: Entry)
    {
      node == other.node && tag == other.tag
    }
  }

  /** `resolveNodeTag`: the StatefulNode id when there is one, else the class's simple name. */
  function ResolveNodeTag(n: Node): (tag: Option<string>)
    ensures n.stateful && n.id.Some? ==> tag == n.id
    ensures !(n.stateful && n.id.Some?) ==> tag == n.cls.simpleName
  {
    if n.stateful && n.id.Some? then n.id else n.cls.simpleName
  }

  /** `DefaultStackEntry(node)` with its default tag, allocated as object `uid`. */
  function DefaultStackEntry(uid: nat, n: Node): (e: Entry)
    ensures e.uid == uid && e.node == n
    ensures n.stateful && n.id.Some? ==> e.tag == n.id
    ensures !(n.stateful && n.id.Some?) ==> e.tag == n.cls.simpleName
  {
    Entry(uid, n, ResolveNodeTag(n))
  }

  /** Snapshot of the stack, root (index 0) to top (last index). */
  datatype NavState = NavState(stack: seq<Entry>)
  {
    /** The `init { require(...) }` invariant every constructed snapshot satisfies. */
    predicate Wellformed()
    {
      |stack| >= 1
    }

    function RootEntry(): Entry
      requires Wellformed()
    {
      stack[0]
    }

    function TopEntry(): Entry
      requires Wellformed()
    {
      stack[|stack| - 1]
    }

    function Root(): Node
      requires Wellformed()
    {
      RootEntry().node
    }

    function Top(): Node
      requires Wellformed()
    {
      TopEntry().node
    }

    function Size(): nat
    {
      |stack|
    }
  }

  /** The primary constructor: it raises IllegalArgumentException on an empty list. */
  function MakeNavState(stack: seq<Entry>): (r: Try<NavState>)
    ensures r.Success? <==> |stack| >= 1
    ensures r.Success? ==> r.value.stack == stack && r.value.Wellformed()
    ensures r.Failure? ==> r.error == IllegalArgument(EmptyNavStateMessage)
  {
    if |stack| == 0 then Failure(IllegalArgument(EmptyNavStateMessage)) else Success(NavState(stack))
  }

  /** Every snapshot that construction lets through has a root and a top; its size is at least 1. */
  lemma ConstructedStateIsNonEmpty(stack: seq<Entry>)
    requires MakeNavState(stack).Success?
    ensures MakeNavState(stack).value.Size() >= 1
    ensures MakeNavState(stack).value.RootEntry() == stack[0]
    ensures MakeNavState(stack).value.TopEntry() == stack[|stack| - 1]
    ensures MakeNavState(stack).value.Root() == stack[0].node
    ensures MakeNavState(stack).value.Top() == stack[|stack| - 1].node
  {
  }

  /** With one entry, root and top are the same node. */
  lemma SingleEntryRootIsTop(s: NavState)
    requires s.Wellformed() && s.Size() == 1
    ensures s.Root() == s.Top() && s.RootEntry() == s.TopEntry()
  {
  }
}
