/** The renderer registry: renderers keyed by node class in registration order, an optional
    fallback, and the lookup that picks the renderer for a node. A renderer is an opaque
    value; drawing is not modelled. */
module NodeRenderer {
  import opened Common
  import opened NavState

  datatype Renderer = Renderer(id: nat)

  /** The registry's map as its entries in insertion order (a `LinkedHashMap` copy). */
  type Registry = seq<(TypeTag, Renderer)>

  /** A map holds each key once. */
  predicate UniqueKeys(d: Registry)
  {
    forall i, j :: 0 <= i < j < |d| ==> d[i].0 != d[j].0
  }

  /** The position of key `t`, or -1. */
  function KeyIndex(d: Registry, t: TypeTag): (i: int)
    ensures -1 <= i < |d|
    ensures i >= 0 ==> d[i].0 == t
    ensures i == -1 ==> forall k :: 0 <= k < |d| ==> d[k].0 != t
  {
    if |d| == 0 then -1
    else if d[|d| - 1].0 == t then |d| - 1
    else KeyIndex(d[..|d| - 1], t)
  }

  /** `delegates[t]`. */
  function Lookup(d: Registry, t: TypeTag): (r: Option<Renderer>)
    requires UniqueKeys(d)
    ensures r.Some? <==> exists k :: 0 <= k < |d| && d[k].0 == t
    ensures forall k :: 0 <= k < |d| && d[k].0 == t ==> r == Some(d[k].1)
  {
    var i := KeyIndex(d, t);
    if i >= 0 then Some(d[i].1) else None
  }

  /** The first entry, in insertion order, whose key is not the node's class but which the
      node is an instance of, or -1. */
  function FirstSupertypeEntry(d: Registry, n: Node): (i: int)
    ensures -1 <= i < |d|
    ensures i >= 0 ==>
      d[i].0 != n.cls && IsInstance(n, d[i].0)
      && forall k :: 0 <= k < i ==> !(d[k].0 != n.cls && IsInstance(n, d[k].0))
    ensures i == -1 ==> forall k :: 0 <= k < |d| ==> !(d[k].0 != n.cls && IsInstance(n, d[k].0))
  {
    if |d| == 0 then -1
    else if d[0].0 != n.cls && IsInstance(n, d[0].0) then 0
    else
      var k := FirstSupertypeEntry(d[1..], n);
      if k == -1 then -1 else k + 1
  }

  /** A built `NodeRenderer`. */
  datatype NodeRenderer = NodeRenderer(delegates: Registry, fallback: Option<Renderer>)
  {
    predicate Valid()
    {
      UniqueKeys(delegates)
    }

    /** `findRenderer`: the renderer registered for the node's exact class, else the first
        registered supertype's, else none. */
    function FindRenderer(n: Node): (r: Option<Renderer>)
      requires Valid()
      ensures Lookup(delegates, n.cls).Some? ==> r == Lookup(delegates, n.cls)
      ensures Lookup(delegates, n.cls).None? ==>
        var i := FirstSupertypeEntry(delegates, n);
        (i >= 0 ==> r == Some(delegates[i].1)) && (i == -1 ==> r == None)
    {
      match Lookup(delegates, n.cls)
      case Some(r) => Some(r)
      case None =>
        var i := FirstSupertypeEntry(delegates, n);
        if i >= 0 then Some(delegates[i].1) else None
    }

    /** `canRender`: a fallback or a renderer registered for the node's own class suffices;
        without a fallback, some registered key must be a class the node is an instance of. */
    predicate CanRender(n: Node): (b: bool)
      requires Valid()
      ensures fallback.Some? ==> b
      ensures Lookup(delegates, n.cls).Some? ==> b
      ensures b && fallback.None? ==> exists k :: 0 <= k < |delegates| && IsInstance(n, delegates[k].0)
    {
      FindRenderer(n).Some? || fallback.Some?
    }

    /** The renderer `Render` draws with, or the error it raises. */
    function Render(n: Node): (r: Try<Renderer>)
      requires Valid()
      ensures r.Success? <==> CanRender(n)
      ensures FindRenderer(n).Some? ==> r == Success(FindRenderer(n).value)
      ensures FindRenderer(n).None? && fallback.Some? ==> r == Success(fallback.value)
      ensures r.Failure? ==> r.error == NoRenderer(n.cls)
    {
      match FindRenderer(n)
      case Some(r) => Success(r)
      case None =>
        if fallback.Some? then Success(fallback.value) else Failure(NoRenderer(n.cls))
    }
  }

  /** A node can be rendered exactly when some registered key is a class it is an instance
      of, or a fallback is set. */
  lemma CanRenderIff(nr: NodeRenderer, n: Node)
    requires nr.Valid()
    ensures nr.CanRender(n) <==>
      nr.fallback.Some? || exists k :: 0 <= k < |nr.delegates| && IsInstance(n, nr.delegates[k].0)
  {
    if k :| 0 <= k < |nr.delegates| && IsInstance(n, nr.delegates[k].0) {
      if nr.delegates[k].0 != n.cls {
        assert FirstSupertypeEntry(nr.delegates, n) != -1;
      }
    }
  }

  /** An empty registry without a fallback renders nothing. */
  lemma EmptyRendersNothing(n: Node)
    ensures !NodeRenderer([], None).CanRender(n)
    ensures NodeRenderer([], None).Render(n) == Failure(NoRenderer(n.cls))
  {
  }

  /** `delegates[t] = r` on a `LinkedHashMap`: a present key keeps its place with the new
      value; a new key goes last. */
  function Put(d: Registry, t: TypeTag, r: Renderer): (d': Registry)
  {
    var i := KeyIndex(d, t);
    if i >= 0 then d[i := (t, r)] else d + [(t, r)]
  }

  /** Registering keeps keys unique; afterwards the key maps to the new renderer and every
      other key to what it mapped to before. */
  lemma PutIsMapUpdate(d: Registry, t: TypeTag, r: Renderer, u: TypeTag)
    requires UniqueKeys(d)
    ensures UniqueKeys(Put(d, t, r))
    ensures Lookup(Put(d, t, r), t) == Some(r)
    ensures u != t ==> Lookup(Put(d, t, r), u) == Lookup(d, u)
  {
    var d' := Put(d, t, r);
    var i := KeyIndex(d, t);
    if i == -1 {
      assert d'[|d|].0 == t;
    } else {
      assert d'[i].0 == t;
      if u != t {
        forall k | 0 <= k < |d'| && d'[k].0 == u
          ensures d[k].0 == u
        {
        }
      }
    }
  }

  /** Registering the same class twice leaves one entry, at the first registration's place,
      holding the latest renderer. */
  lemma RegisterTwiceKeepsPlace(d: Registry, t: TypeTag, r1: Renderer, r2: Renderer)
    requires UniqueKeys(d) && KeyIndex(d, t) == -1
    ensures Put(Put(d, t, r1), t, r2) == d + [(t, r2)]
  {
    var d1 := Put(d, t, r1);
    assert d1 == d + [(t, r1)];
    assert KeyIndex(d1, t) == |d|;
  }

  class NodeRendererBuilder {
    var delegates: Registry
    var fallback: Option<Renderer>

    ghost predicate Valid()
      reads this
    {
      UniqueKeys(delegates)
    }

    constructor ()
      ensures Valid() && delegates == [] && fallback == None
    {
      delegates := [];
      fallback := None;
    }

    /** `register<T>`: one `LinkedHashMap` put under the class T. */
    method Register(t: TypeTag, r: Renderer)
      requires Valid()
      modifies this`delegates
      ensures Valid() && delegates == Put(old(delegates), t, r)
    {
      PutIsMapUpdate(delegates, t, r, t);
      delegates := Put(delegates, t, r);
    }

    /** The last `fallback` wins. */
    method Fallback(r: Renderer)
      modifies this`fallback
      ensures fallback == Some(r)
    {
      fallback := Some(r);
    }

    /** `build`: a snapshot of the registry and the fallback. */
    method Build() returns (nr: NodeRenderer)
      requires Valid()
      ensures nr.Valid() && nr.delegates == delegates && nr.fallback == fallback
    {
      nr := NodeRenderer(delegates, fallback);
    }
  }
}
