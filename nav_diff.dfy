/** Structural diff between two snapshots (`diffNavState`): the longest common prefix by
    identity, then the popped entries top to bottom and the pushed entries in stack order. */
module NavDiff {
  import opened Common
  import opened NavState

  datatype NavDiff = NavDiff(
    previous: Option<NavState>,
    current: NavState,
    popped: seq<Entry>,  // removed from the top, in pop order (top to bottom)
    pushed: seq<Entry>   // added to the top, in push order (bottom to top)
  )
  {
    predicate IsNoOp()
    {
      popped == [] && pushed == []
    }
  }

  /** Length of the longest common prefix of `a` and `b`, entries compared by identity. */
  function CommonPrefixLength(a: seq<Entry>, b: seq<Entry>): (k: nat)
    ensures k <= |a| && k <= |b|
    ensures a[..k] == b[..k]
    ensures k < |a| && k < |b| ==> a[k] != b[k]
  {
    if |a| == 0 || |b| == 0 || a[0] != b[0] then 0
    else
      var k := CommonPrefixLength(a[1..], b[1..]);
      assert a[..k + 1] == [a[0]] + a[1..][..k];
      assert b[..k + 1] == [b[0]] + b[1..][..k];
      k + 1
  }

  /** The diff `diffNavState` computes: the pushed entries are the top of the new stack, the
      popped ones (reversed) the top of the old, and both leave equally many entries below. */
  function Diff(previous: Option<NavState>, current: NavState): (d: NavDiff)
    ensures d.previous == previous && d.current == current
    ensures |d.pushed| <= |current.stack| && d.pushed == current.stack[|current.stack| - |d.pushed|..]
    ensures previous.None? ==> d.popped == [] && d.pushed == current.stack
    ensures previous.Some? ==>
      |d.popped| <= |previous.value.stack|
      && |previous.value.stack| - |d.popped| == |current.stack| - |d.pushed|
  {
    match previous
    case None => NavDiff(None, current, [], current.stack)
    case Some(p) =>
      var k := CommonPrefixLength(p.stack, current.stack);
      NavDiff(previous, current, Reversed(p.stack[k..]), current.stack[k..])
  }

  /** `diffNavState`: counts the shared prefix with a loop, then slices both stacks. */
  method DiffNavState(previous: Option<NavState>, current: NavState) returns (d: NavDiff)
    ensures d == Diff(previous, current)
  {
    if previous.None? {
      return NavDiff(None, current, [], current.stack);
    }
    var prevStack := previous.value.stack;
    var currStack := current.stack;
    var minSize := if |prevStack| < |currStack| then |prevStack| else |currStack|;
    var prefixLength := 0;
    while prefixLength < minSize && prevStack[prefixLength] == currStack[prefixLength]
      invariant prefixLength <= minSize
      invariant prefixLength <= CommonPrefixLength(prevStack, currStack)
    {
      prefixLength := prefixLength + 1;
    }
    d := NavDiff(previous, current, Reversed(prevStack[prefixLength..]), currStack[prefixLength..]);
  }

  /** Both stacks are the shared prefix followed by their own remainders. */
  lemma SplitAtCommonPrefix(a: seq<Entry>, b: seq<Entry>)
    ensures var k := CommonPrefixLength(a, b);
      a == b[..k] + a[k..] && b == b[..k] + b[k..]
  {
    var k := CommonPrefixLength(a, b);
    assert a[..k] == b[..k];
    assert a == a[..k] + a[k..];
    assert b == b[..k] + b[k..];
  }

  /** Round trip: previous = prefix ++ reverse(popped) and current = prefix ++ pushed, where the
      prefix is the longest shared one (the two remainders differ in their first entry); the
      diff carries its inputs unchanged. */
  lemma DiffRoundTrip(p: NavState, c: NavState)
    ensures var d := Diff(Some(p), c);
      d.previous == Some(p) && d.current == c
      && |d.pushed| <= |c.stack|
      && var prefix := c.stack[..|c.stack| - |d.pushed|];
      p.stack == prefix + Reversed(d.popped)
      && c.stack == prefix + d.pushed
      && (d.popped != [] && d.pushed != [] ==> d.popped[|d.popped| - 1] != d.pushed[0])
  {
    var a, b := p.stack, c.stack;
    var k := CommonPrefixLength(a, b);
    var d := Diff(Some(p), c);
    assert d.popped == Reversed(a[k..]) && d.pushed == b[k..];
    ReversedTwice(a[k..]);
    SplitAtCommonPrefix(a, b);
    assert b[..|b| - |d.pushed|] == b[..k];
    assert d.popped != [] && d.pushed != [] ==> d.popped[|d.popped| - 1] == a[k] && d.pushed[0] == b[k];
  }

  /** Without a previous snapshot nothing is popped and the whole stack is pushed. */
  lemma DiffWithoutPrevious(c: NavState)
    ensures Diff(None, c).popped == [] && Diff(None, c).pushed == c.stack
  {
  }

  /** The diff is a no-op exactly when both stacks hold the same entries (by identity). */
  lemma DiffNoOpIffSameStack(p: NavState, c: NavState)
    ensures Diff(Some(p), c).IsNoOp() <==> p.stack == c.stack
  {
    var k := CommonPrefixLength(p.stack, c.stack);
    if Diff(Some(p), c).IsNoOp() {
      assert |Reversed(p.stack[k..])| == 0;
      assert p.stack == p.stack[..k] && c.stack == c.stack[..k];
    }
    if p.stack == c.stack {
      assert k == |p.stack|;
    }
  }

  /** Replacing [a, b] by [c] pops [b, a] and pushes [c]. */
  lemma DiffReplaceAll(a: Entry, b: Entry, c: Entry)
    requires a != c
    ensures Diff(Some(NavState([a, b])), NavState([c])).popped == [b, a]
    ensures Diff(Some(NavState([a, b])), NavState([c])).pushed == [c]
  {
    assert CommonPrefixLength([a, b], [c]) == 0;
    assert [a, b][0..] == [a, b] && [c][0..] == [c];
    var r := Reversed([a, b]);
    assert r[0] == b && r[1] == a;
    assert r == [b, a];
  }
}
