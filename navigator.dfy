/** The stack mutation engine (`KmposableStackNavigator`): a private mutable list of entries
    that republishes an immutable snapshot after each change. */
module Navigator {
  import opened Common
  import opened NavState

  /** A navigator call, as NavFlow, scripts and other actors issue it. */
  datatype NavOp =
    | PushOp(entry: Entry)
    | PopOp
    | PopAllOp
    | ReplaceAllOp(entry: Entry)
    | ReplaceTopOp(entry: Entry)
    | PopToOp(target: Entry, inclusive: bool)

  /** `List.indexOf`: the first index holding an entry `equals` to `target`, or -1. */
  function IndexOf(s: seq<Entry>, target: Entry): (i: int)
    ensures -1 <= i < |s|
    ensures i >= 0 ==> s[i].Equals(target)
    ensures i >= 0 ==> forall j :: 0 <= j < i ==> !s[j].Equals(target)
    ensures i == -1 ==> forall j :: 0 <= j < |s| ==> !s[j].Equals(target)
  {
    if |s| == 0 then -1
    else if s[0].Equals(target) then 0
    else
      var k := IndexOf(s[1..], target);
      if k == -1 then -1 else k + 1
  }

  /** A successful navigator call: the stack afterwards and the entries it returns as removed. */
  datatype Change = Change(stack: seq<Entry>, removed: seq<Entry>)

  /** Reference semantics of every navigator call on a non-empty stack. Only an inclusive
      `popTo` whose first equal entry is the root fails, and no call empties the stack. */
  function Apply(s: seq<Entry>, op: NavOp): (r: Try<Change>)
    requires |s| >= 1
    ensures r.Failure? <==> op.PopToOp? && op.inclusive && IndexOf(s, op.target) == 0
    ensures r.Failure? ==> r.error == IllegalState(EmptyStackMessage)
    ensures r.Success? ==> |r.value.stack| >= 1
  {
    match op
    case PushOp(e) => Success(Change(s + [e], []))
    case PopOp =>
      if |s| <= 1 then Success(Change(s, [])) else Success(Change(s[..|s| - 1], [s[|s| - 1]]))
    case PopAllOp =>
      if |s| <= 1 then Success(Change(s, [])) else Success(Change(s[..1], Reversed(s[1..])))
    case ReplaceAllOp(e) => Success(Change([e], Reversed(s)))
    case ReplaceTopOp(e) => Success(Change(s[..|s| - 1] + [e], [s[|s| - 1]]))
    case PopToOp(t, inclusive) =>
      var i := IndexOf(s, t);
      if i == -1 then Success(Change(s, []))
      else
        var stop := if inclusive then i else i + 1;
        if stop >= |s| then Success(Change(s, []))
        else if stop == 0 then Failure(IllegalState(EmptyStackMessage))
        else Success(Change(s[..stop], Reversed(s[stop..])))
  }

  /** A run of navigator calls; the first failing call ends it. */
  function ApplyAll(s: seq<Entry>, ops: seq<NavOp>): Try<seq<Entry>>
    requires |s| >= 1
    decreases ops
  {
    if ops == [] then Success(s)
    else match Apply(s, ops[0])
      case Failure(e) => Failure(e)
      case Success(c) => ApplyAll(c.stack, ops[1..])
  }

  /** The stack after the calls of a run that succeed, up to the first one that fails: the
      last snapshot the navigator publishes during the run. */
  function LastGood(s: seq<Entry>, ops: seq<NavOp>): (t: seq<Entry>)
    requires |s| >= 1
    ensures |t| >= 1
    ensures ApplyAll(s, ops).Success? ==> t == ApplyAll(s, ops).value
    decreases ops
  {
    if ops == [] then s
    else match Apply(s, ops[0])
      case Failure(_) => s
      case Success(c) => LastGood(c.stack, ops[1..])
  }

  class StackNavigator {
    /** the private backing list, root first */
    var stack: seq<Entry>
    /** the last published snapshot (`_state.value`) */
    var state: NavState

    ghost predicate Valid()
      reads this
    {
      |stack| >= 1 && state == NavState(stack)
    }

    constructor (initialEntry: Entry)
      ensures Valid() && stack == [initialEntry]
    {
      stack := [initialEntry];
      state := NavState([initialEntry]);
    }

    method NotifyState()
      modifies this`state
      ensures state == NavState(stack)
    {
      state := NavState(stack);
    }

    method Push(entry: Entry)
      requires Valid()
      modifies this
      ensures Valid() && stack == old(stack) + [entry]
    {
      stack := stack + [entry];
      NotifyState();
    }

    /** Removes the top entry unless it is the root. */
    method Pop() returns (removed: Option<Entry>)
      requires Valid()
      modifies this
      ensures Valid()
      ensures |old(stack)| == 1 ==> removed == None && unchanged(this)
      ensures |old(stack)| > 1 ==>
        removed == Some(old(stack)[|old(stack)| - 1]) && stack == old(stack)[..|old(stack)| - 1]
    {
      if |stack| <= 1 {
        return None;
      }
      var last := stack[|stack| - 1];
      stack := stack[..|stack| - 1];
      NotifyState();
      return Some(last);
    }

    /** Leaves only the root; returns the removed entries top to bottom. */
    method PopAll() returns (removed: seq<Entry>)
      requires Valid()
      modifies this
      ensures Valid()
      ensures stack == old(stack)[..1]
      ensures removed == Reversed(old(stack)[1..])
    {
      if |stack| <= 1 {
        return [];
      }
      removed := Reversed(stack[1..]);
      while |stack| > 1
        invariant 1 <= |stack| <= |old(stack)|
        invariant stack == old(stack)[..|stack|]
      {
        stack := stack[..|stack| - 1];
      }
      NotifyState();
    }

    /** Makes `entry` the only entry; returns every previous entry top to bottom. */
    method ReplaceAll(entry: Entry) returns (removed: seq<Entry>)
      requires Valid()
      modifies this
      ensures Valid() && stack == [entry]
      ensures removed == Reversed(old(stack))
    {
      removed := Reversed(stack);
      stack := [];
      stack := stack + [entry];
      NotifyState();
    }

    /** Swaps the top entry for `entry`; returns the old top. */
    method ReplaceTop(entry: Entry) returns (removed: Option<Entry>)
      requires Valid()
      modifies this
      ensures Valid()
      ensures stack == old(stack)[..|old(stack)| - 1] + [entry]
      ensures removed == Some(old(stack)[|old(stack)| - 1])
    {
      // check(stack.isNotEmpty()) always passes: Valid() keeps the root
      removed := Some(stack[|stack| - 1]);
      stack := stack[..|stack| - 1];
      stack := stack + [entry];
      NotifyState();
    }

    /** Pops down to the first entry `equals` to `target`, and that entry too when `inclusive`.
        Emptying the stack raises; the list is already empty then and nothing is published. */
    method PopTo(target: Entry, inclusive: bool) returns (r: Try<seq<Entry>>)
      requires Valid()
      modifies this
      ensures match Apply(old(stack), PopToOp(target, inclusive))
        case Success(c) => r == Success(c.removed) && stack == c.stack && Valid()
        case Failure(e) => r == Failure(e) && stack == [] && state == old(state)
    {
      var index := IndexOf(stack, target);
      if index == -1 {
        return Success([]);
      }
      var stopIndex := if inclusive then index else index + 1;
      if stopIndex >= |stack| {
        return Success([]);
      }
      var removed: seq<Entry> := [];
      while |stack| > stopIndex
        invariant stopIndex <= |stack| <= |old(stack)|
        invariant stack == old(stack)[..|stack|]
        invariant removed == Reversed(old(stack)[|stack|..])
        invariant state == old(state)
      {
        var n := |stack|;
        assert old(stack)[n - 1..] == [old(stack)[n - 1]] + old(stack)[n..];
        ReversedPrepend(old(stack)[n - 1], old(stack)[n..]);
        removed := removed + [stack[n - 1]];
        stack := stack[..n - 1];
      }
      if |stack| == 0 {
        return Failure(IllegalState(EmptyStackMessage));
      }
      NotifyState();
      return Success(removed);
    }

    /** Runs one navigator call; the result lists the removed entries (`pop`'s and
        `replaceTop`'s single entry as a one-element list). */
    method Perform(op: NavOp) returns (r: Try<seq<Entry>>)
      requires Valid()
      modifies this
      ensures match Apply(old(stack), op)
        case Success(c) => r == Success(c.removed) && stack == c.stack && Valid()
        case Failure(e) => r == Failure(e) && stack == [] && state == old(state)
    {
      match op
      case PushOp(e) =>
        Push(e);
        r := Success([]);
      case PopOp =>
        var removed := Pop();
        r := if removed.Some? then Success([removed.value]) else Success([]);
      case PopAllOp =>
        var removed := PopAll();
        r := Success(removed);
      case ReplaceAllOp(e) =>
        var removed := ReplaceAll(e);
        r := Success(removed);
      case ReplaceTopOp(e) =>
        var removed := ReplaceTop(e);
        r := Success([removed.value]);
      case PopToOp(t, inclusive) =>
        r := PopTo(t, inclusive);
    }
  }

  /** No run of successful navigator calls empties the stack. */
  lemma {:induction false} ApplyAllNeverEmpties(s: seq<Entry>, ops: seq<NavOp>)
    requires |s| >= 1
    requires ApplyAll(s, ops).Success?
    ensures |ApplyAll(s, ops).value| >= 1
    decreases ops
  {
    if ops != [] {
      var c := Apply(s, ops[0]).value;
      ApplyKeepsRoot(s, ops[0]);
      ApplyAllNeverEmpties(c.stack, ops[1..]);
    }
  }

  /** Every successful call leaves at least one entry, and only replaceAll and replaceTop
      touch the root slot. */
  lemma ApplyKeepsRoot(s: seq<Entry>, op: NavOp)
    requires |s| >= 1 && Apply(s, op).Success?
    ensures |Apply(s, op).value.stack| >= 1
    ensures !op.ReplaceAllOp? && !(op.ReplaceTopOp? && |s| == 1) ==> Apply(s, op).value.stack[0] == s[0]
  {
  }

  /** `push` appends on top and keeps every earlier entry. */
  lemma PushKeepsEarlierEntries(s: seq<Entry>, e: Entry)
    requires |s| >= 1
    ensures Apply(s, PushOp(e)) == Success(Change(s + [e], []))
    ensures var t := Apply(s, PushOp(e)).value.stack;
      |t| == |s| + 1 && t[|s|] == e && forall i :: 0 <= i < |s| ==> t[i] == s[i]
  {
  }

  /** `pop` at the root changes nothing; above it, size drops by exactly one and the removed
      entry is the old top. */
  lemma PopRemovesExactlyTop(s: seq<Entry>)
    requires |s| >= 1
    ensures |s| == 1 ==> Apply(s, PopOp) == Success(Change(s, []))
    ensures |s| > 1 ==> var c := Apply(s, PopOp).value;
      |c.stack| == |s| - 1 && c.removed == [s[|s| - 1]] && c.stack + c.removed == s
  {
  }

  /** `replaceTop` keeps the size and changes only the last slot. */
  lemma ReplaceTopChangesOnlyLastSlot(s: seq<Entry>, e: Entry)
    requires |s| >= 1
    ensures var c := Apply(s, ReplaceTopOp(e)).value;
      |c.stack| == |s| && c.stack[|s| - 1] == e && c.removed == [s[|s| - 1]]
      && forall i :: 0 <= i < |s| - 1 ==> c.stack[i] == s[i]
  {
  }

  /** `replaceAll(e)` followed by `popAll()` leaves exactly `[e]` and removes nothing more. */
  lemma ReplaceAllThenPopAll(s: seq<Entry>, e: Entry)
    requires |s| >= 1
    ensures Apply(s, ReplaceAllOp(e)).value.stack == [e]
    ensures Apply([e], PopAllOp) == Success(Change([e], []))
  {
  }

  /** `popTo` with no entry equal to the target is a no-op. */
  lemma PopToAbsentIsNoOp(s: seq<Entry>, t: Entry, inclusive: bool)
    requires |s| >= 1
    requires forall j :: 0 <= j < |s| ==> !s[j].Equals(t)
    ensures Apply(s, PopToOp(t, inclusive)) == Success(Change(s, []))
  {
  }

  /** `popTo(target, inclusive = false)` leaves the first entry equal to the target on top and
      returns the entries above it top to bottom. */
  lemma PopToExclusiveLeavesTargetOnTop(s: seq<Entry>, t: Entry)
    requires |s| >= 1
    requires exists j :: 0 <= j < |s| && s[j].Equals(t)
    ensures var i := IndexOf(s, t);
      Apply(s, PopToOp(t, false)) == Success(Change(s[..i + 1], Reversed(s[i + 1..])))
    ensures var c := Apply(s, PopToOp(t, false)).value;
      c.stack[|c.stack| - 1].Equals(t) && c.stack + Reversed(c.removed) == s
  {
    var i := IndexOf(s, t);
    var c := Change(s[..i + 1], Reversed(s[i + 1..]));
    if i + 1 == |s| {
      assert s[..i + 1] == s;
      assert c == Change(s, []);
    }
    assert Apply(s, PopToOp(t, false)) == Success(c);
    ReversedTwice(s[i + 1..]);
    assert c.stack[|c.stack| - 1] == s[i];
    assert s[..i + 1] + s[i + 1..] == s;
  }

  /** `popTo(target, inclusive = true)` above the root removes the target too, leaving its
      predecessor on top. */
  lemma PopToInclusiveLeavesPredecessor(s: seq<Entry>, t: Entry)
    requires |s| >= 1
    requires IndexOf(s, t) >= 1
    ensures var i := IndexOf(s, t);
      Apply(s, PopToOp(t, true)) == Success(Change(s[..i], Reversed(s[i..])))
      && s[..i][i - 1] == s[i - 1]
    ensures var c := Apply(s, PopToOp(t, true)).value;
      forall j :: 0 <= j < |c.stack| ==> !c.stack[j].Equals(t)
  {
  }

  /** `popTo(root, inclusive = true)` raises "Navigator stack cannot be empty". */
  lemma PopToRootInclusiveFails(s: seq<Entry>)
    requires |s| >= 1
    ensures Apply(s, PopToOp(s[0], true)) == Failure(IllegalState(EmptyStackMessage))
  {
  }

  /** Root R, push A, push B, then `popTo(A, inclusive = false)`: removed `[B]`, stack `[R, A]`;
      then `popTo(A, inclusive = true)`: removed `[A]`, stack `[R]`. */
  lemma PopToScenario(r: Entry, a: Entry, b: Entry)
    requires r.node != a.node && b.node != a.node
    ensures ApplyAll([r], [PushOp(a), PushOp(b)]) == Success([r, a, b])
    ensures Apply([r, a, b], PopToOp(a, false)) == Success(Change([r, a], [b]))
    ensures Apply([r, a], PopToOp(a, true)) == Success(Change([r], [a]))
  {
    assert ApplyAll([r], [PushOp(a), PushOp(b)]) == Success([r, a, b]) by {
      assert [r] + [a] == [r, a] && [r, a] + [b] == [r, a, b];
      assert ApplyAll([r, a, b], []) == Success([r, a, b]);
      assert [PushOp(a), PushOp(b)][1..] == [PushOp(b)] && [PushOp(b)][1..] == [];
      assert ApplyAll([r, a], [PushOp(b)]) == Success([r, a, b]);
    }
    assert Apply([r, a, b], PopToOp(a, false)) == Success(Change([r, a], [b])) by {
      assert IndexOf([r, a, b], a) == 1 by {
        assert [r, a, b][1..] == [a, b];
      }
      assert [r, a, b][..2] == [r, a] && [r, a, b][2..] == [b];
      assert Reversed([b]) == [b];
    }
    assert Apply([r, a], PopToOp(a, true)) == Success(Change([r], [a])) by {
      assert IndexOf([r, a], a) == 1 by {
        assert [r, a][1..] == [a];
      }
      assert [r, a][..1] == [r] && [r, a][1..] == [a];
      assert Reversed([a]) == [a];
    }
  }
}
