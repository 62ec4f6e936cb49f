/** `pushForResult` on a navigator: push an entry, wait for whichever comes first (the node's
    first result, or a snapshot without the entry), take the entry off the stack if it is
    still there, and cancel the waiter that lost. The race and everything other actors do to
    the stack meanwhile are inputs. */
module NavigatorExtensions {
  import opened Common
  import opened NavState
  import opened Navigator
  import opened ResultNode

  /** Which waiter completes first. */
  datatype Race<+R> =
    | ResultFirst(result: KmposableResult<R>)  // the node's result flow emits `result`
    | RemovalFirst            // a snapshot no longer holds the pushed entry
    | ResultRaised(error: Error)  // the result flow fails (or ends, so `first()` raises)

  datatype Waiter = ResultWaiter | RemovalWaiter

  /** The waiter that did not complete first. */
  function Loser<R>(winner: Race<R>): Waiter
  {
    if winner.RemovalFirst? then ResultWaiter else RemovalWaiter
  }

  /** What the call returns and the stack it leaves. */
  datatype Outcome<+R> = Outcome(result: Try<KmposableResult<R>>, stack: seq<Entry>)

  function PushForResultMessage(resultType: TypeTag): string
  {
    "pushForResult requires node to implement ResultNode<" + NameOf(resultType) + ">"
  }

  /** The cleanup step: nothing when the entry is gone (by identity), `pop()` when it is on
      top, otherwise `popTo(entry, inclusive = true)`, which locates the entry by `equals`.
      A successful cleanup only takes entries off the top, and never all of them. */
  function Cleanup(s: seq<Entry>, e: Entry): (r: Try<seq<Entry>>)
    requires |s| >= 1
    ensures r.Success? ==> 1 <= |r.value| <= |s| && r.value == s[..|r.value|]
    ensures r.Failure? ==> r.error == IllegalState(EmptyStackMessage)
  {
    if e !in s then Success(s)
    else
      var op := if s[|s| - 1] == e then PopOp else PopToOp(e, true);
      match Apply(s, op)
      case Success(c) => Success(c.stack)
      case Failure(err) => Failure(err)
  }

  /** The whole call on stack `s`, given the calls others make before the race is decided
      (they complete normally) and the winner (removal can only win once the entry is gone). */
  function PushForResultSpec<R>(s: seq<Entry>, entry: Entry, resultType: TypeTag,
                                external: seq<NavOp>, winner: Race<R>): Outcome<R>
    requires |s| >= 1
    requires ApplyAll(s + [entry], external).Success?
    requires winner.RemovalFirst? ==> entry !in ApplyAll(s + [entry], external).value
  {
    if !entry.node.resultNode then Outcome(Failure(IllegalArgument(PushForResultMessage(resultType))), s)
    else
      var mid := ApplyAll(s + [entry], external).value;
      ApplyAllNeverEmpties(s + [entry], external);
      match winner
      case ResultRaised(e) => Outcome(Failure(e), mid)
      case ResultFirst(res) => Settle(res, mid, entry)
      case RemovalFirst => Settle(Canceled, mid, entry)
  }

  /** The decided outcome after cleanup; a failing cleanup raises instead, leaving the stack
      emptied. */
  function Settle<R>(result: KmposableResult<R>, mid: seq<Entry>, entry: Entry): Outcome<R>
    requires |mid| >= 1
  {
    match Cleanup(mid, entry)
    case Success(t) => Outcome(Success(result), t)
    case Failure(e) => Outcome(Failure(e), [])
  }

  /** A node that is not a ResultNode is refused before anything is pushed. */
  lemma NonResultNodeRefused<R>(s: seq<Entry>, entry: Entry, resultType: TypeTag,
                                external: seq<NavOp>, winner: Race<R>)
    requires |s| >= 1 && ApplyAll(s + [entry], external).Success?
    requires winner.RemovalFirst? ==> entry !in ApplyAll(s + [entry], external).value
    requires !entry.node.resultNode
    ensures PushForResultSpec(s, entry, resultType, external, winner)
         == Outcome(Failure(IllegalArgument(PushForResultMessage(resultType))), s)
  {
  }

  /** The outcome is the winner's: the node's first result as emitted (`Ok` or `Canceled`),
      `Canceled` when the entry left first, the failure when the result flow raised; only the
      cleanup's `popTo` can replace it, with "Navigator stack cannot be empty". */
  lemma OutcomeIsTheWinner<R>(s: seq<Entry>, entry: Entry, resultType: TypeTag,
                              external: seq<NavOp>, winner: Race<R>)
    requires |s| >= 1 && ApplyAll(s + [entry], external).Success?
    requires winner.RemovalFirst? ==> entry !in ApplyAll(s + [entry], external).value
    requires entry.node.resultNode
    ensures var r := PushForResultSpec(s, entry, resultType, external, winner).result;
      match winner
      case ResultFirst(res) => r == Success(res) || r == Failure(IllegalState(EmptyStackMessage))
      case RemovalFirst => r == Success(Canceled)
      case ResultRaised(e) => r == Failure(e)
  {
  }

  /** The waiter the call cancels is the one that did not decide its outcome: the result
      waiter exactly when removal won and the call returns `Canceled`, the removal waiter
      when the result flow emitted or raised first. */
  lemma LoserDidNotDecide<R>(s: seq<Entry>, entry: Entry, resultType: TypeTag,
                             external: seq<NavOp>, winner: Race<R>)
    requires |s| >= 1 && ApplyAll(s + [entry], external).Success?
    requires winner.RemovalFirst? ==> entry !in ApplyAll(s + [entry], external).value
    requires entry.node.resultNode
    ensures Loser(winner) == ResultWaiter <==> winner.RemovalFirst?
    ensures Loser(winner) == ResultWaiter ==>
      PushForResultSpec(s, entry, resultType, external, winner).result == Success(Canceled)
    ensures Loser(winner) == RemovalWaiter ==>
      var r := PushForResultSpec(s, entry, resultType, external, winner).result;
      (winner.ResultRaised? && r == Failure(winner.error))
      || (winner.ResultFirst? && (r == Success(winner.result) || r == Failure(IllegalState(EmptyStackMessage))))
  {
    OutcomeIsTheWinner(s, entry, resultType, external, winner);
  }

  /** Cleanup fails exactly when the entry is present, not on top, and the first entry equal
      to it (same node and tag) is the root: `popTo` would then empty the stack. */
  lemma CleanupFailsOnlyAtRoot(s: seq<Entry>, e: Entry)
    requires |s| >= 1
    ensures Cleanup(s, e).Failure? <==> e in s && s[|s| - 1] != e && IndexOf(s, e) == 0
  {
    if e in s && s[|s| - 1] != e {
      var i :| 0 <= i < |s| && s[i] == e;
      assert s[i].Equals(e);
    }
  }

  /** Once cleanup succeeds, an entry that appeared on the stack at most once is gone. */
  lemma {:induction false} CleanupRemovesEntry(s: seq<Entry>, e: Entry)
    requires |s| >= 1
    requires forall i, j :: 0 <= i < j < |s| && s[i] == e ==> s[j] != e
    requires Cleanup(s, e).Success?
    ensures e !in Cleanup(s, e).value || s == [e]
  {
    if e in s {
      var i :| 0 <= i < |s| && s[i] == e;
      if s[|s| - 1] == e {
        assert i == |s| - 1;
        if |s| > 1 {
          var t := s[..|s| - 1];
          assert forall k :: 0 <= k < |t| ==> t[k] != e;
        }
      } else {
        assert s[i].Equals(e);
        var j := IndexOf(s, e);
        assert j <= i;
        var t := s[..j];
        assert forall k :: 0 <= k < |t| ==> t[k] != e;
      }
    }
  }

  /** On return the pushed entry is off the stack, provided the race was decided, the entry
      sits on the stack at most once, is not the only entry, and cleanup does not fail (an
      entry equal to it as the root, below it, makes the cleanup's `popTo` raise). */
  lemma EntryGoneOnReturn<R>(s: seq<Entry>, entry: Entry, resultType: TypeTag,
                             external: seq<NavOp>, winner: Race<R>)
    requires |s| >= 1 && ApplyAll(s + [entry], external).Success?
    requires winner.RemovalFirst? ==> entry !in ApplyAll(s + [entry], external).value
    requires entry.node.resultNode && !winner.ResultRaised?
    requires var mid := ApplyAll(s + [entry], external).value;
      (forall i, j :: 0 <= i < j < |mid| && mid[i] == entry ==> mid[j] != entry)
      && mid != [entry]
      && !(entry in mid && mid[|mid| - 1] != entry && IndexOf(mid, entry) == 0)
    ensures var o := PushForResultSpec(s, entry, resultType, external, winner);
      o.result.Success? && entry !in o.stack
  {
    var mid := ApplyAll(s + [entry], external).value;
    ApplyAllNeverEmpties(s + [entry], external);
    CleanupFailsOnlyAtRoot(mid, entry);
    CleanupRemovesEntry(mid, entry);
  }

  /** With the node's result first and its entry still on top of a one-entry stack, that
      result (`Ok` or the node's own `Canceled`) is returned and the stack is back to the root
      alone. */
  lemma ResultReturnsToRoot<R>(root: Entry, entry: Entry, resultType: TypeTag,
                               res: KmposableResult<R>)
    requires entry.node.resultNode && entry != root
    ensures PushForResultSpec([root], entry, resultType, [], ResultFirst(res))
         == Outcome(Success(res), [root])
  {
    assert [root] + [entry] == [root, entry];
    assert [root, entry][..1] == [root];
  }

  /** An external `pop()` before any result: `Canceled`, and the stack is the root alone. */
  lemma ExternalPopCancels<R>(root: Entry, entry: Entry, resultType: TypeTag)
    requires entry.node.resultNode && entry != root
    ensures ApplyAll([root] + [entry], [PopOp]) == Success([root])
    ensures PushForResultSpec<R>([root], entry, resultType, [PopOp], RemovalFirst)
         == Outcome(Success(Canceled), [root])
  {
    assert [root] + [entry] == [root, entry];
    assert [root, entry][..1] == [root];
    assert ApplyAll([root], []) == Success([root]);
    assert [PopOp][1..] == [];
  }

  /** `pushForResult`: the navigator is changed exactly as the specification says, and the
      losing waiter, when still active, is cancelled. */
  method PushForResult<R>(nav: StackNavigator, entry: Entry, resultType: TypeTag,
                          external: seq<NavOp>, winner: Race<R>, loserActive: bool)
    returns (r: Try<KmposableResult<R>>, cancelled: Option<Waiter>)
    requires nav.Valid()
    requires ApplyAll(nav.stack + [entry], external).Success?
    requires winner.RemovalFirst? ==> entry !in ApplyAll(nav.stack + [entry], external).value
    modifies nav
    ensures var o := PushForResultSpec(old(nav.stack), entry, resultType, external, winner);
      r == o.result && nav.stack == o.stack
    ensures nav.stack != [] ==> nav.Valid()
    ensures nav.stack == [] ==> nav.state == NavState(ApplyAll(old(nav.stack) + [entry], external).value)
    ensures cancelled == if entry.node.resultNode && loserActive then Some(Loser(winner)) else None
  {
    if !entry.node.resultNode {
      return Failure(IllegalArgument(PushForResultMessage(resultType))), None;
    }
    cancelled := if loserActive then Some(Loser(winner)) else None;
    nav.Push(entry);
    // calls other actors make while both waiters are pending
    var i := 0;
    while i < |external|
      invariant 0 <= i <= |external|
      invariant nav.Valid()
      invariant ApplyAll(old(nav.stack) + [entry], external) == ApplyAll(nav.stack, external[i..])
    {
      assert external[i..][1..] == external[i + 1..];
      var _ := nav.Perform(external[i]);
      i := i + 1;
    }
    assert external[i..] == [];
    var outcome: KmposableResult<R>;
    match winner {
      case ResultRaised(e) =>
        return Failure(e), cancelled;
      case ResultFirst(res) =>
        outcome := res;
      case RemovalFirst =>
        outcome := Canceled;
    }
    var cleaned := RemoveEntry(nav, entry);
    if cleaned.Failure? {
      return Failure(cleaned.error), cancelled;
    }
    r := Success(outcome);
  }

  /** The cleanup after the race: `pop()` when the entry is on top, `popTo(entry, inclusive = true)`
      when it is deeper, nothing when it is gone. */
  method RemoveEntry(nav: StackNavigator, entry: Entry) returns (r: Try<()>)
    requires nav.Valid()
    modifies nav
    ensures match Cleanup(old(nav.stack), entry)
      case Success(t) => r == Success(()) && nav.stack == t && nav.Valid()
      case Failure(e) => r == Failure(e) && nav.stack == [] && nav.state == old(nav.state)
  {
    var current := nav.state.stack;
    if entry in current {
      if current[|current| - 1] == entry {
        var _ := nav.Pop();
      } else {
        var popped := nav.PopTo(entry, true);
        if popped.Failure? {
          return Failure(popped.error);
        }
      }
    }
    r := Success(());
  }
}
