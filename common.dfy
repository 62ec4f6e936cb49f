/** Shared value types of the kmposable model: optional values, the outcome of a call that may
    raise, the errors the library raises, and the sequence reversal used by the navigator. */
module Common {

  datatype Option<+T> = None | Some(value: T)

  /** A Kotlin type (a `KClass`), identified by an opaque id; `simpleName` is absent for
      anonymous classes. */
  datatype TypeTag = TypeTag(id: nat, simpleName: Option<string>)

  /** `KClass.simpleName` as string interpolation prints it. */
  function NameOf(t: TypeTag): string
  {
    match t.simpleName
    case Some(n) => n
    case None => "null"
  }

  /** The exceptions the core raises. */
  datatype Error =
    | IllegalState(message: string)
    | IllegalArgument(message: string)
    | NoRenderer(nodeClass: TypeTag)
    /** a CancellationException raised by the core itself */
    | Cancellation(message: string)
    /** cancellation of a suspended coroutine from outside (its job or scope is cancelled) */
    | JobCancelled
    /** any other exception thrown by caller-supplied code, identified by an opaque id */
    | Thrown(id: nat)

  /** The outcome of a call that either returns a value or raises. */
  datatype Try<+T> = Success(value: T) | Failure(error: Error)

  const NotStartedMessage := "NavFlow must be started via start() before use."
  const EmptyStackMessage := "Navigator stack cannot be empty"
  const EmptyNavStateMessage := "NavState.stack must not be empty"
  const ChannelClosedMessage := "NavFlowScriptScope outputs channel closed"

  /** The message of the IllegalStateException (`error(...)`) a typed access raises when it
      finds another node type on top. */
  function TypeMismatchMessage(expected: TypeTag, actual: TypeTag): string
  {
    "Expected top node of type " + NameOf(expected) + ", but was " + NameOf(actual)
  }

  /** `e is CancellationException`. */
  predicate IsCancellation(e: Error)
  {
    e.Cancellation? || e.JobCancelled?
  }

  /** `list.asReversed()`. */
  function Reversed<T>(s: seq<T>): (r: seq<T>)
    ensures |r| == |s|
    ensures forall i :: 0 <= i < |s| ==> r[i] == s[|s| - 1 - i]
  {
    seq(|s|, i requires 0 <= i < |s| => s[|s| - 1 - i])
  }

  lemma ConcatAssoc<T>(a: seq<T>, b: seq<T>, c: seq<T>)
    ensures a + b + c == a + (b + c)
  {
  }

  lemma ReversedTwice<T>(s: seq<T>)
    ensures Reversed(Reversed(s)) == s
  {
  }

  lemma ReversedPrepend<T>(x: T, s: seq<T>)
    ensures Reversed([x] + s) == Reversed(s) + [x]
  {
    var l, r := Reversed([x] + s), Reversed(s) + [x];
    assert |l| == |r|;
    forall i | 0 <= i < |l| ensures l[i] == r[i] {
      if i < |s| {
        assert r[i] == Reversed(s)[i];
      }
    }
  }
}
