/** The two-variant outcome of a result-producing node (`KmposableResult`) and the default
    auto-close decision of an overlay that produces one. */
module ResultNode {

  datatype KmposableResult<+R> = Ok(value: R) | Canceled

  /** `AutoCloseOverlay.shouldAutoClose`'s default: close on a value and on cancellation alike. */
  predicate DefaultShouldAutoClose<R>(result: KmposableResult<R>): (close: bool)
    ensures close
  {
    match result
    case Ok(_) => true
    case Canceled => true
  }
}
