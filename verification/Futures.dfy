/** Write-once cells: the asyncio futures the bridge's coroutines wait on.  A cell is settled at
    most once, with a value, with the disconnect exception, or by cancellation. */
module Futures {

  /** The reason a `DeviceDisconnected` carries. */
  datatype Reason = DeviceGone | OperatorRevoked

  datatype Cell<+T> = Unset | Value(value: T) | Failure(reason: Reason) | Cancelled {
    /** `future.done()` */
    predicate Done() { !Unset? }

    /** `if not future.done(): future.cancel()` */
    function Cancel(): Cell<T> {
      if Done() then this else Cancelled
    }
  }

  /** A settled cell never changes again. */
  predicate WriteOnce<T(==)>(before: Cell<T>, after: Cell<T>) {
    before.Done() ==> after == before
  }
}
