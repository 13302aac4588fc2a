/** The exceptions the discovery code tells apart. */
module Failures {

  /** Built-in timeouts, the two page-state errors of the crawler, typed pagination
      failures, and everything else. */
  datatype ErrorKind = TimedOut | RecoveryFailed | SearchState | PaginationFailed | OtherError

  /** `closedText`: the message says that something "has been closed". `networkText`: it holds
      another marker of a lost browser or network. Killed stands for anything that is not
      an ordinary exception, such as an interrupt; no handler catches it. */
  datatype Exn =
    | BrowserClosed(page: nat)
    | Error(kind: ErrorKind, closedText: bool, networkText: bool)
    | Killed
  {
    predicate SaysClosed() { Error? && closedText }
    predicate IsRecoveryBrowserError() { Error? && (closedText || networkText) }
  }

  /** What the page, the network and the callbacks can raise: only the crawler itself reports
      a closed browser together with the page it was on. */
  type Fault = e: Exn | !e.BrowserClosed? witness Killed

  const SEARCH_STATE: Fault := Error(SearchState, false, false)
  const RECOVERY_FAILED: Fault := Error(RecoveryFailed, false, false)
}
