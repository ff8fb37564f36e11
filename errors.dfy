/**
 * The two error carriers the library passes around: `asio::error_code`, which
 * is either empty or holds a message, and NAP's `utility::ErrorState`, the
 * accumulator that `start`/`init` report configuration failures into.
 * `utility::ErrorState` itself lives in NAP core, which is not part of this
 * model; only the messages it collects are kept.
 */
module Errors {

  /** An `asio::error_code`: it converts to `true` exactly when it holds an error. */
  datatype AsioError = NoError | Failed(message: string) {
    predicate IsError() { Failed? }
  }

  /** The messages recorded by `errorState.fail(...)` / a failed `errorState.check(...)`. */
  datatype ErrorState = ErrorState(messages: seq<string>) {
    function Fail(message: string): (r: ErrorState)
      ensures r.messages == messages + [message]
    {
      ErrorState(messages + [message])
    }
  }
}
