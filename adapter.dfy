/**
 * SocketAdapter (src/socketadapter.cpp): the base of SocketClient and
 * SocketServer. It binds an adapter to one SocketThread, registers it on
 * start and removes it on stop, forwards the thread's tick to the derived
 * `onProcess`, and translates asio errors met while starting into either a
 * hard failure or a logged warning, depending on `mAllowFailure`.
 *
 * The derived hooks `onStop` and `onProcess` are pure virtual; the base class
 * is modelled with the calls it makes to them recorded as hook events.
 */
module Adapter {
  import opened Errors
  import opened Threading

  /**
   * What `handleAsioError` leaves behind: its return value, the caller's
   * `success` out-parameter, and the error state.
   */
  datatype AsioErrorOutcome = AsioErrorOutcome(handled: bool, success: bool, errors: ErrorState)

  /**
   * `handleAsioError(errorCode, errorState, success)`: no error leaves `success`
   * and the error state alone and returns false; an error returns true, and
   * either fails the error state with `success = false` or, when failure is
   * allowed, only logs with `success = true`.
   */
  function HandleAsioError(error: AsioError, allowFailure: bool, success: bool, errorState: ErrorState): (r: AsioErrorOutcome)
    ensures r.handled <==> error.IsError()
    ensures !error.IsError() ==> r.success == success && r.errors == errorState
    ensures error.IsError() && !allowFailure ==> !r.success && r.errors.messages == errorState.messages + [error.message]
    ensures error.IsError() && allowFailure ==> r.success && r.errors == errorState
  {
    if error.IsError() then
      if !allowFailure then AsioErrorOutcome(true, false, errorState.Fail(error.message))
      else AsioErrorOutcome(true, true, errorState)
    else AsioErrorOutcome(false, success, errorState)
  }

  /** A derived-class hook the base class calls. */
  datatype Hook = OnStopCalled | OnProcessCalled

  class SocketAdapter {
    const id: AdapterId
    /** `mThread`: a required resource pointer, null until the resource system links it. */
    const thread: SocketThread?
    const allowFailure: bool
    var hooks: seq<Hook>

    constructor (id: AdapterId, thread: SocketThread?, allowFailure: bool)
      ensures this.id == id && this.thread == thread && this.allowFailure == allowFailure && hooks == []
    {
      this.id := id;
      this.thread := thread;
      this.allowFailure := allowFailure;
      hooks := [];
    }

    /** `init`: fails with "Thread cannot be nullptr" exactly when no thread is bound. */
    method Init(errorState: ErrorState) returns (ok: bool, errors: ErrorState)
      ensures ok <==> thread != null
      ensures errors == if ok then errorState else errorState.Fail("Thread cannot be nullptr")
    {
      if thread == null {
        return false, errorState.Fail("Thread cannot be nullptr");
      }
      return true, errorState;
    }

    /**
     * `start`: registers with the thread and reports success. As written it
     * does not call `onStart`, so no hook event is recorded.
     */
    method Start(errorState: ErrorState) returns (ok: bool, errors: ErrorState)
      requires thread != null
      modifies thread`adapters
      ensures ok && errors == errorState
      ensures thread.adapters == old(thread.adapters) + [id]
    {
      thread.RegisterAdapter(id);
      return true, errorState;
    }

    /** `stop`: removed from the thread first, then `onStop`. */
    method Stop()
      requires thread != null && id in thread.adapters
      modifies thread`adapters, this`hooks
      ensures thread.adapters == Vectors.EraseFirst(old(thread.adapters), id)
      ensures hooks == old(hooks) + [OnStopCalled]
    {
      thread.RemoveAdapter(id);
      hooks := hooks + [OnStopCalled];
    }

    /** `process`: delegates to `onProcess`. */
    method Process()
      modifies this`hooks
      ensures hooks == old(hooks) + [OnProcessCalled]
    {
      hooks := hooks + [OnProcessCalled];
    }
  }
}
