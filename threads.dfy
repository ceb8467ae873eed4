/**
 * Running a blocking function off the main thread and handing its outcome
 * to listeners (app/threads.py): `WorkerFuture`, a cell that is given a
 * result or an error and calls the callbacks registered for it, and
 * `Worker`, whose run emits the function's outcome to the futures it made.
 *
 * Callbacks are opaque: each has an identity and either returns or raises.
 * What a future does to them is recorded as a log of calls, so the order
 * of the calls and how often each callback runs can be stated.
 */
module Threads {
  import opened Wrappers

  /** An exception object, as far as the model needs one. */
  datatype Exception = Exception(typeName: string, message: string)

  /** `WorkerError`: what a worker's function raised, with its formatted traceback. */
  datatype WorkerError = WorkerError(traceback: string, value: Exception)

  /** A registered callback: an opaque identity, and whether calling it raises. */
  datatype Callback = Callback(id: nat, raises: bool)

  /** One call of a callback made by a future, with the value it was passed. */
  datatype Invocation<R> =
    | ResultCall(callback: Callback, result: R)
    | ErrorCall(callback: Callback, error: WorkerError)

  /** Calling each callback of `callbacks` in turn with the result `value`. */
  function ResultCalls<R>(callbacks: seq<Callback>, value: R): seq<Invocation<R>>
  {
    if callbacks == [] then []
    else ResultCalls(callbacks[..|callbacks| - 1], value) + [ResultCall(callbacks[|callbacks| - 1], value)]
  }

  /** Calling each callback of `callbacks` in turn with the error `error`. */
  function ErrorCalls<R>(callbacks: seq<Callback>, error: WorkerError): seq<Invocation<R>>
  {
    if callbacks == [] then []
    else ErrorCalls(callbacks[..|callbacks| - 1], error) + [ErrorCall(callbacks[|callbacks| - 1], error)]
  }

  /** The callbacks a log called with a result, in the order of the calls. */
  function ResultCallbacksOf<R>(calls: seq<Invocation<R>>): seq<Callback>
  {
    if calls == [] then []
    else
      var last := calls[|calls| - 1];
      ResultCallbacksOf(calls[..|calls| - 1]) + (if last.ResultCall? then [last.callback] else [])
  }

  /** The callbacks a log called with an error, in the order of the calls. */
  function ErrorCallbacksOf<R>(calls: seq<Invocation<R>>): seq<Callback>
  {
    if calls == [] then []
    else
      var last := calls[|calls| - 1];
      ErrorCallbacksOf(calls[..|calls| - 1]) + (if last.ErrorCall? then [last.callback] else [])
  }

  /** The callbacks of `callbacks` whose call raises, in order: what gets logged. */
  function Raising(callbacks: seq<Callback>): seq<Callback>
  {
    if callbacks == [] then []
    else
      var last := callbacks[|callbacks| - 1];
      Raising(callbacks[..|callbacks| - 1]) + (if last.raises then [last] else [])
  }

  /** Dropping the element just appended gives the sequence back: the step every log function unfolds. */
  lemma DropLast<T>(s: seq<T>, x: T)
    ensures (s + [x])[..|s|] == s
  {
  }

  /**
   * Draining a pending list with a result calls exactly those callbacks, in
   * registration order, and no error callback.
   */
  lemma {:induction false} DrainResultCallbacks<R>(calls: seq<Invocation<R>>, pending: seq<Callback>, value: R)
    ensures ResultCallbacksOf(calls + ResultCalls(pending, value)) == ResultCallbacksOf(calls) + pending
    ensures ErrorCallbacksOf(calls + ResultCalls(pending, value)) == ErrorCallbacksOf(calls)
  {
    if pending == [] {
      assert calls + ResultCalls(pending, value) == calls;
    } else {
      var init := pending[..|pending| - 1];
      var last := pending[|pending| - 1];
      var call: Invocation<R> := ResultCall(last, value);
      var front := calls + ResultCalls(init, value);
      assert calls + ResultCalls(pending, value) == front + [call] by {
        assert pending[..|pending| - 1] == init;
      }
      calc {
        ResultCallbacksOf(calls + ResultCalls(pending, value));
        == { DropLast(front, call); }
        ResultCallbacksOf(front) + [last];
        == { DrainResultCallbacks(calls, init, value); }
        ResultCallbacksOf(calls) + init + [last];
        == { assert init + [last] == pending; }
        ResultCallbacksOf(calls) + pending;
      }
      calc {
        ErrorCallbacksOf(calls + ResultCalls(pending, value));
        == { DropLast(front, call); }
        ErrorCallbacksOf(front);
        == { DrainResultCallbacks(calls, init, value); }
        ErrorCallbacksOf(calls);
      }
    }
  }

  /**
   * Draining a pending list with an error calls exactly those callbacks, in
   * registration order, and no result callback.
   */
  lemma {:induction false} DrainErrorCallbacks<R>(calls: seq<Invocation<R>>, pending: seq<Callback>, error: WorkerError)
    ensures ErrorCallbacksOf(calls + ErrorCalls(pending, error)) == ErrorCallbacksOf(calls) + pending
    ensures ResultCallbacksOf(calls + ErrorCalls(pending, error)) == ResultCallbacksOf(calls)
  {
    if pending == [] {
      assert calls + ErrorCalls(pending, error) == calls;
    } else {
      var init := pending[..|pending| - 1];
      var last := pending[|pending| - 1];
      var call: Invocation<R> := ErrorCall(last, error);
      var front := calls + ErrorCalls(init, error);
      assert calls + ErrorCalls(pending, error) == front + [call] by {
        assert pending[..|pending| - 1] == init;
      }
      calc {
        ErrorCallbacksOf(calls + ErrorCalls(pending, error));
        == { DropLast(front, call); }
        ErrorCallbacksOf(front) + [last];
        == { DrainErrorCallbacks(calls, init, error); }
        ErrorCallbacksOf(calls) + init + [last];
        == { assert init + [last] == pending; }
        ErrorCallbacksOf(calls) + pending;
      }
      calc {
        ResultCallbacksOf(calls + ErrorCalls(pending, error));
        == { DropLast(front, call); }
        ResultCallbacksOf(front);
        == { DrainErrorCallbacks(calls, init, error); }
        ResultCallbacksOf(calls);
      }
    }
  }

  /**
   * The loop of `__invoke_result_callbacks`: call each callback of `pending`
   * with `value`, front first; a callback that raises has its exception
   * logged and the loop goes on with the next one.
   */
  method CallResultCallbacks<R>(pending: seq<Callback>, value: R) returns (made: seq<Invocation<R>>, failed: seq<Callback>)
    ensures made == ResultCalls(pending, value)
    ensures failed == Raising(pending)
  {
    var rest := pending;
    ghost var done: seq<Callback> := [];
    made, failed := [], [];
    while rest != []
      invariant pending == done + rest
      invariant made == ResultCalls(done, value)
      invariant failed == Raising(done)
      decreases |rest|
    {
      var callback := rest[0];
      DropLast(done, callback);
      assert (done + [callback]) + rest[1..] == done + rest;
      rest := rest[1..];
      made := made + [ResultCall(callback, value)];
      if callback.raises {
        failed := failed + [callback];
      }
      done := done + [callback];
    }
    assert done + rest == done;
  }

  /**
   * The loop of `__invoke_error_callbacks`: call each callback of `pending`
   * with `error`, front first; a callback that raises has its exception
   * logged and the loop goes on with the next one.
   */
  method CallErrorCallbacks<R>(pending: seq<Callback>, error: WorkerError) returns (made: seq<Invocation<R>>, failed: seq<Callback>)
    ensures made == ErrorCalls(pending, error)
    ensures failed == Raising(pending)
  {
    var rest := pending;
    ghost var done: seq<Callback> := [];
    made, failed := [], [];
    while rest != []
      invariant pending == done + rest
      invariant made == ErrorCalls(done, error)
      invariant failed == Raising(done)
      decreases |rest|
    {
      var callback := rest[0];
      DropLast(done, callback);
      assert (done + [callback]) + rest[1..] == done + rest;
      rest := rest[1..];
      made := made + [ErrorCall(callback, error)];
      if callback.raises {
        failed := failed + [callback];
      }
      done := done + [callback];
    }
    assert done + rest == done;
  }

  /** What can be observed of a future: both sides and the calls made so far. */
  datatype FutureState<R> = FutureState(
    hasResult: bool, result: Option<R>, error: Option<WorkerError>,
    resultCallbacks: seq<Callback>, errorCallbacks: seq<Callback>, calls: seq<Invocation<R>>)

  /**
   * A future went from `before` to `after` by receiving `signal`: the side
   * the signal is for is set to its value with nothing left pending, every
   * callback that was pending on that side was called once with it, in
   * order, and the other side is as it was.
   */
  ghost predicate Received<R>(before: FutureState<R>, after: FutureState<R>, signal: Signal<R>)
  {
    match signal
    case ResultSignal(v) =>
      && after.hasResult && after.result == Some(v) && after.resultCallbacks == []
      && after.calls == before.calls + ResultCalls(before.resultCallbacks, v)
      && after.error == before.error && after.errorCallbacks == before.errorCallbacks
    case ErrorSignal(e) =>
      && after.error == Some(e) && after.errorCallbacks == []
      && after.calls == before.calls + ErrorCalls(before.errorCallbacks, e)
      && after.hasResult == before.hasResult && after.result == before.result
      && after.resultCallbacks == before.resultCallbacks
  }

  /**
   * `WorkerFuture`. Its result side and its error side are independent: each
   * has an "is set" state and a list of pending callbacks that is emptied,
   * front first, whenever that side is set or a callback is added to a set
   * side. Setting a side again overwrites its value and calls only what is
   * pending, which by then is nothing.
   */
  class WorkerFuture<R> {
    var error: Option<WorkerError>
    var errorCallbacks: seq<Callback>
    var hasResult: bool
    var result: Option<R>
    var resultCallbacks: seq<Callback>
    /** Every callback call made so far, in order. */
    var calls: seq<Invocation<R>>
    /** The callbacks whose exception was caught and logged, in order. */
    var logged: seq<Callback>
    /** Every registration of a result callback, in order. */
    ghost var resultRegistered: seq<Callback>
    /** Every registration of an error callback, in order. */
    ghost var errorRegistered: seq<Callback>

    /**
     * The bookkeeping every state keeps: each registration has either been
     * called once, in registration order, or is still pending, and a side
     * that was never set has called nothing.
     */
    ghost predicate Registry()
      reads this
    {
      && hasResult == result.Some?
      && ResultCallbacksOf(calls) + resultCallbacks == resultRegistered
      && ErrorCallbacksOf(calls) + errorCallbacks == errorRegistered
      && (!hasResult ==> ResultCallbacksOf(calls) == [])
      && (error.None? ==> ErrorCallbacksOf(calls) == [])
    }

    /** Between calls, a side that is set has nothing pending. */
    ghost predicate Valid()
      reads this
    {
      && Registry()
      && (hasResult ==> resultCallbacks == [])
      && (error.Some? ==> errorCallbacks == [])
    }

    /** The future's observable state. */
    function State(): FutureState<R>
      reads this
    {
      FutureState(hasResult, result, error, resultCallbacks, errorCallbacks, calls)
    }

    constructor ()
      ensures Valid()
      ensures error.None? && !hasResult && errorCallbacks == [] && resultCallbacks == []
      ensures calls == [] && logged == [] && resultRegistered == [] && errorRegistered == []
    {
      error := None;
      errorCallbacks := [];
      hasResult := false;
      result := None;
      resultCallbacks := [];
      calls := [];
      logged := [];
      resultRegistered := [];
      errorRegistered := [];
    }

    /**
     * `add_error_callback`: append the callback; if an error is set, call
     * the pending error callbacks, which is the new one alone.
     */
    method AddErrorCallback(callback: Callback)
      requires Valid()
      modifies this
      ensures Valid()
      ensures errorRegistered == old(errorRegistered) + [callback]
      ensures resultRegistered == old(resultRegistered)
      ensures error == old(error) && hasResult == old(hasResult) && result == old(result)
      ensures resultCallbacks == old(resultCallbacks)
      ensures old(error).Some? ==>
        && errorCallbacks == []
        && calls == old(calls) + [ErrorCall(callback, old(error).value)]
        && logged == old(logged) + Raising([callback])
      ensures old(error).None? ==>
        && errorCallbacks == old(errorCallbacks) + [callback]
        && calls == old(calls) && logged == old(logged)
    {
      errorCallbacks := errorCallbacks + [callback];
      errorRegistered := errorRegistered + [callback];
      if error.Some? {
        assert ErrorCalls<R>([callback], error.value) == [ErrorCall(callback, error.value)];
        InvokeErrorCallbacks();
      }
    }

    /**
     * `add_result_callback`: append the callback; if the result is set,
     * call the pending result callbacks, which is the new one alone.
     */
    method AddResultCallback(callback: Callback)
      requires Valid()
      modifies this
      ensures Valid()
      ensures resultRegistered == old(resultRegistered) + [callback]
      ensures errorRegistered == old(errorRegistered)
      ensures error == old(error) && hasResult == old(hasResult) && result == old(result)
      ensures errorCallbacks == old(errorCallbacks)
      ensures old(hasResult) ==>
        && resultCallbacks == []
        && calls == old(calls) + [ResultCall(callback, old(result).value)]
        && logged == old(logged) + Raising([callback])
      ensures !old(hasResult) ==>
        && resultCallbacks == old(resultCallbacks) + [callback]
        && calls == old(calls) && logged == old(logged)
    {
      resultCallbacks := resultCallbacks + [callback];
      resultRegistered := resultRegistered + [callback];
      if hasResult {
        assert ResultCalls([callback], result.value) == [ResultCall(callback, result.value)];
        InvokeResultCallbacks();
      }
    }

    /**
     * `__invoke_error_callbacks`: with an error set (asserted by the
     * source), pop and call the pending error callbacks front first until
     * none is left; a callback that raises is logged and the rest still run.
     */
    method InvokeErrorCallbacks()
      requires Registry() && error.Some?
      modifies this`errorCallbacks, this`calls, this`logged
      ensures Registry()
      ensures errorCallbacks == []
      ensures calls == old(calls) + ErrorCalls(old(errorCallbacks), error.value)
      ensures logged == old(logged) + Raising(old(errorCallbacks))
    {
      var made, failed := CallErrorCallbacks(errorCallbacks, error.value);
      DrainErrorCallbacks(calls, errorCallbacks, error.value);
      errorCallbacks, calls, logged := [], calls + made, logged + failed;
    }

    /**
     * `__invoke_result_callbacks`: with the result set (asserted by the
     * source), pop and call the pending result callbacks front first until
     * none is left; a callback that raises is logged and the rest still run.
     */
    method InvokeResultCallbacks()
      requires Registry() && hasResult
      modifies this`resultCallbacks, this`calls, this`logged
      ensures Registry()
      ensures resultCallbacks == []
      ensures calls == old(calls) + ResultCalls(old(resultCallbacks), result.value)
      ensures logged == old(logged) + Raising(old(resultCallbacks))
    {
      var made, failed := CallResultCallbacks(resultCallbacks, result.value);
      DrainResultCallbacks(calls, resultCallbacks, result.value);
      resultCallbacks, calls, logged := [], calls + made, logged + failed;
    }

    /**
     * `set_error`: store the error (overwriting any earlier one) and call the
     * pending error callbacks. Nothing on the result side changes.
     */
    method SetError(e: WorkerError)
      requires Valid()
      modifies this
      ensures Valid()
      ensures error == Some(e) && errorCallbacks == []
      ensures calls == old(calls) + ErrorCalls(old(errorCallbacks), e)
      ensures logged == old(logged) + Raising(old(errorCallbacks))
      ensures old(error).Some? ==> calls == old(calls) && logged == old(logged)
      ensures hasResult == old(hasResult) && result == old(result) && resultCallbacks == old(resultCallbacks)
      ensures resultRegistered == old(resultRegistered) && errorRegistered == old(errorRegistered)
    {
      DrainErrorCallbacks(calls, errorCallbacks, e);
      error := Some(e);
      InvokeErrorCallbacks();
    }

    /**
     * `set_result`: mark the result as set, store it (overwriting any
     * earlier one) and call the pending result callbacks. Nothing on the
     * error side changes.
     */
    method SetResult(value: R)
      requires Valid()
      modifies this
      ensures Valid()
      ensures hasResult && result == Some(value) && resultCallbacks == []
      ensures calls == old(calls) + ResultCalls(old(resultCallbacks), value)
      ensures logged == old(logged) + Raising(old(resultCallbacks))
      ensures old(hasResult) ==> calls == old(calls) && logged == old(logged)
      ensures error == old(error) && errorCallbacks == old(errorCallbacks)
      ensures resultRegistered == old(resultRegistered) && errorRegistered == old(errorRegistered)
    {
      DrainResultCallbacks(calls, resultCallbacks, value);
      hasResult := true;
      result := Some(value);
      InvokeResultCallbacks();
    }
  }

  /** What calling a worker's function did: it returned a value or it raised. */
  datatype FnOutcome<R> = Returned(value: R) | Raised(exception: Exception, traceback: string)

  /** A signal `Worker.run` emits: `result` with a value or `error` with a `WorkerError`. */
  datatype Signal<R> = ResultSignal(value: R) | ErrorSignal(error: WorkerError)

  /**
   * The one signal `Worker.run` emits for an outcome of its function: the
   * return value on `result`, or the exception and its traceback on `error`.
   */
  function RunSignal<R>(outcome: FnOutcome<R>): (s: Signal<R>)
    ensures s.ResultSignal? <==> outcome.Returned?
    ensures s.ResultSignal? ==> s.value == outcome.value
    ensures s.ErrorSignal? ==> s.error.value == outcome.exception && s.error.traceback == outcome.traceback
  {
    match outcome
    case Returned(v) => ResultSignal(v)
    case Raised(e, tb) => ErrorSignal(WorkerError(tb, e))
  }

  /**
   * A signal reaching the slot `make_future` connected it to: `set_result`
   * for a result, `set_error` for an error.
   */
  method Deliver<R>(f: WorkerFuture<R>, signal: Signal<R>)
    requires f.Valid()
    modifies f
    ensures f.Valid()
    ensures Received(old(f.State()), f.State(), signal)
  {
    match signal {
      case ResultSignal(v) => f.SetResult(v);
      case ErrorSignal(e) => f.SetError(e);
    }
  }

  /**
   * `Worker`: the futures `make_future` connected to its signals, in
   * connection order. The function it runs is not modelled; `Run` is given
   * what the function did.
   */
  class Worker<R> {
    var futures: seq<WorkerFuture<R>>

    ghost predicate Valid()
      reads this, futures
    {
      && (forall i, j :: 0 <= i < j < |futures| ==> futures[i] != futures[j])
      && (forall i :: 0 <= i < |futures| ==> futures[i].Valid())
    }

    constructor ()
      ensures Valid() && futures == []
    {
      futures := [];
    }

    /** `make_future`: a new future whose `set_result` and `set_error` receive this worker's signals. */
    method MakeFuture() returns (f: WorkerFuture<R>)
      requires Valid()
      modifies this
      ensures Valid()
      ensures fresh(f) && futures == old(futures) + [f]
      ensures f.error.None? && !f.hasResult && f.calls == [] && f.resultCallbacks == [] && f.errorCallbacks == []
    {
      f := new WorkerFuture();
      futures := futures + [f];
    }

    /**
     * `run`: emit exactly one signal for what the function did; each
     * connected future receives it, in connection order, through
     * `set_result` or `set_error`.
     */
    method Run(outcome: FnOutcome<R>)
      requires Valid()
      modifies futures
      ensures Valid()
      ensures forall i :: 0 <= i < |futures| ==> Received(old(futures[i].State()), futures[i].State(), RunSignal(outcome))
    {
      var signal := RunSignal(outcome);
      var i := 0;
      while i < |futures|
        invariant 0 <= i <= |futures|
        invariant futures == old(futures)
        invariant Valid()
        invariant forall j :: i <= j < |futures| ==> unchanged(futures[j])
        invariant forall j :: 0 <= j < i ==> Received(old(futures[j].State()), futures[j].State(), signal)
        decreases |futures| - i
      {
        Deliver(futures[i], signal);
        i := i + 1;
      }
    }
  }
}
