/**
 * The two middlewares of middleware.go, seen through their effect on the
 * response sink: the panic-recovery wrapper and the status reported by the
 * logging wrapper.
 */
module Middlewares {
  import opened Wrappers
  import opened StatusWriter

  /**
   * How an inner handler's ServeHTTP ends: it returns, or it panics. `nilValue`
   * says whether `recover()` yields nil for that panic, as it does for
   * `panic(nil)` before Go 1.21 (or under an older go line in go.mod).
   */
  datatype Completion = Returned | Panicked(nilValue: bool)

  /**
   * An inner handler, by what it does: the calls it makes on the response
   * writer it is handed, in order, and how it ends after the last of them.
   */
  datatype Handler = Handler(calls: seq<Call>, completion: Completion)

  /** A served request: the response sink afterwards and how the serving call ended. */
  datatype Served = Served(sink: Sink, completion: Completion)

  /** http.StatusInternalServerError, written when a panic is recovered. */
  const InternalServerError: int := 500

  /** `h.ServeHTTP(w, r)` straight on the sink: its calls reach `w` as made. */
  function Invoke(w: Sink, h: Handler): Served {
    Served(Forwarded(w, h.calls), h.completion)
  }

  /**
   * NewPanicMiddleware(h) serving on `w`: the inner handler runs on `w`; a
   * panic is recovered, and WriteHeader(500) is issued when `recover()` yields
   * a non-nil value. The wrapper itself always returns; nothing the inner
   * handler wrote before panicking is undone.
   */
  function PanicMiddleware(w: Sink, h: Handler): (r: Served)
    ensures r.completion == Returned
    ensures h.completion == Returned ==> r == Invoke(w, h)
    ensures r.sink.body == w.body + BodyBytes(h.calls)
    ensures r.sink.codes == w.codes + HeaderCodes(h.calls)
                            + (if h.completion == Panicked(false) then [InternalServerError] else [])
    ensures |r.sink.codes| == |Invoke(w, h).sink.codes| + 1 <==> h.completion == Panicked(false)
    ensures h.completion == Panicked(false) ==> r.sink.codes[|r.sink.codes| - 1] == InternalServerError
  {
    var inner := Invoke(w, h);
    match inner.completion
    case Panicked(nilValue) =>
      if nilValue then Served(inner.sink, Returned)
      else Served(SinkWriteHeader(inner.sink, InternalServerError), Returned)
    case Returned => inner
  }

  /**
   * NewLoggingMiddleware(out, h) serving on `w`: the inner handler runs on a
   * fresh status writer around `w`. Every call reaches `w` unchanged, and the
   * status logged is the writer's GetStatus. A panic of the inner handler is
   * not recovered here, so it propagates and nothing is logged.
   */
  method ServeLogging(w: Sink, h: Handler) returns (r: Served, logged: Option<int>)
    ensures r == Invoke(w, h)
    ensures h.completion == Returned ==> logged == Some(FirstStatus(h.calls).GetOr(StatusOK))
    ensures h.completion.Panicked? ==> logged == None
  {
    var sw := new StatusWriter(w);
    sw.Perform(h.calls);
    if h.completion.Panicked? {
      return Served(sw.wrapped, h.completion), None;
    }
    var code := sw.GetStatus();
    ReportsFirstStatus(sw, h.calls);
    return Served(sw.wrapped, Returned), Some(code);
  }

  /** TestPanicMiddleware: a handler that panics straight away still yields a 500 and no panic. */
  lemma PanicScenario()
    ensures PanicMiddleware(Sink([], []), Handler([], Panicked(false))) ==
            Served(Sink([InternalServerError], []), Returned)
  {
  }

  /** A panic whose recovered value is nil is still stopped, but no 500 is written. */
  lemma NilPanicScenario()
    ensures PanicMiddleware(Sink([], []), Handler([], Panicked(true))) ==
            Served(Sink([], []), Returned)
  {
  }

  /** TestLoggingMiddleware: a handler answering 200 has 200 logged and forwarded. */
  method LoggingScenario() returns (r: Served, logged: Option<int>)
    ensures logged == Some(StatusOK)
    ensures r == Served(Sink([StatusOK], []), Returned)
  {
    var calls := [WriteHeaderCall(StatusOK)];
    assert calls[1..] == [];
    assert HeaderCodes(calls) == [StatusOK] + HeaderCodes([]);
    assert BodyBytes(calls) == [] + BodyBytes([]);
    r, logged := ServeLogging(Sink([], []), Handler(calls, Returned));
  }
}
