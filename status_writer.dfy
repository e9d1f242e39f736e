/**
 * The status-capturing response writer of middleware.go: a proxy in front of an
 * http.ResponseWriter that remembers the first status code set on it, forwards
 * every call, and reports 200 (http.StatusOK) while nothing has been set.
 */
module StatusWriter {
  import opened Wrappers

  newtype byte = x: int | 0 <= x < 256

  /** http.StatusOK: the status implied by a body write and reported when none is cached. */
  const StatusOK: int := 200

  /**
   * The wrapped response sink as observed from outside: every status code
   * forwarded to it, in order, and the body bytes it received.
   */
  datatype Sink = Sink(codes: seq<int>, body: seq<byte>)

  /** What a sink's Write returns: the byte count and an error (nil when absent). */
  datatype Reply = Reply(count: int, err: Option<string>)

  /** The wrapped sink's WriteHeader: a recorder that keeps every code. */
  function SinkWriteHeader(w: Sink, code: int): Sink {
    w.(codes := w.codes + [code])
  }

  /** The wrapped sink's Write: a recorder that accepts every byte. */
  function SinkWrite(w: Sink, data: seq<byte>): (Sink, Reply) {
    (w.(body := w.body + data), Reply(|data|, None))
  }

  /** One call a handler makes on the response writer it is handed. */
  datatype Call = WriteHeaderCall(code: int) | WriteCall(data: seq<byte>)

  /** The value a call hands to setStatus: WriteHeader its code, Write the implied 200. */
  function Requested(c: Call): int {
    match c
    case WriteHeaderCall(code) => code
    case WriteCall(_) => StatusOK
  }

  /** setStatus on a cached value: only the unset cache (0) takes the new value. */
  function Settle(cached: int, v: int): int {
    if cached == 0 then v else cached
  }

  /** The cached status after `calls`, one setStatus per call, in order. */
  function CachedAfter(cached: int, calls: seq<Call>): int
    decreases |calls|
  {
    if calls == [] then cached
    else Settle(CachedAfter(cached, calls[..|calls| - 1]), Requested(calls[|calls| - 1]))
  }

  /** Reference definition: the first non-zero value any of `calls` asks to record. */
  function FirstStatus(calls: seq<Call>): (r: Option<int>)
    ensures r.Some? ==> r.value != 0
    ensures r.None? <==> forall i :: 0 <= i < |calls| ==> Requested(calls[i]) == 0
  {
    if calls == [] then None
    else if Requested(calls[0]) != 0 then Some(Requested(calls[0]))
    else FirstStatus(calls[1..])
  }

  /** The codes of the WriteHeader calls among `calls`, in order, repeats included. */
  function HeaderCodes(calls: seq<Call>): seq<int> {
    if calls == [] then []
    else
      (match calls[0] case WriteHeaderCall(code) => [code] case WriteCall(_) => [])
      + HeaderCodes(calls[1..])
  }

  /** The bytes of the Write calls among `calls`, concatenated in order. */
  function BodyBytes(calls: seq<Call>): seq<byte> {
    if calls == [] then []
    else
      (match calls[0] case WriteHeaderCall(_) => [] case WriteCall(data) => data)
      + BodyBytes(calls[1..])
  }

  /** The sink after every call of `calls` has been forwarded to it unchanged. */
  function Forwarded(w: Sink, calls: seq<Call>): Sink {
    Sink(w.codes + HeaderCodes(calls), w.body + BodyBytes(calls))
  }

  class StatusWriter {
    /** The response sink every call is forwarded to. */
    var wrapped: Sink
    /** The cached status; 0 means not set yet. */
    var status: int

    /** `&statusResponseWriter{wrapped: w}`: nothing cached yet. */
    constructor (w: Sink)
      ensures wrapped == w && status == 0
    {
      wrapped := w;
      status := 0;
    }

    /** Records `v` only while nothing is cached: the first non-zero value wins. */
    method SetStatus(v: int)
      modifies this
      ensures old(status) == 0 ==> status == v
      ensures old(status) != 0 ==> status == old(status)
      ensures wrapped == old(wrapped)
    {
      status := Settle(status, v);
    }

    /** Implies status 200, then forwards the bytes and returns the sink's reply unchanged. */
    method Write(data: seq<byte>) returns (r: Reply)
      modifies this
      ensures status == Settle(old(status), StatusOK)
      ensures (wrapped, r) == SinkWrite(old(wrapped), data)
      ensures wrapped.body == old(wrapped.body) + data && wrapped.codes == old(wrapped.codes)
    {
      SetStatus(StatusOK);
      var (w', reply) := SinkWrite(wrapped, data);
      wrapped := w';
      r := reply;
    }

    /** Records `code` if nothing is cached, and forwards it to the sink in every case. */
    method WriteHeader(code: int)
      modifies this
      ensures status == Settle(old(status), code)
      ensures wrapped == SinkWriteHeader(old(wrapped), code)
      ensures wrapped.codes == old(wrapped.codes) + [code] && wrapped.body == old(wrapped.body)
    {
      SetStatus(code);
      wrapped := SinkWriteHeader(wrapped, code);
    }

    /** The cached status, or 200 while nothing is cached; it never reports "unset". */
    function GetStatus(): (r: int)
      reads this
      ensures r != 0
      ensures status != 0 ==> r == status
      ensures status == 0 ==> r == StatusOK
    {
      if status == 0 then StatusOK else status
    }

    /** The calls an inner handler makes on this writer, performed one after another. */
    method Perform(calls: seq<Call>)
      modifies this
      ensures status == CachedAfter(old(status), calls)
      ensures wrapped == Forwarded(old(wrapped), calls)
    {
      var i := 0;
      while i < |calls|
        invariant 0 <= i <= |calls|
        invariant status == CachedAfter(old(status), calls[..i])
        invariant wrapped == Forwarded(old(wrapped), calls[..i])
      {
        ForwardedSnoc(old(wrapped), calls[..i], calls[i]);
        match calls[i] {
          case WriteHeaderCall(code) =>
            WriteHeader(code);
          case WriteCall(data) =>
            var _ := Write(data);
        }
        assert calls[..i + 1] == calls[..i] + [calls[i]];
        i := i + 1;
      }
      assert calls[..|calls|] == calls;
    }
  }

  /** Forwarding one more call appends exactly that call's code or bytes to the sink. */
  lemma {:induction false} ForwardedSnoc(w: Sink, calls: seq<Call>, c: Call)
    ensures Forwarded(w, calls + [c]) ==
      match c
      case WriteHeaderCall(code) => SinkWriteHeader(Forwarded(w, calls), code)
      case WriteCall(data) => SinkWrite(Forwarded(w, calls), data).0
  {
    HeaderCodesSnoc(calls, c);
    BodyBytesSnoc(calls, c);
  }

  lemma {:induction false} HeaderCodesSnoc(calls: seq<Call>, c: Call)
    ensures HeaderCodes(calls + [c]) ==
      HeaderCodes(calls) + match c case WriteHeaderCall(code) => [code] case WriteCall(_) => []
  {
    if calls != [] {
      assert (calls + [c])[1..] == calls[1..] + [c];
      HeaderCodesSnoc(calls[1..], c);
    } else {
      assert [c][1..] == [];
    }
  }

  lemma {:induction false} BodyBytesSnoc(calls: seq<Call>, c: Call)
    ensures BodyBytes(calls + [c]) ==
      BodyBytes(calls) + match c case WriteHeaderCall(_) => [] case WriteCall(data) => data
  {
    if calls != [] {
      assert (calls + [c])[1..] == calls[1..] + [c];
      BodyBytesSnoc(calls[1..], c);
    } else {
      assert [c][1..] == [];
    }
  }

  /** Appending a call changes the first requested status only if there was none. */
  lemma {:induction false} FirstStatusSnoc(calls: seq<Call>, c: Call)
    ensures FirstStatus(calls + [c]) ==
      if FirstStatus(calls).Some? then FirstStatus(calls)
      else if Requested(c) != 0 then Some(Requested(c))
      else None
  {
    if calls != [] {
      assert (calls + [c])[1..] == calls[1..] + [c];
      FirstStatusSnoc(calls[1..], c);
    } else {
      assert [c][1..] == [];
    }
  }

  /** Once a non-zero status is cached, no later Write or WriteHeader changes it. */
  lemma {:induction false} CachedStatusSticks(cached: int, calls: seq<Call>)
    requires cached != 0
    ensures CachedAfter(cached, calls) == cached
    decreases |calls|
  {
    if calls != [] {
      CachedStatusSticks(cached, calls[..|calls| - 1]);
    }
  }

  /** From an unset cache, the cached status is the first non-zero requested value, or 0. */
  lemma {:induction false} CachedIsFirstStatus(calls: seq<Call>)
    ensures CachedAfter(0, calls) == FirstStatus(calls).GetOr(0)
    decreases |calls|
  {
    if calls != [] {
      var front, last := calls[..|calls| - 1], calls[|calls| - 1];
      assert calls == front + [last];
      CachedIsFirstStatus(front);
      FirstStatusSnoc(front, last);
    }
  }

  /**
   * A writer created fresh and then handed `calls` reports the first non-zero
   * code set on it (200 for a Write), or 200 when none was set.
   */
  lemma ReportsFirstStatus(sw: StatusWriter, calls: seq<Call>)
    requires sw.status == CachedAfter(0, calls)
    ensures sw.GetStatus() == FirstStatus(calls).GetOr(StatusOK)
  {
    CachedIsFirstStatus(calls);
  }

  /**
   * A fresh writer around `w`, handed `calls`, then asked GetStatus: the answer
   * is the first non-zero code set on it (200 for a Write), or 200 when none was.
   */
  method StatusAfterCalls(w: Sink, calls: seq<Call>) returns (reported: int)
    ensures reported == FirstStatus(calls).GetOr(StatusOK)
  {
    var sw := new StatusWriter(w);
    sw.Perform(calls);
    reported := sw.GetStatus();
    ReportsFirstStatus(sw, calls);
  }

  /** WriteHeader(a) with a non-zero `a` on a fresh writer fixes the reported status, whatever follows. */
  lemma FirstNonZeroCodeWins(a: int, later: seq<Call>)
    requires a != 0
    ensures CachedAfter(0, [WriteHeaderCall(a)] + later) == a
  {
    CachedIsFirstStatus([WriteHeaderCall(a)] + later);
  }

  /** WriteHeader(0) leaves the cache unset, so a later call still decides the status. */
  lemma ZeroCodeLeavesUnset(later: seq<Call>)
    ensures CachedAfter(0, [WriteHeaderCall(0)] + later) == FirstStatus(later).GetOr(0)
  {
    var calls := [WriteHeaderCall(0)] + later;
    assert calls[1..] == later;
    CachedIsFirstStatus(calls);
  }

  /** The scenarios of TestLoggingResponseWriter, run on writers around an empty recorder. */
  method ResponseWriterScenario() returns (initial: int, afterForbidden: int, afterConflict: int,
                                           afterWrite: int, reply: Reply, body: seq<byte>)
    ensures initial == StatusOK
    ensures afterForbidden == 403 && afterConflict == 403
    ensures afterWrite == StatusOK && reply == Reply(12, None)
    ensures body == [72, 101, 108, 108, 111, 32, 87, 111, 114, 108, 100, 33]
  {
    var sw := new StatusWriter(Sink([], []));
    initial := sw.GetStatus();
    sw.WriteHeader(403);
    afterForbidden := sw.GetStatus();
    sw.WriteHeader(409);
    afterConflict := sw.GetStatus();

    var hello: seq<byte> := [72, 101, 108, 108, 111, 32, 87, 111, 114, 108, 100, 33];
    sw := new StatusWriter(Sink([], []));
    reply := sw.Write(hello);
    afterWrite := sw.GetStatus();
    body := sw.wrapped.body;
  }
}
