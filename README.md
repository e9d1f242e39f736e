# middleware: status capture, panic recovery and the constructor registry

This project models the core of a small Go HTTP middleware package
(`middleware.go`) in Dafny and proves properties of the model:

- **statusResponseWriter**: a proxy around an `http.ResponseWriter`. It caches
  the first non-zero status set on it (a body `Write` implies 200), forwards
  every `WriteHeader` code and every body byte to the wrapped writer, and
  reports 200 while nothing is cached. This is the class
  `StatusWriter.StatusWriter`, with fields `status` and `wrapped`. The wrapped
  writer is a value `Sink(codes, body)`: every code it was sent, in order, and
  the body bytes it received.
- **The panic middleware**: it runs the inner handler on the caller's writer.
  If the handler panics, the panic is recovered. When the recovered value is
  non-nil, it is turned into `WriteHeader(500)`.
- **The logging middleware, status part**: the status it logs is `GetStatus()`
  of a fresh status writer, read after the inner handler has made its calls.
- **The registry**: a write-once map from string keys to middleware
  constructors. `Register` ignores nil, panics on a reused key and otherwise
  inserts. `Get` is a lookup that never panics, and `MustGet` panics on a
  missing entry. The package `init` installs three constructors.

Files, one module each:

- `wrappers.dfy` holds `Option`, `Result` and `Outcome`.
- `status_writer.dfy` holds the status writer.
- `middlewares.dfy` holds the panic and logging middlewares.
- `registry.dfy` holds the registry and `init`.

Modelling choices:

- A Go panic is a value, not control flow. A registry panic is `Fail(KeyReused)`
  or `Failure(InvalidMiddleware)`, and the map is left unchanged. A handler that
  panics is a `Handler` whose `completion` is `Panicked`.
- An inner handler is described by what it does: `Handler(calls, completion)`
  lists the `Write`/`WriteHeader` calls it makes, in order, and then says
  whether it returns or panics. `StatusWriter.Perform` carries out those calls
  on a status writer. It stands for `chain.ServeHTTP(statusWriter, r)`.
- A middleware constructor is an opaque token (`Ctor`) that can be compared for
  equality. Go's nil constructor is `None` of `Option<Ctor>`.
- "First write wins" means the first non-zero write: `setStatus` tests
  `status == 0`, so `WriteHeader(0)` does not count, and a later call still
  sets the cache (`ZeroCodeLeavesUnset`).
- A panic carries whether `recover()` yields nil for it (`Panicked(nilValue)`).
  That is the case for `panic(nil)` before Go 1.21. The panic middleware writes
  500 only when the recovered value is non-nil (middleware.go:74).

## Model

| member | source | states |
|---|---|---|
| StatusWriter.StatusWriter.constructor | middleware.go:58 | a new writer wraps the given sink and has nothing cached (status 0) |
| StatusWriter.StatusWriter.SetStatus | middleware.go:35-39 | the cache takes the new value only while it is 0; a non-zero cache is kept; the sink is untouched |
| StatusWriter.StatusWriter.Write | middleware.go:25-28 | the cache is settled with 200; exactly the given bytes are appended to the sink's body; no code is forwarded; the sink's reply is returned unchanged |
| StatusWriter.StatusWriter.WriteHeader | middleware.go:30-33 | the cache is settled with the code; the code is forwarded to the sink every time, repeats included; the body is untouched |
| StatusWriter.StatusWriter.GetStatus | middleware.go:41-46 | never reports 0 (unset); reports the cached status when set and 200 otherwise; reads only |
| StatusWriter.StatusWriter.Perform | middleware.go:60 | after a handler's calls the cache is the step-by-step setStatus result, and the sink holds the old codes plus every WriteHeader code, and the old body plus every Write's bytes, in order |
| StatusWriter.FirstStatus | middleware.go:25-39 | the first non-zero value a call sequence asks to record is never 0, and there is none exactly when every call asks for 0 |
| StatusWriter.ForwardedSnoc | middleware.go:25-33 | forwarding one more call changes the sink exactly as the wrapped writer's own WriteHeader or Write would |
| StatusWriter.CachedStatusSticks | middleware.go:35-39 | once the cache is non-zero, no sequence of later Write/WriteHeader calls changes it |
| StatusWriter.CachedIsFirstStatus | middleware.go:25-39 | from an unset cache, any call sequence leaves its first non-zero requested value cached, or 0 if there is none |
| StatusWriter.ReportsFirstStatus | middleware.go:25-46 | GetStatus after any call sequence on a fresh writer is the first non-zero code set (200 for a Write), or 200 when none was set |
| StatusWriter.StatusAfterCalls | middleware.go:25-46 | a fresh writer, handed any call sequence and then asked GetStatus, reports the first non-zero code set (200 for a Write), or 200 when none was set |
| StatusWriter.FirstNonZeroCodeWins | middleware.go:30-39 | after WriteHeader(a) with a non-zero a, the cache stays a whatever calls follow |
| StatusWriter.ZeroCodeLeavesUnset | middleware.go:35-39 | WriteHeader(0) on a fresh writer leaves it unset, so the status is decided by the calls after it |
| StatusWriter.ResponseWriterScenario | middleware_test.go:44-79 | a fresh writer reports 200; after 403 then 409 it reports 403; a Write of "Hello World!" reports 200, returns 12 and no error, and the sink's body is exactly those bytes |
| Middlewares.PanicMiddleware | middleware.go:71-81 | the wrapper always returns, even when the handler panics; around a handler that returns it changes nothing; the sink gets the handler's own codes and bytes, then one code more exactly when the handler panicked with a non-nil recovered value, and that code is 500 |
| Middlewares.ServeLogging | middleware.go:56-66 | every call of the inner handler reaches the caller's sink unchanged and its completion is kept (a panic propagates); when it returns, the logged status is the first non-zero code set, or 200; when it panics (with any value), nothing is logged |
| Middlewares.PanicScenario | middleware_test.go:81-107 | a handler that panics at once, wrapped, returns normally, and the response gets status 500 |
| Middlewares.NilPanicScenario | middleware.go:73-77 | a handler whose panic recovers as nil, wrapped, returns normally and gets no status written |
| Middlewares.LoggingScenario | middleware_test.go:12-42 | a handler answering 200 through the logging wrapper has 200 logged and 200 forwarded to the response |
| Registry.RegisterIn | middleware.go:96-108 | nil leaves the map as it is; the call fails with KeyReused exactly when a non-nil constructor meets a present key, whatever the constructor; on success every old entry is kept and the key maps to the new constructor, and no other key is added |
| Registry.RegisterEachSpec | middleware.go:96-108 | a run of registrations succeeds exactly when no non-nil constructor reuses a key (already present or used earlier in the run); the result then keeps every old entry and holds each non-nil constructor under its key, and nothing else |
| Registry.BootstrapSucceeds | middleware.go:83-91 | the three init registrations on an empty map cannot fail, and they leave exactly "middleware.Panic", "middleware.LoggingStdOut" and "middleware.LoggingStdErr" with their constructors |
| Registry.Registry.constructor | middleware.go:13 | the registry starts empty |
| Registry.Registry.Register | middleware.go:96-108 | nil is a no-op; a present key fails with KeyReused and leaves the map unchanged, even for the identical constructor; a fresh key gets exactly that pair added; agrees with RegisterIn |
| Registry.Registry.Get | middleware.go:112-118 | found is true exactly when the key is present, and exactly when the returned constructor is non-nil; the returned constructor is the stored one; it never fails |
| Registry.Registry.MustGet | middleware.go:120-129 | returns the stored constructor exactly when the key is present; fails with InvalidMiddleware otherwise |
| Registry.Init | middleware.go:83-91 | init on the fresh registry does not fail; its map is what the three registrations produce; Get finds each of the three keys with its constructor |
| Registry.RegisterGetMustGetScenario | middleware_test.go:128-192 | a registered constructor is read back identical; nil is not stored; re-registering a key fails for another and for the same constructor; Get("") finds nothing without failing; MustGet returns a present entry and fails on a missing key |

## Left out

- `Header()` (middleware.go:21-23) is a passthrough to the wrapped writer's header map. It has no logic of its own.
- The `sync.RWMutex` locking (middleware.go:14, 100-101, 113-114, 121-122) is not modelled, because it concerns concurrency. Registry operations are modelled one at a time.
- The logging middleware's timing (`time.Now`, `end.Sub(start)`) is left out: it depends on the wall clock. So is the log line itself (`"%d %s %v\n"` with the request path and duration) and its write to the `io.Writer`, `os.Stdout` or `os.Stderr`: that is I/O and Go formatting. The model keeps only the status code that would be logged.
- StatusWriter.StatusWriter.Write: the wrapped writer is modelled as a recorder that takes every byte and replies `(len(data), nil)`. Short writes and write errors of a real `http.ResponseWriter` are outside the model, so "returns the wrapped writer's reply unchanged" is stated only for that recorder's reply.
- The wrapped writer is modelled as accepting every code it is forwarded, including 0 and codes outside 100-999. The `http.ResponseWriter`s of net/http panic on such codes, so `ZeroCodeLeavesUnset` (later calls decide the status after `WriteHeader(0)`) holds only for a wrapped writer that accepts code 0.
- A handler's panic is modelled only after its last call. Since any prefix of calls can be given, this covers a panic at any point. Go's `panic`/`recover` unwinding is not modelled.
- Middleware constructors are opaque tokens. The closures `init` stores, applying a constructor to a handler ("yields a non-nil handler") and chaining middlewares by repeated application are not modelled, because Dafny cannot compare function values.
