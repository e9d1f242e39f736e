/**
 * The process-wide middleware registry of middleware.go: a write-once map from
 * string keys to middleware constructors, filled at start-up by `init`.
 */
module Registry {
  import opened Wrappers

  /** Where a logging middleware writes its lines. */
  datatype LogTarget = StdOut | StdErr

  /**
   * A middleware constructor (a `func(http.Handler) http.Handler`), as an opaque
   * token that can be compared: the two kinds `init` installs, and any other
   * constructor a caller registers, told apart by an identifier.
   */
  datatype Ctor = PanicCtor | LoggingCtor(target: LogTarget) | UserCtor(id: nat)

  /** The registry's two panics. */
  datatype Error =
    | KeyReused           // "Middleware registry key reused"
    | InvalidMiddleware   // "Invalid middleware requested"

  /** A pending registration: a key and a constructor that may be nil. */
  type Registration = (string, Option<Ctor>)

  const PanicKey: string := "middleware.Panic"
  const LoggingStdOutKey: string := "middleware.LoggingStdOut"
  const LoggingStdErrKey: string := "middleware.LoggingStdErr"

  /**
   * Register on the map `m`: nil is ignored before anything else, a key
   * already present fails whatever the constructor, and a fresh key is added.
   */
  function RegisterIn(m: map<string, Ctor>, key: string, f: Option<Ctor>): (r: Result<map<string, Ctor>, Error>)
    ensures f.None? ==> r == Success(m)
    ensures r.Failure? <==> f.Some? && key in m
    ensures r.Failure? ==> r.error == KeyReused
    ensures r.Success? ==> forall k :: k in m ==> k in r.value && r.value[k] == m[k]
    ensures r.Success? && f.Some? ==> key in r.value && r.value[key] == f.value
    ensures r.Success? ==> r.value.Keys == m.Keys + (if f.Some? then {key} else {})
  {
    if f.None? then Success(m)
    else if key in m then Failure(KeyReused)
    else Success(m[key := f.value])
  }

  /** Registrations made one after another, stopping at the first that panics. */
  function RegisterEach(m: map<string, Ctor>, regs: seq<Registration>): Result<map<string, Ctor>, Error>
    decreases |regs|
  {
    if regs == [] then Success(m)
    else
      match RegisterIn(m, regs[0].0, regs[0].1)
      case Failure(e) => Failure(e)
      case Success(m') => RegisterEach(m', regs[1..])
  }

  /** The keys of the non-nil registrations among `regs`. */
  function NonNilKeys(regs: seq<Registration>): set<string> {
    set i | 0 <= i < |regs| && regs[i].1.Some? :: regs[i].0
  }

  /** Every non-nil registration uses a key that is neither in `m` nor used by another. */
  predicate KeysFresh(m: map<string, Ctor>, regs: seq<Registration>) {
    forall i :: 0 <= i < |regs| && regs[i].1.Some? ==>
      regs[i].0 !in m &&
      forall j :: i < j < |regs| && regs[j].1.Some? ==> regs[j].0 != regs[i].0
  }

  /**
   * A run of registrations succeeds exactly when no non-nil constructor reuses
   * a key, and then the map keeps every old entry and holds every non-nil
   * constructor under its key.
   */
  lemma {:induction false} RegisterEachSpec(m: map<string, Ctor>, regs: seq<Registration>)
    ensures RegisterEach(m, regs).Success? <==> KeysFresh(m, regs)
    ensures RegisterEach(m, regs).Success? ==>
      var m' := RegisterEach(m, regs).value;
      m'.Keys == m.Keys + NonNilKeys(regs) &&
      (forall k :: k in m ==> m'[k] == m[k]) &&
      (forall i :: 0 <= i < |regs| && regs[i].1.Some? ==> m'[regs[i].0] == regs[i].1.value)
    decreases |regs|
  {
    if regs == [] {
      assert NonNilKeys(regs) == {};
    } else {
      var (key, f) := regs[0];
      var rest := regs[1..];
      assert forall i :: 0 < i < |regs| ==> regs[i] == rest[i - 1];
      assert NonNilKeys(regs) == (if f.Some? then {key} else {}) + NonNilKeys(rest) by {
        forall k | k in NonNilKeys(regs) ensures k in (if f.Some? then {key} else {}) + NonNilKeys(rest) {
          var i :| 0 <= i < |regs| && regs[i].1.Some? && regs[i].0 == k;
          if i > 0 { assert rest[i - 1] == regs[i]; }
        }
        forall k | k in NonNilKeys(rest) ensures k in NonNilKeys(regs) {
          var i :| 0 <= i < |rest| && rest[i].1.Some? && rest[i].0 == k;
          assert regs[i + 1] == rest[i];
        }
      }
      match RegisterIn(m, key, f)
      case Failure(_) =>
        assert !KeysFresh(m, regs);
      case Success(m1) =>
        RegisterEachSpec(m1, rest);
        assert RegisterEach(m, regs) == RegisterEach(m1, rest);
        assert KeysFresh(m, regs) <==> KeysFresh(m1, rest) by {
          if KeysFresh(m, regs) {
            forall i | 0 <= i < |rest| && rest[i].1.Some?
              ensures rest[i].0 !in m1
            {
              assert regs[i + 1] == rest[i];
            }
          }
          if KeysFresh(m1, rest) {
            forall i | 0 <= i < |regs| && regs[i].1.Some?
              ensures regs[i].0 !in m
              ensures forall j :: i < j < |regs| && regs[j].1.Some? ==> regs[j].0 != regs[i].0
            {
              if i > 0 {
                assert regs[i] == rest[i - 1];
              } else {
                forall j | 0 < j < |regs| && regs[j].1.Some? ensures regs[j].0 != key {
                  assert regs[j] == rest[j - 1];
                }
              }
            }
          }
        }
    }
  }

  /** What `init` registers, in order. */
  function Bootstrap(): seq<Registration> {
    [(PanicKey, Some(PanicCtor)),
     (LoggingStdOutKey, Some(LoggingCtor(StdOut))),
     (LoggingStdErrKey, Some(LoggingCtor(StdErr)))]
  }

  /** `init` cannot panic, and it leaves exactly its three entries behind. */
  lemma BootstrapSucceeds()
    ensures RegisterEach(map[], Bootstrap()).Success?
    ensures var m := RegisterEach(map[], Bootstrap()).value;
      m.Keys == {PanicKey, LoggingStdOutKey, LoggingStdErrKey} &&
      m[PanicKey] == PanicCtor &&
      m[LoggingStdOutKey] == LoggingCtor(StdOut) &&
      m[LoggingStdErrKey] == LoggingCtor(StdErr)
  {
  }

  class Registry {
    /** The registered constructors; no nil is ever stored. */
    var entries: map<string, Ctor>

    /** `make(map[string]func(http.Handler) http.Handler)`: the empty registry. */
    constructor ()
      ensures entries == map[]
    {
      entries := map[];
    }

    /**
     * Register: a nil constructor is a silent no-op; a key already present
     * panics (Fail) and leaves the map as it was, even for the very same
     * constructor; otherwise exactly the pair is added.
     */
    method Register(key: string, f: Option<Ctor>) returns (r: Outcome<Error>)
      modifies this
      ensures r.Fail? <==> f.Some? && key in old(entries)
      ensures r.Fail? ==> r.error == KeyReused
      ensures entries == if r.Pass? && f.Some? then old(entries)[key := f.value] else old(entries)
      ensures RegisterIn(old(entries), key, f) == if r.Pass? then Success(entries) else Failure(KeyReused)
    {
      match RegisterIn(entries, key, f) {
        case Success(m) =>
          entries := m;
          r := Pass;
        case Failure(e) =>
          r := Fail(e);
      }
    }

    /** Get: the stored constructor and true, or nil and false; it never panics. */
    function Get(key: string): (r: (Option<Ctor>, bool))
      reads this
      ensures r.1 <==> key in entries
      ensures r.1 <==> r.0.Some?
      ensures r.1 ==> r.0.value == entries[key]
    {
      if key in entries then (Some(entries[key]), true) else (None, false)
    }

    /** MustGet: the stored constructor, or a panic when the lookup finds nil. */
    function MustGet(key: string): (r: Result<Ctor, Error>)
      reads this
      ensures r.Success? <==> key in entries
      ensures r.Success? ==> r.value == entries[key]
      ensures r.Failure? ==> r.error == InvalidMiddleware
    {
      var (f, _) := Get(key);
      if f.None? then Failure(InvalidMiddleware) else Success(f.value)
    }
  }

  /**
   * The package's `init` on the freshly made registry: three registrations,
   * none of which panics.
   */
  method Init() returns (reg: Registry, r: Outcome<Error>)
    ensures fresh(reg)
    ensures r == Pass
    ensures RegisterEach(map[], Bootstrap()) == Success(reg.entries)
    ensures reg.Get(PanicKey) == (Some(PanicCtor), true)
    ensures reg.Get(LoggingStdOutKey) == (Some(LoggingCtor(StdOut)), true)
    ensures reg.Get(LoggingStdErrKey) == (Some(LoggingCtor(StdErr)), true)
  {
    reg := new Registry();
    var r1 := reg.Register(PanicKey, Some(PanicCtor));
    var r2 := reg.Register(LoggingStdOutKey, Some(LoggingCtor(StdOut)));
    var r3 := reg.Register(LoggingStdErrKey, Some(LoggingCtor(StdErr)));
    r := if r1.Fail? then r1 else if r2.Fail? then r2 else r3;
    BootstrapSucceeds();
    assert reg.entries == RegisterEach(map[], Bootstrap()).value;
  }

  /**
   * TestRegisterGetMustGet on an empty registry: register f, read it back,
   * ignore nil, refuse both re-registrations, look up "" and use MustGet.
   */
  method RegisterGetMustGetScenario()
    returns (f1: (Option<Ctor>, bool), f2: (Option<Ctor>, bool),
             reuseOther: Outcome<Error>, reuseSame: Outcome<Error>,
             f3: (Option<Ctor>, bool), f4: Result<Ctor, Error>, f5: Result<Ctor, Error>)
    ensures f1 == (Some(UserCtor(0)), true)
    ensures f2 == (None, false)
    ensures reuseOther == Fail(KeyReused) && reuseSame == Fail(KeyReused)
    ensures f3 == (None, false)
    ensures f4 == Success(UserCtor(0)) && f5 == Failure(InvalidMiddleware)
  {
    var f, o := UserCtor(0), UserCtor(1);
    var reg := new Registry();
    var _ := reg.Register("nillHandler", Some(f));
    f1 := reg.Get("nillHandler");
    var _ := reg.Register("noop", None);
    f2 := reg.Get("noop");
    reuseOther := reg.Register("nillHandler", Some(o));
    reuseSame := reg.Register("nillHandler", Some(f));
    f3 := reg.Get("");
    f4 := reg.MustGet("nillHandler");
    f5 := reg.MustGet("non-existant");
  }
}
