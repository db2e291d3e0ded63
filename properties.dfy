/**
 * What the resolution engine guarantees, stated over the `Resolution`
 * functions that the `Inject.Container` methods are proved to follow.
 */
module Properties {
  import opened Wrappers
  import opened GoTypes
  import opened Resolution
  import Inject
  import Helpers

  // ---------------------------------------------------------------------
  // Lookup
  // ---------------------------------------------------------------------

  /**
   * Resolution reports "not registered" for a key exactly when the key has
   * no descriptor, and in that case runs no factory and changes nothing.
   */
  lemma NotRegisteredIffMissing(reg: Registry, t: GoType, call: Oracle, rank: map<GoType, nat>)
    requires Acyclic(reg, rank)
    ensures ResolveType(reg, t, call, rank).result == Err(NotRegistered(t)) <==> t !in reg
    ensures t !in reg ==> ResolveType(reg, t, call, rank) == Step(Err(NotRegistered(t)), reg, [])
  {
  }

  /** `Has` answers exactly whether Resolve can find a descriptor for the key. */
  lemma HasIffResolvable(c: Inject.Container, t: GoType, call: Oracle, rank: map<GoType, nat>)
    requires c.Valid() && Acyclic(c.Model(), rank)
    ensures c.Has(t) <==> ResolveType(c.Model(), Strip(t), call, rank).result != Err(NotRegistered(Strip(t)))
  {
    assert Strip(t) in c.Model() <==> Strip(t) in c.services;
    NotRegisteredIffMissing(c.Model(), Strip(t), call, rank);
  }

  // ---------------------------------------------------------------------
  // Lifecycles
  // ---------------------------------------------------------------------

  /** A filled Singleton slot is returned as it is: no factory runs and nothing changes. */
  lemma CachedSingletonReused(reg: Registry, t: GoType, call: Oracle, rank: map<GoType, nat>)
    requires Acyclic(reg, rank) && t in reg && Cached(reg, t)
    ensures ResolveType(reg, t, call, rank) == Step(Ok(reg[t].instance), reg, [])
  {
  }

  /**
   * An uncached Singleton runs its factory; when that succeeds, the slot
   * holds exactly the result afterwards.
   */
  lemma SingletonStoresCreated(reg: Registry, t: GoType, call: Oracle, rank: map<GoType, nat>)
    requires Acyclic(reg, rank) && t in reg && reg[t].lifecycle == Singleton && !Cached(reg, t)
    ensures var s := ResolveType(reg, t, call, rank);
            s.result.Ok? ==> RanLast(s, t) && s.reg[t] == reg[t].(instance := s.result.value)
  {
  }

  /**
   * A Singleton that resolved to a non-nil instance resolves to that same
   * instance again, without running any factory.
   */
  lemma {:induction false} SingletonResolvedOnce(reg: Registry, t: GoType, call: Oracle, rank: map<GoType, nat>)
    requires Acyclic(reg, rank) && t in reg && reg[t].lifecycle == Singleton
    requires ResolveType(reg, t, call, rank).result.Ok?
    requires ResolveType(reg, t, call, rank).result.value != Nil
    ensures var s := ResolveType(reg, t, call, rank);
            Acyclic(s.reg, rank) && Cached(s.reg, t) && s.reg[t].instance == s.result.value
            && ResolveType(s.reg, t, call, rank) == Step(s.result, s.reg, [])
  {
    var s := ResolveType(reg, t, call, rank);
    AcyclicKept(reg, s.reg, rank);
  }

  /**
   * A Singleton factory that returns the nil interface leaves the slot
   * empty (the code caches only a non-nil instance), so the next
   * resolution runs the factory again.
   */
  lemma NilSingletonNotCached(reg: Registry, t: GoType, call: Oracle, rank: map<GoType, nat>)
    requires Acyclic(reg, rank) && t in reg && reg[t].lifecycle == Singleton
    requires ResolveType(reg, t, call, rank).result == Ok(Nil)
    ensures var s := ResolveType(reg, t, call, rank);
            RanLast(s, t) && !Cached(s.reg, t)
  {
  }

  /**
   * A failed resolution stores nothing for its key: the slot is as it was
   * and not filled, so a later resolution of a Singleton creates again.
   */
  lemma FailureNotCached(reg: Registry, t: GoType, call: Oracle, rank: map<GoType, nat>)
    requires Acyclic(reg, rank) && t in reg
    requires ResolveType(reg, t, call, rank).result.Err?
    ensures var s := ResolveType(reg, t, call, rank);
            s.reg[t] == reg[t] && !Cached(s.reg, t)
  {
  }

  /**
   * A Transient key never reads or writes its slot: every resolution is a
   * fresh creation, and a successful one ran that key's factory last.
   */
  lemma TransientAlwaysCreates(reg: Registry, t: GoType, call: Oracle, rank: map<GoType, nat>)
    requires Acyclic(reg, rank) && WellFormed(reg) && t in reg && reg[t].lifecycle == Transient
    ensures var s := ResolveType(reg, t, call, rank);
            s == CreateInstance(reg, t, call, rank) && s.reg[t] == reg[t] && s.reg[t].instance == Nil
            && (s.result.Ok? ==> RanLast(s, t))
  {
  }

  /** Resolution keeps what Register guarantees of every descriptor. */
  lemma ResolveKeepsWellFormed(reg: Registry, t: GoType, call: Oracle, rank: map<GoType, nat>)
    requires Acyclic(reg, rank) && WellFormed(reg)
    ensures WellFormed(ResolveType(reg, t, call, rank).reg) && Acyclic(ResolveType(reg, t, call, rank).reg, rank)
  {
    var s := ResolveType(reg, t, call, rank);
    WellFormedKept(reg, s.reg);
    AcyclicKept(reg, s.reg, rank);
  }

  // ---------------------------------------------------------------------
  // Dependencies
  // ---------------------------------------------------------------------

  /** Leading `*Container` parameters bind to the container without touching the registry. */
  lemma {:induction false} ContainerPrefixBinds(reg: Registry, ps: seq<GoType>, j: nat, bound: nat, call: Oracle, rank: map<GoType, nat>)
    requires Acyclic(reg, rank) && DepsBelow(ps, rank, bound) && j <= |ps|
    requires forall i | 0 <= i < j :: ps[i] == ContainerPtr
    ensures DepsBelow(ps[..j], rank, bound)
    ensures var a := ResolveArgs(reg, ps[..j], bound, call, rank);
            a.result.Ok? && a.reg == reg && a.log == []
  {
    Inject.DepsBelowPrefix(ps, j, rank, bound);
    if j > 0 {
      ContainerPrefixBinds(reg, ps, j - 1, bound, call, rank);
      assert ps[..j][..j - 1] == ps[..j - 1];
      assert ps[..j][j - 1] == ContainerPtr;
    }
  }

  /**
   * When the parameters before position `j` all bind and the parameter at
   * `j`, which is not `*Container`, has no descriptor, resolution fails with
   * that dependency wrapped around "not registered". The factory does not
   * run; the registry and the log are those the earlier dependencies left.
   */
  lemma {:induction false} MissingDependencyReported(reg: Registry, t: GoType, j: nat, call: Oracle, rank: map<GoType, nat>)
    requires Acyclic(reg, rank) && t in reg && !Cached(reg, t)
    requires j < |Params(reg[t].factory.typ)|
    requires Params(reg[t].factory.typ)[j] != ContainerPtr && Params(reg[t].factory.typ)[j] !in reg
    // implied by `Acyclic`; stated so that the next line is defined
    requires DepsBelow(Params(reg[t].factory.typ)[..j], rank, RankOf(rank, t))
    requires ResolveArgs(reg, Params(reg[t].factory.typ)[..j], RankOf(rank, t), call, rank).result.Ok?
    ensures var p := Params(reg[t].factory.typ)[j];
            var a := ResolveArgs(reg, Params(reg[t].factory.typ)[..j], RankOf(rank, t), call, rank);
            ResolveType(reg, t, call, rank) == Step(Err(DependencyFailed(p, NotRegistered(p))), a.reg, a.log)
  {
    Inject.CreateInstanceUnfold(reg, t, call, rank);
    ArgsMissingFails(reg, Params(reg[t].factory.typ), j, RankOf(rank, t), call, rank);
  }

  /** The argument loop stops at the first parameter, other than `*Container`, that has no descriptor. */
  lemma ArgsMissingFails(reg: Registry, ps: seq<GoType>, j: nat, bound: nat, call: Oracle, rank: map<GoType, nat>)
    requires Acyclic(reg, rank) && DepsBelow(ps, rank, bound) && j < |ps|
    requires ps[j] != ContainerPtr && ps[j] !in reg
    // implied by the line above it; stated so that the next line is defined
    requires DepsBelow(ps[..j], rank, bound)
    requires ResolveArgs(reg, ps[..j], bound, call, rank).result.Ok?
    ensures var a := ResolveArgs(reg, ps[..j], bound, call, rank);
            ResolveArgs(reg, ps, bound, call, rank) == Step(Err(DependencyFailed(ps[j], NotRegistered(ps[j]))), a.reg, a.log)
  {
    var p := ps[j];
    var a := ResolveArgs(reg, ps[..j], bound, call, rank);
    Inject.ArgsStep(reg, ps, j, bound, call, rank);
    assert p !in a.reg;
    assert Bind(a.reg, p, bound, call, rank) == Step(Err(DependencyFailed(p, NotRegistered(p))), a.reg, []);
    assert a.log + [] == a.log;
    Inject.ArgsFailureSticks(reg, ps, j + 1, bound, call, rank);
  }

  /**
   * Whatever makes a dependency fail (no descriptor, a failure of its own
   * dependencies, or its factory's error) stops the argument loop at that
   * parameter, with the cause wrapped unchanged; the registry and the log
   * are those the dependency's resolution left.
   */
  lemma ArgsDependencyFails(reg: Registry, ps: seq<GoType>, j: nat, bound: nat, call: Oracle, rank: map<GoType, nat>)
    requires Acyclic(reg, rank) && DepsBelow(ps, rank, bound) && j < |ps| && ps[j] != ContainerPtr
    // implied by the lines above; stated so that the lines below are defined
    requires DepsBelow(ps[..j], rank, bound)
    requires ResolveArgs(reg, ps[..j], bound, call, rank).result.Ok?
    requires Acyclic(ResolveArgs(reg, ps[..j], bound, call, rank).reg, rank)
    requires ResolveType(ResolveArgs(reg, ps[..j], bound, call, rank).reg, ps[j], call, rank).result.Err?
    ensures var a := ResolveArgs(reg, ps[..j], bound, call, rank);
            var r := ResolveType(a.reg, ps[j], call, rank);
            ResolveArgs(reg, ps, bound, call, rank) == Step(Err(DependencyFailed(ps[j], r.result.error)), r.reg, a.log + r.log)
  {
    var a := ResolveArgs(reg, ps[..j], bound, call, rank);
    Inject.ArgsStep(reg, ps, j, bound, call, rank);
    assert ps[j] in [ps[j]];
    Inject.ArgsFailureSticks(reg, ps, j + 1, bound, call, rank);
  }

  /**
   * The same failure seen from the service: resolution of `t` fails with the
   * dependency's error wrapped around its parameter type, and `t`'s factory
   * does not run.
   */
  lemma DependencyFailureWrapped(reg: Registry, t: GoType, j: nat, call: Oracle, rank: map<GoType, nat>)
    requires Acyclic(reg, rank) && t in reg && !Cached(reg, t)
    requires j < |Params(reg[t].factory.typ)| && Params(reg[t].factory.typ)[j] != ContainerPtr
    // implied by `Acyclic`; stated so that the lines below are defined
    requires DepsBelow(Params(reg[t].factory.typ)[..j], rank, RankOf(rank, t))
    requires ResolveArgs(reg, Params(reg[t].factory.typ)[..j], RankOf(rank, t), call, rank).result.Ok?
    requires Acyclic(ResolveArgs(reg, Params(reg[t].factory.typ)[..j], RankOf(rank, t), call, rank).reg, rank)
    requires ResolveType(ResolveArgs(reg, Params(reg[t].factory.typ)[..j], RankOf(rank, t), call, rank).reg,
                         Params(reg[t].factory.typ)[j], call, rank).result.Err?
    ensures var p := Params(reg[t].factory.typ)[j];
            var a := ResolveArgs(reg, Params(reg[t].factory.typ)[..j], RankOf(rank, t), call, rank);
            var r := ResolveType(a.reg, p, call, rank);
            ResolveType(reg, t, call, rank) == Step(Err(DependencyFailed(p, r.result.error)), r.reg, a.log + r.log)
  {
    Inject.CreateInstanceUnfold(reg, t, call, rank);
    ArgsDependencyFails(reg, Params(reg[t].factory.typ), j, RankOf(rank, t), call, rank);
  }

  /**
   * For any service whose two-result factory receives its arguments and
   * reports an error, resolution returns that error unchanged after the
   * factory ran, and stores nothing.
   */
  lemma FactoryErrorReturned(reg: Registry, t: GoType, call: Oracle, rank: map<GoType, nat>)
    requires Acyclic(reg, rank) && t in reg && !Cached(reg, t) && ResultCount(reg[t].factory.typ) == 2
    // implied by `Acyclic`; stated so that the lines below are defined
    requires DepsBelow(Params(reg[t].factory.typ), rank, RankOf(rank, t))
    requires ResolveArgs(reg, Params(reg[t].factory.typ), RankOf(rank, t), call, rank).result.Ok?
    requires Invoke(call, reg[t].factory.id, ResolveArgs(reg, Params(reg[t].factory.typ), RankOf(rank, t), call, rank).result.value).second != Nil
    ensures var a := ResolveArgs(reg, Params(reg[t].factory.typ), RankOf(rank, t), call, rank);
            var out := Invoke(call, reg[t].factory.id, a.result.value);
            ResolveType(reg, t, call, rank) == Step(Err(Reported(out.second)), a.reg, a.log + [t])
  {
    Inject.CreateInstanceUnfold(reg, t, call, rank);
  }

  /** Every parameter type other than `*Container` of every factory has a descriptor. */
  ghost predicate Closed(reg: Registry)
  {
    forall k, p | k in reg && p in Params(reg[k].factory.typ) && p != ContainerPtr :: p in reg
  }

  /** No user factory returns a non-nil error. */
  ghost predicate NeverReports(call: Oracle)
  {
    forall n: nat, args: seq<Value> :: call(n, args).second == Nil
  }

  lemma ClosedKept(reg: Registry, reg': Registry)
    requires Closed(reg) && SameShape(reg, reg')
    ensures Closed(reg')
  {
    forall k, p | k in reg' && p in Params(reg'[k].factory.typ) && p != ContainerPtr
      ensures p in reg'
    {
      assert reg'[k].factory == reg[k].factory;
    }
  }

  lemma InvokeNeverReports(call: Oracle, id: FactoryId, args: seq<Value>)
    requires NeverReports(call)
    ensures Invoke(call, id, args).second == Nil
  {
  }

  /**
   * Resolution succeeds for every registered key when every dependency is
   * registered and no factory reports an error: among the failures the
   * model returns as errors, the only ones are a missing registration and a
   * factory's own error. Panics inside `reflect.Value.Call` (an argument of
   * the wrong type, a nil dependency) are outside the model.
   */
  lemma {:induction false} ResolveSucceeds(reg: Registry, t: GoType, call: Oracle, rank: map<GoType, nat>)
    requires Acyclic(reg, rank) && Closed(reg) && NeverReports(call) && t in reg
    ensures ResolveType(reg, t, call, rank).result.Ok?
    decreases RankOf(rank, t), 2, 0
  {
    if !Cached(reg, t) {
      CreateSucceeds(reg, t, call, rank);
    }
  }

  lemma {:induction false} CreateSucceeds(reg: Registry, t: GoType, call: Oracle, rank: map<GoType, nat>)
    requires Acyclic(reg, rank) && Closed(reg) && NeverReports(call) && t in reg && !Cached(reg, t)
    ensures CreateInstance(reg, t, call, rank).result.Ok?
    decreases RankOf(rank, t), 1, 0
  {
    var ps := Params(reg[t].factory.typ);
    Inject.CreateInstanceUnfold(reg, t, call, rank);
    ArgsSucceed(reg, ps, RankOf(rank, t), call, rank);
    var a := ResolveArgs(reg, ps, RankOf(rank, t), call, rank);
    InvokeNeverReports(call, reg[t].factory.id, a.result.value);
  }

  lemma {:induction false} ArgsSucceed(reg: Registry, ps: seq<GoType>, bound: nat, call: Oracle, rank: map<GoType, nat>)
    requires Acyclic(reg, rank) && Closed(reg) && NeverReports(call) && DepsBelow(ps, rank, bound)
    requires forall p | p in ps && p != ContainerPtr :: p in reg
    ensures ResolveArgs(reg, ps, bound, call, rank).result.Ok?
    decreases bound, 0, |ps|
  {
    if ps != [] {
      var pre := ps[..|ps| - 1];
      var p := ps[|ps| - 1];
      Inject.DepsBelowPrefix(ps, |ps| - 1, rank, bound);
      forall q | q in pre && q != ContainerPtr ensures q in reg {
        assert q in ps;
      }
      ArgsSucceed(reg, pre, bound, call, rank);
      var a := ResolveArgs(reg, pre, bound, call, rank);
      AcyclicKept(reg, a.reg, rank);
      ClosedKept(reg, a.reg);
      if p != ContainerPtr {
        assert p in ps;
        ResolveSucceeds(a.reg, p, call, rank);
      }
    }
  }

  // ---------------------------------------------------------------------
  // Registration helpers
  // ---------------------------------------------------------------------

  /** Registering a factory whose dependencies rank below the key keeps the graph acyclic. */
  lemma AcyclicAfterRegister(reg: Registry, t: GoType, e: Entry, rank: map<GoType, nat>)
    requires Acyclic(reg, rank) && t in rank && DepsBelow(Params(e.factory.typ), rank, rank[t])
    ensures Acyclic(reg[t := e], rank)
  {
    var reg' := reg[t := e];
    forall k | k in reg' ensures k in rank && (!Cached(reg', k) ==> DepsBelow(Params(reg'[k].factory.typ), rank, rank[k])) {
      if k != t {
        assert reg'[k] == reg[k];
      }
    }
  }

  /**
   * After RegisterValue, resolving the key runs the constant factory once,
   * returns the value and fills the slot with it; MustResolve then returns
   * the value when its dynamic type is the key.
   */
  lemma RegisteredValueResolves(reg: Registry, t: GoType, v: Value, call: Oracle, rank: map<GoType, nat>)
    requires Acyclic(reg, rank) && t in rank
    ensures var reg' := reg[t := Entry(Helpers.ValueFactory(t, v), Singleton, Nil)];
            Acyclic(reg', rank)
            && ResolveType(reg', t, call, rank) == Step(Ok(v), reg'[t := Entry(Helpers.ValueFactory(t, v), Singleton, v)], [t])
            && (AssertsTo(v, t) ==> Helpers.MustOutcome(ResolveType(reg', t, call, rank).result, t) == Helpers.Returned(v))
  {
    RegisteredValueCreated(reg, t, v, call, rank);
  }

  /** The resolution part of `RegisteredValueResolves`. */
  lemma RegisteredValueCreated(reg: Registry, t: GoType, v: Value, call: Oracle, rank: map<GoType, nat>)
    requires Acyclic(reg, rank) && t in rank
    ensures var reg' := reg[t := Entry(Helpers.ValueFactory(t, v), Singleton, Nil)];
            Acyclic(reg', rank)
            && ResolveType(reg', t, call, rank) == Step(Ok(v), reg'[t := Entry(Helpers.ValueFactory(t, v), Singleton, v)], [t])
  {
    var reg' := reg[t := Entry(Helpers.ValueFactory(t, v), Singleton, Nil)];
    AcyclicAfterRegister(reg, t, Entry(Helpers.ValueFactory(t, v), Singleton, Nil), rank);
    Inject.CreateInstanceUnfold(reg', t, call, rank);
    assert ResolveArgs(reg', [], RankOf(rank, t), call, rank) == Step(Ok([]), reg', []);
  }

  /**
   * A key registered through RegisterInterface resolves to what the inner
   * factory returns when called with the container; that value passes the
   * assertion of MustResolve when its dynamic type is the implementation
   * type.
   */
  lemma InterfaceRegistrationResolves(reg: Registry, iface: GoType, impl: GoType, inner: FactoryId, lifecycle: Lifecycle,
                                      call: Oracle, rank: map<GoType, nat>)
    requires Acyclic(reg, rank) && iface in rank && Helpers.Converts(impl, iface)
    ensures var reg' := reg[iface := Entry(Helpers.InterfaceFactory(iface, inner), lifecycle, Nil)];
            Acyclic(reg', rank)
            && var s := ResolveType(reg', iface, call, rank);
               var v := Invoke(call, inner, [Self]).first;
               s.result == Ok(v) && s.log == [iface]
               && (DynType(v) == Some(impl) ==> Helpers.MustOutcome(s.result, iface) == Helpers.Returned(v))
  {
    var e := Entry(Helpers.InterfaceFactory(iface, inner), lifecycle, Nil);
    var reg' := reg[iface := e];
    var ps := [ContainerPtr];
    var bound := RankOf(rank, iface);
    AcyclicAfterRegister(reg, iface, e, rank);
    Inject.CreateInstanceUnfold(reg', iface, call, rank);
    assert ps[..|ps| - 1] == [] && ps[|ps| - 1] == ContainerPtr;
    var none: seq<Value> := [];
    assert none + [Self] == [Self];
    assert ResolveArgs(reg', [], bound, call, rank) == Step(Ok([]), reg', []);
    assert Bind(reg', ContainerPtr, bound, call, rank) == Step(Ok(Self), reg', []);
    assert ResolveArgs(reg', ps, bound, call, rank) == Step(Ok([Self]), reg', []);
  }

  // ---------------------------------------------------------------------
  // Scenarios from the repository's tests
  // ---------------------------------------------------------------------

  const TestInterface: GoType := Iface("TestInterface", {"GetValue"})
  /** `TestImplementation` declares `GetValue` with a pointer receiver. */
  const TestImplementation: GoType := Named("TestImplementation", {}, {"GetValue"})
  const StringType: GoType := Named("string", {}, {})

  /**
   * The registration checks on the tests' types: only `*TestImplementation`
   * implements `TestInterface`; a `func() string` factory does not match the
   * key `TestImplementation`; a string is not a factory.
   */
  lemma RegistrationChecksOnTestTypes()
    ensures ValidateFactory(TestInterface, Func([], [Ptr(TestImplementation)])) == None
    ensures ValidateFactory(TestInterface, Func([], [TestImplementation]))
            == Some(DoesNotImplement(TestImplementation, TestInterface))
    ensures ValidateFactory(TestImplementation, Func([], [StringType])) == Some(DoesNotMatch(StringType, TestImplementation))
    ensures ValidateFactory(TestImplementation, StringType) == Some(NotAFunction)
    ensures ValidateFactory(TestImplementation, Func([], [Ptr(TestImplementation), StringType])) == Some(SecondNotError)
    ensures ValidateFactory(TestImplementation, Func([], [])) == Some(BadResultCount)
  {
    assert "GetValue" !in MethodSet(TestImplementation);
  }

  /** The registry after registering `func() (*TestImplementation, error)` under `TestImplementation`. */
  function FailingRegistry(lifecycle: Lifecycle): Registry
  {
    map[TestImplementation := Entry(Factory(Func([], [Ptr(TestImplementation), ErrorType]), UserFn(0)), lifecycle, Nil)]
  }

  /**
   * A factory's own error is returned unchanged, after the factory ran, and
   * the registry is left as it was, so resolving again runs the factory
   * again, whatever the lifecycle.
   */
  lemma FactoryErrorReturnedAndRetried(lifecycle: Lifecycle, call: Oracle, e: Value)
    requires call(0, []).second == e && e != Nil
    ensures var reg := FailingRegistry(lifecycle);
            Acyclic(reg, map[TestImplementation := 0])
            && ResolveType(reg, TestImplementation, call, map[TestImplementation := 0])
               == Step(Err(Reported(e)), reg, [TestImplementation])
  {
    var reg := FailingRegistry(lifecycle);
    var rank := map[TestImplementation := 0];
    assert ResolveArgs(reg, [], 0, call, rank) == Step(Ok([]), reg, []);
  }

  const Logger: GoType := Named("Logger", {}, {"Log"})
  const Service: GoType := Named("Service", {}, {})

  /**
   * A factory parameter of type `*Logger` is looked up as the key `*Logger`,
   * not stripped to `Logger`: with `Logger` registered through
   * `Register((*Logger)(nil), ...)`, the dependency is not found.
   */
  lemma PointerDependencyNotStripped(call: Oracle)
    ensures var reg := map[Logger := Entry(Factory(Func([], [Ptr(Logger)]), UserFn(0)), Singleton, Nil),
                           Service := Entry(Factory(Func([Ptr(Logger)], [Ptr(Service)]), UserFn(1)), Transient, Nil)];
            var rank := map[Logger := 0, Ptr(Logger) := 0, Service := 1];
            Acyclic(reg, rank)
            && ResolveType(reg, Service, call, rank)
               == Step(Err(DependencyFailed(Ptr(Logger), NotRegistered(Ptr(Logger)))), reg, [])
  {
    var reg := map[Logger := Entry(Factory(Func([], [Ptr(Logger)]), UserFn(0)), Singleton, Nil),
                   Service := Entry(Factory(Func([Ptr(Logger)], [Ptr(Service)]), UserFn(1)), Transient, Nil)];
    var rank := map[Logger := 0, Ptr(Logger) := 0, Service := 1];
    var ps := [Ptr(Logger)];
    assert Ptr(Logger) != ContainerPtr;
    assert Ptr(Logger) !in reg;
    assert ps[..0] == [];
    assert ResolveArgs(reg, [], 1, call, rank) == Step(Ok([]), reg, []);
    MissingDependencyReported(reg, Service, 0, call, rank);
  }
  const LoggerInterface: GoType := Iface("Logger", {"Log"})
  const UserService: GoType := Named("UserService", {}, {})

  const SharedRank: map<GoType, nat> := map[LoggerInterface := 0, UserService := 1]

  /** A Singleton `Logger` and a Transient `UserService` whose factory takes a `Logger`. */
  function SharedLoggerRegistry(): Registry
  {
    map[LoggerInterface := Entry(Factory(Func([], [LoggerInterface]), UserFn(1)), Singleton, Nil),
        UserService := Entry(Factory(Func([LoggerInterface], [Ptr(UserService)]), UserFn(2)), Transient, Nil)]
  }

  /** The first `Logger` resolution runs its factory and caches the result. */
  lemma LoggerCreatedOnce(call: Oracle)
    requires call(1, []).first != Nil
    ensures Acyclic(SharedLoggerRegistry(), SharedRank)
    ensures ResolveType(SharedLoggerRegistry(), LoggerInterface, call, SharedRank)
            == Step(Ok(call(1, []).first), SharedLoggerCached(call(1, []).first), [LoggerInterface])
  {
    var reg := SharedLoggerRegistry();
    Inject.CreateInstanceUnfold(reg, LoggerInterface, call, SharedRank);
    assert ResolveArgs(reg, [], 0, call, SharedRank) == Step(Ok([]), reg, []);
  }

  /**
   * The argument loop of a factory whose single parameter `p` is not
   * `*Container` hands it whatever resolving `p` returns.
   */
  lemma SingleDependencyArgs(reg: Registry, p: GoType, bound: nat, call: Oracle, rank: map<GoType, nat>,
                             v: Value, reg': Registry, log: seq<GoType>)
    requires Acyclic(reg, rank) && p != ContainerPtr && DepsBelow([p], rank, bound)
    requires ResolveType(reg, p, call, rank) == Step(Ok(v), reg', log)
    ensures ResolveArgs(reg, [p], bound, call, rank) == Step(Ok([v]), reg', log)
  {
    var ps := [p];
    assert ps[..|ps| - 1] == [] && ps[|ps| - 1] == p;
    var none: seq<Value> := [];
    assert none + [v] == [v];
    assert ResolveArgs(reg, [], bound, call, rank) == Step(Ok([]), reg, []);
    assert Bind(reg, p, bound, call, rank) == Step(Ok(v), reg', log);
  }

  /**
   * A Transient service whose factory has one result is what that factory
   * returns on the arguments the loop produced; the log ends with the key.
   */
  lemma TransientCreatedFrom(reg: Registry, t: GoType, call: Oracle, rank: map<GoType, nat>,
                             args: seq<Value>, reg': Registry, log: seq<GoType>)
    requires Acyclic(reg, rank) && t in reg && reg[t].lifecycle == Transient
    requires ResultCount(reg[t].factory.typ) == 1
    // implied by `Acyclic`; stated so that the next line is defined
    requires DepsBelow(Params(reg[t].factory.typ), rank, RankOf(rank, t))
    requires ResolveArgs(reg, Params(reg[t].factory.typ), RankOf(rank, t), call, rank) == Step(Ok(args), reg', log)
    ensures ResolveType(reg, t, call, rank)
            == Step(Ok(Invoke(call, reg[t].factory.id, args).first), reg', log + [t])
  {
    Inject.CreateInstanceUnfold(reg, t, call, rank);
  }

  /** The registry once the `Logger` slot holds `logger`. */
  function SharedLoggerCached(logger: Value): Registry
  {
    SharedLoggerRegistry()[LoggerInterface := SharedLoggerRegistry()[LoggerInterface].(instance := logger)]
  }

  /**
   * The first resolution of the Transient `UserService` runs the Singleton
   * `Logger` factory, caches the logger, then runs the `UserService`
   * factory with it.
   */
  lemma UserServiceFirstResolution(call: Oracle)
    requires call(1, []).first != Nil
    ensures Acyclic(SharedLoggerRegistry(), SharedRank)
    ensures ResolveType(SharedLoggerRegistry(), UserService, call, SharedRank)
            == Step(Ok(call(2, [call(1, []).first]).first), SharedLoggerCached(call(1, []).first), [LoggerInterface, UserService])
  {
    var logger := call(1, []).first;
    LoggerCreatedOnce(call);
    SingleDependencyArgs(SharedLoggerRegistry(), LoggerInterface, 1, call, SharedRank, logger, SharedLoggerCached(logger), [LoggerInterface]);
    TransientCreatedFrom(SharedLoggerRegistry(), UserService, call, SharedRank, [logger], SharedLoggerCached(logger), [LoggerInterface]);
    assert [LoggerInterface] + [UserService] == [LoggerInterface, UserService];
  }

  /**
   * Resolving `UserService` again runs only its own factory, which receives
   * the same cached logger: the Singleton is shared by both instances.
   */
  lemma UserServiceSecondResolution(call: Oracle, logger: Value)
    requires logger != Nil
    ensures Acyclic(SharedLoggerCached(logger), SharedRank)
    ensures ResolveType(SharedLoggerCached(logger), UserService, call, SharedRank)
            == Step(Ok(call(2, [logger]).first), SharedLoggerCached(logger), [UserService])
  {
    var reg1 := SharedLoggerCached(logger);
    assert Acyclic(reg1, SharedRank);
    assert ResolveType(reg1, LoggerInterface, call, SharedRank) == Step(Ok(logger), reg1, []);
    SingleDependencyArgs(reg1, LoggerInterface, 1, call, SharedRank, logger, reg1, []);
    TransientCreatedFrom(reg1, UserService, call, SharedRank, [logger], reg1, []);
    var noKeys: seq<GoType> := [];
    assert noKeys + [UserService] == [UserService];
  }

  // ---------------------------------------------------------------------
  // A dependency cycle cut by a filled Singleton slot
  // ---------------------------------------------------------------------

  const IA: GoType := Iface("IA", {"A"})
  const IB: GoType := Iface("IB", {"B"})

  /**
   * The registry after: register the Singleton `IA` with no parameters,
   * register the Singleton `IB` with a parameter `IA`, resolve `IB` (which
   * fills its slot with `b`), then register `IA` again, now with a
   * parameter `IB`. The factories form the cycle `IA -> IB -> IA`.
   */
  function CycleRegistry(b: Value): (reg: Registry)
    ensures reg.Keys == {IA, IB}
  {
    map[IA := Entry(Factory(Func([IB], [IA]), UserFn(3)), Singleton, Nil),
        IB := Entry(Factory(Func([IA], [IB]), UserFn(4)), Singleton, b)]
  }

  /**
   * Such a cycle satisfies `Acyclic` once `IB` is cached, and resolving `IA`
   * terminates: `IB`'s factory does not run and the cached `b` is passed to
   * `IA`'s factory, whose result fills `IA`'s slot.
   */
  lemma CachedSingletonCutsCycle(b: Value, call: Oracle)
    requires b != Nil
    ensures Acyclic(CycleRegistry(b), map[IB := 0, IA := 1])
    ensures var reg := CycleRegistry(b);
            var x := call(3, [b]).first;
            ResolveType(reg, IA, call, map[IB := 0, IA := 1]) == Step(Ok(x), reg[IA := reg[IA].(instance := x)], [IA])
  {
    var reg := CycleRegistry(b);
    var rank := map[IB := 0, IA := 1];
    assert Acyclic(reg, rank);
    assert ResolveType(reg, IB, call, rank) == Step(Ok(b), reg, []);
    SingleDependencyArgs(reg, IB, 1, call, rank, b, reg, []);
    Inject.CreateInstanceUnfold(reg, IA, call, rank);
    var none: seq<GoType> := [];
    assert none + [IA] == [IA];
  }
}
