/**
 * The generic helpers of `helpers.go`. A Go type parameter `T` becomes a
 * `GoType` argument; the helpers pass `(*T)(nil)`, whose type is `Ptr(T)`,
 * so that Register and Resolve strip it back to the key `T`. A Go panic in a
 * helper is the outcome `Panicked`.
 */
module Helpers {
  import opened Wrappers
  import opened GoTypes
  import opened Resolution
  import opened Inject

  /** Why a helper panics: a failed resolution, or a failed type assertion `result.(T)`. */
  datatype Panic = ResolveFailed(err: Error) | FailedAssertion(v: Value, want: GoType)

  datatype Outcome<T> = Returned(value: T) | Panicked(reason: Panic)

  /** What `MustResolve[T]` ends with, given the resolution's result. */
  function MustOutcome(r: Result<Value, Error>, t: GoType): (o: Outcome<Value>)
    ensures o.Returned? <==> r.Ok? && AssertsTo(r.value, t)
    ensures o.Returned? ==> o.value == r.value
    ensures r.Err? ==> o == Panicked(ResolveFailed(r.error))
  {
    if r.Err? then Panicked(ResolveFailed(r.error))
    else if AssertsTo(r.value, t) then Returned(r.value)
    else Panicked(FailedAssertion(r.value, t))
  }

  /** What `TryResolve[T]` ends with: any error becomes `(zero, false)`. */
  function TryOutcome(r: Result<Value, Error>, t: GoType): (o: Outcome<(Value, bool)>)
    ensures r.Err? ==> o == Returned((Zero(t), false))
    ensures r.Ok? && AssertsTo(r.value, t) ==> o == Returned((r.value, true))
    ensures o.Panicked? <==> r.Ok? && !AssertsTo(r.value, t)
  {
    if r.Err? then Returned((Zero(t), false))
    else if AssertsTo(r.value, t) then Returned((r.value, true))
    else Panicked(FailedAssertion(r.value, t))
  }

  /** `MustResolve[T]`: resolve the key `T`; panic on any error. */
  method MustResolve(c: Container, t: GoType, call: Oracle, ghost rank: map<GoType, nat>) returns (o: Outcome<Value>)
    requires c.Valid() && Acyclic(c.Model(), rank)
    modifies c`invoked, c.services.Values
    ensures c.Valid()
    ensures var s := Resolution.ResolveType(old(c.Model()), t, call, rank);
            o == MustOutcome(s.result, t) && c.Model() == s.reg && c.invoked == old(c.invoked) + s.log
  {
    var result := c.Resolve(Ptr(t), call, rank);
    if result.Err? {
      return Panicked(ResolveFailed(result.error));
    }
    if !AssertsTo(result.value, t) {
      return Panicked(FailedAssertion(result.value, t));
    }
    return Returned(result.value);
  }

  /** `TryResolve[T]`: resolve the key `T`; report failure as `(zero, false)`. */
  method TryResolve(c: Container, t: GoType, call: Oracle, ghost rank: map<GoType, nat>) returns (o: Outcome<(Value, bool)>)
    requires c.Valid() && Acyclic(c.Model(), rank)
    modifies c`invoked, c.services.Values
    ensures c.Valid()
    ensures var s := Resolution.ResolveType(old(c.Model()), t, call, rank);
            o == TryOutcome(s.result, t) && c.Model() == s.reg && c.invoked == old(c.invoked) + s.log
  {
    var result := c.Resolve(Ptr(t), call, rank);
    if result.Err? {
      return Returned((Zero(t), false));
    }
    if !AssertsTo(result.value, t) {
      return Panicked(FailedAssertion(result.value, t));
    }
    return Returned((result.value, true));
  }

  /**
   * The assertion `any(impl).(TInterface)` in the wrapper of
   * RegisterInterface succeeds for every value a factory of the concrete type
   * `impl` returns.
   */
  predicate Converts(impl: GoType, iface: GoType)
  {
    !impl.Iface? && if iface.Iface? then Implements(impl, iface) else impl == iface
  }

  /** The wrapper factory `func(c *Container) TInterface` that RegisterInterface registers. */
  function InterfaceFactory(iface: GoType, inner: FactoryId): (f: Factory)
    ensures ValidateFactory(iface, f.typ) == None && Params(f.typ) == [ContainerPtr]
  {
    CompatibleReflexive(iface);
    Factory(Func([ContainerPtr], [iface]), Converted(inner))
  }

  /** The factory `func(*Container) T` that RegisterType passes through. */
  function TypeFactory(t: GoType, inner: FactoryId): (f: Factory)
    ensures ValidateFactory(t, f.typ) == None && Params(f.typ) == [ContainerPtr]
  {
    CompatibleReflexive(t);
    Factory(Func([ContainerPtr], [t]), inner)
  }

  /** The closure `func() T { return value }` that RegisterValue registers. */
  function ValueFactory(t: GoType, v: Value): (f: Factory)
    ensures ValidateFactory(t, f.typ) == None && Params(f.typ) == []
  {
    CompatibleReflexive(t);
    Factory(Func([], [t]), Constant(v))
  }

  /**
   * `RegisterInterface[TInterface, TImplementation]`: register, under
   * `TInterface`, a wrapper with one `*Container` parameter that converts
   * the implementation's value to the interface. The check of Register
   * always passes for it. `Converts(impl, iface)` is not a check Go makes at
   * registration: without it, the assertion in the wrapper (helpers.go:29)
   * would panic each time the key is resolved, which is not modelled.
   */
  method RegisterInterface(c: Container, iface: GoType, impl: GoType, inner: FactoryId, lifecycle: Lifecycle)
    returns (err: Option<Error>)
    requires c.Valid() && Converts(impl, iface)
    modifies c`services
    ensures c.Valid() && err == None
    ensures c.Model() == old(c.Model())[iface := Entry(InterfaceFactory(iface, inner), lifecycle, Nil)]
    ensures c.services.Keys == old(c.services.Keys) + {iface}
    ensures fresh(c.services[iface]) && c.Has(Ptr(iface))
    ensures forall k | k in old(c.services) && k != iface :: k in c.services && c.services[k] == old(c.services[k])
  {
    err := c.Register(Ptr(iface), InterfaceFactory(iface, inner), lifecycle);
  }

  /** `RegisterSingletonInterface`. */
  method RegisterSingletonInterface(c: Container, iface: GoType, impl: GoType, inner: FactoryId)
    returns (err: Option<Error>)
    requires c.Valid() && Converts(impl, iface)
    modifies c`services
    ensures c.Valid() && err == None
    ensures c.Model() == old(c.Model())[iface := Entry(InterfaceFactory(iface, inner), Singleton, Nil)]
    ensures c.services.Keys == old(c.services.Keys) + {iface}
    ensures fresh(c.services[iface]) && c.Has(Ptr(iface))
    ensures forall k | k in old(c.services) && k != iface :: k in c.services && c.services[k] == old(c.services[k])
  {
    err := RegisterInterface(c, iface, impl, inner, Singleton);
  }

  /** `RegisterTransientInterface`. */
  method RegisterTransientInterface(c: Container, iface: GoType, impl: GoType, inner: FactoryId)
    returns (err: Option<Error>)
    requires c.Valid() && Converts(impl, iface)
    modifies c`services
    ensures c.Valid() && err == None
    ensures c.Model() == old(c.Model())[iface := Entry(InterfaceFactory(iface, inner), Transient, Nil)]
    ensures c.services.Keys == old(c.services.Keys) + {iface}
    ensures fresh(c.services[iface]) && c.Has(Ptr(iface))
    ensures forall k | k in old(c.services) && k != iface :: k in c.services && c.services[k] == old(c.services[k])
  {
    err := RegisterInterface(c, iface, impl, inner, Transient);
  }

  /** `RegisterType[T]`: register `func(*Container) T` under `T`; the check always passes. */
  method RegisterType(c: Container, t: GoType, inner: FactoryId, lifecycle: Lifecycle) returns (err: Option<Error>)
    requires c.Valid()
    modifies c`services
    ensures c.Valid() && err == None
    ensures c.Model() == old(c.Model())[t := Entry(TypeFactory(t, inner), lifecycle, Nil)]
    ensures c.services.Keys == old(c.services.Keys) + {t}
    ensures fresh(c.services[t]) && c.Has(Ptr(t))
    ensures forall k | k in old(c.services) && k != t :: k in c.services && c.services[k] == old(c.services[k])
  {
    err := c.Register(Ptr(t), TypeFactory(t, inner), lifecycle);
  }

  /** `RegisterSingletonType[T]`. */
  method RegisterSingletonType(c: Container, t: GoType, inner: FactoryId) returns (err: Option<Error>)
    requires c.Valid()
    modifies c`services
    ensures c.Valid() && err == None
    ensures c.Model() == old(c.Model())[t := Entry(TypeFactory(t, inner), Singleton, Nil)]
    ensures c.services.Keys == old(c.services.Keys) + {t}
    ensures fresh(c.services[t]) && c.Has(Ptr(t))
    ensures forall k | k in old(c.services) && k != t :: k in c.services && c.services[k] == old(c.services[k])
  {
    err := RegisterType(c, t, inner, Singleton);
  }

  /** `RegisterTransientType[T]`. */
  method RegisterTransientType(c: Container, t: GoType, inner: FactoryId) returns (err: Option<Error>)
    requires c.Valid()
    modifies c`services
    ensures c.Valid() && err == None
    ensures c.Model() == old(c.Model())[t := Entry(TypeFactory(t, inner), Transient, Nil)]
    ensures c.services.Keys == old(c.services.Keys) + {t}
    ensures fresh(c.services[t]) && c.Has(Ptr(t))
    ensures forall k | k in old(c.services) && k != t :: k in c.services && c.services[k] == old(c.services[k])
  {
    err := RegisterType(c, t, inner, Transient);
  }

  /**
   * `RegisterValue[T]`: register, as a Singleton under `T`, a zero-argument
   * factory that returns `v`; the check always passes.
   */
  method RegisterValue(c: Container, t: GoType, v: Value) returns (err: Option<Error>)
    requires c.Valid()
    modifies c`services
    ensures c.Valid() && err == None
    ensures c.Model() == old(c.Model())[t := Entry(ValueFactory(t, v), Singleton, Nil)]
    ensures c.services.Keys == old(c.services.Keys) + {t}
    ensures fresh(c.services[t]) && c.Has(Ptr(t))
    ensures forall k | k in old(c.services) && k != t :: k in c.services && c.services[k] == old(c.services[k])
  {
    err := c.RegisterSingleton(Ptr(t), ValueFactory(t, v));
  }
}
