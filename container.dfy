/**
 * The container of `container.go` as a class. Its map holds descriptor
 * objects whose instance slot the Singleton path writes in place. The
 * resolution methods are proved to compute what the `Resolution` functions
 * say of the abstract registry `Model()`; the registration methods are
 * proved against `ValidateFactory` and a map update; `Clear`, `Has`,
 * `GetServiceTypes` and `RegisterFunc`'s own checks state their results
 * directly. The ghost log `invoked` records, in order, the service key of
 * every factory call.
 */
module Inject {
  import opened Wrappers
  import opened GoTypes
  import opened Resolution

  /** `ServiceDescriptor`: set up at registration; only the instance slot changes afterwards. */
  class Descriptor {
    const serviceType: GoType
    const factory: Factory
    const lifecycle: Lifecycle
    var instance: Value

    constructor (serviceType: GoType, factory: Factory, lifecycle: Lifecycle)
      ensures this.serviceType == serviceType && this.factory == factory
      ensures this.lifecycle == lifecycle && instance == Nil
    {
      this.serviceType := serviceType;
      this.factory := factory;
      this.lifecycle := lifecycle;
      instance := Nil;
    }

    ghost function AsEntry(): Resolution.Entry
      reads this
    {
      Resolution.Entry(factory, lifecycle, instance)
    }
  }

  class Container {
    var services: map<GoType, Descriptor>
    ghost var invoked: seq<GoType>

    /** The descriptors as values. */
    ghost function Model(): Registry
      reads this`services, services.Values
    {
      map k | k in services :: services[k].AsEntry()
    }

    /**
     * Every descriptor records the key it is stored under (so no descriptor
     * is shared between keys), and the entries are those Register builds.
     */
    ghost predicate Valid()
      reads this`services, services.Values
    {
      (forall k | k in services :: services[k].serviceType == k) && WellFormed(Model())
    }

    /** `NewContainer`. */
    constructor ()
      ensures Valid() && services == map[] && Model() == map[] && invoked == []
    {
      services := map[];
      invoked := [];
    }

    /**
     * `Register`: validate the factory against the key (the service type
     * with one pointer level stripped) and, only if it passes, store a fresh
     * descriptor with an empty slot there, replacing any earlier one. The
     * factory is not called.
     */
    method Register(serviceType: GoType, factory: Factory, lifecycle: Lifecycle) returns (err: Option<Error>)
      requires Valid()
      modifies this`services
      ensures Valid()
      ensures err == ValidateFactory(Strip(serviceType), factory.typ)
      ensures err.Some? ==> services == old(services)
      ensures err.None? ==> Model() == old(Model())[Strip(serviceType) := Resolution.Entry(factory, lifecycle, Nil)]
      ensures err.None? ==> services.Keys == old(services.Keys) + {Strip(serviceType)}
      ensures err.None? ==> fresh(services[Strip(serviceType)]) && Has(serviceType)
      ensures forall k | k in old(services) && k != Strip(serviceType) :: k in services && services[k] == old(services[k])
    {
      var sType := Strip(serviceType);
      err := ValidateFactory(sType, factory.typ);
      if err.Some? {
        return;
      }
      var descriptor := new Descriptor(sType, factory, lifecycle);
      services := services[sType := descriptor];
      assert Model() == old(Model())[sType := descriptor.AsEntry()] by {
        forall k | k in services && k != sType ensures services[k] == old(services[k]) { }
      }
    }

    /** `RegisterSingleton`: Register with the Singleton lifecycle. */
    method RegisterSingleton(serviceType: GoType, factory: Factory) returns (err: Option<Error>)
      requires Valid()
      modifies this`services
      ensures Valid()
      ensures err == ValidateFactory(Strip(serviceType), factory.typ)
      ensures err.Some? ==> services == old(services)
      ensures err.None? ==> Model() == old(Model())[Strip(serviceType) := Resolution.Entry(factory, Singleton, Nil)]
      ensures err.None? ==> services.Keys == old(services.Keys) + {Strip(serviceType)}
      ensures err.None? ==> fresh(services[Strip(serviceType)]) && Has(serviceType)
      ensures forall k | k in old(services) && k != Strip(serviceType) :: k in services && services[k] == old(services[k])
    {
      err := Register(serviceType, factory, Singleton);
    }

    /** `RegisterTransient`: Register with the Transient lifecycle. */
    method RegisterTransient(serviceType: GoType, factory: Factory) returns (err: Option<Error>)
      requires Valid()
      modifies this`services
      ensures Valid()
      ensures err == ValidateFactory(Strip(serviceType), factory.typ)
      ensures err.Some? ==> services == old(services)
      ensures err.None? ==> Model() == old(Model())[Strip(serviceType) := Resolution.Entry(factory, Transient, Nil)]
      ensures err.None? ==> services.Keys == old(services.Keys) + {Strip(serviceType)}
      ensures err.None? ==> fresh(services[Strip(serviceType)]) && Has(serviceType)
      ensures forall k | k in old(services) && k != Strip(serviceType) :: k in services && services[k] == old(services[k])
    {
      err := Register(serviceType, factory, Transient);
    }

    /**
     * `Resolve`: strip one pointer level as Register does and resolve the
     * key. `rank` witnesses that the dependency graph has no cycle.
     */
    method Resolve(serviceType: GoType, call: Oracle, ghost rank: map<GoType, nat>) returns (r: Result<Value, Error>)
      requires Valid() && Acyclic(Model(), rank)
      modifies this`invoked, services.Values
      ensures Valid()
      ensures var s := Resolution.ResolveType(old(Model()), Strip(serviceType), call, rank);
              r == s.result && Model() == s.reg && invoked == old(invoked) + s.log
    {
      r := ResolveType(Strip(serviceType), call, rank);
    }

    /** `resolveType`. */
    method ResolveType(t: GoType, call: Oracle, ghost rank: map<GoType, nat>) returns (r: Result<Value, Error>)
      requires Valid() && Acyclic(Model(), rank)
      modifies this`invoked, services.Values
      decreases RankOf(rank, t), 2, 0
      ensures Valid()
      ensures var s := Resolution.ResolveType(old(Model()), t, call, rank);
              r == s.result && Model() == s.reg && invoked == old(invoked) + s.log
    {
      if t !in services {
        return Err(NotRegistered(t));
      }
      ghost var reg0 := Model();
      var descriptor := services[t];
      assert descriptor.AsEntry() == reg0[t];
      if descriptor.lifecycle == Singleton {
        if descriptor.instance != Nil {
          return Ok(descriptor.instance);
        }
        var created := CreateInstance(descriptor, call, rank);
        ghost var c := Resolution.CreateInstance(reg0, t, call, rank);
        assert Resolution.ResolveType(reg0, t, call, rank) ==
               if c.result.Ok? then Step(c.result, c.reg[t := c.reg[t].(instance := c.result.value)], c.log) else c;
        if created.Err? {
          return Err(created.error);
        }
        Store(descriptor, created.value);
        return created;
      }
      r := CreateInstance(descriptor, call, rank);
    }

    /** `descriptor.instance = instance`: fill the slot of one Singleton descriptor. */
    method Store(descriptor: Descriptor, v: Value)
      requires Valid() && descriptor.serviceType in services && services[descriptor.serviceType] == descriptor
      requires descriptor.lifecycle == Singleton
      modifies descriptor
      ensures Valid()
      ensures Model() == old(Model())[descriptor.serviceType := old(Model())[descriptor.serviceType].(instance := v)]
    {
      ghost var t := descriptor.serviceType;
      StoreKeepsWellFormed(Model(), t, v);
      descriptor.instance := v;
      assert Model() == old(Model())[t := old(Model())[t].(instance := v)] by {
        forall k | k in services && k != t ensures services[k] != descriptor { }
      }
    }

    /**
     * `createInstance`: bind the arguments, stopping at the first dependency
     * that fails, then call the factory once.
     */
    method CreateInstance(descriptor: Descriptor, call: Oracle, ghost rank: map<GoType, nat>) returns (r: Result<Value, Error>)
      requires Valid() && Acyclic(Model(), rank)
      requires descriptor.serviceType in services && services[descriptor.serviceType] == descriptor
      requires !Cached(Model(), descriptor.serviceType)
      modifies this`invoked, services.Values
      decreases RankOf(rank, descriptor.serviceType), 1, 0
      ensures Valid()
      ensures var s := Resolution.CreateInstance(old(Model()), descriptor.serviceType, call, rank);
              r == s.result && Model() == s.reg && invoked == old(invoked) + s.log
    {
      ghost var t := descriptor.serviceType;
      ghost var reg0 := Model();
      assert reg0[t].factory == descriptor.factory;
      ghost var a := ResolveArgs(reg0, Params(descriptor.factory.typ), RankOf(rank, t), call, rank);
      CreateInstanceUnfold(reg0, t, call, rank);
      var args := BindArguments(descriptor, call, rank);
      if args.Err? {
        r := Err(args.error);
      } else {
        AppendAssoc(old(invoked), a.log, [t]);
        var results := Invoke(call, descriptor.factory.id, args.value);
        invoked := invoked + [t];
        if ResultCount(descriptor.factory.typ) == 2 && results.second != Nil {
          r := Err(Reported(results.second));
        } else {
          r := Ok(results.first);
        }
      }
    }

    /**
     * The argument loop of `createInstance`: `*Container` binds to the
     * container, every other parameter type is resolved exactly as it is
     * (no pointer stripping), and the first failure ends the loop, wrapped
     * with the parameter's type.
     */
    method BindArguments(descriptor: Descriptor, call: Oracle, ghost rank: map<GoType, nat>)
      returns (r: Result<seq<Value>, Error>)
      requires Valid() && Acyclic(Model(), rank)
      requires descriptor.serviceType in services && services[descriptor.serviceType] == descriptor
      requires !Cached(Model(), descriptor.serviceType)
      modifies this`invoked, services.Values
      decreases RankOf(rank, descriptor.serviceType), 0, 1
      ensures Valid()
      ensures var s := ResolveArgs(old(Model()), Params(descriptor.factory.typ), RankOf(rank, descriptor.serviceType), call, rank);
              r == s.result && Model() == s.reg && invoked == old(invoked) + s.log
    {
      ghost var reg0 := Model();
      ghost var bound := RankOf(rank, descriptor.serviceType);
      var ps := Params(descriptor.factory.typ);
      var args: seq<Value> := [];
      var i := 0;
      assert reg0[descriptor.serviceType].factory == descriptor.factory;
      assert Acyclic(reg0, rank) && DepsBelow(ps, rank, bound);
      DepsBelowPrefix(ps, 0, rank, bound);
      while i < |ps|
        invariant 0 <= i <= |ps|
        invariant Acyclic(reg0, rank) && DepsBelow(ps, rank, bound)
        invariant Valid() && Acyclic(Model(), rank) && DepsBelow(ps[..i], rank, bound)
        invariant var a := ResolveArgs(reg0, ps[..i], bound, call, rank);
                  |args| == i && a.result == Ok(args) && Model() == a.reg && invoked == old(invoked) + a.log
      {
        var argType := ps[i];
        ghost var a := ResolveArgs(reg0, ps[..i], bound, call, rank);
        ArgsStep(reg0, ps, i, bound, call, rank);
        ghost var b := Bind(a.reg, argType, bound, call, rank);
        var arg := BindArgument(argType, call, rank, bound);
        AppendAssoc(old(invoked), a.log, b.log);
        if arg.Err? {
          ArgsFailureSticks(reg0, ps, i + 1, bound, call, rank);
          return Err(arg.error);
        }
        args := args + [arg.value];
        AcyclicKept(reg0, Model(), rank);
        DepsBelowPrefix(ps, i + 1, rank, bound);
        i := i + 1;
      }
      assert ps[..i] == ps;
      return Ok(args);
    }

    /** The body of the argument loop of `createInstance`, for one parameter type. */
    method BindArgument(argType: GoType, call: Oracle, ghost rank: map<GoType, nat>, ghost bound: nat)
      returns (r: Result<Value, Error>)
      requires Valid() && Acyclic(Model(), rank) && DepsBelow([argType], rank, bound)
      modifies this`invoked, services.Values
      decreases bound, 0, 0
      ensures Valid()
      ensures var s := Bind(old(Model()), argType, bound, call, rank);
              r == s.result && Model() == s.reg && invoked == old(invoked) + s.log
    {
      if argType == ContainerPtr {
        return Ok(Self);
      }
      assert argType in [argType];
      var arg := ResolveType(argType, call, rank);
      if arg.Err? {
        return Err(DependencyFailed(argType, arg.error));
      }
      return arg;
    }

    /** `Clear`: replace the map with an empty one. */
    method Clear()
      modifies this`services
      ensures Valid() && services == map[] && Model() == map[]
      ensures forall t :: !Has(t)
    {
      services := map[];
    }

    /** `Has`: whether the key for `serviceType`, one pointer level stripped, is registered. */
    function Has(serviceType: GoType): (b: bool)
      reads this
      ensures b <==> Strip(serviceType) in services
    {
      Strip(serviceType) in services
    }

    /**
     * `RegisterFunc`: check that the factory is a function with at least one
     * result, then register it under its first result type exactly (Register
     * strips the pointer that `reflect.New` adds). Both branches of the
     * interface test do the same.
     */
    method RegisterFunc(factory: Factory, lifecycle: Lifecycle) returns (err: Option<Error>)
      requires Valid()
      modifies this`services
      ensures Valid()
      ensures !factory.typ.Func? ==> err == Some(NotAFunction)
      ensures factory.typ.Func? && factory.typ.outs == [] ==> err == Some(NoResults)
      ensures factory.typ.Func? && factory.typ.outs != [] ==> err == ValidateFactory(factory.typ.outs[0], factory.typ)
      ensures err.Some? ==> services == old(services)
      ensures err.None? ==> Model() == old(Model())[factory.typ.outs[0] := Resolution.Entry(factory, lifecycle, Nil)]
      ensures err.None? ==> services.Keys == old(services.Keys) + {factory.typ.outs[0]}
      ensures err.None? ==> fresh(services[factory.typ.outs[0]]) && Has(Ptr(factory.typ.outs[0]))
      ensures factory.typ.Func? && factory.typ.outs != [] ==>
                forall k | k in old(services) && k != factory.typ.outs[0] :: k in services && services[k] == old(services[k])
    {
      var factoryType := factory.typ;
      if !factoryType.Func? {
        return Some(NotAFunction);
      }
      if |factoryType.outs| == 0 {
        return Some(NoResults);
      }
      var returnType := factoryType.outs[0];
      if returnType.Iface? {
        err := Register(Ptr(returnType), factory, lifecycle);
        return;
      }
      err := Register(Ptr(returnType), factory, lifecycle);
    }

    /**
     * `GetServiceTypes`: every registered key exactly once, in the
     * unspecified order of Go's map iteration.
     */
    method GetServiceTypes() returns (types: seq<GoType>)
      ensures |types| == |services|
      ensures forall t :: t in types <==> t in services
      ensures forall i, j | 0 <= i < j < |types| :: types[i] != types[j]
    {
      types := [];
      var remaining := services.Keys;
      while remaining != {}
        invariant remaining <= services.Keys
        invariant forall t :: t in types <==> t in services && t !in remaining
        invariant forall i, j | 0 <= i < j < |types| :: types[i] != types[j]
        invariant |types| + |remaining| == |services|
        decreases |remaining|
      {
        var serviceType :| serviceType in remaining;
        types := types + [serviceType];
        remaining := remaining - {serviceType};
      }
    }
  }

  /**
   * The definition of `Resolution.CreateInstance`, spelled out. A proof
   * helper only: calling it hands the solver the unfolded definition.
   */
  lemma CreateInstanceUnfold(reg: Registry, t: GoType, call: Oracle, rank: map<GoType, nat>)
    requires Acyclic(reg, rank) && t in reg && !Cached(reg, t)
    ensures DepsBelow(Params(reg[t].factory.typ), rank, RankOf(rank, t))
    ensures var f := reg[t].factory;
            var a := ResolveArgs(reg, Params(f.typ), RankOf(rank, t), call, rank);
            var out := Invoke(call, f.id, if a.result.Ok? then a.result.value else []);
            Resolution.CreateInstance(reg, t, call, rank) ==
              if a.result.Err? then Step(Err(a.result.error), a.reg, a.log)
              else if ResultCount(f.typ) == 2 && out.second != Nil then Step(Err(Reported(out.second)), a.reg, a.log + [t])
              else Step(Ok(out.first), a.reg, a.log + [t])
  {
  }

  /** A proof helper only: associativity of `+`, stated for the log appends. */
  lemma AppendAssoc<T>(x: seq<T>, y: seq<T>, z: seq<T>)
    ensures x + y + z == x + (y + z)
  {
  }

  /** A proof helper only: a prefix of a parameter list ranks below the same bound. */
  lemma DepsBelowPrefix(ps: seq<GoType>, i: nat, rank: map<GoType, nat>, bound: nat)
    requires DepsBelow(ps, rank, bound) && i <= |ps|
    ensures DepsBelow(ps[..i], rank, bound)
  {
    forall p | p in ps[..i] && p != ContainerPtr ensures p in rank && rank[p] < bound {
      var j :| 0 <= j < i && ps[..i][j] == p;
      assert ps[j] == p;
    }
  }

  /** One turn of the argument loop. */
  lemma ArgsStep(reg: Registry, ps: seq<GoType>, i: nat, bound: nat, call: Oracle, rank: map<GoType, nat>)
    requires Acyclic(reg, rank) && DepsBelow(ps, rank, bound) && i < |ps|
    ensures DepsBelow(ps[..i], rank, bound) && DepsBelow([ps[i]], rank, bound)
    ensures var a := ResolveArgs(reg, ps[..i], bound, call, rank);
            var a' := ResolveArgs(reg, ps[..i + 1], bound, call, rank);
            Acyclic(a.reg, rank)
            && (a.result.Err? ==> a' == a)
            && (a.result.Ok? ==>
                  var b := Bind(a.reg, ps[i], bound, call, rank);
                  a' == if b.result.Err? then Step(Err(b.result.error), b.reg, a.log + b.log)
                        else Step(Ok(a.result.value + [b.result.value]), b.reg, a.log + b.log))
  {
    DepsBelowPrefix(ps, i, rank, bound);
    DepsBelowPrefix(ps, i + 1, rank, bound);
    var a := ResolveArgs(reg, ps[..i], bound, call, rank);
    AcyclicKept(reg, a.reg, rank);
    assert ps[..i + 1][..i] == ps[..i];
    assert ps[..i + 1][i] == ps[i];
  }

  /** Once the argument loop fails on a prefix, it fails the same way on every longer prefix. */
  lemma {:induction false} ArgsFailureSticks(reg: Registry, ps: seq<GoType>, j: nat, bound: nat, call: Oracle, rank: map<GoType, nat>)
    requires Acyclic(reg, rank) && DepsBelow(ps, rank, bound) && j <= |ps|
    requires ResolveArgs(reg, ps[..j], bound, call, rank).result.Err?
    ensures ResolveArgs(reg, ps, bound, call, rank) == ResolveArgs(reg, ps[..j], bound, call, rank)
    decreases |ps| - j
  {
    if j < |ps| {
      assert ps[..j + 1][..j] == ps[..j];
      ArgsFailureSticks(reg, ps, j + 1, bound, call, rank);
    } else {
      assert ps[..j] == ps;
    }
  }
}
