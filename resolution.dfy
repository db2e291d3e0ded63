/**
 * The container's registration check and resolution engine as pure
 * functions over a registry value. The `Inject.Container` class is proved to
 * behave exactly as these functions say; the lemmas in `properties.dfy` state
 * what the engine guarantees.
 */
module Resolution {
  import opened Wrappers
  import opened GoTypes

  datatype Lifecycle = Transient | Singleton

  /**
   * What a factory is, as far as the container ever calls it: a user
   * function (an opaque callee, numbered), the zero-argument closure that
   * `RegisterValue` builds around a value, or the closure that
   * `RegisterInterface` builds around a user factory.
   */
  datatype FactoryId = UserFn(n: nat) | Constant(v: Value) | Converted(inner: FactoryId)

  /** A factory value: its Go type (any type: a non-function is rejected) and what it calls. */
  datatype Factory = Factory(typ: GoType, id: FactoryId)

  /** The kinds of error the container reports, with the types they name. */
  datatype Error =
    | NotAFunction                                    // "factory must be a function"
    | BadResultCount                                  // "... must return 1 or 2 values ..."
    | SecondNotError                                  // "second return value must be an error"
    | DoesNotImplement(ret: GoType, service: GoType)  // "... does not implement interface ..."
    | DoesNotMatch(ret: GoType, service: GoType)      // "... does not match service type ..."
    | NotRegistered(service: GoType)                  // "service of type %s not registered"
    | DependencyFailed(dependency: GoType, cause: Error) // "failed to resolve dependency %s: %w"
    | Reported(err: Value)                            // the factory's own error, unwrapped
    | NoResults                                       // "... must return at least one value"

  /**
   * The two results of a factory call; `second` is ignored for a
   * one-result factory. `second == Nil` stands for `results[1].IsNil()`,
   * which tests the value of the declared result type: a nil `*MyErr`
   * counts as no error, unlike a typed nil pointer held in an `interface{}`.
   */
  datatype Output = Output(first: Value, second: Value)

  /** The behaviour of the user factories: what `reflect.Value.Call` returns. */
  type Oracle = (nat, seq<Value>) -> Output

  /** The factory a chain of `RegisterInterface` wrappers ends in. */
  function Base(id: FactoryId): (b: FactoryId)
    ensures !b.Converted?
  {
    if id.Converted? then Base(id.inner) else id
  }

  /**
   * Calling a factory with its bound arguments. The wrappers the helpers
   * build never return an error, and the value returned is the one the
   * innermost factory returns.
   */
  function Invoke(call: Oracle, id: FactoryId, args: seq<Value>): (o: Output)
    ensures !id.UserFn? ==> o.second == Nil
    ensures Base(id).UserFn? ==> o.first == call(Base(id).n, args).first
    ensures Base(id).Constant? ==> o.first == Base(id).v
  {
    match id
    case UserFn(n) => call(n, args)
    case Constant(v) => Output(v, Nil)
    // `impl := factory(c); return any(impl).(TInterface)`: the inner factory
    // returns one value, and the conversion keeps its dynamic type
    case Converted(inner) => Output(Invoke(call, inner, args).first, Nil)
  }

  // ---------------------------------------------------------------------
  // Registration check
  // ---------------------------------------------------------------------

  /**
   * The compatibility rule between a factory's first result type `ret` and
   * the (stripped) service key: an interface key must be implemented; a
   * concrete key must be equal to `ret`, or `ret` points to it, or it points
   * to `ret`.
   */
  predicate Compatible(ret: GoType, service: GoType)
  {
    if service.Iface? then Implements(ret, service)
    else ret == service || ret == Ptr(service) || service == Ptr(ret)
  }

  /**
   * The shape every stored factory has: a function with one or two results,
   * the second of a type that implements `error`.
   */
  predicate WellFormedFactory(ft: GoType)
  {
    ft.Func? && (|ft.outs| == 1 || |ft.outs| == 2)
    && (|ft.outs| == 2 ==> Implements(ft.outs[1], ErrorType))
  }

  /** The compatibility check of Register, with the error it reports. */
  function CheckCompatible(ret: GoType, service: GoType): (e: Option<Error>)
    ensures e.None? <==> Compatible(ret, service)
    ensures e.Some? && service.Iface? ==> e.value == DoesNotImplement(ret, service)
    ensures e.Some? && !service.Iface? ==> e.value == DoesNotMatch(ret, service)
  {
    if service.Iface? then
      if !Implements(ret, service) then Some(DoesNotImplement(ret, service)) else None
    else if ret != service then
      if ret.Ptr? && ret.elem == service then None           // pointer to the service type
      else if service.Ptr? && service.elem == ret then None  // value of a pointer service type
      else Some(DoesNotMatch(ret, service))
    else None
  }

  /**
   * The checks of Register, in the order the code makes them. The first one
   * that fails decides the error.
   */
  function ValidateFactory(service: GoType, ft: GoType): (e: Option<Error>)
    ensures e.None? <==> WellFormedFactory(ft) && Compatible(ft.outs[0], service)
    ensures !ft.Func? ==> e == Some(NotAFunction)
    ensures ft.Func? && |ft.outs| != 1 && |ft.outs| != 2 ==> e == Some(BadResultCount)
    ensures ft.Func? && |ft.outs| == 2 && !Implements(ft.outs[1], ErrorType) ==> e == Some(SecondNotError)
    ensures WellFormedFactory(ft) && !Compatible(ft.outs[0], service) ==>
              e == Some(if service.Iface? then DoesNotImplement(ft.outs[0], service)
                        else DoesNotMatch(ft.outs[0], service))
  {
    if !ft.Func? then Some(NotAFunction)
    else if |ft.outs| != 1 && |ft.outs| != 2 then Some(BadResultCount)
    else if |ft.outs| == 2 && !Implements(ft.outs[1], ErrorType) then Some(SecondNotError)
    else CheckCompatible(ft.outs[0], service)
  }

  // ---------------------------------------------------------------------
  // Registry state
  // ---------------------------------------------------------------------

  /** A service descriptor as a value: factory, lifecycle and cached instance slot. */
  datatype Entry = Entry(factory: Factory, lifecycle: Lifecycle, instance: Value)

  type Registry = map<GoType, Entry>

  /**
   * What Register guarantees of every entry: a well-formed factory whose
   * first result is compatible with the key, and an empty slot for a
   * Transient service (only Singleton resolution writes the slot).
   */
  predicate WellFormed(reg: Registry)
  {
    forall k | k in reg ::
      WellFormedFactory(reg[k].factory.typ) && Compatible(reg[k].factory.typ.outs[0], k)
      && (reg[k].lifecycle == Transient ==> reg[k].instance == Nil)
  }

  /** The slot of `t` holds a reusable instance. */
  predicate Cached(reg: Registry, t: GoType)
    requires t in reg
  {
    reg[t].lifecycle == Singleton && reg[t].instance != Nil
  }

  /** A factory's parameter types (`NumIn`/`In`). */
  function Params(ft: GoType): seq<GoType>
  {
    if ft.Func? then ft.ins else []
  }

  /** A factory's result count (`NumOut`). */
  function ResultCount(ft: GoType): nat
  {
    if ft.Func? then |ft.outs| else 0
  }

  function RankOf(rank: map<GoType, nat>, t: GoType): nat
  {
    if t in rank then rank[t] else 0
  }

  /** Every parameter that is resolved (all but `*Container`) ranks below `bound`. */
  predicate DepsBelow(ps: seq<GoType>, rank: map<GoType, nat>, bound: nat)
  {
    forall p | p in ps && p != ContainerPtr :: p in rank && rank[p] < bound
  }

  /**
   * The dependency graph of the entries that resolution may still create
   * has no cycle: `rank` ranks every key, and every parameter of an entry
   * without a filled Singleton slot ranks below that entry's key. A filled
   * slot is returned without looking at its factory, so its edges do not
   * count.
   */
  predicate Acyclic(reg: Registry, rank: map<GoType, nat>)
  {
    forall k | k in reg :: k in rank && (!Cached(reg, k) ==> DepsBelow(Params(reg[k].factory.typ), rank, rank[k]))
  }

  /** Two registries with the same keys, factories and lifecycles; only slots may differ. */
  predicate SameShape(reg: Registry, reg': Registry)
  {
    reg'.Keys == reg.Keys
    && forall k | k in reg :: reg'[k].factory == reg[k].factory && reg'[k].lifecycle == reg[k].lifecycle
  }

  /** Every filled Singleton slot of `reg` holds the same instance in `reg'`. */
  predicate KeepsCache(reg: Registry, reg': Registry)
  {
    forall k | k in reg && k in reg' && reg[k].instance != Nil :: reg'[k].instance == reg[k].instance
  }

  /** Every Transient slot of `reg` is left as it was. */
  predicate TransientSlotsKept(reg: Registry, reg': Registry)
  {
    forall k | k in reg && k in reg' && reg[k].lifecycle == Transient :: reg'[k].instance == reg[k].instance
  }

  /** No entry whose key ranks at `bound` or higher differs between `reg` and `reg'`. */
  predicate UnchangedFrom(reg: Registry, reg': Registry, rank: map<GoType, nat>, bound: nat)
  {
    forall k | k in reg && k in reg' && bound <= RankOf(rank, k) :: reg'[k] == reg[k]
  }

  /**
   * The errors resolution can produce: a missing registration, a factory's
   * own error, or a failed dependency wrapping one of these.
   */
  predicate ResolutionError(e: Error)
  {
    match e
    case NotRegistered(_) => true
    case Reported(_) => true
    case DependencyFailed(_, c) => ResolutionError(c)
    case _ => false
  }

  /** The result of one resolution step, the registry after it and the keys whose factory ran. */
  datatype Step<T> = Step(result: Result<T, Error>, reg: Registry, log: seq<GoType>)

  /** The last factory run in a step was that of key `t`. */
  predicate RanLast<T>(s: Step<T>, t: GoType)
  {
    |s.log| > 0 && s.log[|s.log| - 1] == t
  }

  lemma WellFormedKept(reg: Registry, reg': Registry)
    requires WellFormed(reg) && SameShape(reg, reg') && TransientSlotsKept(reg, reg')
    ensures WellFormed(reg')
  {
    forall k | k in reg'
      ensures WellFormedFactory(reg'[k].factory.typ) && Compatible(reg'[k].factory.typ.outs[0], k)
      ensures reg'[k].lifecycle == Transient ==> reg'[k].instance == Nil
    {
      assert reg'[k].factory == reg[k].factory && reg'[k].lifecycle == reg[k].lifecycle;
    }
  }

  lemma StoreKeepsWellFormed(reg: Registry, t: GoType, v: Value)
    requires WellFormed(reg) && t in reg && reg[t].lifecycle == Singleton
    ensures WellFormed(reg[t := reg[t].(instance := v)])
  {
  }

  /** Resolution only fills slots, so it only removes edges: acyclicity is kept. */
  lemma AcyclicKept(reg: Registry, reg': Registry, rank: map<GoType, nat>)
    requires Acyclic(reg, rank) && SameShape(reg, reg') && KeepsCache(reg, reg')
    ensures Acyclic(reg', rank)
  {
    forall k | k in reg'
      ensures k in rank && (!Cached(reg', k) ==> DepsBelow(Params(reg'[k].factory.typ), rank, rank[k]))
    {
      assert reg'[k].factory == reg[k].factory && reg'[k].lifecycle == reg[k].lifecycle;
      if reg[k].instance != Nil {
        assert reg'[k].instance == reg[k].instance;
      }
    }
  }

  /** A factory whose result type is the key itself is compatible with it, for every key. */
  lemma CompatibleReflexive(t: GoType)
    ensures Compatible(t, t)
  {
  }

  // ---------------------------------------------------------------------
  // Resolution
  // ---------------------------------------------------------------------

  /**
   * `resolveType`: look the key up; reuse a filled Singleton slot; otherwise
   * create an instance and, for a Singleton, store it when creation succeeds.
   */
  function ResolveType(reg: Registry, t: GoType, call: Oracle, rank: map<GoType, nat>): (s: Step<Value>)
    requires Acyclic(reg, rank)
    decreases RankOf(rank, t), 2, 0
    ensures SameShape(reg, s.reg) && KeepsCache(reg, s.reg) && TransientSlotsKept(reg, s.reg)
    ensures UnchangedFrom(reg, s.reg, rank, RankOf(rank, t) + 1)
    ensures s.result.Err? ==> ResolutionError(s.result.error)
  {
    if t !in reg then Step(Err(NotRegistered(t)), reg, [])
    else
      var d := reg[t];
      if d.lifecycle == Singleton && d.instance != Nil then Step(Ok(d.instance), reg, [])
      else
        var c := CreateInstance(reg, t, call, rank);
        if d.lifecycle == Singleton && c.result.Ok? then
          Step(c.result, c.reg[t := c.reg[t].(instance := c.result.value)], c.log)
        else c
  }

  /**
   * `createInstance`: bind the parameters in order, then call the factory;
   * a non-nil second result of a two-result factory is returned as the
   * error, unchanged.
   */
  function CreateInstance(reg: Registry, t: GoType, call: Oracle, rank: map<GoType, nat>): (s: Step<Value>)
    requires Acyclic(reg, rank) && t in reg && !Cached(reg, t)
    decreases RankOf(rank, t), 1, 0
    ensures SameShape(reg, s.reg) && KeepsCache(reg, s.reg) && TransientSlotsKept(reg, s.reg)
    ensures UnchangedFrom(reg, s.reg, rank, RankOf(rank, t))
    ensures s.result.Err? ==> s.result.error.Reported? || (s.result.error.DependencyFailed? && ResolutionError(s.result.error))
    ensures s.result.Ok? || s.result.error.Reported? ==> RanLast(s, t)
  {
    var f := reg[t].factory;
    var a := ResolveArgs(reg, Params(f.typ), RankOf(rank, t), call, rank);
    if a.result.Err? then Step(Err(a.result.error), a.reg, a.log)
    else
      var out := Invoke(call, f.id, a.result.value);
      if ResultCount(f.typ) == 2 && out.second != Nil then Step(Err(Reported(out.second)), a.reg, a.log + [t])
      else Step(Ok(out.first), a.reg, a.log + [t])
  }

  /**
   * One turn of the argument loop of `createInstance`: `*Container` binds to
   * the container itself; any other parameter type is resolved exactly as it
   * is (no pointer stripping), and a failure is wrapped with that type.
   */
  function Bind(reg: Registry, p: GoType, bound: nat, call: Oracle, rank: map<GoType, nat>): (s: Step<Value>)
    requires Acyclic(reg, rank) && DepsBelow([p], rank, bound)
    decreases bound, 0, 0
    ensures SameShape(reg, s.reg) && KeepsCache(reg, s.reg) && TransientSlotsKept(reg, s.reg)
    ensures UnchangedFrom(reg, s.reg, rank, bound)
    ensures p == ContainerPtr ==> s == Step(Ok(Self), reg, [])
    ensures s.result.Err? ==> s.result.error.DependencyFailed? && ResolutionError(s.result.error)
                              && s.result.error.dependency == p && p != ContainerPtr
  {
    if p == ContainerPtr then Step(Ok(Self), reg, [])
    else
      assert p in [p];
      var r := ResolveType(reg, p, call, rank);
      if r.result.Err? then Step(Err(DependencyFailed(p, r.result.error)), r.reg, r.log)
      else r
  }

  /**
   * The argument loop of `createInstance` over the parameters `ps`, defined
   * on prefixes as the loop runs: the first failure stops the loop.
   */
  function ResolveArgs(reg: Registry, ps: seq<GoType>, bound: nat, call: Oracle, rank: map<GoType, nat>): (s: Step<seq<Value>>)
    requires Acyclic(reg, rank) && DepsBelow(ps, rank, bound)
    decreases bound, 0, |ps|
    ensures SameShape(reg, s.reg) && KeepsCache(reg, s.reg) && TransientSlotsKept(reg, s.reg)
    ensures UnchangedFrom(reg, s.reg, rank, bound)
    ensures s.result.Ok? ==> |s.result.value| == |ps|
    ensures s.result.Ok? ==> forall i | 0 <= i < |ps| && ps[i] == ContainerPtr :: s.result.value[i] == Self
    ensures s.result.Err? ==> s.result.error.DependencyFailed? && ResolutionError(s.result.error)
                              && s.result.error.dependency in ps && s.result.error.dependency != ContainerPtr
  {
    if ps == [] then Step(Ok([]), reg, [])
    else
      var p := ps[|ps| - 1];
      var a := ResolveArgs(reg, ps[..|ps| - 1], bound, call, rank);
      if a.result.Err? then a
      else
        AcyclicKept(reg, a.reg, rank);
        var b := Bind(a.reg, p, bound, call, rank);
        if b.result.Err? then Step(Err(b.result.error), b.reg, a.log + b.log)
        else Step(Ok(a.result.value + [b.result.value]), b.reg, a.log + b.log)
  }
}
