/**
 * Client programs in the shape of the repository's tests: each builds a new
 * container, registers through the methods of `Inject` and `Helpers`, and
 * then resolves. Factory calls are answered by the oracle `call`.
 */
module Scenarios {
  import opened Wrappers
  import opened GoTypes
  import opened Resolution
  import opened Inject
  import opened Helpers
  import opened Properties

  /** `TestService` declares `GetDependency` with a pointer receiver. */
  const TestService: GoType := Named("TestService", {}, {"GetDependency"})

  const ImplEntry := Entry(Factory(Func([], [Ptr(TestImplementation)]), UserFn(0)), Singleton, Nil)
  const IfaceEntry := Entry(Factory(Func([], [TestInterface]), UserFn(1)), Transient, Nil)
  const ServiceEntry := Entry(Factory(Func([TestInterface], [Ptr(TestService)]), UserFn(2)), Transient, Nil)
  const InjectionRank := map[TestImplementation := 0, TestInterface := 0, TestService := 1]

  /**
   * A Singleton registered with `func() *TestImplementation` and resolved
   * twice: the first resolution returns what the factory returns, and the
   * second returns that same instance when it is not nil, without running
   * the factory again. The container is returned so that its factory log
   * can be stated.
   */
  method SingletonResolvedTwice(call: Oracle) returns (first: Result<Value, Error>, second: Result<Value, Error>, c: Container)
    ensures first == Ok(call(0, []).first)
    ensures call(0, []).first != Nil ==> second == first && c.invoked == [TestImplementation]
  {
    c := SingletonContainer();
    SingletonScenario(call);
    first := c.Resolve(Ptr(TestImplementation), call, map[TestImplementation := 0]);
    second := c.Resolve(Ptr(TestImplementation), call, map[TestImplementation := 0]);
  }

  /** A new container after `RegisterSingleton` of `func() *TestImplementation`. */
  method SingletonContainer() returns (c: Container)
    ensures fresh(c) && c.Valid() && c.Model() == map[TestImplementation := ImplEntry] && c.invoked == []
    ensures forall k | k in c.services :: fresh(c.services[k])
  {
    c := new Container();
    var err := c.RegisterSingleton(Ptr(TestImplementation), ImplEntry.factory);
    assert err == None;
  }

  /** The proof behind `SingletonResolvedTwice`. */
  lemma SingletonScenario(call: Oracle)
    ensures var reg := map[TestImplementation := ImplEntry];
            var rank := map[TestImplementation := 0];
            var s := ResolveType(reg, TestImplementation, call, rank);
            Acyclic(reg, rank) && s.result == Ok(call(0, []).first) && s.log == [TestImplementation] && Acyclic(s.reg, rank)
            && (call(0, []).first != Nil ==> ResolveType(s.reg, TestImplementation, call, rank) == Step(s.result, s.reg, []))
  {
    var reg := map[TestImplementation := ImplEntry];
    var rank := map[TestImplementation := 0];
    assert Acyclic(reg, rank);
    Inject.CreateInstanceUnfold(reg, TestImplementation, call, rank);
    assert ResolveArgs(reg, [], 0, call, rank) == Step(Ok([]), reg, []);
    var none: seq<GoType> := [];
    assert none + [TestImplementation] == [TestImplementation];
    ResolveKeepsWellFormed(reg, TestImplementation, call, rank);
    if call(0, []).first != Nil {
      SingletonResolvedOnce(reg, TestImplementation, call, rank);
    }
  }

  /**
   * `RegisterValue[*TestImplementation]` and then `MustResolve` twice: both
   * return the registered pointer itself.
   */
  method RegisteredValueResolvedTwice(call: Oracle, v: Value) returns (o1: Outcome<Value>, o2: Outcome<Value>)
    requires DynType(v) == Some(Ptr(TestImplementation))
    ensures o1 == Returned(v) && o2 == Returned(v)
  {
    var c := ValueContainer(v);
    ValueScenario(call, v);
    o1 := MustResolve(c, Ptr(TestImplementation), call, map[Ptr(TestImplementation) := 0]);
    o2 := MustResolve(c, Ptr(TestImplementation), call, map[Ptr(TestImplementation) := 0]);
  }

  /** A new container after `RegisterValue[*TestImplementation]` of `v`. */
  method ValueContainer(v: Value) returns (c: Container)
    ensures fresh(c) && c.Valid()
    ensures c.Model() == map[Ptr(TestImplementation) := Entry(ValueFactory(Ptr(TestImplementation), v), Singleton, Nil)]
    ensures forall k | k in c.services :: fresh(c.services[k])
  {
    c := new Container();
    var err := RegisterValue(c, Ptr(TestImplementation), v);
  }

  /** The proof behind `RegisteredValueResolvedTwice`. */
  lemma ValueScenario(call: Oracle, v: Value)
    requires DynType(v) == Some(Ptr(TestImplementation))
    ensures var t := Ptr(TestImplementation);
            var reg := map[t := Entry(ValueFactory(t, v), Singleton, Nil)];
            var rank := map[t := 0];
            var s := ResolveType(reg, t, call, rank);
            Acyclic(reg, rank) && MustOutcome(s.result, t) == Returned(v) && Acyclic(s.reg, rank)
            && MustOutcome(ResolveType(s.reg, t, call, rank).result, t) == Returned(v)
  {
    var t := Ptr(TestImplementation);
    var none: Registry := map[];
    assert none[t := Entry(ValueFactory(t, v), Singleton, Nil)] == map[t := Entry(ValueFactory(t, v), Singleton, Nil)];
    RegisteredValueResolves(none, t, v, call, map[t := 0]);
    SingletonResolvedOnce(map[t := Entry(ValueFactory(t, v), Singleton, Nil)], t, call, map[t := 0]);
  }

  /** The registry after the three registrations of the dependency-injection test. */
  function InjectionRegistry(): (reg: Registry)
    ensures reg.Keys == {TestImplementation, TestInterface, TestService}
  {
    map[TestImplementation := ImplEntry][TestInterface := IfaceEntry][TestService := ServiceEntry]
  }

  /** The first two registrations of the dependency-injection test, on a new container. */
  method InterfaceContainer() returns (c: Container)
    ensures fresh(c) && c.Valid() && c.invoked == []
    ensures c.Model() == map[TestImplementation := ImplEntry][TestInterface := IfaceEntry]
    ensures forall k | k in c.services :: fresh(c.services[k])
  {
    c := SingletonContainer();
    assert IfaceEntry == Entry(IfaceEntry.factory, Transient, Nil);
    var err := c.Register(Ptr(TestInterface), IfaceEntry.factory, Transient);
    assert err == None;
  }

  /** The three registrations of the dependency-injection test, on a new container. */
  method InjectionContainer() returns (c: Container)
    ensures fresh(c) && c.Valid() && c.Model() == InjectionRegistry() && c.invoked == []
    ensures forall k | k in c.services :: fresh(c.services[k])
  {
    c := InterfaceContainer();
    assert ServiceEntry == Entry(ServiceEntry.factory, Transient, Nil);
    var err := c.RegisterTransient(Ptr(TestService), ServiceEntry.factory);
    assert err == None;
  }

  /**
   * The dependency-injection test: after its three registrations, resolving
   * `TestService` runs the Transient `TestInterface` factory and passes its
   * result to the `TestService` factory; the unused Singleton is not run.
   * The container is returned so that its factory log can be stated.
   */
  method DependencyInjected(call: Oracle) returns (r: Result<Value, Error>, c: Container)
    ensures r == Ok(call(2, [call(1, []).first]).first)
    ensures c.invoked == [TestInterface, TestService]
  {
    c := InjectionContainer();
    DependencyInjectionResolves(call);
    r := c.Resolve(Ptr(TestService), call, InjectionRank);
  }

  /** The proof behind `DependencyInjected`, on the registry it builds. */
  lemma DependencyInjectionResolves(call: Oracle)
    ensures Acyclic(InjectionRegistry(), InjectionRank)
    ensures ResolveType(InjectionRegistry(), TestService, call, InjectionRank)
            == Step(Ok(call(2, [call(1, []).first]).first), InjectionRegistry(), [TestInterface, TestService])
  {
    var reg := InjectionRegistry();
    var rank := InjectionRank;
    var dep := call(1, []).first;
    DependencyResolves(call);
    SingleDependencyArgs(reg, TestInterface, 1, call, rank, dep, reg, [TestInterface]);
    TransientCreatedFrom(reg, TestService, call, rank, [dep], reg, [TestInterface]);
    assert [TestInterface] + [TestService] == [TestInterface, TestService];
  }

  /** The Transient `TestInterface` resolves to what its factory returns, and the registry stays as it was. */
  lemma DependencyResolves(call: Oracle)
    ensures Acyclic(InjectionRegistry(), InjectionRank)
    ensures ResolveType(InjectionRegistry(), TestInterface, call, InjectionRank)
            == Step(Ok(call(1, []).first), InjectionRegistry(), [TestInterface])
  {
    var reg := InjectionRegistry();
    var rank := InjectionRank;
    assert Acyclic(reg, rank);
    assert ResolveArgs(reg, [], 0, call, rank) == Step(Ok([]), reg, []);
    TransientCreatedFrom(reg, TestInterface, call, rank, [], reg, []);
    var none: seq<GoType> := [];
    assert none + [TestInterface] == [TestInterface];
  }
}
