# go-inject in Dafny

A model of the dependency-injection container of `go-inject`. The model has two parts.

- **`container.go`** is the container itself: a map from a service type to a descriptor.
  - A descriptor holds the factory, its lifecycle (Transient or Singleton) and a lazily filled instance slot.
  - **Registration** validates the factory's signature against the service type.
  - **Resolution** looks the type up. A Singleton reuses the instance in its slot. Otherwise the container creates an instance: it binds each factory parameter, either to the container itself or by resolving the parameter type recursively, then calls the factory.
- **`helpers.go`** holds the generic conveniences built on top:
  - `MustResolve` and `TryResolve`;
  - the typed registration wrappers;
  - `RegisterFunc`, `Has` and `GetServiceTypes`.

Files:

- `gotypes.dfy` (module `GoTypes`): the part of Go's type system that the container inspects through reflection.
  - Named types, with value-receiver and pointer-receiver method sets.
  - Pointers, interfaces and function signatures.
  - `Implements`, which is method-set inclusion.
  - Stripping one pointer level to form a key.
  - Values held in an `interface{}` and the type assertion `v.(T)`.
- `resolution.dfy` (module `Resolution`): the registration check and the resolution engine, as pure functions over a registry value.
  - Each resolution step returns its result, the new registry, and the log of the service keys whose factory ran.
- `container.dfy` (module `Inject`): `ServiceDescriptor` and `Container` as classes.
  - The descriptor's instance slot is updated in place.
  - Each resolution method (`Resolve`, `ResolveType`, `CreateInstance`, `BindArguments`, `BindArgument`) is proved to compute exactly what the `Resolution` functions say of the abstract registry `Model()`. This covers the argument loop of `createInstance` and the cached-instance store.
  - The registration methods are proved to update `Model()` as `Resolution.ValidateFactory` and a map update say. The contracts of `Clear`, `Has`, `GetServiceTypes`, and the two error checks of `RegisterFunc`, are stated directly.
- `helpers.dfy` (module `Helpers`): the generic helpers.
  - A Go type parameter becomes a `GoType` argument.
  - A panic becomes the outcome `Panicked`.
- `properties.dfy` (module `Properties`): what the engine guarantees.
  - Lookup and `Has`.
  - Singleton caching, which happens once, only on success, and only for a non-nil instance.
  - Transient re-creation.
  - Failing-dependency reporting.
  - Success whenever every dependency is registered, no factory returns an error and no call panics (see "Panics inside `reflect.Value.Call`" under "## Left out").
  - The typed registration helpers.
  - Scenarios taken from the repository's tests, as pure lemmas.
- `scenarios.dfy` (module `Scenarios`): client programs in the shape of the repository's tests. Each builds a new `Container`, registers through the methods and then resolves, so the registration contracts are shown to be enough for a caller to go on resolving.

The factories written by users are not visible to the model. They are an oracle `call: (nat, seq<Value>) -> Output`, a parameter of every resolution. It says what calling factory number `n` with the given arguments returns. The two closures that `helpers.go` builds are interpreted directly:

- `RegisterValue`'s `func() T { return value }`;
- `RegisterInterface`'s converting wrapper.

Resolution recurses through the dependency graph and does not detect cycles. What a cycle does in the code depends on the slots on it:

- A cycle reached through a Singleton whose slot is empty deadlocks. The descriptor's write lock is taken at `container.go:126-127` and held while the factory's dependencies resolve. Reaching the same descriptor again blocks on its read lock at `container.go:118`.
- A cycle of Transient descriptors only recurses until the stack overflows.
- A filled Singleton slot is returned at `container.go:119-122` without looking at its factory, so a cycle through it ends normally. So does a cycle that the resolved key cannot reach.

Every resolution takes a ghost ranking `rank` and requires `Acyclic(reg, rank)`. That predicate says every key is ranked and, for every entry without a filled Singleton slot, every factory parameter other than `*Container` ranks below its key. The edges of filled slots do not count, so the third case above is covered (`Properties.CachedSingletonCutsCycle`). Every cycle among entries without filled slots is excluded, whether or not resolution would follow it: one the resolved key cannot reach, and one it reaches only after an earlier dependency has failed, are excluded too.

A factory's dependency is looked up by its exact parameter type (`container.go:157`). This differs from how a top-level request is handled:

- `Resolve` strips one pointer level from the type it is given.
- A `*Logger` parameter is looked up as `*Logger`, not `Logger`. A dependency parameter of type `P` is looked up under the key `P` itself (`container.go:157`), while a call `Resolve(P)` strips the pointer of `P` first (`container.go:104-106`).
- The model follows the code. `Properties.PointerDependencyNotStripped` shows the consequence: a service registered as `Register((*Logger)(nil), ...)` does not satisfy a `*Logger` parameter.

## Model

| member | source | states |
|---|---|---|
| GoTypes.Zero | helpers.go:9 | the zero value of a pointer, interface or function type is `Nil`, standing for that type's nil as `TryResolve` returns it; any other zero value has the type itself as its dynamic type |
| Resolution.Invoke | helpers.go:27-56 | the closures that the helpers build never return an error; the converting wrapper of `RegisterInterface` returns what its inner factory returns on the same arguments; the closure of `RegisterValue` returns its value |
| Resolution.Base | helpers.go:27-30 | unwrapping the converting wrappers ends at a user factory or a constant |
| Resolution.Compatible | container.go:60-79 | for an interface key, the result type `T` must implement it; for a concrete key, `T` must be the key, a pointer to the key, or the type the key points to |
| Resolution.WellFormedFactory | container.go:44-58 | a registered factory is a function with one or two results, and a second result's type implements `error` |
| GoTypes.Strip | container.go:39-42 | a pointer type is replaced by the type it points to, and every other type is kept, as both `Register` and `Resolve` (lines 103-106) do |
| GoTypes.AssertsTo | helpers.go:14 | the assertion `result.(T)` fails on the nil interface; an interface `T` needs the dynamic type to implement it; a concrete `T` needs the dynamic type to be `T` (also line 23) |
| Resolution.CheckCompatible | container.go:60-79 | no error exactly when the result type is compatible with the key; the error is "does not implement" for an interface key and "does not match" for a concrete one |
| Resolution.ValidateFactory | container.go:44-79 | accepted exactly when the factory is a function with one or two results, a second result's type implements `error`, and the first result type `T` is compatible with the key; otherwise the error of the first failed check, in the code's order: not a function, wrong result count, second result not an error, incompatible type |
| Resolution.ResolveType | container.go:111-142 | resolution keeps the registry's keys, factories and lifecycles; keeps every filled slot and every Transient slot; changes no entry ranked above the key; fails only with a not-registered, dependency or factory error |
| Resolution.CreateInstance | container.go:144-173 | creation changes no entry ranked at or above the key; fails only with the factory's own error or a dependency failure; when it reaches the factory call, that key's factory ran last |
| Resolution.Bind | container.go:150-161 | a `*Container` parameter binds to the container and changes nothing; a failure is a dependency failure naming this parameter, which is not `*Container` |
| Resolution.ResolveArgs | container.go:148-162 | on success one argument per parameter, with the container at every `*Container` position; a failure names a parameter of the factory that is not `*Container` |
| Resolution.WellFormedKept | container.go:81-87 | the registration invariant survives any change that keeps keys, factories, lifecycles and Transient slots |
| Resolution.StoreKeepsWellFormed | container.go:137 | storing an instance in a Singleton slot keeps the registration invariant |
| Resolution.AcyclicKept | container.go:111-162 | resolution never changes the dependency graph's acyclicity |
| Inject.Descriptor.constructor | container.go:81-85 | a new descriptor has the given type, factory and lifecycle and an empty slot |
| Inject.Container.constructor | container.go:29-33 | a new container is empty, and its registration invariant holds |
| Inject.Container.Register | container.go:35-89 | accepts exactly when `ValidateFactory` does; a rejection changes nothing; an acceptance stores a fresh descriptor with an empty slot under the stripped key, replaces any earlier one and changes no other key |
| Inject.Container.RegisterSingleton | container.go:91-93 | `Register` with the Singleton lifecycle: the same check, a fresh descriptor under the stripped key and no other key changed |
| Inject.Container.RegisterTransient | container.go:95-97 | `Register` with the Transient lifecycle: the same check, a fresh descriptor under the stripped key and no other key changed |
| Inject.Container.Resolve | container.go:99-109 | returns, and leaves as the new registry and factory log, exactly what `Resolution.ResolveType` gives for the stripped key |
| Inject.Container.ResolveType | container.go:111-142 | the in-place lookup, cache check and Singleton store compute `Resolution.ResolveType` |
| Inject.Container.Store | container.go:137 | writing one descriptor's slot changes exactly that entry of the registry, and the invariant holds |
| Inject.Container.CreateInstance | container.go:144-173 | the in-place creation computes `Resolution.CreateInstance`, including the factory error and the factory log |
| Inject.Container.BindArguments | container.go:148-162 | the argument loop computes `Resolution.ResolveArgs`: it stops at the first failure and otherwise builds one argument per parameter, in order |
| Inject.Container.BindArgument | container.go:150-161 | one loop turn computes `Resolution.Bind` |
| Inject.Container.Clear | container.go:175-179 | afterwards no service type is registered |
| Inject.Container.Has | helpers.go:79-90 | true exactly when the stripped key is registered |
| Inject.Container.RegisterFunc | helpers.go:59-77 | rejects a non-function and a function with no results with their own errors; otherwise registers under the exact first result type, with `Register`'s validation and update: a fresh descriptor under that key and no other key changed |
| Inject.Container.GetServiceTypes | helpers.go:92-101 | every registered key appears exactly once, and nothing else appears |
| Inject.ArgsFailureSticks | container.go:157-160 | once the argument loop fails on a prefix of the parameters, the whole loop ends with that failure and that registry |
| Helpers.MustOutcome | helpers.go:8-15 | returns the value exactly when resolution succeeded and the value asserts to `T`; a resolution error panics |
| Helpers.TryOutcome | helpers.go:17-24 | a resolution error gives the zero value and `false`; success gives the value and `true`; it panics exactly when the assertion `result.(T)` fails |
| Helpers.MustResolve | helpers.go:8-15 | resolves the key `T` exactly as `Resolution.ResolveType` does and ends as `MustOutcome` says |
| Helpers.TryResolve | helpers.go:17-24 | resolves the key `T` exactly as `Resolution.ResolveType` does and ends as `TryOutcome` says |
| Helpers.InterfaceFactory | helpers.go:27-30 | the converting wrapper `func(c *Container) TInterface` always passes Register's check for the interface key, and its only parameter is `*Container` |
| Helpers.TypeFactory | helpers.go:41-43 | the factory `func(*Container) T` always passes Register's check for the key `T`, and its only parameter is `*Container` |
| Helpers.ValueFactory | helpers.go:54-56 | the closure `func() T { return value }` always passes Register's check for the key `T`, and it has no parameters |
| Helpers.RegisterInterface | helpers.go:26-31 | always accepted; stores the converting wrapper, whose only parameter is `*Container`, under the interface key, as a fresh descriptor, and changes no other key |
| Helpers.RegisterSingletonInterface | helpers.go:33-35 | as `RegisterInterface`, with Singleton: always accepted, a fresh descriptor under the key and no other key changed |
| Helpers.RegisterTransientInterface | helpers.go:37-39 | as `RegisterInterface`, with Transient: always accepted, a fresh descriptor under the key and no other key changed |
| Helpers.RegisterType | helpers.go:41-43 | always accepted; stores the factory `func(*Container) T` under `T`, as a fresh descriptor, and changes no other key |
| Helpers.RegisterSingletonType | helpers.go:45-47 | as `RegisterType`, with Singleton: always accepted, a fresh descriptor under the key and no other key changed |
| Helpers.RegisterTransientType | helpers.go:49-51 | as `RegisterType`, with Transient: always accepted, a fresh descriptor under the key and no other key changed |
| Helpers.RegisterValue | helpers.go:53-57 | always accepted; stores a Singleton constant factory with no parameters under `T`, as a fresh descriptor, and changes no other key |
| Properties.NotRegisteredIffMissing | container.go:112-115 | resolution reports "not registered" for a key exactly when it has no descriptor, and then changes nothing and runs no factory |
| Properties.HasIffResolvable | helpers.go:79-90 | `Has` is true exactly when `Resolve` finds a descriptor for the key |
| Properties.CachedSingletonReused | container.go:117-123 | a filled Singleton slot is returned as it is; nothing changes and no factory runs |
| Properties.SingletonStoresCreated | container.go:133-138 | when an uncached Singleton's creation succeeds, its factory ran last and the slot holds exactly the result |
| Properties.SingletonResolvedOnce | container.go:117-138 | after a Singleton resolves to a non-nil instance, the next resolution returns the same instance and runs no factory |
| Properties.NilSingletonNotCached | container.go:119 | a Singleton factory that returns the nil interface leaves the slot empty, so the factory runs again next time |
| Properties.FailureNotCached | container.go:133-136 | a failed resolution leaves the key's slot as it was, and not filled |
| Properties.TransientAlwaysCreates | container.go:141 | a Transient resolution is a fresh creation that never writes the slot, and a success ran its factory last |
| Properties.ResolveKeepsWellFormed | container.go:111-142 | resolution keeps the registration invariant and the acyclicity of the graph |
| Properties.ContainerPrefixBinds | container.go:152-155 | leading `*Container` parameters bind without touching the registry or running a factory |
| Properties.MissingDependencyReported | container.go:157-160 | when the parameters before position `j` all bind and the parameter at `j`, not `*Container`, has no descriptor, resolution fails with that parameter wrapped around "not registered"; the factory does not run, and the registry and log are those the earlier parameters left |
| Properties.ArgsMissingFails | container.go:148-162 | the argument loop stops at the first unregistered parameter that is not `*Container`, with that failure and what the earlier parameters left |
| Properties.ArgsDependencyFails | container.go:148-162 | whatever makes the dependency at position `j` fail after the earlier parameters bound, the argument loop stops there with that error wrapped around the parameter, and with the registry and log that dependency's resolution left |
| Properties.DependencyFailureWrapped | container.go:157-160 | a service whose dependency at position `j` fails, for any reason, fails with that error wrapped around the parameter; its own factory does not run |
| Properties.ClosedKept | container.go:111-162 | resolution keeps every dependency registered |
| Properties.InvokeNeverReports | container.go:164-170 | when no user factory returns an error, no registered factory does, the helpers' closures included |
| Properties.ResolveSucceeds | container.go:111-142 | every registered key resolves successfully when all dependencies are registered and no factory returns an error, provided no call panics (see "Panics inside `reflect.Value.Call`" under "## Left out") |
| Properties.CreateSucceeds | container.go:144-173 | under the same conditions, and again provided no call panics, creation succeeds |
| Properties.ArgsSucceed | container.go:148-162 | under the same conditions, and again provided no call panics, the argument loop succeeds |
| Resolution.CompatibleReflexive | container.go:62-79 | a factory whose result type is the key itself is compatible with it, for every key |
| Properties.AcyclicAfterRegister | container.go:87 | registering a factory whose dependencies rank below its key keeps the graph acyclic |
| Properties.RegisteredValueCreated | helpers.go:53-57 | after `RegisterValue`, resolving the key runs the constant factory once, returns the value and fills the slot with it |
| Properties.RegisteredValueResolves | helpers.go:53-57 | after `RegisterValue`, resolving the key runs the constant factory once, returns the value and fills the slot with it; `MustResolve` returns the value when its dynamic type is the key |
| Properties.InterfaceRegistrationResolves | helpers.go:26-31 | a key registered through `RegisterInterface` resolves to what the inner factory returns when called with the container; that value passes `MustResolve`'s assertion when its type is the implementation type |
| Properties.RegistrationChecksOnTestTypes | container.go:44-79 | on the tests' types: the pointer-receiver type `*TestImplementation` implements `TestInterface` but `TestImplementation` does not; `func() string` does not match the key; a string is not a factory; a second result that is not an error and a factory with no results are rejected |
| Properties.FactoryErrorReturned | container.go:164-170 | for any service without a filled slot whose two-result factory receives its arguments and reports an error, resolution returns that error unchanged, logs the factory call and stores nothing |
| Properties.FactoryErrorReturnedAndRetried | container.go:164-170 | a factory's own error is returned unchanged after the factory ran, and the registry is left as it was, whatever the lifecycle |
| Properties.PointerDependencyNotStripped | container.go:157 | a `*Logger` parameter is not satisfied by a service registered as `Register((*Logger)(nil), ...)` |
| Properties.LoggerCreatedOnce | container.go:117-138 | the first resolution of a Singleton logger runs its factory and caches the result |
| Properties.SingleDependencyArgs | container.go:148-162 | the argument loop of a factory whose one parameter is not `*Container` passes it what resolving that parameter returns, with that registry and log |
| Properties.TransientCreatedFrom | container.go:141-172 | a Transient key whose factory has one result resolves to that factory's result on the arguments the loop bound; the log ends with the key |
| Properties.UserServiceFirstResolution | container.go:111-173 | resolving a Transient service with a Singleton dependency runs both factories, dependency first, and caches the dependency |
| Properties.UserServiceSecondResolution | container.go:111-173 | resolving the service again runs only its own factory, with the same cached dependency |
| Properties.CachedSingletonCutsCycle | container.go:117-123 | a dependency cycle through a filled Singleton slot is admitted, and resolving into it ends: the filled slot is returned without running its factory and is passed to the dependent factory, whose result fills its own slot |
| Scenarios.SingletonResolvedTwice | container_test.go:82-112 | on a new container, `RegisterSingleton` then two `Resolve` calls: the first returns what the factory returns; when that is not nil, the second returns the same instance and the factory has run exactly once |
| Scenarios.SingletonScenario | container_test.go:82-112 | the first resolution runs the factory once and returns its result; when that is not nil, the second resolution returns it from the filled slot, leaves the registry as it is and runs no factory |
| Scenarios.RegisteredValueResolvedTwice | helpers_test.go:185-203 | on a new container, `RegisterValue[*TestImplementation]` then two `MustResolve` calls: both return the registered pointer |
| Scenarios.ValueScenario | helpers_test.go:185-203 | the resolution facts behind `RegisteredValueResolvedTwice` |
| Scenarios.DependencyInjected | container_test.go:135-168 | on a new container, the three registrations of the test then `Resolve(TestService)`: the service factory receives what the Transient `TestInterface` factory returns, and the container's factory log is exactly `[TestInterface, TestService]`, so the unused Singleton does not run |
| Scenarios.DependencyInjectionResolves | container_test.go:135-168 | the resolution facts behind `DependencyInjected` |
| Scenarios.DependencyResolves | container_test.go:145-150 | the Transient `TestInterface` resolves to what its factory returns and leaves the registry as it was |

## Left out

- Locking: the container's reader/writer lock and the descriptor locks are not modelled. The model is sequential, so it says nothing about concurrent resolution or the double-checked lock of the Singleton path.
- Reflection is a datatype of types. `Implements` compares method names only, not signatures. Basic types are named types without methods.
- Cycles: a cycle through a Singleton with an empty slot deadlocks in the code, and a cycle of Transient descriptors overflows the stack. Every resolution requires `Acyclic` instead, so the model says nothing about these two. It also excludes every other cycle among entries without filled slots, whether or not resolution would follow it (one the resolved key cannot reach, or reaches only after an earlier dependency failed), although the code resolves that key normally.
- Factories are an oracle: deterministic, with no side effects, and unable to call back into the container they receive. Two Transient instances cannot be told apart by identity.
- Panics inside `reflect.Value.Call` (`container.go:164`) are not modelled, and the success lemmas hold only when none happens. Three cases:
  - an argument whose type the parameter does not accept: for example a key `Foo` registered with `func() *Foo`, then a factory with a parameter `Foo`;
  - a dependency that resolves to the nil interface, whose zero `reflect.Value` cannot be passed;
  - a factory that panics itself.
- The `IsNil` panic at `container.go:167` is not modelled. It happens on every call of a two-result factory whose second result type implements `error` but is not a pointer, interface, map, slice, chan or func type (for example a struct, or a named integer or string type with an `Error` method). Registration accepts such a factory (`container.go:55-57`, `Resolution.WellFormedFactory`). The model then reads the oracle's `second` like that of any other factory, where the code panics.
- `Output.second == Nil` stands for `results[1].IsNil()` on the declared result type. A nil `*MyErr` returned as the second result of a factory declared as `(T, *MyErr)` therefore counts as no error. This is a different meaning from `Nil` in `GoTypes.Value`, where a typed nil pointer held in an `interface{}` is an `Obj`.
- Nil arguments are not modelled: a nil `serviceType` panics at `container.go:40` and `container.go:104` and in `Has` at `helpers.go:84`; a nil `factory` panics at `container.go:45` and in `RegisterFunc` at `helpers.go:61`. `reflect.TypeOf(nil)` is a nil `reflect.Type`, and calling its `Kind` method panics. Every Register, Resolve and Has of the model takes a `GoType`, which is never nil.
- Helpers.RegisterInterface: requires the implementation type to convert to the interface. The wrapper's assertion `any(impl).(TInterface)` would panic otherwise. An interface-typed implementation is not modelled.
- Lifecycles: only the two named constants `Transient` and `Singleton` are modelled. In Go, `Lifecycle` is an `int` (`container.go:9`), and Register stores any value unchecked (`container.go:84`). Resolution handles any value other than `Singleton` as Transient (`container.go:117`, `container.go:141`).
- Error values are error kinds carrying the types they name, not formatted strings.
- Helpers.MustOutcome: the panic's text is not modelled, only its cause.
- `GetServiceTypes` returns a sequence whose order is left open, as Go's map iteration order is.
