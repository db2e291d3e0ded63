/**
 * The part of Go's type system that the container inspects through
 * reflection: named types with their method sets, pointers, interfaces and
 * function signatures, and the values that flow through `interface{}`.
 */
module GoTypes {
  import opened Wrappers

  /**
   * A Go type. A named type lists its methods with value receivers and those
   * with pointer receivers separately, because `*T` has both sets and `T`
   * only the first. Method signatures are not modelled, only method names.
   */
  datatype GoType =
    | Named(name: string, valueMethods: set<string>, pointerMethods: set<string>)
    | Ptr(elem: GoType)
    | Iface(name: string, methods: set<string>)
    | Func(ins: seq<GoType>, outs: seq<GoType>)

  /** The methods callable on a value of type `t`. */
  function MethodSet(t: GoType): set<string>
  {
    match t
    case Named(_, vm, _) => vm
    case Ptr(e) => if e.Named? then e.valueMethods + e.pointerMethods else {}
    case Iface(_, ms) => ms
    case Func(_, _) => {}
  }

  /** `reflect.Type.Implements`: `t` has every method interface `u` requires. */
  predicate Implements(t: GoType, u: GoType)
    requires u.Iface?
  {
    u.methods <= MethodSet(t)
  }

  /** The predeclared interface `error`. */
  const ErrorType: GoType := Iface("error", {"Error"})

  /** The container's own struct type, `inject.Container`. */
  const ContainerType: GoType :=
    Named("inject.Container", {},
          {"Register", "RegisterSingleton", "RegisterTransient", "Resolve",
           "Clear", "RegisterFunc", "Has", "GetServiceTypes"})

  /** `*inject.Container`, the parameter type bound to the container itself. */
  const ContainerPtr: GoType := Ptr(ContainerType)

  /** The key derivation of Register, Resolve and Has: strip one pointer level. */
  function Strip(t: GoType): GoType
  {
    if t.Ptr? then t.elem else t
  }

  /**
   * A value held in an `interface{}`. `Nil` is the nil interface; `Obj` is
   * any other value, opaque except for its dynamic type (a typed nil pointer
   * is an `Obj`, since it is a non-nil interface value in Go); `Self` is the
   * container handed to a factory; `ZeroOf(t)` is the zero value of a
   * non-pointer, non-interface type `t`.
   */
  datatype Value = Nil | Obj(id: nat, dyn: GoType) | Self | ZeroOf(typ: GoType)

  /** The dynamic type of a value; the nil interface has none. */
  function DynType(v: Value): Option<GoType>
  {
    match v
    case Nil => None
    case Obj(_, d) => Some(d)
    case Self => Some(ContainerPtr)
    case ZeroOf(t) => Some(t)
  }

  /**
   * The zero value `var zero T` of type `t`. For a pointer, interface or
   * function type `Nil` stands for that type's nil as TryResolve returns it
   * in a `T`, not for a value held in an `interface{}`.
   */
  function Zero(t: GoType): (z: Value)
    ensures z == Nil <==> t.Ptr? || t.Iface? || t.Func?
    ensures z != Nil ==> DynType(z) == Some(t)
  {
    if t.Ptr? || t.Iface? || t.Func? then Nil else ZeroOf(t)
  }

  /**
   * Whether the single-result type assertion `v.(t)` succeeds: the nil
   * interface never passes; otherwise an interface `t` needs the dynamic type
   * to implement it and a concrete `t` needs the dynamic type to be `t`.
   */
  predicate AssertsTo(v: Value, t: GoType)
  {
    match DynType(v)
    case None => false
    case Some(d) => if t.Iface? then Implements(d, t) else d == t
  }
}
