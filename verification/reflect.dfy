/**
 An abstraction of the parts of Go's reflect package that the providers use.
 Types keep only what the providers look at (their kind, the input and output
 types of a function, the element type of a pointer, and the text their
 String method prints); the language's assignability and conversion rules and
 the act of calling a function are left uninterpreted, as fields of a
 `Runtime` record that every operation receives as a parameter.
 */
module Reflect {

  /** reflect.Kind, reduced to what the providers tell apart. `Invalid` is the
      kind of the zero reflect.Value: the value of a nil interface, or the
      element of a nil pointer. */
  datatype Kind = Invalid | Func | Ptr | OtherKind(name: string)

  /** The structure of a type as far as the providers inspect it. */
  datatype Shape =
    | FuncShape(ins: seq<Type>, outs: seq<Type>)
    | PtrShape(elem: Type)
    | OtherShape(kindName: string)

  /** A Go type; `name` is the text reflect.Type.String() prints for it
      (the predeclared error interface prints as "error"). */
  datatype Type = Type(name: string, shape: Shape)

  /** reflect.Type.Kind(). A type is never of the invalid kind. */
  function KindOf(t: Type): (k: Kind)
    ensures k != Invalid
    ensures k == Func <==> t.shape.FuncShape?
    ensures k == Ptr <==> t.shape.PtrShape?
  {
    match t.shape
    case FuncShape(_, _) => Func
    case PtrShape(_) => Ptr
    case OtherShape(n) => OtherKind(n)
  }

  /** The contents of a value, abstracted to "nil" or an opaque datum. */
  datatype Payload = Nil | Datum(id: nat)

  /** A reflect.Value of a valid kind: its type and its contents. */
  datatype Value = Value(typ: Type, payload: Payload)

  /** A Go `interface{}`: either the nil interface or a value boxed with its
      dynamic type. Constructors and argument pointers are passed this way. */
  datatype Any = NilAny | Boxed(value: Value)

  /** reflect.ValueOf(x).Kind(): invalid exactly for the nil interface. */
  function ValueKind(x: Any): (k: Kind)
    ensures k == Invalid <==> x.NilAny?
  {
    match x
    case NilAny => Invalid
    case Boxed(v) => KindOf(v.typ)
  }

  /** The interface holds a value of some function type. */
  predicate IsFunc(x: Any) {
    x.Boxed? && x.value.typ.shape.FuncShape?
  }

  /** reflect.ValueOf(p).Elem().Kind() for a pointer p: the element of a nil
      pointer is the zero Value, whose kind is `Invalid`. */
  function ElemKind(p: Value): (k: Kind)
    requires p.typ.shape.PtrShape?
    ensures k == Invalid <==> p.payload.Nil?
  {
    if p.payload.Nil? then Invalid else KindOf(p.typ.shape.elem)
  }

  /** The error a function returned in its second result position. */
  datatype ErrorValue = NoError | ErrorOf(message: string)

  /** What reflect.Value.Call produces: the first result's contents and the
      second result (meaningful only when the function has two results), or
      a panic raised inside the called function. */
  datatype CallOutcome =
    | Returns(first: Payload, second: ErrorValue)
    | Raises(panicText: string)

  /** The uninterpreted parts of the Go runtime:
      reflect.Type.AssignableTo, reflect.Type.ConvertibleTo,
      reflect.Value.Convert (whose result has the target type, so only its
      payload is left open) and reflect.Value.Call on a non-nil function. */
  datatype Runtime = Runtime(
    assignableTo: (Type, Type) -> bool,
    convertibleTo: (Type, Type) -> bool,
    convert: (Value, Type) -> Payload,
    call: (Value, seq<Value>) -> CallOutcome)

  /** The text of the runtime panic raised by calling a method on the nil
      reflect.Type that reflect.TypeOf returns for the nil interface. */
  const NilDereference: string := "runtime error: invalid memory address or nil pointer dereference"

  /** The text of the panic reflect.Value.Call raises for a nil function. */
  const NilFunctionCall: string := "reflect.Value.Call: call of nil function"
}
