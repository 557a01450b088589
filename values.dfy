/**
 * Values shared by every component of the event bus: an optional value, and the
 * JSON-like payloads that travel on the local bus, the pub/sub transport and the
 * client sockets.
 */
module Values {

  datatype Option<+T> = None | Some(value: T) {
    function GetOr(default: T): T {
      match this
      case Some(v) => v
      case None => default
    }
  }

  /**
   * A JavaScript value as the bus's payloads see it. Numbers are integers
   * (floating point and NaN are not modelled), `Obj` is a plain object
   * (its constructor is `Object`), `Arr` an array.
   */
  datatype Value =
    | Undefined
    | Null
    | Bool(b: bool)
    | Num(n: int)
    | Str(s: string)
    | Arr(items: seq<Value>)
    | Obj(fields: map<string, Value>)

  /** JavaScript truthiness (`if (v)`): `undefined`, `null`, `false`, `0` and `""` are falsy. */
  predicate Truthy(v: Value)
    ensures !Truthy(v) <==> v in {Undefined, Null, Bool(false), Num(0), Str("")}
  {
    match v
    case Undefined => false
    case Null => false
    case Bool(b) => b
    case Num(n) => n != 0
    case Str(s) => s != ""
    case Arr(_) => true
    case Obj(_) => true
  }

  /** True of a plain object or an array, the two kinds whose `constructor` is `Object` or `Array`. */
  predicate IsStructured(v: Value) {
    v.Obj? || v.Arr?
  }

  /**
   * The property read `v.name`: `None` when it throws a TypeError (reading a
   * property of `null` or `undefined`), `Some(Undefined)` when `v` has no such
   * own property.
   */
  function Field(v: Value, name: string): (r: Option<Value>)
    ensures r.None? <==> v.Null? || v.Undefined?
    ensures r.Some? && r.value != Undefined ==> v.Obj? && name in v.fields && r.value == v.fields[name]
  {
    match v
    case Undefined => None
    case Null => None
    case Obj(fields) => Some(if name in fields then fields[name] else Undefined)
    case _ => Some(Undefined)
  }

  /** `{type: t}`, the object the bus uses for control messages. */
  function TypeMessage(t: string): (v: Value)
    ensures Field(v, "type") == Some(Str(t))
  {
    Obj(map["type" := Str(t)])
  }

  /** True when `v.type === t` holds without throwing. */
  predicate HasType(v: Value, t: string) {
    Field(v, "type") == Some(Str(t))
  }
}
