/**
 * The dynamically typed values a validator receives: whatever the host
 * framework parsed into `req.body`, `req.query` or `req.params`, plus dates.
 */
module JsValues {

  /**
   * A JavaScript value as the validators see it. Numbers are exact reals
   * (no NaN, no infinities); an object is its own enumerable properties in
   * `for...in` order; a `Date` is its time value in milliseconds, or
   * `InvalidDate` when `getTime()` is NaN.
   */
  datatype Value =
    | Undefined
    | Null
    | Bool(b: bool)
    | Num(n: real)
    | Str(s: string)
    | Arr(elems: seq<Value>)
    | Obj(props: seq<Prop>)
    | DateV(time: int)
    | InvalidDate

  /**
   * One property of an object. The names within one `Obj` are distinct, as
   * in every JavaScript object; values with a repeated name do not occur.
   */
  datatype Prop = Prop(name: string, value: Value)

  /** The `typeof` operator. */
  function TypeOf(v: Value): string {
    match v
    case Undefined => "undefined"
    case Bool(_) => "boolean"
    case Num(_) => "number"
    case Str(_) => "string"
    case _ => "object"
  }

  /** `Array.isArray`. */
  predicate IsArray(v: Value) {
    v.Arr?
  }

  predicate IsDate(v: Value) {
    v.DateV? || v.InvalidDate?
  }

  /** `data[key]` on a parsed request section: a missing key reads as `undefined`. */
  function Lookup(data: map<string, Value>, key: string): Value {
    if key in data then data[key] else Undefined
  }

  /** The string-keyed properties every plain object inherits from `Object.prototype`. */
  const ObjectPrototypeNames: set<string> := {
    "constructor", "hasOwnProperty", "isPrototypeOf", "propertyIsEnumerable",
    "toLocaleString", "toString", "valueOf", "__proto__",
    "__defineGetter__", "__defineSetter__", "__lookupGetter__", "__lookupSetter__"
  }

  /** The string-keyed properties a `Date` inherits from `Date.prototype`. */
  const DatePrototypeNames: set<string> := {
    "constructor", "toString", "toDateString", "toTimeString", "toISOString",
    "toUTCString", "toGMTString", "toJSON", "toLocaleString", "toLocaleDateString",
    "toLocaleTimeString", "valueOf", "getTime", "setTime", "getTimezoneOffset",
    "getDate", "setDate", "getDay", "getFullYear", "setFullYear", "getYear", "setYear",
    "getHours", "setHours", "getMilliseconds", "setMilliseconds", "getMinutes",
    "setMinutes", "getMonth", "setMonth", "getSeconds", "setSeconds",
    "getUTCDate", "setUTCDate", "getUTCDay", "getUTCFullYear", "setUTCFullYear",
    "getUTCHours", "setUTCHours", "getUTCMilliseconds", "setUTCMilliseconds",
    "getUTCMinutes", "setUTCMinutes", "getUTCMonth", "setUTCMonth",
    "getUTCSeconds", "setUTCSeconds"
  }

  predicate HasOwnProperty(v: Value, name: string) {
    v.Obj? && exists p :: p in v.props && p.name == name
  }

  /** The `in` operator on an object or a date: own or inherited property. */
  predicate HasProperty(v: Value, name: string)
    requires v.Obj? || IsDate(v)
  {
    if v.Obj? then HasOwnProperty(v, name) || name in ObjectPrototypeNames
    else name in DatePrototypeNames || name in ObjectPrototypeNames
  }
}
