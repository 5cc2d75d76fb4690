/** Option and Result, used for the values the JavaScript code leaves undefined
    and for the errors it throws. */
module Wrappers {
  datatype Option<+T> = None | Some(value: T)

  datatype Result<+R, +E> = Success(value: R) | Failure(error: E)
}

/** The slice of JavaScript's value model that the addon relies on: primitive
    values, arrays, plain objects with ordered keys, and the few host objects
    (BigNumber, Date, Error) that the code tests for. */
module Js {
  import opened Wrappers

  /** An object's own enumerable properties: their names in insertion order and
      their values. */
  datatype Props = Props(keys: seq<string>, vals: map<string, Value>)

  /** The object literal `{}`. */
  const Empty: Props := Props([], map[])

  datatype Value =
    | Undefined
    | Null
    | Bool(b: bool)
    | Num(n: int)
    | Str(s: string)
    | Arr(items: seq<Value>)
    | Obj(fields: Props)
    /** A BigNumber instance; `repr` is the text its toString() produces. */
    | BigNum(repr: string)
    /** A Date instance; `text` is the text String(date) produces. */
    | Date(text: string)
    /** An Error instance carrying its message. */
    | ErrorObj(message: string)

  /** JavaScript truthiness (ToBoolean). */
  predicate Truthy(v: Value) {
    match v
    case Undefined => false
    case Null => false
    case Bool(b) => b
    case Num(n) => n != 0
    case Str(s) => s != ""
    case _ => true
  }

  /** The `typeof` operator. */
  function TypeOf(v: Value): string {
    match v
    case Undefined => "undefined"
    case Bool(_) => "boolean"
    case Num(_) => "number"
    case Str(_) => "string"
    case _ => "object"
  }

  /** `Array.isArray`. */
  predicate IsArray(v: Value) {
    v.Arr?
  }

  /** Values that may stand where JavaScript code tests `x !== null && typeof x === 'object'`
      and finds it false. */
  predicate IsPrimitive(v: Value) {
    v == Null || TypeOf(v) != "object"
  }

  /** `v || fallback`. */
  function Or(v: Value, fallback: Value): (r: Value)
    ensures Truthy(v) ==> r == v
    ensures !Truthy(v) ==> r == fallback
  {
    if Truthy(v) then v else fallback
  }

  /** Whether some property is named `k`. */
  predicate HasKey(props: Props, k: string) {
    k in props.vals
  }

  /** Every listed name has a value, every value is listed, and no name is listed twice. */
  ghost predicate WellFormed(props: Props) {
    && (forall k :: k in props.vals <==> k in props.keys)
    && (forall i, j | 0 <= i < j < |props.keys| :: props.keys[i] != props.keys[j])
  }

  /** Reading `obj[k]`: the property's value, or undefined. */
  function Get(props: Props, k: string): (r: Value)
    ensures !HasKey(props, k) ==> r == Undefined
  {
    if k in props.vals then props.vals[k] else Undefined
  }

  /** Assigning `obj[k] = v`: an existing property keeps its place, a new one is appended. */
  function Put(props: Props, k: string, v: Value): Props
  {
    Props(if k in props.vals then props.keys else props.keys + [k], props.vals[k := v])
  }

  /** After `obj[k] = v`, `obj[k]` reads `v`, every other property reads as before,
      and the names are listed in the same order with `k` appended if it is new. */
  lemma GetPut(props: Props, k: string, v: Value)
    ensures Get(Put(props, k, v), k) == v && HasKey(Put(props, k, v), k)
    ensures forall k' :: k' != k ==>
      Get(Put(props, k, v), k') == Get(props, k') && (HasKey(Put(props, k, v), k') <==> HasKey(props, k'))
    ensures Put(props, k, v).keys == if HasKey(props, k) then props.keys else props.keys + [k]
  {
  }

  /** Assignment keeps a property list well formed. */
  lemma PutKeepsWellFormed(props: Props, k: string, v: Value)
    requires WellFormed(props)
    ensures WellFormed(Put(props, k, v))
  {
  }

  /** Reading `v[k]` for a name `k` that is not an array index: a TypeError
      (`None`) on null and undefined. Arrays and strings have only `length`. */
  function Member(v: Value, k: string): (r: Option<Value>)
    ensures r.None? <==> v == Undefined || v == Null
  {
    match v
    case Undefined => None
    case Null => None
    case Obj(fields) => Some(Get(fields, k))
    case Arr(items) => Some(if k == "length" then Num(|items|) else Undefined)
    case Str(s) => Some(if k == "length" then Num(|s|) else Undefined)
    case _ => Some(Undefined)
  }

  /** Reading `v[i]` for an array index `i` on a value that is not null or undefined. */
  function Index(v: Value, i: nat): Value {
    match v
    case Arr(items) => if i < |items| then items[i] else Undefined
    case Str(s) => if i < |s| then Str([s[i]]) else Undefined
    case Obj(fields) => Get(fields, NatToString(i))
    case _ => Undefined
  }

  /** Decimal digits of a natural number. */
  function NatToString(n: nat): (r: string)
    ensures |r| > 0
    decreases n
  {
    var d := ["0", "1", "2", "3", "4", "5", "6", "7", "8", "9"][n % 10];
    if n < 10 then d else NatToString(n / 10) + d
  }

  /** `String(v)`, as used by `'...' + v` concatenation. */
  function ToJsString(v: Value): string
    decreases v, 1
  {
    match v
    case Undefined => "undefined"
    case Null => "null"
    case Bool(b) => if b then "true" else "false"
    case Num(n) => if n < 0 then "-" + NatToString(-n) else NatToString(n)
    case Str(s) => s
    case Arr(items) => JoinItems(items)
    case Obj(_) => "[object Object]"
    case BigNum(repr) => repr
    case Date(text) => text
    case ErrorObj(message) => if message == "" then "Error" else "Error: " + message
  }

  /** `Array.prototype.join(',')`: null and undefined elements become empty. */
  function JoinItems(items: seq<Value>): string
    decreases items, 0
  {
    if |items| == 0 then ""
    else
      var head := if items[0] == Null || items[0] == Undefined then "" else ToJsString(items[0]);
      if |items| == 1 then head else head + "," + JoinItems(items[1..])
  }

  /** A plain JavaScript object whose properties the code assigns in place. */
  class JsObject {
    var props: Props

    constructor (init: Props)
      ensures props == init
    {
      props := init;
    }

    /** `this[k] = v`. */
    method Assign(k: string, v: Value)
      modifies this
      ensures props == Put(old(props), k, v)
    {
      props := Put(props, k, v);
    }
  }
}

/** The errors the core throws. */
module SolrErrors {
  import opened Js

  datatype Failure =
    /** `new Error(message)`. */
    | Error(message: string)
    /** A TypeError the JavaScript engine raises (property access on null, mixin on a primitive). */
    | TypeError
    /** `NotDirtyError(type, id)` from addon/not-dirty-error.js. */
    | NotDirty(typeKey: string, id: Value)

  /** The message NotDirtyError builds (with backticks around type and id). */
  function NotDirtyMessage(typeKey: string, id: Value): string {
    "Cannot use atomic update because record of type `" + typeKey + "` with id `"
      + ToJsString(id) + "` has no pending changes."
  }
}
