/** The untyped JavaScript values that travel through the client: event
    envelopes, widget payloads and the widgets built from them. Only the
    operations the client applies to them are modelled: reading a property,
    comparing with `!==`, and spreading into an object literal. */
module JsValues {

  /** A JavaScript value as it arrives from the socket or is built by the
      client. Numbers are modelled as integers. */
  datatype Value =
    | Undefined
    | Null
    | Bool(b: bool)
    | Num(n: int)
    | Str(s: string)
    | Arr(elems: seq<Value>)
    | Obj(fields: map<string, Value>)
  {
    /** Destructuring `const { k } = v` throws a TypeError exactly on these. */
    predicate IsNullish() {
      Undefined? || Null?
    }
  }

  /** A plain object: its own enumerable properties. */
  type Object = map<string, Value>

  /** `v[key]` for a key that no prototype defines (`type`, `id`, `payload`):
      an object's own property, and `undefined` everywhere else. The caller
      must rule out null and undefined, on which property access throws. */
  function Get(v: Value, key: string): (r: Value)
    requires !v.IsNullish()
    ensures r != Undefined ==> v.Obj? && key in v.fields && v.fields[key] == r
    ensures v.Obj? && key in v.fields ==> r == v.fields[key]
  {
    if v.Obj? && key in v.fields then v.fields[key] else Undefined
  }

  /** `a === b`. Objects and arrays compare by identity; every object the
      client compares was decoded from a separate socket message, so no two
      of them are the same object and the comparison is false. */
  function StrictEquals(a: Value, b: Value): (r: bool)
    ensures r <==> a == b && !a.Arr? && !a.Obj?
  {
    match (a, b)
    case (Undefined, Undefined) => true
    case (Null, Null) => true
    case (Bool(x), Bool(y)) => x == y
    case (Num(x), Num(y)) => x == y
    case (Str(x), Str(y)) => x == y
    case _ => false
  }

  predicate IsDigits(k: string) {
    forall c :: c in k ==> '0' <= c <= '9'
  }

  /** The decimal spelling of `i`, the property name of an array or string index. */
  function IndexKey(i: nat): (k: string)
    ensures k != [] && IsDigits(k)
    decreases i
  {
    var last := (48 + i % 10) as char;
    if i < 10 then [last] else IndexKey(i / 10) + [last]
  }

  /** The own properties of an array-like value with elements `elems`. */
  function Indexed(elems: seq<Value>): (r: Object)
    ensures forall k :: k in r ==> k != [] && IsDigits(k)
    decreases |elems|
  {
    if elems == [] then map[]
    else Indexed(elems[..|elems| - 1])[IndexKey(|elems| - 1) := elems[|elems| - 1]]
  }

  /** The properties `...v` contributes to an object literal: an object's own
      properties, the indices of an array or a string, and nothing for the
      other primitives and for null and undefined. */
  function Spread(v: Value): (r: Object)
    ensures v.Obj? ==> r == v.fields
    ensures v.IsNullish() || v.Bool? || v.Num? ==> r == map[]
    ensures !v.Obj? ==> forall k :: k in r ==> k != [] && IsDigits(k)
  {
    match v
    case Obj(fields) => fields
    case Arr(elems) => Indexed(elems)
    case Str(s) => Indexed(seq(|s|, i requires 0 <= i < |s| => Str([s[i]])))
    case _ => map[]
  }
}
