/** Untyped values, for the places where the code inspects what a model or a document handed it. */
module Json {

  datatype Json =
    | Null
    | Bool(b: bool)
    | Int(n: int)
    | Float(x: real)
    | Str(s: string)
    | List(items: seq<Json>)
    | Object(fields: map<string, Json>)
  {
    /** A key's value in a dict; a missing key and a value that is no dict both read as null. */
    function Get(key: string): Json {
      if Object? && key in fields then fields[key] else Null
    }

    function Fields(): map<string, Json> { if Object? then fields else map[] }

    /** Whether a conditional on the value takes its true branch. */
    predicate Truthy() {
      match this
      case Null => false
      case Bool(v) => v
      case Int(v) => v != 0
      case Float(v) => v != 0.0
      case Str(v) => v != ""
      case List(v) => v != []
      case Object(v) => |v| != 0
    }

    predicate IsNumber() { Int? || Float? }

    /** Whether the value can be a key of a dict or an element of a set. */
    predicate Hashable() { !List? && !Object? }

    function Number(): real
      requires IsNumber()
    {
      if Int? then n as real else x
    }
  }

  /** The values a conditional takes for false are seven. */
  lemma FalsyExactly(v: Json)
    ensures !v.Truthy() <==>
              v == Null || v == Bool(false) || v == Int(0) || v == Float(0.0) || v == Str("") || v == List([])
              || v == Object(map[])
  {
  }

  /** The least integer that rounds to no finite binary64 number: 2^1024 - 2^970, which is 2^54 - 1 times (2^97)^10. */
  function FloatLimit(): (limit: int)
    ensures limit > 0
  {
    var p := 0x2000000000000000000000000;
    var q := p * p * p * p * p;
    q * q * 0x3FFFFFFFFFFFFF
  }

  /** Whether an integer of this size converts to a float; converting one that does not is an error. */
  predicate FitsFloat(x: real) { -(FloatLimit() as real) < x < FloatLimit() as real }
}
