/** JSON as a value.  Parsing and printing are supplied by whoever needs them. */
module Json {
  datatype Json =
    | Null
    | Bool(b: bool)
    | Int(n: int)
    | Real(r: real)
    | Str(s: string)
    | Arr(items: seq<Json>)
    | Obj(fields: map<string, Json>)
  {
    /** `value.get(key)`: null when the key is missing. */
    function Get(key: string): Json {
      if Obj? && key in fields then fields[key] else Null
    }

    /** Python truth. */
    predicate Truthy() {
      match this
      case Null => false
      case Bool(b) => b
      case Int(n) => n != 0
      case Real(r) => r != 0.0
      case Str(s) => s != ""
      case Arr(items) => items != []
      case Obj(fields) => fields != map[]
    }

    /** `this or other`. */
    function Or(other: Json): Json {
      if Truthy() then this else other
    }

    /** A non-empty string. */
    predicate IsText() {
      Str? && s != ""
    }
  }

  /** What Python takes for false. */
  predicate IsFalsy(value: Json) {
    value in {Null, Bool(false), Int(0), Real(0.0), Str(""), Arr([]), Obj(map[])}
  }

  lemma {:induction false} FalsyExactly(value: Json)
    ensures value.Truthy() <==> !IsFalsy(value)
  {
  }
}
