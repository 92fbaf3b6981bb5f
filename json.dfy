/** JavaScript values as the sanitizers see them: a tree of primitives, arrays
    and objects. An object is its list of own enumerable properties in
    enumeration order. */
module Json {

  datatype Value =
    | Undefined
    | Null
    | Bool(b: bool)
    | Num(n: int)
    | Str(s: string)
    | Arr(items: seq<Value>)
    | Obj(fields: seq<Field>)

  datatype Field = Field(key: string, value: Value)

  /** The string both sanitizers put in place of a sensitive value. */
  const Redacted: Value := Str("[REDACTED]")

  /** `!v`: the falsy values (NaN is not modelled). */
  predicate Falsy(v: Value) {
    v.Undefined? || v.Null? || v == Bool(false) || v == Num(0) || v == Str("")
  }

  /** `typeof v === 'object'`: null, arrays and objects. */
  predicate IsObjectType(v: Value) {
    v.Null? || v.Arr? || v.Obj?
  }

  /** `Object.keys` of an object, as a list. */
  function Keys(fields: seq<Field>): (r: seq<string>)
    ensures |r| == |fields|
    ensures forall i :: 0 <= i < |fields| ==> r[i] == fields[i].key
  {
    seq(|fields|, i requires 0 <= i < |fields| => fields[i].key)
  }
}
