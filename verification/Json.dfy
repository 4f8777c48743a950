/** JSON documents as the services see them after parsing: `Undefined` is what a missing property reads as. */
module Json {
  datatype Value =
    | Undefined
    | Null
    | Bool(b: bool)
    | Num(n: real)
    | Str(s: string)
    | Arr(items: seq<Value>)
    | Obj(fields: map<string, Value>)

  type Record = map<string, Value>

  /** A JSON object used to look facts up. */
  type Context = v: Value | v.Obj? witness Obj(map[])

  /** `typeof v === 'object' && v !== null` */
  predicate IsObject(v: Value) {
    v.Arr? || v.Obj?
  }

  /** `v === undefined || v === null`, the test behind `??` and `?.` */
  predicate Nullish(v: Value) {
    v.Undefined? || v.Null?
  }

  predicate Has(v: Value, key: string) {
    v.Obj? && key in v.fields
  }

  /** Property read. Arrays carry no named properties of interest. */
  function Field(v: Value, key: string): Value {
    if Has(v, key) then v.fields[key] else Undefined
  }

  function Lookup(r: Record, key: string): Value {
    if key in r then r[key] else Undefined
  }

  /** `===`. Two separately parsed documents never share an object, so objects are never identical. */
  predicate Same(a: Value, b: Value) {
    !IsObject(a) && !IsObject(b) && a == b
  }

  predicate Includes(items: seq<Value>, v: Value) {
    exists i | 0 <= i < |items| :: Same(items[i], v)
  }

  predicate Contains(s: string, part: string) {
    part <= s || (s != "" && Contains(s[1..], part))
  }
}
