/** Values as the TypeScript sources see them: an optional value, and a
    property read off a loosely typed JSON object or record, which may be
    `undefined`, `null` or a string. */
module JsValue {

  datatype Option<+T> = None | Some(value: T)

  /** A property that is `undefined`, `null` or a string. */
  datatype Field = Undefined | Null | Str(s: string)

  /** JavaScript truthiness of a field: only a non-empty string is truthy. */
  predicate Truthy(f: Field) {
    f.Str? && f.s != ""
  }

  /** `f ?? d`: the string when there is one (even an empty one), else `d`. */
  function Coalesce(f: Field, d: string): string {
    if f.Str? then f.s else d
  }

  /** `f || d`: the string when it is truthy, else `d`. */
  function OrElse(f: Field, d: string): string {
    if Truthy(f) then f.s else d
  }

  /** A string as a field, as `JSON.parse(JSON.stringify(s))` gives it back. */
  function FieldOf(o: Option<string>): Field {
    match o
    case None => Undefined
    case Some(s) => Str(s)
  }

  /** `record[key]` as a field: `undefined` when the key is absent. */
  function Lookup(record: map<string, string>, key: string): Field {
    if key in record then Str(record[key]) else Undefined
  }

  /** `error?.message || fallback`. */
  function MessageOr(message: string, fallback: string): string {
    OrElse(Str(message), fallback)
  }
}
