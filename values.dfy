/**
 * The values a JSON request body can hold in the fields the controllers read. A JSON number is carried as
 * the text `String(n)` gives for it, so `parseFloat`, `parseInt` and `toString` act on that text.
 */
module Values {
  import opened Wrappers
  import opened JsNumbers

  datatype Raw = Undefined | Null | Str(s: string) | Num(text: string)

  predicate IsNullish(v: Raw) {
    v.Undefined? || v.Null?
  }

  /** JavaScript truthiness: `undefined`, `null`, `""` and the number 0 are falsy. */
  predicate Truthy(v: Raw) {
    match v
    case Undefined => false
    case Null => false
    case Str(s) => s != ""
    case Num(t) => ParseFloat(t).Some? && ParseFloat(t).value != 0.0
  }

  /** `v.toString()` for a string or a number. */
  function Text(v: Raw): string
    requires v.Str? || v.Num?
  {
    if v.Str? then v.s else v.text
  }
}
