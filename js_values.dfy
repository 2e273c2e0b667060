/** Plain JavaScript objects as the exercises use them: a finite map from
    property names to primitive values. A property that is not in the map is
    `undefined` when read. */
module JsValues {

  datatype Value = Str(s: string) | Num(n: real) | Bool(b: bool)

  type Object = map<string, Value>

  /** `obj[key]` is a string. */
  predicate HasString(obj: Object, key: string) {
    key in obj && obj[key].Str?
  }

  /** `obj[key]` is a number. */
  predicate HasNumber(obj: Object, key: string) {
    key in obj && obj[key].Num?
  }
}
