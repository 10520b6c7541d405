/** JSON values, with objects keyed by text or by the field names of a codec. */
module Json {

  /** `Integer` is a number `as_u64` or `as_i64` accepts; `Fraction` is any other number. */
  datatype Tree<!Key> =
    | Null
    | Bool(b: bool)
    | Integer(n: int)
    | Fraction(r: real)
    | Text(s: string)
    | Array(items: seq<Tree<Key>>)
    | Object(fields: map<Key, Tree<Key>>)

  type Value = Tree<string>
}
