/** The dynamically typed values of a result row and of entity fields. */
module Values {

  /**
   * A Java object as far as the mapper inspects it: whether it is null,
   * whether it is a native object array (whose elements `Arrays.asList`
   * exposes as a list in the same order), or anything else (primitive
   * arrays are not represented).
   */
  datatype Value =
    | Null
    | Bool(b: bool)
    | Int(i: int)
    | Str(s: string)
    | ObjectArray(elems: seq<Value>)
    | ListOf(elems: seq<Value>)
    | Other(typeName: string, id: nat)
}
