/** The value model of vfy/canon.py and the loader: JSON's own types, and the host values that
    are refused. */
module Values {
  import opened Text

  /** `Foreign` is any other host type, and an object one of whose keys is not a string: both are
      refused, with the same failure, when the walk reaches them. */
  datatype Value =
    | Null
    | Bool(b: bool)
    | Int(n: int)
    | Str(text: Text)
    | Arr(items: seq<Value>)
    | Obj(members: map<Text, Value>)
    | Float
    | Foreign
}
