/** The values a YAML configuration document holds once loaded, and the two views of them
    that the Python code relies on: ordering comparisons with numbers and `str()`. */
module Values {
  import opened Common
  import Numerals

  /** A loaded YAML value. Mapping keys are strings, as in every document the tool reads. */
  datatype Value =
    | Null
    | Bool(b: bool)
    | Int(i: int)
    | Float(r: real)
    | Text(s: string)
    | List(items: seq<Value>)
    | Dict(entries: map<string, Value>)

  /** The number Python compares when `v` meets `<` or `>` with an int: a bool counts as
      0 or 1, an int or float as itself; any other value makes the comparison raise
      `TypeError`, which is `None` here. */
  function NumberOf(v: Value): (n: Option<real>)
    ensures n.Some? <==> v.Bool? || v.Int? || v.Float?
  {
    match v
    case Bool(b) => Some(if b then 1.0 else 0.0)
    case Int(i) => Some(i as real)
    case Float(r) => Some(r)
    case _ => None
  }

  /** `str(v)` for the scalars whose text the model defines: strings, ints, bools and
      `None`. Floats and containers are `None` here (their `repr` is not modelled). */
  function StrOf(v: Value): Option<string> {
    match v
    case Text(s) => Some(s)
    case Int(i) => Some(Numerals.IntToDecimal(i))
    case Bool(b) => Some(if b then "True" else "False")
    case Null => Some("None")
    case _ => None
  }
}
