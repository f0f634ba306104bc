/** Trees of JSON or YAML values, as Python holds them once parsed. */
module JsonTree {

  /** A number comes with the text Python writes for it. */
  datatype Json =
    | Null
    | Bool(b: bool)
    | Num(value: real, text: string)
    | Str(s: string)
    | List(items: seq<Json>)
    | Obj(members: map<string, Json>)

  /** What Python's `if` takes for true. */
  predicate Truthy(j: Json) {
    match j
    case Null => false
    case Bool(b) => b
    case Num(value, _) => value != 0.0
    case Str(s) => s != ""
    case List(items) => items != []
    case Obj(members) => members != map[]
  }

  /** Nothing, false, zero, and whatever is empty; and no more. */
  lemma FalseAre(j: Json)
    ensures !Truthy(j) <==>
              j == Null || j == Bool(false) || (j.Num? && j.value == 0.0) || j == Str("") || j == List([]) || j == Obj(map[])
  {
  }

  /** `dict.get`: no entry and a null entry look the same. */
  function Get(m: map<string, Json>, k: string): Json {
    if k in m then m[k] else Null
  }
}
