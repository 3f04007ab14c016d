/** Reading parsed payloads the tolerant way the collectors do. */
module Payload {
  import opened Json

  // None, '', [] and {}.
  predicate Empty(v: Json) {
    v == Null || v == Str("") || v == List([]) || v == Dict([])
  }

  // Python's truth of a value.
  predicate Truthy(v: Json) { !Empty(v) && v != Bool(false) && !(v.Num? && v.value == 0.0) }

  // A nested lookup of one key: null when the node is no dictionary or lacks it.
  function At(node: Json, key: string): Json {
    if node.Dict? && Find(node.fields, key).Some? then Find(node.fields, key).value else Null
  }

  // A single list entry may arrive bare, and none as null.
  function AsList(node: Json): seq<Json> {
    if node == Null then [] else if node.List? then node.items else [node]
  }

  function DictsOf(items: seq<Json>): seq<Json> {
    if items == [] then []
    else if items[0].Dict? then [items[0]] + DictsOf(items[1..])
    else DictsOf(items[1..])
  }

  function Dicts(node: Json): seq<Json> { DictsOf(AsList(node)) }

  // `str`, which leaves text alone.
  function StrOf(v: Json, str: Json -> string): string { if v.Str? then v.s else str(v) }

  // ----- equality ----------------------------------------------------------------------

  // What Python's `==` sees of a value: numbers and booleans by what they are worth, lists
  // item by item, dictionaries in no order.
  function Meaning(v: Json): Json
    decreases v, 1
  {
    match v
    case Bool(b) => Num(if b then 1.0 else 0.0, "")
    case Num(value, _) => Num(value, "")
    case List(items) => List(MeaningItems(items))
    case Dict(fields) => Dict(MeaningFields(fields))
    case _ => v
  }

  function MeaningItems(items: seq<Json>): (r: seq<Json>)
    ensures |r| == |items|
    decreases items, 0
  {
    if items == [] then [] else [Meaning(items[0])] + MeaningItems(items[1..])
  }

  function MeaningFields(fields: seq<Field>): seq<Field>
    decreases fields, 0
  {
    if fields == [] then []
    else InsertField(Field(fields[0].key, Meaning(fields[0].value)), MeaningFields(fields[1..]))
  }
}
