/** Flattening of a resolved JSON schema: one-element `allOf`, `anyOf` or `oneOf` lists are merged upwards. */
module SchemaFlatten {
  import opened Prelude

  datatype Atomic = Null | Bool(b: bool) | Number(n: int) | Text(s: string)

  datatype Json = Atom(value: Atomic) | Arr(items: seq<Json>) | Obj(fields: map<string, Json>)

  const ALL_OF := "allOf"
  const ANY_OF := "anyOf"
  const ONE_OF := "oneOf"
  const KEYS := {ALL_OF, ANY_OF, ONE_OF}

  predicate IsDollar(key: string) {
    key != "" && key[0] == '$'
  }

  // ---------------------------------------------------------------- the transformation

  /** Python's `len` of a value, if it has one. */
  function Length(j: Json): Option<nat> {
    match j
    case Arr(items) => Some(|items|)
    case Obj(fields) => Some(|fields|)
    case Atom(Text(s)) => Some(|s|)
    case _ => None
  }

  /** The first of the keys, in the set's iteration order, whose value has one element. */
  function Pick(m: map<string, Json>, order: seq<string>): Result<Option<string>, string> {
    if order == [] then Ok(None)
    else if order[0] !in m then Pick(m, order[1..])
    else
      match Length(m[order[0]])
      case None => Err("TypeError")
      case Some(n) => if n == 1 then Ok(Some(order[0])) else Pick(m, order[1..])
  }

  lemma {:induction false} PickIsIn(m: map<string, Json>, order: seq<string>)
    ensures var p := Pick(m, order);
            p.Ok? && p.value.Some?
            ==> p.value.value in m && p.value.value in order && Length(m[p.value.value]) == Some(1)
  {
    if order == [] {
    } else {
      PickIsIn(m, order[1..]);
    }
  }

  /** The mapping that is merged into the object; indexing or updating with anything else raises. */
  function Single(j: Json): Result<map<string, Json>, string> {
    match j
    case Arr(items) =>
      if |items| == 1 && items[0].Obj? then Ok(items[0].fields) else Err("TypeError")
    case Obj(_) => Err("KeyError")
    case Atom(_) => Err("ValueError")
  }

  /** The object's fields after the in-place update. */
  function Merged(m: map<string, Json>, order: seq<string>): Result<map<string, Json>, string> {
    match Pick(m, order)
    case Err(e) => Err(e)
    case Ok(None) => Ok(m)
    case Ok(Some(k)) =>
      PickIsIn(m, order);
      match Single(m[k])
      case Err(e) => Err(e)
      case Ok(f) => Ok(m + f)
  }

  predicate Kept(m: map<string, Json>, order: seq<string>, key: string) {
    !IsDollar(key) && Pick(m, order) != Ok(Some(key))
  }

  lemma MergedIsInside(m: map<string, Json>, order: seq<string>, key: string)
    requires Merged(m, order).Ok? && key in Merged(m, order).value
    ensures Merged(m, order).value[key] < Obj(m)
  {
    PickIsIn(m, order);
    var p := Pick(m, order);
    if p.value.Some? {
      var k := p.value.value;
      var f := Single(m[k]).value;
      if key in f {
        assert m[k].items[0] == Obj(f);
        assert f[key] < m[k].items[0] < m[k] < Obj(m);
      }
    }
  }

  /** Whether flattening raises. */
  predicate Raises(j: Json, order: seq<string>) {
    match j
    case Atom(_) => false
    case Arr(items) => exists x <- items :: Raises(x, order)
    case Obj(m) =>
      match Merged(m, order)
      case Err(_) => true
      case Ok(u) =>
        exists key | key in u && Kept(m, order, key) :: MergedIsInside(m, order, key); Raises(u[key], order)
  }

  /** What flattening returns when it does not raise. */
  function Flat(j: Json, order: seq<string>): Json {
    match j
    case Atom(_) => j
    case Arr(items) => Arr(seq(|items|, i requires 0 <= i < |items| => Flat(items[i], order)))
    case Obj(m) =>
      match Merged(m, order)
      case Err(_) => j
      case Ok(u) =>
        Obj(map key | key in u && Kept(m, order, key) :: MergedIsInside(m, order, key); Flat(u[key], order))
  }

  function RefToDict(j: Json, order: seq<string>): Result<Json, string> {
    if Raises(j, order) then Err("raised") else Ok(Flat(j, order))
  }
}
