/** Flattening keeps the meaning of a schema, and where it does not. */
module SchemaMeaning {
  import opened Prelude
  import opened SchemaFlatten

  const PROPERTIES := "properties"
  const ADDITIONAL := "additionalProperties"
  const ITEMS := "items"

  /** The assertion of every other keyword, left open: keyword, its value, the instance. */
  type Leaf = (string, Json, Json) -> bool

  // ---------------------------------------------------------------- validity

  function Declared(m: map<string, Json>): set<string> {
    if PROPERTIES in m && m[PROPERTIES].Obj? then m[PROPERTIES].fields.Keys else {}
  }

  /** How many of the schemas accept the value. */
  ghost function Accepting(leaf: Leaf, items: seq<Json>, v: Json): nat
    decreases items, 0
  {
    if items == [] then 0 else (if Accepts(leaf, items[0], v) then 1 else 0) + Accepting(leaf, items[1..], v)
  }

  /** What one keyword asserts; `declared` are the properties declared beside it. */
  ghost predicate Holds(leaf: Leaf, key: string, arg: Json, declared: set<string>, v: Json)
    decreases arg, 1
  {
    if IsDollar(key) then true
    else if key == ALL_OF then arg.Arr? && forall x <- arg.items :: Accepts(leaf, x, v)
    else if key == ANY_OF then arg.Arr? && exists x <- arg.items :: Accepts(leaf, x, v)
    else if key == ONE_OF then arg.Arr? && Accepting(leaf, arg.items, v) == 1
    else if key == PROPERTIES then
      arg.Obj? && (v.Obj? ==> forall p <- arg.fields :: p in v.fields ==> Accepts(leaf, arg.fields[p], v.fields[p]))
    else if key == ADDITIONAL then
      v.Obj? ==> forall p <- v.fields :: p in declared || Accepts(leaf, arg, v.fields[p])
    else if key == ITEMS then
      v.Arr? ==> forall x <- v.items :: Accepts(leaf, arg, x)
    else leaf(key, arg, v)
  }

  /** A small validity: the applicators above, and `leaf` for the rest. */
  ghost predicate Accepts(leaf: Leaf, s: Json, v: Json)
    decreases s, 0
  {
    match s
    case Atom(Bool(b)) => b
    case Obj(m) => forall key <- m :: Holds(leaf, key, m[key], Declared(m), v)
    case _ => false
  }

  // ---------------------------------------------------------------- schemas that flatten well

  /** All three keys, in any order. */
  predicate IsOrder(order: seq<string>) {
    (forall k <- order :: k in KEYS) && forall k <- KEYS :: k in order
  }

  predicate Ordinary(key: string) {
    !IsDollar(key) && key !in KEYS + {PROPERTIES, ADDITIONAL, ITEMS}
  }

  /** Keywords that assert nothing, as titles and descriptions do. */
  ghost predicate AreNotes(leaf: Leaf, notes: set<string>) {
    forall k <- notes :: Ordinary(k) && forall arg, v :: leaf(k, arg, v)
  }

  /** Nothing is merged into the object. */
  predicate Unpicked(m: map<string, Json>) {
    forall k <- KEYS :: k in m ==> Length(m[k]).Some? && Length(m[k]).value != 1
  }

  /** Data that flattening leaves alone. */
  predicate Plain(j: Json) {
    match j
    case Atom(_) => true
    case Arr(items) => forall x <- items :: Plain(x)
    case Obj(m) => Unpicked(m) && forall key <- m :: !IsDollar(key) && Plain(m[key])
  }

  /**
   * Merging `f` from the list `k` into the object `m` is harmless: a key of both has the same argument
   * or asserts nothing, `f` has no list of its own under `k`, and `additionalProperties` sees the
   * properties it saw before.
   */
  predicate MergesWell(notes: set<string>, k: string, m: map<string, Json>, f: map<string, Json>) {
    && k !in f
    && (forall key <- f :: key in m ==> IsDollar(key) || key in notes || f[key] == m[key])
    && (ADDITIONAL in f ==> Declared(m + f) == Declared(f))
    && (ADDITIONAL in m ==> Declared(m + f) == Declared(m))
  }

  predicate Mergeable(notes: set<string>, m: map<string, Json>) {
    forall k <- KEYS :: k in m && Length(m[k]) == Some(1) ==>
      m[k].Arr? && m[k].items[0].Obj? && MergesWell(notes, k, m, m[k].items[0].fields)
  }

  /** A schema: applicators hold schemas, other keywords hold data that stays, merges are harmless. */
  predicate Schema(notes: set<string>, order: seq<string>, s: Json)
    decreases s, 0
  {
    match s
    case Atom(Bool(_)) => true
    case Obj(m) =>
      && Mergeable(notes, m)
      && forall key <- m :: !IsDollar(key) ==> Argument(notes, order, key, m[key])
    case _ => false
  }

  predicate Argument(notes: set<string>, order: seq<string>, key: string, arg: Json)
    decreases arg, 1
  {
    if key in KEYS then arg.Arr? && forall x <- arg.items :: Schema(notes, order, x)
    else if key == PROPERTIES then
      && arg.Obj? && Unpicked(arg.fields)
      && forall p <- arg.fields :: !IsDollar(p) && Schema(notes, order, arg.fields[p])
    else if key == ADDITIONAL || key == ITEMS then Schema(notes, order, arg)
    else if key in notes then !Raises(arg, order)
    else Plain(arg)
  }

  // ---------------------------------------------------------------- no dollar keys remain

  /** No key at any depth begins with a dollar sign. */
  predicate NoDollar(j: Json) {
    match j
    case Atom(_) => true
    case Arr(items) => forall x <- items :: NoDollar(x)
    case Obj(m) => forall key <- m :: !IsDollar(key) && NoDollar(m[key])
  }

  /** Whatever flattening returns has no `$` key left, for every input and every order. */
  lemma {:induction false} FlatHasNoDollar(j: Json, order: seq<string>)
    requires !Raises(j, order)
    ensures NoDollar(Flat(j, order))
  {
    match j
    case Atom(_) =>
    case Arr(items) =>
      forall x | x in Flat(j, order).items
        ensures NoDollar(x)
      {
        var i :| 0 <= i < |items| && x == Flat(items[i], order);
        assert items[i] in items;
        FlatHasNoDollar(items[i], order);
      }
    case Obj(m) =>
      var u := Merged(m, order).value;
      forall key | key in u && Kept(m, order, key)
        ensures NoDollar(Flat(u[key], order))
      {
        MergedIsInside(m, order, key);
        FlatHasNoDollar(u[key], order);
      }
  }

  // ---------------------------------------------------------------- plain data

  lemma {:induction false} PickNoneIff(m: map<string, Json>, order: seq<string>)
    ensures Pick(m, order) == Ok(None)
       <==> forall k <- order :: k in m ==> Length(m[k]).Some? && Length(m[k]).value != 1
  {
    if order == [] {
    } else {
      PickNoneIff(m, order[1..]);
      assert order == [order[0]] + order[1..];
    }
  }

  lemma UnpickedIff(m: map<string, Json>, order: seq<string>)
    requires IsOrder(order)
    ensures Pick(m, order) == Ok(None) <==> Unpicked(m)
  {
    PickNoneIff(m, order);
  }

  lemma UnpickedStays(m: map<string, Json>, order: seq<string>)
    requires IsOrder(order) && Unpicked(m)
    ensures Raises(Obj(m), order) <==> exists key | key in m && !IsDollar(key) :: Raises(m[key], order)
    ensures Flat(Obj(m), order) == Obj(map key | key in m && !IsDollar(key) :: Flat(m[key], order))
  {
    UnpickedIff(m, order);
  }

  /** Data is left alone exactly when no object in it has a `$` key or a one-element list to merge. */
  lemma {:induction false} PlainStaysIff(j: Json, order: seq<string>)
    requires IsOrder(order)
    ensures !Raises(j, order) && Flat(j, order) == j <==> Plain(j)
  {
    match j
    case Atom(_) =>
    case Arr(items) =>
      forall i | 0 <= i < |items|
        ensures !Raises(items[i], order) && Flat(items[i], order) == items[i] <==> Plain(items[i])
      {
        assert items[i] in items;
        PlainStaysIff(items[i], order);
      }
      assert Flat(j, order) == j <==> forall i :: 0 <= i < |items| ==> Flat(items[i], order) == items[i] by {
        var flat := Flat(j, order).items;
        assert forall i :: 0 <= i < |items| ==> flat[i] == Flat(items[i], order);
        assert flat == items <==> forall i :: 0 <= i < |items| ==> flat[i] == items[i];
      }
    case Obj(m) =>
      forall key | key in m
        ensures !Raises(m[key], order) && Flat(m[key], order) == m[key] <==> Plain(m[key])
      {
        PlainStaysIff(m[key], order);
      }
      ObjectStaysIff(m, order);
  }

  lemma ObjectStaysIff(m: map<string, Json>, order: seq<string>)
    requires IsOrder(order)
    ensures !Raises(Obj(m), order) && Flat(Obj(m), order) == Obj(m)
       <==> Unpicked(m) && forall key <- m :: !IsDollar(key) && !Raises(m[key], order) && Flat(m[key], order) == m[key]
  {
    UnpickedIff(m, order);
    if Unpicked(m) {
      UnpickedStays(m, order);
      var flat := map key | key in m && !IsDollar(key) :: Flat(m[key], order);
      assert flat == m <==> forall key <- m :: !IsDollar(key) && Flat(m[key], order) == m[key] by {
        if flat == m {
          forall key | key in m
            ensures !IsDollar(key) && Flat(m[key], order) == m[key]
          {
            assert key in flat;
          }
        }
      }
    } else if Pick(m, order).Ok? {
      PickIsIn(m, order);
      var k := Pick(m, order).value.value;
      assert k in m && !Kept(m, order, k);
      assert !Raises(Obj(m), order) ==> k !in Flat(Obj(m), order).fields;
    }
  }

  // ---------------------------------------------------------------- meaning

  /** What is merged into an object of a schema. */
  lemma PickedIsSingle(notes: set<string>, m: map<string, Json>, order: seq<string>)
    requires Mergeable(notes, m) && IsOrder(order)
    requires forall k <- KEYS :: k in m ==> m[k].Arr?
    ensures Merged(m, order).Ok?
    ensures var p := Pick(m, order);
            && p.Ok?
            && (p.value.Some? ==>
                  var k := p.value.value;
                  && k in m && k in KEYS && |m[k].items| == 1 && m[k].items[0].Obj?
                  && MergesWell(notes, k, m, m[k].items[0].fields)
                  && Merged(m, order).value == m + m[k].items[0].fields)
            && (p.value.None? ==> Merged(m, order).value == m)
  {
    PickIsIn(m, order);
    PickIsOk(m, order);
  }

  lemma {:induction false} PickIsOk(m: map<string, Json>, order: seq<string>)
    requires forall k <- order :: k in m ==> m[k].Arr?
    ensures Pick(m, order).Ok?
  {
    if order == [] {
    } else {
      assert order[0] in order;
      PickIsOk(m, order[1..]);
    }
  }

  ghost predicate SameMeaning(leaf: Leaf, a: Json, b: Json) {
    forall v :: Accepts(leaf, a, v) <==> Accepts(leaf, b, v)
  }

  predicate SameNames(a: Json, b: Json) {
    a.Obj? && b.Obj? && a.fields.Keys == b.fields.Keys
  }

  ghost predicate SameArgument(leaf: Leaf, key: string, a: Json, b: Json) {
    forall declared, v :: Holds(leaf, key, a, declared, v) <==> Holds(leaf, key, b, declared, v)
  }

  lemma SingleList(leaf: Leaf, key: string, x: Json, declared: set<string>, v: Json)
    requires key in KEYS
    ensures Holds(leaf, key, Arr([x]), declared, v) <==> Accepts(leaf, x, v)
  {
    assert [x][0] == x && x in [x];
    KeysDiffer();
    assert Accepting(leaf, [x], v) == (if Accepts(leaf, x, v) then 1 else 0) by {
      assert [x][1..] == [];
    }
  }

  lemma KeysDiffer()
    ensures ALL_OF != ANY_OF && ALL_OF != ONE_OF && ANY_OF != ONE_OF
    ensures PROPERTIES !in KEYS && ADDITIONAL !in KEYS && ITEMS !in KEYS
    ensures PROPERTIES != ADDITIONAL && PROPERTIES != ITEMS && ADDITIONAL != ITEMS
    ensures forall k <- KEYS + {PROPERTIES, ADDITIONAL, ITEMS} :: !IsDollar(k)
  {
    assert ALL_OF[1] == 'l' && ANY_OF[1] == 'n' && ONE_OF[0] == 'o';
    assert PROPERTIES[0] == 'p' && ADDITIONAL[1] == 'd' && ITEMS[0] == 'i' && ALL_OF[0] == 'a' && ANY_OF[0] == 'a'
           && ADDITIONAL[0] == 'a';
  }

  lemma ListsMean(leaf: Leaf, key: string, a: seq<Json>, b: seq<Json>)
    requires key in KEYS && |a| == |b|
    requires forall i :: 0 <= i < |a| ==> SameMeaning(leaf, a[i], b[i])
    ensures SameArgument(leaf, key, Arr(a), Arr(b))
  {
    KeysDiffer();
    hide Accepts, Accepting;
    forall declared: set<string>, v
      ensures Holds(leaf, key, Arr(a), declared, v) <==> Holds(leaf, key, Arr(b), declared, v)
    {
      assert forall i :: 0 <= i < |a| ==> (Accepts(leaf, a[i], v) <==> Accepts(leaf, b[i], v));
      AllMean(leaf, a, b, v);
      AllMean(leaf, b, a, v);
      OneMean(leaf, a, b, v);
    }
  }

  lemma AllMean(leaf: Leaf, a: seq<Json>, b: seq<Json>, v: Json)
    requires |a| == |b|
    requires forall i :: 0 <= i < |a| ==> (Accepts(leaf, a[i], v) <==> Accepts(leaf, b[i], v))
    ensures (forall x <- a :: Accepts(leaf, x, v)) ==> forall x <- b :: Accepts(leaf, x, v)
    ensures (exists x <- a :: Accepts(leaf, x, v)) ==> exists x <- b :: Accepts(leaf, x, v)
  {
    hide Accepts;
    if forall x <- a :: Accepts(leaf, x, v) {
      forall x | x in b
        ensures Accepts(leaf, x, v)
      {
        var i :| 0 <= i < |b| && b[i] == x;
        assert a[i] in a;
      }
    }
    if exists x <- a :: Accepts(leaf, x, v) {
      var x :| x in a && Accepts(leaf, x, v);
      var i :| 0 <= i < |a| && a[i] == x;
      assert b[i] in b;
    }
  }

  lemma {:induction false} OneMean(leaf: Leaf, a: seq<Json>, b: seq<Json>, v: Json)
    requires |a| == |b|
    requires forall i :: 0 <= i < |a| ==> (Accepts(leaf, a[i], v) <==> Accepts(leaf, b[i], v))
    ensures Accepting(leaf, a, v) == Accepting(leaf, b, v)
  {
    if a == [] {
    } else {
      assert Accepts(leaf, a[0], v) <==> Accepts(leaf, b[0], v);
      OneMean(leaf, a[1..], b[1..], v);
    }
  }

  /** Flattening a keyword's argument keeps what the keyword asserts. */
  lemma {:induction false} ArgumentMeans(leaf: Leaf, notes: set<string>, key: string, arg: Json, order: seq<string>)
    requires AreNotes(leaf, notes) && IsOrder(order)
    requires Argument(notes, order, key, arg) && !IsDollar(key)
    ensures !Raises(arg, order)
    ensures SameArgument(leaf, key, Flat(arg, order), arg)
    ensures key == PROPERTIES ==> SameNames(Flat(arg, order), arg)
    decreases arg, 1
  {
    KeysDiffer();
    if key in KEYS {
      forall i | 0 <= i < |arg.items|
        ensures !Raises(arg.items[i], order) && SameMeaning(leaf, Flat(arg.items[i], order), arg.items[i])
      {
        assert arg.items[i] in arg.items;
        FlatMeans(leaf, notes, arg.items[i], order);
      }
      ListsMean(leaf, key, Flat(arg, order).items, arg.items);
    } else if key == PROPERTIES {
      forall p | p in arg.fields
        ensures !Raises(arg.fields[p], order) && SameMeaning(leaf, Flat(arg.fields[p], order), arg.fields[p])
      {
        FlatMeans(leaf, notes, arg.fields[p], order);
      }
      UnpickedStays(arg.fields, order);
      PropertiesMean(leaf, Flat(arg, order).fields, arg.fields);
    } else if key == ADDITIONAL || key == ITEMS {
      FlatMeans(leaf, notes, arg, order);
      ValueMeans(leaf, key, Flat(arg, order), arg);
    } else if key in notes {
      assert Ordinary(key);
    } else {
      PlainStaysIff(arg, order);
    }
  }

  lemma PropertiesMean(leaf: Leaf, a: map<string, Json>, b: map<string, Json>)
    requires a.Keys == b.Keys && forall p <- a :: SameMeaning(leaf, a[p], b[p])
    ensures SameArgument(leaf, PROPERTIES, Obj(a), Obj(b))
  {
    KeysDiffer();
    forall v, p | p in a
      ensures Accepts(leaf, a[p], v) <==> Accepts(leaf, b[p], v)
    {
      assert SameMeaning(leaf, a[p], b[p]);
    }
  }

  lemma ValueMeans(leaf: Leaf, key: string, a: Json, b: Json)
    requires key == ADDITIONAL || key == ITEMS
    requires SameMeaning(leaf, a, b)
    ensures SameArgument(leaf, key, a, b)
  {
    KeysDiffer();
  }

  /** Only `additionalProperties` looks at the properties declared beside it. */
  lemma DeclaredMatters(leaf: Leaf, key: string, arg: Json, d1: set<string>, d2: set<string>, v: Json)
    requires key == ADDITIONAL ==> d1 == d2
    ensures Holds(leaf, key, arg, d1, v) <==> Holds(leaf, key, arg, d2, v)
  {
  }

  /** Flattening a schema keeps the values it accepts, whatever the order in which the keys are tried. */
  lemma {:induction false} FlatMeans(leaf: Leaf, notes: set<string>, s: Json, order: seq<string>)
    requires AreNotes(leaf, notes) && IsOrder(order) && Schema(notes, order, s)
    ensures !Raises(s, order)
    ensures SameMeaning(leaf, Flat(s, order), s)
    decreases s, 0
  {
    if s.Obj? {
      var m := s.fields;
      PickedIsSingle(notes, m, order);
      var u := Merged(m, order).value;
      forall key | key in u && Kept(m, order, key)
        ensures !Raises(u[key], order) && SameArgument(leaf, key, Flat(u[key], order), u[key])
        ensures key == PROPERTIES ==> SameNames(Flat(u[key], order), u[key])
      {
        MergedIsInside(m, order, key);
        MergedArgument(notes, m, order, key);
        ArgumentMeans(leaf, notes, key, u[key], order);
      }
      forall v
        ensures Accepts(leaf, Flat(s, order), v) <==> Accepts(leaf, s, v)
      {
        FlatObject(leaf, m, order, v);
        MergedMeans(leaf, notes, m, order, v);
      }
    }
  }

  lemma MergedArgument(notes: set<string>, m: map<string, Json>, order: seq<string>, key: string)
    requires Schema(notes, order, Obj(m)) && IsOrder(order)
    requires Merged(m, order).Ok? && key in Merged(m, order).value && !IsDollar(key)
    ensures Argument(notes, order, key, Merged(m, order).value[key])
  {
    KeysDiffer();
    PickedIsSingle(notes, m, order);
    var p := Pick(m, order);
    if p.value.Some? {
      var k := p.value.value;
      assert m[k].items[0] in m[k].items;
      assert Schema(notes, order, m[k].items[0]);
    }
  }

  /** The kept fields of the merged object, each asserting what it asserted before flattening. */
  ghost predicate KeptHold(leaf: Leaf, m: map<string, Json>, order: seq<string>, v: Json)
    requires Merged(m, order).Ok?
  {
    var u := Merged(m, order).value;
    forall key <- u :: Kept(m, order, key) ==> Holds(leaf, key, u[key], Declared(u), v)
  }

  lemma FlatObject(leaf: Leaf, m: map<string, Json>, order: seq<string>, v: Json)
    requires Merged(m, order).Ok? && IsOrder(order)
    requires var u := Merged(m, order).value;
             forall key | key in u && Kept(m, order, key) ::
               && SameArgument(leaf, key, Flat(u[key], order), u[key])
               && (key == PROPERTIES ==> SameNames(Flat(u[key], order), u[key]))
    ensures Accepts(leaf, Flat(Obj(m), order), v) <==> KeptHold(leaf, m, order, v)
  {
    var u := Merged(m, order).value;
    var f := Flat(Obj(m), order).fields;
    PickIsIn(m, order);
    KeysDiffer();
    assert Kept(m, order, PROPERTIES);
    assert Declared(f) == Declared(u);
    assert f.Keys == set key | key in u && Kept(m, order, key);
    forall key | key in f
      ensures Holds(leaf, key, f[key], Declared(f), v) <==> Holds(leaf, key, u[key], Declared(u), v)
    {
      assert SameArgument(leaf, key, f[key], u[key]);
    }
  }

  lemma NotesHold(leaf: Leaf, notes: set<string>, key: string, arg: Json, declared: set<string>, v: Json)
    requires AreNotes(leaf, notes) && key in notes
    ensures Holds(leaf, key, arg, declared, v)
  {
    assert Ordinary(key);
  }

  /** A key of both asserts on the outer level what it asserts on the inner one, or nothing. */
  lemma SharedKeyHolds(leaf: Leaf, notes: set<string>, k: string, m: map<string, Json>, f: map<string, Json>,
                       key: string, v: Json)
    requires AreNotes(leaf, notes) && MergesWell(notes, k, m, f) && key in m && key in f
    ensures Holds(leaf, key, f[key], Declared(f), v) ==> Holds(leaf, key, m[key], Declared(m), v)
  {
    hide Declared;
    if key in notes {
      NotesHold(leaf, notes, key, m[key], Declared(m), v);
    } else if f[key] == m[key] {
      DeclaredMatters(leaf, key, m[key], Declared(f), Declared(m), v);
    }
  }

  /** Each keyword of the merged object asserts what it asserted on its own level. */
  lemma MergedKeyHolds(leaf: Leaf, notes: set<string>, k: string, m: map<string, Json>, f: map<string, Json>,
                       key: string, v: Json)
    requires MergesWell(notes, k, m, f) && key in m + f
    ensures Holds(leaf, key, (m + f)[key], Declared(m + f), v)
       <==> if key in f then Holds(leaf, key, f[key], Declared(f), v) else Holds(leaf, key, m[key], Declared(m), v)
  {
    hide Declared;
    if key in f {
      DeclaredMatters(leaf, key, f[key], Declared(m + f), Declared(f), v);
    } else {
      DeclaredMatters(leaf, key, m[key], Declared(m + f), Declared(m), v);
    }
  }

  lemma PickedMeans(leaf: Leaf, notes: set<string>, m: map<string, Json>, k: string, f: map<string, Json>,
                    order: seq<string>, v: Json)
    requires AreNotes(leaf, notes) && MergesWell(notes, k, m, f) && k in KEYS
    requires k in m && m[k] == Arr([Obj(f)]) && Pick(m, order) == Ok(Some(k)) && Merged(m, order) == Ok(m + f)
    ensures KeptHold(leaf, m, order, v) <==> Accepts(leaf, Obj(m), v)
  {
    var u := m + f;
    KeysDiffer();
    SingleList(leaf, k, Obj(f), Declared(m), v);
    assert k !in f;
    forall key | key in u
      ensures Holds(leaf, key, u[key], Declared(u), v)
         <==> if key in f then Holds(leaf, key, f[key], Declared(f), v) else Holds(leaf, key, m[key], Declared(m), v)
    {
      MergedKeyHolds(leaf, notes, k, m, f, key, v);
    }
    forall key | key in m && key in f
      ensures Holds(leaf, key, f[key], Declared(f), v) ==> Holds(leaf, key, m[key], Declared(m), v)
    {
      SharedKeyHolds(leaf, notes, k, m, f, key, v);
    }
    forall key | IsDollar(key) && key in u
      ensures Holds(leaf, key, u[key], Declared(u), v)
    {
    }
    hide Holds, Declared, MergesWell, AreNotes, Pick, Merged, IsDollar;
  }

  lemma MergedMeans(leaf: Leaf, notes: set<string>, m: map<string, Json>, order: seq<string>, v: Json)
    requires AreNotes(leaf, notes) && Schema(notes, order, Obj(m)) && IsOrder(order) && Merged(m, order).Ok?
    ensures KeptHold(leaf, m, order, v) <==> Accepts(leaf, Obj(m), v)
  {
    KeysDiffer();
    PickedIsSingle(notes, m, order);
    var p := Pick(m, order).value;
    if p.Some? {
      var k := p.value;
      var f := m[k].items[0].fields;
      assert m[k] == Arr([Obj(f)]);
      hide *;
      PickedMeans(leaf, notes, m, k, f, order, v);
    } else {
      assert forall key <- m :: IsDollar(key) ==> Holds(leaf, key, m[key], Declared(m), v);
      hide Holds, Declared, Pick, Merged, IsDollar;
    }
  }

  // ---------------------------------------------------------------- main results

  /** The list under `k` has one element, an object of these fields. */
  predicate HoldsOne(m: map<string, Json>, k: string, f: map<string, Json>) {
    k in KEYS && k in m && m[k] == Arr([Obj(f)])
  }

  /** The fields are those of `m`, overridden by those of `f`, without the list and the `$` keys, each flattened. */
  ghost predicate IsUpdate(r: map<string, Json>, m: map<string, Json>, k: string, f: map<string, Json>,
                           order: seq<string>) {
    && (forall key :: key in r <==> (key in m || key in f) && key != k && !IsDollar(key))
    && (forall key <- r :: key in f ==> r[key] == Flat(f[key], order))
    && (forall key <- r :: key in m && key !in f ==> r[key] == Flat(m[key], order))
  }

  /**
   * One level of flattening: without a list of one element every field that is no `$` key is kept and
   * flattened; with one, exactly one such list goes, and the fields of its element override the others.
   */
  lemma FlatLevel(m: map<string, Json>, order: seq<string>)
    requires IsOrder(order) && !Raises(Obj(m), order)
    ensures Flat(Obj(m), order).Obj?
    ensures var r := Flat(Obj(m), order).fields;
            if Unpicked(m) then
              && (forall key :: key in r <==> key in m && !IsDollar(key))
              && (forall key <- r :: r[key] == Flat(m[key], order))
            else exists k, f :: HoldsOne(m, k, f) && IsUpdate(r, m, k, f, order)
  {
    UnpickedIff(m, order);
    PickIsIn(m, order);
    var p := Pick(m, order);
    if p == Ok(None) {
      hide Raises, Pick, Unpicked;
    } else {
      var k := p.value.value;
      var f := Single(m[k]).value;
      assert m[k].Arr? && m[k].items == [Obj(f)];
      assert HoldsOne(m, k, f);
      hide Raises, Pick, Unpicked, HoldsOne;
      assert IsUpdate(Flat(Obj(m), order).fields, m, k, f, order);
    }
  }

  /** Flattening a schema succeeds, accepts the same values, and leaves no `$` key, whatever the order. */
  lemma FlatteningKeepsMeaning(leaf: Leaf, notes: set<string>, s: Json, order: seq<string>)
    requires AreNotes(leaf, notes) && IsOrder(order) && Schema(notes, order, s)
    ensures var r := RefToDict(s, order);
            r.Ok? && SameMeaning(leaf, r.value, s) && NoDollar(r.value)
  {
    FlatMeans(leaf, notes, s, order);
    FlatHasNoDollar(s, order);
  }

  /** The order in which the keys are tried, which Python does not fix, makes no difference to the meaning. */
  lemma OrderDoesNotMatter(leaf: Leaf, notes: set<string>, s: Json, first: seq<string>, second: seq<string>)
    requires AreNotes(leaf, notes) && IsOrder(first) && IsOrder(second)
    requires Schema(notes, first, s) && Schema(notes, second, s)
    ensures SameMeaning(leaf, Flat(s, first), Flat(s, second))
  {
    FlatMeans(leaf, notes, s, first);
    FlatMeans(leaf, notes, s, second);
    forall v
      ensures Accepts(leaf, Flat(s, first), v) <==> Accepts(leaf, Flat(s, second), v)
    {
      assert Accepts(leaf, Flat(s, first), v) <==> Accepts(leaf, s, v);
      assert Accepts(leaf, Flat(s, second), v) <==> Accepts(leaf, s, v);
    }
  }
}
