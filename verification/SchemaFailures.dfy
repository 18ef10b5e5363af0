/** The ways in which flattening changes the meaning of a schema or raises, each with its exact condition. */
module SchemaFailures {
  import opened Prelude
  import opened SchemaFlatten
  import opened SchemaMeaning

  // ---------------------------------------------------------------- one keyword

  lemma OneKey(leaf: Leaf, key: string, arg: Json, v: Json)
    ensures var m := map[key := arg];
            Accepts(leaf, Obj(m), v) <==> Holds(leaf, key, arg, Declared(m), v)
  {
    assert map[key := arg][key] == arg;
  }

  lemma OneKeyFlat(key: string, arg: Json, order: seq<string>)
    requires IsOrder(order) && key !in KEYS && !IsDollar(key)
    ensures Raises(Obj(map[key := arg]), order) <==> Raises(arg, order)
    ensures Flat(Obj(map[key := arg]), order) == Obj(map[key := Flat(arg, order)])
  {
    var m := map[key := arg];
    UnpickedStays(m, order);
    assert (map k | k in m && !IsDollar(k) :: Flat(m[k], order)) == map[key := Flat(arg, order)];
  }

  // ---------------------------------------------------------------- names of properties

  ghost predicate AcceptsAll(leaf: Leaf, s: Json) {
    forall v :: Accepts(leaf, s, v)
  }

  function WithoutDollar(ps: map<string, Json>): map<string, Json> {
    map p | p in ps && !IsDollar(p) :: ps[p]
  }

  lemma DollarNamesGo(ps: map<string, Json>, order: seq<string>)
    requires IsOrder(order) && Unpicked(ps)
    ensures Unpicked(WithoutDollar(ps))
    ensures Flat(Obj(ps), order) == Flat(Obj(WithoutDollar(ps)), order)
    ensures Raises(Obj(ps), order) <==> Raises(Obj(WithoutDollar(ps)), order)
  {
    var qs := WithoutDollar(ps);
    assert Unpicked(qs) by {
      KeysDiffer();
    }
    UnpickedIff(ps, order);
    UnpickedIff(qs, order);
    assert Merged(ps, order) == Ok(ps) && Merged(qs, order) == Ok(qs);
    hide Pick, Unpicked, IsOrder, IsDollar, Merged;
    SameKept(ps, order);
  }

  lemma SameKept(ps: map<string, Json>, order: seq<string>)
    requires Merged(ps, order) == Ok(ps) && Merged(WithoutDollar(ps), order) == Ok(WithoutDollar(ps))
    requires Pick(ps, order) == Ok(None) == Pick(WithoutDollar(ps), order)
    ensures Flat(Obj(ps), order) == Flat(Obj(WithoutDollar(ps)), order)
    ensures Raises(Obj(ps), order) <==> Raises(Obj(WithoutDollar(ps)), order)
  {
    hide IsDollar, Merged, Pick;
    var qs := WithoutDollar(ps);
    assert forall p :: p in qs && Kept(qs, order, p) <==> p in ps && Kept(ps, order, p);
    assert Flat(Obj(ps), order).fields == Flat(Obj(qs), order).fields;
  }

  lemma PropertiesHold(leaf: Leaf, ps: map<string, Json>, v: Json)
    ensures Accepts(leaf, Obj(map[PROPERTIES := Obj(ps)]), v)
       <==> (v.Obj? ==> forall p <- ps :: p in v.fields ==> Accepts(leaf, ps[p], v.fields[p]))
  {
    KeysDiffer();
    OneKey(leaf, PROPERTIES, Obj(ps), v);
  }

  /**
   * The schemas of properties whose names begin with a dollar sign are dropped, so the meaning stays
   * exactly when each of them accepts everything.
   */
  lemma DollarPropertiesIff(leaf: Leaf, notes: set<string>, ps: map<string, Json>, order: seq<string>)
    requires AreNotes(leaf, notes) && IsOrder(order) && Unpicked(ps)
    requires forall p <- ps :: !IsDollar(p) ==> Schema(notes, order, ps[p])
    ensures var s := Obj(map[PROPERTIES := Obj(ps)]);
            && !Raises(s, order)
            && (SameMeaning(leaf, Flat(s, order), s) <==> forall p <- ps :: IsDollar(p) ==> AcceptsAll(leaf, ps[p]))
  {
    var qs := WithoutDollar(ps);
    var s, t := Obj(map[PROPERTIES := Obj(ps)]), Obj(map[PROPERTIES := Obj(qs)]);
    KeysDiffer();
    DollarNamesGo(ps, order);
    OneKeyFlat(PROPERTIES, Obj(ps), order);
    OneKeyFlat(PROPERTIES, Obj(qs), order);
    assert Argument(notes, order, PROPERTIES, Obj(qs));
    FlatMeans(leaf, notes, t, order);
    assert Flat(s, order) == Flat(t, order);
    hide Accepts, Flat, Raises, Schema, IsDollar;
    SameProperties(leaf, ps);
    assert SameMeaning(leaf, t, s) ==> SameMeaning(leaf, Flat(t, order), s) by {
      Chain(leaf, Flat(t, order), t, s);
    }
    if SameMeaning(leaf, Flat(t, order), s) {
      Turn(leaf, Flat(t, order), t);
      Chain(leaf, t, Flat(t, order), s);
    }
  }

  lemma Chain(leaf: Leaf, a: Json, b: Json, c: Json)
    ensures SameMeaning(leaf, a, b) && SameMeaning(leaf, b, c) ==> SameMeaning(leaf, a, c)
  {
    hide Accepts;
    if SameMeaning(leaf, a, b) && SameMeaning(leaf, b, c) {
      forall v
        ensures Accepts(leaf, a, v) <==> Accepts(leaf, c, v)
      {
        assert Accepts(leaf, a, v) <==> Accepts(leaf, b, v);
      }
    }
  }

  lemma Turn(leaf: Leaf, a: Json, b: Json)
    requires SameMeaning(leaf, a, b)
    ensures SameMeaning(leaf, b, a)
  {
    hide Accepts;
    forall v
      ensures Accepts(leaf, b, v) <==> Accepts(leaf, a, v)
    {
      assert Accepts(leaf, a, v) <==> Accepts(leaf, b, v);
    }
  }

  lemma SameProperties(leaf: Leaf, ps: map<string, Json>)
    ensures SameMeaning(leaf, Obj(map[PROPERTIES := Obj(WithoutDollar(ps))]), Obj(map[PROPERTIES := Obj(ps)]))
       <==> forall p <- ps :: IsDollar(p) ==> AcceptsAll(leaf, ps[p])
  {
    hide Accepts, IsDollar;
    var qs := WithoutDollar(ps);
    var s, t := Obj(map[PROPERTIES := Obj(ps)]), Obj(map[PROPERTIES := Obj(qs)]);
    if SameMeaning(leaf, t, s) {
      forall p, x | p in ps && IsDollar(p)
        ensures Accepts(leaf, ps[p], x)
      {
        var v := Obj(map[p := x]);
        PropertiesHold(leaf, qs, v);
        PropertiesHold(leaf, ps, v);
        assert Accepts(leaf, t, v) <==> Accepts(leaf, s, v);
        assert v.fields[p] == x;
      }
    }
    if forall p <- ps :: IsDollar(p) ==> AcceptsAll(leaf, ps[p]) {
      forall v
        ensures Accepts(leaf, t, v) <==> Accepts(leaf, s, v)
      {
        PropertiesHold(leaf, qs, v);
        PropertiesHold(leaf, ps, v);
      }
    }
  }

  predicate IsSchemaValue(j: Json) {
    j.Obj? || (j.Atom? && j.value.Bool?)
  }

  /**
   * A property named `allOf`, `anyOf` or `oneOf` is taken for a keyword: flattening raises exactly when
   * its schema is a Boolean or has a single key.
   */
  lemma KeyNamedPropertyRaisesIff(ps: map<string, Json>, order: seq<string>)
    requires IsOrder(order) && forall p <- ps :: IsSchemaValue(ps[p]) && !Raises(ps[p], order)
    ensures Raises(Obj(map[PROPERTIES := Obj(ps)]), order)
       <==> exists k <- KEYS :: k in ps && (ps[k].Obj? ==> |ps[k].fields| == 1)
  {
    KeysDiffer();
    OneKeyFlat(PROPERTIES, Obj(ps), order);
    UnpickedIff(ps, order);
    PickIsIn(ps, order);
    if Unpicked(ps) {
      UnpickedStays(ps, order);
    } else {
      assert Merged(ps, order).Err?;
    }
  }

  // ---------------------------------------------------------------- data

  /** Data under an ordinary keyword is left in place for every meaning of the keyword exactly when it is plain. */
  lemma DataStaysIff(key: string, d: Json, order: seq<string>)
    requires IsOrder(order) && Ordinary(key)
    ensures var s := Obj(map[key := d]);
            (!Raises(s, order) && forall leaf: Leaf :: SameMeaning(leaf, Flat(s, order), s)) <==> Plain(d)
  {
    var s := Obj(map[key := d]);
    OneKeyFlat(key, d, order);
    PlainStaysIff(d, order);
    hide Flat, Raises, Plain;
    if !Raises(s, order) && forall leaf: Leaf :: SameMeaning(leaf, Flat(s, order), s) {
      var isArgument: Leaf := (k, arg, v) => arg == v;
      assert SameMeaning(isArgument, Flat(s, order), s);
      OneKey(isArgument, key, d, d);
      OneKey(isArgument, key, Flat(d, order), d);
      ItsArgumentHolds(isArgument, key, d, Flat(d, order));
      assert Accepts(isArgument, Flat(s, order), d) <==> Accepts(isArgument, s, d);
    }
  }

  lemma ItsArgumentHolds(leaf: Leaf, key: string, d: Json, other: Json)
    requires Ordinary(key) && forall k, a, v :: leaf(k, a, v) <==> a == v
    ensures Holds(leaf, key, d, {}, d)
    ensures Holds(leaf, key, other, {}, d) <==> other == d
  {
  }

  // ---------------------------------------------------------------- merges

  lemma {:induction false} OnlyPick(m: map<string, Json>, k: string, order: seq<string>)
    requires k in order && k in m && Length(m[k]) == Some(1)
    requires forall j <- order :: j in m ==> j == k
    ensures Pick(m, order) == Ok(Some(k))
  {
    if order[0] == k {
    } else {
      assert order[0] in order;
      OnlyPick(m, k, order[1..]);
    }
  }

  /** An object with one list to merge. */
  function With(rest: map<string, Json>, k: string, f: map<string, Json>): map<string, Json> {
    rest[k := Arr([Obj(f)])]
  }

  lemma WithMerges(rest: map<string, Json>, k: string, f: map<string, Json>, order: seq<string>)
    requires IsOrder(order) && k in KEYS && rest.Keys !! KEYS
    ensures Pick(With(rest, k, f), order) == Ok(Some(k))
    ensures Merged(With(rest, k, f), order) == Ok(With(rest, k, f) + f)
  {
    OnlyPick(With(rest, k, f), k, order);
    assert [Obj(f)][0] == Obj(f);
  }

  predicate PlainKeywords(m: map<string, Json>) {
    forall key <- m :: Ordinary(key) && Plain(m[key])
  }

  lemma PlainKeywordsMerge(rest: map<string, Json>, k: string, f: map<string, Json>, order: seq<string>)
    requires IsOrder(order) && k in KEYS && PlainKeywords(rest) && PlainKeywords(f)
    ensures !Raises(Obj(With(rest, k, f)), order)
    ensures Flat(Obj(With(rest, k, f)), order) == Obj(rest + f)
  {
    WithMerges(rest, k, f, order);
    var m := With(rest, k, f);
    var u := m + f;
    hide Merged, Pick, Flat, Raises, Plain;
    assert forall key :: key in u && Kept(m, order, key) <==> key in rest + f;
    forall key | key in u && Kept(m, order, key)
      ensures u[key] == (rest + f)[key] && !Raises(u[key], order) && Flat(u[key], order) == u[key]
    {
      PlainStaysIff(u[key], order);
    }
    AllStay(m, u, rest + f, order);
  }

  /** An object whose kept fields stay as they are becomes the object of these fields. */
  lemma AllStay(m: map<string, Json>, u: map<string, Json>, kept: map<string, Json>, order: seq<string>)
    requires Merged(m, order) == Ok(u)
    requires forall key :: key in u && Kept(m, order, key) <==> key in kept
    requires forall key <- kept :: u[key] == kept[key] && !Raises(u[key], order) && Flat(u[key], order) == u[key]
    ensures !Raises(Obj(m), order) && Flat(Obj(m), order) == Obj(kept)
  {
    hide Merged, Kept;
    assert Flat(Obj(m), order).fields == kept;
  }

  /**
   * On objects of ordinary keywords a merge keeps the values accepted, whatever the keywords mean,
   * exactly when keys on both levels have equal arguments.
   */
  lemma SharedKeysIff(rest: map<string, Json>, k: string, f: map<string, Json>, order: seq<string>)
    requires IsOrder(order) && k in KEYS && PlainKeywords(rest) && PlainKeywords(f)
    ensures var s := Obj(With(rest, k, f));
            && !Raises(s, order)
            && ((forall leaf: Leaf :: SameMeaning(leaf, Flat(s, order), s))
                <==> forall key <- f :: key in rest ==> f[key] == rest[key])
  {
    PlainKeywordsMerge(rest, k, f, order);
    var s := Obj(With(rest, k, f));
    if forall key <- f :: key in rest ==> f[key] == rest[key] {
      forall leaf: Leaf
        ensures SameMeaning(leaf, Flat(s, order), s)
      {
        WithIsSchema(rest, k, f, order);
        FlatMeans(leaf, {}, s, order);
      }
    }
    forall key | key in f && key in rest && f[key] != rest[key]
      ensures exists leaf: Leaf :: !SameMeaning(leaf, Flat(s, order), s)
    {
      var leaf := Refusing(key, rest[key]);
      SharedKeyRefuses(rest, k, f, key, Atom(Null));
      MergedAccepts(rest, f, key, Atom(Null));
      assert !SameMeaning(leaf, Flat(s, order), s);
    }
  }

  lemma WithIsSchema(rest: map<string, Json>, k: string, f: map<string, Json>, order: seq<string>)
    requires k in KEYS && PlainKeywords(rest) && PlainKeywords(f)
    requires forall key <- f :: key in rest ==> f[key] == rest[key]
    ensures Schema({}, order, Obj(With(rest, k, f)))
  {
    KeysDiffer();
    var m := With(rest, k, f);
    assert m[k].items[0] == Obj(f);
    assert MergesWell({}, k, m, f);
    assert Mergeable({}, f);
    assert Schema({}, order, Obj(f));
    assert forall x <- m[k].items :: x == Obj(f);
  }

  /** The assertion that fails only for one argument of one keyword. */
  function Refusing(key: string, arg: Json): Leaf {
    (k, a, v) => !(k == key && a == arg)
  }

  /** An object refuses everything under the assertion that refuses one of its arguments. */
  lemma SharedKeyRefuses(rest: map<string, Json>, k: string, f: map<string, Json>, key: string, v: Json)
    requires k in KEYS && Ordinary(key) && key in rest
    ensures !Accepts(Refusing(key, rest[key]), Obj(With(rest, k, f)), v)
  {
    var m := With(rest, k, f);
    assert key in m && m[key] == rest[key];
    assert !Holds(Refusing(key, rest[key]), key, m[key], Declared(m), v);
  }

  lemma MergedAccepts(rest: map<string, Json>, f: map<string, Json>, key: string, v: Json)
    requires PlainKeywords(rest) && PlainKeywords(f)
    requires key in f && key in rest && f[key] != rest[key]
    ensures Accepts(Refusing(key, rest[key]), Obj(rest + f), v)
  {
    KeysDiffer();
  }

  lemma {:induction false} SamePick(m: map<string, Json>, n: map<string, Json>, order: seq<string>)
    requires forall k <- order :: (k in m <==> k in n) && (k in m ==> Length(m[k]) == Length(n[k]))
    ensures Pick(m, order) == Pick(n, order)
  {
    if order == [] {
    } else {
      assert order[0] in order;
      SamePick(m, n, order[1..]);
    }
  }

  /** The object in which the one-element list `k` has another list of that name inside its element. */
  function Nested(m: map<string, Json>, k: string, f: map<string, Json>, inner: Json): map<string, Json> {
    With(m, k, f[k := inner])
  }

  lemma NestedFlattens(m: map<string, Json>, k: string, f: map<string, Json>, inner: Json, order: seq<string>)
    requires k in m && m[k] == Arr([Obj(f)]) && Pick(m, order) == Ok(Some(k))
    ensures var n := Nested(m, k, f, inner);
            && Raises(Obj(n), order) == Raises(Obj(m), order)
            && (!Raises(Obj(m), order) ==> Flat(Obj(n), order) == Flat(Obj(m), order))
  {
    var n := Nested(m, k, f, inner);
    assert [Obj(f)][0] == Obj(f) && [Obj(f[k := inner])][0] == Obj(f[k := inner]);
    SamePick(m, n, order);
    var u, w := m + f, n + f[k := inner];
    assert Merged(m, order) == Ok(u) && Merged(n, order) == Ok(w);
    hide Pick, IsDollar, Merged;
    assert forall key :: key in u && Kept(m, order, key) <==> key in w && Kept(n, order, key);
    assert forall key :: key in u && Kept(m, order, key) ==> u[key] == w[key];
    SameFields(m, u, n, w, order);
  }

  lemma SameFields(m: map<string, Json>, u: map<string, Json>, n: map<string, Json>, w: map<string, Json>,
                   order: seq<string>)
    requires Merged(m, order) == Ok(u) && Merged(n, order) == Ok(w)
    requires forall key :: key in u && Kept(m, order, key) <==> key in w && Kept(n, order, key)
    requires forall key :: key in u && Kept(m, order, key) ==> u[key] == w[key]
    ensures Raises(Obj(n), order) == Raises(Obj(m), order)
    ensures Flat(Obj(n), order) == Flat(Obj(m), order)
  {
    hide Merged, Kept;
    assert Flat(Obj(n), order).fields == Flat(Obj(m), order).fields;
  }

  /** The object is the conjunction of what is outside of the list and what is in it. */
  lemma WithHolds(leaf: Leaf, m: map<string, Json>, k: string, f: map<string, Json>, v: Json)
    requires k in KEYS
    ensures Accepts(leaf, Obj(With(m, k, f)), v)
       <==> Accepts(leaf, Obj(f), v) && forall key <- m :: key != k ==> Holds(leaf, key, m[key], Declared(m), v)
  {
    KeysDiffer();
    var n := With(m, k, f);
    assert Declared(n) == Declared(m) && n[k] == Arr([Obj(f)]);
    SingleList(leaf, k, Obj(f), Declared(m), v);
    hide Declared, Holds;
    assert forall key :: key in n <==> key in m || key == k;
    assert forall key <- m :: key != k ==> n[key] == m[key];
  }

  lemma InnerHolds(leaf: Leaf, f: map<string, Json>, k: string, inner: Json, v: Json)
    requires k in KEYS && k !in f
    ensures Accepts(leaf, Obj(f[k := inner]), v) <==> Accepts(leaf, Obj(f), v) && Holds(leaf, k, inner, {}, v)
  {
    KeysDiffer();
    var g := f[k := inner];
    assert Declared(g) == Declared(f) && g[k] == inner;
    DeclaredMatters(leaf, k, inner, Declared(f), {}, v);
    hide Declared, Holds;
    assert forall key <- f :: g[key] == f[key];
  }

  /** What a list of schemas asserts holds of everything that the rest of the object accepts. */
  ghost predicate Follows(leaf: Leaf, m: map<string, Json>, k: string, inner: Json) {
    forall v :: Accepts(leaf, Obj(m), v) ==> Holds(leaf, k, inner, {}, v)
  }

  /**
   * A list of the same name inside is lost, whatever is beside it on both levels: flattening does not raise
   * and keeps the rest, so the meaning stays exactly when the inner list follows from the rest.
   */
  lemma NestedListIsLostIff(leaf: Leaf, notes: set<string>, m: map<string, Json>, k: string, f: map<string, Json>,
                            inner: Json, order: seq<string>)
    requires AreNotes(leaf, notes) && IsOrder(order) && Schema(notes, order, Obj(m))
    requires k in m && m[k] == Arr([Obj(f)]) && Pick(m, order) == Ok(Some(k))
    ensures var s := Obj(Nested(m, k, f, inner));
            && !Raises(s, order) && Flat(s, order) == Flat(Obj(m), order)
            && (SameMeaning(leaf, Flat(s, order), s) <==> Follows(leaf, m, k, inner))
  {
    var s := Obj(Nested(m, k, f, inner));
    FlatMeans(leaf, notes, Obj(m), order);
    NestedFlattens(m, k, f, inner, order);
    PickIsIn(m, order);
    assert k in KEYS && k !in f by {
      assert Mergeable(notes, m) && m[k].items[0] == Obj(f);
    }
    assert With(m, k, f) == m;
    hide Accepts, Flat, Raises, Schema, Pick, Nested, Holds, Declared;
    forall v
      ensures Accepts(leaf, s, v) <==> Accepts(leaf, Obj(m), v) && Holds(leaf, k, inner, {}, v)
    {
      NestedHolds(leaf, m, k, f, inner, v);
    }
    SameIffFollows(leaf, Flat(s, order), s, m, k, inner);
  }

  lemma NestedHolds(leaf: Leaf, m: map<string, Json>, k: string, f: map<string, Json>, inner: Json, v: Json)
    requires k in KEYS && k !in f && With(m, k, f) == m
    ensures Accepts(leaf, Obj(Nested(m, k, f, inner)), v)
       <==> Accepts(leaf, Obj(m), v) && Holds(leaf, k, inner, {}, v)
  {
    WithHolds(leaf, m, k, f, v);
    WithHolds(leaf, m, k, f[k := inner], v);
    InnerHolds(leaf, f, k, inner, v);
    hide Accepts, Holds;
  }

  lemma SameIffFollows(leaf: Leaf, flat: Json, s: Json, m: map<string, Json>, k: string, inner: Json)
    requires SameMeaning(leaf, flat, Obj(m))
    requires forall v :: Accepts(leaf, s, v) <==> Accepts(leaf, Obj(m), v) && Holds(leaf, k, inner, {}, v)
    ensures SameMeaning(leaf, flat, s) <==> Follows(leaf, m, k, inner)
  {
    hide Accepts, Holds;
    assert forall v :: Accepts(leaf, flat, v) <==> Accepts(leaf, Obj(m), v);
    if SameMeaning(leaf, flat, s) {
      forall v | Accepts(leaf, Obj(m), v)
        ensures Holds(leaf, k, inner, {}, v)
      {
        assert Accepts(leaf, flat, v) <==> Accepts(leaf, s, v);
      }
    }
  }

  /** `properties` and `additionalProperties` on different levels, one of them inside the list. */
  function Split(additional: Json, ps: map<string, Json>, k: string, inside: bool): map<string, Json> {
    if inside then With(map[PROPERTIES := Obj(ps)], k, map[ADDITIONAL := additional])
    else With(map[ADDITIONAL := additional], k, map[PROPERTIES := Obj(ps)])
  }

  function Both(additional: Json, ps: map<string, Json>): map<string, Json> {
    map[PROPERTIES := Obj(ps), ADDITIONAL := additional]
  }

  lemma SplitMerges(additional: Json, ps: map<string, Json>, k: string, inside: bool, order: seq<string>)
    requires IsOrder(order) && k in KEYS
    ensures var m := Split(additional, ps, k, inside);
            && Merged(m, order) == Ok(Both(additional, ps)[k := m[k]])
            && Pick(m, order) == Ok(Some(k))
  {
    KeysDiffer();
    hide Merged, Pick, KEYS, PROPERTIES, ADDITIONAL;
    var p, a := map[PROPERTIES := Obj(ps)], map[ADDITIONAL := additional];
    if inside {
      WithMerges(p, k, a, order);
      assert With(p, k, a) + a == Both(additional, ps)[k := Arr([Obj(a)])];
    } else {
      WithMerges(a, k, p, order);
      assert With(a, k, p) + p == Both(additional, ps)[k := Arr([Obj(p)])];
    }
  }

  lemma BothHold(leaf: Leaf, additional: Json, ps: map<string, Json>, v: Json)
    ensures Accepts(leaf, Obj(Both(additional, ps)), v)
       <==> (v.Obj? ==> forall p <- v.fields :: Accepts(leaf, if p in ps then ps[p] else additional, v.fields[p]))
  {
    KeysDiffer();
    var m := Both(additional, ps);
    assert m.Keys == {PROPERTIES, ADDITIONAL} && m[PROPERTIES] == Obj(ps) && m[ADDITIONAL] == additional;
    BothDeclared(additional, ps);
    TwoKeys(leaf, m, PROPERTIES, ADDITIONAL, v);
    PropertiesAssert(leaf, ps, v);
    AdditionalAsserts(leaf, additional, ps.Keys, v);
    hide Accepts, Holds;
  }

  lemma BothDeclared(additional: Json, ps: map<string, Json>)
    ensures Declared(Both(additional, ps)) == ps.Keys
  {
    KeysDiffer();
  }

  lemma TwoKeys(leaf: Leaf, m: map<string, Json>, a: string, b: string, v: Json)
    requires m.Keys == {a, b}
    ensures Accepts(leaf, Obj(m), v) <==> Holds(leaf, a, m[a], Declared(m), v) && Holds(leaf, b, m[b], Declared(m), v)
  {
    hide Holds, Declared;
    assert a in m && b in m;
  }

  lemma PropertiesAssert(leaf: Leaf, ps: map<string, Json>, v: Json)
    ensures Holds(leaf, PROPERTIES, Obj(ps), ps.Keys, v)
       <==> (v.Obj? ==> forall p <- ps :: p in v.fields ==> Accepts(leaf, ps[p], v.fields[p]))
  {
    KeysDiffer();
  }

  lemma AdditionalAsserts(leaf: Leaf, additional: Json, declared: set<string>, v: Json)
    ensures Holds(leaf, ADDITIONAL, additional, declared, v)
       <==> (v.Obj? ==> forall p <- v.fields :: p in declared || Accepts(leaf, additional, v.fields[p]))
  {
    KeysDiffer();
  }

  lemma AdditionalHolds(leaf: Leaf, additional: Json, v: Json)
    ensures Accepts(leaf, Obj(map[ADDITIONAL := additional]), v)
       <==> (v.Obj? ==> forall p <- v.fields :: Accepts(leaf, additional, v.fields[p]))
  {
    KeysDiffer();
    OneKey(leaf, ADDITIONAL, additional, v);
    assert Declared(map[ADDITIONAL := additional]) == {};
  }

  lemma TwoHold(leaf: Leaf, key: string, arg: Json, k: string, f: map<string, Json>, v: Json)
    requires k in KEYS && key !in KEYS && !IsDollar(key)
    ensures Accepts(leaf, Obj(With(map[key := arg], k, f)), v)
       <==> Accepts(leaf, Obj(map[key := arg]), v) && Accepts(leaf, Obj(f), v)
  {
    KeysDiffer();
    var m := With(map[key := arg], k, f);
    SingleList(leaf, k, Obj(f), Declared(m), v);
    OneKey(leaf, key, arg, v);
    assert Declared(m) == Declared(map[key := arg]);
    assert m[key] == arg && m[k] == Arr([Obj(f)]);
    assert forall j <- m :: j == key || j == k;
  }

  /** On two levels `additionalProperties` is asked of every property. */
  lemma SplitHolds(leaf: Leaf, additional: Json, ps: map<string, Json>, k: string, inside: bool, v: Json)
    requires k in KEYS
    ensures Accepts(leaf, Obj(Split(additional, ps, k, inside)), v)
       <==> (v.Obj? ==> && (forall p <- ps :: p in v.fields ==> Accepts(leaf, ps[p], v.fields[p]))
                        && (forall p <- v.fields :: Accepts(leaf, additional, v.fields[p])))
  {
    KeysDiffer();
    PropertiesHold(leaf, ps, v);
    AdditionalHolds(leaf, additional, v);
    hide Accepts;
    if inside {
      TwoHold(leaf, PROPERTIES, Obj(ps), k, map[ADDITIONAL := additional], v);
    } else {
      TwoHold(leaf, ADDITIONAL, additional, k, map[PROPERTIES := Obj(ps)], v);
    }
  }

  /** What the kept fields of a merged object need for the object to flatten. */
  ghost predicate FieldsFlatten(leaf: Leaf, u: map<string, Json>, key: string, order: seq<string>)
    requires key in u
  {
    && !Raises(u[key], order)
    && SameArgument(leaf, key, Flat(u[key], order), u[key])
    && (key == PROPERTIES ==> SameNames(Flat(u[key], order), u[key]))
  }

  lemma ObjectFlattens(leaf: Leaf, m: map<string, Json>, u: map<string, Json>, order: seq<string>, v: Json)
    requires IsOrder(order) && Merged(m, order) == Ok(u)
    requires forall key | key in u && Kept(m, order, key) :: FieldsFlatten(leaf, u, key, order)
    ensures !Raises(Obj(m), order)
    ensures Accepts(leaf, Flat(Obj(m), order), v)
       <==> forall key <- u :: Kept(m, order, key) ==> Holds(leaf, key, u[key], Declared(u), v)
  {
    FlatObject(leaf, m, order, v);
  }

  lemma BothFlatten(leaf: Leaf, notes: set<string>, additional: Json, ps: map<string, Json>, order: seq<string>)
    requires AreNotes(leaf, notes) && IsOrder(order)
    requires Schema(notes, order, additional) && Argument(notes, order, PROPERTIES, Obj(ps))
    ensures forall key <- Both(additional, ps) :: FieldsFlatten(leaf, Both(additional, ps), key, order)
  {
    KeysDiffer();
    assert Argument(notes, order, ADDITIONAL, additional);
    hide Accepts, Flat, Raises, Schema, Argument, Holds;
    ArgumentMeans(leaf, notes, PROPERTIES, Obj(ps), order);
    ArgumentMeans(leaf, notes, ADDITIONAL, additional, order);
  }

  lemma TwoKept(leaf: Leaf, m: map<string, Json>, u: map<string, Json>, order: seq<string>, v: Json)
    requires PROPERTIES in u && ADDITIONAL in u
    requires forall key :: key in u && Kept(m, order, key) <==> key == PROPERTIES || key == ADDITIONAL
    ensures var d := Declared(u);
            (forall key <- u :: Kept(m, order, key) ==> Holds(leaf, key, u[key], d, v))
            <==> Holds(leaf, PROPERTIES, u[PROPERTIES], d, v) && Holds(leaf, ADDITIONAL, u[ADDITIONAL], d, v)
  {
    hide Holds, Kept, Declared;
  }

  lemma SplitFlattens(leaf: Leaf, notes: set<string>, additional: Json, ps: map<string, Json>, k: string, inside: bool,
                      order: seq<string>, v: Json)
    requires AreNotes(leaf, notes) && IsOrder(order) && k in KEYS
    requires Schema(notes, order, additional) && Argument(notes, order, PROPERTIES, Obj(ps))
    ensures var s := Obj(Split(additional, ps, k, inside));
            && !Raises(s, order)
            && (Accepts(leaf, Flat(s, order), v) <==> Accepts(leaf, Obj(Both(additional, ps)), v))
  {
    var m, b := Split(additional, ps, k, inside), Both(additional, ps);
    var u := b[k := m[k]];
    SplitMerges(additional, ps, k, inside, order);
    KeptOfSplit(additional, ps, m, k, order);
    BothFlatten(leaf, notes, additional, ps, order);
    hide Accepts, Raises, Schema, Argument, Split, Both, Flat, Pick, Merged, Holds, Declared, SameArgument;
    ObjectFlattens(leaf, m, u, order, v);
    TwoKept(leaf, m, u, order, v);
    TwoKeys(leaf, b, PROPERTIES, ADDITIONAL, v);
  }

  lemma KeptOfSplit(additional: Json, ps: map<string, Json>, m: map<string, Json>, k: string, order: seq<string>)
    requires k in KEYS && Pick(m, order) == Ok(Some(k)) && k in m
    ensures var b := Both(additional, ps);
            && b.Keys == {PROPERTIES, ADDITIONAL} && b[PROPERTIES] == Obj(ps) && b[ADDITIONAL] == additional
            && (forall key :: key in b[k := m[k]] && Kept(m, order, key) <==> key == PROPERTIES || key == ADDITIONAL)
            && b[k := m[k]][PROPERTIES] == Obj(ps) && b[k := m[k]][ADDITIONAL] == additional
            && Declared(b[k := m[k]]) == Declared(b)
  {
    KeysDiffer();
  }

  /** `additional` accepts whatever a declared property accepts. */
  ghost predicate Covers(leaf: Leaf, additional: Json, ps: map<string, Json>) {
    forall p <- ps, x :: Accepts(leaf, ps[p], x) ==> Accepts(leaf, additional, x)
  }

  lemma SplitMeans(leaf: Leaf, additional: Json, ps: map<string, Json>, k: string, inside: bool)
    requires k in KEYS
    ensures SameMeaning(leaf, Obj(Both(additional, ps)), Obj(Split(additional, ps, k, inside)))
            <==> Covers(leaf, additional, ps)
  {
    var s, b := Obj(Split(additional, ps, k, inside)), Obj(Both(additional, ps));
    hide Accepts, Split, Both, KEYS;
    if SameMeaning(leaf, b, s) {
      forall p, x | p in ps && Accepts(leaf, ps[p], x)
        ensures Accepts(leaf, additional, x)
      {
        var v := Obj(map[p := x]);
        BothHold(leaf, additional, ps, v);
        SplitHolds(leaf, additional, ps, k, inside, v);
        assert v.fields[p] == x;
        assert Accepts(leaf, b, v) <==> Accepts(leaf, s, v);
      }
    }
    if Covers(leaf, additional, ps) {
      forall v
        ensures Accepts(leaf, b, v) <==> Accepts(leaf, s, v)
      {
        BothHold(leaf, additional, ps, v);
        SplitHolds(leaf, additional, ps, k, inside, v);
      }
    }
  }

  /**
   * When the two keywords are on different levels the merge brings them together: the meaning stays
   * exactly when `additionalProperties` accepts whatever the declared properties accept.
   */
  lemma SplitPropertiesIff(leaf: Leaf, notes: set<string>, additional: Json, ps: map<string, Json>, k: string,
                           inside: bool, order: seq<string>)
    requires AreNotes(leaf, notes) && IsOrder(order) && k in KEYS
    requires Schema(notes, order, additional) && Argument(notes, order, PROPERTIES, Obj(ps))
    ensures var s := Obj(Split(additional, ps, k, inside));
            !Raises(s, order) && (SameMeaning(leaf, Flat(s, order), s) <==> Covers(leaf, additional, ps))
  {
    var s, b := Obj(Split(additional, ps, k, inside)), Obj(Both(additional, ps));
    forall v
      ensures !Raises(s, order) && (Accepts(leaf, Flat(s, order), v) <==> Accepts(leaf, b, v))
    {
      SplitFlattens(leaf, notes, additional, ps, k, inside, order, v);
    }
    SplitMeans(leaf, additional, ps, k, inside);
    hide Accepts, Flat, Raises, Split, Both, Covers;
    assert SameMeaning(leaf, Flat(s, order), b);
    Turn(leaf, Flat(s, order), b);
    Chain(leaf, Flat(s, order), b, s);
    Chain(leaf, b, Flat(s, order), s);
    SplitFlattens(leaf, notes, additional, ps, k, inside, order, Atom(Null));
  }

  // ---------------------------------------------------------------- when a schema raises

  /**
   * A value in the form of a schema, whatever its merges do: lists of schemas under the three keywords,
   * properties that are not taken for keywords, and other data that does not raise by itself.
   */
  predicate Shaped(order: seq<string>, s: Json)
    decreases s, 0
  {
    match s
    case Atom(Bool(_)) => true
    case Obj(m) => forall key <- m :: !IsDollar(key) ==> ShapedArgument(order, key, m[key])
    case _ => false
  }

  predicate ShapedArgument(order: seq<string>, key: string, arg: Json)
    decreases arg, 1
  {
    if key in KEYS then arg.Arr? && forall x <- arg.items :: Shaped(order, x)
    else if key == PROPERTIES then
      arg.Obj? && Unpicked(arg.fields) && forall p <- arg.fields :: !IsDollar(p) ==> Shaped(order, arg.fields[p])
    else if key == ADDITIONAL || key == ITEMS then Shaped(order, arg)
    else !Raises(arg, order)
  }

  /** The list to merge into the object has a Boolean schema as its element. */
  predicate BooleanElement(m: map<string, Json>, order: seq<string>) {
    match Pick(m, order)
    case Ok(Some(k)) => k in m && m[k].Arr? && |m[k].items| == 1 && m[k].items[0].Atom?
    case _ => false
  }

  /** An object with a Boolean element to merge is met, at the top or below what the merges keep. */
  predicate MeetsBoolean(j: Json, order: seq<string>) {
    match j
    case Atom(_) => false
    case Arr(items) => exists x <- items :: MeetsBoolean(x, order)
    case Obj(m) =>
      || BooleanElement(m, order)
      || (Merged(m, order).Ok?
          && exists key | key in Merged(m, order).value && Kept(m, order, key) ::
               MergedIsInside(m, order, key); MeetsBoolean(Merged(m, order).value[key], order))
  }

  /** Other errors do not occur: a schema raises if and only if a Boolean schema has to be merged somewhere. */
  lemma {:induction false} SchemaRaisesIff(s: Json, order: seq<string>)
    requires IsOrder(order) && Shaped(order, s)
    ensures Raises(s, order) <==> MeetsBoolean(s, order)
    decreases s, 0
  {
    if s.Obj? {
      var m := s.fields;
      ShapedMerge(m, order);
      if Merged(m, order).Ok? {
        var u := Merged(m, order).value;
        forall key | key in u && Kept(m, order, key)
          ensures Raises(u[key], order) <==> MeetsBoolean(u[key], order)
        {
          MergedIsInside(m, order, key);
          ArgumentRaisesIff(key, u[key], order);
        }
      }
    }
  }

  /** An argument that is no schema by itself meets no Boolean element, as it does not raise. */
  lemma {:induction false} ArgumentRaisesIff(key: string, arg: Json, order: seq<string>)
    requires IsOrder(order) && ShapedArgument(order, key, arg)
    ensures Raises(arg, order) <==> MeetsBoolean(arg, order)
    decreases arg, 1
  {
    if key in KEYS {
      forall x | x in arg.items
        ensures Raises(x, order) <==> MeetsBoolean(x, order)
      {
        SchemaRaisesIff(x, order);
      }
    } else if key == PROPERTIES {
      var ps := arg.fields;
      UnpickedIff(ps, order);
      forall p | p in ps && !IsDollar(p)
        ensures Raises(ps[p], order) <==> MeetsBoolean(ps[p], order)
      {
        SchemaRaisesIff(ps[p], order);
      }
    } else if key == ADDITIONAL || key == ITEMS {
      SchemaRaisesIff(arg, order);
    } else {
      MeetingRaises(arg, order);
    }
  }

  /** A Boolean element that is met makes any value raise. */
  lemma {:induction false} MeetingRaises(j: Json, order: seq<string>)
    ensures MeetsBoolean(j, order) ==> Raises(j, order)
  {
    match j
    case Atom(_) =>
    case Arr(items) =>
      forall x | x in items
        ensures MeetsBoolean(x, order) ==> Raises(x, order)
      {
        MeetingRaises(x, order);
      }
    case Obj(m) =>
      if Merged(m, order).Ok? {
        var u := Merged(m, order).value;
        forall key | key in u && Kept(m, order, key)
          ensures MeetsBoolean(u[key], order) ==> Raises(u[key], order)
        {
          MergedIsInside(m, order, key);
          MeetingRaises(u[key], order);
        }
      }
  }

  /** Merging into the object of a schema fails only for a Boolean element, and brings arguments of its form. */
  lemma ShapedMerge(m: map<string, Json>, order: seq<string>)
    requires IsOrder(order) && Shaped(order, Obj(m))
    ensures Merged(m, order).Err? <==> BooleanElement(m, order)
    ensures Merged(m, order).Ok?
            ==> forall key | key in Merged(m, order).value && Kept(m, order, key) ::
                  ShapedArgument(order, key, Merged(m, order).value[key])
  {
    KeysDiffer();
    PickIsIn(m, order);
    PickIsOk(m, order);
    if Pick(m, order).value.Some? {
      var k := Pick(m, order).value.value;
      assert m[k].items[0] in m[k].items;
      assert Shaped(order, m[k].items[0]);
    }
  }
}
