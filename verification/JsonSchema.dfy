/** The part of JSON Schema 2020-12 the plot-field extractor reads: what an instance must
    satisfy (Core sections 8.2.3.1, 10.2 and 10.3, Validation sections 6.1 and 6.4).
    Keywords that are not listed only rule out further instances, and `oneOf` is read as
    "at least one", so every instance the standard accepts is valid here. */
module JsonSchema {
  import opened OrderedDict
  import opened Json

  predicate HasType(t: Json, v: Json)
  {
    t.Str? &&
    match v
    case Null => t.s == "null"
    case Bool(_) => t.s == "boolean"
    case Int(_) => t.s == "integer" || t.s == "number"
    case Float(r) => t.s == "number" || (t.s == "integer" && r.Floor as real == r)
    case Str(_) => t.s == "string"
    case Arr(_) => t.s == "array"
    case Obj(_) => t.s == "object"
  }

  predicate TypeHolds(schema: Json, v: Json)
  {
    match Field(schema, "type")
    case Some(Arr(ts)) => exists t | t in ts :: HasType(t, v)
    case Some(t) => HasType(t, v)
    case None => true
  }

  predicate EnumHolds(schema: Json, v: Json)
  {
    match Field(schema, "enum")
    case Some(Arr(es)) => exists e | e in es :: Same(e, v)
    case _ => true
  }

  /** A bound of `minItems` or `maxItems`; 4 and 4.0 are the same bound. */
  predicate BoundHolds(bound: Option<Json>, v: Json, isMin: bool)
  {
    v.Arr? && bound.Some? && IsNumber(bound.value) ==>
      if isMin then |v.elems| as real >= NumberOf(bound.value)
      else |v.elems| as real <= NumberOf(bound.value)
  }

  function PrefixLength(schema: Json): nat
  {
    match Field(schema, "prefixItems")
    case Some(Arr(ps)) => |ps|
    case _ => 0
  }

  /** Validity by a derivation of height at most `k`. A reference to a schema that only refers
      back to itself has no derivation. */
  ghost predicate ValidIn(k: nat, root: Json, schema: Json, v: Json)
    decreases k, 0
  {
    if k == 0 then false
    else if schema.Bool? then schema.b
    else
      && schema.Obj?
      && (RefTarget(schema, root).Some? ==> ValidIn(k - 1, root, RefTarget(schema, root).value, v))
      && TypeHolds(schema, v)
      && EnumHolds(schema, v)
      && PropertiesHold(k - 1, root, Field(schema, "properties"), v)
      && PrefixItemsHold(k - 1, root, Field(schema, "prefixItems"), v)
      && ItemsHold(k - 1, root, Field(schema, "items"), PrefixLength(schema), v)
      && BoundHolds(Field(schema, "minItems"), v, true)
      && BoundHolds(Field(schema, "maxItems"), v, false)
      && SomeBranchHolds(k - 1, root, Field(schema, "anyOf"), v)
      && SomeBranchHolds(k - 1, root, Field(schema, "oneOf"), v)
  }

  ghost predicate PropertiesHold(k: nat, root: Json, properties: Option<Json>, v: Json)
    decreases k, 1
  {
    v.Obj? && properties.Some? && properties.value.Obj? ==>
      forall p | p in properties.value.members && Field(v, p.0).Some? ::
        ValidIn(k, root, p.1, Field(v, p.0).value)
  }

  ghost predicate PrefixItemsHold(k: nat, root: Json, prefixItems: Option<Json>, v: Json)
    decreases k, 1
  {
    v.Arr? && prefixItems.Some? && prefixItems.value.Arr? ==>
      forall i | 0 <= i < |v.elems| && i < |prefixItems.value.elems| ::
        ValidIn(k, root, prefixItems.value.elems[i], v.elems[i])
  }

  ghost predicate ItemsHold(k: nat, root: Json, items: Option<Json>, start: nat, v: Json)
    decreases k, 1
  {
    v.Arr? && items.Some? ==>
      forall i | start <= i < |v.elems| :: ValidIn(k, root, items.value, v.elems[i])
  }

  ghost predicate SomeBranchHolds(k: nat, root: Json, branches: Option<Json>, v: Json)
    decreases k, 1
  {
    branches.Some? && branches.value.Arr? ==>
      exists b | b in branches.value.elems :: ValidIn(k, root, b, v)
  }

  /** `v` satisfies `schema`, read inside the document `root`. */
  ghost predicate Valid(root: Json, schema: Json, v: Json)
  {
    exists k: nat :: ValidIn(k, root, schema, v)
  }

  /** What is valid with the smaller height is valid with the greater. */
  ghost predicate Grows(j: nat, n: nat, root: Json)
  {
    forall s, w | ValidIn(j, root, s, w) :: ValidIn(n, root, s, w)
  }

  lemma ArraysMore(j: nat, n: nat, root: Json, schema: Json, v: Json)
    requires Grows(j, n, root)
    ensures PrefixItemsHold(j, root, Field(schema, "prefixItems"), v) ==> PrefixItemsHold(n, root, Field(schema, "prefixItems"), v)
    ensures ItemsHold(j, root, Field(schema, "items"), PrefixLength(schema), v)
            ==> ItemsHold(n, root, Field(schema, "items"), PrefixLength(schema), v)
  {
  }

  lemma ObjectsMore(j: nat, n: nat, root: Json, schema: Json, v: Json)
    requires Grows(j, n, root)
    ensures PropertiesHold(j, root, Field(schema, "properties"), v) ==> PropertiesHold(n, root, Field(schema, "properties"), v)
    ensures SomeBranchHolds(j, root, Field(schema, "anyOf"), v) ==> SomeBranchHolds(n, root, Field(schema, "anyOf"), v)
    ensures SomeBranchHolds(j, root, Field(schema, "oneOf"), v) ==> SomeBranchHolds(n, root, Field(schema, "oneOf"), v)
  {
  }

  lemma {:induction false} GrowsMore(j: nat, n: nat, root: Json)
    requires j <= n
    ensures Grows(j, n, root)
    decreases j, 1
  {
    forall s, w {:trigger ValidIn(n, root, s, w)} | ValidIn(j, root, s, w)
      ensures ValidIn(n, root, s, w)
    {
      ValidMore(j, n, root, s, w);
    }
  }

  lemma {:induction false} ValidMore(k: nat, m: nat, root: Json, schema: Json, v: Json)
    requires k <= m && ValidIn(k, root, schema, v)
    ensures ValidIn(m, root, schema, v)
    decreases k, 0
  {
    if schema.Obj? {
      GrowsMore(k - 1, m - 1, root);
      ArraysMore(k - 1, m - 1, root, schema, v);
      ObjectsMore(k - 1, m - 1, root, schema, v);
    }
  }
}
