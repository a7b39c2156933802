/** The schemas the extractor understands, and what normalising one of them does to its
    instances. */
module SchemaFragment {
  import opened OrderedDict
  import opened Json
  import opened JsonSchema
  import opened LaxPath
  import opened PlotFields

  function ElementsAt(schema: Json, key: string): seq<Json>
  {
    match Field(schema, key)
    case Some(Arr(es)) => es
    case _ => []
  }

  function PropertiesOf(schema: Json): Dict<string, Json>
  {
    match Field(schema, "properties")
    case Some(Obj(ps)) => ps
    case _ => []
  }

  /** The type is `t`, or `t` and null. */
  predicate DeclaresType(schema: Json, t: string)
  {
    match Field(schema, "type")
    case Some(Arr(ts)) => NonNullTypes(ts) == [Str(t)]
    case Some(u) => u == Str(t)
    case None => false
  }

  /** No boolean schemas among the alternatives, and at most one that is not null. */
  predicate UnionOk(schema: Json, key: string)
  {
    (forall b | b in ElementsAt(schema, key) :: b.Obj?) && |NonNullBranches(ElementsAt(schema, key))| <= 1
  }

  /** Conditions on one schema whose reference, if any, has been resolved. */
  predicate ShapeOk(schema: Json, root: Json)
  {
    && schema.Obj?
    && RefTarget(schema, root).None?
    && UnionOk(schema, "anyOf") && UnionOk(schema, "oneOf")
    && (PropertiesOf(schema) != [] ==> DeclaresType(schema, "object"))
    && DistinctKeys(PropertiesOf(schema))
    && (forall p | p in PropertiesOf(schema) :: CleanName(p.0) && p.1.Obj?)
    && (Field(schema, "items").Some? ==> Field(schema, "items").value.Obj? && Field(schema, "prefixItems").None?)
    && (Field(schema, "prefixItems").Some? ==> Field(schema, "prefixItems").value.Arr?)
    && (forall e | e in ElementsAt(schema, "prefixItems") :: e.Obj?)
  }

  predicate LocalOk(schema: Json, root: Json)
  {
    && schema.Obj? && DistinctKeys(schema.members)
    && (RefTarget(schema, root).Some? ==> DistinctKeys(RefTarget(schema, root).value.members))
    && ShapeOk(ResolveRef(schema, root), root)
  }

  /** The schemas the extractor goes on to from a resolved schema. */
  predicate IsChild(schema: Json, c: Json)
  {
    || (exists p | p in PropertiesOf(schema) :: p.1 == c)
    || Field(schema, "items") == Some(c)
    || c in ElementsAt(schema, "prefixItems")
    || c in NonNullBranches(ElementsAt(schema, "anyOf"))
    || c in NonNullBranches(ElementsAt(schema, "oneOf"))
  }

  ghost predicate Fragment(k: nat, root: Json, schema: Json)
  {
    k == 0 || (
      && LocalOk(schema, root)
      && forall c | IsChild(ResolveRef(schema, root), c) :: Fragment(k - 1, root, c))
  }

  /** Every schema that can be reached from this one meets the conditions. */
  ghost predicate InFragment(root: Json, schema: Json)
  {
    forall k: nat :: Fragment(k, root, schema)
  }

  lemma FragmentStep(root: Json, schema: Json)
    ensures InFragment(root, schema) <==>
            LocalOk(schema, root) && forall c | IsChild(ResolveRef(schema, root), c) :: InFragment(root, c)
  {
    if InFragment(root, schema) {
      assert Fragment(1, root, schema);
      forall c, k: nat | IsChild(ResolveRef(schema, root), c)
        ensures Fragment(k, root, c)
      {
        assert Fragment(k + 1, root, schema);
      }
    }
    if LocalOk(schema, root) && forall c | IsChild(ResolveRef(schema, root), c) :: InFragment(root, c) {
      forall k: nat
        ensures Fragment(k, root, schema)
      {
      }
    }
  }

  // ---- resolving a reference --------------------------------------------------------

  lemma ResolvedField(schema: Json, root: Json, key: string)
    requires LocalOk(schema, root) && RefTarget(schema, root).Some? && key != "$ref"
    ensures Field(ResolveRef(schema, root), key) ==
            if Field(schema, key).Some? then Field(schema, key) else Field(RefTarget(schema, root).value, key)
  {
    WithoutDistinct(schema.members, "$ref");
    GetMerge(RefTarget(schema, root).value.members, Without(schema.members, "$ref"), key);
    GetWithout(schema.members, "$ref", key);
  }

  lemma ResolvedDistinct(schema: Json, root: Json)
    requires LocalOk(schema, root)
    ensures DistinctKeys(ResolveRef(schema, root).members)
  {
    if RefTarget(schema, root).Some? {
      MergeDistinct(RefTarget(schema, root).value.members, Without(schema.members, "$ref"));
    }
  }

  /** An instance of a schema is an instance of the schema with its reference resolved. */
  lemma ValidResolved(k: nat, root: Json, schema: Json, v: Json)
    requires LocalOk(schema, root) && ValidIn(k, root, schema, v)
    ensures ValidIn(k, root, ResolveRef(schema, root), v)
  {
    var target := RefTarget(schema, root);
    if target.Some? {
      ValidMore(k - 1, k, root, target.value, v);
      ResolvedConstraints(schema, root, v);
      ResolvedSubschemas(k, root, schema, v);
    }
  }

  predicate SizeHolds(schema: Json, v: Json)
  {
    BoundHolds(Field(schema, "minItems"), v, true) && BoundHolds(Field(schema, "maxItems"), v, false)
  }

  /** The resolved schema's own constraints come from the schema or from the target. */
  lemma ResolvedConstraints(schema: Json, root: Json, v: Json)
    requires LocalOk(schema, root) && RefTarget(schema, root).Some?
    ensures var m, t := ResolveRef(schema, root), RefTarget(schema, root).value;
      && (TypeHolds(schema, v) && TypeHolds(t, v) ==> TypeHolds(m, v))
      && (EnumHolds(schema, v) && EnumHolds(t, v) ==> EnumHolds(m, v))
      && (SizeHolds(schema, v) && SizeHolds(t, v) ==> SizeHolds(m, v))
  {
    ResolvedField(schema, root, "type");
    ResolvedField(schema, root, "enum");
    ResolvedField(schema, root, "minItems");
    ResolvedField(schema, root, "maxItems");
  }

  /** So do the subschemas it applies. */
  lemma ResolvedSubschemas(k: nat, root: Json, schema: Json, v: Json)
    requires LocalOk(schema, root) && RefTarget(schema, root).Some?
    requires k > 0 && ValidIn(k, root, schema, v) && ValidIn(k, root, RefTarget(schema, root).value, v)
    ensures var m := ResolveRef(schema, root);
      && PropertiesHold(k - 1, root, Field(m, "properties"), v)
      && PrefixItemsHold(k - 1, root, Field(m, "prefixItems"), v)
      && ItemsHold(k - 1, root, Field(m, "items"), PrefixLength(m), v)
      && SomeBranchHolds(k - 1, root, Field(m, "anyOf"), v)
      && SomeBranchHolds(k - 1, root, Field(m, "oneOf"), v)
  {
    ResolvedField(schema, root, "properties");
    ResolvedField(schema, root, "prefixItems");
    ResolvedField(schema, root, "items");
    ResolvedField(schema, root, "anyOf");
    ResolvedField(schema, root, "oneOf");
  }

  // ---- dropping null ----------------------------------------------------------------

  lemma DroppedField(schema: Json, key: string)
    requires schema.Obj? && key != "type"
    ensures Field(DropNullType(schema), key) == Field(schema, key)
  {
    var ts := ElementsAt(schema, "type");
    if |NonNullTypes(ts)| == 1 {
      GetPut(schema.members, "type", NonNullTypes(ts)[0], key);
    }
  }

  lemma DroppedType(schema: Json)
    requires schema.Obj?
    ensures Field(DropNullType(schema), "type") ==
            var ts := ElementsAt(schema, "type");
            if |NonNullTypes(ts)| == 1 then Some(NonNullTypes(ts)[0]) else Field(schema, "type")
  {
    var ts := ElementsAt(schema, "type");
    if |NonNullTypes(ts)| == 1 {
      GetPut(schema.members, "type", NonNullTypes(ts)[0], "type");
    }
  }

  lemma {:induction false} InNonNullTypes(ts: seq<Json>, t: Json)
    requires t in ts && t != Str("null")
    ensures t in NonNullTypes(ts)
  {
    if ts[0] != t {
      InNonNullTypes(ts[1..], t);
    }
  }

  /** Two schemas that differ in their types at most. */
  predicate SameButType(a: Json, b: Json)
  {
    && Field(a, "$ref") == Field(b, "$ref") && Field(a, "enum") == Field(b, "enum")
    && Field(a, "properties") == Field(b, "properties")
    && Field(a, "prefixItems") == Field(b, "prefixItems") && Field(a, "items") == Field(b, "items")
    && Field(a, "minItems") == Field(b, "minItems") && Field(a, "maxItems") == Field(b, "maxItems")
    && Field(a, "anyOf") == Field(b, "anyOf") && Field(a, "oneOf") == Field(b, "oneOf")
  }

  lemma DroppedSame(schema: Json)
    requires schema.Obj?
    ensures SameButType(DropNullType(schema), schema)
  {
    DroppedField(schema, "$ref");
    DroppedField(schema, "enum");
    DroppedField(schema, "properties");
    DroppedField(schema, "prefixItems");
    DroppedField(schema, "items");
    DroppedField(schema, "minItems");
    DroppedField(schema, "maxItems");
    DroppedField(schema, "anyOf");
    DroppedField(schema, "oneOf");
  }

  lemma ValidButType(k: nat, root: Json, a: Json, b: Json, v: Json)
    requires a.Obj? && b.Obj? && SameButType(b, a) && ValidIn(k, root, a, v) && TypeHolds(b, v)
    ensures ValidIn(k, root, b, v)
  {
  }

  lemma DroppedTypeHolds(schema: Json, v: Json)
    requires schema.Obj? && TypeHolds(schema, v) && v != Null
    ensures TypeHolds(DropNullType(schema), v)
  {
    DroppedType(schema);
    var ts := ElementsAt(schema, "type");
    if |NonNullTypes(ts)| == 1 {
      var t :| t in ts && HasType(t, v);
      InNonNullTypes(ts, t);
    }
  }

  lemma ValidDropped(k: nat, root: Json, schema: Json, v: Json)
    requires schema.Obj? && ValidIn(k, root, schema, v) && v != Null
    ensures ValidIn(k, root, DropNullType(schema), v)
  {
    DroppedSame(schema);
    DroppedTypeHolds(schema, v);
    ValidButType(k, root, schema, DropNullType(schema), v);
  }

  lemma DroppedShape(schema: Json, root: Json)
    requires ShapeOk(schema, root)
    ensures ShapeOk(DropNullType(schema), root)
    ensures forall c :: IsChild(DropNullType(schema), c) <==> IsChild(schema, c)
  {
    DroppedType(schema);
    DroppedField(schema, "$ref");
    DroppedField(schema, "properties");
    DroppedField(schema, "prefixItems");
    DroppedField(schema, "items");
    DroppedField(schema, "anyOf");
    DroppedField(schema, "oneOf");
  }

  // ---- taking the sole alternative --------------------------------------------------

  lemma {:induction false} InNonNullBranches(bs: seq<Json>, b: Json)
    requires b in bs && b.Obj? && !IsNullSchema(b)
    ensures b in NonNullBranches(bs)
  {
    if bs[0] != b {
      InNonNullBranches(bs[1..], b);
    }
  }

  lemma ValidSoleBranch(k: nat, root: Json, schema: Json, key: string, v: Json)
    requires UnionOk(schema, key) && SoleBranchOf(schema, key).Some?
    requires SomeBranchHolds(k, root, Field(schema, key), v) && v != Null
    ensures ValidIn(k, root, SoleBranchOf(schema, key).value, v)
  {
    var bs := ElementsAt(schema, key);
    var b :| b in bs && ValidIn(k, root, b, v);
    InNonNullBranches(bs, b);
  }

  // ---- normalising ------------------------------------------------------------------

  /** One pass of `_normalize_schema` stays in the fragment. */
  lemma NormalizePass(root: Json, schema: Json)
    requires schema.Obj? && InFragment(root, schema)
    ensures var n := DropNullType(ResolveRef(schema, root));
            && RefTarget(n, root).None? && InFragment(root, n)
            && (SoleBranch(n).Some? ==> IsChild(n, SoleBranch(n).value) && InFragment(root, SoleBranch(n).value))
  {
    FragmentStep(root, schema);
    var m := ResolveRef(schema, root);
    var n := DropNullType(m);
    DroppedShape(m, root);
    ResolvedDistinct(schema, root);
    if |NonNullTypes(ElementsAt(m, "type"))| == 1 {
      PutDistinct(m.members, "type", NonNullTypes(ElementsAt(m, "type"))[0]);
    }
    FragmentStep(root, n);
  }

  /** In the fragment, with no reference, nullable type or sole alternative left to resolve. */
  ghost predicate Ready(root: Json, schema: Json)
  {
    InFragment(root, schema) && RefTarget(schema, root).None? && SoleBranch(schema).None?
  }

  lemma ReadyShape(root: Json, schema: Json)
    requires Ready(root, schema)
    ensures ShapeOk(schema, root)
  {
    FragmentStep(root, schema);
  }

  lemma ReadyChild(root: Json, schema: Json, c: Json)
    requires Ready(root, schema) && IsChild(schema, c)
    ensures InFragment(root, c)
  {
    FragmentStep(root, schema);
  }

  /** The result of normalising is in the fragment and has nothing left to normalise away. */
  lemma {:induction false} NormalizeStays(depth: nat, schema: Json, root: Json)
    requires InFragment(root, schema) && Normalize(depth, schema, root).Done?
    ensures var n := Normalize(depth, schema, root).value;
            Ready(root, n)
  {
    NormalizePass(root, schema);
    var n := DropNullType(ResolveRef(schema, root));
    if SoleBranch(n).Some? {
      NormalizeStays(depth - 1, SoleBranch(n).value, root);
    }
  }

  lemma ValidPass(k: nat, root: Json, schema: Json, v: Json)
    requires LocalOk(schema, root) && ValidIn(k, root, schema, v) && v != Null
    ensures ValidIn(k, root, DropNullType(ResolveRef(schema, root)), v)
  {
    ValidResolved(k, root, schema, v);
    ValidDropped(k, root, ResolveRef(schema, root), v);
  }

  lemma ValidBranch(k: nat, root: Json, n: Json, v: Json)
    requires ShapeOk(n, root) && SoleBranch(n).Some? && ValidIn(k, root, n, v) && v != Null
    ensures k > 0 && ValidIn(k - 1, root, SoleBranch(n).value, v)
  {
    var key := if SoleBranchOf(n, "anyOf").Some? then "anyOf" else "oneOf";
    ValidSoleBranch(k - 1, root, n, key, v);
  }

  lemma ValidOnePass(k: nat, root: Json, schema: Json, v: Json)
    requires schema.Obj? && InFragment(root, schema) && ValidIn(k, root, schema, v) && v != Null
    ensures var n := DropNullType(ResolveRef(schema, root));
      if SoleBranch(n).Some? then
        k > 0 && InFragment(root, SoleBranch(n).value) && ValidIn(k - 1, root, SoleBranch(n).value, v)
      else ValidIn(k, root, n, v)
  {
    FragmentStep(root, schema);
    ValidPass(k, root, schema, v);
    var n := DropNullType(ResolveRef(schema, root));
    if SoleBranch(n).Some? {
      NormalizePass(root, schema);
      FragmentStep(root, n);
      ValidBranch(k, root, n, v);
    }
  }

  /** Normalising loses no instance but null. */
  lemma {:induction false} NormalizeValid(depth: nat, k: nat, schema: Json, root: Json, v: Json)
    requires InFragment(root, schema) && Normalize(depth, schema, root).Done?
    requires ValidIn(k, root, schema, v) && v != Null
    ensures Valid(root, Normalize(depth, schema, root).value, v)
  {
    ValidOnePass(k, root, schema, v);
    var n := DropNullType(ResolveRef(schema, root));
    if SoleBranch(n).Some? {
      NormalizeValid(depth - 1, k - 1, SoleBranch(n).value, root, v);
    }
  }

  lemma {:induction false} NormalizeObj(depth: nat, schema: Json, root: Json)
    requires Normalize(depth, schema, root).Done?
    ensures schema.Obj? && Normalize(depth, schema, root).value.Obj?
  {
    var n := DropNullType(ResolveRef(schema, root));
    if SoleBranch(n).Some? {
      NormalizeObj(depth - 1, SoleBranch(n).value, root);
    }
  }
}
