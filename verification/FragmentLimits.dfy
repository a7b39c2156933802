/** What the extractor does where its promises end: inner items that make it raise, outside the fragment,
    and positions of documents in the fragment that get no field. */
module FragmentLimits {
  import opened ExtractionVisits
  import opened OrderedDict
  import opened Json
  import opened JsonSchema
  import opened LaxPath
  import opened PlotFieldCoverage
  import opened PlotFields
  import opened PlotFieldSoundness
  import opened PlotFieldWalk
  import opened SchemaFragment
  import opened SmallSchemas

  // ---- inner items ------------------------------------------------------------------

  /** An array whose items have the given schema. */
  function ArrayOf(items: Json): Json { Obj([("items", items), ("type", Str("array"))]) }

  lemma ArrayFields(items: Json, key: string)
    ensures Field(ArrayOf(items), key) ==
            if key == "items" then Some(items) else if key == "type" then Some(Str("array")) else None
  {
    assert ArrayOf(items).members[1..] == [("type", Str("array"))];
    GetSingle("type", Str("array"), key);
  }

  lemma ArrayNormal(depth: nat, items: Json, root: Json)
    requires depth > 0
    ensures Normalize(depth, ArrayOf(items), root) == Done(ArrayOf(items))
    ensures SchemaType(ArrayOf(items)) == Some("array") && BranchList(ArrayOf(items)) == None
  {
    ArrayFields(items, "type");
    ArrayFields(items, "$ref");
    ArrayFields(items, "anyOf");
    ArrayFields(items, "oneOf");
  }

  /** An array of arrays whose inner `items` is anything but a dictionary, the boolean schema `true`
      for one, makes the extractor raise. */
  lemma InnerItemsRaise(depth: nat, source: Source, items: Json, root: Json, prefix: string)
    requires depth > 3 && prefix != "" && Truthy(items) && !items.Obj?
    ensures ExtractSchema(depth, source, ArrayOf(ArrayOf(items)), root, prefix).Fault?
  {
    var inner := ArrayOf(items);
    ArrayNormal(depth - 1, inner, root);
    ArrayNormal(depth - 2, items, root);
    ArrayFields(inner, "items");
    ArrayFields(items, "items");
    ArrayFields(inner, "type");
    InnerRaises(depth - 1, source, inner, items, root, prefix);
    OnlyTyped(depth, source, ArrayOf(inner), root, prefix);
    ArrayIsRead(depth, source, ArrayOf(inner), root, prefix);
  }

  lemma ArrayIsRead(depth: nat, source: Source, s: Json, root: Json, prefix: string)
    requires depth > 0 && prefix != "" && SchemaType(s) == Some("array")
    ensures ExtractTyped(depth, source, s, root, prefix) == ExtractArray(depth - 1, source, s, root, prefix)
  {
  }

  lemma InnerRaises(depth: nat, source: Source, inner: Json, items: Json, root: Json, prefix: string)
    requires depth > 1 && inner.Obj? && Normalize(depth - 1, inner, root) == Done(inner)
    requires SchemaType(inner) == Some("array") && Field(inner, "items") == Some(items) && Truthy(items) && !items.Obj?
    requires Field(ArrayOf(inner), "items") == Some(inner)
    ensures ExtractArray(depth, source, ArrayOf(inner), root, prefix).Fault?
  {
    assert NestedItems(depth, inner, root) == Fault;
    assert ExtractItem(depth, source, inner, root, WildPath(prefix)) == Fault;
    assert ExtractItems(depth, source, inner, root, prefix) == Fault;
  }

  // ---- constraints beside alternatives ----------------------------------------------

  /** A position the document gives the scalar type `t`, and at which its instance `v` has a value of
      that type, but which the walk does not come to, though the document is in the fragment. */
  ghost predicate Lost(doc: Json, v: Json, loc: seq<Step>, t: string)
  {
    && InFragment(doc, doc) && Describes(doc, doc, loc, t) && !Walked(doc, doc, true, loc, t)
    && Valid(doc, doc, v) && ValueAt(v, loc) == Some(Sample(t))
  }

  /** An object with a scalar property, and a sole alternative beside it. */
  function BesideUnion(name: string, t: string): Json
  {
    Obj([("type", Str("object")), ("properties", Obj([(name, Typed(t))])), ("anyOf", Arr([Typed("object")]))])
  }

  lemma BesideFields(name: string, t: string, key: string)
    ensures Field(BesideUnion(name, t), key) ==
      if key == "type" then Some(Str("object"))
      else if key == "properties" then Some(Obj([(name, Typed(t))]))
      else if key == "anyOf" then Some(Arr([Typed("object")]))
      else None
  {
    var ps, bs := Obj([(name, Typed(t))]), Arr([Typed("object")]);
    assert BesideUnion(name, t).members == [("type", Str("object"))] + ([("properties", ps)] + [("anyOf", bs)]);
    GetCons("type", Str("object"), [("properties", ps)] + [("anyOf", bs)], key);
    GetCons("properties", ps, [("anyOf", bs)], key);
    GetSingle("anyOf", bs, key);
  }

  lemma SoleOf(t: string)
    requires t != "null"
    ensures NonNullBranches([Typed(t)]) == [Typed(t)]
  {
    TypedFields(t, "type");
    assert [Typed(t)][1..] == [];
  }

  lemma BesideNormal(depth: nat, name: string, t: string, root: Json)
    requires depth > 1
    ensures Normalize(depth, BesideUnion(name, t), root) == Done(Typed("object"))
  {
    BesideFields(name, t, "$ref");
    BesideFields(name, t, "type");
    BesideFields(name, t, "anyOf");
    SoleOf("object");
    TypedNormal(depth - 1, "object", root);
  }

  lemma BesideExtracts(depth: nat, source: Source, name: string, t: string, root: Json, prefix: string)
    requires depth > 2
    ensures ExtractSchema(depth, source, BesideUnion(name, t), root, prefix) == Done([])
  {
    BesideNormal(depth - 1, name, t, root);
    TypedNormal(depth - 1, "object", root);
    TypedFields("object", "properties");
    assert ExtractBranches(depth - 1, source, Typed("object"), root, prefix) == Done(None);
    assert ExtractNormal(depth, source, Typed("object"), root, prefix) == ExtractTyped(depth, source, Typed("object"), root, prefix);
  }

  lemma OneProperty(k: nat, name: string, sub: Json, root: Json, x: Json)
    requires ValidIn(k, root, sub, x)
    ensures PropertiesHold(k, root, Some(Obj([(name, sub)])), Obj([(name, x)]))
  {
    GetSingle(name, x, name);
  }

  lemma BesideHolds(name: string, t: string, root: Json, v: Json)
    requires IsScalar(Some(t)) && v == Obj([(name, Sample(t))])
    ensures var s := BesideUnion(name, t);
      PropertiesHold(1, root, Field(s, "properties"), v) && SomeBranchHolds(1, root, Field(s, "anyOf"), v)
  {
    TypedValid("object", root, v);
    FirstHolds(1, root, Typed("object"), [Typed("object")], v);
    TypedValid(t, root, Sample(t));
    OneProperty(1, name, Typed(t), root, Sample(t));
    BesideFields(name, t, "properties");
    BesideFields(name, t, "anyOf");
  }

  lemma BesideValid(name: string, t: string, root: Json)
    requires IsScalar(Some(t))
    ensures ValidIn(2, root, BesideUnion(name, t), Obj([(name, Sample(t))]))
  {
    var v := Obj([(name, Sample(t))]);
    BesideHolds(name, t, root, v);
    BesideLacks(name, t);
    BesideFields(name, t, "type");
    ValidWhen(2, root, BesideUnion(name, t), v);
  }

  lemma BesideLacks(name: string, t: string)
    ensures var s := BesideUnion(name, t);
      && Field(s, "$ref") == None && Field(s, "enum") == None && Field(s, "prefixItems") == None
      && Field(s, "items") == None && Field(s, "oneOf") == None
      && Field(s, "minItems") == None && Field(s, "maxItems") == None
  {
    BesideFields(name, t, "$ref");
    BesideFields(name, t, "enum");
    BesideFields(name, t, "prefixItems");
    BesideFields(name, t, "items");
    BesideFields(name, t, "minItems");
    BesideFields(name, t, "maxItems");
    BesideFields(name, t, "oneOf");
  }

  lemma TypedDescribes(t: string, root: Json)
    requires IsScalar(Some(t))
    ensures DescribesIn(1, root, Typed(t), [], t)
  {
    TypedFields(t, "type");
  }

  lemma PropertyDescribed(k: nat, root: Json, s: Json, name: string, sub: Json, rest: seq<Step>, t: string)
    requires s.Obj? && PropertiesOf(s) == [(name, sub)] && DescribesIn(k, root, sub, rest, t)
    ensures DescribesIn(k + 1, root, s, [Member(name)] + rest, t)
  {
    var loc := [Member(name)] + rest;
    assert loc[1..] == rest;
    assert (name, sub) in PropertiesOf(s);
    assert ByProperty(k + 1, root, PropertiesOf(s), loc, t);
  }

  lemma BesideLocal(name: string, t: string, root: Json)
    requires CleanName(name)
    ensures LocalOk(BesideUnion(name, t), root) && ResolveRef(BesideUnion(name, t), root) == BesideUnion(name, t)
    ensures forall c | IsChild(BesideUnion(name, t), c) :: c == Typed(t) || c == Typed("object")
  {
    BesideLacks(name, t);
    BesideFields(name, t, "type");
    BesideFields(name, t, "properties");
    BesideFields(name, t, "anyOf");
    SoleOf("object");
  }

  lemma BesideInFragment(name: string, t: string, root: Json)
    requires CleanName(name)
    ensures InFragment(root, BesideUnion(name, t))
  {
    BesideLocal(name, t, root);
    TypedInFragment(t, root);
    TypedInFragment("object", root);
    FragmentStep(root, BesideUnion(name, t));
  }

  /** Normalising to a sole alternative drops what stands beside it: for every scalar type and property
      name there is a document in the fragment that gives the property the type, and it gets no field. */
  lemma ConstraintsBesideUnionAreLost(depth: nat, source: Source, name: string, t: string)
    requires depth > 2 && CleanName(name) && IsScalar(Some(t))
    ensures var doc := BesideUnion(name, t);
      && Lost(doc, Obj([(name, Sample(t))]), [Member(name)], t)
      && ExtractSchema(depth, source, doc, doc, "") == Done([])
  {
    var doc := BesideUnion(name, t);
    BesideInFragment(name, t, doc);
    BesideValid(name, t, doc);
    TypedDescribes(t, doc);
    BesideFields(name, t, "properties");
    PropertyDescribed(1, doc, doc, name, Typed(t), [], t);
    assert [Member(name)] + [] == [Member(name)];
    BesideExtracts(depth, source, name, t, doc, "");
    BesideNormal(2, name, t, doc);
    ObjectUnwalked(2, doc, doc, [Member(name)], t);
    OneValue(name, Sample(t));
  }

  /** A schema whose normal form is no more than the type object is not walked through. */
  lemma ObjectUnwalked(d: nat, root: Json, schema: Json, loc: seq<Step>, t: string)
    requires Normalize(d, schema, root) == Done(Typed("object"))
    ensures !Walked(root, schema, true, loc, t)
  {
    TypedFields("object", "properties");
    WalkedIs(d, root, schema, Typed("object"), true, loc, t);
  }

  lemma OneValue(name: string, x: Json)
    ensures ValueAt(Obj([(name, x)]), [Member(name)]) == Some(x)
  {
    GetSingle(name, x, name);
    assert [Member(name)][1..] == [];
  }

  // ---- arrays that do not say so ----------------------------------------------------

  function Untyped(items: Json): Json { Obj([("items", items)]) }

  lemma UntypedFields(items: Json, key: string)
    ensures Field(Untyped(items), key) == if key == "items" then Some(items) else None
  {
    GetSingle("items", items, key);
  }

  lemma UntypedNormal(depth: nat, items: Json, root: Json)
    requires depth > 0
    ensures Normalize(depth, Untyped(items), root) == Done(Untyped(items))
    ensures BranchList(Untyped(items)) == None && SchemaType(Untyped(items)) == None && PropertiesOf(Untyped(items)) == []
  {
    UntypedFields(items, "$ref");
    UntypedFields(items, "type");
    UntypedFields(items, "enum");
    UntypedFields(items, "anyOf");
    UntypedFields(items, "oneOf");
    UntypedFields(items, "properties");
  }

  /** Items are looked at only where the type is declared to be an array. */
  lemma UndeclaredArraysAreLost(depth: nat, source: Source, items: Json, root: Json, prefix: string)
    requires depth > 1
    ensures ExtractSchema(depth, source, Untyped(items), root, prefix) == Done([])
  {
    UntypedNormal(depth - 1, items, root);
    OnlyTyped(depth, source, Untyped(items), root, prefix);
  }

  /** An object with one property, an array of scalars that does not say so. */
  function ArrayInside(name: string, t: string): Json
  {
    Obj([("type", Str("object")), ("properties", Obj([(name, Untyped(Typed(t)))]))])
  }

  lemma InsideFields(name: string, t: string, key: string)
    ensures Field(ArrayInside(name, t), key) ==
      if key == "type" then Some(Str("object"))
      else if key == "properties" then Some(Obj([(name, Untyped(Typed(t)))]))
      else None
  {
    assert ArrayInside(name, t).members[1..] == [("properties", Obj([(name, Untyped(Typed(t)))]))];
    GetSingle("properties", Obj([(name, Untyped(Typed(t)))]), key);
  }

  lemma InsideNormal(depth: nat, name: string, t: string, root: Json)
    requires depth > 0
    ensures Normalize(depth, ArrayInside(name, t), root) == Done(ArrayInside(name, t))
    ensures BranchList(ArrayInside(name, t)) == None && SchemaType(ArrayInside(name, t)) == Some("object")
  {
    InsideFields(name, t, "$ref");
    InsideFields(name, t, "type");
    InsideFields(name, t, "anyOf");
    InsideFields(name, t, "oneOf");
  }

  lemma InsideInFragment(name: string, t: string, root: Json)
    requires CleanName(name)
    ensures InFragment(root, ArrayInside(name, t))
  {
    UntypedInFragment(t, root);
    var s := ArrayInside(name, t);
    InsideFields(name, t, "$ref");
    InsideFields(name, t, "type");
    InsideFields(name, t, "properties");
    InsideFields(name, t, "items");
    InsideFields(name, t, "prefixItems");
    InsideFields(name, t, "anyOf");
    InsideFields(name, t, "oneOf");
    assert ResolveRef(s, root) == s;
    FragmentStep(root, s);
  }

  lemma UntypedInFragment(t: string, root: Json)
    ensures InFragment(root, Untyped(Typed(t)))
  {
    var s := Untyped(Typed(t));
    UntypedFields(Typed(t), "$ref");
    UntypedFields(Typed(t), "properties");
    UntypedFields(Typed(t), "items");
    UntypedFields(Typed(t), "prefixItems");
    UntypedFields(Typed(t), "anyOf");
    UntypedFields(Typed(t), "oneOf");
    TypedInFragment(t, root);
    assert ResolveRef(s, root) == s;
    FragmentStep(root, s);
  }

  lemma UntypedValid(t: string, root: Json)
    requires IsScalar(Some(t))
    ensures ValidIn(2, root, Untyped(Typed(t)), Arr([Sample(t)]))
  {
    TypedValid(t, root, Sample(t));
    UntypedFields(Typed(t), "$ref");
    UntypedFields(Typed(t), "type");
    UntypedFields(Typed(t), "enum");
    UntypedFields(Typed(t), "properties");
    UntypedFields(Typed(t), "prefixItems");
    UntypedFields(Typed(t), "items");
    UntypedFields(Typed(t), "minItems");
    UntypedFields(Typed(t), "maxItems");
    UntypedFields(Typed(t), "anyOf");
    UntypedFields(Typed(t), "oneOf");
    ValidWhen(2, root, Untyped(Typed(t)), Arr([Sample(t)]));
  }

  lemma InsideValid(name: string, t: string, root: Json)
    requires IsScalar(Some(t))
    ensures ValidIn(3, root, ArrayInside(name, t), Obj([(name, Arr([Sample(t)]))]))
  {
    var v := Obj([(name, Arr([Sample(t)]))]);
    UntypedValid(t, root);
    OneProperty(2, name, Untyped(Typed(t)), root, Arr([Sample(t)]));
    InsideFields(name, t, "$ref");
    InsideFields(name, t, "type");
    InsideFields(name, t, "enum");
    InsideFields(name, t, "properties");
    InsideFields(name, t, "prefixItems");
    InsideFields(name, t, "items");
    InsideFields(name, t, "minItems");
    InsideFields(name, t, "maxItems");
    InsideFields(name, t, "anyOf");
    InsideFields(name, t, "oneOf");
    ValidWhen(3, root, ArrayInside(name, t), v);
  }

  lemma UntypedDescribes(t: string, root: Json)
    requires IsScalar(Some(t))
    ensures DescribesIn(2, root, Untyped(Typed(t)), [Index(0)], t)
  {
    TypedDescribes(t, root);
    UntypedFields(Typed(t), "items");
    UntypedFields(Typed(t), "prefixItems");
    assert [Index(0)][1..] == [];
    assert ByItems(2, root, Some(Typed(t)), 0, [Index(0)], t);
  }

  lemma InsideDescribes(name: string, t: string, root: Json)
    requires IsScalar(Some(t))
    ensures DescribesIn(3, root, ArrayInside(name, t), [Member(name), Index(0)], t)
  {
    UntypedDescribes(t, root);
    InsideFields(name, t, "properties");
    PropertyDescribed(2, root, ArrayInside(name, t), name, Untyped(Typed(t)), [Index(0)], t);
    assert [Member(name)] + [Index(0)] == [Member(name), Index(0)];
  }

  lemma InsideExtracts(depth: nat, source: Source, name: string, t: string, root: Json)
    requires depth > 2
    ensures ExtractSchema(depth, source, ArrayInside(name, t), root, "") == Done([])
  {
    var ps := [(name, Untyped(Typed(t)))];
    InsideNormal(depth - 1, name, t, root);
    InsideFields(name, t, "properties");
    OnlyTyped(depth, source, ArrayInside(name, t), root, "");
    PropertyLost(depth, source, name, Typed(t), root, "");
    assert PropertiesOf(ArrayInside(name, t)) == ps;
  }

  lemma PropertyLost(depth: nat, source: Source, name: string, items: Json, root: Json, prefix: string)
    requires depth > 2
    ensures ExtractProperties(depth, source, [(name, Untyped(items))], root, prefix) == Done([])
  {
    var ps := [(name, Untyped(items))];
    UndeclaredArraysAreLost(depth - 1, source, items, root, MemberPath(prefix, name));
    assert ps[1..] == [];
    assert ExtractProperties(depth, source, ps[1..], root, prefix) == Done([]);
    var here, rest := PropertiesSplit(depth, source, ps, root, prefix);
    assert here == [] && rest == [] && here + rest == [];
  }

  lemma UntypedUnwalked(t: string, root: Json, loc: seq<Step>)
    ensures !Walked(root, Untyped(Typed(t)), false, loc, t)
  {
    UntypedNormal(1, Typed(t), root);
    WalkedIs(1, root, Untyped(Typed(t)), Untyped(Typed(t)), false, loc, t);
  }

  lemma InsideUnwalked(name: string, t: string, root: Json, loc: seq<Step>)
    requires CleanName(name)
    ensures !Walked(root, ArrayInside(name, t), true, loc, t)
  {
    var ps := [(name, Untyped(Typed(t)))];
    InsideNormal(1, name, t, root);
    InsideFields(name, t, "properties");
    assert PropertiesOf(ArrayInside(name, t)) == ps;
    WalkedIs(1, root, ArrayInside(name, t), ArrayInside(name, t), true, loc, t);
    if loc != [] {
      UntypedUnwalked(t, root, loc[1..]);
      forall p | p in ps
        ensures !PropertyWalked(root, p, true, loc, t)
      {
        assert p == ps[0];
      }
    }
  }

  /** For every scalar type and property name there is a document in the fragment that gives the items
      of an array the type, without saying that it is an array, and they get no field. */
  lemma UndeclaredItemsAreLost(depth: nat, source: Source, name: string, t: string)
    requires depth > 2 && CleanName(name) && IsScalar(Some(t))
    ensures var doc := ArrayInside(name, t);
      && Lost(doc, Obj([(name, Arr([Sample(t)]))]), [Member(name), Index(0)], t)
      && ExtractSchema(depth, source, doc, doc, "") == Done([])
  {
    var doc, loc := ArrayInside(name, t), [Member(name), Index(0)];
    InsideInFragment(name, t, doc);
    InsideValid(name, t, doc);
    InsideDescribes(name, t, doc);
    InsideExtracts(depth, source, name, t, doc);
    InsideUnwalked(name, t, doc, loc);
    OneItem(name, Sample(t));
  }

  lemma OneItem(name: string, x: Json)
    ensures ValueAt(Obj([(name, Arr([x]))]), [Member(name), Index(0)]) == Some(x)
  {
    GetSingle(name, Arr([x]), name);
    assert [Member(name), Index(0)][1..] == [Index(0)] && [Index(0)][1..] == [];
  }
}
