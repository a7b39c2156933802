/** Schemas with one keyword, and how schemas without alternatives are read. */
module SmallSchemas {
  import opened OrderedDict
  import opened Json
  import opened JsonSchema
  import opened LaxPath
  import opened PlotFields
  import opened SchemaFragment

  function Typed(t: string): Json { Obj([("type", Str(t))]) }

  function Enumerated(es: seq<Json>): Json { Obj([("enum", Arr(es))]) }

  lemma TypedFields(t: string, key: string)
    ensures Field(Typed(t), key) == if key == "type" then Some(Str(t)) else None
  {
    GetSingle("type", Str(t), key);
  }

  lemma EnumeratedFields(es: seq<Json>, key: string)
    ensures Field(Enumerated(es), key) == if key == "enum" then Some(Arr(es)) else None
  {
    GetSingle("enum", Arr(es), key);
  }

  lemma TypedNormal(depth: nat, t: string, root: Json)
    requires depth > 0
    ensures Normalize(depth, Typed(t), root) == Done(Typed(t))
    ensures SchemaType(Typed(t)) == Some(t) && BranchList(Typed(t)) == None
  {
    TypedFields(t, "type");
    TypedFields(t, "$ref");
    TypedFields(t, "anyOf");
    TypedFields(t, "oneOf");
  }

  /** Without alternatives a normalised schema is read by its type. */
  lemma OnlyTyped(depth: nat, source: Source, s: Json, root: Json, prefix: string)
    requires depth > 1 && BranchList(s) == None && Truthy(s) && Normalize(depth - 1, s, root) == Done(s)
    ensures ExtractSchema(depth, source, s, root, prefix) == ExtractTyped(depth, source, s, root, prefix)
  {
    assert ExtractBranches(depth - 1, source, s, root, prefix) == Done(None);
    assert ExtractNormal(depth, source, s, root, prefix) == ExtractTyped(depth, source, s, root, prefix);
  }

  /** A schema with no more than a type, an enumeration, properties, items and alternatives. */
  lemma ValidWhen(k: nat, root: Json, s: Json, v: Json)
    requires k > 0 && s.Obj? && Field(s, "$ref") == None && Field(s, "prefixItems") == None
    requires Field(s, "minItems") == None && Field(s, "maxItems") == None
    requires TypeHolds(s, v) && EnumHolds(s, v) && PropertiesHold(k - 1, root, Field(s, "properties"), v)
    requires ItemsHold(k - 1, root, Field(s, "items"), 0, v)
    requires SomeBranchHolds(k - 1, root, Field(s, "anyOf"), v) && SomeBranchHolds(k - 1, root, Field(s, "oneOf"), v)
    ensures ValidIn(k, root, s, v)
  {
  }

  lemma TypedValid(t: string, root: Json, v: Json)
    requires HasType(Str(t), v)
    ensures ValidIn(1, root, Typed(t), v)
  {
    TypedFields(t, "type");
    TypedFields(t, "$ref");
    TypedFields(t, "enum");
    TypedFields(t, "properties");
    TypedFields(t, "prefixItems");
    TypedFields(t, "items");
    TypedFields(t, "minItems");
    TypedFields(t, "maxItems");
    TypedFields(t, "anyOf");
    TypedFields(t, "oneOf");
    ValidWhen(1, root, Typed(t), v);
  }

  lemma EnumeratedValid(es: seq<Json>, root: Json, e: Json)
    requires e in es && (e.Bool? || e.Str?)
    ensures ValidIn(1, root, Enumerated(es), e)
  {
    EnumeratedFields(es, "type");
    EnumeratedFields(es, "$ref");
    EnumeratedFields(es, "enum");
    EnumeratedFields(es, "properties");
    EnumeratedFields(es, "prefixItems");
    EnumeratedFields(es, "items");
    EnumeratedFields(es, "minItems");
    EnumeratedFields(es, "maxItems");
    EnumeratedFields(es, "anyOf");
    EnumeratedFields(es, "oneOf");
    assert Same(e, e);
    ValidWhen(1, root, Enumerated(es), e);
  }

  lemma FirstHolds(k: nat, root: Json, a: Json, bs: seq<Json>, v: Json)
    requires a in bs && ValidIn(k, root, a, v)
    ensures SomeBranchHolds(k, root, Some(Arr(bs)), v)
  {
  }

  /** Some value of a scalar type. */
  function Sample(t: string): (v: Json)
    ensures IsScalar(Some(t)) ==> HasType(Str(t), v) && v != Null
  {
    if IsNumeric(Some(t)) then Int(0) else if t == "boolean" then Bool(true) else Str("")
  }

  /** Schemas with one keyword are in the fragment: there is nothing below them. */
  lemma TypedInFragment(t: string, root: Json)
    ensures LocalOk(Typed(t), root) && ResolveRef(Typed(t), root) == Typed(t)
    ensures InFragment(root, Typed(t))
  {
    TypedFields(t, "$ref");
    TypedFields(t, "properties");
    TypedFields(t, "items");
    TypedFields(t, "prefixItems");
    TypedFields(t, "anyOf");
    TypedFields(t, "oneOf");
    FragmentStep(root, Typed(t));
  }

  lemma EnumeratedLocal(es: seq<Json>, root: Json)
    ensures LocalOk(Enumerated(es), root) && ResolveRef(Enumerated(es), root) == Enumerated(es)
  {
    EnumeratedFields(es, "$ref");
    EnumeratedFields(es, "properties");
    EnumeratedFields(es, "items");
    EnumeratedFields(es, "prefixItems");
    EnumeratedFields(es, "anyOf");
    EnumeratedFields(es, "oneOf");
  }
}
