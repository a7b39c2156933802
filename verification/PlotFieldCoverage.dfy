/** Every scalar position of a schema is covered by an extracted field, and only by one. */
module PlotFieldCoverage {
  import opened OrderedDict
  import opened Json
  import opened JsonSchema
  import opened LaxPath
  import opened PlotFields
  import opened SchemaFragment
  import opened PlotFieldSoundness

  // ---- which positions are scalar ---------------------------------------------------

  /** The schema itself says its non-null instances are of the scalar type `t`: it declares it,
      or it enumerates only strings or only booleans. */
  predicate SaysScalar(schema: Json, t: string)
  {
    && IsScalar(Some(t))
    && (DeclaresType(schema, t) || (
          var values := NonNullValues(ElementsAt(schema, "enum"));
          && Field(schema, "type").None? && values != []
          && ((t == "string" && forall e | e in values :: e.Str?) || (t == "boolean" && forall e | e in values :: e.Bool?))))
  }

  /** `schema` gives the scalar type `t` to location `loc` of its instances, by a derivation of
      height at most `k` through references, alternatives, properties and items. */
  ghost predicate DescribesIn(k: nat, root: Json, schema: Json, loc: seq<Step>, t: string)
    decreases k, 1
  {
    k > 0 && schema.Obj? && (
      || (RefTarget(schema, root).Some? && DescribesIn(k - 1, root, RefTarget(schema, root).value, loc, t))
      || ByBranch(k, root, ElementsAt(schema, "anyOf"), loc, t)
      || ByBranch(k, root, ElementsAt(schema, "oneOf"), loc, t)
      || (loc == [] && SaysScalar(schema, t))
      || ByProperty(k, root, PropertiesOf(schema), loc, t)
      || ByItems(k, root, Field(schema, "items"), PrefixLength(schema), loc, t)
      || ByPrefixItem(k, root, ElementsAt(schema, "prefixItems"), loc, t))
  }

  ghost predicate ByBranch(k: nat, root: Json, bs: seq<Json>, loc: seq<Step>, t: string)
    requires k > 0
    decreases k, 0
  {
    exists b :: b in bs && b.Obj? && !IsNullSchema(b) && DescribesIn(k - 1, root, b, loc, t)
  }

  ghost predicate ByProperty(k: nat, root: Json, ps: Dict<string, Json>, loc: seq<Step>, t: string)
    requires k > 0
    decreases k, 0
  {
    loc != [] && loc[0].Member? && exists p :: p in ps && p.0 == loc[0].name && DescribesIn(k - 1, root, p.1, loc[1..], t)
  }

  ghost predicate ByItems(k: nat, root: Json, items: Option<Json>, start: nat, loc: seq<Step>, t: string)
    requires k > 0
    decreases k, 0
  {
    loc != [] && loc[0].Index? && loc[0].i >= start && items.Some? && DescribesIn(k - 1, root, items.value, loc[1..], t)
  }

  ghost predicate ByPrefixItem(k: nat, root: Json, es: seq<Json>, loc: seq<Step>, t: string)
    requires k > 0
    decreases k, 0
  {
    loc != [] && loc[0].Index? && loc[0].i < |es| && DescribesIn(k - 1, root, es[loc[0].i], loc[1..], t)
  }

  ghost predicate Describes(root: Json, schema: Json, loc: seq<Step>, t: string)
  {
    exists k: nat :: DescribesIn(k, root, schema, loc, t)
  }

  // ---- the schemas for which coverage is claimed ------------------------------------

  predicate HasUnion(schema: Json, key: string)
  {
    Field(schema, key).Some? && Field(schema, key).value.Arr?
  }

  /** No type, enumeration, properties or items beside a reference or alternatives. */
  predicate NoConstraints(schema: Json)
  {
    && Field(schema, "type").None? && Field(schema, "enum").None? && Field(schema, "properties").None?
    && Field(schema, "items").None? && Field(schema, "prefixItems").None?
  }

  predicate UnionAlone(schema: Json)
  {
    && (HasUnion(schema, "anyOf") ==> NoConstraints(schema) && Field(schema, "oneOf").None?)
    && (HasUnion(schema, "oneOf") ==> NoConstraints(schema) && Field(schema, "anyOf").None?)
  }

  /** References and alternatives stand alone, arrays say they are arrays, and types are names. */
  predicate CoverOk(schema: Json, root: Json)
  {
    var m := ResolveRef(schema, root);
    && (RefTarget(schema, root).Some? ==>
          NoConstraints(schema) && Field(schema, "anyOf").None? && Field(schema, "oneOf").None?)
    && UnionAlone(m)
    && (Field(m, "items").Some? || Field(m, "prefixItems").Some? ==> DeclaresType(m, "array"))
    && (forall t | t in ElementsAt(m, "type") :: t.Str?)
  }

  /** Going on to location `loc` leads from a resolved schema to `c`, with `rest` still to go. */
  predicate Leads(schema: Json, loc: seq<Step>, c: Json, rest: seq<Step>)
  {
    || (rest == loc && (c in NonNullBranches(ElementsAt(schema, "anyOf")) || c in NonNullBranches(ElementsAt(schema, "oneOf"))))
    || (loc != [] && rest == loc[1..] && LeadsInto(schema, loc[0], c))
  }

  predicate LeadsInto(schema: Json, step: Step, c: Json)
  {
    var es := ElementsAt(schema, "prefixItems");
    || (step.Member? && (step.name, c) in PropertiesOf(schema))
    || (step.Index? && Field(schema, "items") == Some(c))
    || (step.Index? && step.i < |es| && c == es[step.i])
  }

  ghost predicate CoverIn(k: nat, root: Json, schema: Json, loc: seq<Step>)
  {
    k == 0 || (
      && CoverOk(schema, root)
      && forall c, rest | Leads(ResolveRef(schema, root), loc, c, rest) :: CoverIn(k - 1, root, c, rest))
  }

  /** Every schema on the way to the location meets the conditions. */
  ghost predicate InCover(root: Json, schema: Json, loc: seq<Step>)
  {
    forall k: nat :: CoverIn(k, root, schema, loc)
  }

  lemma CoverStep(root: Json, schema: Json, loc: seq<Step>)
    ensures InCover(root, schema, loc) <==>
            CoverOk(schema, root) && forall c, rest | Leads(ResolveRef(schema, root), loc, c, rest) :: InCover(root, c, rest)
  {
    if InCover(root, schema, loc) {
      assert CoverIn(1, root, schema, loc);
      forall c, rest, k: nat | Leads(ResolveRef(schema, root), loc, c, rest)
        ensures CoverIn(k, root, c, rest)
      {
        assert CoverIn(k + 1, root, schema, loc);
      }
    }
    if CoverOk(schema, root) && forall c, rest | Leads(ResolveRef(schema, root), loc, c, rest) :: InCover(root, c, rest) {
      forall k: nat
        ensures CoverIn(k, root, schema, loc)
      {
      }
    }
  }

  /** Ready to be extracted from, and on the way to a location coverage is claimed for. */
  ghost predicate Coverable(root: Json, schema: Json, loc: seq<Step>)
  {
    && Ready(root, schema) && InCover(root, schema, loc)
    && |NonNullTypes(ElementsAt(schema, "type"))| != 1
  }

  // ---- normalising keeps what is described ------------------------------------------

  lemma ResolvedRefField(schema: Json, root: Json)
    requires LocalOk(schema, root) && RefTarget(schema, root).Some?
    ensures RefTarget(RefTarget(schema, root).value, root).None?
  {
    WithoutDistinct(schema.members, "$ref");
    GetMerge(RefTarget(schema, root).value.members, Without(schema.members, "$ref"), "$ref");
    GetWithout(schema.members, "$ref", "$ref");
  }

  /** Schemas without a reference that agree on every keyword describe the same positions. */
  lemma DescribesSame(k: nat, root: Json, a: Json, b: Json, loc: seq<Step>, t: string)
    requires a.Obj? && b.Obj? && RefTarget(a, root).None? && DescribesIn(k, root, a, loc, t)
    requires Field(a, "type") == Field(b, "type") && Field(a, "enum") == Field(b, "enum")
    requires Field(a, "properties") == Field(b, "properties") && Field(a, "items") == Field(b, "items")
    requires Field(a, "prefixItems") == Field(b, "prefixItems")
    requires Field(a, "anyOf") == Field(b, "anyOf") && Field(a, "oneOf") == Field(b, "oneOf")
    ensures DescribesIn(k, root, b, loc, t)
  {
  }

  /** A schema without constraints describes nothing by itself. */
  lemma NothingDescribed(k: nat, root: Json, schema: Json, loc: seq<Step>, t: string)
    requires k > 0 && NoConstraints(schema)
    ensures !SaysScalar(schema, t) && !ByProperty(k, root, PropertiesOf(schema), loc, t)
    ensures !ByItems(k, root, Field(schema, "items"), PrefixLength(schema), loc, t)
    ensures !ByPrefixItem(k, root, ElementsAt(schema, "prefixItems"), loc, t)
    ensures Field(schema, "anyOf").None? ==> !ByBranch(k, root, ElementsAt(schema, "anyOf"), loc, t)
    ensures Field(schema, "oneOf").None? ==> !ByBranch(k, root, ElementsAt(schema, "oneOf"), loc, t)
  {
  }

  lemma DescribesByRef(k: nat, root: Json, schema: Json, loc: seq<Step>, t: string)
    requires NoConstraints(schema) && Field(schema, "anyOf").None? && Field(schema, "oneOf").None?
    requires DescribesIn(k, root, schema, loc, t)
    ensures RefTarget(schema, root).Some? && DescribesIn(k - 1, root, RefTarget(schema, root).value, loc, t)
  {
    NothingDescribed(k, root, schema, loc, t);
  }

  lemma DescribesResolved(k: nat, root: Json, schema: Json, loc: seq<Step>, t: string) returns (j: nat)
    requires LocalOk(schema, root) && CoverOk(schema, root) && DescribesIn(k, root, schema, loc, t)
    ensures j <= k && DescribesIn(j, root, ResolveRef(schema, root), loc, t)
  {
    j := k;
    if RefTarget(schema, root).Some? {
      j := k - 1;
      DescribesByRef(k, root, schema, loc, t);
      ResolvedField(schema, root, "type");
      ResolvedField(schema, root, "enum");
      ResolvedField(schema, root, "properties");
      ResolvedField(schema, root, "items");
      ResolvedField(schema, root, "prefixItems");
      ResolvedField(schema, root, "anyOf");
      ResolvedField(schema, root, "oneOf");
      ResolvedRefField(schema, root);
      DescribesSame(k - 1, root, RefTarget(schema, root).value, ResolveRef(schema, root), loc, t);
    }
  }

  lemma DescribesDropped(k: nat, root: Json, schema: Json, loc: seq<Step>, t: string)
    requires schema.Obj? && DescribesIn(k, root, schema, loc, t)
    ensures DescribesIn(k, root, DropNullType(schema), loc, t)
  {
    DroppedType(schema);
    DroppedField(schema, "$ref");
    DroppedField(schema, "enum");
    DroppedField(schema, "properties");
    DroppedField(schema, "items");
    DroppedField(schema, "prefixItems");
    DroppedField(schema, "anyOf");
    DroppedField(schema, "oneOf");
  }

  lemma DescribesByBranch(k: nat, root: Json, n: Json, key: string, loc: seq<Step>, t: string)
    requires n.Obj? && RefTarget(n, root).None? && UnionAlone(n) && HasUnion(n, key) && key in ["anyOf", "oneOf"]
    requires DescribesIn(k, root, n, loc, t)
    ensures ByBranch(k, root, ElementsAt(n, key), loc, t)
  {
    NothingDescribed(k, root, n, loc, t);
  }

  lemma DescribesBranch(k: nat, root: Json, n: Json, loc: seq<Step>, t: string)
    requires n.Obj? && RefTarget(n, root).None? && UnionAlone(n) && SoleBranch(n).Some?
    requires DescribesIn(k, root, n, loc, t)
    ensures DescribesIn(k - 1, root, SoleBranch(n).value, loc, t)
  {
    var key := if SoleBranchOf(n, "anyOf").Some? then "anyOf" else "oneOf";
    DescribesByBranch(k, root, n, key, loc, t);
    var b :| b in ElementsAt(n, key) && b.Obj? && !IsNullSchema(b) && DescribesIn(k - 1, root, b, loc, t);
    InNonNullBranches(ElementsAt(n, key), b);
  }

  /** Dropping null from a list of type names leaves no list with a single name. */
  lemma DroppedNames(m: Json)
    requires m.Obj? && forall t | t in ElementsAt(m, "type") :: t.Str?
    ensures var ts := ElementsAt(DropNullType(m), "type");
            |NonNullTypes(ts)| != 1 && (forall t | t in ts :: t.Str?)
    ensures forall t :: DeclaresType(DropNullType(m), t) <==> DeclaresType(m, t)
  {
    DroppedType(m);
    var ts := ElementsAt(m, "type");
    if |NonNullTypes(ts)| == 1 {
      NonNullTypeIn(ts, NonNullTypes(ts)[0]);
    }
  }

  lemma CoverDropped(m: Json, root: Json)
    requires m.Obj? && RefTarget(m, root).None? && CoverOk(m, root)
    ensures CoverOk(DropNullType(m), root)
  {
    DroppedNames(m);
    DroppedType(m);
    DroppedField(m, "$ref");
    DroppedField(m, "anyOf");
    DroppedField(m, "oneOf");
    DroppedField(m, "items");
    DroppedField(m, "prefixItems");
    DroppedField(m, "enum");
    DroppedField(m, "properties");
  }

  lemma DroppedLeads(m: Json, loc: seq<Step>)
    requires m.Obj?
    ensures forall c, rest :: Leads(DropNullType(m), loc, c, rest) <==> Leads(m, loc, c, rest)
  {
    DroppedField(m, "anyOf");
    DroppedField(m, "oneOf");
    DroppedField(m, "properties");
    DroppedField(m, "items");
    DroppedField(m, "prefixItems");
  }

  lemma SoleBranchLeads(n: Json, loc: seq<Step>)
    requires SoleBranch(n).Some?
    ensures Leads(n, loc, SoleBranch(n).value, loc)
  {
    var key := if SoleBranchOf(n, "anyOf").Some? then "anyOf" else "oneOf";
    assert SoleBranch(n).value in NonNullBranches(ElementsAt(n, key));
  }

  lemma CoverPass(root: Json, schema: Json, loc: seq<Step>)
    requires schema.Obj? && InFragment(root, schema) && InCover(root, schema, loc)
    ensures var n := DropNullType(ResolveRef(schema, root));
            && InCover(root, n, loc) && |NonNullTypes(ElementsAt(n, "type"))| != 1
  {
    FragmentStep(root, schema);
    CoverStep(root, schema, loc);
    var m := ResolveRef(schema, root);
    NormalizePass(root, schema);
    DroppedLeads(m, loc);
    CoverDropped(m, root);
    DroppedNames(m);
    CoverStep(root, DropNullType(m), loc);
  }

  lemma {:induction false} NormalizeCoverable(depth: nat, schema: Json, root: Json, loc: seq<Step>)
    requires InFragment(root, schema) && InCover(root, schema, loc) && Normalize(depth, schema, root).Done?
    ensures Coverable(root, Normalize(depth, schema, root).value, loc)
  {
    NormalizeStays(depth, schema, root);
    CoverPass(root, schema, loc);
    var n := DropNullType(ResolveRef(schema, root));
    if SoleBranch(n).Some? {
      NormalizePass(root, schema);
      SoleBranchLeads(n, loc);
      CoverStep(root, n, loc);
      NormalizeCoverable(depth - 1, SoleBranch(n).value, root, loc);
    }
  }

  lemma DescribesPass(k: nat, root: Json, schema: Json, loc: seq<Step>, t: string) returns (j: nat)
    requires schema.Obj? && InFragment(root, schema) && InCover(root, schema, loc) && DescribesIn(k, root, schema, loc, t)
    ensures j <= k && DescribesIn(j, root, DropNullType(ResolveRef(schema, root)), loc, t)
  {
    FragmentStep(root, schema);
    CoverStep(root, schema, loc);
    j := DescribesResolved(k, root, schema, loc, t);
    DescribesDropped(j, root, ResolveRef(schema, root), loc, t);
  }

  /** One pass of normalising a described position: a sole alternative describes it by a shorter derivation. */
  lemma DescribesOnePass(k: nat, root: Json, schema: Json, loc: seq<Step>, t: string) returns (j: nat)
    requires schema.Obj? && InFragment(root, schema) && InCover(root, schema, loc) && DescribesIn(k, root, schema, loc, t)
    ensures var n := DropNullType(ResolveRef(schema, root));
      if SoleBranch(n).Some? then
        var b := SoleBranch(n).value;
        j < k && b.Obj? && InFragment(root, b) && InCover(root, b, loc) && DescribesIn(j, root, b, loc, t)
      else DescribesIn(j, root, n, loc, t)
  {
    j := DescribesPass(k, root, schema, loc, t);
    var n := DropNullType(ResolveRef(schema, root));
    if SoleBranch(n).Some? {
      CoverPass(root, schema, loc);
      NormalizePass(root, schema);
      SoleBranchLeads(n, loc);
      CoverStep(root, n, loc);
      DescribesBranch(j, root, n, loc, t);
      j := j - 1;
      FragmentStep(root, SoleBranch(n).value);
    }
  }

  /** A described position has a normal form on its way, and normalising keeps it described. */
  lemma {:induction false} DescribedNormal(k: nat, schema: Json, root: Json, loc: seq<Step>, t: string) returns (depth: nat)
    requires InFragment(root, schema) && InCover(root, schema, loc) && DescribesIn(k, root, schema, loc, t)
    ensures Normalize(depth, schema, root).Done?
    ensures Describes(root, Normalize(depth, schema, root).value, loc, t)
    decreases k
  {
    FragmentStep(root, schema);
    var j := DescribesOnePass(k, root, schema, loc, t);
    var n := DropNullType(ResolveRef(schema, root));
    depth := 1;
    if SoleBranch(n).Some? {
      depth := DescribedNormal(j, SoleBranch(n).value, root, loc, t);
      depth := depth + 1;
    }
  }
}
