/** When a list of fields covers a position, and what a normalised schema says about the positions it describes. */
module PlotFieldCovers {
  import opened OrderedDict
  import opened Json
  import opened JsonSchema
  import opened LaxPath
  import opened PlotFields
  import opened SchemaFragment
  import opened PlotFieldSoundness
  import opened PlotFieldCoverage

  /** `steps` is what the path of `f` adds to the prefix. */
  predicate Adds(pre: seq<Step>, f: PlotField, steps: seq<Step>)
  {
    Clean(pre + steps) && f.path == Print(pre + steps)
  }

  predicate CoveredBy(pre: seq<Step>, f: PlotField, steps: seq<Step>, loc: seq<Step>, t: string)
  {
    && !f.valueType.NumberMatrixIndex? && Adds(pre, f, steps) && Matches(steps, loc)
    && KindOfType(Some(t), f.valueType)
  }

  /** Some field of the list covers location `loc` below the prefix, as a scalar of type `t`. */
  ghost predicate Covers(fs: seq<PlotField>, pre: seq<Step>, loc: seq<Step>, t: string)
  {
    exists f, steps :: f in fs && CoveredBy(pre, f, steps, loc, t)
  }

  lemma CoversLeaf(fs: seq<PlotField>, pre: seq<Step>, f: PlotField, t: string)
    requires f in fs && f.path == Print(pre) && Clean(pre)
    requires !f.valueType.NumberMatrixIndex? && KindOfType(Some(t), f.valueType)
    ensures Covers(fs, pre, [], t)
  {
    assert pre + [] == pre;
    assert CoveredBy(pre, f, [], [], t);
  }

  lemma CoversShift(fs: seq<PlotField>, here: seq<PlotField>, pre: seq<Step>, step: Step, loc: seq<Step>, t: string)
    requires loc != [] && MatchesStep(step, loc[0])
    requires Covers(here, pre + [step], loc[1..], t) && forall f | f in here :: f in fs
    ensures Covers(fs, pre, loc, t)
  {
    var f, steps :| f in here && CoveredBy(pre + [step], f, steps, loc[1..], t);
    assert pre + [step] + steps == pre + ([step] + steps);
    MatchesCons(step, loc[0], steps, loc[1..]);
    assert [loc[0]] + loc[1..] == loc;
    assert CoveredBy(pre, f, [step] + steps, loc, t);
  }

  // ---- what a schema that is ready describes ----------------------------------------

  ghost predicate PropertyDescribes(root: Json, schema: Json, p: (string, Json), loc: seq<Step>, t: string)
  {
    p in PropertiesOf(schema) && loc != [] && loc[0] == Member(p.0) && Describes(root, p.1, loc[1..], t)
  }

  ghost predicate ItemsDescribe(root: Json, schema: Json, loc: seq<Step>, t: string)
  {
    loc != [] && loc[0].Index? && Field(schema, "items").Some? && Describes(root, Field(schema, "items").value, loc[1..], t)
  }

  ghost predicate PrefixItemDescribes(root: Json, schema: Json, loc: seq<Step>, t: string)
  {
    var es := ElementsAt(schema, "prefixItems");
    loc != [] && loc[0].Index? && loc[0].i < |es| && Describes(root, es[loc[0].i], loc[1..], t)
  }

  lemma NoBranchDescribes(k: nat, root: Json, schema: Json, key: string, loc: seq<Step>, t: string)
    requires k > 0 && ShapeOk(schema, root) && SoleBranchOf(schema, key).None? && UnionOk(schema, key)
    ensures !ByBranch(k, root, ElementsAt(schema, key), loc, t)
  {
    if ByBranch(k, root, ElementsAt(schema, key), loc, t) {
      var b :| b in ElementsAt(schema, key) && b.Obj? && !IsNullSchema(b) && DescribesIn(k - 1, root, b, loc, t);
      InNonNullBranches(ElementsAt(schema, key), b);
    }
  }

  lemma SomethingDescribed(root: Json, schema: Json, loc: seq<Step>, t: string)
    requires Ready(root, schema) && Describes(root, schema, loc, t)
    ensures schema.Obj? && !NoConstraints(schema)
    ensures || (loc == [] && SaysScalar(schema, t))
            || (exists p :: PropertyDescribes(root, schema, p, loc, t))
            || ItemsDescribe(root, schema, loc, t)
            || PrefixItemDescribes(root, schema, loc, t)
  {
    ReadyShape(root, schema);
    var k: nat :| DescribesIn(k, root, schema, loc, t);
    NoBranchDescribes(k, root, schema, "anyOf", loc, t);
    NoBranchDescribes(k, root, schema, "oneOf", loc, t);
    if NoConstraints(schema) {
      NothingDescribed(k, root, schema, loc, t);
    }
    if ByProperty(k, root, PropertiesOf(schema), loc, t) {
      var p :| p in PropertiesOf(schema) && p.0 == loc[0].name && DescribesIn(k - 1, root, p.1, loc[1..], t);
      assert PropertyDescribes(root, schema, p, loc, t);
    } else if ByItems(k, root, Field(schema, "items"), PrefixLength(schema), loc, t) {
      assert DescribesIn(k - 1, root, Field(schema, "items").value, loc[1..], t);
    } else if ByPrefixItem(k, root, ElementsAt(schema, "prefixItems"), loc, t) {
      assert DescribesIn(k - 1, root, ElementsAt(schema, "prefixItems")[loc[0].i], loc[1..], t);
    }
  }

  lemma CoverableOk(root: Json, schema: Json, loc: seq<Step>)
    requires Coverable(root, schema, loc)
    ensures CoverOk(schema, root) && ResolveRef(schema, root) == schema
  {
    CoverStep(root, schema, loc);
  }

  /** Which type a schema must be read as, given the kind of location it describes. */
  lemma DescribedType(root: Json, schema: Json, loc: seq<Step>, t: string)
    requires Coverable(root, schema, loc) && Describes(root, schema, loc, t)
    ensures schema.Obj? && Truthy(schema) && BranchList(schema).None?
    ensures loc == [] ==> IsScalar(Some(t)) && SchemaType(schema) == Some(t)
    ensures loc != [] && loc[0].Member? ==>
              SchemaType(schema) == Some("object") && exists p :: PropertyDescribes(root, schema, p, loc, t)
    ensures loc != [] && !loc[0].Member? ==>
              SchemaType(schema) == Some("array")
              && (ItemsDescribe(root, schema, loc, t) || PrefixItemDescribes(root, schema, loc, t))
  {
    ReadyShape(root, schema);
    CoverableOk(root, schema, loc);
    SomethingDescribed(root, schema, loc, t);
    if loc == [] {
      ScalarRead(schema, t);
    }
  }

  lemma ScalarRead(schema: Json, t: string)
    requires SaysScalar(schema, t) && |NonNullTypes(ElementsAt(schema, "type"))| != 1
    ensures SchemaType(schema) == Some(t)
  {
    var values := NonNullValues(ElementsAt(schema, "enum"));
    assert values != [] ==> values[0] in values;
  }

  /** Nothing lies below a scalar. */
  lemma ScalarDescribes(root: Json, s: Json, loc: seq<Step>, t: string)
    requires Coverable(root, s, loc) && Describes(root, s, loc, t)
    requires IsScalar(SchemaType(s))
    ensures loc == [] && SchemaType(s) == Some(t)
  {
    DescribedType(root, s, loc, t);
  }

  lemma ChildCover(root: Json, schema: Json, loc: seq<Step>, c: Json)
    requires Coverable(root, schema, loc) && loc != [] && LeadsInto(schema, loc[0], c)
    ensures InCover(root, c, loc[1..])
  {
    CoverStep(root, schema, loc);
    assert Leads(schema, loc, c, loc[1..]);
  }
}
