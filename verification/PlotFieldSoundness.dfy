/** Whatever an extracted path selects from a valid instance is null or of the field's kind. */
module PlotFieldSoundness {
  import opened OrderedDict
  import opened Json
  import opened JsonSchema
  import opened LaxPath
  import opened PlotFields
  import opened SchemaFragment

  predicate HasKind(t: ValueType, x: Json)
  {
    match t
    case Category => x.Str?
    case CategoryArray => x.Str?
    case Boolean => x.Bool?
    case BooleanArray => x.Bool?
    case _ => IsNumber(x)
  }

  /** On every instance of `schema`, `steps` selects only nulls and, at places the path
      describes, values of the kind `t`. */
  ghost predicate Sound(root: Json, schema: Json, steps: seq<Step>, t: ValueType)
  {
    forall v: Json, loc: seq<Step>, x: Json | Valid(root, schema, v) && Selects(steps, v, loc, x) ::
      x == Null || (HasKind(t, x) && Matches(steps, loc))
  }

  predicate EndsWild(steps: seq<Step>) { steps != [] && steps[|steps| - 1].Wild? }

  ghost predicate SoundAs(source: Source, root: Json, schema: Json, pre: seq<Step>, f: PlotField, steps: seq<Step>)
  {
    && f.source == source && Clean(pre + steps) && f.path == Print(pre + steps)
    && (f.valueType.NumberArray? ==> EndsWild(pre + steps))
    && Sound(root, schema, steps, f.valueType)
  }

  /** Field `f`, found under the prefix `pre`, is sound for the schema there. */
  ghost predicate SoundField(source: Source, root: Json, schema: Json, pre: seq<Step>, f: PlotField)
  {
    exists steps :: SoundAs(source, root, schema, pre, f, steps)
  }

  ghost predicate SoundFields(source: Source, root: Json, schema: Json, pre: seq<Step>, fs: seq<PlotField>)
  {
    forall f | f in fs :: SoundField(source, root, schema, pre, f)
  }

  // ---- how soundness passes up one schema -------------------------------------------

  lemma MatchesCons(s: Step, l: Step, steps: seq<Step>, loc: seq<Step>)
    requires Matches(steps, loc) && MatchesStep(s, l)
    ensures Matches([s] + steps, [l] + loc)
  {
  }

  /** Using what is known about `schema` for what a longer path selects through it. */
  lemma UseSound(root: Json, schema: Json, s: Step, steps: seq<Step>, t: ValueType, v: Json, l: Step, loc: seq<Step>, x: Json)
    requires loc != [] && Sound(root, schema, steps, t) && Valid(root, schema, v) && Selects(steps, v, loc[1..], x)
    requires l == loc[0] && MatchesStep(s, l)
    ensures x == Null || (HasKind(t, x) && Matches([s] + steps, loc))
  {
    if x != Null {
      MatchesCons(s, l, steps, loc[1..]);
      assert [l] + loc[1..] == loc;
    }
  }

  lemma DeclaredInstance(k: nat, root: Json, schema: Json, t: string, v: Json)
    requires schema.Obj? && DeclaresType(schema, t) && ValidIn(k, root, schema, v) && v != Null
    ensures HasType(Str(t), v)
  {
    match Field(schema, "type") {
      case Some(Arr(ts)) =>
        var u :| u in ts && HasType(u, v);
        InNonNullTypes(ts, u);
      case _ =>
    }
  }

  lemma LiftMember(root: Json, schema: Json, p: (string, Json), steps: seq<Step>, t: ValueType)
    requires schema.Obj? && DeclaresType(schema, "object") && p in PropertiesOf(schema)
    requires DistinctKeys(PropertiesOf(schema)) && Sound(root, p.1, steps, t)
    ensures Sound(root, schema, [Member(p.0)] + steps, t)
  {
    var all := [Member(p.0)] + steps;
    assert all[1..] == steps;
    forall v: Json, loc: seq<Step>, x: Json | Valid(root, schema, v) && Selects(all, v, loc, x)
      ensures x == Null || (HasKind(t, x) && Matches(all, loc))
    {
      var k: nat :| ValidIn(k, root, schema, v);
      if v == Null {
        NullSelectsNull(all, loc, x);
      } else {
        DeclaredInstance(k, root, schema, "object", v);
        assert PropertiesHold(k - 1, root, Field(schema, "properties"), v);
        assert ValidIn(k - 1, root, p.1, Field(v, p.0).value);
        assert Valid(root, p.1, Field(v, p.0).value);
        UseSound(root, p.1, all[0], steps, t, Field(v, p.0).value, loc[0], loc, x);
      }
    }
  }

  /** `step` is `[*]` or an index into an array whose items all follow one schema. */
  lemma LiftItems(root: Json, schema: Json, step: Step, steps: seq<Step>, t: ValueType)
    requires Field(schema, "type") == Some(Str("array")) && Field(schema, "prefixItems").None? && !step.Member?
    requires Field(schema, "items").Some? && Sound(root, Field(schema, "items").value, steps, t)
    ensures Sound(root, schema, [step] + steps, t)
  {
    var items := Field(schema, "items").value;
    var all := [step] + steps;
    assert all[1..] == steps;
    forall v: Json, loc: seq<Step>, x: Json | Valid(root, schema, v) && Selects(all, v, loc, x)
      ensures x == Null || (HasKind(t, x) && Matches(all, loc))
    {
      var k: nat :| ValidIn(k, root, schema, v);
      if v == Null {
        NullSelectsNull(all, loc, x);
      } else {
        DeclaredInstance(k, root, schema, "array", v);
        assert ItemsHold(k - 1, root, Field(schema, "items"), 0, v);
        assert ValidIn(k - 1, root, items, v.elems[loc[0].i]);
        assert Valid(root, items, v.elems[loc[0].i]);
        UseSound(root, items, step, steps, t, v.elems[loc[0].i], loc[0], loc, x);
      }
    }
  }

  lemma LiftPrefixItem(root: Json, schema: Json, i: nat, steps: seq<Step>, t: ValueType)
    requires Field(schema, "type") == Some(Str("array"))
    requires i < |ElementsAt(schema, "prefixItems")| && Sound(root, ElementsAt(schema, "prefixItems")[i], steps, t)
    ensures Sound(root, schema, [Index(i)] + steps, t)
  {
    var es := ElementsAt(schema, "prefixItems");
    var all := [Index(i)] + steps;
    assert all[1..] == steps;
    forall v: Json, loc: seq<Step>, x: Json | Valid(root, schema, v) && Selects(all, v, loc, x)
      ensures x == Null || (HasKind(t, x) && Matches(all, loc))
    {
      var k: nat :| ValidIn(k, root, schema, v);
      if v == Null {
        NullSelectsNull(all, loc, x);
      } else {
        DeclaredInstance(k, root, schema, "array", v);
        assert PrefixItemsHold(k - 1, root, Field(schema, "prefixItems"), v);
        assert ValidIn(k - 1, root, es[i], v.elems[i]);
        assert Valid(root, es[i], v.elems[i]);
        UseSound(root, es[i], all[0], steps, t, v.elems[i], loc[0], loc, x);
      }
    }
  }

  lemma LiftNormalize(depth: nat, root: Json, schema: Json, steps: seq<Step>, t: ValueType)
    requires InFragment(root, schema) && Normalize(depth, schema, root).Done?
    requires Sound(root, Normalize(depth, schema, root).value, steps, t)
    ensures Sound(root, schema, steps, t)
  {
    forall v: Json, loc: seq<Step>, x: Json | Valid(root, schema, v) && Selects(steps, v, loc, x)
      ensures x == Null || (HasKind(t, x) && Matches(steps, loc))
    {
      if v == Null {
        NullSelectsNull(steps, loc, x);
      } else {
        var k: nat :| ValidIn(k, root, schema, v);
        NormalizeValid(depth, k, schema, root, v);
      }
    }
  }

  lemma {:induction false} InNonNullValues(es: seq<Json>, e: Json)
    requires e in es && e != Null
    ensures e in NonNullValues(es)
  {
    if es[0] != e {
      InNonNullValues(es[1..], e);
    }
  }

  /** The type read off a schema is the type of its non-null instances. */
  lemma TypeRead(k: nat, root: Json, schema: Json, v: Json)
    requires schema.Obj? && SchemaType(schema).Some? && ValidIn(k, root, schema, v) && v != Null
    ensures HasType(Str(SchemaType(schema).value), v)
  {
    if Field(schema, "type").None? || Field(schema, "type").value.Arr? {
      var es := ElementsAt(schema, "enum");
      var e :| e in es && Same(e, v);
      InNonNullValues(es, e);
    }
  }

  predicate KindOfType(t: Option<string>, vt: ValueType)
  {
    match vt
    case Category => t == Some("string")
    case CategoryArray => t == Some("string")
    case Boolean => t == Some("boolean")
    case BooleanArray => t == Some("boolean")
    case _ => IsNumeric(t)
  }

  lemma LeafSound(root: Json, schema: Json, t: ValueType)
    requires schema.Obj? && KindOfType(SchemaType(schema), t)
    ensures Sound(root, schema, [], t)
  {
    forall v: Json, loc: seq<Step>, x: Json | Valid(root, schema, v) && Selects([], v, loc, x)
      ensures x == Null || (HasKind(t, x) && Matches([], loc))
    {
      if v != Null {
        var k: nat :| ValidIn(k, root, schema, v);
        TypeRead(k, root, schema, v);
      }
    }
  }

  // ---- the extractor ----------------------------------------------------------------

  /** A field found one step further down, seen from here. */
  lemma ShiftField(source: Source, root: Json, schema: Json, sub: Json, pre: seq<Step>, step: Step, f: PlotField, steps: seq<Step>)
    requires SoundAs(source, root, sub, pre + [step], f, steps) && Sound(root, schema, [step] + steps, f.valueType)
    ensures SoundField(source, root, schema, pre, f)
  {
    assert pre + [step] + steps == pre + ([step] + steps);
    assert SoundAs(source, root, schema, pre, f, [step] + steps);
  }

  lemma CleanSnoc(pre: seq<Step>, step: Step)
    requires Clean(pre) && (step.Member? ==> CleanName(step.name))
    ensures Clean(pre + [step])
  {
  }

  lemma LeafField(source: Source, root: Json, schema: Json, pre: seq<Step>, f: PlotField)
    requires schema.Obj? && KindOfType(SchemaType(schema), f.valueType) && Clean(pre) && f.path == Print(pre)
    requires f.source == source && (f.valueType.NumberArray? ==> EndsWild(pre))
    ensures SoundField(source, root, schema, pre, f)
  {
    LeafSound(root, schema, f.valueType);
    assert pre + [] == pre;
    assert SoundAs(source, root, schema, pre, f, []);
  }

  lemma NormalizeFields(source: Source, depth: nat, root: Json, schema: Json, pre: seq<Step>, fs: seq<PlotField>)
    requires InFragment(root, schema) && Normalize(depth, schema, root).Done?
    requires SoundFields(source, root, Normalize(depth, schema, root).value, pre, fs)
    ensures SoundFields(source, root, schema, pre, fs)
  {
    var n := Normalize(depth, schema, root).value;
    forall f | f in fs
      ensures SoundField(source, root, schema, pre, f)
    {
      var steps :| SoundAs(source, root, n, pre, f, steps);
      LiftNormalize(depth, root, schema, steps, f.valueType);
      assert SoundAs(source, root, schema, pre, f, steps);
    }
  }

  lemma {:induction false} NoBranches(depth: nat, source: Source, bs: seq<Json>, root: Json, prefix: string, fields: FieldDict)
    requires depth > 0 && NonNullBranches(bs) == []
    ensures ExtractEach(depth, source, bs, root, prefix, fields) == Done(fields)
  {
    if bs != [] {
      NoBranches(depth, source, bs[1..], root, prefix, fields);
    }
  }

  /** In the fragment, nothing is left for the branch extractor but alternatives that are all null. */
  lemma BranchesEmpty(depth: nat, source: Source, schema: Json, root: Json, prefix: string)
    requires Ready(root, schema) && ExtractBranches(depth, source, schema, root, prefix).Done?
    ensures ExtractBranches(depth, source, schema, root, prefix).value
            == if BranchList(schema).Some? then Some([]) else None
  {
    ReadyShape(root, schema);
    if BranchList(schema).Some? {
      NoBranches(depth, source, BranchList(schema).value, root, prefix, []);
    }
  }

  lemma {:induction false} SchemaSound(depth: nat, source: Source, schema: Json, root: Json, pre: seq<Step>)
    requires InFragment(root, schema) && Clean(pre) && ExtractSchema(depth, source, schema, root, Print(pre)).Done?
    ensures SoundFields(source, root, schema, pre, ExtractSchema(depth, source, schema, root, Print(pre)).value)
    decreases depth, 1, 2
  {
    var s := Normalize(depth - 1, schema, root).value;
    NormalizeStays(depth - 1, schema, root);
    if Truthy(s) {
      NormalSound(depth, source, s, root, pre);
    }
    NormalizeFields(source, depth - 1, root, schema, pre, ExtractSchema(depth, source, schema, root, Print(pre)).value);
  }

  lemma {:induction false} NormalSound(depth: nat, source: Source, s: Json, root: Json, pre: seq<Step>)
    requires depth > 0 && Ready(root, s) && Clean(pre) && ExtractNormal(depth, source, s, root, Print(pre)).Done?
    ensures SoundFields(source, root, s, pre, ExtractNormal(depth, source, s, root, Print(pre)).value)
    decreases depth, 1, 1
  {
    BranchesEmpty(depth - 1, source, s, root, Print(pre));
    if BranchList(s).None? {
      TypedSound(depth, source, s, root, pre);
    }
  }

  lemma {:induction false} TypedSound(depth: nat, source: Source, s: Json, root: Json, pre: seq<Step>)
    requires depth > 0 && Ready(root, s) && Clean(pre) && ExtractTyped(depth, source, s, root, Print(pre)).Done?
    ensures SoundFields(source, root, s, pre, ExtractTyped(depth, source, s, root, Print(pre)).value)
    decreases depth, 1, 0
  {
    var t := SchemaType(s);
    if Print(pre) != "" && IsScalar(t) {
      ScalarSound(depth, source, s, root, pre);
    } else if t == Some("array") && Print(pre) != "" {
      ArraySound(depth - 1, source, s, root, pre);
    } else {
      PropertiesSound(depth, source, s, PropertiesOf(s), root, pre);
    }
  }

  lemma ScalarSound(depth: nat, source: Source, s: Json, root: Json, pre: seq<Step>)
    requires depth > 0 && Ready(root, s) && Clean(pre) && Print(pre) != "" && IsScalar(SchemaType(s))
    ensures ExtractTyped(depth, source, s, root, Print(pre)).Done?
    ensures SoundFields(source, root, s, pre, ExtractTyped(depth, source, s, root, Print(pre)).value)
  {
    ReadyShape(root, s);
    LeafField(source, root, s, pre, ExtractTyped(depth, source, s, root, Print(pre)).value[0]);
  }

  /** Only a declared type is ever read as "array". */
  lemma ArrayTyped(schema: Json)
    requires SchemaType(schema) == Some("array")
    ensures Field(schema, "type") == Some(Str("array"))
  {
  }

  lemma SoundConcat(source: Source, root: Json, schema: Json, pre: seq<Step>, a: seq<PlotField>, b: seq<PlotField>)
    requires SoundFields(source, root, schema, pre, a) && SoundFields(source, root, schema, pre, b)
    ensures SoundFields(source, root, schema, pre, a + b)
  {
  }

  lemma PropertyFields(source: Source, root: Json, schema: Json, p: (string, Json), pre: seq<Step>, fs: seq<PlotField>)
    requires Ready(root, schema) && p in PropertiesOf(schema)
    requires SoundFields(source, root, p.1, pre + [Member(p.0)], fs)
    ensures SoundFields(source, root, schema, pre, fs)
  {
    assert schema.Obj? && DeclaresType(schema, "object") && DistinctKeys(PropertiesOf(schema)) by {
      ReadyShape(root, schema);
    }
    forall f | f in fs
      ensures SoundField(source, root, schema, pre, f)
    {
      var steps :| SoundAs(source, root, p.1, pre + [Member(p.0)], f, steps);
      LiftMember(root, schema, p, steps, f.valueType);
      ShiftField(source, root, schema, p.1, pre, Member(p.0), f, steps);
    }
  }

  lemma {:induction false} PropertiesSound(depth: nat, source: Source, schema: Json, ps: Dict<string, Json>, root: Json, pre: seq<Step>)
    requires depth > 0 && Ready(root, schema)
    requires forall p | p in ps :: p in PropertiesOf(schema)
    requires Clean(pre) && ExtractProperties(depth, source, ps, root, Print(pre)).Done?
    ensures SoundFields(source, root, schema, pre, ExtractProperties(depth, source, ps, root, Print(pre)).value)
    decreases depth, 0, |ps|
  {
    if ps != [] {
      PropertyReady(root, schema, ps[0], pre);
      var here, rest := PropertiesSplit(depth, source, ps, root, Print(pre));
      PropertiesSound(depth, source, schema, ps[1..], root, pre);
      SchemaSound(depth - 1, source, ps[0].1, root, pre + [Member(ps[0].0)]);
      PropertyFields(source, root, schema, ps[0], pre, here);
      SoundConcat(source, root, schema, pre, here, rest);
    }
  }

  lemma PropertiesSplit(depth: nat, source: Source, ps: Dict<string, Json>, root: Json, prefix: string)
    returns (here: seq<PlotField>, rest: seq<PlotField>)
    requires depth > 0 && ps != [] && ps[0].1.Obj? && ExtractProperties(depth, source, ps, root, prefix).Done?
    ensures ExtractSchema(depth - 1, source, ps[0].1, root, MemberPath(prefix, ps[0].0)) == Done(here)
    ensures ExtractProperties(depth, source, ps[1..], root, prefix) == Done(rest)
    ensures ExtractProperties(depth, source, ps, root, prefix) == Done(here + rest)
  {
    here := ExtractSchema(depth - 1, source, ps[0].1, root, MemberPath(prefix, ps[0].0)).value;
    rest := ExtractProperties(depth, source, ps[1..], root, prefix).value;
  }

  lemma PropertyReady(root: Json, schema: Json, p: (string, Json), pre: seq<Step>)
    requires Ready(root, schema) && Clean(pre) && p in PropertiesOf(schema)
    ensures p.1.Obj? && InFragment(root, p.1) && CleanName(p.0)
    ensures Clean(pre + [Member(p.0)]) && Print(pre + [Member(p.0)]) == MemberPath(Print(pre), p.0)
  {
    ReadyShape(root, schema);
    ReadyChild(root, schema, p.1);
    PrintSnoc(pre, Member(p.0));
  }

  lemma {:induction false} ArraySound(depth: nat, source: Source, schema: Json, root: Json, pre: seq<Step>)
    requires Ready(root, schema) && SchemaType(schema) == Some("array")
    requires Clean(pre) && ExtractArray(depth, source, schema, root, Print(pre)).Done?
    ensures SoundFields(source, root, schema, pre, ExtractArray(depth, source, schema, root, Print(pre)).value)
    decreases depth, 1, 0
  {
    ReadyShape(root, schema);
    if Field(schema, "items").Some? {
      ItemsSound(depth, source, schema, root, pre);
    } else if Field(schema, "prefixItems").Some? {
      var es := ElementsAt(schema, "prefixItems");
      var fs := ExtractPrefixItems(depth, source, es, 0, root, Print(pre)).value;
      PrefixItemsSound(depth, source, schema, es, 0, root, pre, fs);
    }
  }

  lemma PrefixItemFields(source: Source, root: Json, schema: Json, i: nat, pre: seq<Step>, fs: seq<PlotField>)
    requires Ready(root, schema) && SchemaType(schema) == Some("array")
    requires i < |ElementsAt(schema, "prefixItems")|
    requires SoundFields(source, root, ElementsAt(schema, "prefixItems")[i], pre + [Index(i)], fs)
    ensures SoundFields(source, root, schema, pre, fs)
  {
    ArrayTyped(schema);
    var e := ElementsAt(schema, "prefixItems")[i];
    forall f | f in fs
      ensures SoundField(source, root, schema, pre, f)
    {
      var steps :| SoundAs(source, root, e, pre + [Index(i)], f, steps);
      LiftPrefixItem(root, schema, i, steps, f.valueType);
      ShiftField(source, root, schema, e, pre, Index(i), f, steps);
    }
  }

  /** The fields of a list of item schemas are those of the first one and those of the others. */
  lemma PrefixItemsSplit(depth: nat, source: Source, es: seq<Json>, i: nat, root: Json, prefix: string)
    returns (here: seq<PlotField>, rest: seq<PlotField>)
    requires depth > 0 && i < |es| && es[i].Obj? && ExtractPrefixItems(depth, source, es, i, root, prefix).Done?
    ensures ExtractSchema(depth - 1, source, es[i], root, IndexPath(prefix, i)) == Done(here)
    ensures ExtractPrefixItems(depth, source, es, i + 1, root, prefix) == Done(rest)
    ensures ExtractPrefixItems(depth, source, es, i, root, prefix) == Done(here + rest)
  {
    here := ExtractSchema(depth - 1, source, es[i], root, IndexPath(prefix, i)).value;
    rest := ExtractPrefixItems(depth, source, es, i + 1, root, prefix).value;
  }

  lemma {:induction false} PrefixItemSound(depth: nat, source: Source, schema: Json, i: nat, root: Json, pre: seq<Step>, here: seq<PlotField>)
    requires Ready(root, schema) && SchemaType(schema) == Some("array") && Clean(pre)
    requires i < |ElementsAt(schema, "prefixItems")|
    requires ExtractSchema(depth, source, ElementsAt(schema, "prefixItems")[i], root, IndexPath(Print(pre), i)) == Done(here)
    ensures SoundFields(source, root, schema, pre, here)
    decreases depth, 2, 0
  {
    PrefixItemReady(root, schema, i, pre);
    SchemaSound(depth, source, ElementsAt(schema, "prefixItems")[i], root, pre + [Index(i)]);
    PrefixItemFields(source, root, schema, i, pre, here);
  }

  lemma {:induction false} PrefixItemsSound(depth: nat, source: Source, schema: Json, es: seq<Json>, i: nat, root: Json, pre: seq<Step>, fs: seq<PlotField>)
    requires es == ElementsAt(schema, "prefixItems")
    requires depth > 0 && Ready(root, schema) && SchemaType(schema) == Some("array")
    requires Clean(pre) && ExtractPrefixItems(depth, source, es, i, root, Print(pre)) == Done(fs)
    ensures SoundFields(source, root, schema, pre, fs)
    decreases depth, 0, |es| - i
  {
    if i < |es| {
      PrefixItemReady(root, schema, i, pre);
      var here, rest := PrefixItemsSplit(depth, source, es, i, root, Print(pre));
      PrefixItemSound(depth - 1, source, schema, i, root, pre, here);
      PrefixItemsSound(depth, source, schema, es, i + 1, root, pre, rest);
      SoundConcat(source, root, schema, pre, here, rest);
    }
  }

  lemma PrefixItemReady(root: Json, schema: Json, i: nat, pre: seq<Step>)
    requires Ready(root, schema) && Clean(pre) && i < |ElementsAt(schema, "prefixItems")|
    ensures var e := ElementsAt(schema, "prefixItems")[i]; e.Obj? && InFragment(root, e)
    ensures Clean(pre + [Index(i)]) && Print(pre + [Index(i)]) == IndexPath(Print(pre), i)
  {
    var e := ElementsAt(schema, "prefixItems")[i];
    assert IsChild(schema, e) && e in ElementsAt(schema, "prefixItems");
    assert e.Obj? by {
      ReadyShape(root, schema);
    }
    ReadyChild(root, schema, e);
    PrintSnoc(pre, Index(i));
  }

  lemma ItemField(source: Source, root: Json, schema: Json, pre: seq<Step>, f: PlotField, step: Step, steps: seq<Step>)
    requires Field(schema, "type") == Some(Str("array")) && Field(schema, "prefixItems").None? && !step.Member?
    requires Field(schema, "items").Some? && SoundAs(source, root, Field(schema, "items").value, pre + [step], f, steps)
    ensures SoundField(source, root, schema, pre, f)
  {
    LiftItems(root, schema, step, steps, f.valueType);
    ShiftField(source, root, schema, Field(schema, "items").value, pre, step, f, steps);
  }

  lemma ItemsFields(source: Source, root: Json, schema: Json, pre: seq<Step>, step: Step, fs: seq<PlotField>)
    requires Ready(root, schema) && SchemaType(schema) == Some("array") && !step.Member?
    requires Field(schema, "items").Some? && SoundFields(source, root, Field(schema, "items").value, pre + [step], fs)
    ensures SoundFields(source, root, schema, pre, fs)
  {
    ArrayTyped(schema);
    assert Field(schema, "prefixItems").None? by {
      ReadyShape(root, schema);
    }
    forall f | f in fs
      ensures SoundField(source, root, schema, pre, f)
    {
      var steps :| SoundAs(source, root, Field(schema, "items").value, pre + [step], f, steps);
      ItemField(source, root, schema, pre, f, step, steps);
    }
  }

  lemma {:induction false} ItemsSound(depth: nat, source: Source, schema: Json, root: Json, pre: seq<Step>)
    requires depth > 0 && Ready(root, schema)
    requires SchemaType(schema) == Some("array") && Field(schema, "items").Some?
    requires Clean(pre) && ExtractItems(depth, source, Field(schema, "items").value, root, Print(pre)).Done?
    ensures SoundFields(source, root, schema, pre, ExtractItems(depth, source, Field(schema, "items").value, root, Print(pre)).value)
    decreases depth, 0, 2
  {
    var items := Field(schema, "items").value;
    var fs := ExtractItems(depth, source, items, root, Print(pre)).value;
    ReadyChild(root, schema, items);
    NormalizeStays(depth - 1, items, root);
    PrintSnoc(pre, Wild);
    CleanSnoc(pre, Wild);
    ItemSound(depth, source, Normalize(depth - 1, items, root).value, root, pre + [Wild], fs);
    NormalizeFields(source, depth - 1, root, items, pre + [Wild], fs);
    ItemsFields(source, root, schema, pre, Wild, fs);
  }

  lemma {:induction false} ItemSound(depth: nat, source: Source, s: Json, root: Json, pre: seq<Step>, fs: seq<PlotField>)
    requires depth > 0 && Ready(root, s)
    requires EndsWild(pre) && Clean(pre) && ExtractItem(depth, source, s, root, Print(pre)) == Done(fs)
    ensures SoundFields(source, root, s, pre, fs)
    decreases depth, 0, 1
  {
    var t := SchemaType(s);
    if IsScalar(t) {
      ReadyShape(root, s);
      LeafField(source, root, s, pre, fs[0]);
    } else {
      NestedSound(depth, source, s, root, pre, fs);
    }
  }

  /** Arrays of arrays: `s` is the normalised schema of the inner arrays. */
  lemma {:induction false} NestedSound(depth: nat, source: Source, s: Json, root: Json, pre: seq<Step>, fs: seq<PlotField>)
    requires depth > 0 && Ready(root, s)
    requires Clean(pre) && ExtractNested(depth, source, s, root, Print(pre)) == Done(fs)
    ensures SoundFields(source, root, s, pre, fs)
    decreases depth, 0, 0
  {
    var u := SchemaType(NestedItems(depth, s, root).value);
    if IsScalar(u) {
      forall f | f in fs
        ensures SoundField(source, root, s, pre, f)
      {
        NestedField(depth, source, s, root, pre, fs, f);
      }
    } else {
      SchemaSound(depth - 1, source, s, root, pre);
    }
  }

  lemma {:induction false} IndexFieldShape(source: Source, prefix: string, width: int, i: nat, f: PlotField)
    requires f in IndexFields(source, prefix, width, i)
    ensures exists j: nat :: i <= j < width && f == PlotField(source, IndexPath(prefix, j), NumberMatrixIndex)
    decreases width - i
  {
    if f != IndexFields(source, prefix, width, i)[0] {
      IndexFieldShape(source, prefix, width, i + 1, f);
    }
  }

  /** The step from the inner arrays to the scalars a field of theirs selects. */
  lemma NestedStep(depth: nat, source: Source, s: Json, root: Json, prefix: string, fs: seq<PlotField>, f: PlotField) returns (step: Step)
    requires depth > 0 && ExtractNested(depth, source, s, root, prefix) == Done(fs) && f in fs
    requires var u := SchemaType(NestedItems(depth, s, root).value); IsScalar(u)
    ensures !step.Member? && f.path == PrintStep(prefix, step) && f.source == source && !f.valueType.NumberArray?
    ensures KindOfType(SchemaType(NestedItems(depth, s, root).value), f.valueType)
    ensures f != fs[0] ==> f.valueType == NumberMatrixIndex
    ensures f == fs[0] ==> step == Wild
  {
    step := Wild;
    if f != fs[0] {
      var width := FixedArrayLength(s).value;
      assert fs[1..] == IndexFields(source, prefix, width, 0);
      IndexFieldShape(source, prefix, width, 0, f);
      var j: nat :| j < width && f == PlotField(source, IndexPath(prefix, j), NumberMatrixIndex);
      step := Index(j);
    }
  }

  lemma NestedField(depth: nat, source: Source, s: Json, root: Json, pre: seq<Step>, fs: seq<PlotField>, f: PlotField)
    requires depth > 0 && Ready(root, s)
    requires Clean(pre) && ExtractNested(depth, source, s, root, Print(pre)) == Done(fs) && f in fs
    requires var u := SchemaType(NestedItems(depth, s, root).value); IsScalar(u)
    ensures SoundField(source, root, s, pre, f)
  {
    var step := NestedStep(depth, source, s, root, Print(pre), fs, f);
    NestedLift(source, depth, s, root, pre, step, f);
  }

  lemma NestedLift(source: Source, depth: nat, s: Json, root: Json, pre: seq<Step>, step: Step, f: PlotField)
    requires depth > 0 && Ready(root, s) && NestedItems(depth, s, root).Done? && Clean(pre) && !step.Member?
    requires var u := SchemaType(NestedItems(depth, s, root).value); IsScalar(u)
    requires KindOfType(SchemaType(NestedItems(depth, s, root).value), f.valueType)
    requires f.path == PrintStep(Print(pre), step) && f.source == source && !f.valueType.NumberArray?
    ensures SoundField(source, root, s, pre, f)
  {
    var inner := NestedReady(depth, s, root);
    InnerLeaf(source, depth - 1, root, inner, pre, step, f);
    ItemsFields(source, root, s, pre, step, [f]);
    assert f in [f];
  }

  lemma InnerLeaf(source: Source, depth: nat, root: Json, inner: Json, pre: seq<Step>, step: Step, f: PlotField)
    requires InFragment(root, inner) && Normalize(depth, inner, root).Done? && Normalize(depth, inner, root).value.Obj?
    requires KindOfType(SchemaType(Normalize(depth, inner, root).value), f.valueType) && Clean(pre) && !step.Member?
    requires f.path == PrintStep(Print(pre), step) && f.source == source && !f.valueType.NumberArray?
    ensures SoundFields(source, root, inner, pre + [step], [f])
  {
    PrintSnoc(pre, step);
    CleanSnoc(pre, step);
    NormalLeaf(source, depth, root, inner, pre + [step], f);
  }

  lemma NormalLeaf(source: Source, depth: nat, root: Json, schema: Json, pre: seq<Step>, f: PlotField)
    requires InFragment(root, schema) && Normalize(depth, schema, root).Done? && Normalize(depth, schema, root).value.Obj?
    requires KindOfType(SchemaType(Normalize(depth, schema, root).value), f.valueType)
    requires Clean(pre) && f.path == Print(pre) && f.source == source && !f.valueType.NumberArray?
    ensures SoundFields(source, root, schema, pre, [f])
  {
    LeafField(source, root, Normalize(depth, schema, root).value, pre, f);
    NormalizeFields(source, depth, root, schema, pre, [f]);
  }

  lemma NestedReady(depth: nat, s: Json, root: Json) returns (inner: Json)
    requires depth > 0 && Ready(root, s) && NestedItems(depth, s, root).Done?
    requires var u := SchemaType(NestedItems(depth, s, root).value); IsScalar(u)
    ensures Field(s, "items") == Some(inner) && InFragment(root, inner)
    ensures SchemaType(s) == Some("array") && Normalize(depth - 1, inner, root) == NestedItems(depth, s, root)
    ensures NestedItems(depth, s, root).value.Obj?
  {
    inner := OrEmpty(Field(s, "items"));
    EmptyStays(depth - 1, root);
    ReadyChild(root, s, inner);
    NormalizeObj(depth - 1, inner, root);
  }

  lemma EmptyStays(depth: nat, root: Json)
    ensures Normalize(depth, EMPTY, root).Done? ==> Normalize(depth, EMPTY, root).value == EMPTY
  {
  }
}
