/** No two extracted fields share a path, and no location is covered twice. */
module PlotFieldsApart {
  import opened OrderedDict
  import opened Json
  import opened LaxPath
  import opened JsonpathProofs
  import opened PlotFields
  import opened SchemaFragment
  import opened PlotFieldSoundness
  import opened PlotFieldCovers

  ghost predicate Overlap(a: seq<Step>, b: seq<Step>)
  {
    exists loc :: Matches(a, loc) && Matches(b, loc)
  }

  predicate BothScalar(f: PlotField, g: PlotField)
  {
    !f.valueType.NumberMatrixIndex? && !g.valueType.NumberMatrixIndex?
  }

  /** Different paths, and no common location unless one selects a column of a matrix. */
  ghost predicate Separate(pre: seq<Step>, f: PlotField, g: PlotField)
  {
    forall a, b | Adds(pre, f, a) && Adds(pre, g, b) :: a != b && (BothScalar(f, g) ==> !Overlap(a, b))
  }

  ghost predicate Apart(pre: seq<Step>, fs: seq<PlotField>)
  {
    forall i, j | 0 <= i < j < |fs| :: Separate(pre, fs[i], fs[j])
  }

  /** The path of `f` goes on from the prefix. */
  ghost predicate Under(pre: seq<Step>, f: PlotField)
  {
    exists steps :: Adds(pre, f, steps)
  }

  lemma SoundUnder(source: Source, root: Json, schema: Json, pre: seq<Step>, fs: seq<PlotField>)
    requires SoundFields(source, root, schema, pre, fs)
    ensures forall f | f in fs :: Under(pre, f)
  {
    forall f | f in fs
      ensures Under(pre, f)
    {
      var steps :| SoundAs(source, root, schema, pre, f, steps);
      assert Adds(pre, f, steps);
    }
  }

  /** Whatever a field below `pre + [step]` adds to `pre` begins with `step`. */
  lemma AddsThrough(pre: seq<Step>, step: Step, f: PlotField, a: seq<Step>)
    requires Under(pre + [step], f) && Adds(pre, f, a)
    ensures a != [] && a[0] == step && Adds(pre + [step], f, a[1..])
  {
    var steps :| Adds(pre + [step], f, steps);
    assert pre + [step] + steps == pre + ([step] + steps);
    PrintInjective(pre + a, pre + ([step] + steps));
    assert a == (pre + a)[|pre|..] == [step] + steps;
  }

  lemma MatchesHead(s: Step, a: seq<Step>, loc: seq<Step>)
    requires Matches(a, loc) && a != []
    ensures loc != [] && MatchesStep(a[0], loc[0]) && Matches(a[1..], loc[1..])
  {
    forall k | 0 <= k < |a| - 1
      ensures MatchesStep(a[1..][k], loc[1..][k])
    {
      assert MatchesStep(a[k + 1], loc[k + 1]);
    }
  }

  lemma OverlapTail(a: seq<Step>, b: seq<Step>)
    requires Overlap(a, b) && a != [] && b != []
    ensures Overlap(a[1..], b[1..]) && exists l :: MatchesStep(a[0], l) && MatchesStep(b[0], l)
  {
    var loc :| Matches(a, loc) && Matches(b, loc);
    MatchesHead(a[0], a, loc);
    MatchesHead(b[0], b, loc);
  }

  lemma SeparateShift(pre: seq<Step>, step: Step, f: PlotField, g: PlotField)
    requires Under(pre + [step], f) && Under(pre + [step], g) && Separate(pre + [step], f, g)
    ensures Separate(pre, f, g)
  {
    forall a, b | Adds(pre, f, a) && Adds(pre, g, b)
      ensures a != b && (BothScalar(f, g) ==> !Overlap(a, b))
    {
      AddsThrough(pre, step, f, a);
      AddsThrough(pre, step, g, b);
      if Overlap(a, b) {
        OverlapTail(a, b);
      }
    }
  }

  lemma ApartShift(pre: seq<Step>, step: Step, fs: seq<PlotField>)
    requires Apart(pre + [step], fs) && forall f | f in fs :: Under(pre + [step], f)
    ensures Apart(pre, fs)
  {
    forall i, j | 0 <= i < j < |fs|
      ensures Separate(pre, fs[i], fs[j])
    {
      SeparateShift(pre, step, fs[i], fs[j]);
    }
  }

  /** Steps that never accept the same location step. */
  ghost predicate Exclusive(s: Step, r: Step)
  {
    s != r && forall l :: !(MatchesStep(s, l) && MatchesStep(r, l))
  }

  lemma SeparateSteps(pre: seq<Step>, s: Step, r: Step, f: PlotField, g: PlotField)
    requires Under(pre + [s], f) && Under(pre + [r], g) && Exclusive(s, r)
    ensures Separate(pre, f, g)
  {
    forall a, b | Adds(pre, f, a) && Adds(pre, g, b)
      ensures a != b && (BothScalar(f, g) ==> !Overlap(a, b))
    {
      AddsThrough(pre, s, f, a);
      AddsThrough(pre, r, g, b);
      if Overlap(a, b) {
        OverlapTail(a, b);
      }
    }
  }

  lemma ApartConcat(pre: seq<Step>, fs: seq<PlotField>, gs: seq<PlotField>)
    requires Apart(pre, fs) && Apart(pre, gs)
    requires forall f, g | f in fs && g in gs :: Separate(pre, f, g)
    ensures Apart(pre, fs + gs)
  {
    var all := fs + gs;
    forall i, j | 0 <= i < j < |all|
      ensures Separate(pre, all[i], all[j])
    {
      if i < |fs| <= j {
        assert fs[i] in fs && gs[j - |fs|] in gs;
      } else if |fs| <= i {
        assert Separate(pre, gs[i - |fs|], gs[j - |fs|]);
      }
    }
  }

  // ---- the extractor ----------------------------------------------------------------

  lemma {:induction false} SchemaApart(depth: nat, source: Source, schema: Json, root: Json, pre: seq<Step>)
    requires InFragment(root, schema) && Clean(pre) && ExtractSchema(depth, source, schema, root, Print(pre)).Done?
    ensures Apart(pre, ExtractSchema(depth, source, schema, root, Print(pre)).value)
    decreases depth, 1, 2
  {
    var s := Normalize(depth - 1, schema, root).value;
    NormalizeStays(depth - 1, schema, root);
    if Truthy(s) {
      BranchesEmpty(depth - 1, source, s, root, Print(pre));
      if BranchList(s).None? {
        TypedApart(depth, source, s, root, pre);
      }
    }
  }

  lemma {:induction false} TypedApart(depth: nat, source: Source, s: Json, root: Json, pre: seq<Step>)
    requires depth > 0 && Ready(root, s) && Clean(pre) && ExtractTyped(depth, source, s, root, Print(pre)).Done?
    ensures Apart(pre, ExtractTyped(depth, source, s, root, Print(pre)).value)
    decreases depth, 1, 0
  {
    var t := SchemaType(s);
    if Print(pre) != "" && IsScalar(t) {
    } else if t == Some("array") && Print(pre) != "" {
      ArrayApart(depth - 1, source, s, root, pre);
    } else {
      assert DistinctKeys(PropertiesOf(s)) by {
        ReadyShape(root, s);
      }
      PropertiesApart(depth, source, s, PropertiesOf(s), root, pre);
    }
  }

  ghost predicate UnderProperty(pre: seq<Step>, ps: Dict<string, Json>, f: PlotField)
  {
    exists p :: p in ps && Under(pre + [Member(p.0)], f)
  }

  lemma {:induction false} PropertiesUnder(depth: nat, source: Source, schema: Json, ps: Dict<string, Json>, root: Json, pre: seq<Step>)
    requires depth > 0 && Ready(root, schema) && Clean(pre) && (forall p | p in ps :: p in PropertiesOf(schema))
    requires ExtractProperties(depth, source, ps, root, Print(pre)).Done?
    ensures forall f | f in ExtractProperties(depth, source, ps, root, Print(pre)).value :: UnderProperty(pre, ps, f)
    decreases |ps|
  {
    if ps != [] {
      PropertyReady(root, schema, ps[0], pre);
      var here, rest := PropertiesSplit(depth, source, ps, root, Print(pre));
      ChildUnder(depth - 1, source, ps[0].1, root, pre, Member(ps[0].0), here);
      PropertiesUnder(depth, source, schema, ps[1..], root, pre);
      UnderConcat(pre, ps, here, rest);
    }
  }

  lemma UnderConcat(pre: seq<Step>, ps: Dict<string, Json>, here: seq<PlotField>, rest: seq<PlotField>)
    requires ps != [] && forall f | f in here :: Under(pre + [Member(ps[0].0)], f)
    requires forall f | f in rest :: UnderProperty(pre, ps[1..], f)
    ensures forall f | f in here + rest :: UnderProperty(pre, ps, f)
  {
    forall f | f in here + rest
      ensures UnderProperty(pre, ps, f)
    {
      if f in here {
        assert ps[0] in ps;
      } else {
        var p :| p in ps[1..] && Under(pre + [Member(p.0)], f);
      }
    }
  }

  lemma {:induction false} PropertiesApart(depth: nat, source: Source, schema: Json, ps: Dict<string, Json>, root: Json, pre: seq<Step>)
    requires depth > 0 && Ready(root, schema) && Clean(pre) && (forall p | p in ps :: p in PropertiesOf(schema)) && DistinctKeys(ps)
    requires ExtractProperties(depth, source, ps, root, Print(pre)).Done?
    ensures Apart(pre, ExtractProperties(depth, source, ps, root, Print(pre)).value)
    decreases depth, 0, |ps|
  {
    if ps != [] {
      PropertyReady(root, schema, ps[0], pre);
      var here, rest := PropertiesSplit(depth, source, ps, root, Print(pre));
      ChildApart(depth - 1, source, ps[0].1, root, pre, Member(ps[0].0), here);
      PropertiesApart(depth, source, schema, ps[1..], root, pre);
      PropertiesUnder(depth, source, schema, ps[1..], root, pre);
      PropertiesSeparate(pre, ps, here, rest);
      ApartConcat(pre, here, rest);
    }
  }

  lemma PropertiesSeparate(pre: seq<Step>, ps: Dict<string, Json>, here: seq<PlotField>, rest: seq<PlotField>)
    requires ps != [] && DistinctKeys(ps)
    requires forall f | f in here :: Under(pre + [Member(ps[0].0)], f)
    requires forall g | g in rest :: UnderProperty(pre, ps[1..], g)
    ensures forall f, g | f in here && g in rest :: Separate(pre, f, g)
  {
    forall f, g | f in here && g in rest
      ensures Separate(pre, f, g)
    {
      var q :| q in ps[1..] && Under(pre + [Member(q.0)], g);
      var j :| 0 <= j < |ps| - 1 && ps[1..][j] == q;
      assert ps[0].0 != ps[j + 1].0;
      SeparateSteps(pre, Member(ps[0].0), Member(q.0), f, g);
    }
  }

  lemma {:induction false} ArrayApart(depth: nat, source: Source, schema: Json, root: Json, pre: seq<Step>)
    requires Ready(root, schema) && Clean(pre) && ExtractArray(depth, source, schema, root, Print(pre)).Done?
    ensures Apart(pre, ExtractArray(depth, source, schema, root, Print(pre)).value)
    decreases depth, 1, 0
  {
    ReadyShape(root, schema);
    if Field(schema, "items").Some? {
      ItemsApart(depth, source, schema, root, pre);
    } else if Field(schema, "prefixItems").Some? {
      PrefixItemsApart(depth, source, schema, ElementsAt(schema, "prefixItems"), 0, root, pre);
    }
  }

  ghost predicate UnderIndex(pre: seq<Step>, i: nat, f: PlotField)
  {
    exists j: nat :: i <= j && Under(pre + [Index(j)], f)
  }

  /** The fields of one subschema, reached by `step`. */
  lemma ChildUnder(depth: nat, source: Source, c: Json, root: Json, pre: seq<Step>, step: Step, here: seq<PlotField>)
    requires InFragment(root, c) && Clean(pre + [step])
    requires ExtractSchema(depth, source, c, root, Print(pre + [step])) == Done(here)
    ensures forall f | f in here :: Under(pre + [step], f)
  {
    SchemaSound(depth, source, c, root, pre + [step]);
    SoundUnder(source, root, c, pre + [step], here);
  }

  lemma {:induction false} ChildApart(depth: nat, source: Source, c: Json, root: Json, pre: seq<Step>, step: Step, here: seq<PlotField>)
    requires InFragment(root, c) && Clean(pre + [step])
    requires ExtractSchema(depth, source, c, root, Print(pre + [step])) == Done(here)
    ensures Apart(pre, here) && forall f | f in here :: Under(pre + [step], f)
    decreases depth, 1, 3
  {
    ChildUnder(depth, source, c, root, pre, step, here);
    SchemaApart(depth, source, c, root, pre + [step]);
    ApartShift(pre, step, here);
  }

  lemma {:induction false} PrefixItemsUnder(depth: nat, source: Source, schema: Json, es: seq<Json>, i: nat, root: Json, pre: seq<Step>)
    requires es == ElementsAt(schema, "prefixItems")
    requires depth > 0 && Ready(root, schema) && Clean(pre)
    requires ExtractPrefixItems(depth, source, es, i, root, Print(pre)).Done?
    ensures forall f | f in ExtractPrefixItems(depth, source, es, i, root, Print(pre)).value ::
              UnderIndex(pre, i, f)
    decreases |es| - i
  {
    if i < |es| {
      PrefixItemReady(root, schema, i, pre);
      var here, rest := PrefixItemsSplit(depth, source, es, i, root, Print(pre));
      ChildUnder(depth - 1, source, es[i], root, pre, Index(i), here);
      PrefixItemsUnder(depth, source, schema, es, i + 1, root, pre);
      UnderIndices(pre, i, here, rest);
    }
  }

  lemma UnderIndices(pre: seq<Step>, i: nat, here: seq<PlotField>, rest: seq<PlotField>)
    requires forall f | f in here :: Under(pre + [Index(i)], f)
    requires forall g | g in rest :: UnderIndex(pre, i + 1, g)
    ensures forall f | f in here + rest :: UnderIndex(pre, i, f)
  {
  }

  lemma {:induction false} PrefixItemsApart(depth: nat, source: Source, schema: Json, es: seq<Json>, i: nat, root: Json, pre: seq<Step>)
    requires es == ElementsAt(schema, "prefixItems")
    requires depth > 0 && Ready(root, schema) && Clean(pre)
    requires ExtractPrefixItems(depth, source, es, i, root, Print(pre)).Done?
    ensures Apart(pre, ExtractPrefixItems(depth, source, es, i, root, Print(pre)).value)
    decreases depth, 0, |es| - i
  {
    if i < |es| {
      PrefixItemReady(root, schema, i, pre);
      var here, rest := PrefixItemsSplit(depth, source, es, i, root, Print(pre));
      ChildApart(depth - 1, source, es[i], root, pre, Index(i), here);
      PrefixItemsApart(depth, source, schema, es, i + 1, root, pre);
      PrefixItemsUnder(depth, source, schema, es, i + 1, root, pre);
      IndicesSeparate(pre, i, here, rest);
      ApartConcat(pre, here, rest);
    }
  }

  lemma IndicesSeparate(pre: seq<Step>, i: nat, here: seq<PlotField>, rest: seq<PlotField>)
    requires forall f | f in here :: Under(pre + [Index(i)], f)
    requires forall g | g in rest :: UnderIndex(pre, i + 1, g)
    ensures forall f, g | f in here && g in rest :: Separate(pre, f, g)
  {
    forall f, g | f in here && g in rest
      ensures Separate(pre, f, g)
    {
      var j: nat :| i + 1 <= j && Under(pre + [Index(j)], g);
      SeparateSteps(pre, Index(i), Index(j), f, g);
    }
  }

  lemma {:induction false} ItemsApart(depth: nat, source: Source, schema: Json, root: Json, pre: seq<Step>)
    requires depth > 0 && Ready(root, schema) && Clean(pre) && Field(schema, "items").Some?
    requires ExtractItems(depth, source, Field(schema, "items").value, root, Print(pre)).Done?
    ensures Apart(pre, ExtractItems(depth, source, Field(schema, "items").value, root, Print(pre)).value)
    decreases depth, 0, 2
  {
    var items := Field(schema, "items").value;
    var fs := ExtractItems(depth, source, items, root, Print(pre)).value;
    var s := Normalize(depth - 1, items, root).value;
    ReadyChild(root, schema, items);
    NormalizeStays(depth - 1, items, root);
    PrintSnoc(pre, Wild);
    CleanSnoc(pre, Wild);
    ItemApart(depth, source, s, root, pre + [Wild], fs);
    ItemSound(depth, source, s, root, pre + [Wild], fs);
    SoundUnder(source, root, s, pre + [Wild], fs);
    ApartShift(pre, Wild, fs);
  }

  lemma {:induction false} ItemApart(depth: nat, source: Source, s: Json, root: Json, pre: seq<Step>, fs: seq<PlotField>)
    requires depth > 0 && Ready(root, s) && Clean(pre) && ExtractItem(depth, source, s, root, Print(pre)) == Done(fs)
    ensures Apart(pre, fs)
    decreases depth, 0, 1
  {
    if !IsScalar(SchemaType(s)) {
      var u := SchemaType(NestedItems(depth, s, root).value);
      if IsNumeric(u) {
        MatrixApart(depth, source, s, root, pre, fs);
      } else if !IsCategorical(u) {
        SchemaApart(depth - 1, source, s, root, pre);
      }
    }
  }

  lemma AddsStep(pre: seq<Step>, step: Step, f: PlotField, a: seq<Step>)
    requires Clean(pre) && !step.Member? && f.path == PrintStep(Print(pre), step) && Adds(pre, f, a)
    ensures a == [step]
  {
    PrintSnoc(pre, step);
    CleanSnoc(pre, step);
    PrintInjective(pre + a, pre + [step]);
    assert a == (pre + a)[|pre|..] == (pre + [step])[|pre|..];
  }

  /** A matrix field and the fields of its columns. */
  lemma MatrixApart(depth: nat, source: Source, s: Json, root: Json, pre: seq<Step>, fs: seq<PlotField>)
    requires depth > 0 && Clean(pre) && ExtractNested(depth, source, s, root, Print(pre)) == Done(fs)
    requires NestedItems(depth, s, root).Done? && IsNumeric(SchemaType(NestedItems(depth, s, root).value))
    ensures Apart(pre, fs)
  {
    var columns := MatrixFields(depth, source, s, root, Print(pre), fs);
    ColumnsApart(source, pre, columns);
  }

  lemma MatrixFields(depth: nat, source: Source, s: Json, root: Json, prefix: string, fs: seq<PlotField>)
    returns (columns: seq<PlotField>)
    requires depth > 0 && ExtractNested(depth, source, s, root, prefix) == Done(fs)
    requires NestedItems(depth, s, root).Done? && IsNumeric(SchemaType(NestedItems(depth, s, root).value))
    ensures fs == [PlotField(source, WildPath(prefix), NumberMatrix)] + columns
    ensures forall j | 0 <= j < |columns| :: columns[j] == PlotField(source, IndexPath(prefix, j), NumberMatrixIndex)
  {
    var width := FixedArrayLength(s);
    columns := if width.Some? then IndexFields(source, prefix, width.value, 0) else [];
    if width.Some? {
      IndexFieldsAt(source, prefix, width.value, 0);
    }
  }

  lemma ColumnsApart(source: Source, pre: seq<Step>, columns: seq<PlotField>)
    requires Clean(pre)
    requires forall j | 0 <= j < |columns| :: columns[j] == PlotField(source, IndexPath(Print(pre), j), NumberMatrixIndex)
    ensures Apart(pre, [PlotField(source, WildPath(Print(pre)), NumberMatrix)] + columns)
  {
    var fs := [PlotField(source, WildPath(Print(pre)), NumberMatrix)] + columns;
    forall i, j | 0 <= i < j < |fs|
      ensures Separate(pre, fs[i], fs[j])
    {
      assert fs[j] == columns[j - 1];
      assert i > 0 ==> fs[i] == columns[i - 1];
      ColumnSeparate(pre, if i == 0 then Wild else Index(i - 1), j - 1, fs[i], fs[j]);
    }
  }

  lemma {:induction false} IndexFieldsAt(source: Source, prefix: string, width: int, i: nat)
    ensures forall j | 0 <= j < |IndexFields(source, prefix, width, i)| ::
              IndexFields(source, prefix, width, i)[j] == PlotField(source, IndexPath(prefix, i + j), NumberMatrixIndex)
    decreases width - i
  {
    if i < width {
      IndexFieldsAt(source, prefix, width, i + 1);
      var rest := IndexFields(source, prefix, width, i + 1);
      forall j | 0 <= j < |rest| + 1
        ensures IndexFields(source, prefix, width, i)[j] == PlotField(source, IndexPath(prefix, i + j), NumberMatrixIndex)
      {
        assert j > 0 ==> IndexFields(source, prefix, width, i)[j] == rest[j - 1];
      }
    }
  }

  lemma ColumnSeparate(pre: seq<Step>, step: Step, j: nat, f: PlotField, g: PlotField)
    requires Clean(pre) && !step.Member? && step != Index(j)
    requires f.path == PrintStep(Print(pre), step) && g.path == PrintStep(Print(pre), Index(j)) && g.valueType == NumberMatrixIndex
    ensures Separate(pre, f, g)
  {
    forall a, b | Adds(pre, f, a) && Adds(pre, g, b)
      ensures a != b
    {
      AddsStep(pre, step, f, a);
      AddsStep(pre, Index(j), g, b);
      assert a[0] != b[0];
    }
  }
}
