/** From schema to database: what the plot fields of a deployment select when their compiled
    paths are evaluated on its requests and responses. */
module PlotPipeline {
  import opened OrderedDict
  import opened Json
  import opened JsonSchema
  import opened LaxPath
  import opened Jsonpath
  import opened JsonpathProofs
  import opened Sorting
  import opened PlotFields
  import opened SchemaFragment
  import opened PlotFieldSoundness
  import opened PlotFieldCoverage
  import opened PlotFieldCovers
  import opened PlotFieldDescribed
  import opened PlotFieldWalk
  import opened PlotFieldsApart

  function SchemaOf(source: Source, inputSchema: Json, outputSchema: Json): Json
  {
    RootOf(if source.Input? then inputSchema else outputSchema)
  }

  /** The steps the database takes for a field: its path normalised, compiled, quoted and read. */
  function CompiledSteps(cc: CharClass, f: PlotField): Option<seq<Step>>
  {
    Meaning(cc, NormalizeLegacyArrayPath(f.path, f.valueType.NumberArray?))
  }

  // ---- collecting the two lists -----------------------------------------------------

  lemma {:induction false} PutNew<K, V>(d: Dict<K, V>, k: K, v: V)
    requires forall i | 0 <= i < |d| :: d[i].0 != k
    ensures Put(d, k, v) == d + [(k, v)]
  {
    if d != [] {
      PutNew(d[1..], k, v);
      assert d == [d[0]] + d[1..];
    }
  }

  lemma {:induction false} MergeDisjoint<K, V>(d: Dict<K, V>, e: Dict<K, V>)
    requires DistinctKeys(d + e)
    ensures Merge(d, e) == d + e
    decreases |e|
  {
    if e == [] {
      assert d + e == d;
    } else {
      forall i | 0 <= i < |d|
        ensures d[i].0 != e[0].0
      {
        assert (d + e)[i].0 != (d + e)[|d|].0;
      }
      PutNew(d, e[0].0, e[0].1);
      assert d + [e[0]] + e[1..] == d + e;
      MergeDisjoint(d + [e[0]], e[1..]);
    }
  }

  /** Every field of one side: where it comes from, and that its path is compiled faithfully. */
  ghost predicate FieldOf(source: Source, root: Json, f: PlotField)
  {
    SoundField(source, root, root, [], f)
  }

  lemma FieldSource(source: Source, root: Json, f: PlotField)
    requires FieldOf(source, root, f)
    ensures f.source == source
  {
  }

  /** Two fields of one side have different paths. */
  lemma PathsDiffer(source: Source, root: Json, fs: seq<PlotField>, i: nat, j: nat)
    requires i < j < |fs| && Apart([], fs) && forall f | f in fs :: FieldOf(source, root, f)
    ensures fs[i].path != fs[j].path
  {
    assert fs[i] in fs && Separate([], fs[i], fs[j]);
    var steps :| SoundAs(source, root, root, [], fs[i], steps);
    assert Adds([], fs[i], steps);
    assert fs[i].path == fs[j].path ==> Adds([], fs[j], steps);
  }

  lemma SidesDistinct(inputRoot: Json, outputRoot: Json, inputs: seq<PlotField>, outputs: seq<PlotField>)
    requires Apart([], inputs) && Apart([], outputs)
    requires (forall f | f in inputs :: FieldOf(Input, inputRoot, f)) && (forall f | f in outputs :: FieldOf(Output, outputRoot, f))
    ensures DistinctKeys(Keyed(inputs) + Keyed(outputs))
  {
    var all, n := Keyed(inputs) + Keyed(outputs), |inputs|;
    forall i, j | 0 <= i < j < |all|
      ensures all[i].0 != all[j].0
    {
      if j < n {
        PathsDiffer(Input, inputRoot, inputs, i, j);
      } else if n <= i {
        PathsDiffer(Output, outputRoot, outputs, i - n, j - n);
      } else {
        FieldSource(Input, inputRoot, inputs[i]);
        FieldSource(Output, outputRoot, outputs[j - n]);
      }
    }
  }

  lemma PrefixDistinct<K, V>(d: Dict<K, V>, e: Dict<K, V>)
    requires DistinctKeys(d + e)
    ensures DistinctKeys(d)
  {
    forall i, j | 0 <= i < j < |d|
      ensures d[i].0 != d[j].0
    {
      assert (d + e)[i] == d[i] && (d + e)[j] == d[j];
    }
  }

  lemma MergeSides(inputs: seq<PlotField>, outputs: seq<PlotField>)
    requires DistinctKeys(Keyed(inputs) + Keyed(outputs))
    ensures Values(Merge(Merge([], Keyed(inputs)), Keyed(outputs))) == inputs + outputs
  {
    var d, e := Keyed(inputs), Keyed(outputs);
    PrefixDistinct(d, e);
    assert [] + d == d;
    MergeDisjoint([], d);
    MergeDisjoint(d, e);
    KeyedValues(inputs, outputs);
  }

  lemma KeyedValues(inputs: seq<PlotField>, outputs: seq<PlotField>)
    ensures Values(Keyed(inputs) + Keyed(outputs)) == inputs + outputs
  {
  }

  /** `_extract_plot_fields` loses nothing and invents nothing: it sorts the fields of both sides. */
  lemma CollectsBothSides(depth: nat, inputSchema: Json, outputSchema: Json)
    returns (inputs: seq<PlotField>, outputs: seq<PlotField>)
    requires ExtractPlotFields(depth, inputSchema, outputSchema).Done?
    requires InFragment(RootOf(inputSchema), RootOf(inputSchema)) && InFragment(RootOf(outputSchema), RootOf(outputSchema))
    ensures ExtractSchema(depth, Input, RootOf(inputSchema), RootOf(inputSchema), "") == Done(inputs)
    ensures ExtractSchema(depth, Output, RootOf(outputSchema), RootOf(outputSchema), "") == Done(outputs)
    ensures ExtractPlotFields(depth, inputSchema, outputSchema).value == Sort(inputs + outputs, FieldLe)
    ensures Apart([], inputs) && Apart([], outputs)
    ensures forall f | f in inputs :: FieldOf(Input, RootOf(inputSchema), f)
    ensures forall f | f in outputs :: FieldOf(Output, RootOf(outputSchema), f)
  {
    var input, output := RootOf(inputSchema), RootOf(outputSchema);
    inputs := ExtractSchema(depth, Input, input, input, "").value;
    outputs := ExtractSchema(depth, Output, output, output, "").value;
    SchemaSound(depth, Input, input, input, []);
    SchemaSound(depth, Output, output, output, []);
    SchemaApart(depth, Input, input, input, []);
    SchemaApart(depth, Output, output, output, []);
    SidesDistinct(input, output, inputs, outputs);
    MergeSides(inputs, outputs);
  }

  // ---- the main results -------------------------------------------------------------

  /** The last step of an array path shows in its text. */
  lemma WildInPath(steps: seq<Step>)
    requires EndsWild(steps)
    ensures '[' in Print(steps)
  {
    assert (Print(steps[..|steps| - 1]) + "[*]")[|Print(steps[..|steps| - 1])|] == '[';
  }

  lemma FieldCompiles(cc: CharClass, source: Source, root: Json, f: PlotField, steps: seq<Step>)
    requires Sane(cc) && SoundAs(source, root, root, [], f, steps)
    ensures NormalizeLegacyArrayPath(f.path, f.valueType.NumberArray?) == f.path
    ensures JsonpathLiteral(cc, f.path).Some? && CompiledSteps(cc, f) == Some(steps)
  {
    assert [] + steps == steps;
    if f.valueType.NumberArray? {
      WildInPath(steps);
    }
    CompilationPreservesMeaning(cc, steps);
  }

  lemma InEither(fs: seq<PlotField>, inputs: seq<PlotField>, outputs: seq<PlotField>, f: PlotField)
    requires multiset(fs) == multiset(inputs + outputs) && f in fs
    ensures f in inputs || f in outputs
  {
    assert f in multiset(inputs + outputs);
  }

  lemma FieldFromSide(depth: nat, inputSchema: Json, outputSchema: Json, f: PlotField)
    requires ExtractPlotFields(depth, inputSchema, outputSchema).Done?
    requires InFragment(RootOf(inputSchema), RootOf(inputSchema)) && InFragment(RootOf(outputSchema), RootOf(outputSchema))
    requires f in ExtractPlotFields(depth, inputSchema, outputSchema).value
    ensures FieldOf(f.source, SchemaOf(f.source, inputSchema, outputSchema), f)
  {
    var inputs, outputs := CollectsBothSides(depth, inputSchema, outputSchema);
    SortMultiset(inputs + outputs, FieldLe);
    InEither(Sort(inputs + outputs, FieldLe), inputs, outputs, f);
    FieldSource(if f in inputs then Input else Output, if f in inputs then RootOf(inputSchema) else RootOf(outputSchema), f);
  }

  /** Soundness of the whole pipeline: a field's path compiles, the legacy normalisation leaves it
      alone, and on every instance of the schema the compiled path selects only nulls and values
      of the field's kind. */
  lemma PipelineSound(cc: CharClass, depth: nat, inputSchema: Json, outputSchema: Json, f: PlotField, v: Json, loc: seq<Step>, x: Json)
    requires Sane(cc) && ExtractPlotFields(depth, inputSchema, outputSchema).Done?
    requires InFragment(RootOf(inputSchema), RootOf(inputSchema)) && InFragment(RootOf(outputSchema), RootOf(outputSchema))
    requires f in ExtractPlotFields(depth, inputSchema, outputSchema).value
    ensures NormalizeLegacyArrayPath(f.path, f.valueType.NumberArray?) == f.path && CompiledSteps(cc, f).Some?
    ensures var root := SchemaOf(f.source, inputSchema, outputSchema);
            Valid(root, root, v) && Selects(CompiledSteps(cc, f).value, v, loc, x) ==>
              x == Null || (HasKind(f.valueType, x) && Matches(CompiledSteps(cc, f).value, loc))
  {
    FieldFromSide(depth, inputSchema, outputSchema, f);
    var root := SchemaOf(f.source, inputSchema, outputSchema);
    var steps :| SoundAs(f.source, root, root, [], f, steps);
    FieldCompiles(cc, f.source, root, f, steps);
  }

  /** Field `i` of the list selects the value at `loc`, columns of matrices aside. */
  predicate CoversAt(cc: CharClass, fs: seq<PlotField>, i: nat, source: Source, v: Json, loc: seq<Step>, x: Json)
  {
    && i < |fs| && fs[i].source == source && !fs[i].valueType.NumberMatrixIndex?
    && CompiledSteps(cc, fs[i]).Some? && Selects(CompiledSteps(cc, fs[i]).value, v, loc, x)
  }

  /** Field `i` of the list is for location `loc` and values of type `t`, columns of matrices aside. */
  ghost predicate EmittedFor(fs: seq<PlotField>, i: nat, source: Source, loc: seq<Step>, t: string)
  {
    i < |fs| && fs[i].source == source && exists steps :: CoveredBy([], fs[i], steps, loc, t)
  }

  // ---- one field for each position --------------------------------------------------

  lemma InSameList(fs: seq<PlotField>, all: seq<PlotField>, i: nat, j: nat)
    requires multiset(fs) == multiset(all) && i < |fs| && j < |fs| && i != j
    ensures exists k, l :: 0 <= k < |all| && 0 <= l < |all| && k != l && all[k] == fs[i] && all[l] == fs[j]
  {
    assert fs[i] in multiset(all) && fs[j] in multiset(all);
    var k :| 0 <= k < |all| && all[k] == fs[i];
    if fs[i] == fs[j] {
      TwiceInSeq(fs, i, j);
      SecondPlace(all, k);
      var l :| 0 <= l < |all| && l != k && all[l] == all[k];
    } else {
      var l :| 0 <= l < |all| && all[l] == fs[j];
    }
  }

  lemma TwiceInSeq<T>(fs: seq<T>, i: nat, j: nat)
    requires i < |fs| && j < |fs| && i != j && fs[i] == fs[j]
    ensures multiset(fs)[fs[i]] >= 2
  {
    var a, b := if i < j then i else j, if i < j then j else i;
    assert fs == fs[..a] + [fs[a]] + fs[a + 1..b] + [fs[b]] + fs[b + 1..];
  }

  lemma SecondPlace<T>(all: seq<T>, k: nat)
    requires k < |all| && multiset(all)[all[k]] >= 2
    ensures exists l :: 0 <= l < |all| && l != k && all[l] == all[k]
  {
    assert all == all[..k] + [all[k]] + all[k + 1..];
    if all[k] in all[..k] {
      var l :| 0 <= l < k && all[..k][l] == all[k];
      assert all[l] == all[k];
    } else {
      assert all[k] in multiset(all[k + 1..]);
      var l :| 0 <= l < |all| - k - 1 && all[k + 1..][l] == all[k];
      assert all[k + 1 + l] == all[k];
    }
  }

  /** Two fields of one side for one location are one field. */
  lemma EmittedOnce(source: Source, fs: seq<PlotField>, i: nat, j: nat, loc: seq<Step>, t: string, u: string)
    requires Apart([], fs) && EmittedFor(fs, i, source, loc, t) && EmittedFor(fs, j, source, loc, u)
    ensures i == j
  {
    var a :| CoveredBy([], fs[i], a, loc, t);
    var b :| CoveredBy([], fs[j], b, loc, u);
    NotSeparate(fs[i], fs[j], a, b, loc, t, u);
    NotSeparate(fs[j], fs[i], b, a, loc, u, t);
  }

  lemma NotSeparate(f: PlotField, g: PlotField, a: seq<Step>, b: seq<Step>, loc: seq<Step>, t: string, u: string)
    requires CoveredBy([], f, a, loc, t) && CoveredBy([], g, b, loc, u)
    ensures !Separate([], f, g)
  {
    assert Overlap(a, b);
  }

  /** Where the `k`-th of all fields stands in the list of its own side. */
  lemma SideIndex(inputSchema: Json, outputSchema: Json, inputs: seq<PlotField>, outputs: seq<PlotField>, k: nat) returns (i: nat)
    requires k < |inputs + outputs|
    requires forall f | f in inputs :: FieldOf(Input, RootOf(inputSchema), f)
    requires forall f | f in outputs :: FieldOf(Output, RootOf(outputSchema), f)
    ensures var f := (inputs + outputs)[k];
            var side := if f.source.Input? then inputs else outputs;
            && i < |side| && side[i] == f && k == (if f.source.Input? then i else |inputs| + i)
            && FieldOf(f.source, SchemaOf(f.source, inputSchema, outputSchema), f)
  {
    if k < |inputs| {
      i := k;
      assert inputs[i] in inputs;
      FieldSource(Input, RootOf(inputSchema), inputs[i]);
    } else {
      i := k - |inputs|;
      assert outputs[i] in outputs;
      FieldSource(Output, RootOf(outputSchema), outputs[i]);
    }
  }

  lemma OnePlace(inputSchema: Json, outputSchema: Json, inputs: seq<PlotField>, outputs: seq<PlotField>,
                 fs: seq<PlotField>, i: nat, j: nat, source: Source, loc: seq<Step>, t: string, u: string)
    requires multiset(fs) == multiset(inputs + outputs) && Apart([], inputs) && Apart([], outputs)
    requires forall f | f in inputs :: FieldOf(Input, RootOf(inputSchema), f)
    requires forall f | f in outputs :: FieldOf(Output, RootOf(outputSchema), f)
    requires EmittedFor(fs, i, source, loc, t) && EmittedFor(fs, j, source, loc, u)
    ensures j == i
  {
    if j != i {
      var all := inputs + outputs;
      InSameList(fs, all, i, j);
      var k, l :| 0 <= k < |all| && 0 <= l < |all| && k != l && all[k] == fs[i] && all[l] == fs[j];
      var side := if source.Input? then inputs else outputs;
      var k' := SideIndex(inputSchema, outputSchema, inputs, outputs, k);
      var l' := SideIndex(inputSchema, outputSchema, inputs, outputs, l);
      EmittedOnce(source, side, k', l', loc, t, u);
      assert false;
    }
  }

  lemma SideFields(inputSchema: Json, outputSchema: Json, inputs: seq<PlotField>, outputs: seq<PlotField>, fs: seq<PlotField>, source: Source)
    requires multiset(fs) == multiset(inputs + outputs)
    requires forall f | f in inputs :: FieldOf(Input, RootOf(inputSchema), f)
    requires forall f | f in outputs :: FieldOf(Output, RootOf(outputSchema), f)
    ensures forall f :: f in (if source.Input? then inputs else outputs) <==> f in fs && f.source == source
  {
    forall f
      ensures f in (if source.Input? then inputs else outputs) <==> f in fs && f.source == source
    {
      assert f in fs <==> f in multiset(fs);
      assert f in inputs + outputs <==> f in multiset(inputs + outputs);
      assert f in inputs ==> f.source == Input;
      assert f in outputs ==> f.source == Output;
    }
  }

  lemma EmittedCovers(fs: seq<PlotField>, side: seq<PlotField>, source: Source, loc: seq<Step>, t: string)
    requires forall f :: f in side <==> f in fs && f.source == source
    ensures (exists i: nat :: EmittedFor(fs, i, source, loc, t)) <==> Covers(side, [], loc, t)
  {
    if i: nat :| EmittedFor(fs, i, source, loc, t) {
      assert fs[i] in side;
    }
    if Covers(side, [], loc, t) {
      var f, steps :| f in side && CoveredBy([], f, steps, loc, t);
      var i: nat :| i < |fs| && fs[i] == f;
      assert EmittedFor(fs, i, source, loc, t);
    }
  }

  // ---- which positions get a field --------------------------------------------------

  /** Which positions the pipeline emits fields for: exactly those walked to, and for each of them one. */
  lemma PipelineEmitsExactly(depth: nat, inputSchema: Json, outputSchema: Json, source: Source, loc: seq<Step>, t: string)
    requires ExtractPlotFields(depth, inputSchema, outputSchema).Done?
    requires InFragment(RootOf(inputSchema), RootOf(inputSchema)) && InFragment(RootOf(outputSchema), RootOf(outputSchema))
    ensures var fs, root := ExtractPlotFields(depth, inputSchema, outputSchema).value, SchemaOf(source, inputSchema, outputSchema);
            && ((exists i: nat :: EmittedFor(fs, i, source, loc, t)) <==> Walked(root, root, true, loc, t))
            && forall i: nat, j: nat, u | EmittedFor(fs, i, source, loc, t) && EmittedFor(fs, j, source, loc, u) :: i == j
  {
    var fs, root := ExtractPlotFields(depth, inputSchema, outputSchema).value, SchemaOf(source, inputSchema, outputSchema);
    var inputs, outputs := CollectsBothSides(depth, inputSchema, outputSchema);
    SortMultiset(inputs + outputs, FieldLe);
    SideFields(inputSchema, outputSchema, inputs, outputs, fs, source);
    var side := if source.Input? then inputs else outputs;
    EmittedCovers(fs, side, source, loc, t);
    SchemaWalked(depth, source, root, root, [], side, loc, t);
    forall i: nat, j: nat, u | EmittedFor(fs, i, source, loc, t) && EmittedFor(fs, j, source, loc, u)
      ensures i == j
    {
      OnePlace(inputSchema, outputSchema, inputs, outputs, fs, i, j, source, loc, t, u);
    }
  }

  /** A type whose values the field is for. */
  function TypeOfKind(kind: ValueType): (t: string)
    ensures KindOfType(Some(t), kind)
  {
    match kind
    case Category => "string"
    case CategoryArray => "string"
    case Boolean => "boolean"
    case BooleanArray => "boolean"
    case _ => "number"
  }

  /** A field that selects a non-null value of an instance is for its location, and conversely. */
  lemma SelectingIsEmitted(cc: CharClass, source: Source, root: Json, fs: seq<PlotField>, i: nat, v: Json, loc: seq<Step>, t: string)
    requires Sane(cc) && i < |fs| && FieldOf(source, root, fs[i]) && Valid(root, root, v)
    requires ValueAt(v, loc).Some? && ValueAt(v, loc).value != Null
    ensures CoversAt(cc, fs, i, source, v, loc, ValueAt(v, loc).value) && KindOfType(Some(t), fs[i].valueType)
            <==> EmittedFor(fs, i, source, loc, t)
  {
    var a :| SoundAs(source, root, root, [], fs[i], a);
    FieldCompiles(cc, source, root, fs[i], a);
    assert [] + a == a;
    if CoversAt(cc, fs, i, source, v, loc, ValueAt(v, loc).value) && KindOfType(Some(t), fs[i].valueType) {
      assert CoveredBy([], fs[i], a, loc, t);
    }
    if EmittedFor(fs, i, source, loc, t) {
      var steps :| CoveredBy([], fs[i], steps, loc, t);
      PrintInjective(a, [] + steps);
      assert [] + steps == steps;
      MatchSelects(a, v, loc);
    }
  }

  /** Coverage of the whole pipeline, exactly: on an instance of a side's schema, a non-null value is
      selected by a field for values of type `t` if and only if its location is walked to, and never by two. */
  lemma PipelineCoversExactly(cc: CharClass, depth: nat, inputSchema: Json, outputSchema: Json, source: Source, v: Json, loc: seq<Step>, t: string)
    requires Sane(cc) && ExtractPlotFields(depth, inputSchema, outputSchema).Done?
    requires InFragment(RootOf(inputSchema), RootOf(inputSchema)) && InFragment(RootOf(outputSchema), RootOf(outputSchema))
    requires var root := SchemaOf(source, inputSchema, outputSchema); Valid(root, root, v)
    requires ValueAt(v, loc).Some? && ValueAt(v, loc).value != Null
    ensures var fs, x := ExtractPlotFields(depth, inputSchema, outputSchema).value, ValueAt(v, loc).value;
            var root := SchemaOf(source, inputSchema, outputSchema);
            && ((exists i: nat :: CoversAt(cc, fs, i, source, v, loc, x) && KindOfType(Some(t), fs[i].valueType))
                <==> Walked(root, root, true, loc, t))
            && forall i: nat, j: nat | CoversAt(cc, fs, i, source, v, loc, x) && CoversAt(cc, fs, j, source, v, loc, x) :: i == j
  {
    var fs, x := ExtractPlotFields(depth, inputSchema, outputSchema).value, ValueAt(v, loc).value;
    PipelineEmitsExactly(depth, inputSchema, outputSchema, source, loc, t);
    forall i: nat | i < |fs| && fs[i].source == source
      ensures CoversAt(cc, fs, i, source, v, loc, x) && KindOfType(Some(t), fs[i].valueType) <==> EmittedFor(fs, i, source, loc, t)
    {
      SelectingEmitted(cc, depth, inputSchema, outputSchema, source, i, v, loc, t);
    }
    forall i: nat, j: nat | CoversAt(cc, fs, i, source, v, loc, x) && CoversAt(cc, fs, j, source, v, loc, x)
      ensures i == j
    {
      CoveredOnce(cc, depth, inputSchema, outputSchema, source, i, j, v, loc);
    }
  }

  lemma SelectingEmitted(cc: CharClass, depth: nat, inputSchema: Json, outputSchema: Json, source: Source, i: nat, v: Json, loc: seq<Step>, t: string)
    requires Sane(cc) && ExtractPlotFields(depth, inputSchema, outputSchema).Done?
    requires InFragment(RootOf(inputSchema), RootOf(inputSchema)) && InFragment(RootOf(outputSchema), RootOf(outputSchema))
    requires var root := SchemaOf(source, inputSchema, outputSchema); Valid(root, root, v)
    requires ValueAt(v, loc).Some? && ValueAt(v, loc).value != Null
    requires var fs := ExtractPlotFields(depth, inputSchema, outputSchema).value; i < |fs| && fs[i].source == source
    ensures var fs := ExtractPlotFields(depth, inputSchema, outputSchema).value;
            CoversAt(cc, fs, i, source, v, loc, ValueAt(v, loc).value) && KindOfType(Some(t), fs[i].valueType)
            <==> EmittedFor(fs, i, source, loc, t)
  {
    var fs := ExtractPlotFields(depth, inputSchema, outputSchema).value;
    assert fs[i] in fs;
    FieldFromSide(depth, inputSchema, outputSchema, fs[i]);
    SelectingIsEmitted(cc, source, SchemaOf(source, inputSchema, outputSchema), fs, i, v, loc, t);
  }

  lemma CoveredOnce(cc: CharClass, depth: nat, inputSchema: Json, outputSchema: Json, source: Source, i: nat, j: nat, v: Json, loc: seq<Step>)
    requires Sane(cc) && ExtractPlotFields(depth, inputSchema, outputSchema).Done?
    requires InFragment(RootOf(inputSchema), RootOf(inputSchema)) && InFragment(RootOf(outputSchema), RootOf(outputSchema))
    requires var root := SchemaOf(source, inputSchema, outputSchema); Valid(root, root, v)
    requires ValueAt(v, loc).Some? && ValueAt(v, loc).value != Null
    requires var fs, x := ExtractPlotFields(depth, inputSchema, outputSchema).value, ValueAt(v, loc).value;
             CoversAt(cc, fs, i, source, v, loc, x) && CoversAt(cc, fs, j, source, v, loc, x)
    ensures i == j
  {
    var fs := ExtractPlotFields(depth, inputSchema, outputSchema).value;
    var t, u := TypeOfKind(fs[i].valueType), TypeOfKind(fs[j].valueType);
    SelectingEmitted(cc, depth, inputSchema, outputSchema, source, i, v, loc, t);
    SelectingEmitted(cc, depth, inputSchema, outputSchema, source, j, v, loc, u);
    PipelineEmitsExactly(depth, inputSchema, outputSchema, source, loc, t);
  }

  /** In particular, a non-null value at a position the schema gives a scalar type, with the coverage
      conditions met on its way, is selected by exactly one field, of that type. */
  lemma PipelineCoversOnce(cc: CharClass, depth: nat, inputSchema: Json, outputSchema: Json, source: Source, v: Json, loc: seq<Step>, t: string)
    returns (i: nat)
    requires Sane(cc) && ExtractPlotFields(depth, inputSchema, outputSchema).Done?
    requires InFragment(RootOf(inputSchema), RootOf(inputSchema)) && InFragment(RootOf(outputSchema), RootOf(outputSchema))
    requires var root := SchemaOf(source, inputSchema, outputSchema);
             InCover(root, root, loc) && Valid(root, root, v) && Describes(root, root, loc, t)
    requires v.Obj? && loc != [] && ValueAt(v, loc).Some? && ValueAt(v, loc).value != Null
    ensures var fs := ExtractPlotFields(depth, inputSchema, outputSchema).value;
            && CoversAt(cc, fs, i, source, v, loc, ValueAt(v, loc).value)
            && KindOfType(Some(t), fs[i].valueType)
            && forall j: nat | CoversAt(cc, fs, j, source, v, loc, ValueAt(v, loc).value) :: j == i
  {
    var fs, root := ExtractPlotFields(depth, inputSchema, outputSchema).value, SchemaOf(source, inputSchema, outputSchema);
    DescribedWalked(root, root, true, loc, t);
    PipelineCoversExactly(cc, depth, inputSchema, outputSchema, source, v, loc, t);
    i :| CoversAt(cc, fs, i, source, v, loc, ValueAt(v, loc).value) && KindOfType(Some(t), fs[i].valueType);
  }
}
