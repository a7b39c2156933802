/** Which positions the extractor emits a field for, said on schemas alone: in the fragment, exactly those
    that are walked to. */
module PlotFieldWalk {
  import opened ExtractionVisits
  import opened JsonpathProofs
  import opened OrderedDict
  import opened Json
  import opened LaxPath
  import opened PlotFields
  import opened PlotFieldSoundness
  import opened PlotFieldCovers
  import opened PlotFieldsApart
  import opened SchemaFragment

  // ---- the walk ---------------------------------------------------------------------

  /** Fields of the scalar type `u` are fields for values of type `t`; integers are numbers. */
  predicate SameKind(t: string, u: Option<string>)
  {
    IsScalar(u) && if IsNumeric(u) then IsNumeric(Some(t)) else Some(t) == u
  }

  /** From the schema, through normal forms only, the walk ends at location `loc` with a scalar of the
      kind of `t`. At the top, while the path is empty, there are only properties. In the fragment
      no alternatives but null are left after normalising, so what has alternatives then ends the
      walk with nothing. */
  ghost predicate Walked(root: Json, schema: Json, top: bool, loc: seq<Step>, t: string)
    decreases |loc|, 3
  {
    exists n :: IsNormal(root, schema, n) && Truthy(n) && BranchList(n).None? && Kept(root, n, top, loc, t)
  }

  /** A scalar ends the way, an array goes on through its items, anything else through properties. */
  ghost predicate Kept(root: Json, n: Json, top: bool, loc: seq<Step>, t: string)
    decreases |loc|, 2
  {
    if !top && IsScalar(SchemaType(n)) then loc == [] && SameKind(t, SchemaType(n))
    else if !top && SchemaType(n) == Some("array") then KeptByArray(root, n, loc, t)
    else KeptByProperty(root, PropertiesOf(n), top, loc, t)
  }

  ghost predicate KeptByProperty(root: Json, ps: Dict<string, Json>, top: bool, loc: seq<Step>, t: string)
    decreases |loc|, 1
  {
    loc != [] && exists p :: p in ps && PropertyWalked(root, p, top, loc, t)
  }

  ghost predicate PropertyWalked(root: Json, p: (string, Json), top: bool, loc: seq<Step>, t: string)
    requires loc != []
    decreases |loc|, 0
  {
    p.1.Obj? && loc[0] == Member(p.0) && Walked(root, p.1, top && p.0 == "", loc[1..], t)
  }

  /** Items if they are a dictionary, tuple positions otherwise. */
  ghost predicate KeptByArray(root: Json, n: Json, loc: seq<Step>, t: string)
    decreases |loc|, 1
  {
    match Field(n, "items")
    case Some(Obj(ms)) => loc != [] && MatchesStep(Wild, loc[0]) && KeptByItems(root, Obj(ms), loc[1..], t)
    case _ => KeptByPrefixItem(root, ElementsAt(n, "prefixItems"), 0, loc, t)
  }

  ghost predicate KeptByPrefixItem(root: Json, es: seq<Json>, i: nat, loc: seq<Step>, t: string)
    decreases |loc|, 0
  {
    && loc != [] && loc[0].Index? && i <= loc[0].i < |es| && es[loc[0].i].Obj?
    && Walked(root, es[loc[0].i], false, loc[1..], t)
  }

  ghost predicate KeptByItems(root: Json, items: Json, loc: seq<Step>, t: string)
    decreases |loc|, 5
  {
    exists s :: IsNormal(root, items, s) && KeptItem(root, s, loc, t)
  }

  /** Items, and items of items, are read by their normal form alone; only what is neither is walked
      like any schema. */
  ghost predicate KeptItem(root: Json, s: Json, loc: seq<Step>, t: string)
    decreases |loc|, 4
  {
    if IsScalar(SchemaType(s)) then loc == [] && SameKind(t, SchemaType(s))
    else if ScalarInside(root, s) then KeptInner(root, s, loc, t)
    else Walked(root, s, false, loc, t)
  }

  /** Any item of a scalar type. */
  predicate OneDeeper(u: Json, loc: seq<Step>, t: string)
  {
    |loc| == 1 && MatchesStep(Wild, loc[0]) && SameKind(t, SchemaType(u))
  }

  ghost predicate KeptInner(root: Json, s: Json, loc: seq<Step>, t: string)
  {
    exists u :: IsNormal(root, Inner(s), u) && OneDeeper(u, loc, t)
  }

  // ---- lists of fields --------------------------------------------------------------

  lemma KindSame(t: string, u: Option<string>, f: ValueType)
    requires IsScalar(u) && KindOfType(u, f)
    ensures KindOfType(Some(t), f) <==> SameKind(t, u)
  {
  }

  lemma LeafCovers(pre: seq<Step>, f: PlotField, loc: seq<Step>, t: string)
    requires Clean(pre) && f.path == Print(pre) && !f.valueType.NumberMatrixIndex?
    ensures Covers([f], pre, loc, t) <==> loc == [] && KindOfType(Some(t), f.valueType)
  {
    if Covers([f], pre, loc, t) {
      var g, steps :| g in [f] && CoveredBy(pre, g, steps, loc, t);
      PrintInjective(pre + steps, pre);
      assert steps == (pre + steps)[|pre|..] == [];
    }
    if loc == [] && KindOfType(Some(t), f.valueType) {
      CoversLeaf([f], pre, f, t);
    }
  }

  lemma ConcatCovers(a: seq<PlotField>, b: seq<PlotField>, pre: seq<Step>, loc: seq<Step>, t: string)
    ensures Covers(a + b, pre, loc, t) <==> Covers(a, pre, loc, t) || Covers(b, pre, loc, t)
  {
  }

  /** Fields found one step further down, seen from here. */
  lemma ShiftCovers(fs: seq<PlotField>, pre: seq<Step>, step: Step, loc: seq<Step>, t: string)
    requires forall f | f in fs :: Under(pre + [step], f)
    ensures Covers(fs, pre, loc, t) <==> loc != [] && MatchesStep(step, loc[0]) && Covers(fs, pre + [step], loc[1..], t)
  {
    if Covers(fs, pre, loc, t) {
      var f, steps :| f in fs && CoveredBy(pre, f, steps, loc, t);
      AddsThrough(pre, step, f, steps);
      MatchesHead(step, steps, loc);
      assert CoveredBy(pre + [step], f, steps[1..], loc[1..], t);
    }
    if loc != [] && MatchesStep(step, loc[0]) && Covers(fs, pre + [step], loc[1..], t) {
      CoversShift(fs, fs, pre, step, loc, t);
    }
  }

  lemma OnlyColumns(fs: seq<PlotField>, pre: seq<Step>, loc: seq<Step>, t: string)
    requires forall f | f in fs :: f.valueType.NumberMatrixIndex?
    ensures !Covers(fs, pre, loc, t)
  {
  }

  // ---- the extractor ----------------------------------------------------------------

  lemma WalkedIs(d: nat, root: Json, schema: Json, n: Json, top: bool, loc: seq<Step>, t: string)
    requires Normalize(d, schema, root) == Done(n)
    ensures Walked(root, schema, top, loc, t) <==> Truthy(n) && BranchList(n).None? && Kept(root, n, top, loc, t)
  {
    assert IsNormal(root, schema, n);
    forall m | IsNormal(root, schema, m)
      ensures m == n
    {
      NormalIs(d, schema, root, m);
    }
  }

  /** On schemas of the fragment the extractor emits a field for exactly the positions walked to. */
  lemma {:induction false} SchemaWalked(depth: nat, source: Source, schema: Json, root: Json, pre: seq<Step>, fs: seq<PlotField>, loc: seq<Step>, t: string)
    requires InFragment(root, schema) && Clean(pre) && ExtractSchema(depth, source, schema, root, Print(pre)) == Done(fs)
    ensures Covers(fs, pre, loc, t) <==> Walked(root, schema, pre == [], loc, t)
    decreases depth, 1, 2
  {
    var s := Normalize(depth - 1, schema, root).value;
    NormalizeStays(depth - 1, schema, root);
    WalkedIs(depth - 1, root, schema, s, pre == [], loc, t);
    if Truthy(s) {
      NormalWalked(depth, source, s, root, pre, fs, loc, t);
    }
  }

  lemma {:induction false} NormalWalked(depth: nat, source: Source, s: Json, root: Json, pre: seq<Step>, fs: seq<PlotField>, loc: seq<Step>, t: string)
    requires depth > 0 && Ready(root, s) && Clean(pre) && ExtractNormal(depth, source, s, root, Print(pre)) == Done(fs)
    ensures Covers(fs, pre, loc, t) <==> BranchList(s).None? && Kept(root, s, pre == [], loc, t)
    decreases depth, 1, 1
  {
    BranchesEmpty(depth - 1, source, s, root, Print(pre));
    if BranchList(s).None? {
      TypedWalked(depth, source, s, root, pre, fs, loc, t);
    }
  }

  lemma {:induction false} TypedWalked(depth: nat, source: Source, s: Json, root: Json, pre: seq<Step>, fs: seq<PlotField>, loc: seq<Step>, t: string)
    requires depth > 0 && Ready(root, s) && Clean(pre) && ExtractTyped(depth, source, s, root, Print(pre)) == Done(fs)
    ensures Covers(fs, pre, loc, t) <==> Kept(root, s, pre == [], loc, t)
    decreases depth, 1, 0
  {
    PrintEmpty(pre);
    if pre != [] && IsScalar(SchemaType(s)) {
      ScalarWalked(depth, source, s, root, pre, fs, loc, t);
    } else if pre != [] && SchemaType(s) == Some("array") {
      ArrayWalked(depth - 1, source, s, root, pre, fs, loc, t);
    } else {
      PropertiesWalked(depth, source, s, PropertiesOf(s), root, pre, fs, loc, t);
    }
  }

  lemma ScalarWalked(depth: nat, source: Source, s: Json, root: Json, pre: seq<Step>, fs: seq<PlotField>, loc: seq<Step>, t: string)
    requires depth > 0 && Clean(pre) && Print(pre) != "" && IsScalar(SchemaType(s))
    requires ExtractTyped(depth, source, s, root, Print(pre)) == Done(fs)
    ensures Covers(fs, pre, loc, t) <==> loc == [] && SameKind(t, SchemaType(s))
  {
    LeafCovers(pre, fs[0], loc, t);
    KindSame(t, SchemaType(s), fs[0].valueType);
  }

  lemma {:induction false} PropertiesWalked(depth: nat, source: Source, s: Json, ps: Dict<string, Json>, root: Json,
                                            pre: seq<Step>, fs: seq<PlotField>, loc: seq<Step>, t: string)
    requires depth > 0 && Ready(root, s) && Clean(pre) && forall p | p in ps :: p in PropertiesOf(s)
    requires ExtractProperties(depth, source, ps, root, Print(pre)) == Done(fs)
    ensures Covers(fs, pre, loc, t) <==> KeptByProperty(root, ps, pre == [], loc, t)
    decreases depth, 0, |ps|
  {
    if ps != [] {
      PropertyReady(root, s, ps[0], pre);
      var here, rest := PropertiesSplit(depth, source, ps, root, Print(pre));
      OnePropertyWalked(depth - 1, source, ps[0], root, pre, here, loc, t);
      PropertiesWalked(depth, source, s, ps[1..], root, pre, rest, loc, t);
      ConcatCovers(here, rest, pre, loc, t);
      NextProperty(root, ps, pre == [], loc, t);
    }
  }

  lemma NextProperty(root: Json, ps: Dict<string, Json>, top: bool, loc: seq<Step>, t: string)
    requires ps != []
    ensures KeptByProperty(root, ps, top, loc, t)
            <==> (loc != [] && PropertyWalked(root, ps[0], top, loc, t)) || KeptByProperty(root, ps[1..], top, loc, t)
  {
    assert ps == [ps[0]] + ps[1..];
  }

  lemma {:induction false} OnePropertyWalked(depth: nat, source: Source, p: (string, Json), root: Json, pre: seq<Step>,
                                             here: seq<PlotField>, loc: seq<Step>, t: string)
    requires p.1.Obj? && InFragment(root, p.1) && CleanName(p.0) && Clean(pre + [Member(p.0)])
    requires ExtractSchema(depth, source, p.1, root, Print(pre + [Member(p.0)])) == Done(here)
    ensures Covers(here, pre, loc, t) <==> loc != [] && PropertyWalked(root, p, pre == [], loc, t)
    decreases depth, 1, 3
  {
    ChildUnder(depth, source, p.1, root, pre, Member(p.0), here);
    ShiftCovers(here, pre, Member(p.0), loc, t);
    if loc != [] {
      SchemaWalked(depth, source, p.1, root, pre + [Member(p.0)], here, loc[1..], t);
    }
  }

  lemma {:induction false} ArrayWalked(depth: nat, source: Source, s: Json, root: Json, pre: seq<Step>, fs: seq<PlotField>, loc: seq<Step>, t: string)
    requires Ready(root, s) && Clean(pre) && ExtractArray(depth, source, s, root, Print(pre)) == Done(fs)
    ensures Covers(fs, pre, loc, t) <==> KeptByArray(root, s, loc, t)
    decreases depth, 1, 0
  {
    ReadyShape(root, s);
    if Field(s, "items").Some? {
      ReadyChild(root, s, Field(s, "items").value);
      ItemsWalked(depth, source, Field(s, "items").value, root, pre, fs, loc, t);
    } else {
      PrefixItemsWalked(depth, source, s, ElementsAt(s, "prefixItems"), 0, root, pre, fs, loc, t);
    }
  }

  lemma {:induction false} PrefixItemsWalked(depth: nat, source: Source, s: Json, es: seq<Json>, i: nat, root: Json,
                                             pre: seq<Step>, fs: seq<PlotField>, loc: seq<Step>, t: string)
    requires es == ElementsAt(s, "prefixItems") && depth > 0 && Ready(root, s) && Clean(pre)
    requires ExtractPrefixItems(depth, source, es, i, root, Print(pre)) == Done(fs)
    ensures Covers(fs, pre, loc, t) <==> KeptByPrefixItem(root, es, i, loc, t)
    decreases depth, 0, |es| - i
  {
    if i < |es| {
      PrefixItemReady(root, s, i, pre);
      var here, rest := PrefixItemsSplit(depth, source, es, i, root, Print(pre));
      OnePositionWalked(depth - 1, source, es[i], i, root, pre, here, loc, t);
      PrefixItemsWalked(depth, source, s, es, i + 1, root, pre, rest, loc, t);
      ConcatCovers(here, rest, pre, loc, t);
      NextPosition(root, es, i, loc, t);
    }
  }

  lemma NextPosition(root: Json, es: seq<Json>, i: nat, loc: seq<Step>, t: string)
    requires i < |es| && es[i].Obj?
    ensures KeptByPrefixItem(root, es, i, loc, t)
            <==> (loc != [] && loc[0] == Index(i) && Walked(root, es[i], false, loc[1..], t))
                 || KeptByPrefixItem(root, es, i + 1, loc, t)
  {
  }

  lemma {:induction false} OnePositionWalked(depth: nat, source: Source, e: Json, i: nat, root: Json, pre: seq<Step>,
                                             here: seq<PlotField>, loc: seq<Step>, t: string)
    requires InFragment(root, e) && Clean(pre + [Index(i)])
    requires ExtractSchema(depth, source, e, root, Print(pre + [Index(i)])) == Done(here)
    ensures Covers(here, pre, loc, t) <==> loc != [] && loc[0] == Index(i) && Walked(root, e, false, loc[1..], t)
    decreases depth, 1, 3
  {
    ChildUnder(depth, source, e, root, pre, Index(i), here);
    ShiftCovers(here, pre, Index(i), loc, t);
    if loc != [] {
      SchemaWalked(depth, source, e, root, pre + [Index(i)], here, loc[1..], t);
    }
  }

  lemma {:induction false} ItemsWalked(depth: nat, source: Source, items: Json, root: Json, pre: seq<Step>, fs: seq<PlotField>, loc: seq<Step>, t: string)
    requires depth > 0 && InFragment(root, items) && Clean(pre) && ExtractItems(depth, source, items, root, Print(pre)) == Done(fs)
    ensures Covers(fs, pre, loc, t) <==> loc != [] && MatchesStep(Wild, loc[0]) && KeptByItems(root, items, loc[1..], t)
    decreases depth, 0, 2
  {
    var s := ItemUnder(depth, source, items, root, pre, fs);
    ShiftCovers(fs, pre, Wild, loc, t);
    if loc != [] {
      ItemsAre(depth - 1, root, items, s, loc[1..], t);
      ItemWalked(depth, source, s, root, pre + [Wild], fs, loc[1..], t);
    }
  }

  /** The normal form of the items, and that all fields go on from the prefix and `[*]`. */
  lemma ItemUnder(depth: nat, source: Source, items: Json, root: Json, pre: seq<Step>, fs: seq<PlotField>) returns (s: Json)
    requires depth > 0 && InFragment(root, items) && Clean(pre) && ExtractItems(depth, source, items, root, Print(pre)) == Done(fs)
    ensures Normalize(depth - 1, items, root) == Done(s) && Ready(root, s) && Clean(pre + [Wild])
    ensures ExtractItem(depth, source, s, root, Print(pre + [Wild])) == Done(fs)
    ensures forall f | f in fs :: Under(pre + [Wild], f)
  {
    s := Normalize(depth - 1, items, root).value;
    NormalizeStays(depth - 1, items, root);
    PrintSnoc(pre, Wild);
    CleanSnoc(pre, Wild);
    ItemSound(depth, source, s, root, pre + [Wild], fs);
    SoundUnder(source, root, s, pre + [Wild], fs);
  }

  lemma ItemsAre(d: nat, root: Json, items: Json, s: Json, loc: seq<Step>, t: string)
    requires Normalize(d, items, root) == Done(s)
    ensures KeptByItems(root, items, loc, t) <==> KeptItem(root, s, loc, t)
  {
    assert IsNormal(root, items, s);
    forall m | IsNormal(root, items, m)
      ensures m == s
    {
      NormalIs(d, items, root, m);
    }
  }

  lemma {:induction false} ItemWalked(depth: nat, source: Source, s: Json, root: Json, pre: seq<Step>, fs: seq<PlotField>, loc: seq<Step>, t: string)
    requires depth > 0 && Ready(root, s) && pre != [] && Clean(pre) && ExtractItem(depth, source, s, root, Print(pre)) == Done(fs)
    ensures Covers(fs, pre, loc, t) <==> KeptItem(root, s, loc, t)
    decreases depth, 0, 1
  {
    if IsScalar(SchemaType(s)) {
      ScalarItemWalked(depth, source, s, root, pre, fs, loc, t);
    } else {
      NestedWalked(depth, source, s, root, pre, fs, loc, t);
    }
  }

  lemma ScalarItemWalked(depth: nat, source: Source, s: Json, root: Json, pre: seq<Step>, fs: seq<PlotField>, loc: seq<Step>, t: string)
    requires depth > 0 && Clean(pre) && IsScalar(SchemaType(s)) && ExtractItem(depth, source, s, root, Print(pre)) == Done(fs)
    ensures Covers(fs, pre, loc, t) <==> loc == [] && SameKind(t, SchemaType(s))
  {
    LeafCovers(pre, fs[0], loc, t);
    KindSame(t, SchemaType(s), fs[0].valueType);
  }

  lemma {:induction false} NestedWalked(depth: nat, source: Source, s: Json, root: Json, pre: seq<Step>, fs: seq<PlotField>, loc: seq<Step>, t: string)
    requires depth > 0 && Ready(root, s) && !IsScalar(SchemaType(s)) && pre != [] && Clean(pre)
    requires ExtractNested(depth, source, s, root, Print(pre)) == Done(fs)
    ensures Covers(fs, pre, loc, t) <==> KeptItem(root, s, loc, t)
    decreases depth, 0, 0
  {
    var u := NestedItems(depth, s, root).value;
    if IsScalar(SchemaType(u)) {
      var f, columns := InnerFields(depth, source, s, u, root, Print(pre), fs);
      InnerIs(depth, s, u, root);
      InnerKept(depth - 1, s, u, root, loc, t);
      InnerCovers(pre, f, columns, u, loc, t);
    } else {
      NotScalarInside(depth, s, root);
      SchemaWalked(depth - 1, source, s, root, pre, fs, loc, t);
    }
  }

  /** Arrays of scalars inside arrays: one field for all of them, columns aside. */
  lemma InnerCovers(pre: seq<Step>, f: PlotField, columns: seq<PlotField>, u: Json, loc: seq<Step>, t: string)
    requires Clean(pre) && f.path == WildPath(Print(pre)) && !f.valueType.NumberMatrixIndex?
    requires IsScalar(SchemaType(u)) && KindOfType(SchemaType(u), f.valueType)
    requires forall g | g in columns :: g.valueType.NumberMatrixIndex?
    ensures Covers([f] + columns, pre, loc, t) <==> OneDeeper(u, loc, t)
  {
    OnlyColumns(columns, pre, loc, t);
    ConcatCovers([f], columns, pre, loc, t);
    WildCovers(pre, f, loc, t);
    KindSame(t, SchemaType(u), f.valueType);
  }

  lemma WildCovers(pre: seq<Step>, f: PlotField, loc: seq<Step>, t: string)
    requires Clean(pre) && f.path == WildPath(Print(pre)) && !f.valueType.NumberMatrixIndex?
    ensures Covers([f], pre, loc, t) <==> |loc| == 1 && MatchesStep(Wild, loc[0]) && KindOfType(Some(t), f.valueType)
  {
    PrintSnoc(pre, Wild);
    CleanSnoc(pre, Wild);
    assert pre + [Wild] + [] == pre + [Wild];
    assert Adds(pre + [Wild], f, []);
    ShiftCovers([f], pre, Wild, loc, t);
    if loc != [] {
      LeafCovers(pre + [Wild], f, loc[1..], t);
    }
  }

  lemma InnerFields(depth: nat, source: Source, s: Json, u: Json, root: Json, prefix: string, fs: seq<PlotField>)
    returns (f: PlotField, columns: seq<PlotField>)
    requires depth > 0 && NestedItems(depth, s, root) == Done(u) && IsScalar(SchemaType(u))
    requires ExtractNested(depth, source, s, root, prefix) == Done(fs)
    ensures fs == [f] + columns && forall g | g in columns :: g.valueType.NumberMatrixIndex?
    ensures f.path == WildPath(prefix) && !f.valueType.NumberMatrixIndex? && KindOfType(SchemaType(u), f.valueType)
  {
    if IsNumeric(SchemaType(u)) {
      columns := MatrixFields(depth, source, s, root, prefix, fs);
      f := fs[0];
    } else {
      f, columns := fs[0], [];
    }
  }

  lemma InnerIs(depth: nat, s: Json, u: Json, root: Json)
    requires depth > 0 && NestedItems(depth, s, root) == Done(u) && IsScalar(SchemaType(u))
    ensures ScalarInside(root, s) && Normalize(depth - 1, Inner(s), root) == Done(u)
  {
    assert IsNormal(root, Inner(s), u);
  }

  lemma InnerKept(d: nat, s: Json, u: Json, root: Json, loc: seq<Step>, t: string)
    requires Normalize(d, Inner(s), root) == Done(u)
    ensures KeptInner(root, s, loc, t) <==> OneDeeper(u, loc, t)
  {
    assert IsNormal(root, Inner(s), u);
    forall m | IsNormal(root, Inner(s), m)
      ensures m == u
    {
      NormalIs(d, Inner(s), root, m);
    }
  }
}
