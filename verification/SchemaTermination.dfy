/** Extraction never exhausts the recursion limit on a document without reference cycles. */
module SchemaTermination {
  import opened OrderedDict
  import opened Json
  import opened PlotFields

  /** One edge of the containment graph. */
  predicate Contains(x: Json, c: Json)
  {
    match x
    case Obj(ms) => exists m | m in ms :: m.1 == c
    case Arr(es) => c in es
    case _ => false
  }

  /** No path of containment and reference edges from `x` has `k` edges. A finite graph has such
      a bound exactly when it has no cycle. */
  ghost predicate Bounded(k: nat, root: Json, x: Json)
  {
    && k > 0
    && (forall c | Contains(x, c) :: Bounded(k - 1, root, c))
    && (RefTarget(x, root).Some? ==> Bounded(k - 1, root, RefTarget(x, root).value))
  }

  lemma {:induction false} BoundedMore(j: nat, k: nat, root: Json, x: Json)
    requires j <= k && Bounded(j, root, x)
    ensures Bounded(k, root, x)
    decreases j
  {
    forall c | Contains(x, c)
      ensures Bounded(k - 1, root, c)
    {
      BoundedMore(j - 1, k - 1, root, c);
    }
    if RefTarget(x, root).Some? {
      BoundedMore(j - 1, k - 1, root, RefTarget(x, root).value);
    }
  }

  /** The same for a schema pieced together from parts of the document: everything it contains or
      refers to is bounded by `k`. */
  ghost predicate Tame(k: nat, root: Json, s: Json)
  {
    && (forall c | Contains(s, c) :: Bounded(k, root, c))
    && (RefTarget(s, root).Some? ==> Bounded(k, root, RefTarget(s, root).value))
  }

  lemma TameMore(j: nat, k: nat, root: Json, s: Json)
    requires j <= k && Tame(j, root, s)
    ensures Tame(k, root, s)
  {
    forall c | Contains(s, c)
      ensures Bounded(k, root, c)
    {
      BoundedMore(j, k, root, c);
    }
    if RefTarget(s, root).Some? {
      BoundedMore(j, k, root, RefTarget(s, root).value);
    }
  }

  // ---- what normalising does to the bound -------------------------------------------

  lemma {:induction false} MergeMember<K, V>(d: Dict<K, V>, e: Dict<K, V>, m: (K, V))
    requires m in Merge(d, e)
    ensures m in d || m in e
    decreases |e|
  {
    if e != [] {
      MergeMember(Put(d, e[0].0, e[0].1), e[1..], m);
      if m in Put(d, e[0].0, e[0].1) {
        PutMember(d, e[0].0, e[0].1, m);
      }
    }
  }

  lemma {:induction false} PutMember<K, V>(d: Dict<K, V>, k: K, v: V, m: (K, V))
    requires m in Put(d, k, v)
    ensures m in d || m == (k, v)
  {
    if d != [] && d[0].0 != k && m != d[0] {
      PutMember(d[1..], k, v, m);
    }
  }

  lemma {:induction false} WithoutMember<K, V>(d: Dict<K, V>, key: K, m: (K, V))
    requires m in Without(d, key)
    ensures m in d && m.0 != key
  {
    if !(d[0].0 != key && m == d[0]) {
      WithoutMember(d[1..], key, m);
    }
  }

  lemma {:induction false} PutHas<K, V>(d: Dict<K, V>, k: K, v: V)
    ensures (k, v) in Put(d, k, v)
    ensures forall m | m in d && m.0 != k :: m in Put(d, k, v)
  {
    if d != [] && d[0].0 != k {
      PutHas(d[1..], k, v);
    }
  }

  /** Merging entries that leave a key alone does not change what is found there. */
  lemma {:induction false} GetMergeOther<K, V>(d: Dict<K, V>, e: Dict<K, V>, k: K)
    requires forall m | m in e :: m.0 != k
    ensures Get(Merge(d, e), k) == Get(d, k)
    decreases |e|
  {
    if e != [] {
      assert e[0] in e;
      GetPut(d, e[0].0, e[0].1, k);
      GetMergeOther(Put(d, e[0].0, e[0].1), e[1..], k);
    }
  }

  lemma ResolvedTame(k: nat, root: Json, s: Json)
    requires s.Obj? && Tame(k, root, s)
    ensures Tame(k, root, ResolveRef(s, root))
  {
    var target := RefTarget(s, root);
    if target.Some? {
      var t, m := target.value, ResolveRef(s, root);
      var own := Without(s.members, "$ref");
      forall c | Contains(m, c)
        ensures Bounded(k, root, c)
      {
        var e :| e in m.members && e.1 == c;
        MergeMember(t.members, own, e);
        if e in own {
          WithoutMember(s.members, "$ref", e);
          assert Contains(s, c);
        } else {
          assert Contains(t, c);
          BoundedMore(k - 1, k, root, c);
        }
      }
      forall e | e in own
        ensures e.0 != "$ref"
      {
        WithoutMember(s.members, "$ref", e);
      }
      GetMergeOther(t.members, own, "$ref");
      assert RefTarget(m, root) == RefTarget(t, root);
      if RefTarget(t, root).Some? {
        BoundedMore(k - 1, k, root, RefTarget(t, root).value);
      }
    }
  }

  lemma FieldContained(s: Json, key: string)
    requires Field(s, key).Some?
    ensures Contains(s, Field(s, key).value)
  {
    GetMember(s.members, key);
  }

  lemma DroppedTame(k: nat, root: Json, m: Json)
    requires m.Obj? && Tame(k, root, m)
    ensures Tame(k, root, DropNullType(m))
  {
    var n := DropNullType(m);
    if n != m {
      var ts := Field(m, "type").value;
      var t := NonNullTypes(ts.elems)[0];
      FieldContained(m, "type");
      NonNullTypeIn(ts.elems, t);
      assert Bounded(k, root, ts) && Contains(ts, t);
      BoundedMore(k - 1, k, root, t);
      GetPut(m.members, "type", t, "$ref");
      forall c | Contains(n, c)
        ensures Bounded(k, root, c)
      {
        var e :| e in n.members && e.1 == c;
        PutMember(m.members, "type", t, e);
        assert e in m.members ==> Contains(m, c);
      }
    }
  }

  /** An alternative lies two containment edges below the schema. */
  lemma BranchTame(k: nat, root: Json, n: Json, key: string, b: Json)
    requires Tame(k, root, n) && Field(n, key).Some? && Field(n, key).value.Arr? && b in Field(n, key).value.elems
    ensures k >= 2 && Tame(k - 2, root, b)
  {
    FieldContained(n, key);
    GrandchildTame(k, root, Field(n, key).value, b);
  }

  lemma GrandchildTame(k: nat, root: Json, all: Json, b: Json)
    requires Bounded(k, root, all) && Contains(all, b)
    ensures k >= 2 && Tame(k - 2, root, b)
  {
    assert Bounded(k - 1, root, b);
  }

  lemma SoleBranchTame(k: nat, root: Json, n: Json)
    requires Tame(k, root, n) && SoleBranch(n).Some?
    ensures k >= 2 && SoleBranch(n).value.Obj? && Tame(k - 2, root, SoleBranch(n).value)
  {
    var key := if SoleBranchOf(n, "anyOf").Some? then "anyOf" else "oneOf";
    BranchIn(Field(n, key).value.elems, SoleBranch(n).value);
    BranchTame(k, root, n, key, SoleBranch(n).value);
  }

  /** One pass of normalising. */
  lemma PassTame(k: nat, root: Json, s: Json)
    requires s.Obj? && Tame(k, root, s)
    ensures var n := DropNullType(ResolveRef(s, root));
      && Tame(k, root, n)
      && (SoleBranch(n).Some? ==> k >= 2 && SoleBranch(n).value.Obj? && Tame(k - 2, root, SoleBranch(n).value))
  {
    ResolvedTame(k, root, s);
    DroppedTame(k, root, ResolveRef(s, root));
    var n := DropNullType(ResolveRef(s, root));
    if SoleBranch(n).Some? {
      SoleBranchTame(k, root, n);
    }
  }

  /** Normalising needs a frame for every two edges below the schema, and stays within the bound. */
  lemma {:induction false} NormalizeEnds(depth: nat, k: nat, s: Json, root: Json)
    requires Tame(k, root, s) && depth > k / 2
    ensures EndsTame(Normalize(depth, s, root), k, root)
    decreases k
  {
    if s.Obj? {
      PassTame(k, root, s);
      var n := DropNullType(ResolveRef(s, root));
      if SoleBranch(n).Some? {
        NormalizeEnds(depth - 1, k - 2, SoleBranch(n).value, root);
        EndsTameMore(Normalize(depth - 1, SoleBranch(n).value, root), k - 2, k, root);
      }
    }
  }

  /** Frames were enough, and the result, if any, is within the bound. */
  ghost predicate EndsTame(r: Outcome<Json>, k: nat, root: Json)
  {
    !r.TooDeep? && (r.Done? ==> Tame(k, root, r.value))
  }

  lemma EndsTameMore(r: Outcome<Json>, j: nat, k: nat, root: Json)
    requires EndsTame(r, j, root) && j <= k
    ensures EndsTame(r, k, root)
  {
    if r.Done? {
      TameMore(j, k, root, r.value);
    }
  }

  // ---- the extractor ----------------------------------------------------------------

  /** Frames enough for a schema bounded by `k`. */
  function Frames(k: nat): nat { 2 * k + 3 }

  lemma {:induction false} SchemaEnds(depth: nat, k: nat, source: Source, s: Json, root: Json, prefix: string)
    requires Tame(k, root, s) && depth >= Frames(k)
    ensures !ExtractSchema(depth, source, s, root, prefix).TooDeep?
    decreases k, 4, 0
  {
    NormalizeEnds(depth - 1, k, s, root);
    var normal := Normalize(depth - 1, s, root);
    if normal.Done? && Truthy(normal.value) {
      BranchesEnd(depth - 1, k, source, normal.value, root, prefix);
      TypedEnds(depth, k, source, normal.value, root, prefix);
    }
  }

  lemma {:induction false} TypedEnds(depth: nat, k: nat, source: Source, s: Json, root: Json, prefix: string)
    requires Tame(k, root, s) && depth >= Frames(k)
    ensures !ExtractTyped(depth, source, s, root, prefix).TooDeep?
    decreases k, 3, 0
  {
    ArrayEnds(depth - 1, k, source, s, root, prefix);
    match Field(s, "properties") {
      case Some(Obj(ps)) =>
        FieldContained(s, "properties");
        PropertiesEnd(depth, k, source, Obj(ps), ps, root, prefix);
      case _ =>
    }
  }

  lemma {:induction false} PropertiesEnd(depth: nat, k: nat, source: Source, all: Json, ps: Dict<string, Json>, root: Json, prefix: string)
    requires Bounded(k, root, all) && all.Obj? && (forall p | p in ps :: p in all.members) && depth >= Frames(k)
    ensures !ExtractProperties(depth, source, ps, root, prefix).TooDeep?
    decreases k, 0, |ps|
  {
    if ps != [] {
      PropertiesEnd(depth, k, source, all, ps[1..], root, prefix);
      assert ps[0] in all.members && Contains(all, ps[0].1);
      assert Bounded(k - 1, root, ps[0].1);
      SchemaEnds(depth - 1, k - 2, source, ps[0].1, root, MemberPath(prefix, ps[0].0));
    }
  }

  lemma {:induction false} ArrayEnds(depth: nat, k: nat, source: Source, s: Json, root: Json, prefix: string)
    requires Tame(k, root, s) && depth + 1 >= Frames(k)
    ensures !ExtractArray(depth, source, s, root, prefix).TooDeep?
    decreases k, 2, 0
  {
    match Field(s, "items") {
      case Some(Obj(ms)) =>
        FieldContained(s, "items");
        ItemsEnd(depth, k, source, Obj(ms), root, prefix);
      case _ =>
        match Field(s, "prefixItems") {
          case Some(Arr(es)) =>
            FieldContained(s, "prefixItems");
            PrefixItemsEnd(depth, k, source, Arr(es), es, 0, root, prefix);
          case _ =>
        }
    }
  }

  lemma {:induction false} PrefixItemsEnd(depth: nat, k: nat, source: Source, all: Json, es: seq<Json>, i: nat, root: Json, prefix: string)
    requires Bounded(k, root, all) && all == Arr(es) && depth + 1 >= Frames(k)
    ensures !ExtractPrefixItems(depth, source, es, i, root, prefix).TooDeep?
    decreases k, 0, |es| - i
  {
    if i < |es| {
      PrefixItemsEnd(depth, k, source, all, es, i + 1, root, prefix);
      assert Contains(all, es[i]);
      assert Bounded(k - 1, root, es[i]);
      SchemaEnds(depth - 1, k - 2, source, es[i], root, IndexPath(prefix, i));
    }
  }

  lemma {:induction false} ItemsEnd(depth: nat, k: nat, source: Source, items: Json, root: Json, prefix: string)
    requires Bounded(k, root, items) && depth + 1 >= Frames(k)
    ensures !ExtractItems(depth, source, items, root, prefix).TooDeep?
    decreases k, 1, 0
  {
    NormalizeEnds(depth - 1, k - 1, items, root);
    var normal := Normalize(depth - 1, items, root);
    if normal.Done? {
      NestedEnds(depth, k - 1, source, normal.value, root, WildPath(prefix));
      ScalarOrNested(depth, source, items, normal.value, root, prefix);
    }
  }

  lemma ScalarOrNested(depth: nat, source: Source, items: Json, s: Json, root: Json, prefix: string)
    requires depth > 0 && Normalize(depth - 1, items, root) == Done(s)
    requires !ExtractNested(depth, source, s, root, WildPath(prefix)).TooDeep?
    ensures !ExtractItems(depth, source, items, root, prefix).TooDeep?
  {
    assert ExtractItems(depth, source, items, root, prefix) == ExtractItem(depth, source, s, root, WildPath(prefix));
  }

  lemma {:induction false} NestedEnds(depth: nat, k: nat, source: Source, s: Json, root: Json, prefix: string)
    requires Tame(k, root, s) && depth >= Frames(k) + 1
    ensures !ExtractNested(depth, source, s, root, prefix).TooDeep?
    decreases k, 5, 0
  {
    NestedItemsEnd(depth, k, s, root);
    SchemaEnds(depth - 1, k, source, s, root, prefix);
  }

  lemma NestedItemsEnd(depth: nat, k: nat, s: Json, root: Json)
    requires Tame(k, root, s) && depth >= Frames(k) + 1
    ensures !NestedItems(depth, s, root).TooDeep?
  {
    var inner := OrEmpty(Field(s, "items"));
    if Field(s, "items").Some? && Truthy(Field(s, "items").value) {
      FieldContained(s, "items");
      NormalizeEnds(depth - 1, k - 1, inner, root);
    }
  }

  lemma {:induction false} BranchesEnd(depth: nat, k: nat, source: Source, s: Json, root: Json, prefix: string)
    requires Tame(k, root, s) && depth + 1 >= Frames(k)
    ensures !ExtractBranches(depth, source, s, root, prefix).TooDeep?
    decreases k, 2, 0
  {
    if BranchList(s).Some? {
      var key := if Field(s, "anyOf").Some? && Field(s, "anyOf").value.Arr? then "anyOf" else "oneOf";
      FieldContained(s, key);
      EachEnds(depth, k, source, Field(s, key).value, BranchList(s).value, root, prefix, []);
    }
  }

  lemma {:induction false} EachEnds(depth: nat, k: nat, source: Source, all: Json, bs: seq<Json>, root: Json, prefix: string, fields: FieldDict)
    requires Bounded(k, root, all) && all.Arr? && (forall b | b in bs :: b in all.elems) && depth + 1 >= Frames(k)
    ensures !ExtractEach(depth, source, bs, root, prefix, fields).TooDeep?
    decreases k, 0, |bs|
  {
    if bs != [] {
      if !bs[0].Obj? || IsNullSchema(bs[0]) {
        EachEnds(depth, k, source, all, bs[1..], root, prefix, fields);
      } else {
        assert Contains(all, bs[0]);
        assert Bounded(k - 1, root, bs[0]);
        SchemaEnds(depth - 1, k - 2, source, bs[0], root, prefix);
        var here := ExtractSchema(depth - 1, source, bs[0], root, prefix);
        if here.Done? {
          EachEnds(depth, k, source, all, bs[1..], root, prefix, Merge(fields, Keyed(here.value)));
        }
      }
    }
  }

  /** Extraction ends within the recursion limit on every pair of documents without reference
      cycles, given two frames for every edge of a longest path and four more. */
  lemma ExtractionEnds(depth: nat, k: nat, inputSchema: Json, outputSchema: Json)
    requires Bounded(k, RootOf(inputSchema), RootOf(inputSchema)) && Bounded(k, RootOf(outputSchema), RootOf(outputSchema))
    requires depth >= 2 * k + 1
    ensures !ExtractPlotFields(depth, inputSchema, outputSchema).TooDeep?
  {
    var input, output := RootOf(inputSchema), RootOf(outputSchema);
    SchemaEnds(depth, k - 1, Input, input, input, "");
    SchemaEnds(depth, k - 1, Output, output, output, "");
  }
}
