/** The walk the extractor makes through a document: which call leads to which, whatever the
    interpreter's limits are. */
module ExtractionVisits {
  import opened FiniteGraphs
  import opened Json
  import opened OrderedDict
  import opened PlotFields
  import opened SchemaFragment

  /** A call of the extractor: reading a schema, `top` while the path is still empty, or normalising one. */
  datatype Visit = Read(schema: Json, top: bool) | Normal(schema: Json)

  /** One pass of normalising a dictionary. */
  function Pass(x: Json, root: Json): Json
    requires x.Obj?
  {
    DropNullType(ResolveRef(x, root))
  }

  /** `n` is what normalising `x` gives, with frames enough. */
  ghost predicate IsNormal(root: Json, x: Json, n: Json)
  {
    exists d: nat :: Normalize(d, x, root) == Done(n)
  }

  /** `a` calls `b`. */
  ghost predicate Calls(root: Json, a: Visit, b: Visit)
  {
    match a
    case Normal(x) => x.Obj? && SoleBranch(Pass(x, root)).Some? && b == Normal(SoleBranch(Pass(x, root)).value)
    case Read(x, top) => b == Normal(x) || exists n :: IsNormal(root, x, n) && ReadsFrom(root, n, top, b)
  }

  /** What reading goes on to from a normalised schema: its alternatives, or what its type says. */
  ghost predicate ReadsFrom(root: Json, n: Json, top: bool, b: Visit)
  {
    Truthy(n) && match BranchList(n)
                 case Some(bs) => b.Read? && b.top == top && b.schema in bs && b.schema.Obj? && !IsNullSchema(b.schema)
                 case None => TypedReads(root, n, top, b)
  }

  ghost predicate TypedReads(root: Json, n: Json, top: bool, b: Visit)
  {
    if !top && IsScalar(SchemaType(n)) then false
    else if !top && SchemaType(n) == Some("array") then ArrayReads(root, n, b)
    else exists p :: p in PropertiesOf(n) && p.1.Obj? && b == Read(p.1, top && p.0 == "")
  }

  /** Items when they are a dictionary, tuple positions otherwise. */
  ghost predicate ArrayReads(root: Json, n: Json, b: Visit)
  {
    match Field(n, "items")
    case Some(Obj(ms)) => ItemReads(root, Obj(ms), b)
    case _ => b.Read? && !b.top && b.schema in ElementsAt(n, "prefixItems") && b.schema.Obj?
  }

  ghost predicate ItemReads(root: Json, items: Json, b: Visit)
  {
    b == Normal(items) || exists s :: IsNormal(root, items, s) && !IsScalar(SchemaType(s)) && NestedReads(root, s, b)
  }

  /** For items that are arrays, the schema of their items is normalised first. */
  ghost predicate NestedReads(root: Json, s: Json, b: Visit)
  {
    || (SchemaType(s) == Some("array") && b == Normal(Inner(s)))
    || (b == Read(s, false) && !ScalarInside(root, s))
  }

  function Inner(s: Json): Json { OrEmpty(Field(s, "items")) }

  ghost predicate ScalarInside(root: Json, s: Json)
  {
    SchemaType(s) == Some("array") && exists u :: IsNormal(root, Inner(s), u) && IsScalar(SchemaType(u))
  }

  ghost function Visits(root: Json): Graph<Visit>
  {
    iset a, b | Calls(root, a, b) :: (a, b)
  }

  /** Normalising anything but a dictionary raises. */
  predicate Raises(a: Visit) { a.Normal? && !a.schema.Obj? }

  // ---- how calls end ----------------------------------------------------------------

  datatype Ending = Finished | Exhausted | Raised

  function EndingOf<T>(r: Outcome<T>): Ending
  {
    match r
    case Done(_) => Finished
    case TooDeep => Exhausted
    case Fault => Raised
  }

  /** With `e` frames left, the call can end so. */
  ghost predicate Ends(root: Json, b: Visit, e: nat, how: Ending)
  {
    match b
    case Normal(x) => EndingOf(Normalize(e, x, root)) == how
    case Read(x, top) => exists source, prefix :: ReadEnds(root, x, top, e, how, source, prefix)
  }

  ghost predicate ReadEnds(root: Json, x: Json, top: bool, e: nat, how: Ending, source: Source, prefix: string)
  {
    (prefix == "") == top && EndingOf(ExtractSchema(e, source, x, root, prefix)) == how
  }

  // ---- normal forms do not depend on the frames -------------------------------------

  lemma {:induction false} NormalizeSame(d: nat, e: nat, x: Json, root: Json)
    requires Normalize(d, x, root).Done? && Normalize(e, x, root).Done?
    ensures Normalize(d, x, root) == Normalize(e, x, root)
  {
    if SoleBranch(Pass(x, root)).Some? {
      NormalizeSame(d - 1, e - 1, SoleBranch(Pass(x, root)).value, root);
    }
  }

  lemma NormalIs(d: nat, x: Json, root: Json, n: Json)
    requires Normalize(d, x, root).Done? && IsNormal(root, x, n)
    ensures Normalize(d, x, root) == Done(n)
  {
    var e: nat :| Normalize(e, x, root) == Done(n);
    NormalizeSame(d, e, x, root);
  }

  // ---- a call that fails does so in a call it makes ---------------------------------

  /** The call `b` fails as `how` with no more than two frames less than `d`. */
  ghost predicate FailsIn(root: Json, b: Visit, d: nat, how: Ending)
  {
    exists e: nat :: e < d <= e + 2 && Ends(root, b, e, how)
  }

  lemma FailsByNormal(root: Json, x: Json, d: nat, e: nat)
    requires e < d <= e + 2
    ensures FailsIn(root, Normal(x), d, EndingOf(Normalize(e, x, root)))
  {
    assert Ends(root, Normal(x), e, EndingOf(Normalize(e, x, root)));
  }

  lemma FailsByRead(root: Json, x: Json, d: nat, e: nat, source: Source, prefix: string)
    requires e < d <= e + 2
    ensures FailsIn(root, Read(x, prefix == ""), d, EndingOf(ExtractSchema(e, source, x, root, prefix)))
  {
    assert ReadEnds(root, x, prefix == "", e, EndingOf(ExtractSchema(e, source, x, root, prefix)), source, prefix);
    assert Ends(root, Read(x, prefix == ""), e, EndingOf(ExtractSchema(e, source, x, root, prefix)));
  }

  lemma {:induction false} EachFails(d: nat, source: Source, bs: seq<Json>, root: Json, prefix: string, fields: FieldDict) returns (b: Json)
    requires d > 1 && !ExtractEach(d - 1, source, bs, root, prefix, fields).Done?
    ensures b in bs && b.Obj? && !IsNullSchema(b)
    ensures FailsIn(root, Read(b, prefix == ""), d, EndingOf(ExtractEach(d - 1, source, bs, root, prefix, fields)))
    decreases |bs|
  {
    if !bs[0].Obj? || IsNullSchema(bs[0]) {
      b := EachFails(d, source, bs[1..], root, prefix, fields);
    } else {
      var here := ExtractSchema(d - 2, source, bs[0], root, prefix);
      if here.Done? {
        b := EachFails(d, source, bs[1..], root, prefix, Merge(fields, Keyed(here.value)));
      } else {
        b := bs[0];
        FailsByRead(root, b, d, d - 2, source, prefix);
      }
    }
  }

  lemma {:induction false} PropertiesFail(d: nat, source: Source, ps: Dict<string, Json>, root: Json, prefix: string) returns (p: (string, Json))
    requires d > 0 && !ExtractProperties(d, source, ps, root, prefix).Done?
    ensures p in ps && p.1.Obj?
    ensures FailsIn(root, Read(p.1, prefix == "" && p.0 == ""), d, EndingOf(ExtractProperties(d, source, ps, root, prefix)))
    decreases |ps|
  {
    if !ps[0].1.Obj? {
      p := PropertiesFail(d, source, ps[1..], root, prefix);
    } else if ExtractSchema(d - 1, source, ps[0].1, root, MemberPath(prefix, ps[0].0)).Done? {
      p := PropertiesFail(d, source, ps[1..], root, prefix);
    } else {
      p := ps[0];
      FailsByRead(root, p.1, d, d - 1, source, MemberPath(prefix, p.0));
    }
  }

  lemma {:induction false} PrefixItemsFail(d: nat, source: Source, es: seq<Json>, i: nat, root: Json, prefix: string) returns (x: Json)
    requires d > 1 && !ExtractPrefixItems(d - 1, source, es, i, root, prefix).Done?
    ensures x in es && x.Obj?
    ensures FailsIn(root, Read(x, false), d, EndingOf(ExtractPrefixItems(d - 1, source, es, i, root, prefix)))
    decreases |es| - i
  {
    if !es[i].Obj? {
      x := PrefixItemsFail(d, source, es, i + 1, root, prefix);
    } else if ExtractSchema(d - 2, source, es[i], root, IndexPath(prefix, i)).Done? {
      x := PrefixItemsFail(d, source, es, i + 1, root, prefix);
    } else {
      x := es[i];
      FailsByRead(root, x, d, d - 2, source, IndexPath(prefix, i));
    }
  }

  lemma NestedFails(d: nat, source: Source, s: Json, root: Json, prefix: string) returns (b: Visit)
    requires d > 1 && prefix != "" && !ExtractNested(d - 1, source, s, root, prefix).Done?
    ensures NestedReads(root, s, b)
    ensures FailsIn(root, b, d, EndingOf(ExtractNested(d - 1, source, s, root, prefix)))
  {
    if NestedItems(d - 1, s, root).Done? {
      b := Read(s, false);
      NestedReadFails(d, source, s, root, prefix);
    } else {
      b := Normal(Inner(s));
      NestedNormalFails(d, source, s, root, prefix);
    }
  }

  lemma NestedNormalFails(d: nat, source: Source, s: Json, root: Json, prefix: string)
    requires d > 1 && !NestedItems(d - 1, s, root).Done?
    ensures SchemaType(s) == Some("array")
    ensures FailsIn(root, Normal(Inner(s)), d, EndingOf(ExtractNested(d - 1, source, s, root, prefix)))
  {
    FailsByNormal(root, Inner(s), d, d - 2);
  }

  lemma NestedReadFails(d: nat, source: Source, s: Json, root: Json, prefix: string)
    requires d > 1 && prefix != "" && !ExtractNested(d - 1, source, s, root, prefix).Done? && NestedItems(d - 1, s, root).Done?
    ensures !ScalarInside(root, s)
    ensures FailsIn(root, Read(s, false), d, EndingOf(ExtractNested(d - 1, source, s, root, prefix)))
  {
    NotNested(d - 1, source, s, root, prefix);
    FailsByRead(root, s, d, d - 2, source, prefix);
  }

  lemma NotNested(d: nat, source: Source, s: Json, root: Json, prefix: string)
    requires d > 0 && !ExtractNested(d, source, s, root, prefix).Done? && NestedItems(d, s, root).Done?
    ensures !ScalarInside(root, s)
    ensures ExtractNested(d, source, s, root, prefix) == ExtractSchema(d - 1, source, s, root, prefix)
  {
    NotScalarInside(d, s, root);
  }

  lemma NotScalarInside(d: nat, s: Json, root: Json)
    requires d > 0 && NestedItems(d, s, root).Done? && !IsScalar(SchemaType(NestedItems(d, s, root).value))
    ensures !ScalarInside(root, s)
  {
    if SchemaType(s) == Some("array") {
      forall u | IsNormal(root, Inner(s), u)
        ensures !IsScalar(SchemaType(u))
      {
        NormalIs(d - 1, Inner(s), root, u);
      }
    }
  }

  lemma ArrayFails(d: nat, source: Source, n: Json, root: Json, prefix: string) returns (b: Visit)
    requires d > 1 && prefix != "" && !ExtractArray(d - 1, source, n, root, prefix).Done?
    ensures ArrayReads(root, n, b)
    ensures FailsIn(root, b, d, EndingOf(ExtractArray(d - 1, source, n, root, prefix)))
  {
    match Field(n, "items") {
      case Some(Obj(ms)) =>
        b := ItemsFail(d, source, Obj(ms), root, prefix);
      case _ =>
        var x := PrefixItemsFail(d, source, ElementsAt(n, "prefixItems"), 0, root, prefix);
        b := Read(x, false);
    }
  }

  lemma ItemsFail(d: nat, source: Source, items: Json, root: Json, prefix: string) returns (b: Visit)
    requires d > 1 && prefix != "" && !ExtractItems(d - 1, source, items, root, prefix).Done?
    ensures ItemReads(root, items, b)
    ensures FailsIn(root, b, d, EndingOf(ExtractItems(d - 1, source, items, root, prefix)))
  {
    var normal := Normalize(d - 2, items, root);
    if !normal.Done? {
      b := Normal(items);
      FailsByNormal(root, items, d, d - 2);
    } else {
      var s := normal.value;
      assert IsNormal(root, items, s);
      assert ExtractItems(d - 1, source, items, root, prefix) == ExtractItem(d - 1, source, s, root, WildPath(prefix));
      b := NestedFails(d, source, s, root, WildPath(prefix));
    }
  }

  lemma TypedFails(d: nat, source: Source, n: Json, root: Json, prefix: string) returns (b: Visit)
    requires d > 1 && !ExtractTyped(d, source, n, root, prefix).Done?
    ensures TypedReads(root, n, prefix == "", b)
    ensures FailsIn(root, b, d, EndingOf(ExtractTyped(d, source, n, root, prefix)))
  {
    if prefix != "" && SchemaType(n) == Some("array") {
      b := ArrayFails(d, source, n, root, prefix);
    } else {
      var p := PropertiesFail(d, source, PropertiesOf(n), root, prefix);
      b := Read(p.1, prefix == "" && p.0 == "");
    }
  }

  /** Reading a schema fails because normalising it fails, or because one of the reads it goes on to
      fails, and in the same way. */
  lemma SchemaFails(d: nat, source: Source, x: Json, root: Json, prefix: string) returns (b: Visit)
    requires d > 0 && !ExtractSchema(d, source, x, root, prefix).Done?
    ensures Calls(root, Read(x, prefix == ""), b)
    ensures FailsIn(root, b, d, EndingOf(ExtractSchema(d, source, x, root, prefix)))
  {
    var normal := Normalize(d - 1, x, root);
    if !normal.Done? {
      b := Normal(x);
      FailsByNormal(root, x, d, d - 1);
    } else {
      var n := normal.value;
      assert IsNormal(root, x, n);
      b := NormalFails(d, source, n, root, prefix);
    }
  }

  lemma NormalFails(d: nat, source: Source, n: Json, root: Json, prefix: string) returns (b: Visit)
    requires d > 1 && Truthy(n) && !ExtractNormal(d, source, n, root, prefix).Done?
    ensures ReadsFrom(root, n, prefix == "", b)
    ensures FailsIn(root, b, d, EndingOf(ExtractNormal(d, source, n, root, prefix)))
  {
    if BranchList(n).Some? {
      var x := EachFails(d, source, BranchList(n).value, root, prefix, []);
      b := Read(x, prefix == "");
    } else {
      assert ExtractBranches(d - 1, source, n, root, prefix) == Done(None);
      b := TypedFails(d, source, n, root, prefix);
    }
  }

  // ---- a call that finishes has finished all calls it makes -------------------------

  ghost predicate FinishesBelow(root: Json, b: Visit, d: nat)
  {
    exists e: nat :: e < d && Ends(root, b, e, Finished)
  }

  lemma FinishedNormal(root: Json, x: Json, d: nat, e: nat)
    requires e < d && Normalize(e, x, root).Done?
    ensures FinishesBelow(root, Normal(x), d)
  {
    assert Ends(root, Normal(x), e, Finished);
  }

  lemma FinishedRead(root: Json, x: Json, d: nat, e: nat, source: Source, prefix: string)
    requires e < d && ExtractSchema(e, source, x, root, prefix).Done?
    ensures FinishesBelow(root, Read(x, prefix == ""), d)
  {
    assert ReadEnds(root, x, prefix == "", e, Finished, source, prefix);
    assert Ends(root, Read(x, prefix == ""), e, Finished);
  }

  lemma {:induction false} EachFinishes(d: nat, source: Source, bs: seq<Json>, root: Json, prefix: string, fields: FieldDict, b: Json)
    requires d > 1 && ExtractEach(d - 1, source, bs, root, prefix, fields).Done?
    requires b in bs && b.Obj? && !IsNullSchema(b)
    ensures FinishesBelow(root, Read(b, prefix == ""), d)
    decreases |bs|
  {
    if bs[0] == b {
      FinishedRead(root, b, d, d - 2, source, prefix);
    } else if !bs[0].Obj? || IsNullSchema(bs[0]) {
      EachFinishes(d, source, bs[1..], root, prefix, fields, b);
    } else {
      var here := ExtractSchema(d - 2, source, bs[0], root, prefix);
      EachFinishes(d, source, bs[1..], root, prefix, Merge(fields, Keyed(here.value)), b);
    }
  }

  lemma {:induction false} PropertiesFinish(d: nat, source: Source, ps: Dict<string, Json>, root: Json, prefix: string, p: (string, Json))
    requires d > 0 && ExtractProperties(d, source, ps, root, prefix).Done? && p in ps && p.1.Obj?
    ensures FinishesBelow(root, Read(p.1, prefix == "" && p.0 == ""), d)
    decreases |ps|
  {
    if ps[0] == p {
      FinishedRead(root, p.1, d, d - 1, source, MemberPath(prefix, p.0));
    } else {
      PropertiesFinish(d, source, ps[1..], root, prefix, p);
    }
  }

  lemma {:induction false} PrefixItemsFinish(d: nat, source: Source, es: seq<Json>, i: nat, root: Json, prefix: string, k: nat)
    requires d > 1 && ExtractPrefixItems(d - 1, source, es, i, root, prefix).Done? && i <= k < |es| && es[k].Obj?
    ensures FinishesBelow(root, Read(es[k], false), d)
    decreases |es| - i
  {
    if i == k {
      FinishedRead(root, es[k], d, d - 2, source, IndexPath(prefix, i));
    } else {
      PrefixItemsFinish(d, source, es, i + 1, root, prefix, k);
    }
  }

  lemma NestedFinishes(d: nat, source: Source, s: Json, root: Json, prefix: string, b: Visit)
    requires d > 1 && prefix != "" && ExtractNested(d - 1, source, s, root, prefix).Done? && NestedReads(root, s, b)
    ensures FinishesBelow(root, b, d)
  {
    if b.Normal? {
      NestedNormalFinishes(d, source, s, root, prefix);
    } else {
      NestedReadFinishes(d, source, s, root, prefix);
    }
  }

  lemma NestedReadFinishes(d: nat, source: Source, s: Json, root: Json, prefix: string)
    requires d > 1 && prefix != "" && ExtractNested(d - 1, source, s, root, prefix).Done? && !ScalarInside(root, s)
    ensures FinishesBelow(root, Read(s, false), d)
  {
    NestedRead(d - 1, source, s, root, prefix);
    FinishedRead(root, s, d, d - 2, source, prefix);
  }

  lemma NestedNormalFinishes(d: nat, source: Source, s: Json, root: Json, prefix: string)
    requires d > 1 && ExtractNested(d - 1, source, s, root, prefix).Done? && SchemaType(s) == Some("array")
    ensures FinishesBelow(root, Normal(Inner(s)), d)
  {
    assert NestedItems(d - 1, s, root).Done?;
    FinishedNormal(root, Inner(s), d, d - 2);
  }

  lemma NestedRead(d: nat, source: Source, s: Json, root: Json, prefix: string)
    requires d > 0 && ExtractNested(d, source, s, root, prefix).Done? && !ScalarInside(root, s)
    ensures ExtractSchema(d - 1, source, s, root, prefix).Done?
  {
    assert NestedItems(d, s, root).Done?;
    NotScalarIn(d, s, root);
  }

  lemma NotScalarIn(d: nat, s: Json, root: Json)
    requires d > 0 && NestedItems(d, s, root).Done? && !ScalarInside(root, s)
    ensures !IsScalar(SchemaType(NestedItems(d, s, root).value))
  {
    if SchemaType(s) == Some("array") {
      assert IsNormal(root, Inner(s), NestedItems(d, s, root).value);
    }
  }

  lemma ItemsFinish(d: nat, source: Source, items: Json, root: Json, prefix: string, b: Visit)
    requires d > 1 && prefix != "" && ExtractItems(d - 1, source, items, root, prefix).Done? && ItemReads(root, items, b)
    ensures FinishesBelow(root, b, d)
  {
    if b == Normal(items) {
      FinishedNormal(root, items, d, d - 2);
    } else {
      var s :| IsNormal(root, items, s) && !IsScalar(SchemaType(s)) && NestedReads(root, s, b);
      ItemRead(d - 1, source, items, s, root, prefix);
      NestedFinishes(d, source, s, root, WildPath(prefix), b);
    }
  }

  lemma ItemRead(d: nat, source: Source, items: Json, s: Json, root: Json, prefix: string)
    requires d > 0 && ExtractItems(d, source, items, root, prefix).Done?
    requires IsNormal(root, items, s) && !IsScalar(SchemaType(s))
    ensures ExtractNested(d, source, s, root, WildPath(prefix)).Done?
  {
    NormalIs(d - 1, items, root, s);
    assert ExtractItems(d, source, items, root, prefix) == ExtractItem(d, source, s, root, WildPath(prefix));
  }

  lemma ArrayFinishes(d: nat, source: Source, n: Json, root: Json, prefix: string, b: Visit)
    requires d > 1 && prefix != "" && ExtractArray(d - 1, source, n, root, prefix).Done? && ArrayReads(root, n, b)
    ensures FinishesBelow(root, b, d)
  {
    match Field(n, "items") {
      case Some(Obj(ms)) =>
        ItemsFinish(d, source, Obj(ms), root, prefix, b);
      case _ =>
        var es := ElementsAt(n, "prefixItems");
        var k :| 0 <= k < |es| && es[k] == b.schema;
        PrefixItemsFinish(d, source, es, 0, root, prefix, k);
    }
  }

  lemma TypedFinishes(d: nat, source: Source, n: Json, root: Json, prefix: string, b: Visit)
    requires d > 1 && ExtractTyped(d, source, n, root, prefix).Done? && TypedReads(root, n, prefix == "", b)
    ensures FinishesBelow(root, b, d)
  {
    if prefix != "" && SchemaType(n) == Some("array") {
      ArrayFinishes(d, source, n, root, prefix, b);
    } else {
      var p :| p in PropertiesOf(n) && p.1.Obj? && b == Read(p.1, prefix == "" && p.0 == "");
      PropertiesFinish(d, source, PropertiesOf(n), root, prefix, p);
    }
  }

  lemma NormalFinishes(d: nat, source: Source, n: Json, root: Json, prefix: string, b: Visit)
    requires d > 1 && ExtractNormal(d, source, n, root, prefix).Done? && ReadsFrom(root, n, prefix == "", b)
    ensures FinishesBelow(root, b, d)
  {
    if BranchList(n).Some? {
      EachFinishes(d, source, BranchList(n).value, root, prefix, [], b.schema);
    } else {
      assert ExtractBranches(d - 1, source, n, root, prefix) == Done(None);
      TypedFinishes(d, source, n, root, prefix, b);
    }
  }

  /** Reading a schema finishes only after every call it makes has finished. */
  lemma SchemaFinishes(d: nat, source: Source, x: Json, root: Json, prefix: string, b: Visit)
    requires ExtractSchema(d, source, x, root, prefix).Done? && Calls(root, Read(x, prefix == ""), b)
    ensures FinishesBelow(root, b, d)
  {
    if b == Normal(x) {
      FinishedNormal(root, x, d, d - 1);
    } else {
      var n :| IsNormal(root, x, n) && ReadsFrom(root, n, prefix == "", b);
      NormalIs(d - 1, x, root, n);
      NormalFinishes(d, source, n, root, prefix, b);
    }
  }
}
