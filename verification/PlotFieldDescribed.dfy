/** Positions a schema describes, and whose way meets the coverage conditions, are walked to and so
    get a field. */
module PlotFieldDescribed {
  import opened ExtractionVisits
  import opened OrderedDict
  import opened Json
  import opened LaxPath
  import opened PlotFields
  import opened PlotFieldSoundness
  import opened PlotFieldCoverage
  import opened PlotFieldCovers
  import opened PlotFieldWalk
  import opened SchemaFragment

  /** A described position with the coverage conditions met on its way. */
  ghost predicate Promised(root: Json, schema: Json, loc: seq<Step>, t: string)
  {
    InFragment(root, schema) && InCover(root, schema, loc) && Describes(root, schema, loc, t)
  }

  /** Such a position stays one for the normal form, which is then read by its type. */
  lemma PromisedNormal(root: Json, schema: Json, loc: seq<Step>, t: string) returns (n: Json)
    requires Promised(root, schema, loc, t)
    ensures IsNormal(root, schema, n) && Coverable(root, n, loc) && Describes(root, n, loc, t)
    ensures Truthy(n) && BranchList(n).None?
  {
    var k: nat :| DescribesIn(k, root, schema, loc, t);
    var depth := DescribedNormal(k, schema, root, loc, t);
    n := Normalize(depth, schema, root).value;
    NormalizeCoverable(depth, schema, root, loc);
    DescribedType(root, n, loc, t);
  }

  /** Every described position whose way meets the coverage conditions is walked to. */
  lemma {:induction false} DescribedWalked(root: Json, schema: Json, top: bool, loc: seq<Step>, t: string)
    requires Promised(root, schema, loc, t) && (top ==> loc != [] && loc[0].Member?)
    ensures Walked(root, schema, top, loc, t)
    decreases |loc|, 2
  {
    var n := PromisedNormal(root, schema, loc, t);
    DescribedKept(root, n, top, loc, t);
  }

  lemma {:induction false} DescribedKept(root: Json, n: Json, top: bool, loc: seq<Step>, t: string)
    requires Coverable(root, n, loc) && Describes(root, n, loc, t) && (top ==> loc != [] && loc[0].Member?)
    ensures Kept(root, n, top, loc, t)
    decreases |loc|, 1
  {
    DescribedType(root, n, loc, t);
    if loc != [] {
      if loc[0].Member? {
        var p :| PropertyDescribes(root, n, p, loc, t);
        DescribedProperty(root, n, p, top, loc, t);
      } else {
        DescribedArray(root, n, loc, t);
      }
    }
  }

  lemma {:induction false} DescribedProperty(root: Json, n: Json, p: (string, Json), top: bool, loc: seq<Step>, t: string)
    requires Coverable(root, n, loc) && PropertyDescribes(root, n, p, loc, t)
    ensures KeptByProperty(root, PropertiesOf(n), top, loc, t)
    decreases |loc|, 0
  {
    PropertyReady(root, n, p, []);
    ChildCover(root, n, loc, p.1);
    DescribedWalked(root, p.1, false, loc[1..], t);
    assert PropertyWalked(root, p, top, loc, t);
  }

  lemma {:induction false} DescribedArray(root: Json, n: Json, loc: seq<Step>, t: string)
    requires Coverable(root, n, loc) && (ItemsDescribe(root, n, loc, t) || PrefixItemDescribes(root, n, loc, t))
    ensures KeptByArray(root, n, loc, t)
    decreases |loc|, 0
  {
    ReadyShape(root, n);
    if ItemsDescribe(root, n, loc, t) {
      var items := Field(n, "items").value;
      ReadyChild(root, n, items);
      ChildCover(root, n, loc, items);
      DescribedItems(root, items, loc[1..], t);
    } else {
      var e := ElementsAt(n, "prefixItems")[loc[0].i];
      PrefixItemReady(root, n, loc[0].i, []);
      ChildCover(root, n, loc, e);
      DescribedWalked(root, e, false, loc[1..], t);
    }
  }

  lemma {:induction false} DescribedItems(root: Json, items: Json, loc: seq<Step>, t: string)
    requires Promised(root, items, loc, t)
    ensures KeptByItems(root, items, loc, t)
    decreases |loc|, 4
  {
    var s := PromisedNormal(root, items, loc, t);
    DescribedType(root, s, loc, t);
    if !IsScalar(SchemaType(s)) {
      if ScalarInside(root, s) {
        DescribedInner(root, s, loc, t);
      } else {
        DescribedWalked(root, s, false, loc, t);
      }
    }
    assert KeptItem(root, s, loc, t);
  }

  /** The items of the inner arrays are scalars, so nothing lies deeper. */
  lemma DescribedInner(root: Json, s: Json, loc: seq<Step>, t: string)
    requires Coverable(root, s, loc) && Describes(root, s, loc, t) && ScalarInside(root, s) && loc != []
    ensures KeptInner(root, s, loc, t)
  {
    DescribedType(root, s, loc, t);
    ReadyShape(root, s);
    var u :| IsNormal(root, Inner(s), u) && IsScalar(SchemaType(u));
    InnerDescribed(root, s, u, loc, t);
    var inner := Inner(s);
    ReadyChild(root, s, inner);
    ChildCover(root, s, loc, inner);
    var n := PromisedNormal(root, inner, loc[1..], t);
    var d: nat :| Normalize(d, inner, root) == Done(n);
    NormalIs(d, inner, root, u);
    ScalarDescribes(root, n, loc[1..], t);
  }

  /** With a scalar inside, `items` is there, and it is what describes the position. */
  lemma InnerDescribed(root: Json, s: Json, u: Json, loc: seq<Step>, t: string)
    requires ShapeOk(s, root) && (ItemsDescribe(root, s, loc, t) || PrefixItemDescribes(root, s, loc, t))
    requires IsNormal(root, Inner(s), u) && IsScalar(SchemaType(u))
    ensures Field(s, "items") == Some(Inner(s)) && ItemsDescribe(root, s, loc, t)
  {
    var d: nat :| Normalize(d, Inner(s), root) == Done(u);
    EmptyStays(d, root);
  }

  /** So every described position whose way meets the conditions gets a field of its type. */
  lemma SchemaCovers(depth: nat, source: Source, schema: Json, root: Json, pre: seq<Step>, loc: seq<Step>, t: string)
    requires InFragment(root, schema) && InCover(root, schema, loc) && Clean(pre)
    requires ExtractSchema(depth, source, schema, root, Print(pre)).Done?
    requires Describes(root, schema, loc, t) && (pre != [] || (loc != [] && loc[0].Member?))
    ensures Covers(ExtractSchema(depth, source, schema, root, Print(pre)).value, pre, loc, t)
  {
    DescribedWalked(root, schema, pre == [], loc, t);
    SchemaWalked(depth, source, schema, root, pre, ExtractSchema(depth, source, schema, root, Print(pre)).value, loc, t);
  }
}
