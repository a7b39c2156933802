/** The extractor finishes documents whose graph of containment and reference edges has no cycle. */
module SchemaCycles {
  import opened FiniteGraphs
  import opened OrderedDict
  import opened Text
  import opened Json
  import opened PlotFields
  import opened SchemaTermination

  /** All values inside a document, the document included. */
  function Nodes(x: Json): set<Json>
  {
    match x
    case Obj(ms) => {x} + set i, n | 0 <= i < |ms| && n in Nodes(ms[i].1) :: n
    case Arr(es) => {x} + set i, n | 0 <= i < |es| && n in Nodes(es[i]) :: n
    case _ => {x}
  }

  predicate Edge(root: Json, x: Json, c: Json)
  {
    Contains(x, c) || RefTarget(x, root) == Some(c)
  }

  ghost function Edges(root: Json): Graph<Json>
  {
    iset x, c | Edge(root, x, c) :: (x, c)
  }

  ghost predicate Acyclic(root: Json)
  {
    forall x | x in Nodes(root) :: !OnCycle(Edges(root), x)
  }

  // ---- the nodes are closed under edges ---------------------------------------------

  lemma {:induction false} ContainsStays(x: Json, n: Json, c: Json)
    requires n in Nodes(x) && Contains(n, c)
    ensures c in Nodes(x)
    decreases x
  {
    match x {
      case Obj(ms) =>
        if n == x {
          var m :| m in ms && m.1 == c;
          SelfNode(c);
        } else {
          var i :| 0 <= i < |ms| && n in Nodes(ms[i].1);
          ContainsStays(ms[i].1, n, c);
        }
      case Arr(es) =>
        if n == x {
          SelfNode(c);
        } else {
          var i :| 0 <= i < |es| && n in Nodes(es[i]);
          ContainsStays(es[i], n, c);
        }
      case _ =>
    }
  }

  lemma SelfNode(x: Json)
    ensures x in Nodes(x)
  {
  }

  lemma {:induction false} WalkStays(root: Json, node: Json, tokens: seq<string>)
    requires node in Nodes(root)
    ensures Walk(node, tokens).Some? ==> Walk(node, tokens).value in Nodes(root)
    decreases |tokens|
  {
    if tokens != [] {
      var key := Unescape(tokens[0]);
      if Field(node, key).Some? {
        FieldContained(node, key);
        ContainsStays(root, node, Field(node, key).value);
        WalkStays(root, Field(node, key).value, tokens[1..]);
      }
    }
  }

  lemma EdgeStays(root: Json, x: Json, c: Json)
    requires x in Nodes(root) && Edge(root, x, c)
    ensures c in Nodes(root)
  {
    if Contains(x, c) {
      ContainsStays(root, x, c);
    } else {
      SelfNode(root);
      WalkStays(root, root, Split(Field(x, "$ref").value.s[2..], '/'));
    }
  }

  // ---- no cycle, no long path -------------------------------------------------------

  lemma {:induction false} ShortBounded(k: nat, root: Json, x: Json)
    requires Short(k, Edges(root), x)
    ensures Bounded(k, root, x)
  {
    forall c | Edge(root, x, c)
      ensures Bounded(k - 1, root, c)
    {
      assert (x, c) in Edges(root);
      ShortBounded(k - 1, root, c);
    }
    BoundedByEdges(k, root, x);
  }

  lemma BoundedByEdges(k: nat, root: Json, x: Json)
    requires k > 0 && forall c | Edge(root, x, c) :: Bounded(k - 1, root, c)
    ensures Bounded(k, root, x)
  {
    forall c | Contains(x, c)
      ensures Bounded(k - 1, root, c)
    {
      assert Edge(root, x, c);
    }
    if RefTarget(x, root).Some? {
      assert Edge(root, x, RefTarget(x, root).value);
    }
  }

  lemma {:induction false} ReachesNode(n: nat, root: Json, x: Json, y: Json)
    requires x in Nodes(root) && Reaches(n, Edges(root), x, y)
    ensures y in Nodes(root)
  {
    if n > 0 {
      var c :| Via(n, Edges(root), x, c, y);
      EdgeStays(root, x, c);
      ReachesNode(n - 1, root, c, y);
    }
  }

  /** In a document without cycles every path is shorter than the number of distinct values. */
  lemma AcyclicBounded(root: Json)
    requires Acyclic(root)
    ensures Bounded(|Nodes(root)|, root, root)
  {
    SelfNode(root);
    forall x, c | x in Nodes(root) && (x, c) in Edges(root)
      ensures c in Nodes(root)
    {
      EdgeStays(root, x, c);
    }
    forall y | Reachable(Edges(root), root, y)
      ensures !OnCycle(Edges(root), y)
    {
      var n: nat :| Reaches(n, Edges(root), root, y);
      ReachesNode(n, root, root, y);
    }
    NoCycleIsShort(Edges(root), Nodes(root), root);
    ShortBounded(|Nodes(root)|, root, root);
  }

  /** Extraction ends on every pair of acyclic documents: two interpreter frames for each distinct
      value of the larger one, and one more, are enough. */
  lemma AcyclicExtractionEnds(depth: nat, inputSchema: Json, outputSchema: Json)
    requires Acyclic(RootOf(inputSchema)) && Acyclic(RootOf(outputSchema))
    requires depth > 2 * |Nodes(RootOf(inputSchema))| && depth > 2 * |Nodes(RootOf(outputSchema))|
    ensures !ExtractPlotFields(depth, inputSchema, outputSchema).TooDeep?
  {
    var input, output := RootOf(inputSchema), RootOf(outputSchema);
    AcyclicBounded(input);
    AcyclicBounded(output);
    var k := if |Nodes(input)| < |Nodes(output)| then |Nodes(output)| else |Nodes(input)|;
    BoundedMore(|Nodes(input)|, k, input, input);
    BoundedMore(|Nodes(output)|, k, output, output);
    ExtractionEnds(depth, k, inputSchema, outputSchema);
  }
}
