/** In the fragment the extractor never raises, so on documents without reference cycles it succeeds. */
module FragmentExtracts {
  import opened ExtractionOutcomes
  import opened ExtractionVisits
  import opened FiniteGraphs
  import opened OrderedDict
  import opened Json
  import opened PlotFields
  import opened SchemaCycles
  import opened SchemaFragment

  /** What the walk reads is in the fragment, and what it normalises is a dictionary. */
  ghost predicate FragmentVisit(root: Json, a: Visit)
  {
    a.schema.Obj? && (a.Read? ==> InFragment(root, a.schema))
  }

  lemma NormalReady(root: Json, x: Json, n: Json)
    requires InFragment(root, x) && IsNormal(root, x, n)
    ensures Ready(root, n)
  {
    var d: nat :| Normalize(d, x, root) == Done(n);
    NormalizeStays(d, x, root);
  }

  lemma ItemsVisited(root: Json, items: Json, b: Visit)
    requires InFragment(root, items) && ItemReads(root, items, b)
    ensures FragmentVisit(root, b)
  {
    FragmentStep(root, items);
    if b != Normal(items) {
      var s :| IsNormal(root, items, s) && !IsScalar(SchemaType(s)) && NestedReads(root, s, b);
      NormalReady(root, items, s);
      ReadyShape(root, s);
    }
  }

  lemma ArrayVisited(root: Json, n: Json, b: Visit)
    requires Ready(root, n) && ArrayReads(root, n, b)
    ensures FragmentVisit(root, b)
  {
    ReadyShape(root, n);
    if Field(n, "items").Some? {
      ReadyChild(root, n, Field(n, "items").value);
      ItemsVisited(root, Field(n, "items").value, b);
    } else {
      ReadyChild(root, n, b.schema);
    }
  }

  /** The only alternatives left after normalising are null, and they are skipped. */
  lemma OnlyNullLeft(root: Json, n: Json, b: Json)
    requires Ready(root, n) && BranchList(n).Some? && b in BranchList(n).value && b.Obj?
    ensures IsNullSchema(b)
  {
    ReadyShape(root, n);
    if !IsNullSchema(b) {
      InNonNullBranches(BranchList(n).value, b);
    }
  }

  lemma ReadsVisited(root: Json, n: Json, top: bool, b: Visit)
    requires Ready(root, n) && ReadsFrom(root, n, top, b)
    ensures FragmentVisit(root, b)
  {
    if BranchList(n).Some? {
      OnlyNullLeft(root, n, b.schema);
    } else if !top && SchemaType(n) == Some("array") {
      ArrayVisited(root, n, b);
    } else {
      var p :| p in PropertiesOf(n) && p.1.Obj? && b == Read(p.1, top && p.0 == "");
      ReadyChild(root, n, p.1);
    }
  }

  lemma CallVisited(root: Json, a: Visit, b: Visit)
    requires FragmentVisit(root, a) && Calls(root, a, b)
    ensures FragmentVisit(root, b)
  {
    match a {
      case Normal(x) =>
        SoleBranchObj(Pass(x, root));
      case Read(x, top) =>
        if b != Normal(x) {
          var n :| IsNormal(root, x, n) && ReadsFrom(root, n, top, b);
          NormalReady(root, x, n);
          ReadsVisited(root, n, top, b);
        }
    }
  }

  lemma {:induction false} AllVisited(root: Json, n: nat, a: Visit, b: Visit)
    requires FragmentVisit(root, a) && Reaches(n, Visits(root), a, b)
    ensures FragmentVisit(root, b)
    decreases n
  {
    if n > 0 {
      var c :| Via(n, Visits(root), a, c, b);
      CallVisited(root, a, c);
      AllVisited(root, n - 1, c, b);
    }
  }

  /** In the fragment no call raises. */
  lemma FragmentNeverRaises(root: Json)
    requires InFragment(root, root)
    ensures !MeetsRaise(root)
  {
    FragmentStep(root, root);
    forall a | Meets(root, a)
      ensures !Raises(a)
    {
      var n: nat :| Reaches(n, Visits(root), Start(root), a);
      AllVisited(root, n, Start(root), a);
    }
  }

  /** Documents in the fragment are extracted with some recursion limit if neither walk meets a
      cycle, and exhaust all of them if one does. */
  lemma FragmentEndsExactly(inputSchema: Json, outputSchema: Json)
    requires InFragment(RootOf(inputSchema), RootOf(inputSchema)) && InFragment(RootOf(outputSchema), RootOf(outputSchema))
    ensures (exists d: nat :: ExtractPlotFields(d, inputSchema, outputSchema).Done?)
            <==> !MeetsCycle(RootOf(inputSchema)) && !MeetsCycle(RootOf(outputSchema))
    ensures (forall d: nat :: ExtractPlotFields(d, inputSchema, outputSchema).TooDeep?)
            <==> MeetsCycle(RootOf(inputSchema)) || MeetsCycle(RootOf(outputSchema))
  {
    FragmentNeverRaises(RootOf(inputSchema));
    FragmentNeverRaises(RootOf(outputSchema));
    SucceedsExactly(inputSchema, outputSchema);
    ExhaustsExactly(inputSchema, outputSchema);
  }

  /** Extraction succeeds on every pair of acyclic documents in the fragment, given two interpreter
      frames for each distinct value of the larger one, and one more. */
  lemma FragmentSucceeds(depth: nat, inputSchema: Json, outputSchema: Json)
    requires InFragment(RootOf(inputSchema), RootOf(inputSchema)) && InFragment(RootOf(outputSchema), RootOf(outputSchema))
    requires Acyclic(RootOf(inputSchema)) && Acyclic(RootOf(outputSchema))
    requires depth > 2 * |Nodes(RootOf(inputSchema))| && depth > 2 * |Nodes(RootOf(outputSchema))|
    ensures ExtractPlotFields(depth, inputSchema, outputSchema).Done?
  {
    AcyclicExtractionEnds(depth, inputSchema, outputSchema);
    FragmentNeverRaises(RootOf(inputSchema));
    FragmentNeverRaises(RootOf(outputSchema));
    if ExtractPlotFields(depth, inputSchema, outputSchema).Fault? {
      FaultMeets(depth, inputSchema, outputSchema);
    }
  }
}
