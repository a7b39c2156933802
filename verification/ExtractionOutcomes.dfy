/** How extraction ends, for every document: it succeeds with some number of frames exactly if its
    walk reaches no cycle and no call that raises. */
module ExtractionOutcomes {
  import opened ExtractionVisits
  import opened FiniteGraphs
  import opened OrderedDict
  import opened Json
  import opened PlotFields
  import opened SchemaCycles
  import opened SchemaFragment
  import opened SchemaTermination

  function Start(root: Json): Visit { Read(root, true) }

  ghost predicate Meets(root: Json, a: Visit)
  {
    Reachable(Visits(root), Start(root), a)
  }

  /** The walk through the document reaches a cycle. */
  ghost predicate MeetsCycle(root: Json)
  {
    !NoCycleFrom(Visits(root), Start(root))
  }

  ghost predicate MeetsRaise(root: Json)
  {
    exists a :: Meets(root, a) && Raises(a)
  }

  // ---- one step ---------------------------------------------------------------------

  lemma StepFinishes(root: Json, a: Visit, d: nat, b: Visit)
    requires Ends(root, a, d, Finished) && Calls(root, a, b)
    ensures FinishesBelow(root, b, d)
  {
    match a {
      case Normal(x) =>
        FinishedNormal(root, b.schema, d, d - 1);
      case Read(x, top) =>
        var source, prefix :| ReadEnds(root, x, top, d, Finished, source, prefix);
        SchemaFinishes(d, source, x, root, prefix, b);
    }
  }

  lemma StepFails(root: Json, a: Visit, d: nat, how: Ending) returns (b: Visit)
    requires d > 0 && how != Finished && Ends(root, a, d, how) && !Raises(a)
    ensures Calls(root, a, b) && FailsIn(root, b, d, how)
  {
    match a {
      case Normal(x) =>
        b := Normal(SoleBranch(Pass(x, root)).value);
        FailsByNormal(root, b.schema, d, d - 1);
      case Read(x, top) =>
        var source, prefix :| ReadEnds(root, x, top, d, how, source, prefix);
        b := SchemaFails(d, source, x, root, prefix);
    }
  }

  // ---- along paths ------------------------------------------------------------------

  lemma EndsPositive(root: Json, a: Visit, d: nat, how: Ending)
    requires Ends(root, a, d, how) && how != Exhausted
    ensures d > 0
  {
  }

  /** A call that finishes with `d` frames starts no chain of `d` calls. */
  lemma {:induction false} FinishedShort(root: Json, a: Visit, d: nat)
    requires Ends(root, a, d, Finished)
    ensures Short(d, Visits(root), a)
    decreases d
  {
    EndsPositive(root, a, d, Finished);
    forall b | (a, b) in Visits(root)
      ensures Short(d - 1, Visits(root), b)
    {
      StepFinishes(root, a, d, b);
      var e: nat :| e < d && Ends(root, b, e, Finished);
      FinishedShort(root, b, e);
      ShortMore(e, d - 1, Visits(root), b);
    }
  }

  lemma {:induction false} FinishedAlong(root: Json, a: Visit, d: nat, n: nat, b: Visit)
    requires Ends(root, a, d, Finished) && Reaches(n, Visits(root), a, b)
    ensures !Raises(b)
    decreases n
  {
    if n > 0 {
      var c :| Via(n, Visits(root), a, c, b);
      StepFinishes(root, a, d, c);
      var e: nat :| e < d && Ends(root, c, e, Finished);
      FinishedAlong(root, c, e, n - 1, b);
    }
  }

  /** Two frames a call are enough. */
  lemma {:induction false} ShortEnds(root: Json, a: Visit, k: nat, d: nat)
    requires Short(k, Visits(root), a) && d >= 2 * k
    ensures !Ends(root, a, d, Exhausted)
    decreases k
  {
    if Ends(root, a, d, Exhausted) && !Raises(a) {
      var b := StepFails(root, a, d, Exhausted);
      assert (a, b) in Visits(root);
      var e: nat :| e < d <= e + 2 && Ends(root, b, e, Exhausted);
      ShortEnds(root, b, k - 1, e);
    }
  }

  /** What is raised is raised by a call the walk reaches. */
  lemma {:induction false} RaisedSomewhere(root: Json, a: Visit, d: nat) returns (b: Visit, n: nat)
    requires Ends(root, a, d, Raised)
    ensures Reaches(n, Visits(root), a, b) && Raises(b)
    decreases d
  {
    EndsPositive(root, a, d, Raised);
    if Raises(a) {
      b, n := a, 0;
    } else {
      var c := StepFails(root, a, d, Raised);
      var e: nat :| e < d <= e + 2 && Ends(root, c, e, Raised);
      b, n := RaisedSomewhere(root, c, e);
      assert (a, c) in Visits(root);
      assert Via(n + 1, Visits(root), a, c, b);
      n := n + 1;
    }
  }

  // ---- the walk stays among finitely many schemas -----------------------------------

  /** Everything the value contains is a value of the document. */
  ghost predicate Rooted(root: Json, x: Json)
  {
    forall c | Contains(x, c) :: c in Nodes(root)
  }

  lemma NodeRooted(root: Json, x: Json)
    requires x in Nodes(root)
    ensures Rooted(root, x)
  {
    forall c | Contains(x, c)
      ensures c in Nodes(root)
    {
      ContainsStays(root, x, c);
    }
  }

  lemma TargetIn(root: Json, x: Json)
    requires RefTarget(x, root).Some?
    ensures RefTarget(x, root).value in Nodes(root)
  {
    SelfNode(root);
    WalkStays(root, root, Text.Split(Field(x, "$ref").value.s[2..], '/'));
  }

  lemma ResolvedRooted(root: Json, x: Json)
    requires x.Obj? && Rooted(root, x)
    ensures Rooted(root, ResolveRef(x, root))
  {
    var target := RefTarget(x, root);
    if target.Some? {
      TargetIn(root, x);
      NodeRooted(root, target.value);
      var own := Without(x.members, "$ref");
      forall c | Contains(ResolveRef(x, root), c)
        ensures c in Nodes(root)
      {
        var e :| e in ResolveRef(x, root).members && e.1 == c;
        MergeMember(target.value.members, own, e);
        if e in own {
          WithoutMember(x.members, "$ref", e);
          assert Contains(x, c);
        } else {
          assert Contains(target.value, c);
        }
      }
    }
  }

  lemma DroppedRooted(root: Json, x: Json)
    requires x.Obj? && Rooted(root, x)
    ensures Rooted(root, DropNullType(x))
  {
    var n := DropNullType(x);
    if n != x {
      var ts := Field(x, "type").value;
      var t := NonNullTypes(ts.elems)[0];
      FieldContained(x, "type");
      NonNullTypeIn(ts.elems, t);
      ContainsStays(root, ts, t);
      forall c | Contains(n, c)
        ensures c in Nodes(root)
      {
        var e :| e in n.members && e.1 == c;
        PutMember(x.members, "type", t, e);
        assert e in x.members ==> Contains(x, c);
      }
    }
  }

  lemma PassRooted(root: Json, x: Json)
    requires x.Obj? && Rooted(root, x)
    ensures Rooted(root, Pass(x, root))
  {
    ResolvedRooted(root, x);
    DroppedRooted(root, ResolveRef(x, root));
  }

  /** A schema the walk can come to: a value of the document, one pass over such a value, or none. */
  function Schemas(root: Json): set<Json>
  {
    Nodes(root) + (set y | y in Nodes(root) && y.Obj? :: Pass(y, root)) + {EMPTY}
  }

  lemma SchemaRooted(root: Json, x: Json)
    requires x in Schemas(root)
    ensures Rooted(root, x)
  {
    if x in Nodes(root) {
      NodeRooted(root, x);
    } else if x != EMPTY {
      var y :| y in Nodes(root) && y.Obj? && x == Pass(y, root);
      NodeRooted(root, y);
      PassRooted(root, y);
    }
  }

  lemma ElementIn(root: Json, n: Json, key: string, b: Json)
    requires Rooted(root, n) && b in ElementsAt(n, key)
    ensures b in Nodes(root)
  {
    FieldContained(n, key);
    ContainsStays(root, Field(n, key).value, b);
  }

  lemma PropertyIn(root: Json, n: Json, p: (string, Json))
    requires Rooted(root, n) && p in PropertiesOf(n)
    ensures p.1 in Nodes(root)
  {
    FieldContained(n, "properties");
    ContainsStays(root, Field(n, "properties").value, p.1);
  }

  lemma SoleBranchIn(root: Json, n: Json)
    requires Rooted(root, n) && SoleBranch(n).Some?
    ensures SoleBranch(n).value in Nodes(root) && SoleBranch(n).value.Obj?
  {
    var key := if SoleBranchOf(n, "anyOf").Some? then "anyOf" else "oneOf";
    BranchIn(ElementsAt(n, key), SoleBranch(n).value);
    ElementIn(root, n, key, SoleBranch(n).value);
  }

  /** A normal form is one pass over some schema met on the way: the first, or a value of the document. */
  lemma {:induction false} NormalForm(d: nat, root: Json, x: Json)
    requires Normalize(d, x, root).Done? && Rooted(root, x)
    ensures var n := Normalize(d, x, root).value;
      Rooted(root, n) && (x in Nodes(root) ==> n in Schemas(root))
  {
    PassRooted(root, x);
    if SoleBranch(Pass(x, root)).Some? {
      SoleBranchIn(root, Pass(x, root));
      var b := SoleBranch(Pass(x, root)).value;
      NodeRooted(root, b);
      NormalForm(d - 1, root, b);
    }
  }

  lemma NormalFormIn(root: Json, x: Json, n: Json)
    requires IsNormal(root, x, n) && Rooted(root, x)
    ensures Rooted(root, n) && (x in Nodes(root) ==> n in Schemas(root))
  {
    var d: nat :| Normalize(d, x, root) == Done(n);
    NormalForm(d, root, x);
  }

  function Universe(root: Json): set<Visit>
  {
    (set x, top | x in Schemas(root) && top in {true, false} :: Read(x, top))
    + (set x | x in Schemas(root) :: Normal(x))
  }

  lemma ReadsIn(root: Json, n: Json, top: bool, b: Visit)
    requires Rooted(root, n) && ReadsFrom(root, n, top, b)
    ensures b.schema in Schemas(root)
  {
    if BranchList(n).Some? {
      var key := if Field(n, "anyOf").Some? && Field(n, "anyOf").value.Arr? then "anyOf" else "oneOf";
      ElementIn(root, n, key, b.schema);
    } else if !top && SchemaType(n) == Some("array") {
      ArrayReadsIn(root, n, b);
    } else {
      var p :| p in PropertiesOf(n) && p.1.Obj? && b == Read(p.1, top && p.0 == "");
      PropertyIn(root, n, p);
    }
  }

  lemma ArrayReadsIn(root: Json, n: Json, b: Visit)
    requires Rooted(root, n) && ArrayReads(root, n, b)
    ensures b.schema in Schemas(root)
  {
    match Field(n, "items") {
      case Some(Obj(ms)) =>
        FieldContained(n, "items");
        ItemReadsIn(root, Obj(ms), b);
      case _ =>
        ElementIn(root, n, "prefixItems", b.schema);
    }
  }

  lemma ItemReadsIn(root: Json, items: Json, b: Visit)
    requires items in Nodes(root) && ItemReads(root, items, b)
    ensures b.schema in Schemas(root)
  {
    if b != Normal(items) {
      var s :| IsNormal(root, items, s) && !IsScalar(SchemaType(s)) && NestedReads(root, s, b);
      NodeRooted(root, items);
      NormalFormIn(root, items, s);
      if b.Normal? && Inner(s) != EMPTY {
        FieldContained(s, "items");
      }
    }
  }

  lemma CallsStay(root: Json, a: Visit, b: Visit)
    requires a in Universe(root) && Calls(root, a, b)
    ensures b in Universe(root)
  {
    SchemaRooted(root, a.schema);
    match a {
      case Normal(x) =>
        PassRooted(root, x);
        SoleBranchIn(root, Pass(x, root));
      case Read(x, top) =>
        if b != Normal(x) {
          var n :| IsNormal(root, x, n) && ReadsFrom(root, n, top, b);
          NormalFormIn(root, x, n);
          ReadsIn(root, n, top, b);
        }
    }
  }

  lemma NoCycleEnds(root: Json, d: nat)
    requires !MeetsCycle(root) && d >= 2 * |Universe(root)|
    ensures !Ends(root, Start(root), d, Exhausted)
  {
    forall a, b | a in Universe(root) && (a, b) in Visits(root)
      ensures b in Universe(root)
    {
      CallsStay(root, a, b);
    }
    SelfNode(root);
    NoCycleIsShort(Visits(root), Universe(root), Start(root));
    ShortEnds(root, Start(root), |Universe(root)|, d);
  }

  // ---- one document -----------------------------------------------------------------

  function OutcomeOf(d: nat, source: Source, root: Json): Outcome<seq<PlotField>>
  {
    ExtractSchema(d, source, root, root, "")
  }

  lemma StartEnds(root: Json, d: nat, source: Source)
    ensures Ends(root, Start(root), d, EndingOf(OutcomeOf(d, source, root)))
  {
    assert ReadEnds(root, root, true, d, EndingOf(OutcomeOf(d, source, root)), source, "");
  }

  lemma DoneMeetsNothing(d: nat, source: Source, root: Json)
    requires OutcomeOf(d, source, root).Done?
    ensures !MeetsCycle(root) && !MeetsRaise(root)
  {
    StartEnds(root, d, source);
    FinishedShort(root, Start(root), d);
    ShortNoCycle(d, Visits(root), Start(root));
    forall a | Meets(root, a)
      ensures !Raises(a)
    {
      var n: nat :| Reaches(n, Visits(root), Start(root), a);
      FinishedAlong(root, Start(root), d, n, a);
    }
  }

  lemma FaultMeetsRaise(d: nat, source: Source, root: Json)
    requires OutcomeOf(d, source, root).Fault?
    ensures MeetsRaise(root)
  {
    StartEnds(root, d, source);
    var b, n := RaisedSomewhere(root, Start(root), d);
    assert Meets(root, b);
  }

  lemma NoCycleNotTooDeep(d: nat, source: Source, root: Json)
    requires !MeetsCycle(root) && d >= 2 * |Universe(root)|
    ensures !OutcomeOf(d, source, root).TooDeep?
  {
    StartEnds(root, d, source);
    NoCycleEnds(root, d);
  }

  // ---- both documents ---------------------------------------------------------------

  /** The walk through the document meets neither a cycle nor a call that raises. */
  ghost predicate Readable(root: Json)
  {
    !MeetsCycle(root) && !MeetsRaise(root)
  }

  function EnoughFor(root: Json): nat { 2 * |Universe(root)| }

  lemma ReadableDone(d: nat, source: Source, root: Json)
    requires Readable(root) && d >= EnoughFor(root)
    ensures OutcomeOf(d, source, root).Done?
  {
    NoCycleNotTooDeep(d, source, root);
    if OutcomeOf(d, source, root).Fault? {
      FaultMeetsRaise(d, source, root);
    }
  }

  /** With frames enough for both walks, extraction succeeds if neither meets a cycle or a call that raises. */
  lemma ReadableExtracts(d: nat, inputSchema: Json, outputSchema: Json)
    requires Readable(RootOf(inputSchema)) && Readable(RootOf(outputSchema))
    requires d >= EnoughFor(RootOf(inputSchema)) && d >= EnoughFor(RootOf(outputSchema))
    ensures ExtractPlotFields(d, inputSchema, outputSchema).Done?
  {
    ReadableDone(d, Input, RootOf(inputSchema));
    ReadableDone(d, Output, RootOf(outputSchema));
  }

  lemma DoneReadable(d: nat, inputSchema: Json, outputSchema: Json)
    requires ExtractPlotFields(d, inputSchema, outputSchema).Done?
    ensures Readable(RootOf(inputSchema)) && Readable(RootOf(outputSchema))
  {
    DoneMeetsNothing(d, Input, RootOf(inputSchema));
    DoneMeetsNothing(d, Output, RootOf(outputSchema));
  }

  /** Whatever the documents, some recursion limit lets extraction succeed exactly if neither walk
      meets a cycle or a call that raises. */
  lemma SucceedsExactly(inputSchema: Json, outputSchema: Json)
    ensures (exists d: nat :: ExtractPlotFields(d, inputSchema, outputSchema).Done?)
            <==> Readable(RootOf(inputSchema)) && Readable(RootOf(outputSchema))
  {
    if d: nat :| ExtractPlotFields(d, inputSchema, outputSchema).Done? {
      DoneReadable(d, inputSchema, outputSchema);
    }
    if Readable(RootOf(inputSchema)) && Readable(RootOf(outputSchema)) {
      ReadableExtracts(EnoughFor(RootOf(inputSchema)) + EnoughFor(RootOf(outputSchema)), inputSchema, outputSchema);
    }
  }

  lemma FaultMeets(d: nat, inputSchema: Json, outputSchema: Json)
    requires ExtractPlotFields(d, inputSchema, outputSchema).Fault?
    ensures MeetsRaise(RootOf(inputSchema)) || MeetsRaise(RootOf(outputSchema))
  {
    if OutcomeOf(d, Input, RootOf(inputSchema)).Fault? {
      FaultMeetsRaise(d, Input, RootOf(inputSchema));
    } else {
      FaultMeetsRaise(d, Output, RootOf(outputSchema));
    }
  }

  /** Meeting a cycle and nothing that raises, the walk exhausts every recursion limit. */
  lemma CycleExhausts(d: nat, source: Source, root: Json)
    requires MeetsCycle(root) && !MeetsRaise(root)
    ensures OutcomeOf(d, source, root).TooDeep?
  {
    if OutcomeOf(d, source, root).Done? {
      DoneMeetsNothing(d, source, root);
    } else if OutcomeOf(d, source, root).Fault? {
      FaultMeetsRaise(d, source, root);
    }
  }

  /** Where nothing raises, every recursion limit is exhausted exactly if a walk meets a cycle. */
  lemma ExhaustsExactly(inputSchema: Json, outputSchema: Json)
    requires !MeetsRaise(RootOf(inputSchema)) && !MeetsRaise(RootOf(outputSchema))
    ensures (forall d: nat :: ExtractPlotFields(d, inputSchema, outputSchema).TooDeep?)
            <==> MeetsCycle(RootOf(inputSchema)) || MeetsCycle(RootOf(outputSchema))
  {
    SucceedsExactly(inputSchema, outputSchema);
    if d: nat :| !ExtractPlotFields(d, inputSchema, outputSchema).TooDeep? {
      if ExtractPlotFields(d, inputSchema, outputSchema).Fault? {
        FaultMeets(d, inputSchema, outputSchema);
      }
    }
  }

  /** Where no walk meets a cycle, extraction raises at some recursion limit exactly if a walk meets
      a call that does. */
  lemma RaisesExactly(inputSchema: Json, outputSchema: Json)
    requires !MeetsCycle(RootOf(inputSchema)) && !MeetsCycle(RootOf(outputSchema))
    ensures (exists d: nat :: ExtractPlotFields(d, inputSchema, outputSchema).Fault?)
            <==> MeetsRaise(RootOf(inputSchema)) || MeetsRaise(RootOf(outputSchema))
  {
    if d: nat :| ExtractPlotFields(d, inputSchema, outputSchema).Fault? {
      FaultMeets(d, inputSchema, outputSchema);
    }
    if MeetsRaise(RootOf(inputSchema)) || MeetsRaise(RootOf(outputSchema)) {
      var d := EnoughFor(RootOf(inputSchema)) + EnoughFor(RootOf(outputSchema));
      NoCycleNotTooDeep(d, Input, RootOf(inputSchema));
      NoCycleNotTooDeep(d, Output, RootOf(outputSchema));
      NotDone(d, inputSchema, outputSchema);
      assert ExtractPlotFields(d, inputSchema, outputSchema).Fault?;
    }
  }

  lemma NotDone(d: nat, inputSchema: Json, outputSchema: Json)
    requires MeetsRaise(RootOf(inputSchema)) || MeetsRaise(RootOf(outputSchema))
    ensures !ExtractPlotFields(d, inputSchema, outputSchema).Done?
  {
    if ExtractPlotFields(d, inputSchema, outputSchema).Done? {
      DoneReadable(d, inputSchema, outputSchema);
    }
  }

  // ---- which calls raise ------------------------------------------------------------

  /** An array of arrays whose inner `items` is given, but not as a dictionary: `(items.get("items") or {})`
      is then normalised as it is. */
  ghost predicate BadInnerItems(root: Json, x: Json)
  {
    exists n, s :: IsNormal(root, x, n) && BadItemsOf(root, n, s)
  }

  ghost predicate BadItemsOf(root: Json, n: Json, s: Json)
  {
    && SchemaType(n) == Some("array") && BranchList(n).None?
    && Field(n, "items").Some? && Field(n, "items").value.Obj? && IsNormal(root, Field(n, "items").value, s)
    && SchemaType(s) == Some("array") && !Inner(s).Obj?
  }

  lemma BadItemsCalled(root: Json, x: Json, n: Json, s: Json)
    requires IsNormal(root, x, n) && BadItemsOf(root, n, s)
    ensures Calls(root, Read(x, false), Normal(Inner(s)))
  {
    assert NestedReads(root, s, Normal(Inner(s)));
    assert ItemReads(root, Field(n, "items").value, Normal(Inner(s)));
    assert ArrayReads(root, n, Normal(Inner(s)));
    assert TypedReads(root, n, false, Normal(Inner(s)));
    assert ReadsFrom(root, n, false, Normal(Inner(s)));
  }

  lemma SoleBranchObj(n: Json)
    requires SoleBranch(n).Some?
    ensures SoleBranch(n).value.Obj?
  {
    var key := if SoleBranchOf(n, "anyOf").Some? then "anyOf" else "oneOf";
    BranchIn(ElementsAt(n, key), SoleBranch(n).value);
  }

  /** What the array branch calls is a dictionary, but for the inner items of arrays of arrays. */
  lemma ItemCalls(root: Json, items: Json, b: Visit)
    requires items.Obj? && ItemReads(root, items, b) && !b.schema.Obj?
    ensures b.Normal? && exists s :: IsNormal(root, items, s) && SchemaType(s) == Some("array") && !Inner(s).Obj?
  {
    var s :| IsNormal(root, items, s) && !IsScalar(SchemaType(s)) && NestedReads(root, s, b);
    var d: nat :| Normalize(d, items, root) == Done(s);
    NormalizeObj(d, items, root);
  }

  lemma ReadsFromCalls(root: Json, n: Json, top: bool, b: Visit)
    requires ReadsFrom(root, n, top, b) && !b.schema.Obj?
    ensures b.Normal? && !top && exists s :: BadItemsOf(root, n, s)
  {
    assert ArrayReads(root, n, b);
    ItemCalls(root, Field(n, "items").value, b);
    var s :| IsNormal(root, Field(n, "items").value, s) && SchemaType(s) == Some("array") && !Inner(s).Obj?;
    assert BadItemsOf(root, n, s);
  }

  lemma CallsRaise(root: Json, a: Visit, b: Visit)
    requires Calls(root, a, b) && !b.schema.Obj?
    ensures b.Normal? && a.Read? && (!a.schema.Obj? || (!a.top && BadInnerItems(root, a.schema)))
  {
    match a {
      case Normal(x) =>
        SoleBranchObj(Pass(x, root));
      case Read(x, top) =>
        if x.Obj? {
          var n :| IsNormal(root, x, n) && ReadsFrom(root, n, top, b);
          ReadsFromCalls(root, n, top, b);
          var s :| BadItemsOf(root, n, s);
          assert BadInnerItems(root, x);
        }
    }
  }

  /** Every schema read is a dictionary, except perhaps the document. */
  lemma ReadsDictionaries(root: Json, n: nat, a: Visit, b: Visit)
    requires Reaches(n, Visits(root), a, b) && n > 0 && b.Read?
    ensures b.schema.Obj?
  {
    var c := LastStep(n, Visits(root), a, b);
    if !b.schema.Obj? {
      CallsRaise(root, c, b);
    }
  }

  ghost predicate MeetsBadInnerItems(root: Json)
  {
    exists x :: Meets(root, Read(x, false)) && BadInnerItems(root, x)
  }

  lemma RaiseCaller(root: Json, b: Visit, n: nat) returns (a: Visit)
    requires root.Obj? && Reaches(n, Visits(root), Start(root), b) && Raises(b)
    ensures a.Read? && !a.top && Meets(root, a) && BadInnerItems(root, a.schema)
  {
    a := LastStep(n, Visits(root), Start(root), b);
    CallsRaise(root, a, b);
    if n > 1 {
      ReadsDictionaries(root, n - 1, Start(root), a);
    }
  }

  lemma RaiseIsBadItems(root: Json)
    requires root.Obj? && MeetsRaise(root)
    ensures MeetsBadInnerItems(root)
  {
    var b :| Meets(root, b) && Raises(b);
    var n: nat :| Reaches(n, Visits(root), Start(root), b);
    var a := RaiseCaller(root, b, n);
    assert a == Read(a.schema, false);
  }

  lemma BadItemsRaise(root: Json)
    requires MeetsBadInnerItems(root)
    ensures MeetsRaise(root)
  {
    var x :| Meets(root, Read(x, false)) && BadInnerItems(root, x);
    var n, s :| IsNormal(root, x, n) && BadItemsOf(root, n, s);
    BadItemsCalled(root, x, n, s);
    ReachableStep(Visits(root), Start(root), Read(x, false), Normal(Inner(s)));
    assert Meets(root, Normal(Inner(s)));
  }

  /** A call raises exactly if the document is no dictionary, or the walk reads an array of arrays
      whose inner `items` is given and is no dictionary. */
  lemma RaiseExactly(root: Json)
    ensures MeetsRaise(root) <==> !root.Obj? || MeetsBadInnerItems(root)
  {
    if !root.Obj? {
      ReachableSelf(Visits(root), Start(root));
      ReachableStep(Visits(root), Start(root), Start(root), Normal(root));
      assert Meets(root, Normal(root)) && Raises(Normal(root));
    } else {
      if MeetsRaise(root) {
        RaiseIsBadItems(root);
      }
      if MeetsBadInnerItems(root) {
        BadItemsRaise(root);
      }
    }
  }
}
