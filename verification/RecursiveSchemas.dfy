/** One recursive definition: a linked list. It is in the fragment, its walk meets a cycle, and so it
    exhausts every recursion limit. */
module RecursiveSchemas {
  import opened ExtractionOutcomes
  import opened ExtractionVisits
  import opened FiniteGraphs
  import opened FragmentExtracts
  import opened OrderedDict
  import opened Json
  import opened LaxPath
  import opened PlotFields
  import opened References
  import opened SchemaFragment

  /** An object with a property `next`. */
  function Node(next: Json): Json
  {
    Obj([("type", Str("object")), ("properties", Obj([("next", next)]))])
  }

  const NEXT := ["properties", "next"]

  const REF := Obj([("$ref", Str(ReferenceTo(NEXT)))])

  /** A linked list: every node may have a next node. */
  const LINKED_LIST := Node(Node(REF))

  /** A list of nodes whose next node is the second one again, by reference. */
  predicate IsList(root: Json, ref: Json)
  {
    && root == Node(Node(ref))
    && ref.Obj? && |ref.members| == 1 && ref.members[0].0 == "$ref"
    && RefTarget(ref, root) == Some(Node(ref))
  }

  lemma NodeFields(next: Json, key: string)
    ensures Field(Node(next), key) ==
      if key == "type" then Some(Str("object"))
      else if key == "properties" then Some(Obj([("next", next)]))
      else None
  {
    assert Node(next).members[1..] == [("properties", Obj([("next", next)]))];
    GetSingle("properties", Obj([("next", next)]), key);
  }

  lemma ListIsList()
    ensures IsList(LINKED_LIST, REF)
  {
    SecondNode(LINKED_LIST, Node(REF), NEXT);
    GetSingle("$ref", Str(ReferenceTo(NEXT)), "$ref");
    ReferenceResolves(REF, LINKED_LIST, NEXT);
  }

  lemma SecondNode(root: Json, second: Json, keys: seq<string>)
    requires root == Node(second) && keys == ["properties", "next"]
    ensures NodeAt(root, keys) == Some(second)
  {
    NodeFields(second, "properties");
    GetSingle("next", second, "next");
    assert keys[1..] == ["next"] && ["next"][1..] == [];
    assert NodeAt(Obj([("next", second)]), ["next"]) == NodeAt(second, []);
  }

  lemma NodeNormal(root: Json, next: Json, d: nat)
    requires d > 0
    ensures Normalize(d, Node(next), root) == Done(Node(next))
    ensures BranchList(Node(next)) == None && SchemaType(Node(next)) == Some("object")
    ensures PropertiesOf(Node(next)) == [("next", next)]
  {
    NodeFields(next, "$ref");
    NodeFields(next, "type");
    NodeFields(next, "properties");
    NodeFields(next, "anyOf");
    NodeFields(next, "oneOf");
  }

  lemma RefResolved(root: Json, ref: Json)
    requires IsList(root, ref)
    ensures ResolveRef(ref, root) == Node(ref)
  {
    assert ref.members[1..] == [];
    assert Without(ref.members, "$ref") == [];
  }

  lemma RefNormal(root: Json, ref: Json, d: nat)
    requires IsList(root, ref) && d > 0
    ensures Normalize(d, ref, root) == Done(Node(ref))
  {
    RefResolved(root, ref);
    NodeNormal(root, ref, d);
    NodeFields(ref, "$ref");
  }

  // ---- the cycle --------------------------------------------------------------------

  /** Whatever normalises to a node reads what comes next. */
  lemma NextRead(root: Json, x: Json, top: bool, next: Json)
    requires IsNormal(root, x, Node(next)) && next.Obj?
    ensures (Read(x, top), Read(next, false)) in Visits(root)
  {
    NodeNormal(root, next, 1);
    assert ("next", next) in PropertiesOf(Node(next));
    assert TypedReads(root, Node(next), top, Read(next, false));
    assert ReadsFrom(root, Node(next), top, Read(next, false));
    assert Calls(root, Read(x, top), Read(next, false));
  }

  lemma ListMeetsCycle(root: Json, ref: Json)
    requires IsList(root, ref)
    ensures MeetsCycle(root)
  {
    var g, again := Visits(root), Read(ref, false);
    NodeNormal(root, Node(ref), 1);
    NextRead(root, root, true, Node(ref));
    NodeNormal(root, ref, 1);
    NextRead(root, Node(ref), false, ref);
    RefNormal(root, ref, 1);
    NextRead(root, ref, false, ref);
    ReachableSelf(g, Start(root));
    ReachableStep(g, Start(root), Start(root), Read(Node(ref), false));
    ReachableStep(g, Start(root), Read(Node(ref), false), again);
    assert Reaches(0, g, again, again);
    OneMore(0, g, again, again, again);
  }

  // ---- the fragment -----------------------------------------------------------------

  lemma NodeShape(root: Json, next: Json)
    requires next.Obj?
    ensures ShapeOk(Node(next), root) && LocalOk(Node(next), root)
    ensures ResolveRef(Node(next), root) == Node(next)
    ensures forall c | IsChild(Node(next), c) :: c == next
  {
    NodeFields(next, "$ref");
    NodeFields(next, "type");
    NodeFields(next, "properties");
    NodeFields(next, "items");
    NodeFields(next, "prefixItems");
    NodeFields(next, "anyOf");
    NodeFields(next, "oneOf");
  }

  lemma {:induction false} ListFragment(k: nat, root: Json, ref: Json)
    requires IsList(root, ref)
    ensures Fragment(k, root, ref) && Fragment(k, root, Node(ref)) && Fragment(k, root, root)
  {
    if k > 0 {
      ListFragment(k - 1, root, ref);
      NodeShape(root, ref);
      NodeShape(root, Node(ref));
      RefResolved(root, ref);
    }
  }

  /** A linked-list schema exhausts every recursion limit, though it is in the fragment. */
  lemma RecursiveSchemaNeverEnds(depth: nat, outputSchema: Json)
    ensures InFragment(LINKED_LIST, LINKED_LIST) && MeetsCycle(LINKED_LIST)
    ensures ExtractPlotFields(depth, LINKED_LIST, outputSchema).TooDeep?
  {
    ListIsList();
    NeverEnds(depth, LINKED_LIST, REF, outputSchema);
  }

  lemma NeverEnds(depth: nat, list: Json, ref: Json, outputSchema: Json)
    requires IsList(list, ref)
    ensures InFragment(list, list) && MeetsCycle(list)
    ensures ExtractPlotFields(depth, list, outputSchema).TooDeep?
  {
    forall k: nat
      ensures Fragment(k, list, list)
    {
      ListFragment(k, list, ref);
    }
    ListMeetsCycle(list, ref);
    FragmentNeverRaises(list);
    CycleExhausts(depth, Input, list);
  }
}
