/** Which parts of a deployment's request and response schemas can be plotted
    (control-plane/src/application/deployment_service.py, lines 336-507).

    Python's recursion limit is modelled: `depth` is the number of frames the interpreter has
    left, and running out of them is `TooDeep`, the RecursionError. `Fault` is the
    AttributeError raised when a value that is not a dictionary is normalised. */
module PlotFields {
  import opened OrderedDict
  import opened Text
  import opened Json
  import opened Sorting

  datatype Source = Input | Output

  datatype ValueType =
    | Number | NumberArray | NumberMatrix | NumberMatrixIndex
    | Category | CategoryArray
    | Boolean | BooleanArray

  datatype PlotField = PlotField(source: Source, path: string, valueType: ValueType)

  datatype Outcome<+T> = Done(value: T) | TooDeep | Fault {
    predicate IsFailure() { !Done? }
    function PropagateFailure<U>(): Outcome<U>
      requires IsFailure()
    {
      if TooDeep? then TooDeep else Fault
    }
    function Extract(): T
      requires Done?
    {
      value
    }
  }

  // ---- reading one schema -----------------------------------------------------------

  /** `_resolve_ref`: one reference step, the schema's own keys override the target's. */
  function ResolveRef(schema: Json, root: Json): (r: Json)
    ensures schema.Obj? ==> r.Obj?
  {
    if schema.Obj? && RefTarget(schema, root).Some? then
      Obj(Merge(RefTarget(schema, root).value.members, Without(schema.members, "$ref")))
    else schema
  }

  predicate IsNullSchema(schema: Json) { Field(schema, "type") == Some(Str("null")) }

  function NonNullTypes(ts: seq<Json>): seq<Json>
  {
    if ts == [] then []
    else (if ts[0] == Str("null") then [] else [ts[0]]) + NonNullTypes(ts[1..])
  }

  /** `["number", "null"]` is read as `"number"`. */
  function DropNullType(schema: Json): (r: Json)
    requires schema.Obj?
    ensures r.Obj?
  {
    match Field(schema, "type")
    case Some(Arr(ts)) =>
      if |NonNullTypes(ts)| == 1 then Obj(Put(schema.members, "type", NonNullTypes(ts)[0])) else schema
    case _ => schema
  }

  function NonNullBranches(bs: seq<Json>): seq<Json>
  {
    if bs == [] then []
    else (if bs[0].Obj? && !IsNullSchema(bs[0]) then [bs[0]] else []) + NonNullBranches(bs[1..])
  }

  function SoleBranchOf(schema: Json, key: string): Option<Json>
  {
    match Field(schema, key)
    case Some(Arr(bs)) => if |NonNullBranches(bs)| == 1 then Some(NonNullBranches(bs)[0]) else None
    case _ => None
  }

  function SoleBranch(schema: Json): Option<Json>
  {
    if SoleBranchOf(schema, "anyOf").Some? then SoleBranchOf(schema, "anyOf")
    else SoleBranchOf(schema, "oneOf")
  }

  /** `_normalize_schema`. */
  function Normalize(depth: nat, schema: Json, root: Json): Outcome<Json>
  {
    if depth == 0 then TooDeep
    else if !schema.Obj? then Fault
    else
      var resolved := DropNullType(ResolveRef(schema, root));
      match SoleBranch(resolved)
      case Some(branch) => Normalize(depth - 1, branch, root)
      case None => Done(resolved)
  }

  function NonNullValues(es: seq<Json>): seq<Json>
  {
    if es == [] then []
    else (if es[0].Null? then [] else [es[0]]) + NonNullValues(es[1..])
  }

  /** `_schema_type`: the declared type, or the type an enumeration gives away. */
  function SchemaType(schema: Json): Option<string>
  {
    match Field(schema, "type")
    case Some(Str(t)) => Some(t)
    case _ =>
      match Field(schema, "enum")
      case Some(Arr(es)) =>
        var values := NonNullValues(es);
        if values != [] && forall e | e in values :: e.Bool? then Some("boolean")
        else if values != [] && forall e | e in values :: e.Str? then Some("string")
        else None
      case _ => None
  }

  predicate IsNumeric(t: Option<string>) { t == Some("number") || t == Some("integer") }

  predicate IsCategorical(t: Option<string>) { t == Some("string") || t == Some("boolean") }

  predicate IsScalar(t: Option<string>) { IsNumeric(t) || IsCategorical(t) }

  /** A Python int: JSON integers, and booleans, which Python counts as 0 and 1. */
  function AsInt(j: Option<Json>): Option<int>
  {
    match j
    case Some(Int(n)) => Some(n)
    case Some(Bool(b)) => Some(if b then 1 else 0)
    case _ => None
  }

  /** `_fixed_array_length`. */
  function FixedArrayLength(schema: Json): Option<int>
  {
    var prefixItems := Field(schema, "prefixItems");
    if prefixItems.Some? && prefixItems.value.Arr? && prefixItems.value.elems != [] then
      Some(|prefixItems.value.elems|)
    else
      var min := AsInt(Field(schema, "minItems"));
      var max := AsInt(Field(schema, "maxItems"));
      if min.Some? && min == max then min else None
  }

  // ---- paths ------------------------------------------------------------------------

  function MemberPath(prefix: string, name: string): string
  {
    if prefix == "" then name else prefix + "." + name
  }

  function WildPath(prefix: string): string { prefix + "[*]" }

  function IndexPath(prefix: string, i: nat): string { prefix + ("[" + Decimal(i) + "]") }

  function IndexFields(source: Source, prefix: string, width: int, i: nat): seq<PlotField>
    decreases width - i
  {
    if i >= width then []
    else [PlotField(source, IndexPath(prefix, i), NumberMatrixIndex)] + IndexFields(source, prefix, width, i + 1)
  }

  // ---- extraction -------------------------------------------------------------------

  /** `_extract_schema_fields`. */
  function ExtractSchema(depth: nat, source: Source, schema: Json, root: Json, prefix: string)
    : Outcome<seq<PlotField>>
    decreases depth, 1, 2
  {
    if depth == 0 then TooDeep
    else
      var s :- Normalize(depth - 1, schema, root);
      if !Truthy(s) then Done([]) else ExtractNormal(depth, source, s, root, prefix)
  }

  /** What it does with the normalised schema: alternatives first, then the type. */
  function ExtractNormal(depth: nat, source: Source, s: Json, root: Json, prefix: string)
    : Outcome<seq<PlotField>>
    requires depth > 0
    decreases depth, 1, 1
  {
    var branchFields :- ExtractBranches(depth - 1, source, s, root, prefix);
    if branchFields.Some? then Done(branchFields.value) else ExtractTyped(depth, source, s, root, prefix)
  }

  function ExtractTyped(depth: nat, source: Source, s: Json, root: Json, prefix: string)
    : Outcome<seq<PlotField>>
    requires depth > 0
    decreases depth, 1, 0
  {
    var t := SchemaType(s);
    if prefix != "" && IsNumeric(t) then Done([PlotField(source, prefix, Number)])
    else if prefix != "" && IsCategorical(t) then
      Done([PlotField(source, prefix, if t == Some("boolean") then Boolean else Category)])
    else if t == Some("array") && prefix != "" then ExtractArray(depth - 1, source, s, root, prefix)
    else
      match Field(s, "properties")
      case Some(Obj(ps)) => ExtractProperties(depth, source, ps, root, prefix)
      case _ => Done([])
  }

  function ExtractProperties(depth: nat, source: Source, ps: Dict<string, Json>, root: Json, prefix: string)
    : Outcome<seq<PlotField>>
    requires depth > 0
    decreases depth, 0, |ps|
  {
    if ps == [] then Done([])
    else if !ps[0].1.Obj? then ExtractProperties(depth, source, ps[1..], root, prefix)
    else
      var here :- ExtractSchema(depth - 1, source, ps[0].1, root, MemberPath(prefix, ps[0].0));
      var rest :- ExtractProperties(depth, source, ps[1..], root, prefix);
      Done(here + rest)
  }

  /** `_extract_array_fields`. */
  function ExtractArray(depth: nat, source: Source, schema: Json, root: Json, prefix: string)
    : Outcome<seq<PlotField>>
    decreases depth, 1, 0
  {
    if depth == 0 then TooDeep
    else
      match Field(schema, "items")
      case Some(Obj(members)) => ExtractItems(depth, source, Obj(members), root, prefix)
      case _ =>
        match Field(schema, "prefixItems")
        case Some(Arr(es)) => ExtractPrefixItems(depth, source, es, 0, root, prefix)
        case _ => Done([])
  }

  function ExtractPrefixItems(depth: nat, source: Source, es: seq<Json>, i: nat, root: Json, prefix: string)
    : Outcome<seq<PlotField>>
    requires depth > 0
    decreases depth, 0, |es| - i
  {
    if i >= |es| then Done([])
    else if !es[i].Obj? then ExtractPrefixItems(depth, source, es, i + 1, root, prefix)
    else
      var here :- ExtractSchema(depth - 1, source, es[i], root, IndexPath(prefix, i));
      var rest :- ExtractPrefixItems(depth, source, es, i + 1, root, prefix);
      Done(here + rest)
  }

  /** The part of `_extract_array_fields` that handles one schema for all items. */
  function ExtractItems(depth: nat, source: Source, items: Json, root: Json, prefix: string)
    : Outcome<seq<PlotField>>
    requires depth > 0
    decreases depth, 0, 2
  {
    var s :- Normalize(depth - 1, items, root);
    ExtractItem(depth, source, s, root, WildPath(prefix))
  }

  function ExtractItem(depth: nat, source: Source, s: Json, root: Json, prefix: string)
    : Outcome<seq<PlotField>>
    requires depth > 0
    decreases depth, 0, 1
  {
    var t := SchemaType(s);
    if IsNumeric(t) then Done([PlotField(source, prefix, NumberArray)])
    else if IsCategorical(t) then
      Done([PlotField(source, prefix, if t == Some("boolean") then BooleanArray else CategoryArray)])
    else ExtractNested(depth, source, s, root, prefix)
  }

  /** The rest of it: items that are arrays of scalars themselves, or anything else. */
  function ExtractNested(depth: nat, source: Source, s: Json, root: Json, prefix: string)
    : Outcome<seq<PlotField>>
    requires depth > 0
    decreases depth, 0, 0
  {
    var nested :- NestedItems(depth, s, root);
    var u := SchemaType(nested);
    if IsNumeric(u) then
      var width := FixedArrayLength(s);
      Done([PlotField(source, WildPath(prefix), NumberMatrix)]
           + if width.Some? then IndexFields(source, prefix, width.value, 0) else [])
    else if IsCategorical(u) then
      Done([PlotField(source, WildPath(prefix), if u == Some("boolean") then BooleanArray else CategoryArray)])
    else ExtractSchema(depth - 1, source, s, root, prefix)
  }

  /** The schema of the items of items that are arrays; for other items nothing is looked up. */
  function NestedItems(depth: nat, s: Json, root: Json): Outcome<Json>
    requires depth > 0
  {
    if SchemaType(s) == Some("array") then Normalize(depth - 1, OrEmpty(Field(s, "items")), root) else Done(EMPTY)
  }

  /** `items.get("items") or {}`. */
  function OrEmpty(j: Option<Json>): Json
  {
    if j.Some? && Truthy(j.value) then j.value else EMPTY
  }

  /** `schema or {}`. */
  function RootOf(schema: Json): Json { OrEmpty(Some(schema)) }

  /** The alternatives `_extract_branch_fields` looks at: `anyOf` before `oneOf`. */
  function BranchList(schema: Json): Option<seq<Json>>
  {
    match Field(schema, "anyOf")
    case Some(Arr(bs)) => Some(bs)
    case _ =>
      match Field(schema, "oneOf")
      case Some(Arr(bs)) => Some(bs)
      case _ => None
  }

  /** `_extract_branch_fields`. */
  function ExtractBranches(depth: nat, source: Source, schema: Json, root: Json, prefix: string)
    : Outcome<Option<seq<PlotField>>>
    decreases depth, 1, 0
  {
    if depth == 0 then TooDeep
    else
      match BranchList(schema)
      case None => Done(None)
      case Some(bs) =>
        var fields :- ExtractEach(depth, source, bs, root, prefix, []);
        Done(Some(Values(fields)))
  }

  type FieldDict = Dict<(Source, string), PlotField>

  function Keyed(fields: seq<PlotField>): FieldDict
  {
    seq(|fields|, i requires 0 <= i < |fields| => ((fields[i].source, fields[i].path), fields[i]))
  }

  function ExtractEach(depth: nat, source: Source, bs: seq<Json>, root: Json, prefix: string, fields: FieldDict)
    : Outcome<FieldDict>
    requires depth > 0
    decreases depth, 0, |bs|
  {
    if bs == [] then Done(fields)
    else if !bs[0].Obj? || IsNullSchema(bs[0]) then ExtractEach(depth, source, bs[1..], root, prefix, fields)
    else
      var here :- ExtractSchema(depth - 1, source, bs[0], root, prefix);
      ExtractEach(depth, source, bs[1..], root, prefix, Merge(fields, Keyed(here)))
  }

  /** `_extract_plot_fields`: both schemas, one field per source and path, sorted. */
  function ExtractPlotFields(depth: nat, inputSchema: Json, outputSchema: Json): Outcome<seq<PlotField>>
  {
    var input, output := RootOf(inputSchema), RootOf(outputSchema);
    var inputFields :- ExtractSchema(depth, Input, input, input, "");
    var outputFields :- ExtractSchema(depth, Output, output, output, "");
    var fields := Merge(Merge([], Keyed(inputFields)), Keyed(outputFields));
    Done(Sort(Values(fields), FieldLe))
  }

  predicate FieldLe(a: PlotField, b: PlotField)
  {
    if a.source == b.source then LexLe(a.path, b.path) else a.source.Input?
  }

  // ---- filtering out null ------------------------------------------------------------

  lemma {:induction false} NonNullTypeIn(ts: seq<Json>, t: Json)
    requires t in NonNullTypes(ts)
    ensures t in ts
  {
    if t != ts[0] {
      NonNullTypeIn(ts[1..], t);
    }
  }

  lemma {:induction false} BranchIn(bs: seq<Json>, b: Json)
    requires b in NonNullBranches(bs)
    ensures b in bs && b.Obj?
  {
    if !(bs[0].Obj? && !IsNullSchema(bs[0]) && b == bs[0]) {
      BranchIn(bs[1..], b);
    }
  }
}
