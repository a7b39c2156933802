/** The extractor as the source writes it: loops that grow lists and dictionaries, each proved
    against the functions of PlotFields. */
module PlotFieldLoops {
  import opened OrderedDict
  import opened Text
  import opened Json
  import opened Sorting
  import opened PlotFields

  /** `_resolve_ref`: `node` walks down the root document, one reference token at a time. */
  method ResolveRefLoop(schema: Json, root: Json) returns (r: Json)
    requires schema.Obj?
    ensures r == ResolveRef(schema, root)
  {
    var ref := Field(schema, "$ref");
    if ref.None? || !ref.value.Str? || |ref.value.s| < 2 || ref.value.s[..2] != "#/" {
      return schema;
    }
    var node, parts := root, Split(ref.value.s[2..], '/');
    while parts != []
      invariant Walk(root, Split(ref.value.s[2..], '/')) == Walk(node, parts)
      decreases |parts|
    {
      var next := Field(node, Unescape(parts[0]));
      if next.None? {
        return schema;
      }
      node, parts := next.value, parts[1..];
    }
    if !node.Obj? {
      return schema;
    }
    r := Obj(Merge(node.members, Without(schema.members, "$ref")));
  }

  /** The fields found so far, then those still to come, unless something raises. */
  function Prepend(fields: seq<PlotField>, rest: Outcome<seq<PlotField>>): Outcome<seq<PlotField>>
  {
    if rest.Done? then Done(fields + rest.value) else rest
  }

  lemma PrependDone(fields: seq<PlotField>, here: seq<PlotField>, rest: Outcome<seq<PlotField>>)
    ensures Prepend(fields, Prepend(here, rest)) == Prepend(fields + here, rest)
    ensures Prepend(fields, Done([])) == Done(fields) && Prepend([], rest) == rest
  {
    if rest.Done? {
      assert fields + (here + rest.value) == (fields + here) + rest.value;
      assert [] + rest.value == rest.value;
    }
    assert fields + [] == fields;
  }

  /** `_extract_schema_fields`. */
  method ExtractSchemaFields(depth: nat, source: Source, schema: Json, root: Json, prefix: string)
    returns (r: Outcome<seq<PlotField>>)
    ensures r == ExtractSchema(depth, source, schema, root, prefix)
    decreases depth, 1
  {
    if depth == 0 {
      return TooDeep;
    }
    var s :- Normalize(depth - 1, schema, root);
    if !Truthy(s) {
      return Done([]);
    }
    var branchFields := ExtractBranchFields(depth - 1, source, s, root, prefix);
    assert ExtractSchema(depth, source, schema, root, prefix) == ExtractNormal(depth, source, s, root, prefix);
    if !branchFields.Done? {
      return branchFields.PropagateFailure();
    }
    if branchFields.value.Some? {
      return Done(branchFields.value.value);
    }
    assert ExtractNormal(depth, source, s, root, prefix) == ExtractTyped(depth, source, s, root, prefix);
    var t := SchemaType(s);
    if prefix != "" && IsNumeric(t) {
      return Done([PlotField(source, prefix, Number)]);
    }
    if prefix != "" && IsCategorical(t) {
      return Done([PlotField(source, prefix, if t == Some("boolean") then Boolean else Category)]);
    }
    if t == Some("array") && prefix != "" {
      r := ExtractArrayFields(depth - 1, source, s, root, prefix);
      return;
    }
    var properties := Field(s, "properties");
    if properties.None? || !properties.value.Obj? {
      return Done([]);
    }
    r := PropertiesLoop(depth, source, properties.value.members, root, prefix);
  }

  /** Its loop over the properties. */
  method PropertiesLoop(depth: nat, source: Source, ps: Dict<string, Json>, root: Json, prefix: string)
    returns (r: Outcome<seq<PlotField>>)
    requires depth > 0
    ensures r == ExtractProperties(depth, source, ps, root, prefix)
    decreases depth, 0
  {
    var fields, todo := [], ps;
    PrependDone([], [], ExtractProperties(depth, source, ps, root, prefix));
    while todo != []
      invariant Prepend(fields, ExtractProperties(depth, source, todo, root, prefix))
                == ExtractProperties(depth, source, ps, root, prefix)
      decreases |todo|
    {
      if todo[0].1.Obj? {
        var here := ExtractSchemaFields(depth - 1, source, todo[0].1, root, MemberPath(prefix, todo[0].0));
        if !here.Done? {
          return here;
        }
        PrependDone(fields, here.value, ExtractProperties(depth, source, todo[1..], root, prefix));
        fields := fields + here.value;
      }
      todo := todo[1..];
    }
    PrependDone(fields, [], Done([]));
    r := Done(fields);
  }

  /** `_extract_array_fields`. */
  method ExtractArrayFields(depth: nat, source: Source, schema: Json, root: Json, prefix: string)
    returns (r: Outcome<seq<PlotField>>)
    ensures r == ExtractArray(depth, source, schema, root, prefix)
    decreases depth, 1
  {
    if depth == 0 {
      return TooDeep;
    }
    var items := Field(schema, "items");
    if items.None? || !items.value.Obj? {
      var prefixItems := Field(schema, "prefixItems");
      if prefixItems.Some? && prefixItems.value.Arr? {
        r := PrefixItemsLoop(depth, source, prefixItems.value.elems, root, prefix);
        return;
      }
      return Done([]);
    }
    r := ItemFields(depth, source, items.value, root, prefix);
  }

  /** Its case of one schema for all items. */
  method ItemFields(depth: nat, source: Source, items: Json, root: Json, prefix: string)
    returns (r: Outcome<seq<PlotField>>)
    requires depth > 0
    ensures r == ExtractItems(depth, source, items, root, prefix)
    decreases depth, 0
  {
    var s :- Normalize(depth - 1, items, root);
    assert ExtractItems(depth, source, items, root, prefix) == ExtractItem(depth, source, s, root, WildPath(prefix));
    var t := SchemaType(s);
    if IsNumeric(t) {
      return Done([PlotField(source, WildPath(prefix), NumberArray)]);
    }
    if IsCategorical(t) {
      return Done([PlotField(source, WildPath(prefix), if t == Some("boolean") then BooleanArray else CategoryArray)]);
    }
    r := NestedFields(depth, source, s, root, WildPath(prefix));
  }

  /** The rest of it: items that are arrays of scalars, or anything else. */
  method NestedFields(depth: nat, source: Source, s: Json, root: Json, prefix: string)
    returns (r: Outcome<seq<PlotField>>)
    requires depth > 0
    ensures r == ExtractNested(depth, source, s, root, prefix)
    decreases depth - 1, 2
  {
    if SchemaType(s) == Some("array") {
      var nested :- Normalize(depth - 1, OrEmpty(Field(s, "items")), root);
      assert NestedItems(depth, s, root) == Done(nested);
      var u := SchemaType(nested);
      if IsNumeric(u) {
        var fields := MatrixFields(source, prefix, FixedArrayLength(s));
        return Done(fields);
      }
      if IsCategorical(u) {
        return Done([PlotField(source, WildPath(prefix), if u == Some("boolean") then BooleanArray else CategoryArray)]);
      }
    }
    r := ExtractSchemaFields(depth - 1, source, s, root, prefix);
  }

  /** A matrix, and its columns when their number is fixed. */
  method MatrixFields(source: Source, prefix: string, width: Option<int>) returns (fields: seq<PlotField>)
    ensures fields == [PlotField(source, WildPath(prefix), NumberMatrix)]
                      + if width.Some? then IndexFields(source, prefix, width.value, 0) else []
  {
    fields := [PlotField(source, WildPath(prefix), NumberMatrix)];
    assert fields + [] == fields;
    if width.Some? {
      var columns := ColumnsLoop(source, prefix, width.value);
      fields := fields + columns;
    }
  }

  lemma ColumnNext(source: Source, prefix: string, width: int, i: nat, fields: seq<PlotField>)
    requires i < width
    ensures fields + IndexFields(source, prefix, width, i)
         == fields + [PlotField(source, IndexPath(prefix, i), NumberMatrixIndex)] + IndexFields(source, prefix, width, i + 1)
  {
    var column, rest := [PlotField(source, IndexPath(prefix, i), NumberMatrixIndex)], IndexFields(source, prefix, width, i + 1);
    assert fields + (column + rest) == fields + column + rest;
  }

  /** The fields of a matrix with `width` columns. */
  method ColumnsLoop(source: Source, prefix: string, width: int) returns (fields: seq<PlotField>)
    ensures fields == IndexFields(source, prefix, width, 0)
  {
    fields := [];
    var i := 0;
    while i < width
      invariant 0 <= i && (width >= 0 ==> i <= width) && (width < 0 ==> i == 0)
      invariant fields + IndexFields(source, prefix, width, i) == IndexFields(source, prefix, width, 0)
    {
      ColumnNext(source, prefix, width, i, fields);
      fields := fields + [PlotField(source, IndexPath(prefix, i), NumberMatrixIndex)];
      i := i + 1;
    }
  }

  /** The loop over a tuple's items. */
  method PrefixItemsLoop(depth: nat, source: Source, es: seq<Json>, root: Json, prefix: string)
    returns (r: Outcome<seq<PlotField>>)
    requires depth > 0
    ensures r == ExtractPrefixItems(depth, source, es, 0, root, prefix)
    decreases depth, 0
  {
    var fields, i := [], 0;
    PrependDone([], [], ExtractPrefixItems(depth, source, es, 0, root, prefix));
    while i < |es|
      invariant i <= |es|
      invariant Prepend(fields, ExtractPrefixItems(depth, source, es, i, root, prefix))
                == ExtractPrefixItems(depth, source, es, 0, root, prefix)
    {
      if es[i].Obj? {
        var here := ExtractSchemaFields(depth - 1, source, es[i], root, IndexPath(prefix, i));
        if !here.Done? {
          return here;
        }
        PrependDone(fields, here.value, ExtractPrefixItems(depth, source, es, i + 1, root, prefix));
        fields := fields + here.value;
      }
      i := i + 1;
    }
    PrependDone(fields, [], Done([]));
    r := Done(fields);
  }

  /** `_extract_branch_fields`: a dictionary over all alternatives that are not null. */
  method ExtractBranchFields(depth: nat, source: Source, schema: Json, root: Json, prefix: string)
    returns (r: Outcome<Option<seq<PlotField>>>)
    ensures r == ExtractBranches(depth, source, schema, root, prefix)
    decreases depth, 1
  {
    if depth == 0 {
      return TooDeep;
    }
    var branches := BranchList(schema);
    if branches.None? {
      return Done(None);
    }
    var fields: FieldDict, todo := [], branches.value;
    while todo != []
      invariant ExtractEach(depth, source, todo, root, prefix, fields)
                == ExtractEach(depth, source, branches.value, root, prefix, [])
      decreases |todo|
    {
      if todo[0].Obj? && !IsNullSchema(todo[0]) {
        var here := ExtractSchemaFields(depth - 1, source, todo[0], root, prefix);
        if !here.Done? {
          return here.PropagateFailure();
        }
        fields := PutAll(fields, here.value);
      }
      todo := todo[1..];
    }
    r := Done(Some(Values(fields)));
  }

  /** The inner loop: `fields[(field.source, field.path)] = field`. */
  method PutAll(before: FieldDict, here: seq<PlotField>) returns (fields: FieldDict)
    ensures fields == Merge(before, Keyed(here))
  {
    fields := before;
    var i := 0;
    while i < |here|
      invariant i <= |here|
      invariant Merge(fields, Keyed(here)[i..]) == Merge(before, Keyed(here))
    {
      fields := Put(fields, (here[i].source, here[i].path), here[i]);
      assert Keyed(here)[i..][1..] == Keyed(here)[i + 1..];
      i := i + 1;
    }
  }

  /** `_extract_plot_fields`. */
  method ExtractPlotFieldsLoop(depth: nat, inputSchema: Json, outputSchema: Json) returns (r: Outcome<seq<PlotField>>)
    ensures r == ExtractPlotFields(depth, inputSchema, outputSchema)
  {
    var input, output := RootOf(inputSchema), RootOf(outputSchema);
    var inputFields := ExtractSchemaFields(depth, Input, input, input, "");
    if !inputFields.Done? {
      return inputFields;
    }
    var fields := PutAll([], inputFields.value);
    var outputFields := ExtractSchemaFields(depth, Output, output, output, "");
    if !outputFields.Done? {
      return outputFields;
    }
    fields := PutAll(fields, outputFields.value);
    r := Done(Sort(Values(fields), FieldLe));
  }
}
