/** Several alternatives with scalar types: which field the position gets, and exactly when it is sound. */
module ScalarUnions {
  import opened ExtractionVisits
  import opened OrderedDict
  import opened Json
  import opened JsonSchema
  import opened LaxPath
  import opened PlotFields
  import opened PlotFieldSoundness
  import opened SchemaFragment
  import opened SmallSchemas

  // ---- the schemas ------------------------------------------------------------------

  predicate IsUnionKey(key: string) { key == "anyOf" || key == "oneOf" }

  function Union(key: string, bs: seq<Json>): Json { Obj([(key, Arr(bs))]) }

  /** The type an alternative is read as once it is normalised. */
  function ReadAs(root: Json, b: Json): Option<string>
  {
    if b.Obj? then SchemaType(Pass(b, root)) else None
  }

  /** Null, or read as a scalar: by its type, nullable or not, by an enumeration, or by reference. */
  predicate ScalarAlternative(root: Json, b: Json)
  {
    b.Obj? && (IsNullSchema(b) || (LocalOk(b, root) && BranchList(Pass(b, root)).None? && IsScalar(ReadAs(root, b))))
  }

  predicate ScalarAlternatives(root: Json, bs: seq<Json>)
  {
    forall b | b in bs :: ScalarAlternative(root, b)
  }

  /** The kind of the field of a scalar schema. */
  function KindOf(u: Option<string>): ValueType
  {
    if IsNumeric(u) then Number else if u == Some("boolean") then Boolean else Category
  }

  function Last(bs: seq<Json>): Json
    requires bs != []
  {
    bs[|bs| - 1]
  }

  /** The kind of the last alternative that is not null. */
  function LastKind(root: Json, bs: seq<Json>): ValueType
    requires NonNullBranches(bs) != []
  {
    KindOf(ReadAs(root, Last(NonNullBranches(bs))))
  }

  lemma UnionFields(key: string, bs: seq<Json>, q: string)
    ensures Field(Union(key, bs), q) == if q == key then Some(Arr(bs)) else None
  {
    GetSingle(key, Arr(bs), q);
  }

  // ---- what is extracted ------------------------------------------------------------

  lemma AlternativeNormal(d: nat, root: Json, b: Json)
    requires d > 0 && ScalarAlternative(root, b) && !IsNullSchema(b)
    ensures Normalize(d, b, root) == Done(Pass(b, root)) && Truthy(Pass(b, root))
  {
  }

  /** A scalar alternative gives one field. */
  lemma AlternativeExtracts(depth: nat, source: Source, b: Json, root: Json, prefix: string)
    requires depth > 1 && prefix != "" && ScalarAlternative(root, b) && !IsNullSchema(b)
    ensures ExtractSchema(depth, source, b, root, prefix) == Done([PlotField(source, prefix, KindOf(ReadAs(root, b)))])
  {
    AlternativeNormal(depth - 1, root, b);
    var n := Pass(b, root);
    assert ExtractBranches(depth - 1, source, n, root, prefix) == Done(None);
    assert ExtractNormal(depth, source, n, root, prefix) == ExtractTyped(depth, source, n, root, prefix);
  }

  /** With alternatives the collected fields are the result. */
  lemma WithBranches(depth: nat, source: Source, s: Json, bs: seq<Json>, root: Json, prefix: string, fields: FieldDict)
    requires depth > 1 && BranchList(s) == Some(bs) && Truthy(s) && Normalize(depth - 1, s, root) == Done(s)
    requires ExtractEach(depth - 1, source, bs, root, prefix, []) == Done(fields)
    ensures ExtractSchema(depth, source, s, root, prefix) == Done(Values(fields))
  {
    assert ExtractBranches(depth - 1, source, s, root, prefix) == Done(Some(Values(fields)));
    assert ExtractNormal(depth, source, s, root, prefix) == Done(Values(fields));
  }

  /** A sole alternative is taken, several are kept. */
  lemma UnionNormal(depth: nat, key: string, bs: seq<Json>, root: Json)
    requires depth > 1 && IsUnionKey(key)
    ensures BranchList(Union(key, bs)) == Some(bs)
    ensures Normalize(depth, Union(key, bs), root)
            == if |NonNullBranches(bs)| == 1 then Normalize(depth - 1, NonNullBranches(bs)[0], root) else Done(Union(key, bs))
  {
    UnionFields(key, bs, "type");
    UnionFields(key, bs, "$ref");
    UnionFields(key, bs, "anyOf");
    UnionFields(key, bs, "oneOf");
  }

  /** A field for the path, collected over others for it, replaces them. */
  function OneField(source: Source, prefix: string, kind: ValueType): FieldDict
  {
    [((source, prefix), PlotField(source, prefix, kind))]
  }

  predicate AtMostOneField(source: Source, prefix: string, fields: FieldDict)
  {
    fields == [] || exists k :: fields == OneField(source, prefix, k)
  }

  lemma OneFieldReplaces(source: Source, prefix: string, fields: FieldDict, kind: ValueType)
    requires AtMostOneField(source, prefix, fields)
    ensures Merge(fields, Keyed([PlotField(source, prefix, kind)])) == OneField(source, prefix, kind)
  {
    var added := Keyed([PlotField(source, prefix, kind)]);
    assert added == OneField(source, prefix, kind) && added[1..] == [];
    assert fields != [] ==> fields[1..] == [];
  }

  lemma NextAlternative(depth: nat, source: Source, b: Json, bs: seq<Json>, root: Json, prefix: string, fields: FieldDict)
    requires depth > 2 && prefix != "" && ScalarAlternative(root, b) && AtMostOneField(source, prefix, fields)
    ensures ExtractEach(depth, source, [b] + bs, root, prefix, fields)
            == ExtractEach(depth, source, bs, root, prefix,
                           if IsNullSchema(b) then fields else OneField(source, prefix, KindOf(ReadAs(root, b))))
  {
    assert ([b] + bs)[1..] == bs;
    if !IsNullSchema(b) {
      AlternativeExtracts(depth - 1, source, b, root, prefix);
      OneFieldReplaces(source, prefix, fields, KindOf(ReadAs(root, b)));
    }
  }

  /** What collecting over the alternatives leaves. */
  function Collected(source: Source, prefix: string, root: Json, bs: seq<Json>, fields: FieldDict): FieldDict
  {
    if NonNullBranches(bs) == [] then fields else OneField(source, prefix, LastKind(root, bs))
  }

  lemma {:induction false} BranchesObj(bs: seq<Json>)
    ensures forall b | b in NonNullBranches(bs) :: b.Obj? && b in bs && !IsNullSchema(b)
  {
    if bs != [] {
      BranchesObj(bs[1..]);
    }
  }

  lemma LastNext(bs: seq<Json>)
    requires bs != [] && bs[0].Obj?
    ensures IsNullSchema(bs[0]) ==> NonNullBranches(bs) == NonNullBranches(bs[1..])
    ensures !IsNullSchema(bs[0]) ==>
      && NonNullBranches(bs) != []
      && Last(NonNullBranches(bs)) == if NonNullBranches(bs[1..]) == [] then bs[0] else Last(NonNullBranches(bs[1..]))
  {
    var rest := NonNullBranches(bs[1..]);
    if IsNullSchema(bs[0]) {
      assert NonNullBranches(bs) == [] + rest;
    } else {
      assert NonNullBranches(bs) == [bs[0]] + rest;
    }
  }

  lemma {:induction false} EachUnion(depth: nat, source: Source, bs: seq<Json>, root: Json, prefix: string, fields: FieldDict)
    requires depth > 2 && prefix != "" && ScalarAlternatives(root, bs) && AtMostOneField(source, prefix, fields)
    ensures ExtractEach(depth, source, bs, root, prefix, fields) == Done(Collected(source, prefix, root, bs, fields))
    decreases |bs|
  {
    if bs != [] {
      assert bs == [bs[0]] + bs[1..] && bs[0] in bs;
      var next := if IsNullSchema(bs[0]) then fields else OneField(source, prefix, KindOf(ReadAs(root, bs[0])));
      EachUnion(depth, source, bs[1..], root, prefix, next);
      LastNext(bs);
      NextAlternative(depth, source, bs[0], bs[1..], root, prefix, fields);
    }
  }

  lemma SeveralExtract(depth: nat, source: Source, key: string, bs: seq<Json>, root: Json, prefix: string)
    requires depth > 3 && prefix != "" && IsUnionKey(key) && ScalarAlternatives(root, bs) && |NonNullBranches(bs)| != 1
    ensures ExtractSchema(depth, source, Union(key, bs), root, prefix) == Done(Values(Collected(source, prefix, root, bs, [])))
  {
    UnionNormal(depth - 1, key, bs, root);
    EachUnion(depth - 1, source, bs, root, prefix, []);
    WithBranches(depth, source, Union(key, bs), bs, root, prefix, Collected(source, prefix, root, bs, []));
  }

  lemma SoleExtracts(depth: nat, source: Source, key: string, bs: seq<Json>, root: Json, prefix: string)
    requires depth > 3 && prefix != "" && IsUnionKey(key) && ScalarAlternatives(root, bs) && |NonNullBranches(bs)| == 1
    ensures ExtractSchema(depth, source, Union(key, bs), root, prefix)
            == Done([PlotField(source, prefix, KindOf(ReadAs(root, NonNullBranches(bs)[0])))])
  {
    var b := NonNullBranches(bs)[0];
    BranchesObj(bs);
    assert b in NonNullBranches(bs);
    UnionNormal(depth - 1, key, bs, root);
    AlternativeNormal(depth - 2, root, b);
    AlternativeNormal(depth - 1, root, b);
    AlternativeExtracts(depth, source, b, root, prefix);
    assert ExtractSchema(depth, source, Union(key, bs), root, prefix) == ExtractSchema(depth, source, b, root, prefix);
  }

  /** Of scalar alternatives the last one wins: it alone says what field the position gets. */
  lemma LastAlternativeWins(depth: nat, source: Source, key: string, bs: seq<Json>, root: Json, prefix: string)
    requires depth > 3 && prefix != "" && IsUnionKey(key) && ScalarAlternatives(root, bs)
    ensures ExtractSchema(depth, source, Union(key, bs), root, prefix) ==
            Done(if NonNullBranches(bs) == [] then [] else [PlotField(source, prefix, LastKind(root, bs))])
  {
    if |NonNullBranches(bs)| == 1 {
      SoleExtracts(depth, source, key, bs, root, prefix);
    } else {
      SeveralExtract(depth, source, key, bs, root, prefix);
      var kept := Values(Collected(source, prefix, root, bs, []));
      assert NonNullBranches(bs) != [] ==> kept == [PlotField(source, prefix, LastKind(root, bs))];
    }
  }

  // ---- when it is sound -------------------------------------------------------------

  lemma UnionValid(k: nat, key: string, bs: seq<Json>, b: Json, root: Json, v: Json)
    requires IsUnionKey(key) && b in bs && ValidIn(k, root, b, v)
    ensures Valid(root, Union(key, bs), v)
  {
    FirstHolds(k, root, b, bs, v);
    UnionFields(key, bs, "type");
    UnionFields(key, bs, "$ref");
    UnionFields(key, bs, "enum");
    UnionFields(key, bs, "properties");
    UnionFields(key, bs, "prefixItems");
    UnionFields(key, bs, "items");
    UnionFields(key, bs, "minItems");
    UnionFields(key, bs, "maxItems");
    UnionFields(key, bs, "anyOf");
    UnionFields(key, bs, "oneOf");
    ValidWhen(k + 1, root, Union(key, bs), v);
  }

  lemma UnionInstance(key: string, bs: seq<Json>, root: Json, v: Json) returns (b: Json)
    requires IsUnionKey(key) && Valid(root, Union(key, bs), v)
    ensures b in bs && Valid(root, b, v)
  {
    var k: nat :| ValidIn(k, root, Union(key, bs), v);
    UnionFields(key, bs, key);
    assert SomeBranchHolds(k - 1, root, Some(Arr(bs)), v);
    b :| b in bs && ValidIn(k - 1, root, b, v);
  }

  lemma AlternativeType(root: Json, b: Json, v: Json)
    requires ScalarAlternative(root, b) && Valid(root, b, v) && v != Null
    ensures !IsNullSchema(b) && HasType(Str(ReadAs(root, b).value), v)
  {
    var k: nat :| ValidIn(k, root, b, v);
    if !IsNullSchema(b) {
      ValidPass(k, root, b, v);
      TypeRead(k, root, Pass(b, root), v);
    }
  }

  lemma TypeKind(t: string, u: Option<string>, v: Json)
    requires IsScalar(Some(t)) && IsScalar(u) && HasType(Str(t), v)
    ensures HasKind(KindOf(u), v) <==> KindOf(u) == KindOf(Some(t))
  {
  }

  /** A value that is not null has the kind the alternative is read as, and no other. */
  lemma InstanceKind(root: Json, b: Json, v: Json, u: Option<string>)
    requires ScalarAlternative(root, b) && Valid(root, b, v) && v != Null && IsScalar(u)
    ensures !IsNullSchema(b) && (HasKind(KindOf(u), v) <==> KindOf(u) == KindOf(ReadAs(root, b)))
  {
    AlternativeType(root, b, v);
    TypeKind(ReadAs(root, b).value, u, v);
  }

  /** An instance of the alternative that is not null. */
  ghost predicate Inhabited(root: Json, b: Json)
  {
    exists v :: v != Null && Valid(root, b, v)
  }

  /** Every alternative that admits more than null is of the kind of the last. */
  ghost predicate OneKind(root: Json, bs: seq<Json>)
    requires NonNullBranches(bs) != []
  {
    forall b | b in bs && Inhabited(root, b) :: KindOf(ReadAs(root, b)) == LastKind(root, bs)
  }

  lemma UnsoundUnion(key: string, bs: seq<Json>, b: Json, root: Json, u: Option<string>)
    requires IsUnionKey(key) && ScalarAlternatives(root, bs) && b in bs && Inhabited(root, b) && IsScalar(u)
    requires KindOf(ReadAs(root, b)) != KindOf(u)
    ensures !Sound(root, Union(key, bs), [], KindOf(u))
  {
    var v :| v != Null && Valid(root, b, v);
    var k: nat :| ValidIn(k, root, b, v);
    UnionValid(k, key, bs, b, root, v);
    InstanceKind(root, b, v, u);
    assert Selects([], v, [], v);
  }

  lemma SoundUnion(key: string, bs: seq<Json>, root: Json)
    requires IsUnionKey(key) && ScalarAlternatives(root, bs)
    requires NonNullBranches(bs) != [] && OneKind(root, bs)
    requires IsScalar(ReadAs(root, Last(NonNullBranches(bs))))
    ensures Sound(root, Union(key, bs), [], LastKind(root, bs))
  {
    forall v, loc, x | Valid(root, Union(key, bs), v) && Selects([], v, loc, x)
      ensures x == Null || (HasKind(LastKind(root, bs), x) && Matches([], loc))
    {
      if x != Null {
        var b := UnionInstance(key, bs, root, v);
        InstanceKind(root, b, v, ReadAs(root, Last(NonNullBranches(bs))));
        assert Inhabited(root, b);
      }
    }
  }

  /** The one field extracted from scalar alternatives is sound exactly if all of them that admit more
      than null are of one kind, that of the last. */
  lemma UnionSoundExactly(depth: nat, source: Source, key: string, bs: seq<Json>, root: Json, prefix: string)
    requires depth > 3 && prefix != "" && IsUnionKey(key) && ScalarAlternatives(root, bs) && NonNullBranches(bs) != []
    ensures ExtractSchema(depth, source, Union(key, bs), root, prefix) == Done([PlotField(source, prefix, LastKind(root, bs))])
    ensures Sound(root, Union(key, bs), [], LastKind(root, bs)) <==> OneKind(root, bs)
  {
    LastAlternativeWins(depth, source, key, bs, root, prefix);
    BranchesObj(bs);
    var last := Last(NonNullBranches(bs));
    assert last in NonNullBranches(bs) && ScalarAlternative(root, last);
    if OneKind(root, bs) {
      SoundUnion(key, bs, root);
    } else {
      var b :| b in bs && Inhabited(root, b) && KindOf(ReadAs(root, b)) != LastKind(root, bs);
      UnsoundUnion(key, bs, b, root, ReadAs(root, last));
    }
  }

  // ---- types and enumerations -------------------------------------------------------

  /** An alternative that is no more than a type or an enumeration. */
  predicate Simple(b: Json)
  {
    b.Obj? && |b.members| == 1
    && match b.members[0]
       case ("type", Str(t)) => t == "null" || IsScalar(Some(t))
       case ("enum", Arr(es)) => IsScalar(SchemaType(Enumerated(es)))
       case _ => false
  }

  lemma SimpleTyped(t: string, root: Json)
    requires t == "null" || IsScalar(Some(t))
    ensures ScalarAlternative(root, Typed(t))
    ensures IsNullSchema(Typed(t)) <==> t == "null"
    ensures t != "null" ==> Inhabited(root, Typed(t))
  {
    TypedInFragment(t, root);
    TypedFields(t, "type");
    TypedFields(t, "anyOf");
    TypedFields(t, "oneOf");
    if t != "null" {
      TypedValid(t, root, Sample(t));
      assert Valid(root, Typed(t), Sample(t));
    }
  }

  lemma SimpleEnumerated(es: seq<Json>, root: Json)
    requires IsScalar(SchemaType(Enumerated(es)))
    ensures ScalarAlternative(root, Enumerated(es)) && !IsNullSchema(Enumerated(es)) && Inhabited(root, Enumerated(es))
  {
    EnumeratedLocal(es, root);
    EnumeratedFields(es, "type");
    EnumeratedFields(es, "enum");
    EnumeratedFields(es, "anyOf");
    EnumeratedFields(es, "oneOf");
    var e := NonNullValues(es)[0];
    NonNullValueIn(es, e);
    assert e in NonNullValues(es);
    EnumeratedValid(es, root, e);
    assert Valid(root, Enumerated(es), e);
  }

  lemma {:induction false} NonNullValueIn(es: seq<Json>, e: Json)
    requires e in NonNullValues(es)
    ensures e in es && e != Null
  {
    if !(e == es[0] && !es[0].Null?) {
      NonNullValueIn(es[1..], e);
    }
  }

  lemma SimpleAlternative(root: Json, b: Json)
    requires Simple(b)
    ensures ScalarAlternative(root, b) && (!IsNullSchema(b) ==> Inhabited(root, b))
  {
    match b.members[0] {
      case (key, value) =>
        assert b == Obj([(key, value)]);
        if key == "type" {
          SimpleTyped(value.s, root);
        } else {
          SimpleEnumerated(value.elems, root);
        }
    }
  }

  /** For such alternatives the condition can be read off: all but null are of one kind. */
  lemma SimpleOneKind(root: Json, bs: seq<Json>)
    requires (forall b | b in bs :: Simple(b)) && NonNullBranches(bs) != []
    ensures ScalarAlternatives(root, bs)
    ensures OneKind(root, bs) <==>
            forall b | b in NonNullBranches(bs) :: KindOf(ReadAs(root, b)) == LastKind(root, bs)
  {
    BranchesObj(bs);
    forall b | b in bs
      ensures ScalarAlternative(root, b) && (b in NonNullBranches(bs) <==> Inhabited(root, b))
    {
      SimpleAlternative(root, b);
      if !IsNullSchema(b) {
        InNonNullBranches(bs, b);
      } else {
        NullOnly(root, b);
      }
    }
  }

  lemma NullOnly(root: Json, b: Json)
    requires b.Obj? && IsNullSchema(b)
    ensures !Inhabited(root, b)
  {
  }
}
