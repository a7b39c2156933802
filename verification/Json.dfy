/** JSON documents as Python sees them after decoding: integers and floats are told apart,
    objects keep the insertion order of their keys. */
module Json {
  import opened OrderedDict
  import opened Text

  datatype Json =
    | Null
    | Bool(b: bool)
    | Int(n: int)
    | Float(r: real)
    | Str(s: string)
    | Arr(elems: seq<Json>)
    | Obj(members: Dict<string, Json>)

  const EMPTY := Obj([])

  /** `j.get(key)` for an object, absent for everything else. */
  function Field(j: Json, key: string): Option<Json>
  {
    if j.Obj? then Get(j.members, key) else None
  }

  /** Python truthiness. */
  predicate Truthy(j: Json)
  {
    match j
    case Null => false
    case Bool(b) => b
    case Int(n) => n != 0
    case Float(r) => r != 0.0
    case Str(s) => s != ""
    case Arr(elems) => elems != []
    case Obj(members) => members != []
  }

  predicate IsNumber(j: Json) { j.Int? || j.Float? }

  function NumberOf(j: Json): real
    requires IsNumber(j)
  {
    if j.Int? then j.n as real else j.r
  }

  /** Equality of JSON values: numbers by value, objects regardless of key order. */
  predicate Same(a: Json, b: Json)
    decreases a
  {
    match a
    case Int(_) => IsNumber(b) && NumberOf(a) == NumberOf(b)
    case Float(_) => IsNumber(b) && NumberOf(a) == NumberOf(b)
    case Arr(xs) => b.Arr? && |xs| == |b.elems| && forall i | 0 <= i < |xs| :: Same(xs[i], b.elems[i])
    case Obj(ms) =>
      && b.Obj?
      && (forall i | 0 <= i < |ms| ::
            Get(b.members, ms[i].0).Some? && Same(ms[i].1, Get(b.members, ms[i].0).value))
      && (forall m | m in b.members :: Get(ms, m.0).Some?)
    case _ => a == b
  }

  // ---- local references (RFC 6901) --------------------------------------------------

  /** Section 4 of RFC 6901: decode `~1` first, then `~0`. */
  function Unescape(token: string): string
  {
    ReplacePair(ReplacePair(token, '~', '1', '/'), '~', '0', '~')
  }

  /** Section 3 of RFC 6901: `~` becomes `~0`, then `/` becomes `~1`. */
  function Escape(key: string): string
  {
    Replace(Replace(key, '~', "~0"), '/', "~1")
  }

  /** Follow reference tokens through nested objects. */
  function Walk(node: Json, tokens: seq<string>): Option<Json>
    decreases |tokens|
  {
    if tokens == [] then Some(node)
    else
      var next := Field(node, Unescape(tokens[0]));
      if next.None? then None else Walk(next.value, tokens[1..])
  }

  /** The object a local `$ref` of this schema leads to, if there is one. */
  function RefTarget(schema: Json, root: Json): Option<Json>
  {
    match Field(schema, "$ref")
    case Some(Str(ref)) =>
      if |ref| < 2 || ref[..2] != "#/" then None
      else
        var node := Walk(root, Split(ref[2..], '/'));
        if node.Some? && node.value.Obj? then node else None
    case _ => None
  }
}
