/** Field paths and what they select from a JSON value under the lax mode of SQL/JSON path
    (ISO/IEC 9075-2:2016, section 9.39): a member accessor unwraps an array once, an array
    accessor treats anything else as an array of one, and a missing member selects nothing. */
module LaxPath {
  import opened OrderedDict
  import opened Text
  import opened Json

  datatype Step = Member(name: string) | Wild | Index(i: nat)

  /** Evaluating `steps` on `v` selects the value `x` at location `loc` of `v`. */
  predicate Selects(steps: seq<Step>, v: Json, loc: seq<Step>, x: Json)
    decreases |steps|
  {
    if steps == [] then loc == [] && x == v
    else if steps[0].Member? && v.Arr? then
      && |loc| >= 2 && loc[0].Index? && loc[0].i < |v.elems| && loc[1] == steps[0]
      && Field(v.elems[loc[0].i], steps[0].name).Some?
      && Selects(steps[1..], Field(v.elems[loc[0].i], steps[0].name).value, loc[2..], x)
    else if steps[0].Member? then
      && loc != [] && loc[0] == steps[0] && Field(v, steps[0].name).Some?
      && Selects(steps[1..], Field(v, steps[0].name).value, loc[1..], x)
    else if v.Arr? then
      && loc != [] && loc[0].Index? && loc[0].i < |v.elems| && (steps[0].Wild? || loc[0] == steps[0])
      && Selects(steps[1..], v.elems[loc[0].i], loc[1..], x)
    else
      && (steps[0].Wild? || steps[0].i == 0)
      && Selects(steps[1..], v, loc, x)
  }

  /** The value at a concrete location, found strictly: members in objects, indices in arrays. */
  function ValueAt(v: Json, loc: seq<Step>): Option<Json>
    decreases |loc|
  {
    if loc == [] then Some(v)
    else
      match loc[0]
      case Member(name) => if Field(v, name).Some? then ValueAt(Field(v, name).value, loc[1..]) else None
      case Index(i) => if v.Arr? && i < |v.elems| then ValueAt(v.elems[i], loc[1..]) else None
      case Wild => None
  }

  predicate MatchesStep(s: Step, l: Step) { s == l || (s.Wild? && l.Index?) }

  /** `loc` is one of the places `steps` describes, `[*]` standing for any index. */
  predicate Matches(steps: seq<Step>, loc: seq<Step>)
  {
    |steps| == |loc| && forall k | 0 <= k < |steps| :: MatchesStep(steps[k], loc[k])
  }

  /** The text of a path with one more step, as the extractor extends its prefix. */
  function PrintStep(prefix: string, step: Step): string
  {
    match step
    case Member(name) => if prefix == "" then name else prefix + "." + name
    case Wild => prefix + "[*]"
    case Index(i) => prefix + ("[" + Decimal(i) + "]")
  }

  function Print(steps: seq<Step>): string
  {
    if steps == [] then "" else PrintStep(Print(steps[..|steps| - 1]), steps[|steps| - 1])
  }

  predicate CleanName(name: string) { name != "" && '.' !in name && '[' !in name }

  predicate Clean(steps: seq<Step>)
  {
    forall k | 0 <= k < |steps| && steps[k].Member? :: CleanName(steps[k].name)
  }

  /** On a value that holds something at a place the path describes, lax evaluation finds it. */
  lemma {:induction false} MatchSelects(steps: seq<Step>, v: Json, loc: seq<Step>)
    requires Matches(steps, loc) && ValueAt(v, loc).Some?
    ensures Selects(steps, v, loc, ValueAt(v, loc).value)
  {
    if steps != [] {
      assert Matches(steps[1..], loc[1..]) by {
        forall k | 0 <= k < |steps| - 1
          ensures MatchesStep(steps[1..][k], loc[1..][k])
        {
          assert MatchesStep(steps[k + 1], loc[k + 1]);
        }
      }
      match loc[0]
      case Member(name) => MatchSelects(steps[1..], Field(v, name).value, loc[1..]);
      case Index(i) => MatchSelects(steps[1..], v.elems[i], loc[1..]);
    }
  }

  /** What lax evaluation selects really is the value at the location it reports. */
  lemma {:induction false} SelectsValueAt(steps: seq<Step>, v: Json, loc: seq<Step>, x: Json)
    requires Selects(steps, v, loc, x)
    ensures ValueAt(v, loc) == Some(x)
    decreases |steps|
  {
    if steps != [] {
      if steps[0].Member? && v.Arr? {
        SelectsValueAt(steps[1..], Field(v.elems[loc[0].i], steps[0].name).value, loc[2..], x);
        assert loc[1..][1..] == loc[2..];
      } else if steps[0].Member? {
        SelectsValueAt(steps[1..], Field(v, steps[0].name).value, loc[1..], x);
      } else if v.Arr? {
        SelectsValueAt(steps[1..], v.elems[loc[0].i], loc[1..], x);
      } else {
        SelectsValueAt(steps[1..], v, loc, x);
      }
    }
  }

  lemma {:induction false} NullSelectsNull(steps: seq<Step>, loc: seq<Step>, x: Json)
    requires Selects(steps, Null, loc, x)
    ensures x == Null
    decreases |steps|
  {
    if steps != [] && !steps[0].Member? {
      NullSelectsNull(steps[1..], loc, x);
    }
  }

  lemma PrintSnoc(steps: seq<Step>, step: Step)
    ensures Print(steps + [step]) == PrintStep(Print(steps), step)
  {
    assert (steps + [step])[..|steps + [step]| - 1] == steps;
  }

  lemma {:induction false} PrintEmpty(steps: seq<Step>)
    requires Clean(steps)
    ensures Print(steps) == "" <==> steps == []
  {
    if steps != [] {
      PrintEmpty(steps[..|steps| - 1]);
    }
  }
}
