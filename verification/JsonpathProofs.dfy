/** Compiling a field path and reading the resulting SQL literal back gives the same steps. */
module JsonpathProofs {
  import opened OrderedDict
  import opened Text
  import opened LaxPath
  import opened Jsonpath

  /** The accessor each step becomes. */
  function RenderStep(cc: CharClass, step: Step): (r: string)
    requires step.Member? ==> step.name != ""
    ensures r != "" && (r[0] == '.' || r[0] == '[')
  {
    match step
    case Member(name) => JsonpathProperty(cc, name)
    case Wild => "[*]"
    case Index(i) => "[" + Decimal(i) + "]"
  }

  function Render(cc: CharClass, steps: seq<Step>): (r: string)
    requires Clean(steps)
    ensures r != "" ==> r[0] == '.' || r[0] == '['
  {
    if steps == [] then ""
    else
      assert Clean(steps[1..]);
      RenderStep(cc, steps[0]) + Render(cc, steps[1..])
  }

  lemma {:induction false} RenderSnoc(cc: CharClass, steps: seq<Step>, step: Step)
    requires Clean(steps) && (step.Member? ==> CleanName(step.name))
    ensures Clean(steps + [step]) && Render(cc, steps + [step]) == Render(cc, steps) + RenderStep(cc, step)
  {
    var all := steps + [step];
    assert Clean(all) by {
      forall k | 0 <= k < |all| && all[k].Member?
        ensures CleanName(all[k].name)
      {
        assert k < |steps| ==> all[k] == steps[k];
      }
    }
    if steps == [] {
      assert Render(cc, all[1..]) == "";
      assert RenderStep(cc, step) + "" == RenderStep(cc, step) == "" + RenderStep(cc, step);
    } else {
      assert all[1..] == steps[1..] + [step];
      RenderSnoc(cc, steps[1..], step);
    }
  }

  // ---- the compiler, segment by segment ---------------------------------------------

  function Plus(a: Option<string>, b: Option<string>): Option<string>
  {
    if a.None? || b.None? then None else Some(a.value + b.value)
  }

  lemma PlusAssociative(a: Option<string>, b: Option<string>, c: Option<string>)
    ensures Plus(Plus(a, b), c) == Plus(a, Plus(b, c))
  {
    if a.Some? && b.Some? && c.Some? {
      assert (a.value + b.value) + c.value == a.value + (b.value + c.value);
    }
  }

  function CompilePart(cc: CharClass, part: string): Option<string>
  {
    if part == "" then Some("") else CompileSegment(cc, part)
  }

  lemma {:induction false} CompileConcat(cc: CharClass, a: seq<string>, b: seq<string>)
    ensures CompileSegments(cc, a + b) == Plus(CompileSegments(cc, a), CompileSegments(cc, b))
  {
    if a == [] {
      assert a + b == b;
      assert CompileSegments(cc, b).Some? ==> "" + CompileSegments(cc, b).value == CompileSegments(cc, b).value;
    } else {
      CompileConcat(cc, a[1..], b);
      assert (a + b)[1..] == a[1..] + b;
      PlusAssociative(CompilePart(cc, a[0]), CompileSegments(cc, a[1..]), CompileSegments(cc, b));
    }
  }

  lemma CompileOne(cc: CharClass, part: string)
    ensures CompileSegments(cc, [part]) == CompilePart(cc, part)
  {
    assert [part][1..] == [];
    assert CompilePart(cc, part).Some? ==> CompilePart(cc, part).value + "" == CompilePart(cc, part).value;
  }

  lemma CompileExtend(cc: CharClass, parts: seq<string>, selector: string)
    requires parts != [] && CompileSegments(cc, parts).Some?
    requires selector != "" && selector[0] == '[' && Selectors(cc, selector).Some?
    ensures CompileSegments(cc, Extend(parts, selector)) == Plus(CompileSegments(cc, parts), Selectors(cc, selector))
  {
    var init, last := parts[..|parts| - 1], parts[|parts| - 1];
    assert parts == init + [last];
    CompileConcat(cc, init, [last]);
    CompileConcat(cc, init, [last + selector]);
    CompileOne(cc, last);
    CompileOne(cc, last + selector);
    CompileLonger(cc, last, selector);
    PlusAssociative(CompileSegments(cc, init), CompilePart(cc, last), Selectors(cc, selector));
  }

  /** The name a segment starts with, compiled. */
  function CompiledName(cc: CharClass, part: string): string
  {
    if NameLength(part) > 0 then JsonpathProperty(cc, part[..NameLength(part)]) else ""
  }

  lemma CompilePartAsPlus(cc: CharClass, part: string)
    ensures CompilePart(cc, part) == Plus(Some(CompiledName(cc, part)), Selectors(cc, part[NameLength(part)..]))
  {
    if part == "" {
      assert part[NameLength(part)..] == "" && "" + "" == "";
    }
  }

  lemma CompileLonger(cc: CharClass, part: string, selector: string)
    requires CompilePart(cc, part).Some?
    requires selector != "" && selector[0] == '['
    ensures CompilePart(cc, part + selector) == Plus(CompilePart(cc, part), Selectors(cc, selector))
  {
    var before, name := Selectors(cc, part[NameLength(part)..]), Some(CompiledName(cc, part));
    CompilePartAsPlus(cc, part);
    CompilePartAsPlus(cc, part + selector);
    LongerParts(cc, part, selector);
    SelectorsConcat(cc, part[NameLength(part)..], selector);
    PlusAssociative(name, before, Selectors(cc, selector));
  }

  lemma LongerParts(cc: CharClass, part: string, selector: string)
    requires selector != "" && selector[0] == '['
    ensures CompiledName(cc, part + selector) == CompiledName(cc, part)
    ensures (part + selector)[NameLength(part + selector)..] == part[NameLength(part)..] + selector
  {
    NameLengthLonger(part, selector);
    assert (part + selector)[..NameLength(part)] == part[..NameLength(part)];
  }

  lemma {:induction false} NameLengthLonger(part: string, selector: string)
    requires selector != "" && selector[0] == '['
    ensures NameLength(part + selector) == NameLength(part)
  {
    if part == "" {
      assert part + selector == selector;
    } else if part[0] != '[' {
      assert (part + selector)[1..] == part[1..] + selector;
      NameLengthLonger(part[1..], selector);
    }
  }

  lemma {:induction false} SelectorsConcat(cc: CharClass, a: string, b: string)
    requires Selectors(cc, a).Some?
    ensures Selectors(cc, a + b) == Plus(Selectors(cc, a), Selectors(cc, b))
    decreases |a|
  {
    if a == "" {
      assert a + b == b;
      assert Selectors(cc, b).Some? ==> "" + Selectors(cc, b).value == Selectors(cc, b).value;
    } else {
      var end := Find(a, ']');
      FindLonger(a, b, ']');
      assert (a + b)[1..end] == a[1..end];
      assert (a + b)[end + 1..] == a[end + 1..] + b;
      SelectorsConcat(cc, a[end + 1..], b);
      PlusAssociative(Selector(cc, a[1..end]), Selectors(cc, a[end + 1..]), Selectors(cc, b));
    }
  }

  lemma {:induction false} FindLonger(a: string, b: string, c: char)
    requires Find(a, c) < |a|
    ensures Find(a + b, c) == Find(a, c)
  {
    if a[0] != c {
      assert (a + b)[1..] == a[1..] + b;
      FindLonger(a[1..], b, c);
    }
  }

  /** One bracketed selector compiles to itself. */
  lemma CompileSelector(cc: CharClass, step: Step)
    requires Sane(cc) && !step.Member?
    ensures var text := RenderStep(cc, step);
            text[0] == '[' && '.' !in text && Selectors(cc, text) == Some(text)
  {
    var text := RenderStep(cc, step);
    var inner := if step.Wild? then "*" else Decimal(step.i);
    assert text == "[" + inner + "]";
    assert Find(text, ']') == |text| - 1 by {
      FindClose(inner);
    }
    assert text[1..|text| - 1] == inner;
    assert text[|text|..] == "";
    assert text + "" == text;
    if step.Index? {
      assert inner != "*" by { assert IsDigit(inner[0]); }
    }
  }

  lemma {:induction false} FindIs(s: string, c: char, n: nat)
    requires n < |s| && s[n] == c && c !in s[..n]
    ensures Find(s, c) == n
  {
    if n > 0 {
      assert s[0] == s[..n][0];
      assert s[1..][..n - 1] == s[..n][1..];
      FindIs(s[1..], c, n - 1);
    }
  }

  lemma FindClose(inner: string)
    requires ']' !in inner
    ensures Find("[" + inner + "]", ']') == |inner| + 1
  {
    var text := "[" + inner + "]";
    assert text[..|inner| + 1] == "[" + inner;
    FindIs(text, ']', |inner| + 1);
  }

  lemma CompileName(cc: CharClass, name: string)
    requires CleanName(name)
    ensures CompilePart(cc, name) == Some(JsonpathProperty(cc, name))
  {
    assert NameLength(name) == |name|;
    assert name[..|name|] == name && name[|name|..] == "";
    assert JsonpathProperty(cc, name) + "" == JsonpathProperty(cc, name);
  }

  /** `_jsonpath_literal` never raises on a printed path, and renders it step by step. */
  lemma {:induction false} CompilePrinted(cc: CharClass, steps: seq<Step>)
    requires Sane(cc) && Clean(steps)
    ensures CompileSegments(cc, Split(Print(steps), '.')) == Some(Render(cc, steps))
  {
    if steps == [] {
      CompileOne(cc, "");
    } else {
      var init, last := steps[..|steps| - 1], steps[|steps| - 1];
      assert steps == init + [last];
      RenderSnoc(cc, init, last);
      CompilePrinted(cc, init);
      PrintEmpty(init);
      var prefix := Print(init);
      if last.Member? {
        CompileName(cc, last.name);
        SplitNone(last.name, '.');
        CompileOne(cc, last.name);
        if prefix == "" {
          assert "" + RenderStep(cc, last) == RenderStep(cc, last);
        } else {
          SplitConcat(prefix, '.', last.name);
          CompileConcat(cc, Split(prefix, '.'), [last.name]);
        }
      } else {
        var selector := RenderStep(cc, last);
        CompileSelector(cc, last);
        SplitExtend(prefix, selector, '.');
        CompileExtend(cc, Split(prefix, '.'), selector);
      }
    }
  }

  // ---- the reader -------------------------------------------------------------------

  lemma {:induction false} ReadSqlBodyBack(value: string, suffix: string)
    requires suffix == "" || suffix[0] != '\''
    ensures ReadSqlBody(Replace(value, '\'', "''") + "'" + suffix) == Some((value, suffix))
  {
    var text := Replace(value, '\'', "''") + "'" + suffix;
    if value == "" {
      assert text[1..] == suffix;
    } else {
      ReadSqlBodyBack(value[1..], suffix);
      var rest := Replace(value[1..], '\'', "''") + "'" + suffix;
      assert text == (if value[0] == '\'' then "''" else [value[0]]) + rest;
      assert [value[0]] + value[1..] == value;
    }
  }

  function Escaped(name: string): string { Replace(Replace(name, '\\', "\\\\"), '"', "\\\"") }

  lemma EscapedHead(name: string)
    requires name != ""
    ensures Escaped(name) ==
            (if name[0] == '\\' then "\\\\" else if name[0] == '"' then "\\\"" else [name[0]]) + Escaped(name[1..])
  {
    var c := if name[0] == '\\' then "\\\\" else [name[0]];
    ReplaceConcat(c, Replace(name[1..], '\\', "\\\\"), '"', "\\\"");
    if name[0] == '\\' {
      assert Replace("\\\\", '"', "\\\"") == "\\\\" by {
        assert "\\\\"[1..] == "\\";
        assert "\\"[1..] == "";
      }
    } else {
      assert [name[0]][1..] == "";
    }
  }

  lemma {:induction false} ReadQuotedBack(name: string, rest: string)
    ensures ReadQuotedKey(Escaped(name) + "\"" + rest) == Some((name, rest))
  {
    var text := Escaped(name) + "\"" + rest;
    if name == "" {
      assert text[1..] == rest;
    } else {
      EscapedHead(name);
      ReadQuotedBack(name[1..], rest);
      var tail := Escaped(name[1..]) + "\"" + rest;
      var skip := if name[0] == '\\' || name[0] == '"' then 2 else 1;
      assert text[skip..] == tail;
      assert [name[0]] + name[1..] == name;
    }
  }

  lemma {:induction false} KeyLengthBack(name: string, rest: string)
    requires forall i | 0 <= i < |name| :: !IsSpecial(name[i])
    requires rest == "" || IsSpecial(rest[0])
    ensures KeyLength(name + rest) == |name|
  {
    if name == "" {
      assert name + rest == rest;
    } else {
      assert (name + rest)[1..] == name[1..] + rest;
      KeyLengthBack(name[1..], rest);
    }
  }

  lemma ReadPlain(name: string, rest: string)
    requires name != "" && !IsDigit(name[0]) && forall i | 0 <= i < |name| :: !IsSpecial(name[i])
    requires rest == "" || rest[0] == '.' || rest[0] == '['
    ensures NextAccessor("." + name + rest) == Some((Member(name), rest))
  {
    var text := "." + name + rest;
    SliceMiddle(".", name, rest);
    DropHead('.', name + rest);
    assert text == "." + (name + rest);
    KeyLengthBack(name, rest);
    assert text[1] == name[0];
  }

  lemma DropHead(c: char, s: string)
    ensures ([c] + s)[1..] == s
  {
  }

  lemma SliceMiddle(a: string, b: string, c: string)
    ensures (a + b + c)[|a|..|a| + |b|] == b && (a + b + c)[|a| + |b|..] == c
  {
  }

  lemma ReadQuoted(name: string, rest: string)
    ensures NextAccessor(".\"" + Escaped(name) + "\"" + rest) == Some((Member(name), rest))
  {
    var body := Escaped(name) + "\"" + rest;
    var text := ".\"" + Escaped(name) + "\"" + rest;
    assert text == ".\"" + body;
    assert text[2..] == body;
    ReadQuotedBack(name, rest);
  }

  lemma ReadSelector(inner: string, rest: string)
    requires inner != "" && ']' !in inner
    ensures var text := "[" + inner + "]" + rest;
            var end := Find(text, ']');
            end == |inner| + 1 && text[1..end] == inner && text[end + 1..] == rest
  {
    FindClose(inner);
    FindLonger("[" + inner + "]", rest, ']');
    var text := "[" + inner + "]" + rest;
    SliceMiddle("[", inner, "]" + rest);
    assert text == "[" + inner + ("]" + rest);
  }

  lemma ReadStep(cc: CharClass, step: Step, rest: string)
    requires Sane(cc) && (step.Member? ==> step.name != "")
    requires rest == "" || rest[0] == '.' || rest[0] == '['
    ensures NextAccessor(RenderStep(cc, step) + rest) == Some((step, rest))
  {
    match step {
      case Member(name) =>
        if IsPlain(cc, name) {
          ReadPlain(name, rest);
        } else {
          ReadQuoted(name, rest);
        }
      case Wild =>
        ReadWild(rest);
      case Index(i) =>
        ReadIndex(i, rest);
    }
  }

  lemma ReadWild(rest: string)
    ensures NextAccessor("[*]" + rest) == Some((Wild, rest))
  {
    ReadSelector("*", rest);
    assert "[" + "*" + "]" == "[*]";
  }

  lemma ReadIndex(i: nat, rest: string)
    ensures NextAccessor("[" + Decimal(i) + "]" + rest) == Some((Index(i), rest))
  {
    var digits := Decimal(i);
    assert ']' !in digits && digits != "*" by {
      assert IsDigit(digits[0]);
    }
    ReadSelector(digits, rest);
    DecimalRoundTrip(i);
    assert ("[" + digits + "]" + rest)[0] == '[';
  }

  lemma {:induction false} ReadRendered(cc: CharClass, steps: seq<Step>)
    requires Sane(cc) && Clean(steps)
    ensures ReadAccessors(Render(cc, steps)) == Some(steps)
  {
    if steps != [] {
      assert Clean(steps[1..]);
      ReadRendered(cc, steps[1..]);
      ReadStep(cc, steps[0], Render(cc, steps[1..]));
      assert [steps[0]] + steps[1..] == steps;
    }
  }

  /** What a field path means once it has gone through the compiler and the database's reader. */
  function Meaning(cc: CharClass, fieldPath: string): Option<seq<Step>>
  {
    var literal := JsonpathLiteral(cc, fieldPath);
    if literal.None? then None else ReadJsonpathLiteral(literal.value)
  }

  /** Compilation preserves meaning, through both layers of quoting. */
  lemma CompilationPreservesMeaning(cc: CharClass, steps: seq<Step>)
    requires Sane(cc) && Clean(steps)
    ensures JsonpathLiteral(cc, Print(steps)).Some?
    ensures Meaning(cc, Print(steps)) == Some(steps)
  {
    CompilePrinted(cc, steps);
    ReadRendered(cc, steps);
    ReadLiteral("$" + Render(cc, steps));
    assert ("$" + Render(cc, steps))[1..] == Render(cc, steps);
  }

  lemma ReadLiteral(path: string)
    ensures ReadSqlString(SqlStringLiteral(path) + "::jsonpath") == Some((path, "::jsonpath"))
  {
    ReadSqlBodyBack(path, "::jsonpath");
    assert (SqlStringLiteral(path) + "::jsonpath")[1..] == Replace(path, '\'', "''") + "'" + "::jsonpath";
  }

  const ASCII := CharClass(
    c => 'a' <= c <= 'z' || 'A' <= c <= 'Z' || IsDigit(c), c => 'a' <= c <= 'z' || 'A' <= c <= 'Z', c => IsDigit(c))

  /** Distinct positions never share a printed path. */
  lemma PrintInjective(a: seq<Step>, b: seq<Step>)
    requires Clean(a) && Clean(b) && Print(a) == Print(b)
    ensures a == b
  {
    CompilationPreservesMeaning(ASCII, a);
    CompilationPreservesMeaning(ASCII, b);
  }
}
