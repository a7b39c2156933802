/** The compiler from field paths to SQL-quoted jsonpath literals
    (control-plane/src/infrastructure/observability/grafana.py, lines 467-513), and an
    independent reader of such literals. */
module Jsonpath {
  import opened OrderedDict
  import opened Text
  import opened LaxPath

  /** Python's character classes (`isalnum`, `isalpha`, `isdigit`), over all of Unicode. */
  datatype CharClass = CharClass(alnum: char -> bool, alpha: char -> bool, digit: char -> bool)

  /** What the proofs need of them: punctuation is not alphanumeric, letters are not digits. */
  ghost predicate Sane(cc: CharClass)
  {
    && (forall c: char | cc.alnum(c) :: !IsSpecial(c))
    && (forall c: char | cc.alpha(c) :: cc.alnum(c) && !IsDigit(c))
    && (forall c: char | IsDigit(c) :: cc.digit(c))
  }

  // ---- the compiler -----------------------------------------------------------------

  /** `_sql_string_literal`. */
  function SqlStringLiteral(value: string): string { "'" + Replace(value, '\'', "''") + "'" }

  predicate IsPlain(cc: CharClass, name: string)
    requires name != ""
  {
    (forall i | 0 <= i < |name| :: name[i] == '_' || cc.alnum(name[i])) && (cc.alpha(name[0]) || name[0] == '_')
  }

  /** `_jsonpath_property`. */
  function JsonpathProperty(cc: CharClass, name: string): string
    requires name != ""
  {
    if IsPlain(cc, name) then "." + name
    else ".\"" + Replace(Replace(name, '\\', "\\\\"), '"', "\\\"") + "\""
  }

  /** Where a segment's selectors start. */
  function NameLength(segment: string): (n: nat)
    ensures n <= |segment|
    ensures '[' !in segment[..n]
    ensures n < |segment| ==> segment[n] == '['
  {
    if segment == "" || segment[0] == '[' then 0
    else
      var n := 1 + NameLength(segment[1..]);
      assert segment[..n] == [segment[0]] + segment[1..][..n - 1];
      n
  }

  /** `s.find(c)`, the length of `s` when there is none. */
  function Find(s: string, c: char): (n: nat)
    ensures n <= |s|
    ensures n < |s| ==> s[n] == c
    ensures forall i | 0 <= i < n :: s[i] != c
  {
    if s == "" || s[0] == c then 0 else 1 + Find(s[1..], c)
  }

  function Selector(cc: CharClass, selector: string): Option<string>
  {
    if selector == "*" then Some("[*]")
    else if selector != "" && forall i | 0 <= i < |selector| :: cc.digit(selector[i]) then Some("[" + selector + "]")
    else None
  }

  function Selectors(cc: CharClass, text: string): Option<string>
  {
    if text == "" then Some("")
    else if text[0] != '[' || Find(text, ']') == |text| then None
    else
      var end := Find(text, ']');
      var first := Selector(cc, text[1..end]);
      var rest := Selectors(cc, text[end + 1..]);
      if first.None? || rest.None? then None else Some(first.value + rest.value)
  }

  function CompileSegment(cc: CharClass, segment: string): Option<string>
  {
    var n := NameLength(segment);
    var selectors := Selectors(cc, segment[n..]);
    if selectors.None? then None
    else Some((if n > 0 then JsonpathProperty(cc, segment[..n]) else "") + selectors.value)
  }

  /** All segments; the empty ones that splitting leaves are skipped. */
  function CompileSegments(cc: CharClass, segments: seq<string>): Option<string>
  {
    if segments == [] then Some("")
    else
      var first := if segments[0] == "" then Some("") else CompileSegment(cc, segments[0]);
      var rest := CompileSegments(cc, segments[1..]);
      if first.None? || rest.None? then None else Some(first.value + rest.value)
  }

  /** `_jsonpath_literal`; `None` is the ValueError. */
  function JsonpathLiteral(cc: CharClass, fieldPath: string): Option<string>
  {
    var path := CompileSegments(cc, Split(fieldPath, '.'));
    if path.None? then None else Some(SqlStringLiteral("$" + path.value) + "::jsonpath")
  }

  // ---- the same, as the loops of the source -----------------------------------------

  /** `path` with `more` appended, unless compiling raised. */
  function Append(path: string, more: Option<string>): Option<string>
  {
    if more.None? then None else Some(path + more.value)
  }

  /** What is left to compile at `index` of a segment, after `path`. */
  ghost function Remaining(cc: CharClass, segment: string, index: nat, path: string): Option<string>
    requires index <= |segment|
  {
    Append(path, Selectors(cc, segment[index..]))
  }

  lemma AppendTwice(path: string, first: Option<string>, rest: Option<string>)
    requires first.Some?
    ensures Append(path, if rest.None? then None else Some(first.value + rest.value)) == Append(path + first.value, rest)
  {
    if rest.Some? {
      assert path + (first.value + rest.value) == (path + first.value) + rest.value;
    }
  }

  /** Where the selector that starts at `index` would end. */
  function SelectorEnd(segment: string, index: nat): (end: nat)
    requires index < |segment| && segment[index] == '['
    ensures index < end <= |segment|
  {
    index + Find(segment[index..], ']')
  }

  /** No selector starts here, or it does not end. */
  lemma NoSelector(cc: CharClass, segment: string, index: nat, path: string)
    requires index < |segment|
    requires segment[index] != '[' || SelectorEnd(segment, index) == |segment|
    ensures Remaining(cc, segment, index, path).None?
  {
  }

  /** One turn of the selector loop. */
  lemma SelectorTurn(cc: CharClass, segment: string, index: nat, path: string, end: nat)
    requires index < |segment| && segment[index] == '[' && end == SelectorEnd(segment, index) < |segment|
    ensures var one := Selector(cc, segment[index + 1..end]);
      Remaining(cc, segment, index, path) == if one.None? then None else Remaining(cc, segment, end + 1, path + one.value)
  {
    SliceOfSuffix(segment, index, end);
    var one := Selector(cc, segment[index + 1..end]);
    if one.Some? {
      AppendTwice(path, one, Selectors(cc, segment[end + 1..]));
    }
  }

  lemma SliceOfSuffix(s: string, index: nat, end: nat)
    requires index < end < |s|
    ensures s[index..][1..end - index] == s[index + 1..end]
    ensures s[index..][end - index + 1..] == s[end + 1..]
  {
  }

  lemma SelectorsEnd(cc: CharClass, segment: string, path: string)
    ensures Remaining(cc, segment, |segment|, path) == Some(path)
  {
    assert path + "" == path;
  }

  lemma SegmentsStep(cc: CharClass, segments: seq<string>, path: string)
    requires segments != []
    ensures segments[0] == "" ==> CompileSegments(cc, segments) == CompileSegments(cc, segments[1..])
    ensures segments[0] != "" ==>
              var first := CompileSegment(cc, segments[0]);
              Append(path, CompileSegments(cc, segments)) ==
              if first.None? then None else Append(path + first.value, CompileSegments(cc, segments[1..]))
  {
    var rest := CompileSegments(cc, segments[1..]);
    if segments[0] != "" && rest.Some? && CompileSegment(cc, segments[0]).Some? {
      var first := CompileSegment(cc, segments[0]).value;
      assert path + (first + rest.value) == (path + first) + rest.value;
    } else if segments[0] == "" && rest.Some? {
      assert "" + rest.value == rest.value;
    }
  }

  /** First inner loop of `_jsonpath_literal`: the member name a segment starts with. */
  method NameLoop(segment: string) returns (name: string, index: nat)
    ensures index == NameLength(segment) && name == segment[..index]
  {
    name, index := "", 0;
    while index < |segment| && segment[index] != '['
      invariant index <= |segment| && name == segment[..index]
      invariant NameLength(segment) == index + NameLength(segment[index..])
    {
      name := name + [segment[index]];
      assert segment[index..][1..] == segment[index + 1..];
      index := index + 1;
    }
  }

  /** Second inner loop: the bracketed selectors after the name. */
  method SelectorLoop(cc: CharClass, segment: string, start: nat, before: string) returns (r: Option<string>)
    requires start <= |segment|
    ensures r == Remaining(cc, segment, start, before)
  {
    var path, index := before, start;
    while index < |segment|
      invariant index <= |segment|
      invariant Remaining(cc, segment, index, path) == Remaining(cc, segment, start, before)
    {
      if segment[index] != '[' {
        NoSelector(cc, segment, index, path);
        return None;
      }
      var end := SelectorEnd(segment, index);
      if end == |segment| {
        NoSelector(cc, segment, index, path);
        return None;
      }
      SelectorTurn(cc, segment, index, path, end);
      var one := Selector(cc, segment[index + 1..end]);
      if one.None? {
        return None;
      }
      path, index := path + one.value, end + 1;
    }
    SelectorsEnd(cc, segment, path);
    r := Some(path);
  }

  /** `_jsonpath_literal`. */
  method JsonpathLiteralLoop(cc: CharClass, fieldPath: string) returns (r: Option<string>)
    ensures r == JsonpathLiteral(cc, fieldPath)
  {
    var path := "$";
    var todo := Split(fieldPath, '.');
    ghost var goal := Append(path, CompileSegments(cc, todo));
    while todo != []
      invariant Append(path, CompileSegments(cc, todo)) == goal
      decreases |todo|
    {
      SegmentsStep(cc, todo, path);
      if todo[0] != "" {
        ghost var before := path;
        var name, index := NameLoop(todo[0]);
        if name != "" {
          path := path + JsonpathProperty(cc, name);
        }
        var extended := SelectorLoop(cc, todo[0], index, path);
        SegmentParts(cc, todo[0], before);
        if extended.None? {
          return None;
        }
        path := extended.value;
      }
      todo := todo[1..];
    }
    assert path + "" == path;
    r := Some(SqlStringLiteral(path) + "::jsonpath");
  }

  lemma SegmentParts(cc: CharClass, segment: string, path: string)
    ensures var n := NameLength(segment);
            Append(path, CompileSegment(cc, segment)) ==
            Append(if n > 0 then path + JsonpathProperty(cc, segment[..n]) else path, Selectors(cc, segment[n..]))
  {
    var n := NameLength(segment);
    var selectors := Selectors(cc, segment[n..]);
    if selectors.Some? {
      if n > 0 {
        var property := JsonpathProperty(cc, segment[..n]);
        assert path + (property + selectors.value) == (path + property) + selectors.value;
      } else {
        assert "" + selectors.value == selectors.value;
      }
    }
  }

  /** `_normalize_legacy_array_path`; `isNumberArray` says the stored type is "number_array". */
  function NormalizeLegacyArrayPath(fieldPath: string, isNumberArray: bool): string
  {
    if '[' in fieldPath then fieldPath
    else if isNumberArray then fieldPath + "[*]"
    else fieldPath
  }

  // ---- the reader -------------------------------------------------------------------

  /** Characters that end an unquoted key in PostgreSQL's jsonpath syntax. */
  predicate IsSpecial(c: char) { c in "?%$.[]{}()|&!=<>@#,*:-+/\\\"' \t\n\r" }

  /** Section 5.3 of ISO/IEC 9075-2: the value of the quoted literal `text` starts with, and
      the text after it. */
  function ReadSqlString(text: string): Option<(string, string)>
  {
    if text == "" || text[0] != '\'' then None else ReadSqlBody(text[1..])
  }

  function ReadSqlBody(text: string): Option<(string, string)>
  {
    if text == "" then None
    else if text[0] == '\'' && (|text| == 1 || text[1] != '\'') then Some(("", text[1..]))
    else
      var skip := if text[0] == '\'' then 2 else 1;
      var rest := ReadSqlBody(text[skip..]);
      if rest.None? then None else Some(([text[0]] + rest.value.0, rest.value.1))
  }

  function ReadQuotedKey(text: string): Option<(string, string)>
  {
    if text == "" then None
    else if text[0] == '"' then Some(("", text[1..]))
    else if text[0] == '\\' && |text| == 1 then None
    else
      var skip := if text[0] == '\\' then 2 else 1;
      var rest := ReadQuotedKey(text[skip..]);
      if rest.None? then None else Some(([text[skip - 1]] + rest.value.0, rest.value.1))
  }

  function KeyLength(text: string): (n: nat)
    ensures n <= |text|
  {
    if text == "" || IsSpecial(text[0]) then 0 else 1 + KeyLength(text[1..])
  }

  /** The accessor `text` starts with, and the text after it. */
  function NextAccessor(text: string): Option<(Step, string)>
  {
    if |text| >= 2 && text[0] == '.' && text[1] == '"' then
      match ReadQuotedKey(text[2..])
      case Some((key, rest)) => Some((Member(key), rest))
      case None => None
    else if |text| >= 2 && text[0] == '.' then
      var n := KeyLength(text[1..]);
      if n == 0 || IsDigit(text[1]) then None else Some((Member(text[1..n + 1]), text[n + 1..]))
    else if text != "" && text[0] == '[' && Find(text, ']') < |text| then
      var end := Find(text, ']');
      var selector := text[1..end];
      if selector == "*" then Some((Wild, text[end + 1..]))
      else if selector != "" && AllDigits(selector) then Some((Index(ParseDecimal(selector)), text[end + 1..]))
      else None
    else None
  }

  /** The accessors of a jsonpath after its `$`. */
  function ReadAccessors(text: string): Option<seq<Step>>
    decreases |text|
  {
    if text == "" then Some([])
    else
      match NextAccessor(text)
      case Some((step, rest)) => if |rest| < |text| then Then(step, ReadAccessors(rest)) else None
      case None => None
  }

  function Then(step: Step, rest: Option<seq<Step>>): Option<seq<Step>>
  {
    if rest.None? then None else Some([step] + rest.value)
  }

  /** The path that a literal produced by the compiler means to the database. */
  function ReadJsonpathLiteral(text: string): Option<seq<Step>>
  {
    match ReadSqlString(text)
    case Some((path, suffix)) =>
      if suffix != "::jsonpath" || path == "" || path[0] != '$' then None else ReadAccessors(path[1..])
    case None => None
  }
}
