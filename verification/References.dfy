/** Local references: a `$ref` built for a key path by the escaping of RFC 6901 resolves to the
    node at that path. */
module References {
  import opened OrderedDict
  import opened Text
  import opened Json

  /** The node reached by the given keys. */
  function NodeAt(root: Json, keys: seq<string>): Option<Json>
    decreases |keys|
  {
    if keys == [] then Some(root)
    else
      var next := Field(root, keys[0]);
      if next.None? then None else NodeAt(next.value, keys[1..])
  }

  function EscapeAll(keys: seq<string>): (r: seq<string>)
    ensures |r| == |keys| && forall i | 0 <= i < |keys| :: r[i] == Escape(keys[i])
  {
    seq(|keys|, i requires 0 <= i < |keys| => Escape(keys[i]))
  }

  /** The reference to the node at a key path. */
  function ReferenceTo(keys: seq<string>): string { "#/" + Join(EscapeAll(keys), '/') }

  function EscapeTilde(key: string): string { Replace(key, '~', "~0") }

  lemma {:induction false} NoChar(s: string, c: char, r: string)
    requires c !in r
    ensures c !in Replace(s, c, r)
  {
    if s != "" {
      NoChar(s[1..], c, r);
    }
  }

  lemma EscapeHead(key: string)
    requires key != ""
    ensures Escape(key) == (if key[0] == '~' then "~0" else if key[0] == '/' then "~1" else [key[0]]) + Escape(key[1..])
  {
    var head := if key[0] == '~' then "~0" else [key[0]];
    ReplaceConcat(head, EscapeTilde(key[1..]), '/', "~1");
    if key[0] == '~' {
      assert "~0"[1..] == "0" && "0"[1..] == "";
    } else {
      assert [key[0]][1..] == "";
    }
  }

  /** Decoding `~1` first undoes the second half of the encoding. */
  lemma {:induction false} UnescapeSlash(key: string)
    ensures ReplacePair(Escape(key), '~', '1', '/') == EscapeTilde(key)
  {
    if key != "" {
      EscapeHead(key);
      UnescapeSlash(key[1..]);
      var rest := Escape(key[1..]);
      if key[0] == '~' {
        assert Escape(key)[1..] == "0" + rest;
        assert ("0" + rest)[1..] == rest;
        PairSkips('0', rest, '~', '1', '/');
        assert ReplacePair(Escape(key), '~', '1', '/') == "~" + ("0" + EscapeTilde(key[1..]));
      } else if key[0] == '/' {
        assert Escape(key)[2..] == rest;
      } else {
        assert Escape(key) == [key[0]] + rest;
        PairSkips(key[0], rest, '~', '1', '/');
      }
    }
  }

  /** Decoding `~0` afterwards undoes the first half. */
  lemma {:induction false} UnescapeTilde(key: string)
    ensures ReplacePair(EscapeTilde(key), '~', '0', '~') == key
  {
    if key != "" {
      UnescapeTilde(key[1..]);
      var rest := EscapeTilde(key[1..]);
      if key[0] == '~' {
        assert EscapeTilde(key) == "~0" + rest;
        assert EscapeTilde(key)[2..] == rest;
      } else {
        PairSkips(key[0], rest, '~', '0', '~');
      }
      assert [key[0]] + key[1..] == key;
    }
  }

  lemma PairSkips(c: char, rest: string, a: char, b: char, r: char)
    requires c != a
    ensures ReplacePair([c] + rest, a, b, r) == [c] + ReplacePair(rest, a, b, r)
  {
    assert ([c] + rest)[1..] == rest;
  }

  lemma UnescapeEscape(key: string)
    ensures Unescape(Escape(key)) == key
  {
    UnescapeSlash(key);
    UnescapeTilde(key);
  }

  // ---- the order matters ------------------------------------------------------------

  predicate HasPair(s: string, a: char, b: char)
  {
    exists i :: 0 <= i < |s| - 1 && s[i] == a && s[i + 1] == b
  }

  lemma PairTaken(a: char, b: char, rest: string, r: char)
    ensures ReplacePair([a, b] + rest, a, b, r) == [r] + ReplacePair(rest, a, b, r)
  {
    assert ([a, b] + rest)[2..] == rest;
  }

  lemma PairStarts(c: char, rest: string, a: char, b: char, r: char)
    requires rest == "" || rest[0] != b
    ensures ReplacePair([c] + rest, a, b, r) == [c] + ReplacePair(rest, a, b, r)
  {
    assert ([c] + rest)[1..] == rest;
  }

  /** Decoding `~0` first leaves the slashes encoded. */
  lemma {:induction false} TildeFirst(key: string)
    ensures ReplacePair(Escape(key), '~', '0', '~') == Replace(key, '/', "~1")
  {
    if key != "" {
      EscapeHead(key);
      TildeFirst(key[1..]);
      var rest := Escape(key[1..]);
      if key[0] == '~' {
        assert Escape(key) == ['~', '0'] + rest;
        PairTaken('~', '0', rest, '~');
      } else if key[0] == '/' {
        assert Escape(key) == ['~'] + (['1'] + rest);
        PairSkips('1', rest, '~', '0', '~');
        PairStarts('~', ['1'] + rest, '~', '0', '~');
        assert ['~'] + (['1'] + ReplacePair(rest, '~', '0', '~')) == "~1" + ReplacePair(rest, '~', '0', '~');
      } else {
        PairSkips(key[0], rest, '~', '0', '~');
      }
    }
  }

  lemma ReplaceStart(key: string)
    requires key == "" || key[0] != '1'
    ensures Replace(key, '/', "~1") == "" || Replace(key, '/', "~1")[0] != '1'
  {
  }

  /** Then encoded slashes and the text "~1" look the same. */
  lemma {:induction false} SlashAfter(key: string)
    ensures ReplacePair(Replace(key, '/', "~1"), '~', '1', '/') == ReplacePair(key, '~', '1', '/')
    decreases |key|
  {
    if key != "" {
      var rest := Replace(key[1..], '/', "~1");
      if key[0] == '/' {
        SlashAfter(key[1..]);
        assert Replace(key, '/', "~1") == ['~', '1'] + rest && key == ['/'] + key[1..];
        PairTaken('~', '1', rest, '/');
        PairSkips('/', key[1..], '~', '1', '/');
      } else if key[0] == '~' && |key| > 1 && key[1] == '1' {
        SlashAfter(key[2..]);
        var later := Replace(key[2..], '/', "~1");
        assert key == ['~', '1'] + key[2..] && key[1..][1..] == key[2..];
        assert Replace(key, '/', "~1") == ['~', '1'] + later;
        PairTaken('~', '1', key[2..], '/');
        PairTaken('~', '1', later, '/');
      } else {
        SlashAfter(key[1..]);
        assert key == [key[0]] + key[1..] && Replace(key, '/', "~1") == [key[0]] + rest;
        if key[0] == '~' {
          ReplaceStart(key[1..]);
          PairStarts('~', rest, '~', '1', '/');
          PairStarts('~', key[1..], '~', '1', '/');
        } else {
          PairSkips(key[0], rest, '~', '1', '/');
          PairSkips(key[0], key[1..], '~', '1', '/');
        }
      }
    }
  }

  /** Replacing a pair by one character changes a text exactly if the pair is in it. */
  lemma {:induction false} PairMissing(s: string, a: char, b: char, r: char)
    ensures |ReplacePair(s, a, b, r)| <= |s|
    ensures HasPair(s, a, b) ==> |ReplacePair(s, a, b, r)| < |s|
    ensures !HasPair(s, a, b) ==> ReplacePair(s, a, b, r) == s
    decreases |s|
  {
    if |s| >= 2 && s[0] == a && s[1] == b {
      PairMissing(s[2..], a, b, r);
      assert HasPair(s, a, b);
    } else if s != "" {
      PairMissing(s[1..], a, b, r);
      assert s == [s[0]] + s[1..];
      if HasPair(s, a, b) {
        var i :| 0 <= i < |s| - 1 && s[i] == a && s[i + 1] == b;
        assert s[1..][i - 1] == a && s[1..][i] == b;
      }
      if HasPair(s[1..], a, b) {
        var i :| 0 <= i < |s| - 2 && s[1..][i] == a && s[1..][i + 1] == b;
        assert s[i + 1] == a && s[i + 2] == b;
      }
    }
  }

  /** The order of section 4 of RFC 6901 matters: the other one gives a key back exactly if the key
      does not contain "~1". */
  lemma OtherOrderExactly(key: string)
    ensures ReplacePair(ReplacePair(Escape(key), '~', '0', '~'), '~', '1', '/') == key <==> !HasPair(key, '~', '1')
  {
    TildeFirst(key);
    SlashAfter(key);
    PairMissing(key, '~', '1', '/');
  }

  lemma {:induction false} WalkEscaped(root: Json, keys: seq<string>)
    ensures Walk(root, EscapeAll(keys)) == NodeAt(root, keys)
    decreases |keys|
  {
    if keys != [] {
      UnescapeEscape(keys[0]);
      var next := Field(root, keys[0]);
      assert EscapeAll(keys)[1..] == EscapeAll(keys[1..]);
      if next.Some? {
        WalkEscaped(next.value, keys[1..]);
      }
    }
  }

  /** `_resolve_ref` follows a built reference to exactly the object at its key path. */
  lemma ReferenceResolves(schema: Json, root: Json, keys: seq<string>)
    requires keys != [] && Field(schema, "$ref") == Some(Str(ReferenceTo(keys)))
    ensures RefTarget(schema, root) ==
            if NodeAt(root, keys).Some? && NodeAt(root, keys).value.Obj? then NodeAt(root, keys) else None
  {
    var ref, tokens := ReferenceTo(keys), EscapeAll(keys);
    assert ref[..2] == "#/" && ref[2..] == Join(tokens, '/');
    forall p | p in tokens
      ensures '/' !in p
    {
      var i :| 0 <= i < |keys| && p == Escape(keys[i]);
      NoChar(Replace(keys[i], '~', "~0"), '/', "~1");
    }
    SplitJoin(tokens, '/');
    WalkEscaped(root, keys);
  }
}
