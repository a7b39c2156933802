/** String functions of the Python standard library that the modelled code relies on,
    with the inverse laws the compiler and name-allocation proofs need. */
module Text {

  // ---- decimal numerals -------------------------------------------------------------

  predicate IsDigit(c: char) { '0' <= c <= '9' }

  predicate AllDigits(s: string) { forall i | 0 <= i < |s| :: IsDigit(s[i]) }

  /** `str(n)` for a non-negative integer. */
  function Decimal(n: nat): (s: string)
    ensures s != "" && AllDigits(s)
  {
    if n < 10 then [('0' as int + n) as char]
    else Decimal(n / 10) + [('0' as int + n % 10) as char]
  }

  /** `int(s)` for a string of ASCII digits. */
  function ParseDecimal(s: string): nat
    requires AllDigits(s)
  {
    if s == "" then 0
    else 10 * ParseDecimal(s[..|s| - 1]) + (s[|s| - 1] as int - '0' as int)
  }

  lemma {:induction false} DecimalRoundTrip(n: nat)
    ensures ParseDecimal(Decimal(n)) == n
  {
    if n >= 10 {
      DecimalRoundTrip(n / 10);
      var s := Decimal(n);
      assert s[..|s| - 1] == Decimal(n / 10);
    }
  }

  lemma DecimalInjective(m: nat, n: nat)
    requires Decimal(m) == Decimal(n)
    ensures m == n
  {
    DecimalRoundTrip(m);
    DecimalRoundTrip(n);
  }

  // ---- split and join ---------------------------------------------------------------

  /** `s.split(c)`: always at least one part. */
  function Split(s: string, c: char): (parts: seq<string>)
    ensures parts != []
  {
    if s == "" then [""]
    else if s[0] == c then [""] + Split(s[1..], c)
    else Glue(s[0], Split(s[1..], c))
  }

  /** Put one more character in front of the first part. */
  function Glue(x: char, parts: seq<string>): (r: seq<string>)
    requires parts != []
    ensures |r| == |parts|
  {
    [[x] + parts[0]] + parts[1..]
  }

  lemma GlueConcat(x: char, p: seq<string>, q: seq<string>)
    requires p != []
    ensures Glue(x, p + q) == Glue(x, p) + q
  {
  }

  /** `c.join(parts)`. */
  function Join(parts: seq<string>, c: char): string
  {
    if parts == [] then ""
    else if |parts| == 1 then parts[0]
    else parts[0] + [c] + Join(parts[1..], c)
  }

  lemma {:induction false} SplitConcat(a: string, c: char, b: string)
    ensures Split(a + [c] + b, c) == Split(a, c) + Split(b, c)
  {
    var s := a + [c] + b;
    if a == "" {
      assert s[1..] == b;
    } else {
      SplitConcat(a[1..], c, b);
      assert s[1..] == a[1..] + [c] + b;
      if a[0] != c {
        GlueConcat(a[0], Split(a[1..], c), Split(b, c));
      } else {
        assert [""] + (Split(a[1..], c) + Split(b, c)) == ([""] + Split(a[1..], c)) + Split(b, c);
      }
    }
  }

  /** The parts with `b` appended to the last one. */
  function Extend(parts: seq<string>, b: string): (r: seq<string>)
    requires parts != []
    ensures r != []
  {
    parts[..|parts| - 1] + [parts[|parts| - 1] + b]
  }

  lemma GlueExtend(x: char, p: seq<string>, b: string)
    requires p != []
    ensures Glue(x, Extend(p, b)) == Extend(Glue(x, p), b)
  {
    if |p| == 1 {
      assert [x] + (p[0] + b) == ([x] + p[0]) + b;
    }
  }

  lemma {:induction false} SplitExtend(a: string, b: string, c: char)
    requires c !in b
    ensures Split(a + b, c) == Extend(Split(a, c), b)
  {
    if a == "" {
      assert a + b == b;
      SplitNone(b, c);
    } else {
      SplitExtend(a[1..], b, c);
      assert (a + b)[1..] == a[1..] + b;
      var p := Split(a[1..], c);
      if a[0] == c {
        assert [""] + Extend(p, b) == Extend([""] + p, b);
      } else {
        GlueExtend(a[0], p, b);
      }
    }
  }

  lemma {:induction false} SplitNone(b: string, c: char)
    requires c !in b
    ensures Split(b, c) == [b]
  {
    if b != "" {
      SplitNone(b[1..], c);
      assert [b[0]] + b[1..] == b;
    }
  }

  lemma {:induction false} SplitJoin(parts: seq<string>, c: char)
    requires parts != []
    requires forall p | p in parts :: c !in p
    ensures Split(Join(parts, c), c) == parts
  {
    SplitNone(parts[0], c);
    if |parts| > 1 {
      SplitJoin(parts[1..], c);
      SplitConcat(parts[0], c, Join(parts[1..], c));
    }
  }

  // ---- replace ----------------------------------------------------------------------

  /** `s.replace(c, r)` for a one-character pattern. */
  function Replace(s: string, c: char, r: string): string
  {
    if s == "" then ""
    else (if s[0] == c then r else [s[0]]) + Replace(s[1..], c, r)
  }

  /** `s.replace(ab, r)` for a two-character pattern: leftmost matches, not overlapping. */
  function ReplacePair(s: string, a: char, b: char, r: char): string
  {
    if |s| < 2 then s
    else if s[0] == a && s[1] == b then [r] + ReplacePair(s[2..], a, b, r)
    else [s[0]] + ReplacePair(s[1..], a, b, r)
  }

  lemma {:induction false} ReplaceConcat(s: string, t: string, c: char, r: string)
    ensures Replace(s + t, c, r) == Replace(s, c, r) + Replace(t, c, r)
  {
    if s == "" {
      assert s + t == t;
    } else {
      ReplaceConcat(s[1..], t, c, r);
      assert (s + t)[1..] == s[1..] + t;
    }
  }

  // ---- order ------------------------------------------------------------------------

  /** `a <= b` for strings, by code point. */
  predicate LexLe(a: string, b: string)
  {
    if a == "" then true
    else if b == "" then false
    else a[0] < b[0] || (a[0] == b[0] && LexLe(a[1..], b[1..]))
  }

  lemma {:induction false} LexTotal(a: string, b: string)
    ensures LexLe(a, b) || LexLe(b, a)
  {
    if a != "" && b != "" {
      LexTotal(a[1..], b[1..]);
    }
  }

  lemma {:induction false} LexTransitive(a: string, b: string, c: string)
    requires LexLe(a, b) && LexLe(b, c)
    ensures LexLe(a, c)
  {
    if a != "" && c != "" {
      if a[0] == b[0] == c[0] {
        LexTransitive(a[1..], b[1..], c[1..]);
      }
    }
  }
}
