/** Slugs and the search for a free one (control-plane/src/core/slugging.py, and the loop shared by
    control-plane/src/application/dataset_service.py:191-198 and the other services). Names are
    ASCII, so Unicode normalisation and the ASCII encoding change nothing. */
module Slugs {
  import opened Text

  predicate IsLower(c: char) { 'a' <= c <= 'z' }
  predicate IsUpper(c: char) { 'A' <= c <= 'Z' }
  predicate IsAlnum(c: char) { IsLower(c) || IsDigit(c) }

  /** The character classes of the three substitutions: what they keep. */
  datatype Class = AnyAlnum | LowerAlnumOrDash | NotDash

  predicate Keeps(k: Class, c: char)
  {
    match k
    case AnyAlnum => IsLower(c) || IsUpper(c) || IsDigit(c)
    case LowerAlnumOrDash => IsAlnum(c) || c == '-'
    case NotDash => c != '-'
  }

  /** The rest of a string after a run of characters outside the class. */
  function SkipRun(s: string, k: Class): (r: string)
    ensures |r| <= |s|
    ensures r != "" ==> Keeps(k, r[0])
    ensures s != "" && !Keeps(k, s[0]) ==> |r| < |s|
  {
    if s == "" || Keeps(k, s[0]) then s else SkipRun(s[1..], k)
  }

  /** `re.sub(r"[^...]+", "-", s)`: every maximal run outside the class becomes one dash. */
  function Dashed(s: string, k: Class): string
    decreases |s|
  {
    if s == "" then ""
    else if Keeps(k, s[0]) then [s[0]] + Dashed(s[1..], k)
    else "-" + Dashed(SkipRun(s, k), k)
  }

  /** `s.lstrip("-")`. */
  function StripLeft(s: string): string
  {
    if s != "" && s[0] == '-' then StripLeft(s[1..]) else s
  }

  /** `s.rstrip("-")`. */
  function StripRight(s: string): string
  {
    if s != "" && s[|s| - 1] == '-' then StripRight(s[..|s| - 1]) else s
  }

  function Strip(s: string): string { StripRight(StripLeft(s)) }

  function LowerChar(c: char): char
  {
    if IsUpper(c) then (c as int + 32) as char else c
  }

  /** `s.lower()`. */
  function Lower(s: string): (r: string)
    ensures |r| == |s| && forall i | 0 <= i < |s| :: r[i] == LowerChar(s[i])
  {
    seq(|s|, i requires 0 <= i < |s| => LowerChar(s[i]))
  }

  /** `slugify`. */
  function Slugify(value: string): string
  {
    var slug := Lower(Strip(Dashed(value, AnyAlnum)));
    if slug == "" then "resource" else slug
  }

  /** `slug_candidate`. */
  function SlugCandidate(base: string, index: int): string
  {
    if index <= 1 then base else base + "-" + Decimal(index)
  }

  // ---- the shape of slugs -----------------------------------------------------------

  predicate NoDoubleDash(s: string)
  {
    forall i | 0 <= i < |s| - 1 :: s[i] != '-' || s[i + 1] != '-'
  }

  /** Lower-case words of letters and digits separated by single dashes. */
  predicate SlugShaped(s: string)
  {
    && s != ""
    && (forall i | 0 <= i < |s| :: IsAlnum(s[i]) || s[i] == '-')
    && s[0] != '-' && s[|s| - 1] != '-'
    && NoDoubleDash(s)
  }

  /** What is left of a string once its runs are dashed: kept characters and single dashes. */
  lemma {:induction false} DashedShape(s: string, k: Class)
    requires k != LowerAlnumOrDash
    ensures forall i | 0 <= i < |Dashed(s, k)| :: Keeps(k, Dashed(s, k)[i]) || Dashed(s, k)[i] == '-'
    ensures NoDoubleDash(Dashed(s, k))
    decreases |s|
  {
    if s != "" {
      if Keeps(k, s[0]) {
        DashedShape(s[1..], k);
        assert s[0] != '-';
      } else {
        var rest := SkipRun(s, k);
        DashedShape(rest, k);
        if rest != "" {
          assert Dashed(rest, k)[0] == rest[0] != '-';
        }
      }
    }
  }

  lemma {:induction false} StripLeftSuffix(s: string)
    ensures exists n :: 0 <= n <= |s| && StripLeft(s) == s[n..]
    ensures StripLeft(s) != "" ==> StripLeft(s)[0] != '-'
  {
    if s != "" && s[0] == '-' {
      StripLeftSuffix(s[1..]);
      var n :| 0 <= n <= |s| - 1 && StripLeft(s[1..]) == s[1..][n..];
      assert s[1..][n..] == s[n + 1..];
    } else {
      assert s == s[0..];
    }
  }

  lemma {:induction false} StripRightPrefix(s: string)
    ensures exists n :: 0 <= n <= |s| && StripRight(s) == s[..n]
    ensures StripRight(s) != "" ==> StripRight(s)[|StripRight(s)| - 1] != '-'
    ensures s != "" && s[0] != '-' ==> StripRight(s) != "" && StripRight(s)[0] == s[0]
  {
    if s != "" && s[|s| - 1] == '-' {
      StripRightPrefix(s[..|s| - 1]);
      var n :| 0 <= n <= |s| - 1 && StripRight(s[..|s| - 1]) == s[..|s| - 1][..n];
      assert s[..|s| - 1][..n] == s[..n];
    } else {
      assert s == s[..|s|];
    }
  }

  /** Stripping cuts a piece out of the middle that neither starts nor ends with a dash. */
  lemma StripMiddle(s: string)
    ensures exists m, n :: 0 <= m <= n <= |s| && Strip(s) == s[m..n]
    ensures Strip(s) != "" ==> Strip(s)[0] != '-' && Strip(s)[|Strip(s)| - 1] != '-'
  {
    StripLeftSuffix(s);
    var t := StripLeft(s);
    var m :| 0 <= m <= |s| && t == s[m..];
    StripRightPrefix(t);
    var n :| 0 <= n <= |t| && StripRight(t) == t[..n];
    assert t[..n] == s[m..m + n];
  }

  lemma LowerKeepsShape(s: string)
    requires s != "" && s[0] != '-' && s[|s| - 1] != '-' && NoDoubleDash(s)
    requires forall i | 0 <= i < |s| :: Keeps(AnyAlnum, s[i]) || s[i] == '-'
    ensures SlugShaped(Lower(s))
  {
    forall i | 0 <= i < |s|
      ensures IsAlnum(Lower(s)[i]) || Lower(s)[i] == '-'
      ensures Lower(s)[i] == '-' <==> s[i] == '-'
    {
    }
  }

  /** Every slug is a non-empty list of lower-case words joined by single dashes. */
  lemma SlugifyShape(value: string)
    ensures SlugShaped(Slugify(value))
  {
    var d := Dashed(value, AnyAlnum);
    DashedShape(value, AnyAlnum);
    StripMiddle(d);
    var m, n :| 0 <= m <= n <= |d| && Strip(d) == d[m..n];
    if Strip(d) != "" {
      forall i | 0 <= i < n - m - 1
        ensures d[m..n][i] != '-' || d[m..n][i + 1] != '-'
      {
        assert d[m + i] != '-' || d[m + i + 1] != '-';
      }
      LowerKeepsShape(Strip(d));
    } else {
      assert "resource"[0] == 'r' && "resource"[7] == 'e';
    }
  }

  lemma {:induction false} DashedKeeps(s: string, k: Class)
    requires k != LowerAlnumOrDash && NoDoubleDash(s)
    requires forall i | 0 <= i < |s| :: Keeps(k, s[i]) || s[i] == '-'
    ensures Dashed(s, k) == s
    decreases |s|
  {
    if s != "" {
      forall i | 0 <= i < |s| - 2
        ensures s[1..][i] != '-' || s[1..][i + 1] != '-'
      {
        assert s[i + 1] != '-' || s[i + 2] != '-';
      }
      DashedKeeps(s[1..], k);
      assert s == [s[0]] + s[1..];
      if s[0] == '-' {
        assert |s| > 1 ==> s[1] != '-';
        assert SkipRun(s, k) == s[1..];
      }
    }
  }

  /** Slugs are left alone: making a slug of a slug changes nothing. */
  lemma SlugifyFixed(s: string)
    requires SlugShaped(s)
    ensures Slugify(s) == s
  {
    DashedKeeps(s, AnyAlnum);
    assert Lower(s) == s;
  }

  lemma CandidateShape(base: string, index: int)
    requires SlugShaped(base)
    ensures SlugShaped(SlugCandidate(base, index))
  {
    if index > 1 {
      var d := Decimal(index);
      var s := base + "-" + d;
      assert |s| == |base| + 1 + |d| && s[|s| - 1] == d[|d| - 1];
      forall i | 0 <= i < |s|
        ensures s[i] == if i < |base| then base[i] else if i == |base| then '-' else d[i - |base| - 1]
      {
      }
      forall i | 0 <= i < |s| - 1
        ensures s[i] != '-' || s[i + 1] != '-'
      {
        if i < |base| - 1 {
          assert base[i] != '-' || base[i + 1] != '-';
        } else if i >= |base| {
          assert IsDigit(d[i - |base|]);
        }
      }
    }
  }

  // ---- the search -------------------------------------------------------------------

  /** Different indices give different candidates. */
  lemma CandidatesDiffer(base: string, i: nat, j: nat)
    requires 1 <= i < j
    ensures SlugCandidate(base, i) != SlugCandidate(base, j)
  {
    if SlugCandidate(base, i) == SlugCandidate(base, j) {
      var s := SlugCandidate(base, j);
      assert |s| > |base|;
      if i > 1 {
        assert s[|base| + 1..] == Decimal(j);
        assert SlugCandidate(base, i)[|base| + 1..] == Decimal(i);
        DecimalInjective(i, j);
      }
    }
  }

  /** The first `n` candidates. */
  ghost function Candidates(base: string, n: nat): set<string>
  {
    set i | 1 <= i <= n :: SlugCandidate(base, i)
  }

  lemma {:induction false} CandidateCount(base: string, n: nat)
    ensures |Candidates(base, n)| == n
  {
    if n == 0 {
      assert Candidates(base, 0) == {};
    } else {
      CandidateCount(base, n - 1);
      var last := SlugCandidate(base, n);
      forall i | 1 <= i <= n - 1
        ensures SlugCandidate(base, i) != last
      {
        CandidatesDiffer(base, i, n);
      }
      assert Candidates(base, n) == Candidates(base, n - 1) + {last};
      assert last !in Candidates(base, n - 1);
    }
  }

  lemma SubsetCount(a: set<string>, b: set<string>)
    requires a <= b
    ensures |a| <= |b|
  {
    if a != {} {
      var x :| x in a;
      SubsetCount(a - {x}, b - {x});
    }
  }

  /** `_generate_unique_slug`: the first free candidate, found within one probe more than there
      are taken slugs. */
  method GenerateUniqueSlug(taken: set<string>, name: string) returns (slug: string, ghost index: nat)
    ensures slug == SlugCandidate(Slugify(name), index) && slug !in taken
    ensures forall i | 1 <= i < index :: SlugCandidate(Slugify(name), i) in taken
    ensures 1 <= index <= |taken| + 1
  {
    var base := Slugify(name);
    var i := 1;
    while SlugCandidate(base, i) in taken
      invariant i >= 1
      invariant forall j | 1 <= j < i :: SlugCandidate(base, j) in taken
      invariant i <= |taken| + 1
      decreases |taken| + 1 - i
    {
      assert Candidates(base, i) <= taken;
      CandidateCount(base, i);
      SubsetCount(Candidates(base, i), taken);
      i := i + 1;
    }
    return SlugCandidate(base, i), i;
  }
}
