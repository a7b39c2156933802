/** Names of the cluster objects of a deployment
    (deployment-service/src/deployment_service/kubernetes_resources.py:25-43 and :55-57). */
module KubernetesNames {
  import opened Text
  import opened Slugs

  const MAX_LABEL := 52

  /** `s[:n]`. */
  function Take(s: string, n: nat): string { if |s| <= n then s else s[..n] }

  /** `dns_label`. */
  function DnsLabel(value: string): string
  {
    var normalized := Dashed(Strip(Dashed(Lower(value), LowerAlnumOrDash)), NotDash);
    var full := if normalized == "" then "deployment" else normalized;
    if |full| > MAX_LABEL then StripRight(full[..MAX_LABEL]) else full
  }

  /** The hexadecimal digits of an identifier's text. */
  function IdDigits(id: string): string { Replace(id, '-', "") }

  /** `workload_names`: the deployment and the service share one name. */
  function WorkloadName(slug: string, id: string): string
  {
    DnsLabel("model-" + slug + "-" + Take(IdDigits(id), 8))
  }

  function PullSecretName(id: string): string
  {
    DnsLabel("gitea-pull-" + Take(IdDigits(id), 12))
  }

  predicate IsHex(c: char) { IsDigit(c) || 'a' <= c <= 'f' }

  function HexDigit(c: char): nat
  {
    if IsDigit(c) then c as int - '0' as int else if IsHex(c) then c as int - 'a' as int + 10 else 0
  }

  /** `int(s, 16)` for a string of hexadecimal digits. */
  function ParseHex(s: string): nat
  {
    if s == "" then 0 else 16 * ParseHex(s[..|s| - 1]) + HexDigit(s[|s| - 1])
  }

  /** `model_service_port`. */
  function ServicePort(id: string): (port: nat)
    ensures 20000 <= port < 30000
  {
    20000 + ParseHex(Take(IdDigits(id), 8)) % 10000
  }

  /** The text of a UUID: 32 hexadecimal digits, and dashes. */
  predicate UuidText(id: string)
  {
    |IdDigits(id)| == 32 && forall i | 0 <= i < 32 :: IsHex(IdDigits(id)[i])
  }

  // ---- the shape of labels ----------------------------------------------------------

  /** Section 2.1 of RFC 1123, within the length the code allows. */
  predicate LabelShaped(s: string)
  {
    SlugShaped(s) && |s| <= MAX_LABEL
  }

  /** Dashing keeps only the characters of the class, and dashes. */
  lemma {:induction false} DashedChars(s: string, k: Class)
    ensures forall i | 0 <= i < |Dashed(s, k)| :: Keeps(k, Dashed(s, k)[i]) || Dashed(s, k)[i] == '-'
    decreases |s|
  {
    if s != "" {
      if Keeps(k, s[0]) {
        DashedChars(s[1..], k);
      } else {
        DashedChars(SkipRun(s, k), k);
      }
    }
  }

  lemma {:induction false} SkipRunSuffix(s: string, k: Class)
    ensures exists n :: 0 <= n <= |s| && SkipRun(s, k) == s[n..]
  {
    if s == "" || Keeps(k, s[0]) {
      assert s == s[0..];
    } else {
      SkipRunSuffix(s[1..], k);
      var n :| 0 <= n <= |s| - 1 && SkipRun(s[1..], k) == s[1..][n..];
      assert s[1..][n..] == s[n + 1..];
    }
  }

  /** Characters of a dashed string come from the string, or are dashes. */
  lemma {:induction false} CollapseChars(s: string, i: nat)
    requires i < |Dashed(s, NotDash)|
    ensures Dashed(s, NotDash)[i] == '-' || Dashed(s, NotDash)[i] in s
    decreases |s|
  {
    if Keeps(NotDash, s[0]) {
      if i > 0 {
        CollapseChars(s[1..], i - 1);
      }
    } else {
      SkipRunSuffix(s, NotDash);
      if i > 0 {
        CollapseChars(SkipRun(s, NotDash), i - 1);
      }
    }
  }

  /** Collapsing dashes keeps a first and a last character that are not dashes. */
  lemma {:induction false} CollapseEnds(s: string)
    requires s != "" && s[|s| - 1] != '-'
    ensures Dashed(s, NotDash) != ""
    ensures Dashed(s, NotDash)[|Dashed(s, NotDash)| - 1] == s[|s| - 1]
    ensures s[0] != '-' ==> Dashed(s, NotDash)[0] == s[0]
    decreases |s|
  {
    if Keeps(NotDash, s[0]) {
      if |s| > 1 {
        CollapseEnds(s[1..]);
      }
    } else {
      SkipRunLast(s);
      CollapseEnds(SkipRun(s, NotDash));
    }
  }

  lemma {:induction false} SkipRunLast(s: string)
    requires s != "" && s[|s| - 1] != '-'
    ensures SkipRun(s, NotDash) != "" && SkipRun(s, NotDash)[|SkipRun(s, NotDash)| - 1] == s[|s| - 1]
  {
    if s[0] == '-' {
      SkipRunLast(s[1..]);
    }
  }

  /** What `dns_label` has before it cuts. */
  lemma NormalizedShape(value: string)
    ensures var n := Dashed(Strip(Dashed(Lower(value), LowerAlnumOrDash)), NotDash); n != "" ==> SlugShaped(n)
  {
    var d := Dashed(Lower(value), LowerAlnumOrDash);
    DashedChars(Lower(value), LowerAlnumOrDash);
    StripChars(d);
    if Strip(d) != "" {
      CollapseShape(Strip(d));
    }
  }

  lemma StripChars(d: string)
    requires forall i | 0 <= i < |d| :: IsAlnum(d[i]) || d[i] == '-'
    ensures forall c | c in Strip(d) :: IsAlnum(c) || c == '-'
    ensures Strip(d) != "" ==> Strip(d)[0] != '-' && Strip(d)[|Strip(d)| - 1] != '-'
  {
    StripMiddle(d);
    var m, k :| 0 <= m <= k <= |d| && Strip(d) == d[m..k];
  }

  lemma CollapseShape(t: string)
    requires t != "" && t[0] != '-' && t[|t| - 1] != '-'
    requires forall c | c in t :: IsAlnum(c) || c == '-'
    ensures SlugShaped(Dashed(t, NotDash))
  {
    var n := Dashed(t, NotDash);
    CollapseEnds(t);
    DashedShape(t, NotDash);
    forall i | 0 <= i < |n|
      ensures IsAlnum(n[i]) || n[i] == '-'
    {
      CollapseChars(t, i);
    }
  }

  /** Cutting a slug and stripping the cut end leaves a slug. */
  lemma CutShape(s: string, n: nat)
    requires SlugShaped(s) && 0 < n <= |s|
    ensures SlugShaped(StripRight(s[..n])) && |StripRight(s[..n])| <= n
    ensures StripRight(s[..n])[0] == s[0]
  {
    var t := s[..n];
    StripRightPrefix(t);
    var k :| 0 <= k <= |t| && StripRight(t) == t[..k];
    assert t[..k] == s[..k];
    forall i | 0 <= i < k - 1
      ensures s[..k][i] != '-' || s[..k][i + 1] != '-'
    {
      assert s[i] != '-' || s[i + 1] != '-';
    }
  }

  lemma FallbackShape()
    ensures SlugShaped("deployment")
  {
    var s := "deployment";
    forall i | 0 <= i < |s|
      ensures IsLower(s[i])
    {
    }
  }

  /** Every label has 1 to 52 characters of `[a-z0-9-]`, alphanumeric ends and no double dash. */
  lemma DnsLabelShape(value: string)
    ensures LabelShaped(DnsLabel(value))
  {
    var n := Dashed(Strip(Dashed(Lower(value), LowerAlnumOrDash)), NotDash);
    var full := if n == "" then "deployment" else n;
    NormalizedShape(value);
    FallbackShape();
    if |full| > MAX_LABEL {
      CutShape(full, MAX_LABEL);
    }
  }

  lemma {:induction false} DashedAll(s: string)
    requires forall i | 0 <= i < |s| :: IsAlnum(s[i]) || s[i] == '-'
    ensures Dashed(s, LowerAlnumOrDash) == s
  {
    if s != "" {
      DashedAll(s[1..]);
      assert s == [s[0]] + s[1..];
    }
  }

  /** A slug of any length is only cut. */
  lemma LabelOfSlug(s: string)
    requires SlugShaped(s)
    ensures DnsLabel(s) == if |s| > MAX_LABEL then StripRight(s[..MAX_LABEL]) else s
  {
    LowerFixed(s);
    DashedAll(s);
    StripFixed(s);
    DashedKeeps(s, NotDash);
  }

  lemma LowerFixed(s: string)
    requires SlugShaped(s)
    ensures Lower(s) == s
  {
  }

  lemma StripFixed(s: string)
    requires s != "" && s[0] != '-' && s[|s| - 1] != '-'
    ensures Strip(s) == s
  {
  }

  /** `dns_label` is idempotent. */
  lemma DnsLabelIdempotent(value: string)
    ensures DnsLabel(DnsLabel(value)) == DnsLabel(value)
  {
    DnsLabelShape(value);
    LabelOfSlug(DnsLabel(value));
  }

  // ---- workload names ---------------------------------------------------------------

  lemma DashedFirst(s: string, k: Class)
    requires s != "" && Keeps(k, s[0])
    ensures Dashed(s, k) != "" && Dashed(s, k)[0] == s[0]
  {
  }

  /** Section 2.3.1 of RFC 1035: the name starts with a letter, whatever the slug and the id. */
  lemma WorkloadNameStartsWithLetter(slug: string, id: string)
    ensures LabelShaped(WorkloadName(slug, id)) && WorkloadName(slug, id)[0] == 'm'
  {
    var value := "model-" + slug + "-" + Take(IdDigits(id), 8);
    DnsLabelShape(value);
    FirstCharacter(value, 'm');
  }

  lemma FirstCharacter(value: string, c: char)
    requires value != "" && value[0] == c && IsLower(c)
    ensures DnsLabel(value) != "" && DnsLabel(value)[0] == c
  {
    var d := Dashed(Lower(value), LowerAlnumOrDash);
    DashedFirst(Lower(value), LowerAlnumOrDash);
    StripRightPrefix(d);
    var t := Strip(d);
    StripMiddle(d);
    assert StripLeft(d) == d && t != "" && t[0] == c;
    CollapseEnds(t);
    var n := Dashed(t, NotDash);
    if |n| > MAX_LABEL {
      StripRightPrefix(n[..MAX_LABEL]);
    }
  }

  /** The name before it is cut. */
  function FullName(slug: string, digits: string): string { "model-" + slug + "-" + digits }

  lemma FullNameShape(slug: string, digits: string)
    requires SlugShaped(slug) && digits != "" && forall i | 0 <= i < |digits| :: IsHex(digits[i])
    ensures SlugShaped(FullName(slug, digits)) && |FullName(slug, digits)| == 7 + |slug| + |digits|
  {
    var s := FullName(slug, digits);
    forall i | 0 <= i < |s|
      ensures s[i] == if i < 6 then "model-"[i] else if i < 6 + |slug| then slug[i - 6]
                      else if i == 6 + |slug| then '-' else digits[i - 7 - |slug|]
    {
    }
    forall i | 0 <= i < |s| - 1
      ensures s[i] != '-' || s[i + 1] != '-'
    {
      if 6 <= i < 5 + |slug| {
        assert slug[i - 6] != '-' || slug[i - 5] != '-';
      }
    }
  }

  /** The eight digits that go into a workload name. */
  function Suffix(id: string): string { Take(IdDigits(id), 8) }

  lemma WorkloadNameIs(slug: string, id: string)
    requires SlugShaped(slug) && UuidText(id)
    ensures |Suffix(id)| == 8 && SlugShaped(FullName(slug, Suffix(id)))
    ensures WorkloadName(slug, id) ==
            if |slug| > 37 then StripRight(FullName(slug, Suffix(id))[..MAX_LABEL]) else FullName(slug, Suffix(id))
  {
    FullNameShape(slug, Suffix(id));
    LabelOfSlug(FullName(slug, Suffix(id)));
  }

  lemma FullNameInjective(s: string, d: string, t: string, e: string)
    requires |d| == |e| == 8 && FullName(s, d) == FullName(t, e)
    ensures s == t && d == e
  {
    var n := FullName(s, d);
    assert |s| == |t|;
    assert n[6..6 + |s|] == s && FullName(t, e)[6..6 + |t|] == t;
    assert n[7 + |s|..] == d && FullName(t, e)[7 + |t|..] == e;
  }

  /** For slugs of at most 37 characters the name tells the slug and the eight digits apart. */
  lemma WorkloadNamesInjective(s: string, i: string, t: string, j: string)
    requires SlugShaped(s) && SlugShaped(t) && |s| <= 37 && |t| <= 37 && UuidText(i) && UuidText(j)
    requires WorkloadName(s, i) == WorkloadName(t, j)
    ensures s == t && Suffix(i) == Suffix(j)
  {
    WorkloadNameIs(s, i);
    WorkloadNameIs(t, j);
    FullNameInjective(s, Suffix(i), t, Suffix(j));
  }

  /** 37 is exact: for a longer slug, identifiers that differ in the eighth digit share a name. */
  lemma LongSlugsCollide(slug: string, i: string, j: string)
    requires SlugShaped(slug) && |slug| >= 38 && UuidText(i) && UuidText(j)
    requires Suffix(i)[..7] == Suffix(j)[..7]
    ensures WorkloadName(slug, i) == WorkloadName(slug, j)
  {
    WorkloadNameIs(slug, i);
    WorkloadNameIs(slug, j);
    assert FullName(slug, Suffix(i))[..MAX_LABEL] == FullName(slug, Suffix(j))[..MAX_LABEL] by {
      CutLosesDigit(slug, Suffix(i));
      CutLosesDigit(slug, Suffix(j));
    }
  }

  lemma CutLosesDigit(slug: string, d: string)
    requires |slug| >= 38 && |d| == 8
    ensures |FullName(slug, d)| >= MAX_LABEL
    ensures FullName(slug, d)[..MAX_LABEL] == FullName(slug, d[..7])[..MAX_LABEL]
  {
    var s, t := FullName(slug, d), FullName(slug, d[..7]);
    assert s == t + d[7..];
  }

  lemma SecretNameIs(id: string)
    requires UuidText(id)
    ensures PullSecretName(id) == "gitea-pull-" + IdDigits(id)[..12]
  {
    var s := "gitea-pull-" + IdDigits(id)[..12];
    assert Take(IdDigits(id), 12) == IdDigits(id)[..12];
    forall i | 0 <= i < |s|
      ensures s[i] == if i < 11 then "gitea-pull-"[i] else IdDigits(id)[i - 11]
    {
    }
    assert s[|s| - 1] == IdDigits(id)[11];
    assert SlugShaped(s);
    LabelOfSlug(s);
  }

  /** Pull secrets are told apart by the first twelve digits. */
  lemma SecretNamesInjective(i: string, j: string)
    requires UuidText(i) && UuidText(j) && PullSecretName(i) == PullSecretName(j)
    ensures IdDigits(i)[..12] == IdDigits(j)[..12]
  {
    SecretNameIs(i);
    SecretNameIs(j);
    assert ("gitea-pull-" + IdDigits(i)[..12])[11..] == IdDigits(i)[..12];
    assert ("gitea-pull-" + IdDigits(j)[..12])[11..] == IdDigits(j)[..12];
  }
}
