/** Object keys of dataset versions: how an upload builds them and how its confirmation reads them
    (control-plane/src/application/dataset_service.py:54 and :76-105). */
module ObjectKeys {
  import opened KubernetesNames
  import opened OrderedDict
  import opened Slugs
  import opened Text

  const BUCKET_URI := "s3://datasets/"

  /** A dataset version. */
  datatype Key = Key(user: string, slug: string, version: nat)

  // ---- identifiers of users ---------------------------------------------------------

  predicate IsHexDigit(c: char) { IsHex(LowerChar(c)) }

  /** `str(uuid.UUID(...))`: 32 lower-case digits in groups of 8, 4, 4, 4 and 12. */
  function Canonical(digits: string): string
    requires |digits| == 32
  {
    digits[..8] + "-" + digits[8..12] + "-" + digits[12..16] + "-" + digits[16..20] + "-" + digits[20..]
  }

  /** `uuid.UUID(text)`, for the spellings without braces or prefixes. */
  function ParseUuid(text: string): Option<string>
  {
    var digits := IdDigits(text);
    if |digits| == 32 && forall i | 0 <= i < 32 :: IsHexDigit(digits[i]) then Some(Canonical(Lower(digits))) else None
  }

  /** A user's identifier as the service prints it. */
  predicate IsUser(user: string) { ParseUuid(user) == Some(user) }

  // ---- paths ------------------------------------------------------------------------

  /** The parts of a path that are names: neither empty nor a dot. */
  function NamedParts(parts: seq<string>): seq<string>
  {
    if parts == [] then []
    else (if parts[0] == "" || parts[0] == "." then [] else [parts[0]]) + NamedParts(parts[1..])
  }

  /** `PurePosixPath(key).parts`, where a leading slash is a part of its own. */
  function PathParts(key: string): seq<string>
  {
    (if key != "" && key[0] == '/' then ["/"] else []) + NamedParts(Split(key, '/'))
  }

  /** `s.rfind(".")`. */
  function LastDot(s: string): int
  {
    if s == "" then -1 else if s[|s| - 1] == '.' then |s| - 1 else LastDot(s[..|s| - 1])
  }

  /** `PurePosixPath(name).stem`: without the suffix, if it has one. */
  function Stem(name: string): string
  {
    var i := LastDot(name);
    if 0 < i < |name| - 1 then name[..i] else name
  }

  /** `int(...)` of a version, for plain decimal numerals. */
  function ParseVersion(s: string): Option<nat>
  {
    if s != "" && AllDigits(s) then Some(ParseDecimal(s)) else None
  }

  // ---- keys -------------------------------------------------------------------------

  function FileName(version: nat, fileType: string): string { "v" + Decimal(version) + "." + fileType }

  function ObjectName(k: Key, fileType: string): string
  {
    k.user + "/" + k.slug + "/" + FileName(k.version, fileType)
  }

  /** What `confirm_upload` makes of a key. */
  function ParseKey(key: string): Option<Key>
  {
    var parts := PathParts(key);
    if |parts| != 3 then None
    else
      var user := ParseUuid(parts[0]);
      var stem := Stem(parts[2]);
      if user.None? || stem == "" || stem[0] != 'v' then None
      else
        var version := ParseVersion(stem[1..]);
        if version.None? then None else Some(Key(user.value, parts[1], version.value))
  }

  // ---- what was built is read back --------------------------------------------------

  lemma UserCharacters(user: string)
    requires IsUser(user)
    ensures |user| == 36 && forall i | 0 <= i < |user| :: IsHex(user[i]) || user[i] == '-'
  {
    var digits := IdDigits(user);
    var d := Lower(digits);
    assert user == Canonical(d);
    forall i | 0 <= i < 32
      ensures IsHex(d[i])
    {
      assert IsHexDigit(digits[i]);
    }
    CanonicalCharacters(d);
  }

  lemma CanonicalCharacters(d: string)
    requires |d| == 32 && forall i | 0 <= i < 32 :: IsHex(d[i])
    ensures |Canonical(d)| == 36 && forall i | 0 <= i < 36 :: IsHex(Canonical(d)[i]) || Canonical(d)[i] == '-'
  {
    var u := Canonical(d);
    forall i | 0 <= i < 36
      ensures IsHex(u[i]) || u[i] == '-'
    {
      assert u[i] == if i < 8 then d[i] else if i == 8 then '-' else if i < 13 then d[i - 1] else if i == 13 then '-'
                     else if i < 18 then d[i - 2] else if i == 18 then '-' else if i < 23 then d[i - 3]
                     else if i == 23 then '-' else d[i - 4];
    }
  }

  lemma ThreeParts(user: string, slug: string, file: string)
    requires '/' !in user && '/' !in slug && '/' !in file
    requires user != "" && user != "." && slug != "" && slug != "." && file != "" && file != "."
    ensures PathParts(user + "/" + slug + "/" + file) == [user, slug, file]
  {
    var parts := [user, slug, file];
    var key := user + "/" + slug + "/" + file;
    assert parts[1..] == [slug, file] && [slug, file][1..] == [file];
    assert Join([slug, file], '/') == slug + ['/'] + file;
    assert Join(parts, '/') == user + ['/'] + (slug + ['/'] + file);
    assert key == Join(parts, '/');
    SplitJoin(parts, '/');
    NamedThree(user, slug, file);
    assert key[0] == user[0];
  }

  lemma NamedThree(a: string, b: string, c: string)
    requires a != "" && a != "." && b != "" && b != "." && c != "" && c != "."
    ensures NamedParts([a, b, c]) == [a, b, c]
  {
    assert [a, b, c][1..] == [b, c] && [b, c][1..] == [c] && [c][1..] == [];
    assert NamedParts([c]) == [c];
    assert NamedParts([b, c]) == [b, c];
  }

  lemma {:induction false} LastDotIs(front: string, rest: string)
    requires '.' !in rest
    ensures LastDot(front + "." + rest) == |front|
    decreases |rest|
  {
    var s := front + "." + rest;
    if rest == "" {
      assert s[|s| - 1] == '.';
    } else {
      var shorter := rest[..|rest| - 1];
      assert s[..|s| - 1] == front + "." + shorter;
      assert s[|s| - 1] == rest[|rest| - 1];
      LastDotIs(front, shorter);
    }
  }

  lemma {:induction false} LastDotBound(s: string)
    ensures -1 <= LastDot(s) < |s|
    ensures LastDot(s) >= 0 ==> s[LastDot(s)] == '.'
    ensures forall i | LastDot(s) < i < |s| :: s[i] != '.'
  {
    if s != "" && s[|s| - 1] != '.' {
      LastDotBound(s[..|s| - 1]);
      forall i | LastDot(s) < i < |s|
        ensures s[i] != '.'
      {
        assert i < |s| - 1 ==> s[..|s| - 1][i] == s[i];
      }
    }
  }

  /** The stem of a version's file name is the version exactly if the type is not empty and has no dot. */
  lemma StemOfFile(version: nat, fileType: string)
    ensures fileType != "" && '.' !in fileType ==> Stem(FileName(version, fileType)) == "v" + Decimal(version)
    ensures fileType == "" || '.' in fileType ==>
              var stem := Stem(FileName(version, fileType)); |stem| > |"v" + Decimal(version)| && stem[|"v" + Decimal(version)|] == '.'
  {
    var front := "v" + Decimal(version);
    var file := FileName(version, fileType);
    assert file == front + "." + fileType;
    if '.' !in fileType {
      LastDotIs(front, fileType);
      assert file[..|front|] == front;
    } else {
      LastDotBound(file);
      var i :| 0 <= i < |fileType| && fileType[i] == '.';
      assert file[|front| + 1 + i] == '.';
      assert LastDot(file) > |front|;
    }
    assert file[|front|] == '.';
  }

  /** A key that an upload built is read back exactly if its file type is not empty and has no dot. */
  lemma KeyReadBack(k: Key, fileType: string)
    requires IsUser(k.user) && SlugShaped(k.slug) && '/' !in fileType
    ensures ParseKey(ObjectName(k, fileType)) == if fileType != "" && '.' !in fileType then Some(k) else None
  {
    var file := FileName(k.version, fileType);
    UserCharacters(k.user);
    assert file[0] == 'v';
    ThreeParts(k.user, k.slug, file);
    StemOfFile(k.version, fileType);
    var stem := Stem(file);
    if fileType != "" && '.' !in fileType {
      assert stem[1..] == Decimal(k.version);
      DecimalRoundTrip(k.version);
    } else {
      var n := |Decimal(k.version)|;
      assert stem[1..][n] == '.';
      assert !AllDigits(stem[1..]);
    }
  }
}
