/** The dataset registry (control-plane/src/application/dataset_service.py:39-105 and :191-198,
    control-plane/src/infrastructure/database/repositories.py:1163-1260). */
module Datasets {
  import opened ObjectKeys
  import opened OrderedDict
  import opened Slugs

  datatype UploadStatus = PENDING | READY

  datatype Version = Version(name: string, uri: string, status: UploadStatus, fileType: string)

  /** The table `dataset`; owner, slug and version are unique together. */
  type Registry = map<Key, Version>

  // ---- the invariant ----------------------------------------------------------------

  /** Versions of a slug are numbered from 1 on without gaps. */
  ghost predicate Gapless(t: Registry)
  {
    forall k | k in t :: k.version >= 1 && (k.version > 1 ==> Key(k.user, k.slug, k.version - 1) in t)
  }

  /** Names and slugs of a user are in bijection. */
  ghost predicate NamesFit(t: Registry)
  {
    forall j, k | j in t && k in t && j.user == k.user :: t[j].name == t[k].name <==> j.slug == k.slug
  }

  ghost predicate KeysWellFormed(t: Registry)
  {
    forall k | k in t :: IsUser(k.user) && SlugShaped(k.slug)
  }

  ghost predicate Sound(t: Registry)
  {
    Gapless(t) && NamesFit(t) && KeysWellFormed(t)
  }

  lemma {:induction false} EarlierVersions(t: Registry, user: string, slug: string, n: nat, v: nat)
    requires Gapless(t) && Key(user, slug, n) in t && 1 <= v <= n
    ensures Key(user, slug, v) in t
    decreases n - v
  {
    if v < n {
      EarlierVersions(t, user, slug, n, v + 1);
      assert Key(user, slug, v + 1) in t;
    }
  }

  // ---- the queries ------------------------------------------------------------------

  predicate OfSlug(k: Key, user: string, slug: string) { k.user == user && k.slug == slug }

  predicate Taken(t: Registry, user: string, slug: string)
  {
    exists k :: k in t && OfSlug(k, user, slug)
  }

  predicate Named(t: Registry, user: string, name: string)
  {
    exists k :: k in t && k.user == user && t[k].name == name
  }

  /** A row of the name, and none of its rows has a greater version. */
  predicate LatestOfName(t: Registry, user: string, name: string, k: Key)
  {
    && k in t && k.user == user && t[k].name == name
    && forall j | j in t && j.user == user && t[j].name == name :: j.version <= k.version
  }

  /** `scalar_one_or_none` raises when a query returns more than one row. */
  predicate ManyVersions(t: Registry, user: string, slug: string)
  {
    exists j, k :: j in t && k in t && j != k && OfSlug(j, user, slug) && OfSlug(k, user, slug)
  }

  lemma ManyIsTwo(t: Registry, user: string, slug: string)
    requires Gapless(t)
    ensures ManyVersions(t, user, slug) <==> Key(user, slug, 2) in t
  {
    if Key(user, slug, 2) in t {
      assert Key(user, slug, 1) in t;
    }
    if j, k :| j in t && k in t && j != k && OfSlug(j, user, slug) && OfSlug(k, user, slug) {
      var high := if j.version < k.version then k else j;
      assert high.version >= 2;
      EarlierVersions(t, user, slug, high.version, 2);
    }
  }

  /** The largest version of a slug, 0 if there is none. */
  ghost predicate Newest(t: Registry, user: string, slug: string, n: nat)
  {
    && (n > 0 ==> Key(user, slug, n) in t)
    && (forall k | k in t && k.user == user && k.slug == slug :: k.version <= n)
  }

  /** The versions of a slug are exactly 1 to n. */
  lemma VersionsAre(t: Registry, user: string, slug: string, n: nat, v: nat)
    requires Sound(t) && Newest(t, user, slug, n)
    ensures Key(user, slug, v) in t <==> 1 <= v <= n
  {
    if 1 <= v <= n {
      EarlierVersions(t, user, slug, n, v);
    }
  }

  // ---- uploads ----------------------------------------------------------------------

  function Uri(k: Key, fileType: string): string { BUCKET_URI + ObjectName(k, fileType) }

  function Pending(k: Key, name: string, fileType: string): Version
  {
    Version(name, Uri(k, fileType), PENDING, fileType)
  }

  /** The next version of a name that is known, or the first one of a name and a slug that are new. */
  ghost predicate Fits(t: Registry, k: Key, name: string)
  {
    && IsUser(k.user) && SlugShaped(k.slug)
    && k.version >= 1 && Newest(t, k.user, k.slug, k.version - 1)
    && (forall j | j in t && j.user == k.user :: t[j].name == name <==> j.slug == k.slug)
  }

  /** Adding such a version keeps the registry sound. */
  lemma UploadKeepsSound(t: Registry, k: Key, name: string, fileType: string)
    requires Sound(t) && Fits(t, k, name)
    ensures k !in t && Sound(t[k := Pending(k, name, fileType)])
  {
    assert k !in t;
    UploadKeepsGapless(t, k, Pending(k, name, fileType));
    UploadKeepsNames(t, k, Pending(k, name, fileType));
  }

  lemma UploadKeepsGapless(t: Registry, k: Key, row: Version)
    requires Gapless(t) && k.version >= 1 && Newest(t, k.user, k.slug, k.version - 1)
    ensures Gapless(t[k := row])
  {
    forall j | j in t[k := row]
      ensures j.version >= 1 && (j.version > 1 ==> Key(j.user, j.slug, j.version - 1) in t[k := row])
    {
      assert j in t || j == k;
    }
  }

  lemma UploadKeepsNames(t: Registry, k: Key, row: Version)
    requires NamesFit(t) && k !in t
    requires forall j | j in t && j.user == k.user :: t[j].name == row.name <==> j.slug == k.slug
    ensures NamesFit(t[k := row])
  {
  }

  /** What `mark_ready` does to a row. */
  function MarkedReady(t: Registry, k: Key, uri: string): Registry
    requires k in t
  {
    t[k := t[k].(status := READY, uri := uri)]
  }

  lemma ReadyKeepsSound(t: Registry, k: Key, uri: string)
    requires Sound(t) && k in t
    ensures Sound(MarkedReady(t, k, uri))
  {
    var u := MarkedReady(t, k, uri);
    forall j | j in u
      ensures j in t && u[j].name == t[j].name
    {
    }
    assert forall j :: j in u <==> j in t;
  }

  /** Confirming the key an upload built makes exactly that row READY and leaves its URI alone, if the
      file type is not empty and has no dot; otherwise the key is not recognised. */
  lemma ConfirmingUpload(t: Registry, k: Key)
    requires Sound(t) && k in t && t[k].uri == Uri(k, t[k].fileType) && '/' !in t[k].fileType
    ensures var fileType := t[k].fileType;
      var parsed := ParseKey(ObjectName(k, fileType));
      if fileType != "" && '.' !in fileType then
        parsed == Some(k) && MarkedReady(t, k, BUCKET_URI + ObjectName(k, fileType)) == t[k := t[k].(status := READY)]
      else parsed == None
  {
    KeyReadBack(k, t[k].fileType);
  }

  // ---- names whose slug is taken by a dataset with several versions -----------------

  /** The slug search meets a slug with more than one row before it finds a free one. */
  ghost predicate Blocked(t: Registry, user: string, name: string)
  {
    exists i: nat :: i >= 1 && BlockedBy(t, user, name, i)
  }

  ghost predicate BlockedBy(t: Registry, user: string, name: string, i: nat)
  {
    && ManyVersions(t, user, SlugCandidate(Slugify(name), i))
    && forall j: nat | 1 <= j < i :: Taken(t, user, SlugCandidate(Slugify(name), j))
  }

  /** A new name that makes the slug of a dataset with two versions can never be registered. */
  lemma SameSlugBlocks(t: Registry, user: string, name: string)
    requires Sound(t) && Key(user, Slugify(name), 2) in t
    ensures Blocked(t, user, name)
  {
    ManyIsTwo(t, user, Slugify(name));
    assert BlockedBy(t, user, name, 1);
  }

  /** Names without that bad luck find a slug. */
  lemma UnblockedFinds(t: Registry, user: string, name: string, i: nat)
    requires i >= 1 && !Taken(t, user, SlugCandidate(Slugify(name), i))
    requires forall j: nat | 1 <= j < i :: !ManyVersions(t, user, SlugCandidate(Slugify(name), j))
    ensures !Blocked(t, user, name)
  {
    forall m: nat | m >= 1
      ensures !BlockedBy(t, user, name, m)
    {
      if m == i {
        FreeHasFew(t, user, SlugCandidate(Slugify(name), i));
      }
    }
  }

  lemma FreeHasFew(t: Registry, user: string, slug: string)
    requires !Taken(t, user, slug)
    ensures !ManyVersions(t, user, slug)
  {
  }

  /** The first candidate nobody uses. */
  ghost predicate FirstFree(t: Registry, user: string, name: string, slug: string)
  {
    && !Taken(t, user, slug)
    && exists i: nat :: i >= 1 && slug == SlugCandidate(Slugify(name), i)
         && forall j: nat | 1 <= j < i :: Taken(t, user, SlugCandidate(Slugify(name), j))
  }

  // ---- every history ----------------------------------------------------------------

  /** What one request may do to the registry. */
  ghost predicate Step(t: Registry, u: Registry)
  {
    || t == u
    || (exists k, name, fileType :: Fits(t, k, name) && u == t[k := Pending(k, name, fileType)])
    || (exists k, uri :: k in t && u == MarkedReady(t, k, uri))
  }

  /** In every history of uploads and confirmations the registry stays sound: per user, names and
      slugs are in bijection and the versions of a slug are 1 to n. */
  lemma {:induction false} HistoryStaysSound(history: seq<Registry>, i: nat)
    requires i < |history| && Sound(history[0]) && forall k | 0 <= k < |history| - 1 :: Step(history[k], history[k + 1])
    ensures Sound(history[i])
  {
    if i > 0 {
      HistoryStaysSound(history, i - 1);
      var t, u := history[i - 1], history[i];
      assert Step(t, u);
      if k, name, fileType :| Fits(t, k, name) && u == t[k := Pending(k, name, fileType)] {
        UploadKeepsSound(t, k, name, fileType);
      } else if k, uri :| k in t && u == MarkedReady(t, k, uri) {
        ReadyKeepsSound(t, k, uri);
      }
    }
  }

  datatype Upload = Accepted(key: Key, objectName: string) | SlugLookupFailed

  class DatasetRegistry {
    var table: Registry

    constructor ()
      ensures table == map[] && Sound(table)
    {
      table := map[];
    }

    /** `slug_exists`; None when the query raises. */
    method SlugExists(user: string, slug: string) returns (r: Option<bool>)
      ensures r == if ManyVersions(table, user, slug) then None else Some(Taken(table, user, slug))
    {
      var todo := table.Keys;
      var found: Option<Key> := None;
      while todo != {}
        invariant todo <= table.Keys
        invariant found.Some? ==> found.value in table && found.value !in todo && OfSlug(found.value, user, slug)
        invariant forall k | k in table && k !in todo && OfSlug(k, user, slug) :: found == Some(k)
        decreases |todo|
      {
        var k :| k in todo;
        todo := todo - {k};
        if OfSlug(k, user, slug) {
          if found.Some? {
            assert found.value != k;
            return None;
          }
          found := Some(k);
        }
      }
      return Some(found.Some?);
    }

    /** `get_latest_by_name`, of which only the slug is used: that of a row of the name with the
        greatest version. */
    method SlugOfName(user: string, name: string) returns (r: Option<string>)
      ensures r.None? ==> !Named(table, user, name)
      ensures r.Some? ==> exists k :: LatestOfName(table, user, name, k) && k.slug == r.value
    {
      var todo := table.Keys;
      var best: Option<Key> := None;
      while todo != {}
        invariant todo <= table.Keys
        invariant best.None? ==> forall k | k in table && k !in todo :: !(k.user == user && table[k].name == name)
        invariant best.Some? ==> best.value in table && best.value.user == user && table[best.value].name == name
        invariant best.Some? ==> forall k | k in table && k !in todo && k.user == user && table[k].name == name ::
                    k.version <= best.value.version
        decreases |todo|
      {
        var k :| k in todo;
        todo := todo - {k};
        if k.user == user && table[k].name == name && (best.None? || best.value.version < k.version) {
          best := Some(k);
        }
      }
      if best.None? {
        return None;
      }
      assert LatestOfName(table, user, name, best.value);
      return Some(best.value.slug);
    }

    /** `get_next_version`. */
    method NextVersion(user: string, slug: string) returns (version: nat)
      ensures version >= 1 && Newest(table, user, slug, version - 1)
    {
      var todo := table.Keys;
      var top: nat := 0;
      while todo != {}
        invariant todo <= table.Keys && (top > 0 ==> Key(user, slug, top) in table)
        invariant forall k | k in table && k !in todo && k.user == user && k.slug == slug :: k.version <= top
        decreases |todo|
      {
        var k :| k in todo;
        todo := todo - {k};
        if k.user == user && k.slug == slug && k.version > top {
          top := k.version;
        }
      }
      return top + 1;
    }

    /** `_generate_unique_slug`: the first free candidate, unless a lookup on the way raises. */
    method GenerateUniqueSlug(user: string, name: string) returns (slug: Option<string>)
      ensures slug.None? <==> Blocked(table, user, name)
      ensures slug.Some? ==> SlugShaped(slug.value) && FirstFree(table, user, name, slug.value)
    {
      ghost var taken := set k | k in table && k.user == user :: k.slug;
      var base := Slugify(name);
      SlugifyShape(name);
      var i: nat := 1;
      while true
        invariant 1 <= i <= |taken| + 1
        invariant forall j: nat | 1 <= j < i ::
                    Taken(table, user, SlugCandidate(base, j)) && !ManyVersions(table, user, SlugCandidate(base, j))
        decreases |taken| + 1 - i
      {
        var candidate := SlugCandidate(base, i);
        var lookup := SlugExists(user, candidate);
        if lookup.None? {
          assert BlockedBy(table, user, name, i);
          return None;
        }
        if !lookup.value {
          CandidateShape(base, i);
          UnblockedFinds(table, user, name, i);
          return Some(candidate);
        }
        CandidatesTaken(table, user, base, i, taken);
        i := i + 1;
      }
    }

    /** `initiate_upload`: a new version of a known name, or the first version of a new one. */
    method InitiateUpload(user: string, name: string, fileType: string) returns (r: Upload)
      requires Sound(table) && IsUser(user)
      modifies this
      ensures Sound(table)
      ensures r.SlugLookupFailed? <==> !Named(old(table), user, name) && Blocked(old(table), user, name)
      ensures r.SlugLookupFailed? ==> table == old(table)
      ensures r.Accepted? ==>
        && r.key.user == user && Fits(old(table), r.key, name) && r.key !in old(table)
        && (Named(old(table), user, name) || FirstFree(old(table), user, name, r.key.slug))
        && table == old(table)[r.key := Pending(r.key, name, fileType)]
        && r.objectName == ObjectName(r.key, fileType)
    {
      var known := SlugOfName(user, name);
      var slug: string;
      if known.Some? {
        slug := known.value;
      } else {
        var free := GenerateUniqueSlug(user, name);
        if free.None? {
          return SlugLookupFailed;
        }
        slug := free.value;
      }
      var version := NextVersion(user, slug);
      var k := Key(user, slug, version);
      UploadKeepsSound(table, k, name, fileType);
      table := table[k := Pending(k, name, fileType)];
      return Accepted(k, ObjectName(k, fileType));
    }

    /** `confirm_upload`. */
    method ConfirmUpload(objectKey: string) returns (confirmed: bool)
      requires Sound(table)
      modifies this
      ensures Sound(table)
      ensures confirmed <==> ParseKey(objectKey).Some? && ParseKey(objectKey).value in old(table)
      ensures table == if confirmed then MarkedReady(old(table), ParseKey(objectKey).value, BUCKET_URI + objectKey) else old(table)
    {
      var parsed := ParseKey(objectKey);
      if parsed.None? || parsed.value !in table {
        return false;
      }
      ReadyKeepsSound(table, parsed.value, BUCKET_URI + objectKey);
      table := MarkedReady(table, parsed.value, BUCKET_URI + objectKey);
      return true;
    }
  }

  /** There are at least as many taken slugs as candidates found taken. */
  lemma CandidatesTaken(t: Registry, user: string, base: string, i: nat, taken: set<string>)
    requires taken == set k | k in t && k.user == user :: k.slug
    requires forall j: nat | 1 <= j <= i :: Taken(t, user, SlugCandidate(base, j))
    ensures i <= |taken|
  {
    forall s | s in Candidates(base, i)
      ensures s in taken
    {
      var j: nat :| 1 <= j <= i && s == SlugCandidate(base, j);
      assert Taken(t, user, SlugCandidate(base, j));
    }
    CandidateCount(base, i);
    SubsetCount(Candidates(base, i), taken);
  }
}
