/**
 * `CmsReservedRouteService`: the set of reserved top-level segments, loaded
 * from the `CmsReservedRoutes` table and kept in a cache entry until it is
 * invalidated.
 */
module ReservedRoutes {
  import opened Wrappers
  import opened Text
  import opened CmsUrl
  import opened CmsDomain
  import opened CmsDatabase

  /** What a load computes: the non-blank normalised segments of the active
    * routes. */
  function LoadSegments(routes: Routes): set<string>
  {
    set id | id in routes && routes[id].isActive && !IsBlank(NormalizedSegment(routes[id].segment)) ::
      NormalizedSegment(routes[id].segment)
  }

  /** Membership in a `HashSet` built with `StringComparer.OrdinalIgnoreCase`. */
  predicate ContainsIgnoreCase(segments: set<string>, s: string)
  {
    exists t :: t in segments && EqualsIgnoreCase(t, s)
  }

  /** The set a read returns: the cached one, or a fresh load. */
  function CurrentSegments(cache: Option<set<string>>, routes: Routes): set<string>
  {
    if cache.Some? then cache.value else LoadSegments(routes)
  }

  /** A loaded set holds exactly the normalised segments of the active routes,
    * each a non-empty slug; the segment of an inactive route is there only
    * when an active route normalises to the same segment. */
  lemma LoadSegmentsMembers(routes: Routes, s: string)
    ensures s in LoadSegments(routes) <==>
      exists id :: id in routes && routes[id].isActive && NormalizedSegment(routes[id].segment) == s && s != ""
    ensures s in LoadSegments(routes) ==> IsSlug(s)
  {
    if s in LoadSegments(routes) {
      var id :| id in routes && routes[id].isActive && !IsBlank(NormalizedSegment(routes[id].segment))
        && NormalizedSegment(routes[id].segment) == s;
      NormalizedSegmentShape(routes[id].segment);
    }
    if exists id :: id in routes && routes[id].isActive && NormalizedSegment(routes[id].segment) == s && s != "" {
      var id :| id in routes && routes[id].isActive && NormalizedSegment(routes[id].segment) == s && s != "";
      NormalizedSegmentShape(routes[id].segment);
    }
  }

  /** The membership test on a loaded set ignores case only nominally: every
    * member and every probe is already lower-case, so it is plain equality. */
  lemma ContainsNormalized(routes: Routes, input: string)
    ensures ContainsIgnoreCase(LoadSegments(routes), NormalizedSegment(input)) <==>
      NormalizedSegment(input) in LoadSegments(routes)
  {
    var n := NormalizedSegment(input);
    NormalizedSegmentShape(input);
    if ContainsIgnoreCase(LoadSegments(routes), n) {
      var t :| t in LoadSegments(routes) && EqualsIgnoreCase(t, n);
      LoadSegmentsMembers(routes, t);
      SlugLowerIdentity(t);
      SlugLowerIdentity(n);
    }
  }

  lemma SlugLowerIdentity(s: string)
    requires IsSlug(s)
    ensures ToLower(s) == s
  {
    forall i | 0 <= i < |s| ensures !IsAsciiUpper(s[i]) {
      assert SlugChar(s[i]);
    }
    ToLowerIdentity(s);
  }

  class ReservedRouteService {
    const db: CmsDb
    /** The `cms_reserved_segments` cache entry (its 30-minute expiry is not
      * modelled). */
    var cache: Option<set<string>>

    constructor (db: CmsDb)
      ensures this.db == db && cache == None
    {
      this.db := db;
      cache := None;
    }

    /** `GetReservedSegmentsAsync`: a cache hit returns the cached set without
      * reading the table, however the table has changed since; a miss loads
      * the set and stores it. */
    method GetReservedSegments() returns (r: set<string>)
      modifies this
      ensures old(cache).Some? ==> r == old(cache).value
      ensures old(cache).None? ==> r == LoadSegments(db.routes)
      ensures cache == Some(r)
    {
      if cache.Some? {
        return cache.value;
      }
      r := LoadSegments(db.routes);
      cache := Some(r);
    }

    /** `IsReservedSegmentAsync`: a null or blank segment is not reserved and
      * leaves the cache alone; otherwise its normalised form is looked up in
      * the current set. */
    method IsReservedSegment(segment: Option<string>) returns (b: bool)
      modifies this
      ensures IsNullOrBlank(segment) ==> !b && cache == old(cache)
      ensures !IsNullOrBlank(segment) ==>
        && b == ContainsIgnoreCase(CurrentSegments(old(cache), db.routes), NormalizedSegment(segment.value))
        && cache == Some(CurrentSegments(old(cache), db.routes))
    {
      if IsNullOrBlank(segment) {
        return false;
      }
      var normalized := NormalizeSegment(segment.value);
      var reserved := GetReservedSegments();
      b := ContainsIgnoreCase(reserved, normalized);
    }

    /** `InvalidateCache`: the next read loads from the table. */
    method InvalidateCache()
      modifies this
      ensures cache == None
    {
      cache := None;
    }
  }
}
