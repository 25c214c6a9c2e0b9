/**
 * `AdminContentController`: the POST actions that create, edit and delete
 * CMS pages and their components, over the `CmsDb` tables and the
 * reserved-segment service. Each action reads the tables, computes a working
 * copy as the change tracker would, and commits it with `SaveChanges`.
 */
module AdminContent {
  import opened Wrappers
  import opened Text
  import opened CmsUrl
  import opened CmsDomain
  import opened Forest
  import opened PageTree
  import opened CmsDatabase
  import opened ReservedRoutes
  import opened Tables
  import opened ContentComponents
  import opened PageInvariants
  import Slugs
  import opened PageListing
  import opened Sorting

  /** The posted `CmsPageEditViewModel` (the fields the POST actions read). */
  datatype PageForm = PageForm(
    title: string,
    slug: Option<string>,
    customUrl: Option<string>,
    parentId: Option<nat>,
    position: int,
    isPublished: bool)

  datatype ContentResult =
    | NotFound
      /** The page form shown again with its errors and the slug and path the
        * action computed. */
    | PageFormWithErrors(errors: seq<string>, slug: string, path: string)
    | FormWithErrors(errors: seq<string>)
    | RedirectToEdit(id: nat)
    | RedirectToPages

  const ParentRequired := "Parent page is required."
  const OwnParent := "A page cannot be its own parent."
  const UnderDescendant := "A page cannot be moved under one of its descendants."
  const UrlReserved := "That URL is reserved and cannot be used."
  const UrlInUse := "That URL is already in use."
  const SaveFailedMessage := "Unable to save changes. Please check for duplicate URLs or slugs."
  const FallbackSlug := "page"

  // ---------------------------------------------------------------------
  // The helpers the page actions share

  /** `ResolveParentAsync`: no parent for a missing or empty id, otherwise
    * the row with that id, if any. */
  function ResolveParent(pages: Pages, parentId: Option<nat>): (r: Option<CmsPage>)
    ensures r.Some? <==> parentId.Some? && parentId.value != EmptyGuid && parentId.value in pages
    ensures r.Some? ==> r.value == pages[parentId.value]
  {
    if parentId.None? || parentId.value == EmptyGuid || parentId.value !in pages then None
    else Some(pages[parentId.value])
  }

  /** The slug the form asks for: the normalised slug, or the normalised
    * title when the slug is blank, and `page` when that is blank too. */
  function BaseSlug(model: PageForm): (r: string)
    ensures r != "" && IsSlug(r)
    ensures var n := NormalizedSegment(if IsNullOrBlank(model.slug) then model.title else model.slug.value);
      r == if IsBlank(n) then FallbackSlug else n
  {
    var input := if IsNullOrBlank(model.slug) then model.title else model.slug.value;
    var n := NormalizedSegment(input);
    NormalizedSegmentShape(input);
    assert IsSlug(FallbackSlug);
    if IsBlank(n) then FallbackSlug else n
  }

  /** The controller's `NormalizeCustomUrl`: null for a blank custom URL,
    * otherwise the normalised path, which is canonical, non-blank and
    * unchanged by normalising again. */
  function CustomUrlOrNull(customUrl: Option<string>): (r: Option<string>)
    ensures r.None? <==> IsNullOrBlank(customUrl)
    ensures StoredCustomUrl(r)
    ensures r.Some? ==> && r.value == NormalizePath(customUrl.value)
                        && IsCanonicalPath(r.value) && !IsBlank(r.value)
                        && NormalizeCustomUrl(r.value) == r.value
  {
    if IsNullOrBlank(customUrl) then None
    else
      var u := NormalizeCustomUrl(customUrl.value);
      NormalizeCustomUrlIsNormalizePath(customUrl.value);
      NormalizePathSegments(customUrl.value);
      NormalizePathCanonical(customUrl.value);
      NormalizeCustomUrlIsNormalizePath(u);
      assert !IsWhiteSpace(u[0]);
      Some(u)
  }

  /** A custom URL as the controllers store it: none, or a non-blank
    * canonical path that normalising leaves alone. */
  predicate StoredCustomUrl(customUrl: Option<string>)
  {
    customUrl.Some? ==> !IsBlank(customUrl.value) && IsCanonicalPath(customUrl.value) &&
                        NormalizeCustomUrl(customUrl.value) == customUrl.value
  }

  /** The path of a page: its custom URL when it has one, otherwise
    * `BuildPath` from its parent's path. */
  function PagePath(parentPath: Option<string>, slug: string, customUrl: Option<string>): string
  {
    if !IsNullOrBlank(customUrl) then customUrl.value else BuildPath(parentPath, slug)
  }

  function PathOf(parent: Option<CmsPage>): Option<string>
  {
    if parent.Some? then Some(parent.value.path) else None
  }

  function IdOf(parent: Option<CmsPage>): Option<nat>
  {
    if parent.Some? then Some(parent.value.id) else None
  }

  /** A page under `parentId` other than `excludeId` has `slug`, ignoring
    * case. */
  predicate SlugTaken(pages: Pages, parentId: Option<nat>, excludeId: Option<nat>, slug: string)
  {
    exists id :: id in pages && pages[id].parentId == parentId && Some(id) != excludeId &&
                 EqualsIgnoreCase(pages[id].slug, slug)
  }

  /** The slugs listed from the siblings' rows are taken, ignoring case,
    * exactly when a sibling has them. */
  lemma SiblingSlugsTaken(pages: Pages, parentId: Option<nat>, excludeId: Option<nat>,
                          siblings: map<nat, string>, existing: seq<string>, keys: seq<nat>)
    requires siblings == map id | id in pages && pages[id].parentId == parentId && Some(id) != excludeId :: pages[id].slug
    requires |existing| == |keys|
    requires forall i :: 0 <= i < |keys| ==> keys[i] in siblings && existing[i] == siblings[keys[i]]
    requires forall k :: k in siblings ==> k in keys
    ensures forall s :: Slugs.Taken(existing, s) <==> SlugTaken(pages, parentId, excludeId, s)
  {
    forall s ensures Slugs.Taken(existing, s) <==> SlugTaken(pages, parentId, excludeId, s) {
      if Slugs.Taken(existing, s) {
        var t :| t in existing && EqualsIgnoreCase(t, s);
        ToListMembers(siblings, existing, keys, t);
        var id :| id in siblings && siblings[id] == t;
        assert pages[id].slug == t;
      }
      if SlugTaken(pages, parentId, excludeId, s) {
        var id :| id in pages && pages[id].parentId == parentId && Some(id) != excludeId &&
                  EqualsIgnoreCase(pages[id].slug, s);
        assert siblings[id] == pages[id].slug;
        ToListMembers(siblings, existing, keys, pages[id].slug);
      }
    }
  }

  /** `slug` is what `EnsureUniqueSlugAsync` returns: the first of `base`,
    * `base-2`, `base-3`, … that no other sibling has. */
  ghost predicate FirstFreeSlug(pages: Pages, parentId: Option<nat>, excludeId: Option<nat>, base: string, slug: string)
  {
    && !SlugTaken(pages, parentId, excludeId, slug)
    && exists n :: n >= 1 && slug == Slugs.Candidate(base, base, n) &&
         (forall k :: 1 <= k < n ==> SlugTaken(pages, parentId, excludeId, Slugs.Candidate(base, base, k)))
  }

  /** Only one slug is the first free one. */
  lemma FirstFreeSlugUnique(pages: Pages, parentId: Option<nat>, excludeId: Option<nat>, base: string, s1: string, s2: string)
    requires FirstFreeSlug(pages, parentId, excludeId, base, s1)
    requires FirstFreeSlug(pages, parentId, excludeId, base, s2)
    ensures s1 == s2
  {
    var n1 :| n1 >= 1 && s1 == Slugs.Candidate(base, base, n1) &&
      (forall k :: 1 <= k < n1 ==> SlugTaken(pages, parentId, excludeId, Slugs.Candidate(base, base, k)));
    var n2 :| n2 >= 1 && s2 == Slugs.Candidate(base, base, n2) &&
      (forall k :: 1 <= k < n2 ==> SlugTaken(pages, parentId, excludeId, Slugs.Candidate(base, base, k)));
  }

  /** The first free slug is a non-empty slug that differs from every other
    * sibling's. */
  lemma FirstFreeSlugShape(pages: Pages, parentId: Option<nat>, excludeId: Option<nat>, base: string, slug: string)
    requires FirstFreeSlug(pages, parentId, excludeId, base, slug)
    requires base != "" && IsSlug(base)
    ensures slug != "" && IsSlug(slug)
    ensures forall id :: id in pages && pages[id].parentId == parentId && Some(id) != excludeId ==> pages[id].slug != slug
  {
    var n :| n >= 1 && slug == Slugs.Candidate(base, base, n) &&
      (forall k :: 1 <= k < n ==> SlugTaken(pages, parentId, excludeId, Slugs.Candidate(base, base, k)));
    Slugs.CandidateIsSlug(base, base, n);
  }

  /** `IsPathAllowedAsync` on a given reserved set: the root and blank paths
    * are allowed, any other path unless its top-level segment is reserved. */
  predicate PathAllowed(segments: set<string>, path: string)
  {
    IsBlank(path) || path == "/" || !Reserved(segments, GetTopLevelSegment(path))
  }

  /** `IsReservedSegmentAsync` on a given reserved set. */
  predicate Reserved(segments: set<string>, segment: Option<string>)
  {
    !IsNullOrBlank(segment) && ContainsIgnoreCase(segments, NormalizedSegment(segment.value))
  }

  /** `IsPathUniqueAsync`: no page other than `excludeId` has the path. */
  predicate PathUnique(pages: Pages, path: string, excludeId: Option<nat>)
  {
    !exists id :: id in pages && pages[id].path == path && Some(id) != excludeId
  }

  /** The errors `Create` accumulates after those of model binding. */
  function CreateErrors(pages: Pages, segments: set<string>, model: PageForm, bindingErrors: seq<string>,
                        path: string): seq<string>
  {
    bindingErrors
    + (if ResolveParent(pages, model.parentId).None? then [ParentRequired] else [])
    + (if !PathAllowed(segments, path) then [UrlReserved] else [])
    + (if !PathUnique(pages, path, None) then [UrlInUse] else [])
  }

  /** The parent id `Edit` works with: none for the homepage, whatever was
    * posted. */
  function PostedParent(page: CmsPage, model: PageForm): Option<nat>
  {
    if page.isHomepage then None else model.parentId
  }

  /** The errors `Edit` accumulates after those of model binding. */
  ghost function EditErrors(pages: Pages, rank: map<nat, nat>, segments: set<string>, id: nat, model: PageForm,
                            bindingErrors: seq<string>, path: string): seq<string>
    requires Ranked(ParentMap(pages), rank) && id in pages
  {
    var page := pages[id];
    var parentId := PostedParent(page, model);
    bindingErrors
    + (if parentId == Some(id) then [OwnParent] else [])
    + (if parentId.Some? && IsAncestor(ParentMap(pages), rank, id, parentId.value) then [UnderDescendant] else [])
    + (if !page.isHomepage && ResolveParent(pages, parentId).None? then [ParentRequired] else [])
    + (if !PathAllowed(segments, path) then [UrlReserved] else [])
    + (if !PathUnique(pages, path, Some(id)) then [UrlInUse] else [])
  }

  /** The row `Edit` writes for a page that is not the homepage. */
  function EditedPage(page: CmsPage, model: PageForm, parent: Option<CmsPage>, slug: string): CmsPage
  {
    var customUrl := CustomUrlOrNull(model.customUrl);
    page.(title := Trim(model.title), slug := slug, path := PagePath(PathOf(parent), slug, customUrl),
          parentId := IdOf(parent), position := model.position, isPublished := model.isPublished,
          customUrl := customUrl)
  }

  /** The row `Edit` writes for the homepage: the title, position and
    * published flag follow the form, the slug stays, and the path, parent
    * and custom URL are forced to `/`, none and none. */
  function EditedHomepage(page: CmsPage, model: PageForm): CmsPage
  {
    page.(title := Trim(model.title), path := "/", parentId := None, position := model.position,
          isPublished := model.isPublished, customUrl := None)
  }

  /** A child row built the way `Create` and `Edit` build it under an existing
    * parent is well formed and sits at the path its parent gives it. */
  lemma ChildRowShape(parent: CmsPage, page: CmsPage)
    requires WellFormedPage(parent)
    requires !page.isHomepage && page.parentId == Some(parent.id)
    requires page.slug != "" && IsSlug(page.slug)
    requires StoredCustomUrl(page.customUrl)
    requires page.path == PagePath(Some(parent.path), page.slug, page.customUrl)
    ensures WellFormedPage(page)
    ensures page.path == ChildPath(parent.path, page)
  {
    if IsNullOrBlank(page.customUrl) {
      BuildPathCanonical(Some(parent.path), page.slug);
    }
  }

  /** Every page row is stored under its own id (part of `PageIndexesHold`). */
  predicate KeysMatch(pages: Pages)
  {
    forall k :: k in pages ==> pages[k].id == k
  }

  /** When the parent checks pass, the row `Edit` builds may be written
    * in the sense of `EditableTo`. */
  lemma EditRowAcceptable(pages: Pages, rank: map<nat, nat>, height: nat, segments: set<string>, id: nat,
                          model: PageForm, bindingErrors: seq<string>, slug: string, path: string, row: CmsPage)
    requires TreeInvariant(pages, rank, height) && KeysMatch(pages)
    requires id in pages
    requires EditErrors(pages, rank, segments, id, model, bindingErrors, path) == []
    requires var page := pages[id];
      var parent := ResolveParent(pages, PostedParent(page, model));
      && (page.isHomepage ==> slug == page.slug && path == "/" && row == EditedHomepage(page, model))
      && (!page.isHomepage ==>
            && slug != "" && IsSlug(slug)
            && path == PagePath(PathOf(parent), slug, CustomUrlOrNull(model.customUrl))
            && row == EditedPage(page, model, parent, slug))
    ensures row.id == id && row.path == path && EditableTo(pages, rank, row) && PathUnique(pages, path, Some(id))
  {
    var page := pages[id];
    assert WellFormedPage(page);
    if !page.isHomepage {
      var q := ResolveParent(pages, PostedParent(page, model)).value;
      assert WellFormedPage(q) && q.id in pages;
      ChildRowShape(q, row);
    }
  }

  /** A row `Create` may insert: a fresh id under an existing parent, a
    * non-empty slug no sibling has, the custom URL as normalised or the path
    * built from the parent's, and a path no row has. */
  predicate InsertableChild(pages: Pages, page: CmsPage)
  {
    && page.id !in pages && page.parentId.Some? && page.parentId.value in pages
    && !page.isHomepage && page.slug != "" && IsSlug(page.slug)
    && StoredCustomUrl(page.customUrl)
    && page.path == PagePath(Some(pages[page.parentId.value].path), page.slug, page.customUrl)
    && PathUnique(pages, page.path, None)
    && (forall id :: id in pages && pages[id].parentId == page.parentId ==> pages[id].slug != page.slug)
  }

  /** Inserting such a child keeps the tree invariant and every index. */
  lemma InsertChildValid(pages: Pages, components: Components, routes: Routes, rank: map<nat, nat>, height: nat,
                         page: CmsPage)
    returns (rank': map<nat, nat>)
    requires ValidTables(pages, components, routes, rank, height)
    requires InsertableChild(pages, page)
    ensures rank' == rank[page.id := rank[page.parentId.value] + 1]
    ensures TreeInvariant(pages[page.id := page], rank', height + 1)
    ensures IndexesHold(pages[page.id := page], components, routes)
  {
    ChildRowShape(pages[page.parentId.value], page);
    InsertPreservesTree(pages, rank, height, page);
    InsertKeepsIndexes(pages, components, routes, page);
    rank' := rank[page.id := rank[page.parentId.value] + 1];
  }

  /** The rows of a ranked table, listed in any order, meet what both page
    * views need. */
  lemma RowsRanked(pages: Pages, rows: seq<CmsPage>, rank: map<nat, nat>, height: nat)
    requires Ranked(ParentMap(pages), rank) && RankBounded(pages, rank, height) && KeysMatch(pages)
    requires forall p :: p in rows ==> exists k :: k in pages && pages[k] == p
    ensures ListRanked(rows, rank, height)
  {
    forall p | p in rows
      ensures p.id in rank && rank[p.id] < height
      ensures p.parentId.Some? ==> p.parentId.value in rank && rank[p.parentId.value] < rank[p.id]
    {
      var k :| k in pages && pages[k] == p;
      assert ParentMap(pages)[k] == p.parentId;
    }
  }

  /** The body of GET `Pages` on the table's current value. */
  method PageList(pages: Pages, ghost rank: map<nat, nat>, ghost height: nat)
    returns (tree: seq<TreeItem>, rows: seq<CmsPage>)
    requires Ranked(ParentMap(pages), rank) && RankBounded(pages, rank, height) && KeysMatch(pages)
    ensures |rows| == |pages|
    ensures forall p :: p in rows <==> exists k :: k in pages && pages[k] == p
    ensures ListRanked(rows, rank, height)
    ensures tree == BuildTree(rows, None, rank, height)
  {
    ghost var keys;
    rows, keys := ToList(pages);
    forall p ensures p in rows <==> exists k :: k in pages && pages[k] == p {
      ToListMembers(pages, rows, keys, p);
    }
    RowsRanked(pages, rows, rank, height);
    tree := BuildTree(rows, None, rank, height);
  }

  class AdminContentController {
    const db: CmsDb
    const reserved: ReservedRouteService

    ghost predicate Valid()
      reads this, db
    {
      db.Valid() && reserved.db == db
    }

    constructor (db: CmsDb, reserved: ReservedRouteService)
      requires reserved.db == db
      ensures this.db == db && this.reserved == reserved
    {
      this.db := db;
      this.reserved := reserved;
    }

    /** GET `Pages`: the page list built from the rows in the order the table
      * returns them; it lists every page exactly as `BuildTree` arranges it. */
    method Pages() returns (tree: seq<TreeItem>, rows: seq<CmsPage>)
      requires Ranked(ParentMap(db.pages), db.rank) && RankBounded(db.pages, db.rank, db.height) && KeysMatch(db.pages)
      ensures |rows| == |db.pages|
      ensures forall p :: p in rows <==> exists k :: k in db.pages && db.pages[k] == p
      ensures ListRanked(rows, db.rank, db.height)
      ensures tree == BuildTree(rows, None, db.rank, db.height)
    {
      tree, rows := PageList(db.pages, db.rank, db.height);
    }

    /** `PopulateParentOptionsAsync(model, excludeId)` with `model.ParentId`
      * as `selectedId`: the drop-down is the page list of the rows read in
      * position order, walked in pre-order without the excluded subtree. */
    method PopulateParentOptions(selectedId: Option<nat>, excludeId: Option<nat>)
      returns (options: seq<ParentOption>, rows: seq<CmsPage>)
      requires Ranked(ParentMap(db.pages), db.rank) && RankBounded(db.pages, db.rank, db.height) && KeysMatch(db.pages)
      ensures |rows| == |db.pages| && SortedBy(rows, ByPosition)
      ensures forall p :: p in rows <==> exists k :: k in db.pages && db.pages[k] == p
      ensures ListRanked(rows, db.rank, db.height)
      ensures options == OptionsOfTree(BuildTree(rows, None, db.rank, db.height), 0, excludeId, selectedId)
      ensures forall o :: o in options ==>
        && Some(o.value) != excludeId && o.value in db.pages
        && (o.selected <==> selectedId == Some(o.value))
    {
      var table, keys := ToList(db.pages);
      ByPositionIsTotalPreorder();
      SortByCorrect(table, ByPosition);
      rows := SortBy(table, ByPosition);
      forall p ensures p in rows <==> exists k :: k in db.pages && db.pages[k] == p {
        assert p in rows <==> p in multiset(rows);
        ToListMembers(db.pages, table, keys, p);
      }
      RowsRanked(db.pages, rows, db.rank, db.height);
      options := ParentOptions(rows, excludeId, selectedId, db.rank, db.height);
      forall o | o in options ensures o.value in db.pages {
        var p :| p in rows && p.id == o.value;
        var k :| k in db.pages && db.pages[k] == p;
      }
    }

    /** `EnsureUniqueSlugAsync(parentId, baseSlug, excludeId)` over the
      * current table. */
    method EnsureUniqueSlug(parentId: Option<nat>, base: string, excludeId: Option<nat>) returns (slug: string)
      ensures FirstFreeSlug(db.pages, parentId, excludeId, base, slug)
    {
      var pages := db.pages;
      var siblings := map id | id in pages && pages[id].parentId == parentId && Some(id) != excludeId :: pages[id].slug;
      var existing, keys := ToList(siblings);
      slug := Slugs.EnsureUniqueSlug(existing, base, base);
      SiblingSlugsTaken(pages, parentId, excludeId, siblings, existing, keys);
    }

    /** `IsPathAllowedAsync(path)`; the service may load and cache the
      * reserved set on the way. */
    method IsPathAllowed(path: string) returns (b: bool)
      requires reserved.db == db
      modifies reserved
      ensures b == PathAllowed(CurrentSegments(old(reserved.cache), db.routes), path)
      ensures reserved.cache == old(reserved.cache) || reserved.cache == Some(CurrentSegments(old(reserved.cache), db.routes))
    {
      if IsBlank(path) || path == "/" {
        return true;
      }
      var segment := GetTopLevelSegment(path);
      var isReserved := reserved.IsReservedSegment(segment);
      b := !isReserved;
    }

    /** POST `Create`. The new page goes under the resolved parent with the
      * first free slug among its siblings and the custom URL or the built
      * path; a missing parent, a reserved top-level segment or a path in use
      * sends the form back and inserts nothing. An accepted page never fails
      * an index, so the insert commits exactly when the save goes through.
      * `newId` stands for `Guid.NewGuid()`, which no row has. */
    method Create(model: PageForm, bindingErrors: seq<string>, newId: nat, saveOk: bool)
      returns (result: ContentResult, slug: string, path: string)
      requires Valid()
      requires newId !in db.pages
      modifies db, reserved
      ensures Valid()
      ensures db.components == old(db.components) && db.routes == old(db.routes)
      ensures reserved.cache == old(reserved.cache) || reserved.cache == Some(CurrentSegments(old(reserved.cache), db.routes))
      ensures var parent := ResolveParent(old(db.pages), model.parentId);
        && (parent.None? ==> slug == BaseSlug(model))
        && (parent.Some? ==> FirstFreeSlug(old(db.pages), Some(parent.value.id), None, BaseSlug(model), slug))
        && path == PagePath(PathOf(parent), slug, CustomUrlOrNull(model.customUrl))
      ensures var errors := CreateErrors(old(db.pages), CurrentSegments(old(reserved.cache), db.routes), model, bindingErrors, path);
        && (errors != [] ==> result == PageFormWithErrors(errors, slug, path))
        && (errors == [] && saveOk ==> result == RedirectToEdit(newId))
        && (errors == [] && !saveOk ==> result == FormWithErrors([SaveFailedMessage]))
      ensures result.RedirectToEdit? ==>
        && newId in db.pages && db.pages == old(db.pages)[newId := db.pages[newId]]
        && var p := db.pages[newId];
           var parent := ResolveParent(old(db.pages), model.parentId).value;
           && p == CmsPage(newId, Trim(model.title), slug, path, Some(parent.id), p.position, false,
                           model.isPublished, CustomUrlOrNull(model.customUrl))
           && (model.position > 0 ==> p.position == model.position)
           && (model.position <= 0 ==> IsNextPosition(old(db.pages), Some(parent.id), p.position))
      ensures !result.RedirectToEdit? ==> db.pages == old(db.pages)
    {
      var errors, parent;
      errors, parent, slug, path := CreateChecks(model, bindingErrors);
      if errors != [] {
        return PageFormWithErrors(errors, slug, path), slug, path;
      }
      var position := model.position;
      if position <= 0 {
        position := GetNextPosition(db.pages, Some(parent.value.id));
      }
      var page := CmsPage(newId, Trim(model.title), slug, path, Some(parent.value.id), position, false,
                          model.isPublished, CustomUrlOrNull(model.customUrl));
      FirstFreeSlugShape(db.pages, Some(parent.value.id), None, BaseSlug(model), slug);
      var ok := InsertChild(page, saveOk);
      if !ok {
        return FormWithErrors([SaveFailedMessage]), slug, path;
      }
      return RedirectToEdit(newId), slug, path;
    }

    /** Everything `Create` does before it inserts: the parent, the slug,
      * the path, the reserved and unique path checks and the errors they
      * add. */
    method CreateChecks(model: PageForm, bindingErrors: seq<string>)
      returns (errors: seq<string>, parent: Option<CmsPage>, slug: string, path: string)
      requires reserved.db == db
      modifies reserved
      ensures reserved.cache == old(reserved.cache) || reserved.cache == Some(CurrentSegments(old(reserved.cache), db.routes))
      ensures parent == ResolveParent(db.pages, model.parentId)
      ensures parent.None? ==> slug == BaseSlug(model)
      ensures parent.Some? ==> FirstFreeSlug(db.pages, Some(parent.value.id), None, BaseSlug(model), slug)
      ensures path == PagePath(PathOf(parent), slug, CustomUrlOrNull(model.customUrl))
      ensures errors == CreateErrors(db.pages, CurrentSegments(old(reserved.cache), db.routes), model, bindingErrors, path)
    {
      parent := ResolveParent(db.pages, model.parentId);
      var base := BaseSlug(model);
      if parent.None? {
        slug := base;
      } else {
        slug := EnsureUniqueSlug(Some(parent.value.id), base, None);
      }
      path := PagePath(PathOf(parent), slug, CustomUrlOrNull(model.customUrl));
      var allowed := IsPathAllowed(path);
      var unique := PathUnique(db.pages, path, None);
      errors := bindingErrors
        + (if parent.None? then [ParentRequired] else [])
        + (if !allowed then [UrlReserved] else [])
        + (if !unique then [UrlInUse] else []);
    }

    /** Adds a child row under an existing parent, at the path its parent or
      * its custom URL gives it, where no row has that path and no sibling
      * that slug: the insert keeps every index, so it commits exactly when
      * the save goes through. */
    method InsertChild(page: CmsPage, saveOk: bool) returns (ok: bool)
      requires db.Valid()
      requires InsertableChild(db.pages, page)
      modifies db
      ensures db.Valid()
      ensures ok == saveOk
      ensures db.components == old(db.components) && db.routes == old(db.routes)
      ensures ok ==> db.pages == old(db.pages)[page.id := page]
      ensures !ok ==> db.pages == old(db.pages)
    {
      ghost var rank' := InsertChildValid(db.pages, db.components, db.routes, db.rank, db.height, page);
      var newPages := db.pages[page.id := page];
      ok := db.SaveChanges(newPages, db.components, db.routes, saveOk, rank', db.height + 1);
    }

    /** POST `Edit`. The homepage keeps its slug, its path `/` and its lack of
      * a parent; any other page takes the resolved parent, the first free
      * slug among its new siblings and the custom URL or the built path. The
      * checks are those of `EditErrors`; when they pass the row is updated
      * and, if its path changed, the paths below it are recomputed, and the
      * whole table commits when the save goes through and no index is
      * violated. Without a path change nothing can violate one. */
    method Edit(id: nat, model: PageForm, bindingErrors: seq<string>, saveOk: bool)
      returns (result: ContentResult, slug: string, path: string, ghost edited: CmsPage)
      requires Valid()
      modifies db, reserved
      ensures Valid()
      ensures db.components == old(db.components) && db.routes == old(db.routes)
      ensures reserved.cache == old(reserved.cache) || reserved.cache == Some(CurrentSegments(old(reserved.cache), db.routes))
      ensures result == NotFound <==> id !in old(db.pages)
      ensures result == NotFound ==> db.pages == old(db.pages)
      ensures id in old(db.pages) ==>
        var page := old(db.pages)[id];
        var parent := ResolveParent(old(db.pages), PostedParent(page, model));
        && (page.isHomepage ==> slug == page.slug && path == "/" && edited == EditedHomepage(page, model))
        && (!page.isHomepage ==>
              && FirstFreeSlug(old(db.pages), IdOf(parent), Some(id), BaseSlug(model), slug)
              && path == PagePath(PathOf(parent), slug, CustomUrlOrNull(model.customUrl))
              && edited == EditedPage(page, model, parent, slug))
      ensures id in old(db.pages) ==>
        var errors := EditErrors(old(db.pages), old(db.rank), CurrentSegments(old(reserved.cache), db.routes),
                                 id, model, bindingErrors, path);
        && (errors != [] ==> result == PageFormWithErrors(errors, slug, path) && db.pages == old(db.pages))
        && (errors == [] ==>
              var after := TableAfterEdit(old(db.pages), old(db.rank), edited);
              && (result == RedirectToEdit(id) <==> saveOk && IndexesHold(after, db.components, db.routes))
              && (result == RedirectToEdit(id) ==> db.pages == after)
              && (result != RedirectToEdit(id) ==> result == FormWithErrors([SaveFailedMessage]) && db.pages == old(db.pages))
              && (edited.path == old(db.pages)[id].path ==> (result == RedirectToEdit(id) <==> saveOk)))
    {
      if id !in db.pages {
        return NotFound, "", "", CmsPage(id, "", "", "", None, 0, false, false, None);
      }
      var errors, row;
      ghost var segments := CurrentSegments(reserved.cache, db.routes);
      errors, slug, path, row := EditChecks(id, model, bindingErrors);
      edited := row;
      if errors != [] {
        result := PageFormWithErrors(errors, slug, path);
      } else {
        EditRowAcceptable(db.pages, db.rank, db.height, segments, id, model, bindingErrors, slug, path, row);
        var ok := CommitEdit(row, saveOk);
        result := if ok then RedirectToEdit(id) else FormWithErrors([SaveFailedMessage]);
      }
    }

    /** Everything `Edit` does before it writes: the parent checks, the slug,
      * the path and the row, the reserved and unique path checks and the
      * errors they add. A row that draws no error is one the tree can take. */
    method EditChecks(id: nat, model: PageForm, bindingErrors: seq<string>)
      returns (errors: seq<string>, slug: string, path: string, row: CmsPage)
      requires reserved.db == db
      requires Ranked(ParentMap(db.pages), db.rank) && KeysMatch(db.pages)
      requires id in db.pages
      modifies reserved
      ensures reserved.cache == old(reserved.cache) || reserved.cache == Some(CurrentSegments(old(reserved.cache), db.routes))
      ensures var page := db.pages[id];
        var parent := ResolveParent(db.pages, PostedParent(page, model));
        && (page.isHomepage ==> slug == page.slug && path == "/" && row == EditedHomepage(page, model))
        && (!page.isHomepage ==>
              && FirstFreeSlug(db.pages, IdOf(parent), Some(id), BaseSlug(model), slug)
              && slug != "" && IsSlug(slug)
              && path == PagePath(PathOf(parent), slug, CustomUrlOrNull(model.customUrl))
              && row == EditedPage(page, model, parent, slug))
      ensures row.parentId.Some? ==>
        forall k :: k in db.pages && k != id && db.pages[k].parentId == row.parentId ==> db.pages[k].slug != row.slug
      ensures errors == EditErrors(db.pages, db.rank, CurrentSegments(old(reserved.cache), db.routes),
                                   id, model, bindingErrors, path)
    {
      ghost var segments := CurrentSegments(reserved.cache, db.routes);
      var page := db.pages[id];
      var parentId := PostedParent(page, model);
      var underDescendant := false;
      if parentId.Some? {
        underDescendant := IsDescendant(db.pages, db.rank, id, parentId.value);
      }
      var parent := if page.isHomepage then None else ResolveParent(db.pages, parentId);
      slug, path, row := EditTarget(page, model, parent);
      var allowed := IsPathAllowed(path);
      var unique := PathUnique(db.pages, path, Some(id));
      errors := bindingErrors
        + (if parentId == Some(id) then [OwnParent] else [])
        + (if underDescendant then [UnderDescendant] else [])
        + (if !page.isHomepage && parent.None? then [ParentRequired] else [])
        + (if !allowed then [UrlReserved] else [])
        + (if !unique then [UrlInUse] else []);
    }

    /** The slug, path and row `Edit` computes for `page` under the resolved
      * parent. */
    method EditTarget(page: CmsPage, model: PageForm, parent: Option<CmsPage>)
      returns (slug: string, path: string, row: CmsPage)
      requires page.isHomepage ==> parent.None?
      ensures page.isHomepage ==> slug == page.slug && path == "/" && row == EditedHomepage(page, model)
      ensures !page.isHomepage ==>
        && FirstFreeSlug(db.pages, IdOf(parent), Some(page.id), BaseSlug(model), slug)
        && slug != "" && IsSlug(slug)
        && (forall id :: id in db.pages && db.pages[id].parentId == IdOf(parent) && Some(id) != Some(page.id) ==>
              db.pages[id].slug != slug)
        && path == PagePath(PathOf(parent), slug, CustomUrlOrNull(model.customUrl))
        && row == EditedPage(page, model, parent, slug)
    {
      if page.isHomepage {
        slug, path := page.slug, "/";
        row := EditedHomepage(page, model);
      } else {
        var base := BaseSlug(model);
        slug := EnsureUniqueSlug(IdOf(parent), base, Some(page.id));
        FirstFreeSlugShape(db.pages, IdOf(parent), Some(page.id), base, slug);
        path := PagePath(PathOf(parent), slug, CustomUrlOrNull(model.customUrl));
        row := EditedPage(page, model, parent, slug);
      }
    }

    /** The commit of `Edit`: the row is written, the paths below it are
      * recomputed when its path changed (`UpdateDescendantPathsAsync`), and
      * the save goes through unless it fails or an index would be violated;
      * an edit in place whose path no other row has and whose slug no other
      * sibling has cannot violate one. */
    method CommitEdit(edited: CmsPage, saveOk: bool) returns (ok: bool)
      requires db.Valid()
      requires EditableTo(db.pages, db.rank, edited)
      requires PathUnique(db.pages, edited.path, Some(edited.id))
      requires edited.parentId.Some? ==>
        forall id :: id in db.pages && id != edited.id && db.pages[id].parentId == edited.parentId ==>
          db.pages[id].slug != edited.slug
      modifies db
      ensures db.Valid()
      ensures db.components == old(db.components) && db.routes == old(db.routes)
      ensures var after := TableAfterEdit(old(db.pages), old(db.rank), edited);
        && (ok <==> saveOk && IndexesHold(after, db.components, db.routes))
        && db.pages == (if ok then after else old(db.pages))
      ensures edited.path == old(db.pages)[edited.id].path ==> (ok <==> saveOk)
    {
      ghost var after, rank', height' := CommitEditFacts(db.pages, db.components, db.routes, db.rank, db.height, edited);
      var w := TableAfterEditing(edited);
      ok := db.SaveChanges(w, db.components, db.routes, saveOk, rank', height');
    }

    /** The working copy after `Edit` has written `edited`: the row itself
      * and, when its path changed, the paths below it. */
    method TableAfterEditing(edited: CmsPage) returns (w: Pages)
      requires Ranked(ParentMap(db.pages), db.rank)
      requires forall id :: id in db.pages ==> id in db.rank && db.rank[id] < db.height && db.pages[id].id == id
      requires edited.id in db.pages && edited.id == db.pages[edited.id].id
      ensures w == TableAfterEdit(db.pages, db.rank, edited)
    {
      w := db.pages[edited.id := edited];
      if edited.path != db.pages[edited.id].path {
        w := UpdateDescendantPaths(db.pages, ParentMap(db.pages), db.rank, db.height, edited, w);
      }
    }

    /** POST `Delete`. The homepage is never deleted; any other page goes with
      * its whole subtree and every component those pages own, when the save
      * goes through. Either way the action returns to the page list. */
    method Delete(id: nat, saveOk: bool) returns (result: ContentResult)
      requires Valid()
      modifies db
      ensures Valid()
      ensures db.routes == old(db.routes)
      ensures result == NotFound <==> id !in old(db.pages)
      ensures id in old(db.pages) && old(db.pages)[id].isHomepage ==>
        result == RedirectToEdit(id) && db.pages == old(db.pages) && db.components == old(db.components)
      ensures id in old(db.pages) && !old(db.pages)[id].isHomepage ==>
        var P := ParentMap(old(db.pages));
        && result == RedirectToPages
        && (saveOk ==> && db.pages == PagesOutside(P, old(db.rank), old(db.pages), id)
                       && db.components == ComponentsOutside(P, old(db.rank), old(db.components), old(db.components), id))
        && (!saveOk ==> db.pages == old(db.pages) && db.components == old(db.components))
      ensures result == NotFound ==> db.pages == old(db.pages) && db.components == old(db.components)
    {
      if id !in db.pages {
        return NotFound;
      }
      var page := db.pages[id];
      if page.isHomepage {
        return RedirectToEdit(id);
      }
      var w, wc := DeletePageTree(db.pages, db.components, ParentMap(db.pages), db.rank, db.height, page,
                                  db.pages, db.components);
      DeletePreserves(db.pages, db.components, db.routes, db.rank, db.height, id);
      var ok := db.SaveChanges(w, wc, db.routes, saveOk, db.rank, db.height);
      return RedirectToPages;
    }

    /** POST `CreateComponent`. An unknown page is NotFound, a form that draws
      * an error is shown again, and otherwise the component is stored with
      * the posted position or, when that is not positive, the next free one
      * on the page; the action returns to the page even when the save fails.
      * `newId` stands for `Guid.NewGuid()`. */
    method CreateComponent(pageId: nat, form: ComponentForm, bindingErrors: seq<string>, newId: nat, saveOk: bool)
      returns (result: ContentResult)
      requires Valid()
      requires newId !in db.components
      modifies db
      ensures Valid()
      ensures db.pages == old(db.pages) && db.routes == old(db.routes)
      ensures result == NotFound <==> pageId !in old(db.pages)
      ensures var errors := bindingErrors + ComponentErrors(form);
        && (pageId in old(db.pages) && errors != [] ==> result == FormWithErrors(errors))
        && (pageId in old(db.pages) && errors == [] ==> result == RedirectToEdit(pageId))
      ensures result.RedirectToEdit? && saveOk ==>
        && newId in db.components && db.components == old(db.components)[newId := db.components[newId]]
        && var c := db.components[newId];
           && c == StoredComponent(newId, pageId, form, c.position)
           && (form.position > 0 ==> c.position == form.position)
           && (form.position <= 0 ==> IsNextComponentPosition(old(db.components), pageId, c.position))
      ensures !(result.RedirectToEdit? && saveOk) ==> db.components == old(db.components)
    {
      var errors := bindingErrors + ComponentErrors(form);
      if pageId !in db.pages {
        return NotFound;
      }
      if errors != [] {
        return FormWithErrors(errors);
      }
      var position := form.position;
      if position <= 0 {
        position := GetNextComponentPosition(db.components, pageId);
      }
      var component := StoredComponent(newId, pageId, form, position);
      StoreComponentKeepsIndexes(db.pages, db.components, db.routes, component);
      var ok := db.SaveChanges(db.pages, db.components[newId := component], db.routes, saveOk, db.rank, db.height);
      return RedirectToEdit(pageId);
    }

    /** POST `EditComponent`: the component must belong to the page; a valid
      * form replaces its type, settings, position and enabled flag. */
    method EditComponent(pageId: nat, id: nat, form: ComponentForm, bindingErrors: seq<string>, saveOk: bool)
      returns (result: ContentResult)
      requires Valid()
      modifies db
      ensures Valid()
      ensures db.pages == old(db.pages) && db.routes == old(db.routes)
      ensures result == NotFound <==> !(id in old(db.components) && old(db.components)[id].pageId == pageId)
      ensures var errors := bindingErrors + ComponentErrors(form);
        && (result != NotFound && errors != [] ==> result == FormWithErrors(errors))
        && (result != NotFound && errors == [] ==> result == RedirectToEdit(pageId))
      ensures result.RedirectToEdit? && saveOk ==>
        db.components == old(db.components)[id := StoredComponent(id, pageId, form, form.position)]
      ensures !(result.RedirectToEdit? && saveOk) ==> db.components == old(db.components)
    {
      if !(id in db.components && db.components[id].pageId == pageId) {
        return NotFound;
      }
      var errors := bindingErrors + ComponentErrors(form);
      if errors != [] {
        return FormWithErrors(errors);
      }
      var component := StoredComponent(id, pageId, form, form.position);
      StoreComponentKeepsIndexes(db.pages, db.components, db.routes, component);
      var ok := db.SaveChanges(db.pages, db.components[id := component], db.routes, saveOk, db.rank, db.height);
      return RedirectToEdit(pageId);
    }

    /** POST `DeleteComponent`: the component must belong to the page; it is
      * removed when the save goes through. */
    method DeleteComponent(pageId: nat, id: nat, saveOk: bool) returns (result: ContentResult)
      requires Valid()
      modifies db
      ensures Valid()
      ensures db.pages == old(db.pages) && db.routes == old(db.routes)
      ensures result == NotFound <==> !(id in old(db.components) && old(db.components)[id].pageId == pageId)
      ensures result != NotFound ==> result == RedirectToEdit(pageId)
      ensures result != NotFound && saveOk ==> db.components == old(db.components) - {id}
      ensures !(result != NotFound && saveOk) ==> db.components == old(db.components)
    {
      if !(id in db.components && db.components[id].pageId == pageId) {
        return NotFound;
      }
      RemoveComponentKeepsIndexes(db.pages, db.components, db.routes, id);
      var ok := db.SaveChanges(db.pages, db.components - {id}, db.routes, saveOk, db.rank, db.height);
      return RedirectToEdit(pageId);
    }
  }

  /** What the commit of `Edit` relies on: the table after the edit is a
    * tree under a new rank, and an edit in place keeps every index. */
  lemma CommitEditFacts(pages: Pages, components: Components, routes: Routes, rank: map<nat, nat>, height: nat,
                        edited: CmsPage)
    returns (after: Pages, rank': map<nat, nat>, height': nat)
    requires ValidTables(pages, components, routes, rank, height)
    requires EditableTo(pages, rank, edited)
    requires PathUnique(pages, edited.path, Some(edited.id))
    requires edited.parentId.Some? ==>
      forall id :: id in pages && id != edited.id && pages[id].parentId == edited.parentId ==> pages[id].slug != edited.slug
    ensures Ranked(ParentMap(pages), rank)
    ensures forall id :: id in pages ==> id in rank && rank[id] < height && pages[id].id == id
    ensures after == TableAfterEdit(pages, rank, edited)
    ensures TreeInvariant(after, rank', height')
    ensures edited.path == pages[edited.id].path ==> IndexesHold(after, components, routes)
  {
    after := TableAfterEdit(pages, rank, edited);
    rank', height' := EditRank(pages, rank, height, edited);
    EditPreservesTree(pages, rank, height, edited, rank', height');
    if edited.path == pages[edited.id].path {
      EditKeepsIndexes(pages, components, routes, edited);
    }
  }

  /** A rank for the parent links after an edit, bounded by a new height: the
    * old one when the parent link stays, otherwise the one `Reparent` builds. */
  lemma EditRank(pages: Pages, rank: map<nat, nat>, height: nat, edited: CmsPage)
    returns (rank': map<nat, nat>, height': nat)
    requires TreeInvariant(pages, rank, height)
    requires EditableTo(pages, rank, edited)
    ensures Ranked(ParentMap(pages)[edited.id := edited.parentId], rank')
    ensures forall id :: id in pages ==> id in rank' && rank'[id] < height'
  {
    if edited.parentId.Some? {
      rank' := EditParentChecks(pages, rank, edited.id, edited.parentId.value);
      height' := height + RankShift(rank, edited.id, edited.parentId.value);
    } else {
      assert pages[edited.id].parentId.None?;
      assert ParentMap(pages)[edited.id := edited.parentId] == ParentMap(pages);
      rank', height' := rank, height;
    }
  }
}
