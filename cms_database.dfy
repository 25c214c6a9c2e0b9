/**
 * The three CMS tables as the database holds them, with the keys and unique
 * indexes the migration declares, the shape the content controllers keep the
 * page tree in, and `SaveChanges` as an all-or-nothing commit of a working
 * copy that the database refuses when an index would be violated.
 */
module CmsDatabase {
  import opened Wrappers
  import opened Text
  import opened CmsUrl
  import opened CmsDomain
  import opened Forest
  import opened PageTree

  type Routes = map<nat, ReservedRoute>

  /** The primary key, the self-referencing parent key, the unique `Path`, the
    * unique `(ParentId, Slug)` filtered to non-null parents and the unique
    * `IsHomepage` filtered to `1` of `CmsPages`. */
  predicate PageIndexesHold(pages: Pages)
  {
    && (forall id :: id in pages ==> pages[id].id == id)
    && (forall id :: id in pages && pages[id].parentId.Some? ==> pages[id].parentId.value in pages)
    && (forall a, b :: a in pages && b in pages && a != b ==> pages[a].path != pages[b].path)
    && (forall a, b ::
          (a in pages && b in pages && a != b && pages[a].parentId.Some? && pages[a].parentId == pages[b].parentId)
          ==> pages[a].slug != pages[b].slug)
    && (forall a, b :: a in pages && b in pages && pages[a].isHomepage && pages[b].isHomepage ==> a == b)
  }

  /** The primary key of `CmsPageComponents` and its key to the owning page. */
  predicate ComponentIndexesHold(pages: Pages, components: Components)
  {
    forall k :: k in components ==> components[k].id == k && components[k].pageId in pages
  }

  /** The primary key and the unique `Segment` of `CmsReservedRoutes`. */
  predicate RouteIndexesHold(routes: Routes)
  {
    && (forall k :: k in routes ==> routes[k].id == k)
    && (forall a, b :: a in routes && b in routes && a != b ==> routes[a].segment != routes[b].segment)
  }

  predicate IndexesHold(pages: Pages, components: Components, routes: Routes)
  {
    PageIndexesHold(pages) && ComponentIndexesHold(pages, components) && RouteIndexesHold(routes)
  }

  /** The shape of one page the content controllers maintain: only the
    * homepage has no parent, it lives at `/` without a custom URL, every slug
    * is a non-empty normalised segment and every path is canonical. */
  predicate WellFormedPage(p: CmsPage)
  {
    && (p.isHomepage <==> p.parentId.None?)
    && (p.isHomepage ==> p.path == "/" && p.customUrl.None?)
    && p.slug != "" && IsSlug(p.slug)
    && IsCanonicalPath(p.path)
  }

  /** Every page is well formed, the parent links are acyclic (witnessed by
    * `rank`, bounded by `height`), and every page other than the homepage has
    * the path its parent's path and its own slug or custom URL give it. */
  ghost predicate TreeInvariant(pages: Pages, rank: map<nat, nat>, height: nat)
  {
    var tree :=
      && Ranked(ParentMap(pages), rank)
      && RankBounded(pages, rank, height)
      && AllWellFormed(pages)
      && PathsFollowParents(pages);
    tree
  }

  ghost predicate RankBounded(pages: Pages, rank: map<nat, nat>, height: nat)
  {
    forall id :: id in pages ==> id in rank && rank[id] < height
  }

  predicate AllWellFormed(pages: Pages)
  {
    forall id :: id in pages ==> WellFormedPage(pages[id])
  }

  /** Each page with a parent sits at `ChildPath` of its parent's path. */
  predicate PathsFollowParents(pages: Pages)
  {
    forall id :: id in pages && pages[id].parentId.Some? ==>
      pages[id].parentId.value in pages &&
      pages[id].path == ChildPath(pages[pages[id].parentId.value].path, pages[id])
  }

  /** The indexes hold and the pages form a tree. The conjunction is bound
    * to a name so that a caller proves and assumes it as one fact rather
    * than clause by clause. */
  ghost predicate ValidTables(pages: Pages, components: Components, routes: Routes, rank: map<nat, nat>, height: nat)
  {
    var valid := IndexesHold(pages, components, routes) && TreeInvariant(pages, rank, height);
    valid
  }

  const HomepageId: nat := 0x7ae3c9b2_43e9_4d72_88f0_9efb6a0a1f10
  const EventsRouteId: nat := 0x2c4f37b4_3b91_4e21_82a1_5b6d5f60d7c5
  const AccountRouteId: nat := 0x9bb81f34_5b12_4bc0_a2a5_66e9b5d2c1ff

  const SeedHomepage := CmsPage(HomepageId, "Home", "home", "/", None, 0, true, true, None)
  const SeedRoutes: Routes := map[
    EventsRouteId := ReservedRoute(EventsRouteId, "events", true),
    AccountRouteId := ReservedRoute(AccountRouteId, "account", true)]

  lemma SeedIsValid()
    ensures IndexesHold(map[HomepageId := SeedHomepage], map[], SeedRoutes)
    ensures TreeInvariant(map[HomepageId := SeedHomepage], map[HomepageId := 0], 1)
  {
    SeedPageIsWellFormed();
    assert SeedRoutes[EventsRouteId].segment != SeedRoutes[AccountRouteId].segment;
  }

  lemma SeedPageIsWellFormed()
    ensures WellFormedPage(SeedHomepage)
  {
    SplitSepFront("", '/');
    assert Split("/", '/') == [];
    assert IsSlug("home");
  }

  /** The `CmsPages`, `CmsPageComponents` and `CmsReservedRoutes` tables. */
  class CmsDb {
    var pages: Pages
    var components: Components
    var routes: Routes
    ghost var rank: map<nat, nat>
    ghost var height: nat

    ghost predicate Valid()
      reads this
    {
      ValidTables(pages, components, routes, rank, height)
    }

    /** The tables as the migration seeds them: the homepage at `/` and the
      * active reserved segments `events` and `account`. */
    constructor Seeded()
      ensures Valid()
      ensures pages == map[HomepageId := SeedHomepage] && components == map[] && routes == SeedRoutes
    {
      pages := map[HomepageId := SeedHomepage];
      components := map[];
      routes := SeedRoutes;
      rank := map[HomepageId := 0];
      height := 1;
      new;
      SeedIsValid();
    }

    /** `SaveChangesAsync` on a working copy of the three tables: the database
      * applies it when the save goes through (`saveOk`, standing for the
      * connection and everything outside the model) and no key or unique
      * index is violated; otherwise `DbUpdateException` leaves the tables as
      * they were. The application keeps `TreeInvariant` on what it saves. */
    method SaveChanges(newPages: Pages, newComponents: Components, newRoutes: Routes, saveOk: bool,
                       ghost newRank: map<nat, nat>, ghost newHeight: nat)
      returns (ok: bool)
      requires Valid()
      requires TreeInvariant(newPages, newRank, newHeight)
      modifies this
      ensures ok <==> saveOk && IndexesHold(newPages, newComponents, newRoutes)
      ensures ok ==> pages == newPages && components == newComponents && routes == newRoutes
      ensures !ok ==> pages == old(pages) && components == old(components) && routes == old(routes)
      ensures Valid()
    {
      if saveOk && IndexesHold(newPages, newComponents, newRoutes) {
        pages, components, routes, rank, height := newPages, newComponents, newRoutes, newRank, newHeight;
        ok := true;
      } else {
        ok := false;
      }
    }
  }
}
