/**
 * The public rendering of CMS pages: looking a published page up by its
 * normalised path (or the published homepage), and turning its enabled
 * components, in position order, into view models.
 */
module CmsRenderer {
  import opened Wrappers
  import opened CmsUrl
  import opened CmsDomain
  import opened PageTree
  import opened Sorting
  import opened Tables
  import opened CmsDatabase
  import opened EventStore
  import opened EventLists
  import opened ContentComponents

  /** One rendered component; only the member of its own type is set. */
  datatype ComponentView = ComponentView(
    componentType: string,
    image: Option<ImageSettings>,
    banner: Option<BannerSettings>,
    eventList: Option<EventListView>)

  datatype PageView = PageView(title: string, path: string, isHomepage: bool, components: seq<ComponentView>)

  /** What a lookup gives the controller: no page, the page, or the
    * `JsonException` a malformed settings document raises. */
  datatype Rendering = NoPage | Rendered(view: PageView) | Failed

  /** `MapComponentAsync`; `None` when the deserialiser throws. */
  function ComponentViewOf(c: CmsPageComponent, events: seq<Event>): (r: Option<ComponentView>)
    requires DistinctIds(events)
    ensures r.None? <==> IsSupportedComponentType(c.componentType) && c.settingsJson == MalformedJson
    ensures r.Some? ==>
      && r.value.componentType == c.componentType
      && (r.value.image.Some? ==> c.componentType == ImageType && c.settingsJson.Json?)
      && (r.value.banner.Some? ==> c.componentType == BannerType && c.settingsJson.Json?)
      && (r.value.eventList.Some? <==> c.componentType == EventListType)
  {
    var bare := ComponentView(c.componentType, None, None, None);
    if c.componentType == ImageType then
      match DeserializeImage(c.settingsJson)
      case Throws => None
      case Null => Some(bare)
      case Value(s) => Some(bare.(image := Some(s)))
    else if c.componentType == BannerType then
      match DeserializeBanner(c.settingsJson)
      case Throws => None
      case Null => Some(bare)
      case Value(s) => Some(bare.(banner := Some(s)))
    else if c.componentType == EventListType then
      match DeserializeEventList(c.settingsJson)
      case Throws => None
      case Null => Some(bare.(eventList := Some(EventListFor(NoEventListSettings, events))))
      case Value(s) => Some(bare.(eventList := Some(EventListFor(s, events))))
    else Some(bare)
  }

  /** An event list whose settings are blank lists as if configured with
    * nothing: query mode, ten events. */
  lemma BlankEventListSettings(c: CmsPageComponent, events: seq<Event>)
    requires DistinctIds(events)
    requires c.componentType == EventListType && c.settingsJson == BlankJson
    ensures var r := ComponentViewOf(c, events);
      && r.Some? && r.value.eventList.Some?
      && r.value.eventList.value.source == "query" && r.value.eventList.value.limit == 10
  {
  }

  predicate IsEnabled(c: CmsPageComponent)
  {
    c.isEnabled
  }

  /** `OrderBy(c => c.Position)`. */
  predicate ByComponentPosition(a: CmsPageComponent, b: CmsPageComponent)
  {
    a.position <= b.position
  }

  lemma ByComponentPositionIsTotalPreorder()
    ensures IsTotalPreorder(ByComponentPosition)
  {
  }

  /** The page's enabled components in ascending position, ties in the order
    * the rows were loaded. */
  function EnabledInOrder(rows: seq<CmsPageComponent>): seq<CmsPageComponent>
  {
    SortBy(Filter(rows, IsEnabled), ByComponentPosition)
  }

  /** The views of `comps` in order, or `None` once one of them throws. */
  function ViewsOf(comps: seq<CmsPageComponent>, events: seq<Event>): (r: Option<seq<ComponentView>>)
    requires DistinctIds(events)
    ensures r.Some? ==> |r.value| == |comps|
  {
    if |comps| == 0 then Some([])
    else
      match ViewsOf(comps[..|comps| - 1], events)
      case None => None
      case Some(views) =>
        match ComponentViewOf(comps[|comps| - 1], events)
        case None => None
        case Some(v) => Some(views + [v])
  }

  /** `MapToViewModelAsync` on a page whose components were loaded as `rows`. */
  function PageViewOf(page: CmsPage, rows: seq<CmsPageComponent>, events: seq<Event>): Option<PageView>
    requires DistinctIds(events)
  {
    match ViewsOf(EnabledInOrder(rows), events)
    case None => None
    case Some(views) => Some(PageView(page.title, page.path, page.isHomepage, views))
  }

  function RenderingOf(view: Option<PageView>): Rendering
  {
    if view.Some? then Rendered(view.value) else Failed
  }

  lemma {:induction false} ViewsOfPrefix(comps: seq<CmsPageComponent>, k: nat, events: seq<Event>)
    requires DistinctIds(events)
    requires k <= |comps| && ViewsOf(comps[..k], events).None?
    ensures ViewsOf(comps, events).None?
  {
    if k < |comps| {
      assert comps[..|comps| - 1][..k] == comps[..k];
      ViewsOfPrefix(comps[..|comps| - 1], k, events);
    } else {
      assert comps[..k] == comps;
    }
  }

  /** The views line up with the components one by one when none throws,
    * and rendering fails exactly when one of them does. */
  lemma {:induction false} ViewsOfShape(comps: seq<CmsPageComponent>, events: seq<Event>)
    requires DistinctIds(events)
    ensures ViewsOf(comps, events).None? <==> exists c :: c in comps && ComponentViewOf(c, events).None?
    ensures ViewsOf(comps, events).Some? ==>
      forall i :: 0 <= i < |comps| ==> ComponentViewOf(comps[i], events) == Some(ViewsOf(comps, events).value[i])
  {
    if |comps| > 0 {
      var p := comps[..|comps| - 1];
      ViewsOfShape(p, events);
      assert comps == p + [comps[|comps| - 1]];
    }
  }

  /** The components a page renders are its enabled ones, each once, in
    * ascending position. */
  lemma EnabledInOrderShape(rows: seq<CmsPageComponent>)
    ensures var comps := EnabledInOrder(rows);
      && SortedBy(comps, ByComponentPosition)
      && multiset(comps) == multiset(Filter(rows, IsEnabled))
      && (forall c :: c in comps <==> c in rows && c.isEnabled)
  {
    var enabled := Filter(rows, IsEnabled);
    FilterMembers(rows, IsEnabled);
    ByComponentPositionIsTotalPreorder();
    SortByCorrect(enabled, ByComponentPosition);
    var comps := EnabledInOrder(rows);
    assert forall c :: c in comps <==> c in multiset(enabled);
  }

  /** A rendered page shows one view per enabled component, in the order
    * `EnabledInOrder` gives them; it fails to render exactly when one of
    * them holds a malformed settings document of a supported type. */
  lemma PageViewShape(page: CmsPage, rows: seq<CmsPageComponent>, events: seq<Event>)
    requires DistinctIds(events)
    ensures PageViewOf(page, rows, events).None? <==>
      exists c :: c in rows && c.isEnabled && IsSupportedComponentType(c.componentType) && c.settingsJson == MalformedJson
    ensures PageViewOf(page, rows, events).Some? ==>
      var v := PageViewOf(page, rows, events).value;
      var comps := EnabledInOrder(rows);
      && v.title == page.title && v.path == page.path && v.isHomepage == page.isHomepage
      && |v.components| == |comps|
      && forall i :: 0 <= i < |comps| ==> ComponentViewOf(comps[i], events) == Some(v.components[i])
  {
    EnabledInOrderShape(rows);
    ViewsOfShape(EnabledInOrder(rows), events);
  }

  /** The components of page `pageId` as `Include(p => p.Components)` loads
    * them: every row of the table that belongs to the page. */
  ghost predicate ComponentsOfPage(rows: seq<CmsPageComponent>, components: Components, pageId: nat)
  {
    forall c :: c in rows <==> c.pageId == pageId && exists k :: k in components && components[k] == c
  }

  /** The first row satisfying `IsPublished` and `Path == path`
    * (`FirstOrDefaultAsync`). */
  function FirstPublishedAt(rows: seq<CmsPage>, path: string): (r: Option<CmsPage>)
    ensures r.None? <==> forall p :: p in rows ==> !(p.isPublished && p.path == path)
    ensures r.Some? ==> r.value in rows && r.value.isPublished && r.value.path == path
  {
    if |rows| == 0 then None
    else if rows[0].isPublished && rows[0].path == path then Some(rows[0])
    else FirstPublishedAt(rows[1..], path)
  }

  /** The first row satisfying `IsHomepage && IsPublished`. */
  function FirstPublishedHomepage(rows: seq<CmsPage>): (r: Option<CmsPage>)
    ensures r.None? <==> forall p :: p in rows ==> !(p.isPublished && p.isHomepage)
    ensures r.Some? ==> r.value in rows && r.value.isPublished && r.value.isHomepage
  {
    if |rows| == 0 then None
    else if rows[0].isPublished && rows[0].isHomepage then Some(rows[0])
    else FirstPublishedHomepage(rows[1..])
  }

  class CmsPageRenderer {
    const db: CmsDb
    const eventsDb: EventsDb

    constructor (db: CmsDb, eventsDb: EventsDb)
      ensures this.db == db && this.eventsDb == eventsDb
    {
      this.db := db;
      this.eventsDb := eventsDb;
    }

    /** The page's component rows in the order the database returns them. */
    method LoadComponents(pageId: nat) returns (rows: seq<CmsPageComponent>)
      ensures ComponentsOfPage(rows, db.components, pageId)
    {
      var all, keys := ToList(db.components);
      rows := Filter(all, (c: CmsPageComponent) => c.pageId == pageId);
      FilterMembers(all, (c: CmsPageComponent) => c.pageId == pageId);
      forall c ensures c in rows <==> c.pageId == pageId && exists k :: k in db.components && db.components[k] == c {
        ToListMembers(db.components, all, keys, c);
      }
    }

    /** `MapComponentAsync`. */
    method MapComponent(c: CmsPageComponent) returns (r: Option<ComponentView>)
      requires eventsDb.Valid()
      ensures r == ComponentViewOf(c, eventsDb.events)
    {
      var bare := ComponentView(c.componentType, None, None, None);
      if c.componentType == ImageType {
        var d := DeserializeImage(c.settingsJson);
        r := if d.Throws? then None else Some(bare.(image := if d.Value? then Some(d.value) else None));
      } else if c.componentType == BannerType {
        var d := DeserializeBanner(c.settingsJson);
        r := if d.Throws? then None else Some(bare.(banner := if d.Value? then Some(d.value) else None));
      } else if c.componentType == EventListType {
        var d := DeserializeEventList(c.settingsJson);
        if d.Throws? {
          r := None;
        } else {
          var settings := if d.Value? then d.value else NoEventListSettings;
          var list := BuildEventList(settings, eventsDb.events);
          r := Some(bare.(eventList := Some(list)));
        }
      } else {
        r := Some(bare);
      }
    }

    /** `MapToViewModelAsync`: the enabled components in position order, each
      * mapped in turn; the first that throws ends the rendering. */
    method MapToViewModel(page: CmsPage, rows: seq<CmsPageComponent>) returns (r: Option<PageView>)
      requires eventsDb.Valid()
      ensures r == PageViewOf(page, rows, eventsDb.events)
    {
      var comps := EnabledInOrder(rows);
      var views: seq<ComponentView> := [];
      for i := 0 to |comps|
        invariant ViewsOf(comps[..i], eventsDb.events) == Some(views)
      {
        assert comps[..i + 1][..i] == comps[..i];
        var v := MapComponent(comps[i]);
        if v.None? {
          ViewsOfPrefix(comps, i + 1, eventsDb.events);
          return None;
        }
        views := views + [v.value];
      }
      assert comps[..|comps|] == comps;
      r := Some(PageView(page.title, page.path, page.isHomepage, views));
    }

    /** `GetPageByPathAsync`: a published page whose stored path is the
      * normalised request path, rendered with its components; no page when
      * there is none. */
    method GetPageByPath(path: string) returns (r: Rendering, page: CmsPage, rows: seq<CmsPageComponent>)
      requires eventsDb.Valid()
      ensures r.NoPage? <==>
        !exists k :: k in db.pages && db.pages[k].isPublished && db.pages[k].path == NormalizePath(path)
      ensures !r.NoPage? ==>
        && (exists k :: k in db.pages && db.pages[k] == page)
        && page.isPublished && page.path == NormalizePath(path)
        && ComponentsOfPage(rows, db.components, page.id)
        && r == RenderingOf(PageViewOf(page, rows, eventsDb.events))
    {
      var normalized := NormalizePath(path);
      var table, keys := ToList(db.pages);
      var found := FirstPublishedAt(table, normalized);
      forall p ensures p in table <==> exists k :: k in db.pages && db.pages[k] == p {
        ToListMembers(db.pages, table, keys, p);
      }
      page, rows := CmsPage(0, "", "", "", None, 0, false, false, None), [];
      if found.None? {
        return NoPage, page, rows;
      }
      page := found.value;
      rows := LoadComponents(page.id);
      var view := MapToViewModel(page, rows);
      r := RenderingOf(view);
    }

    /** `GetHomepageAsync`: the published homepage, rendered; no page when
      * the homepage is not published. */
    method GetHomepage() returns (r: Rendering, page: CmsPage, rows: seq<CmsPageComponent>)
      requires eventsDb.Valid()
      ensures r.NoPage? <==> !exists k :: k in db.pages && db.pages[k].isPublished && db.pages[k].isHomepage
      ensures !r.NoPage? ==>
        && (exists k :: k in db.pages && db.pages[k] == page)
        && page.isPublished && page.isHomepage
        && ComponentsOfPage(rows, db.components, page.id)
        && r == RenderingOf(PageViewOf(page, rows, eventsDb.events))
    {
      var table, keys := ToList(db.pages);
      var found := FirstPublishedHomepage(table);
      forall p ensures p in table <==> exists k :: k in db.pages && db.pages[k] == p {
        ToListMembers(db.pages, table, keys, p);
      }
      page, rows := CmsPage(0, "", "", "", None, 0, false, false, None), [];
      if found.None? {
        return NoPage, page, rows;
      }
      page := found.value;
      rows := LoadComponents(page.id);
      var view := MapToViewModel(page, rows);
      r := RenderingOf(view);
    }
  }
}
