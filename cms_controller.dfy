/**
 * `CmsController.Page`, the catch-all route: reserved top-level segments and
 * paths without a published page are not found; anything else renders the
 * page the renderer finds.
 */
module CmsPages {
  import opened Wrappers
  import opened Text
  import opened CmsUrl
  import opened CmsDomain
  import opened CmsDatabase
  import opened EventStore
  import opened ReservedRoutes
  import opened CmsRenderer

  /** The action's result: 404, the `Page` view, or the server error a
    * settings document the deserialiser rejects ends in. */
  datatype PageResult = NotFound | ViewPage(view: PageView) | ServerError

  /** The path the action looks up: the route value, `/` when absent,
    * normalised. */
  function RequestedPath(path: Option<string>): string
  {
    NormalizePath(if path.Some? then path.value else "/")
  }

  /** The top-level segment of `normalized` is reserved in the current set
    * of reserved segments. */
  predicate IsReservedPath(normalized: string, segments: set<string>)
  {
    var segment := GetTopLevelSegment(normalized);
    !IsNullOrBlank(segment) && ContainsIgnoreCase(segments, NormalizedSegment(segment.value))
  }

  /** The site root is never reserved. */
  lemma RootIsNotReserved(segments: set<string>)
    ensures RequestedPath(None) == "/"
    ensures !IsReservedPath("/", segments)
  {
  }

  class CmsController {
    const renderer: CmsPageRenderer
    const reservedRoutes: ReservedRouteService

    constructor (renderer: CmsPageRenderer, reservedRoutes: ReservedRouteService)
      ensures this.renderer == renderer && this.reservedRoutes == reservedRoutes
    {
      this.renderer := renderer;
      this.reservedRoutes := reservedRoutes;
    }

    /** `Page(path)`. */
    method Page(path: Option<string>) returns (r: PageResult)
      requires renderer.eventsDb.Valid()
      modifies reservedRoutes
      ensures var normalized := RequestedPath(path);
        var segments := CurrentSegments(old(reservedRoutes.cache), reservedRoutes.db.routes);
        && (IsReservedPath(normalized, segments) ==> r == NotFound)
        && (!IsReservedPath(normalized, segments) ==>
              (r == NotFound <==>
                 !exists k :: k in renderer.db.pages && renderer.db.pages[k].isPublished && renderer.db.pages[k].path == normalized))
        && (r.ViewPage? ==>
              exists k, rows :: k in renderer.db.pages && renderer.db.pages[k].isPublished && renderer.db.pages[k].path == normalized
                && ComponentsOfPage(rows, renderer.db.components, renderer.db.pages[k].id)
                && PageViewOf(renderer.db.pages[k], rows, renderer.eventsDb.events) == Some(r.view))
    {
      var normalized := NormalizePath(if path.Some? then path.value else "/");
      NormalizePathCanonical(if path.Some? then path.value else "/");
      var segment := GetTopLevelSegment(normalized);
      var reserved := reservedRoutes.IsReservedSegment(segment);
      if reserved {
        return NotFound;
      }
      var rendered, page, rows := renderer.GetPageByPath(normalized);
      if rendered.NoPage? {
        return NotFound;
      }
      if rendered.Failed? {
        return ServerError;
      }
      r := ViewPage(rendered.view);
      var k :| k in renderer.db.pages && renderer.db.pages[k] == page;
      assert ComponentsOfPage(rows, renderer.db.components, renderer.db.pages[k].id);
    }
  }
}
