/**
 * `AdminReservedRoutesController`: listing, creating, editing and deleting
 * reserved top-level segments, with the reserved-segment cache invalidated
 * after every successful write.
 */
module AdminReservedRoutes {
  import opened Wrappers
  import opened Text
  import opened CmsUrl
  import opened CmsDomain
  import opened Sorting
  import opened Tables
  import opened CmsDatabase
  import opened ReservedRoutes

  /** The posted `CmsReservedRouteEditViewModel`. */
  datatype RouteForm = RouteForm(segment: string, isActive: bool)

  datatype RouteResult =
    | NotFound
    | FormWithErrors(errors: seq<string>)
    | RedirectToIndex

  const SegmentRequired := "Segment is required."
  const SegmentExists := "That segment already exists."
  const SaveFailedMessage := "Unable to save changes."

  /** `OrderBy(r => r.Segment)`, compared ordinally. */
  predicate BySegment(a: ReservedRoute, b: ReservedRoute)
  {
    OrdinalLe(a.segment, b.segment)
  }

  lemma BySegmentIsTotalPreorder()
    ensures IsTotalPreorder(BySegment)
  {
    forall a: ReservedRoute, b: ReservedRoute ensures BySegment(a, b) || BySegment(b, a) {
      OrdinalLeTotal(a.segment, b.segment);
    }
    forall a: ReservedRoute, b: ReservedRoute, c: ReservedRoute | BySegment(a, b) && BySegment(b, c)
      ensures BySegment(a, c)
    {
      OrdinalLeTrans(a.segment, b.segment, c.segment);
    }
  }

  /** The errors the posted segment draws, after those of model binding;
    * `excludeId` is the route being edited. */
  function SegmentErrors(routes: Routes, segment: string, excludeId: Option<nat>, bindingErrors: seq<string>): (r: seq<string>)
    ensures r == [] <==> (bindingErrors == [] && !IsBlank(segment) &&
                          !exists k :: k in routes && routes[k].segment == segment && Some(k) != excludeId)
  {
    bindingErrors
    + (if IsBlank(segment) then [SegmentRequired] else [])
    + (if exists k :: k in routes && routes[k].segment == segment && Some(k) != excludeId then [SegmentExists] else [])
  }

  class AdminReservedRoutesController {
    const db: CmsDb
    const reserved: ReservedRouteService

    constructor (db: CmsDb, reserved: ReservedRouteService)
      ensures this.db == db && this.reserved == reserved
    {
      this.db := db;
      this.reserved := reserved;
    }

    /** GET `Index`: every route, ordered by segment. */
    method Index() returns (list: seq<ReservedRoute>)
      ensures SortedBy(list, BySegment)
      ensures |list| == |db.routes|
      ensures forall r :: r in list <==> exists k :: k in db.routes && db.routes[k] == r
    {
      var rows, keys := ToList(db.routes);
      list := SortBy(rows, BySegment);
      BySegmentIsTotalPreorder();
      SortByCorrect(rows, BySegment);
      forall r ensures r in list <==> exists k :: k in db.routes && db.routes[k] == r {
        assert r in list <==> r in multiset(list);
        ToListMembers(db.routes, rows, keys, r);
      }
    }

    /** POST `Create`: stores the normalised segment as a new route when it is
      * non-blank and not already in the table; the cache is invalidated only
      * when the save succeeds. */
    method Create(model: RouteForm, bindingErrors: seq<string>, newId: nat, saveOk: bool)
      returns (result: RouteResult)
      requires db.Valid()
      modifies db, reserved
      ensures db.Valid()
      ensures db.pages == old(db.pages) && db.components == old(db.components)
      ensures var segment := NormalizedSegment(model.segment);
        && (result == RedirectToIndex <==>
              SegmentErrors(old(db.routes), segment, None, bindingErrors) == [] && saveOk && newId !in old(db.routes))
        && (result == RedirectToIndex ==>
              db.routes == old(db.routes)[newId := ReservedRoute(newId, segment, model.isActive)] && reserved.cache == None)
        && (result != RedirectToIndex ==> db.routes == old(db.routes) && reserved.cache == old(reserved.cache))
        && result != NotFound
    {
      var segment := NormalizeSegment(model.segment);
      var errors := SegmentErrors(db.routes, segment, None, bindingErrors);
      if errors != [] {
        return FormWithErrors(errors);
      }
      var newRoutes := db.routes[newId := ReservedRoute(newId, segment, model.isActive)];
      ghost var routes0 := db.routes;
      var ok := db.SaveChanges(db.pages, db.components, newRoutes, saveOk && newId !in db.routes, db.rank, db.height);
      assert saveOk && newId !in routes0 ==> RouteIndexesHold(newRoutes);
      if !ok {
        return FormWithErrors([SaveFailedMessage]);
      }
      reserved.InvalidateCache();
      return RedirectToIndex;
    }

    /** POST `Edit`: an unknown id is NotFound; otherwise the route takes the
      * normalised segment and the active flag when the segment is non-blank
      * and no other route has it, and nothing else about it changes. */
    method Edit(id: nat, model: RouteForm, bindingErrors: seq<string>, saveOk: bool)
      returns (result: RouteResult)
      requires db.Valid()
      modifies db, reserved
      ensures db.Valid()
      ensures db.pages == old(db.pages) && db.components == old(db.components)
      ensures result == NotFound <==> id !in old(db.routes)
      ensures var segment := NormalizedSegment(model.segment);
        && (result == RedirectToIndex <==>
              id in old(db.routes) && SegmentErrors(old(db.routes), segment, Some(id), bindingErrors) == [] && saveOk)
        && (result == RedirectToIndex ==>
              db.routes == old(db.routes)[id := old(db.routes)[id].(segment := segment, isActive := model.isActive)]
              && reserved.cache == None)
        && (result != RedirectToIndex ==> db.routes == old(db.routes) && reserved.cache == old(reserved.cache))
    {
      if id !in db.routes {
        return NotFound;
      }
      var segment := NormalizeSegment(model.segment);
      var errors := SegmentErrors(db.routes, segment, Some(id), bindingErrors);
      if errors != [] {
        return FormWithErrors(errors);
      }
      var route := db.routes[id].(segment := segment, isActive := model.isActive);
      var ok := db.SaveChanges(db.pages, db.components, db.routes[id := route], saveOk, db.rank, db.height);
      if !ok {
        return FormWithErrors([SaveFailedMessage]);
      }
      reserved.InvalidateCache();
      return RedirectToIndex;
    }

    /** POST `Delete`: an unknown id is NotFound; otherwise the route is
      * removed and, when the save succeeds, the cache invalidated. A failed
      * save still redirects to the index. */
    method Delete(id: nat, saveOk: bool) returns (result: RouteResult)
      requires db.Valid()
      modifies db, reserved
      ensures db.Valid()
      ensures db.pages == old(db.pages) && db.components == old(db.components)
      ensures result == NotFound <==> id !in old(db.routes)
      ensures result != NotFound ==> result == RedirectToIndex
      ensures id in old(db.routes) && saveOk ==> db.routes == old(db.routes) - {id} && reserved.cache == None
      ensures !(id in old(db.routes) && saveOk) ==> db.routes == old(db.routes) && reserved.cache == old(reserved.cache)
    {
      if id !in db.routes {
        return NotFound;
      }
      var ok := db.SaveChanges(db.pages, db.components, db.routes - {id}, saveOk, db.rank, db.height);
      if ok {
        reserved.InvalidateCache();
      }
      return RedirectToIndex;
    }
  }
}
