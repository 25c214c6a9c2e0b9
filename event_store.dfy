/**
 * The `Events` table: its rows in the order the database returns them, each
 * keyed by its `Id`.
 */
module EventStore {
  import opened CmsDomain

  /** The primary key of `Events`. */
  predicate DistinctIds(events: seq<Event>)
  {
    forall i, j :: 0 <= i < j < |events| ==> events[i].id != events[j].id
  }

  class EventsDb {
    var events: seq<Event>

    ghost predicate Valid()
      reads this
    {
      DistinctIds(events)
    }

    constructor ()
      ensures events == [] && Valid()
    {
      events := [];
    }

    /** `Events.Add(e)` followed by `SaveChangesAsync`: the row is stored when
      * the save goes through (`saveOk`) and its key is new; otherwise
      * `DbUpdateException` leaves the table as it was. */
    method Insert(e: Event, saveOk: bool) returns (ok: bool)
      requires Valid()
      modifies this
      ensures ok <==> saveOk && forall x :: x in old(events) ==> x.id != e.id
      ensures ok ==> events == old(events) + [e]
      ensures !ok ==> events == old(events)
      ensures Valid()
    {
      if saveOk && forall x :: x in events ==> x.id != e.id {
        events := events + [e];
        ok := true;
      } else {
        ok := false;
      }
    }
  }
}
