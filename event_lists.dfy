/**
 * The event-list component as the public site renders it: the manual id
 * list an editor types, the lookup of the live events it names, and the
 * query mode that lists live events near a location, soonest first.
 */
module EventLists {
  import opened Wrappers
  import opened Text
  import opened CmsDomain
  import opened Sorting
  import opened Guids
  import opened EventStore
  import opened ContentComponents

  /** One listed event: the event's identity, timing and place. */
  datatype EventItem = EventItem(
    id: nat,
    title: string,
    slug: string,
    startsAtLocal: int,
    endsAtLocal: int,
    venueName: Option<string>,
    city: Option<string>,
    region: Option<string>,
    country: Option<string>)

  /** The rendered component: the normalised settings and the listed events. */
  datatype EventListView = EventListView(
    source: string,
    category: Option<string>,
    location: Option<string>,
    limit: int,
    events: seq<EventItem>)

  function MapEvent(e: Event): EventItem
  {
    EventItem(e.id, e.title, e.slug, e.startsAtLocal, e.endsAtLocal, e.venueName, e.city, e.region, e.country)
  }

  function MapEvents(s: seq<Event>): (r: seq<EventItem>)
    ensures |r| == |s|
  {
    seq(|s|, i requires 0 <= i < |s| => MapEvent(s[i]))
  }

  /** `s?.Trim()`: null stays null, and blank text is kept as the empty string. */
  function TrimNullable(s: Option<string>): (r: Option<string>)
  {
    if s.Some? then Some(Trim(s.value)) else None
  }

  // ---------------------------------------------------------------------
  // The manual id list
  // ---------------------------------------------------------------------

  /** The ids the tokens name, in token order, repeats included; tokens that
    * are not GUIDs once trimmed name nothing. */
  function ParsedIds(tokens: seq<string>): seq<nat>
  {
    if |tokens| == 0 then []
    else
      var rest := ParsedIds(tokens[..|tokens| - 1]);
      match ParseGuid(Trim(tokens[|tokens| - 1]))
      case Some(id) => rest + [id]
      case None => rest
  }

  /** The ids an event-id setting names: none when it is blank, otherwise the
    * distinct GUIDs among its comma-separated entries. */
  function EventIdsOf(eventIds: Option<string>): seq<nat>
  {
    if IsNullOrBlank(eventIds) then [] else Dedup(ParsedIds(Split(eventIds.value, ',')))
  }

  /** `ParseEventIds`. */
  method ParseEventIds(eventIds: Option<string>) returns (parsed: seq<nat>)
    ensures parsed == EventIdsOf(eventIds)
  {
    if IsNullOrBlank(eventIds) {
      return [];
    }
    var tokens := Split(eventIds.value, ',');
    parsed := [];
    for i := 0 to |tokens|
      invariant parsed == Dedup(ParsedIds(tokens[..i]))
    {
      assert tokens[..i + 1][..i] == tokens[..i];
      var id := ParseGuid(Trim(tokens[i]));
      if id.Some? && id.value !in parsed {
        parsed := parsed + [id.value];
      }
    }
    assert tokens[..|tokens|] == tokens;
  }

  /** An id is parsed exactly when some token names it. */
  lemma {:induction false} ParsedIdsMembers(tokens: seq<string>)
    ensures forall x :: x in ParsedIds(tokens) <==> exists t :: t in tokens && ParseGuid(Trim(t)) == Some(x)
  {
    if |tokens| > 0 {
      var p := tokens[..|tokens| - 1];
      ParsedIdsMembers(p);
      assert tokens == p + [tokens[|tokens| - 1]];
    }
  }

  /** The parsed list is empty for a blank setting; otherwise it holds each
    * id some entry names, once, in the order the entries first name them. */
  lemma EventIdsOfShape(eventIds: Option<string>)
    ensures IsNullOrBlank(eventIds) ==> EventIdsOf(eventIds) == []
    ensures NoDuplicates(EventIdsOf(eventIds))
    ensures forall x :: x in EventIdsOf(eventIds) <==>
      !IsNullOrBlank(eventIds) && exists t :: t in Split(eventIds.value, ',') && ParseGuid(Trim(t)) == Some(x)
    ensures !IsNullOrBlank(eventIds) ==>
      var ids := ParsedIds(Split(eventIds.value, ','));
      forall i, j, q :: 0 <= i < j < |EventIdsOf(eventIds)| && 0 <= q < |ids| && ids[q] == EventIdsOf(eventIds)[j] ==>
        EventIdsOf(eventIds)[i] in ids[..q]
  {
    if !IsNullOrBlank(eventIds) {
      var tokens := Split(eventIds.value, ',');
      ParsedIdsMembers(tokens);
      DedupShape(ParsedIds(tokens));
    }
  }

  // ---------------------------------------------------------------------
  // Manual mode
  // ---------------------------------------------------------------------

  /** The live events among `ids`, keyed by id (`ToDictionary(e => e.Id)`,
    * which the table's key keeps free of duplicates). */
  function LiveLookup(events: seq<Event>, ids: seq<nat>): (lookup: map<nat, Event>)
    requires DistinctIds(events)
    ensures forall id :: id in lookup ==> id in ids && lookup[id] in events && lookup[id].id == id && lookup[id].status == Live
    ensures forall e :: e in events && e.status == Live && e.id in ids ==> e.id in lookup
  {
    assert forall a, b :: a in events && b in events && a.id == b.id ==> a == b by {
      forall a, b | a in events && b in events && a.id == b.id ensures a == b {
        var i :| 0 <= i < |events| && events[i] == a;
        var j :| 0 <= j < |events| && events[j] == b;
        assert !(i < j) && !(j < i);
      }
    }
    map e | e in events && e.status == Live && e.id in ids :: e.id := e
  }

  /** The events the lookup holds for `ids`, in the order of `ids`. */
  function Found(lookup: map<nat, Event>, ids: seq<nat>): (r: seq<Event>)
  {
    if |ids| == 0 then []
    else
      var rest := Found(lookup, ids[..|ids| - 1]);
      var id := ids[|ids| - 1];
      if id in lookup then rest + [lookup[id]] else rest
  }

  lemma {:induction false} FoundAppend(lookup: map<nat, Event>, a: seq<nat>, b: seq<nat>)
    ensures Found(lookup, a + b) == Found(lookup, a) + Found(lookup, b)
  {
    if |b| > 0 {
      var b' := b[..|b| - 1];
      assert (a + b)[..|a + b| - 1] == a + b';
      FoundAppend(lookup, a, b');
    } else {
      assert a + b == a;
    }
  }

  /** The manual loop: each id in turn, skipping those without a live event,
    * until `limit` events are listed. */
  method ManualEvents(lookup: map<nat, Event>, ids: seq<nat>, limit: int) returns (listed: seq<Event>)
    requires limit >= 1
    ensures listed == Take(Found(lookup, ids), limit)
  {
    listed := [];
    var i := 0;
    while i < |ids|
      invariant 0 <= i <= |ids|
      invariant listed == Found(lookup, ids[..i])
      invariant |listed| < limit
    {
      assert ids[..i + 1][..i] == ids[..i];
      if ids[i] in lookup {
        listed := listed + [lookup[ids[i]]];
        if |listed| >= limit {
          FoundAppend(lookup, ids[..i + 1], ids[i + 1..]);
          assert ids[..i + 1] + ids[i + 1..] == ids;
          assert listed == Found(lookup, ids)[..limit];
          return;
        }
      }
      i := i + 1;
    }
    assert ids[..i] == ids;
  }

  /** `Found` lists each held id's event, in the order the ids are typed:
    * whenever a later listed event's id occurs at `q`, every earlier listed
    * event's id occurs before `q`. */
  lemma {:induction false} FoundShape(lookup: map<nat, Event>, ids: seq<nat>)
    requires forall id :: id in lookup ==> lookup[id].id == id
    requires NoDuplicates(ids)
    ensures forall e :: e in Found(lookup, ids) ==> e.id in ids && e.id in lookup && lookup[e.id] == e
    ensures forall id :: id in ids && id in lookup ==> lookup[id] in Found(lookup, ids)
    ensures forall i, j, q :: 0 <= i < j < |Found(lookup, ids)| && 0 <= q < |ids| && ids[q] == Found(lookup, ids)[j].id ==>
      Found(lookup, ids)[i].id in ids[..q]
  {
    if |ids| > 0 {
      var p := ids[..|ids| - 1];
      var x := ids[|ids| - 1];
      FoundShape(lookup, p);
      var f := Found(lookup, p);
      var r := Found(lookup, ids);
      assert ids == p + [x];
      forall i, j, q | 0 <= i < j < |r| && 0 <= q < |ids| && ids[q] == r[j].id
        ensures r[i].id in ids[..q]
      {
        assert r[i] == f[i];
        if q < |p| {
          assert ids[..q] == p[..q];
          assert p[q] == ids[q];
          assert j < |f|;
          assert r[j] == f[j];
        } else {
          assert ids[..q] == p;
          assert f[i].id in p;
        }
      }
    }
  }

  // ---------------------------------------------------------------------
  // Query mode
  // ---------------------------------------------------------------------

  /** `EF.Functions.Like(field, "%location%")` on the city, region, country or
    * venue. */
  predicate MatchesLocation(e: Event, location: string)
  {
    || (e.city.Some? && Contains(e.city.value, location))
    || (e.region.Some? && Contains(e.region.value, location))
    || (e.country.Some? && Contains(e.country.value, location))
    || (e.venueName.Some? && Contains(e.venueName.value, location))
  }

  /** Live, and near the location when one is given. */
  predicate IsCandidate(e: Event, location: Option<string>)
  {
    e.status == Live && (IsNullOrBlank(location) || MatchesLocation(e, location.value))
  }

  /** `OrderBy(e => e.StartsAtLocal).ThenBy(e => e.Title)`. */
  predicate ByStartTitle(a: Event, b: Event)
  {
    a.startsAtLocal < b.startsAtLocal || (a.startsAtLocal == b.startsAtLocal && OrdinalLe(a.title, b.title))
  }

  lemma ByStartTitleIsTotalPreorder()
    ensures IsTotalPreorder(ByStartTitle)
  {
    forall a: Event, b: Event ensures ByStartTitle(a, b) || ByStartTitle(b, a) {
      OrdinalLeTotal(a.title, b.title);
    }
    forall a: Event, b: Event, c: Event | ByStartTitle(a, b) && ByStartTitle(b, c)
      ensures ByStartTitle(a, c)
    {
      if a.startsAtLocal == b.startsAtLocal == c.startsAtLocal {
        OrdinalLeTrans(a.title, b.title, c.title);
      }
    }
  }

  function Candidates(events: seq<Event>, location: Option<string>): seq<Event>
  {
    Filter(events, e => IsCandidate(e, location))
  }

  /** The query: candidates soonest first, the first `limit` of them. */
  function QueryEvents(events: seq<Event>, location: Option<string>, limit: int): seq<Event>
  {
    Take(SortBy(Candidates(events, location), ByStartTitle), limit)
  }

  /** The query lists live events near the location, soonest first, as many
    * as the limit allows; a candidate is left out only when the list is full
    * and every listed event comes no later than it. */
  lemma QueryEventsShape(events: seq<Event>, location: Option<string>, limit: int)
    requires limit >= 1
    ensures var r := QueryEvents(events, location, limit);
      && |r| == (if limit < |Candidates(events, location)| then limit else |Candidates(events, location)|)
      && (forall e :: e in r ==> e in events && IsCandidate(e, location))
      && SortedBy(r, ByStartTitle)
      && (forall c :: c in events && IsCandidate(c, location) && c !in r ==>
            |r| == limit && forall x :: x in r ==> ByStartTitle(x, c))
  {
    var cands := Candidates(events, location);
    FilterMembers(events, e => IsCandidate(e, location));
    assert forall e :: e in cands ==> e in events && IsCandidate(e, location);
    assert forall e :: e in events && IsCandidate(e, location) ==> e in cands;
    ByStartTitleIsTotalPreorder();
    SortByCorrect(cands, ByStartTitle);
    SortedPrefix(SortBy(cands, ByStartTitle), cands, limit);
  }

  /** The first `n` of a sorted permutation of `cands`: sorted, drawn from
    * `cands`, and ahead of every candidate they leave out. */
  lemma SortedPrefix(s: seq<Event>, cands: seq<Event>, n: int)
    requires SortedBy(s, ByStartTitle) && multiset(s) == multiset(cands) && |s| == |cands|
    requires n >= 0
    ensures var r := Take(s, n);
      && |r| == (if n < |cands| then n else |cands|)
      && (forall e :: e in r ==> e in cands)
      && SortedBy(r, ByStartTitle)
      && (forall c :: c in cands && c !in r ==> |r| == n && forall x :: x in r ==> ByStartTitle(x, c))
  {
    var r := Take(s, n);
    forall e | e in r ensures e in cands {
      var i :| 0 <= i < |r| && r[i] == e;
      assert s[i] == e;
      assert e in multiset(s);
      assert e in multiset(cands);
    }
    forall c | c in cands && c !in r
      ensures |r| == n && forall x :: x in r ==> ByStartTitle(x, c)
    {
      assert c in multiset(cands);
      assert c in multiset(s);
      var k :| 0 <= k < |s| && s[k] == c;
      assert |r| <= k;
      forall x | x in r ensures ByStartTitle(x, c) {
        var i :| 0 <= i < |r| && r[i] == x;
        assert s[i] == x;
      }
    }
  }

  // ---------------------------------------------------------------------
  // The component
  // ---------------------------------------------------------------------

  /** The events a component with `settings` lists. */
  function ListedEvents(settings: EventListSettings, events: seq<Event>): seq<Event>
    requires DistinctIds(events)
  {
    var limit := NormalizeEventListLimit(settings.limit);
    if NormalizeEventListSource(settings.source) == "manual" then
      var ids := EventIdsOf(settings.eventIds);
      if |ids| == 0 then [] else Take(Found(LiveLookup(events, ids), ids), limit)
    else
      QueryEvents(events, TrimNullable(settings.location), limit)
  }

  /** The component view for `settings` over the `Events` table. */
  function EventListFor(settings: EventListSettings, events: seq<Event>): EventListView
    requires DistinctIds(events)
  {
    EventListView(
      NormalizeEventListSource(settings.source),
      TrimNullable(settings.category),
      TrimNullable(settings.location),
      NormalizeEventListLimit(settings.limit),
      MapEvents(ListedEvents(settings, events)))
  }

  /** `BuildEventListAsync`. */
  method BuildEventList(settings: EventListSettings, events: seq<Event>) returns (view: EventListView)
    requires DistinctIds(events)
    ensures view == EventListFor(settings, events)
  {
    var source := NormalizeEventListSource(settings.source);
    var limit := NormalizeEventListLimit(settings.limit);
    var location := TrimNullable(settings.location);
    view := EventListView(source, TrimNullable(settings.category), location, limit, []);
    if source == "manual" {
      var ids := ParseEventIds(settings.eventIds);
      if |ids| == 0 {
        return;
      }
      var lookup := LiveLookup(events, ids);
      var listed := ManualEvents(lookup, ids, limit);
      view := view.(events := MapEvents(listed));
      return;
    }
    view := view.(events := MapEvents(QueryEvents(events, location, limit)));
  }

  /** Whatever the settings, the list holds live events of the table, no
    * more than its limit, which lies in [1, 50]. */
  lemma EventListBounds(settings: EventListSettings, events: seq<Event>)
    requires DistinctIds(events)
    ensures var view := EventListFor(settings, events);
      && (view.source == "manual" || view.source == "query")
      && 1 <= view.limit <= 50
      && |view.events| <= view.limit
      && forall i :: 0 <= i < |view.events| ==>
           exists e :: e in events && e.status == Live && view.events[i] == MapEvent(e)
  {
    var limit := NormalizeEventListLimit(settings.limit);
    var listed := ListedEvents(settings, events);
    assert forall e :: e in listed ==> e in events && e.status == Live by {
      if NormalizeEventListSource(settings.source) == "manual" {
        var ids := EventIdsOf(settings.eventIds);
        if |ids| > 0 {
          var lookup := LiveLookup(events, ids);
          EventIdsOfShape(settings.eventIds);
          FoundShape(lookup, ids);
          assert forall e :: e in listed ==> e in Found(lookup, ids);
        }
      } else {
        QueryEventsShape(events, TrimNullable(settings.location), limit);
      }
    }
    var view := EventListFor(settings, events);
    forall i | 0 <= i < |view.events|
      ensures exists e :: e in events && e.status == Live && view.events[i] == MapEvent(e)
    {
      assert listed[i] in listed;
    }
  }

  /** Manual mode: the listed events are live events whose ids the setting
    * names, in the order it names them; an id naming a live event is left
    * out only when the list is already full. */
  lemma ManualListShape(settings: EventListSettings, events: seq<Event>)
    requires DistinctIds(events)
    requires NormalizeEventListSource(settings.source) == "manual"
    ensures var ids := EventIdsOf(settings.eventIds);
      var r := ListedEvents(settings, events);
      && (forall e :: e in r ==> e in events && e.status == Live && e.id in ids)
      && (forall i, j, q :: 0 <= i < j < |r| && 0 <= q < |ids| && ids[q] == r[j].id ==> r[i].id in ids[..q])
      && (forall e :: e in events && e.status == Live && e.id in ids && e !in r ==>
            |r| == NormalizeEventListLimit(settings.limit))
  {
    var ids := EventIdsOf(settings.eventIds);
    if |ids| > 0 {
      var lookup := LiveLookup(events, ids);
      EventIdsOfShape(settings.eventIds);
      FoundShape(lookup, ids);
      var f := Found(lookup, ids);
      var r := ListedEvents(settings, events);
      var limit := NormalizeEventListLimit(settings.limit);
      assert forall e :: e in r ==> e in f;
      forall e | e in events && e.status == Live && e.id in ids && e !in r
        ensures |r| == limit
      {
        assert lookup[e.id] == e;
      }
    }
  }

  /** Query mode: live events near the trimmed location, in ascending start
    * then title order. */
  lemma QueryListShape(settings: EventListSettings, events: seq<Event>)
    requires DistinctIds(events)
    requires NormalizeEventListSource(settings.source) == "query"
    ensures var location := TrimNullable(settings.location);
      var r := ListedEvents(settings, events);
      && (forall e :: e in r ==> e in events && e.status == Live)
      && (!IsNullOrBlank(location) ==> forall e :: e in r ==> MatchesLocation(e, location.value))
      && SortedBy(r, ByStartTitle)
  {
    QueryEventsShape(events, TrimNullable(settings.location), NormalizeEventListLimit(settings.limit));
  }

  /** The category setting is shown but selects nothing. */
  lemma CategoryIgnored(settings: EventListSettings, category: Option<string>, events: seq<Event>)
    requires DistinctIds(events)
    ensures EventListFor(settings.(category := category), events).events == EventListFor(settings, events).events
  {
  }

  /** Default settings (no JSON, or JSON without event-list fields) list the
    * first ten live events, soonest first. */
  lemma DefaultSettingsList(events: seq<Event>)
    requires DistinctIds(events)
    ensures var view := EventListFor(NoEventListSettings, events);
      && view.source == "query" && view.limit == 10
      && view.events == MapEvents(Take(SortBy(Filter(events, e => IsCandidate(e, None)), ByStartTitle), 10))
  {
  }
}
