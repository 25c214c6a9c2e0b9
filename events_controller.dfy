/**
 * `EventsController`, the event manager's pages: the list of events, the
 * create form with its defaults, and the POST that validates the form and
 * inserts a draft event under a slug no other event uses.
 *
 * Times are whole minutes on a local clock.
 */
module EventAdmin {
  import opened Wrappers
  import opened Text
  import opened CmsUrl
  import opened CmsDomain
  import opened Sorting
  import opened Slugs
  import opened EventStore
  import opened Locations

  /** The signed-in `ApplicationUser` (the fields the controller reads). */
  datatype User = User(
    id: string,
    firstName: Option<string>,
    lastName: Option<string>,
    email: Option<string>,
    timeZoneId: Option<string>,
    preferredCurrency: Option<string>,
    country: Option<string>,
    city: Option<string>)

  /** The posted `EventEditViewModel`; title, time zone and currency are
    * never null. */
  datatype EventForm = EventForm(
    title: string,
    description: Option<string>,
    slug: Option<string>,
    startsAtLocal: Option<int>,
    endsAtLocal: Option<int>,
    timeZoneId: string,
    currencyCode: string,
    organizerName: Option<string>,
    venueName: Option<string>,
    addressLine1: Option<string>,
    addressLine2: Option<string>,
    city: Option<string>,
    region: Option<string>,
    country: Option<string>,
    postalCode: Option<string>)

  /** The form GET `Create` shows. */
  datatype CreateDefaults = CreateDefaults(
    startsAtLocal: int,
    endsAtLocal: int,
    timeZoneId: string,
    currencyCode: string,
    organizerName: Option<string>,
    country: Option<string>,
    city: Option<string>)

  /** A row of the index (`EventListItemViewModel`). */
  datatype EventListItem = EventListItem(
    id: nat,
    title: string,
    slug: string,
    status: string,
    startsAtLocal: int,
    endsAtLocal: int,
    timeZoneId: string,
    createdAt: int)

  datatype EventIndex = EventIndex(isAdmin: bool, events: seq<EventListItem>)

  datatype CreateResult =
    | Unauthorized
    | FormWithErrors(errors: seq<string>, form: EventForm)
    | RedirectToIndex

  const EndBeforeStart := "End date/time must be after the start date/time."
  const InvalidSlug := "Please provide a valid slug."
  const SaveFailed := "Unable to save event. Please try again."
  const FallbackSlug := "event"
  const FallbackTimeZone := "Pacific/Auckland"
  const FallbackCurrency := "NZD"

  const MinutesPerDay := 1440

  // ---------------------------------------------------------------------
  // Index

  /** `OrderByDescending(e => e.CreatedAt)`. */
  predicate NewerFirst(a: Event, b: Event)
  {
    a.createdAt >= b.createdAt
  }

  lemma NewerFirstIsTotalPreorder()
    ensures IsTotalPreorder(NewerFirst)
  {
  }

  /** Whether the index keeps only the user's own events: for a user who is
    * not an admin and has an id. */
  predicate OwnEventsOnly(userId: Option<string>, isAdmin: bool)
  {
    !isAdmin && !IsNullOrBlank(userId)
  }

  function Visible(events: seq<Event>, userId: Option<string>, isAdmin: bool): seq<Event>
  {
    if OwnEventsOnly(userId, isAdmin) then Filter(events, (e: Event) => e.createdByUserId == userId.value)
    else events
  }

  /** The events the index lists, newest first. */
  function IndexedEvents(events: seq<Event>, userId: Option<string>, isAdmin: bool): seq<Event>
  {
    SortBy(Visible(events, userId, isAdmin), NewerFirst)
  }

  function ItemOf(e: Event): EventListItem
  {
    EventListItem(e.id, e.title, e.slug, e.status, e.startsAtLocal, e.endsAtLocal, e.timeZoneId, e.createdAt)
  }

  function IndexOf(events: seq<Event>, userId: Option<string>, isAdmin: bool): (r: EventIndex)
    ensures |r.events| == |IndexedEvents(events, userId, isAdmin)|
  {
    var listed := IndexedEvents(events, userId, isAdmin);
    EventIndex(isAdmin, seq(|listed|, i requires 0 <= i < |listed| => ItemOf(listed[i])))
  }

  /** The index lists every visible event once, newest first: all events for
    * an admin or a user without an id, otherwise exactly the user's own. */
  lemma IndexShape(events: seq<Event>, userId: Option<string>, isAdmin: bool)
    ensures var listed := IndexedEvents(events, userId, isAdmin);
      && IndexOf(events, userId, isAdmin).isAdmin == isAdmin
      && (forall i :: 0 <= i < |listed| ==> IndexOf(events, userId, isAdmin).events[i] == ItemOf(listed[i]))
      && (forall i, j :: 0 <= i < j < |listed| ==> listed[i].createdAt >= listed[j].createdAt)
      && (!OwnEventsOnly(userId, isAdmin) ==> multiset(listed) == multiset(events))
      && (OwnEventsOnly(userId, isAdmin) ==>
            forall e :: e in listed <==> e in events && e.createdByUserId == userId.value)
  {
    var visible := Visible(events, userId, isAdmin);
    NewerFirstIsTotalPreorder();
    SortByCorrect(visible, NewerFirst);
    var listed := IndexedEvents(events, userId, isAdmin);
    if OwnEventsOnly(userId, isAdmin) {
      FilterMembers(events, (e: Event) => e.createdByUserId == userId.value);
      forall e ensures e in listed <==> e in visible {
        assert e in listed <==> e in multiset(listed);
      }
    }
  }

  // ---------------------------------------------------------------------
  // GET Create

  /** `now.AddDays(7).Date.AddHours(19)`: seven o'clock in the evening, a
    * week from today. */
  function DefaultStart(now: nat): int
  {
    (now + 7 * MinutesPerDay) / MinutesPerDay * MinutesPerDay + 19 * 60
  }

  /** The time zone the form proposes: the profile's, else the zone of the
    * profile's city, else `Pacific/Auckland`. */
  function DefaultTimeZone(user: Option<User>): string
  {
    var own := if user.Some? then user.value.timeZoneId else None;
    var zone :=
      if IsNullOrBlank(own) && user.Some? && !IsNullOrBlank(user.value.country) then
        ResolveTimeZone(user.value.country.value, if user.value.city.Some? then user.value.city.value else "")
      else own;
    if IsNullOrBlank(zone) then FallbackTimeZone else zone.value
  }

  /** The currency the form proposes: the profile's, else the currency of the
    * profile's country, else `NZD`. */
  function DefaultCurrency(user: Option<User>): string
  {
    var own := if user.Some? then user.value.preferredCurrency else None;
    var currency :=
      if IsNullOrBlank(own) && user.Some? && !IsNullOrBlank(user.value.country) then
        ResolveCurrency(user.value.country.value)
      else own;
    if IsNullOrBlank(currency) then FallbackCurrency else currency.value
  }

  /** GET `Create`; `now` stands for `DateTime.Now`. */
  function CreateForm(user: Option<User>, now: nat): CreateDefaults
  {
    var start := DefaultStart(now);
    CreateDefaults(start, start + 3 * 60, DefaultTimeZone(user), DefaultCurrency(user), GetUserDisplayName(user),
                   if user.Some? then user.value.country else None,
                   if user.Some? then user.value.city else None)
  }

  /** The proposed times are 19:00 to 22:00 on the seventh day after today,
    * so the form as shown passes the date check. */
  lemma CreateFormTimes(user: Option<User>, now: nat)
    ensures var form := CreateForm(user, now);
      && form.startsAtLocal / MinutesPerDay == now / MinutesPerDay + 7
      && form.startsAtLocal % MinutesPerDay == 19 * 60
      && form.endsAtLocal == form.startsAtLocal + 3 * 60
      && DateErrors(Some(form.startsAtLocal), Some(form.endsAtLocal)) == []
  {
    var d := (now + 7 * MinutesPerDay) / MinutesPerDay;
    assert d == now / MinutesPerDay + 7;
    assert DefaultStart(now) == d * MinutesPerDay + 19 * 60;
  }

  /** The time zone falls back in order: a non-blank profile zone is kept;
    * otherwise the zone of the first table city matching the profile's
    * country and city; otherwise `Pacific/Auckland`. */
  lemma DefaultTimeZoneFallbacks(user: Option<User>)
    ensures user.Some? && !IsNullOrBlank(user.value.timeZoneId) ==> DefaultTimeZone(user) == user.value.timeZoneId.value
    ensures user.Some? && IsNullOrBlank(user.value.timeZoneId) && !IsNullOrBlank(user.value.country) ==>
      var city := if user.value.city.Some? then user.value.city.value else "";
      match GetRecord(user.value.country.value, city)
      case Some(record) => DefaultTimeZone(user) == record.timeZoneId
      case None => DefaultTimeZone(user) == FallbackTimeZone
    ensures (user.None? || (IsNullOrBlank(user.value.timeZoneId) && IsNullOrBlank(user.value.country))) ==>
      DefaultTimeZone(user) == FallbackTimeZone
    ensures !IsBlank(DefaultTimeZone(user))
  {
    if user.Some? && IsNullOrBlank(user.value.timeZoneId) && !IsNullOrBlank(user.value.country) {
      var city := if user.value.city.Some? then user.value.city.value else "";
      var r := GetRecord(user.value.country.value, city);
      if r.Some? {
        TableZonesNotBlank(r.value);
      }
    }
    assert !IsWhiteSpace(FallbackTimeZone[0]);
  }

  lemma TableZonesNotBlank(r: CityRecord)
    requires r in Cities
    ensures !IsBlank(r.timeZoneId)
  {
    var i :| 0 <= i < |Cities| && Cities[i] == r;
    assert !IsWhiteSpace(r.timeZoneId[0]);
  }

  /** The currency falls back in order: a non-blank profile currency is
    * kept; otherwise the currency of the profile's country, which is also
    * the currency of every table city in it; otherwise `NZD`. */
  lemma DefaultCurrencyFallbacks(user: Option<User>)
    ensures user.Some? && !IsNullOrBlank(user.value.preferredCurrency) ==>
      DefaultCurrency(user) == user.value.preferredCurrency.value
    ensures user.Some? && IsNullOrBlank(user.value.preferredCurrency) && !IsNullOrBlank(user.value.country) ==>
      && (ResolveCurrency(user.value.country.value).None? ==> DefaultCurrency(user) == FallbackCurrency)
      && forall r :: r in Cities && EqualsIgnoreCase(r.country, user.value.country.value) ==> DefaultCurrency(user) == r.currency
    ensures (user.None? || (IsNullOrBlank(user.value.preferredCurrency) && IsNullOrBlank(user.value.country))) ==>
      DefaultCurrency(user) == FallbackCurrency
    ensures !IsBlank(DefaultCurrency(user))
  {
    if user.Some? && IsNullOrBlank(user.value.preferredCurrency) && !IsNullOrBlank(user.value.country) {
      var c := user.value.country.value;
      forall r | r in Cities && EqualsIgnoreCase(r.country, c) ensures ResolveCurrency(c) == Some(r.currency) {
        CountryCurrencyOfCity(r, c);
      }
      ResolvedCurrencyIsCode(c);
    }
    assert !IsWhiteSpace(FallbackCurrency[0]);
  }

  // ---------------------------------------------------------------------
  // Helpers of POST Create

  /** `ValidateDates`: an error exactly when both times are given and the end
    * is not after the start. */
  function DateErrors(start: Option<int>, end: Option<int>): (r: seq<string>)
    ensures r != [] <==> start.Some? && end.Some? && end.value <= start.value
    ensures r == [] || r == [EndBeforeStart]
  {
    if start.None? || end.None? then []
    else if end.value <= start.value then [EndBeforeStart]
    else []
  }

  /** `GetUserDisplayName`: the trimmed `"{FirstName} {LastName}"`, or the
    * e-mail address when that is blank; null interpolates as empty. */
  function GetUserDisplayName(user: Option<User>): (r: Option<string>)
  {
    if user.None? then None
    else
      var name := Trim(OrEmpty(user.value.firstName) + " " + OrEmpty(user.value.lastName));
      if IsBlank(name) then user.value.email else Some(name)
  }

  function OrEmpty(s: Option<string>): string
  {
    if s.Some? then s.value else ""
  }

  /** The display name exists only for a user; it is the e-mail address
    * exactly when both names are blank, and otherwise the names joined by a
    * space with no white space left at either end. */
  lemma DisplayNameShape(user: Option<User>)
    ensures user.None? ==> GetUserDisplayName(user).None?
    ensures user.Some? ==>
      var full := OrEmpty(user.value.firstName) + " " + OrEmpty(user.value.lastName);
      && (IsBlank(OrEmpty(user.value.firstName)) && IsBlank(OrEmpty(user.value.lastName)) ==>
            GetUserDisplayName(user) == user.value.email)
      && (!(IsBlank(OrEmpty(user.value.firstName)) && IsBlank(OrEmpty(user.value.lastName))) ==>
            && GetUserDisplayName(user) == Some(Trim(full))
            && !IsBlank(Trim(full))
            && !IsWhiteSpace(Trim(full)[0]) && !IsWhiteSpace(Trim(full)[|Trim(full)| - 1]))
  {
    if user.Some? {
      var first, last := OrEmpty(user.value.firstName), OrEmpty(user.value.lastName);
      var full := first + " " + last;
      var k := TrimShape(full);
      if IsBlank(first) && IsBlank(last) {
        forall i | 0 <= i < |full| ensures IsWhiteSpace(full[i]) {
          if i < |first| { assert full[i] == first[i]; }
          else if i > |first| { assert full[i] == last[i - |first| - 1]; }
        }
      } else if !IsBlank(first) {
        var i :| 0 <= i < |first| && !IsWhiteSpace(first[i]);
        assert full[i] == first[i];
      } else {
        var i :| 0 <= i < |last| && !IsWhiteSpace(last[i]);
        assert full[|first| + 1 + i] == last[i];
      }
    }
  }

  /** The base slug: the normalised slug, or the normalised title when the
    * slug is blank. */
  function BaseSlug(form: EventForm): string
  {
    NormalizedSegment(if IsNullOrBlank(form.slug) then form.title else form.slug.value)
  }

  /** The errors of the model state before the save: those of binding, the
    * date check and the blank slug, in that order. */
  function CreateErrors(form: EventForm, bindingErrors: seq<string>): seq<string>
  {
    bindingErrors + DateErrors(form.startsAtLocal, form.endsAtLocal)
      + (if IsBlank(BaseSlug(form)) then [InvalidSlug] else [])
  }

  /** The form is accepted exactly when binding found nothing wrong, the
    * dates are in order or missing, and the base slug is not empty. */
  lemma CreateErrorsMeaning(form: EventForm, bindingErrors: seq<string>)
    ensures CreateErrors(form, bindingErrors) == [] <==>
      && bindingErrors == []
      && !(form.startsAtLocal.Some? && form.endsAtLocal.Some? && form.endsAtLocal.value <= form.startsAtLocal.value)
      && BaseSlug(form) != ""
    ensures InvalidSlug in CreateErrors(form, bindingErrors) <==> InvalidSlug in bindingErrors || BaseSlug(form) == ""
  {
    NormalizedSegmentShape(if IsNullOrBlank(form.slug) then form.title else form.slug.value);
    SlugBlankIsEmpty(BaseSlug(form));
  }

  lemma SlugBlankIsEmpty(s: string)
    requires IsSlug(s)
    ensures IsBlank(s) <==> s == ""
  {
    if |s| > 0 {
      assert SlugChar(s[0]);
    }
  }

  function SlugsOf(events: seq<Event>): (r: seq<string>)
    ensures |r| == |events| && forall i :: 0 <= i < |r| ==> r[i] == events[i].slug
  {
    seq(|events|, i requires 0 <= i < |events| => events[i].slug)
  }

  /** The slug is taken by some event, whoever created it, ignoring case. */
  lemma TakenByEvent(events: seq<Event>, slug: string)
    ensures Taken(SlugsOf(events), slug) <==> exists e :: e in events && EqualsIgnoreCase(e.slug, slug)
  {
    var existing := SlugsOf(events);
    if exists e :: e in events && EqualsIgnoreCase(e.slug, slug) {
      var e :| e in events && EqualsIgnoreCase(e.slug, slug);
      var i :| 0 <= i < |events| && events[i] == e;
      assert existing[i] == e.slug;
    }
    if Taken(existing, slug) {
      var s :| s in existing && EqualsIgnoreCase(s, slug);
      var i :| 0 <= i < |existing| && existing[i] == s;
      assert events[i] in events;
    }
  }

  /** The row POST `Create` inserts; `id` and `now` stand for
    * `Guid.NewGuid()` and `DateTime.UtcNow`. */
  function NewEvent(user: User, form: EventForm, slug: string, id: nat, now: int): Event
    requires form.startsAtLocal.Some? && form.endsAtLocal.Some?
  {
    var organizer := if IsNullOrBlank(form.organizerName) then GetUserDisplayName(Some(user))
                     else Some(Trim(form.organizerName.value));
    Event(
      id, Trim(form.title), TrimOrNull(form.description), slug, Draft,
      form.startsAtLocal.value, form.endsAtLocal.value,
      Trim(form.timeZoneId), ToUpper(Trim(form.currencyCode)),
      if IsNullOrBlank(organizer) then None else organizer,
      TrimOrNull(form.venueName), TrimOrNull(form.addressLine1), TrimOrNull(form.addressLine2),
      TrimOrNull(form.city), TrimOrNull(form.region), TrimOrNull(form.country), TrimOrNull(form.postalCode),
      user.id, now)
  }

  /** A stored field holds the trimmed input, or null for blank input. */
  predicate StoredAs(stored: Option<string>, input: Option<string>)
  {
    && (stored.None? <==> IsNullOrBlank(input))
    && (stored.Some? ==> stored.value == Trim(input.value) && !IsBlank(stored.value))
  }

  /** A new event is a draft of its creator; its text is trimmed, its
    * currency upper-cased, blank optional text stored as null, and its
    * organizer is the given name or else the creator's display name. */
  lemma NewEventShape(user: User, form: EventForm, slug: string, id: nat, now: int)
    requires form.startsAtLocal.Some? && form.endsAtLocal.Some?
    ensures var e := NewEvent(user, form, slug, id, now);
      && e.id == id && e.slug == slug && e.status == Draft
      && e.createdByUserId == user.id && e.createdAt == now
      && e.startsAtLocal == form.startsAtLocal.value && e.endsAtLocal == form.endsAtLocal.value
      && e.title == Trim(form.title) && e.timeZoneId == Trim(form.timeZoneId)
      && e.currencyCode == ToUpper(Trim(form.currencyCode))
      && (forall i :: 0 <= i < |e.currencyCode| ==> !IsAsciiLower(e.currencyCode[i]))
      && StoredAs(e.description, form.description)
      && StoredAs(e.venueName, form.venueName)
      && StoredAs(e.addressLine1, form.addressLine1) && StoredAs(e.addressLine2, form.addressLine2)
      && StoredAs(e.city, form.city) && StoredAs(e.region, form.region)
      && StoredAs(e.country, form.country) && StoredAs(e.postalCode, form.postalCode)
      && (!IsNullOrBlank(form.organizerName) ==> StoredAs(e.organizerName, form.organizerName))
      && (IsNullOrBlank(form.organizerName) ==>
            e.organizerName == (if IsNullOrBlank(GetUserDisplayName(Some(user))) then None else GetUserDisplayName(Some(user))))
  {
    StoredTrimOrNull(form.description);
    StoredTrimOrNull(form.venueName);
    StoredTrimOrNull(form.addressLine1);
    StoredTrimOrNull(form.addressLine2);
    StoredTrimOrNull(form.city);
    StoredTrimOrNull(form.region);
    StoredTrimOrNull(form.country);
    StoredTrimOrNull(form.postalCode);
    StoredTrimOrNull(form.organizerName);
  }

  lemma StoredTrimOrNull(input: Option<string>)
    ensures StoredAs(TrimOrNull(input), input)
  {
    if input.Some? {
      TrimIdempotent(input.value);
    }
  }

  // ---------------------------------------------------------------------
  // The controller

  class EventsController {
    const db: EventsDb

    constructor (db: EventsDb)
      ensures this.db == db
    {
      this.db := db;
    }

    /** GET `Index`: `userId` and `isAdmin` are what the signed-in principal
      * says. */
    method Index(userId: Option<string>, isAdmin: bool) returns (model: EventIndex)
      ensures model == IndexOf(db.events, userId, isAdmin)
    {
      var visible := db.events;
      if !isAdmin && !IsNullOrBlank(userId) {
        visible := Filter(db.events, (e: Event) => e.createdByUserId == userId.value);
      }
      var listed := SortBy(visible, NewerFirst);
      var items := seq(|listed|, i requires 0 <= i < |listed| => ItemOf(listed[i]));
      model := EventIndex(isAdmin, items);
    }

    /** `EnsureUniqueSlugAsync(baseSlug)`: the first of `baseSlug` (or
      * `event` when it is blank), `baseSlug-2`, `baseSlug-3`, … that no
      * event of any user has, ignoring case. */
    method EnsureUniqueEventSlug(baseSlug: string) returns (slug: string)
      ensures forall e :: e in db.events ==> !EqualsIgnoreCase(e.slug, slug)
      ensures var first := if IsBlank(baseSlug) then FallbackSlug else baseSlug;
        exists n :: n >= 1 && slug == Candidate(first, baseSlug, n) &&
          forall k :: 1 <= k < n ==> exists e :: e in db.events && EqualsIgnoreCase(e.slug, Candidate(first, baseSlug, k))
    {
      var first := if IsBlank(baseSlug) then FallbackSlug else baseSlug;
      var existing := SlugsOf(db.events);
      slug := EnsureUniqueSlug(existing, first, baseSlug);
      TakenByEvent(db.events, slug);
      ghost var n :| n >= 1 && slug == Candidate(first, baseSlug, n) &&
        forall k :: 1 <= k < n ==> Taken(existing, Candidate(first, baseSlug, k));
      forall k | 1 <= k < n
        ensures exists e :: e in db.events && EqualsIgnoreCase(e.slug, Candidate(first, baseSlug, k))
      {
        TakenByEvent(db.events, Candidate(first, baseSlug, k));
      }
    }

    /** POST `Create`. Without a signed-in user nothing happens. A form with
      * errors comes back with the base slug in its slug field; an accepted
      * one becomes a draft event under a slug no event has, and the insert
      * commits when the save goes through. Binding reports missing times
      * (`[Required]`), which the record construction relies on. */
    method Create(user: Option<User>, form: EventForm, bindingErrors: seq<string>, newId: nat, now: int, saveOk: bool)
      returns (result: CreateResult, ghost slug: string)
      requires db.Valid()
      requires form.startsAtLocal.None? || form.endsAtLocal.None? ==> bindingErrors != []
      modifies db
      ensures db.Valid()
      ensures user.None? ==> result == Unauthorized
      ensures user.Some? ==>
        var errors := CreateErrors(form, bindingErrors);
        && (errors != [] ==> result == FormWithErrors(errors, form.(slug := Some(BaseSlug(form)))))
        && (errors == [] ==>
              && slug != "" && IsSlug(slug)
              && (forall e :: e in old(db.events) ==> !EqualsIgnoreCase(e.slug, slug))
              && (exists n :: n >= 1 && slug == Candidate(BaseSlug(form), BaseSlug(form), n) &&
                    forall k :: 1 <= k < n ==>
                      exists e :: e in old(db.events) && EqualsIgnoreCase(e.slug, Candidate(BaseSlug(form), BaseSlug(form), k)))
              && (result == RedirectToIndex <==> saveOk && forall e :: e in old(db.events) ==> e.id != newId)
              && (result != RedirectToIndex ==> result == FormWithErrors([SaveFailed], form))
              && (result == RedirectToIndex ==> db.events == old(db.events) + [NewEvent(user.value, form, slug, newId, now)]))
      ensures result != RedirectToIndex ==> db.events == old(db.events)
    {
      if user.None? {
        return Unauthorized, "";
      }
      var dateErrors := DateErrors(form.startsAtLocal, form.endsAtLocal);
      var input := if IsNullOrBlank(form.slug) then form.title else form.slug.value;
      var baseSlug := NormalizeSegment(input);
      var slugErrors := if IsBlank(baseSlug) then [InvalidSlug] else [];
      var unique := EnsureUniqueEventSlug(baseSlug);
      slug := unique;
      var errors := bindingErrors + dateErrors + slugErrors;
      if errors != [] {
        return FormWithErrors(errors, form.(slug := Some(baseSlug))), slug;
      }
      NormalizedSegmentShape(input);
      SlugBlankIsEmpty(baseSlug);
      ghost var n :| n >= 1 && unique == Candidate(baseSlug, baseSlug, n);
      CandidateIsSlug(baseSlug, baseSlug, n);
      var e := NewEvent(user.value, form, unique, newId, now);
      var ok := db.Insert(e, saveOk);
      if !ok {
        return FormWithErrors([SaveFailed], form), slug;
      }
      return RedirectToIndex, slug;
    }
  }
}
