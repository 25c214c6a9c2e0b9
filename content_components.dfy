/**
 * Page components as the content administration edits them: the posted form,
 * the type and field checks, and the mapping between the form and the stored
 * settings document in both directions.
 */
module ContentComponents {
  import opened Wrappers
  import opened Text
  import opened CmsDomain

  /** The posted `CmsComponentEditViewModel`. Its settings fields are grouped
    * by the settings object they feed; `eventList.source` and
    * `eventList.limit` are the form's `Source` and `Limit`. */
  datatype ComponentForm = ComponentForm(
    componentType: string,
    position: int,
    isEnabled: bool,
    image: ImageSettings,
    banner: BannerSettings,
    eventList: EventListSettings)

  const UnsupportedType := "Unsupported component type."
  const ImageUrlRequired := "Image URL is required."
  const HeadingRequired := "Heading is required."
  const SourceInvalid := "Source must be query or manual."
  const EventIdsRequired := "Event IDs are required for manual source."
  const LimitOutOfRange := "Limit must be between 1 and 50."

  /** `IsSupportedComponentType`: an ordinal match of one of the three types. */
  predicate IsSupportedComponentType(t: string)
  {
    t == ImageType || t == BannerType || t == EventListType
  }

  /** `NormalizeEventListSource`. */
  function NormalizeEventListSource(source: Option<string>): (r: string)
    ensures r == "manual" || r == "query"
    ensures r == "manual" <==> source.Some? && EqualsIgnoreCase(Trim(source.value), "manual")
  {
    if source.Some? && EqualsIgnoreCase(Trim(source.value), "manual") then "manual" else "query"
  }

  /** `NormalizeEventListLimit`. */
  function NormalizeEventListLimit(limit: Option<int>): (r: int)
    ensures 1 <= r <= 50
    ensures limit.None? || limit.value < 1 ==> r == 10
    ensures limit.Some? && 1 <= limit.value <= 50 ==> r == limit.value
    ensures limit.Some? && limit.value > 50 ==> r == 50
  {
    if limit.None? || limit.value < 1 then 10
    else if limit.value > 50 then 50
    else limit.value
  }

  /** The errors of the type check and of `ValidateComponentModel`, in the
    * order they are added. */
  function ComponentErrors(form: ComponentForm): seq<string>
  {
    var t := form.componentType;
    (if !IsSupportedComponentType(t) then [UnsupportedType] else [])
    + (if t == ImageType && IsNullOrBlank(form.image.url) then [ImageUrlRequired] else [])
    + (if t == BannerType && IsNullOrBlank(form.banner.heading) then [HeadingRequired] else [])
    + (if t == EventListType then EventListErrors(form.eventList) else [])
  }

  function EventListErrors(s: EventListSettings): seq<string>
  {
    var source := NormalizeEventListSource(s.source);
    (if source != "query" && source != "manual" then [SourceInvalid] else [])
    + (if source == "manual" && IsNullOrBlank(s.eventIds) then [EventIdsRequired] else [])
    + (if s.limit.Some? && (s.limit.value < 1 || s.limit.value > 50) then [LimitOutOfRange] else [])
  }

  /** The rules a component form must meet to be saved. */
  predicate AcceptableForm(form: ComponentForm)
  {
    var t := form.componentType;
    && IsSupportedComponentType(t)
    && (t == ImageType ==> !IsNullOrBlank(form.image.url))
    && (t == BannerType ==> !IsNullOrBlank(form.banner.heading))
    && (t == EventListType ==>
          && (NormalizeEventListSource(form.eventList.source) == "manual" ==> !IsNullOrBlank(form.eventList.eventIds))
          && (form.eventList.limit.Some? ==> 1 <= form.eventList.limit.value <= 50))
  }

  /** A form draws no error exactly when it meets the rules. */
  lemma ComponentErrorsExactly(form: ComponentForm)
    ensures ComponentErrors(form) == [] <==> AcceptableForm(form)
  {
  }

  /** The source check can never fire: the normalised source is always one
    * of the two accepted values. */
  lemma SourceErrorUnreachable(form: ComponentForm)
    ensures SourceInvalid !in ComponentErrors(form)
  {
    var e := ComponentErrors(form);
    assert UnsupportedType != SourceInvalid && ImageUrlRequired != SourceInvalid;
    assert HeadingRequired != SourceInvalid && EventIdsRequired != SourceInvalid;
    assert LimitOutOfRange != SourceInvalid;
  }

  /** The event-list settings `BuildSettingsJson` stores: the normalised
    * source and limit, and the text fields trimmed or null. */
  function StoredEventList(s: EventListSettings): (r: EventListSettings)
    ensures r.source.Some? && r.limit.Some? && 1 <= r.limit.value <= 50
    ensures r.eventIds.None? <==> IsNullOrBlank(s.eventIds)
  {
    EventListSettings(
      Some(NormalizeEventListSource(s.source)),
      TrimOrNull(s.eventIds),
      TrimOrNull(s.category),
      TrimOrNull(s.location),
      Some(NormalizeEventListLimit(s.limit)))
  }

  /** `BuildSettingsJson`: the settings object of the form's type is
    * serialised; every type other than `Image` and `Banner` falls to the
    * event-list branch. */
  function BuildSettingsJson(form: ComponentForm): (r: SettingsJson)
    ensures r.Json?
    ensures form.componentType == ImageType ==> r.doc == ImageDoc(form.image)
    ensures form.componentType == BannerType ==> r.doc == BannerDoc(form.banner)
    ensures form.componentType != ImageType && form.componentType != BannerType ==>
      r.doc == EventListDoc(StoredEventList(form.eventList))
  {
    if form.componentType == ImageType then Json(ImageDoc(form.image))
    else if form.componentType == BannerType then Json(BannerDoc(form.banner))
    else Json(EventListDoc(StoredEventList(form.eventList)))
  }

  /** `MapComponent`: the edit form of a stored component, or `None` when the
    * deserialiser throws on malformed JSON. Blank JSON leaves the settings
    * fields empty, except that an event list then shows source `query` and
    * limit 10; a type it does not know keeps no settings. */
  function MapComponent(c: CmsPageComponent): (r: Option<ComponentForm>)
  {
    var form := ComponentForm(c.componentType, c.position, c.isEnabled,
                              NoImageSettings, NoBannerSettings, NoEventListSettings);
    if c.componentType == ImageType then
      match DeserializeImage(c.settingsJson)
      case Throws => None
      case Null => Some(form)
      case Value(s) => Some(form.(image := s))
    else if c.componentType == BannerType then
      match DeserializeBanner(c.settingsJson)
      case Throws => None
      case Null => Some(form)
      case Value(s) => Some(form.(banner := s))
    else if c.componentType == EventListType then
      match DeserializeEventList(c.settingsJson)
      case Throws => None
      case Null => Some(form.(eventList := NoEventListSettings.(source := Some("query"), limit := Some(10))))
      case Value(s) => Some(form.(eventList := s.(source := Some(NormalizeEventListSource(s.source)),
                                                  limit := Some(NormalizeEventListLimit(s.limit)))))
    else Some(form)
  }

  /** The component a saved form produces (`CreateComponent` and
    * `EditComponent` store these fields). */
  function StoredComponent(id: nat, pageId: nat, form: ComponentForm, position: int): CmsPageComponent
  {
    CmsPageComponent(id, pageId, form.componentType, BuildSettingsJson(form), position, form.isEnabled)
  }

  /** What the edit form shows of a saved form: the settings of its own type
    * as entered (event-list ones as stored), nothing of the other types. */
  function Redisplayed(form: ComponentForm, position: int): ComponentForm
  {
    var f := ComponentForm(form.componentType, position, form.isEnabled,
                           NoImageSettings, NoBannerSettings, NoEventListSettings);
    if form.componentType == ImageType then f.(image := form.image)
    else if form.componentType == BannerType then f.(banner := form.banner)
    else if form.componentType == EventListType then f.(eventList := StoredEventList(form.eventList))
    else f
  }

  lemma NormalizeEventListSourceIdempotent(source: Option<string>)
    ensures NormalizeEventListSource(Some(NormalizeEventListSource(source))) == NormalizeEventListSource(source)
  {
    var r := NormalizeEventListSource(source);
    TrimNoWhiteSpace(r);
    if r == "manual" {
      assert Trim(r) == r;
    } else {
      assert Trim(r) == r;
      assert ToLower("query") != ToLower("manual");
    }
  }

  /** Saving a supported form and opening it for editing again shows the
    * settings that were entered for its type, the event-list ones as stored;
    * saving that form again stores the same component. */
  lemma SettingsRoundTrip(id: nat, pageId: nat, form: ComponentForm, position: int)
    requires IsSupportedComponentType(form.componentType)
    ensures MapComponent(StoredComponent(id, pageId, form, position)) == Some(Redisplayed(form, position))
    ensures StoredComponent(id, pageId, Redisplayed(form, position), position) == StoredComponent(id, pageId, form, position)
  {
    if form.componentType == EventListType {
      var s := StoredEventList(form.eventList);
      NormalizeEventListSourceIdempotent(form.eventList.source);
      assert s.(source := Some(NormalizeEventListSource(s.source)), limit := Some(NormalizeEventListLimit(s.limit))) == s;
      StoredEventListIdempotent(form.eventList);
    }
  }

  lemma StoredEventListIdempotent(s: EventListSettings)
    ensures StoredEventList(StoredEventList(s)) == StoredEventList(s)
  {
    NormalizeEventListSourceIdempotent(s.source);
    TrimOrNullIdempotent(s.eventIds);
    TrimOrNullIdempotent(s.category);
    TrimOrNullIdempotent(s.location);
  }

  lemma TrimOrNullIdempotent(s: Option<string>)
    ensures TrimOrNull(TrimOrNull(s)) == TrimOrNull(s)
  {
    if !IsNullOrBlank(s) {
      TrimIdempotent(s.value);
    }
  }
}
