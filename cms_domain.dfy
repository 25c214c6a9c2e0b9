/**
 * The CMS and event entities as values: pages, page components with their
 * typed settings, reserved routes and events. Identifiers (GUIDs) are natural
 * numbers, with `0` standing for `Guid.Empty`; timestamps are integers.
 */
module CmsDomain {
  import opened Wrappers
  import opened Text

  // CmsComponentTypes
  const ImageType: string := "Image"
  const BannerType: string := "Banner"
  const EventListType: string := "EventList"

  // EventStatuses
  const Draft: string := "DRAFT"
  const Live: string := "LIVE"
  const Paused: string := "PAUSED"
  const Archived: string := "ARCHIVED"

  const EmptyGuid: nat := 0

  /** C#'s `int`, the type of the `Position` columns and form fields. */
  const Int32Min: int := -0x8000_0000
  const Int32Max: int := 0x7FFF_FFFF

  predicate IsInt32(x: int)
  {
    Int32Min <= x <= Int32Max
  }

  /** Unchecked `int` arithmetic: the exact result reduced modulo 2^32 into
    * the 32-bit range, so that one past `int.MaxValue` is `int.MinValue`. */
  function Wrap32(x: int): (r: int)
    ensures IsInt32(r)
    ensures IsInt32(x) ==> r == x
    ensures x == Int32Max + 1 ==> r == Int32Min
  {
    (x - Int32Min) % 0x1_0000_0000 + Int32Min
  }

  /** A row of `CmsPages` (the creation and update timestamps are not modelled). */
  datatype CmsPage = CmsPage(
    id: nat,
    title: string,
    slug: string,
    path: string,
    parentId: Option<nat>,
    position: int,
    isHomepage: bool,
    isPublished: bool,
    customUrl: Option<string>)

  datatype ImageSettings = ImageSettings(
    url: Option<string>, altText: Option<string>, caption: Option<string>,
    alignment: Option<string>, linkUrl: Option<string>)

  datatype BannerSettings = BannerSettings(
    heading: Option<string>, subheading: Option<string>, backgroundImageUrl: Option<string>,
    ctaLabel: Option<string>, ctaUrl: Option<string>)

  datatype EventListSettings = EventListSettings(
    source: Option<string>, eventIds: Option<string>, category: Option<string>,
    location: Option<string>, limit: Option<int>)

  const NoImageSettings := ImageSettings(None, None, None, None, None)
  const NoBannerSettings := BannerSettings(None, None, None, None, None)
  const NoEventListSettings := EventListSettings(None, None, None, None, None)

  /** The object a settings document was serialised from. */
  datatype Settings =
    | ImageDoc(image: ImageSettings)
    | BannerDoc(banner: BannerSettings)
    | EventListDoc(eventList: EventListSettings)

  /** The `SettingsJson` column: blank text, text the deserialiser rejects, or
    * a JSON object written by the serialiser. */
  datatype SettingsJson = BlankJson | MalformedJson | Json(doc: Settings)

  /** A row of `CmsPageComponents`. */
  datatype CmsPageComponent = CmsPageComponent(
    id: nat,
    pageId: nat,
    componentType: string,
    settingsJson: SettingsJson,
    position: int,
    isEnabled: bool)

  /** A row of `CmsReservedRoutes`. */
  datatype ReservedRoute = ReservedRoute(id: nat, segment: string, isActive: bool)

  /** A row of `Events`. */
  datatype Event = Event(
    id: nat,
    title: string,
    description: Option<string>,
    slug: string,
    status: string,
    startsAtLocal: int,
    endsAtLocal: int,
    timeZoneId: string,
    currencyCode: string,
    organizerName: Option<string>,
    venueName: Option<string>,
    addressLine1: Option<string>,
    addressLine2: Option<string>,
    city: Option<string>,
    region: Option<string>,
    country: Option<string>,
    postalCode: Option<string>,
    createdByUserId: string,
    createdAt: int)

  /** The outcome of `Deserialize<T>`: null, a value, or an exception. */
  datatype Deserialized<T> = Null | Value(value: T) | Throws

  // System.Text.Json matches properties by name and ignores unknown ones; the
  // three settings classes share no property name, so a document written for
  // one kind reads as an all-null object of another kind.

  function DeserializeImage(json: SettingsJson): Deserialized<ImageSettings>
  {
    match json
    case BlankJson => Null
    case MalformedJson => Throws
    case Json(ImageDoc(s)) => Value(s)
    case Json(_) => Value(NoImageSettings)
  }

  function DeserializeBanner(json: SettingsJson): Deserialized<BannerSettings>
  {
    match json
    case BlankJson => Null
    case MalformedJson => Throws
    case Json(BannerDoc(s)) => Value(s)
    case Json(_) => Value(NoBannerSettings)
  }

  function DeserializeEventList(json: SettingsJson): Deserialized<EventListSettings>
  {
    match json
    case BlankJson => Null
    case MalformedJson => Throws
    case Json(EventListDoc(s)) => Value(s)
    case Json(_) => Value(NoEventListSettings)
  }

  /** `string.IsNullOrWhiteSpace` on a nullable string. */
  predicate IsNullOrBlank(s: Option<string>)
  {
    s.None? || IsBlank(s.value)
  }

  /** `IsNullOrWhiteSpace(s) ? null : s.Trim()`, the way optional text is stored. */
  function TrimOrNull(s: Option<string>): (r: Option<string>)
    ensures r.None? <==> IsNullOrBlank(s)
    ensures r.Some? ==> r.value == Trim(s.value)
  {
    if IsNullOrBlank(s) then None else Some(Trim(s.value))
  }
}
