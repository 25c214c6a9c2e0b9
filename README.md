# RailTix CMS core in Dafny

This project models the content-management core of RailTix, an ASP.NET Core
ticketing site, together with the small validators and lookup rules around it.
It proves properties of that model. Each source component has its own Dafny
module:

- **URL normalisation** (`cms_url.dfy`). `CmsUrlService` slug-ises a segment
  with a character loop, and canonicalises paths, custom URLs and top-level
  segments.
- **Tables and invariants** (`cms_domain.dfy`, `cms_database.dfy`,
  `forest.dfy`, `page_invariants.dfy`).
  - The `CmsPages`, `CmsPageComponents` and `CmsReservedRoutes` rows are maps
    from id to record, held by the `CmsDb` class.
  - A save commits a working copy only when the migration's unique indexes and
    foreign keys hold. A failed save leaves the tables as they were.
  - Acyclicity of the page tree is carried by a ghost rank.
- **Page-tree editor** (`admin_content.dfy`, `page_tree.dfy`, `slugs.dfy`,
  `page_listing.dfy`, `content_components.dfy`). `AdminContentController`
  covers:
  - create, edit and delete of pages;
  - unique sibling slugs and path building;
  - reserved-segment and path-uniqueness checks;
  - homepage pinning;
  - the ancestor walk that prevents cycles;
  - the recursive path cascade and subtree delete;
  - the tree and the parent drop-down;
  - component create, edit and delete, with their validation and
    normalisation.
- **Reserved routes** (`reserved_routes.dfy`, `admin_reserved_routes.dfy`,
  `tables.dfy`). `CmsReservedRouteService` is a get-or-load cache with
  invalidation, and its admin controller writes the route table.
- **Read path** (`cms_renderer.dfy`, `event_lists.dfy`, `guids.dfy`,
  `url_middleware.dfy`, `cms_controller.dfy`):
  - published-page lookup and component rendering;
  - event-list selection by manual id list or by query, including
    `Guid.TryParse`;
  - the 301 normalisation middleware;
  - the `Page` action's routing decision.
- **Events** (`events_controller.dfy`, `event_store.dfy`). `EventsController`
  covers:
  - date validation and unique event slugs;
  - the record a POST `Create` inserts;
  - the organiser's display name;
  - the index filter and order;
  - the GET `Create` defaults.
- **Small rules**:
  - `StrongPasswordValidator` (`password_validator.dfy`);
  - the `passwordPolicy.js` checklist (`password_policy.dfy`);
  - the `dateValidation.js` parsing, formatting, bounds and submit check
    (`date_validation.dfy`);
  - the `LocationService` tables (`locations.dfy`);
  - the Stripe status labels (`stripe_status.dfy`);
  - the `AccountController` helpers (`account.dfy`).

Shared helpers are ASCII text functions in `text.dfy`, an insertion sort with
its proofs in `sorting.dfy`, and `Option` in `wrappers.dfy`.

The model takes the source's own form:
- Code that changes state step by step is written as methods with loops and
  invariants, on classes whose methods declare what they modify. Examples are
  the `NormalizeSegment` builder loop, the unique-slug `while` loops, the
  ancestor walk, the cascade and delete, the reserved-route cache, the
  checklist toggling and the date-field submit loop.
- LINQ and expression code is written as functions with lemmas.

Requests, the clock and everything outside the process are parameters:
- the current time of the JavaScript code;
- whether a database save goes through (`saveOk`);
- the signed-in user's roles.

Where the code and its description disagree, the model follows the code:
- Malformed, non-blank component settings JSON makes the deserializer throw.
  Rendering then fails (`None`), rather than showing an empty component.
- The renderer assigns an event-list view model where the page view model
  declares a settings type. The model follows the renderer.
- The "source must be query or manual" check in
  `ValidateComponentModel` can never fire, because
  `NormalizeEventListSource` returns one of the two. A lemma proves this.
- `parseInputValue` builds dates with `new Date(y, m, d, …)`, which reads
  years 0–99 as 1900–1999. So a value of such a year never reads back. The
  model keeps this behaviour.

## Model

| member | source | states |
|---|---|---|
| CmsUrl.NormalizeSegment | RailTix/Services/Cms/CmsUrlService.cs:9-38 | the segment loop returns exactly the normalised segment: trimmed, lower-cased, each run of other characters one hyphen, outer hyphens trimmed |
| CmsUrl.EnsureLeadingSlash | RailTix/Services/Cms/CmsUrlService.cs:66-74 | the result always starts with `/`; blank input gives `/`; a path with a slash is kept; otherwise `/` is put in front of the unchanged path |
| CmsUrl.HyphenateShape | RailTix/Services/Cms/CmsUrlService.cs:17-34 | the builder never grows past its input, holds only lower-case letters, digits and hyphens, and never two hyphens in a row |
| CmsUrl.HyphenateFixed | RailTix/Services/Cms/CmsUrlService.cs:17-34 | letters, digits and single hyphens pass through the loop unchanged |
| CmsUrl.NormalizedSegmentShape | RailTix/Services/Cms/CmsUrlService.cs:9-38 | blank input gives the empty string; every result is a slug and no longer than its input |
| CmsUrl.NormalizedSegmentFixedPoints | RailTix/Services/Cms/CmsUrlService.cs:9-38 | a segment is left unchanged exactly when it already is a slug |
| CmsUrl.NormalizeSegmentIdempotent | RailTix/Services/Cms/CmsUrlService.cs:9-38 | normalising a segment twice gives the same as once |
| CmsUrl.NormalizedSegmentsShape | RailTix/Services/Cms/CmsUrlService.cs:48-51 | the selected segments are all non-empty slugs |
| CmsUrl.NormalizedSegmentsFixed | RailTix/Services/Cms/CmsUrlService.cs:48-51 | segments that already are non-empty slugs are kept as they are |
| CmsUrl.SlugNoSlash | RailTix/Services/Cms/CmsUrlService.cs:22-33 | a slug holds no `/`, so joining slugs with `/` can be split back |
| CmsUrl.NormalizePathSegments | RailTix/Services/Cms/CmsUrlService.cs:40-54 | blank input or `/` gives `/`; otherwise the path's segments are the normalised non-blank segments of the input, in order; the result is canonical |
| CmsUrl.NormalizePathCanonical | RailTix/Services/Cms/CmsUrlService.cs:40-54 | a path is its own normal form exactly when it is canonical, and normalising is idempotent |
| CmsUrl.CanonicalIsFixed | RailTix/Services/Cms/CmsUrlService.cs:40-54 | a canonical path is left unchanged |
| CmsUrl.NormalizePathChars | RailTix/Services/Cms/CmsUrlService.cs:40-54 | a normalised path ends with `/` only when it is `/`, and holds only slug characters and slashes |
| CmsUrl.NormalizeCustomUrlIsNormalizePath | RailTix/Services/Cms/CmsUrlService.cs:56-64 | custom-URL normalisation agrees with path normalisation, and blank input gives `/` |
| CmsUrl.EnsureLeadingSlashIdempotent | RailTix/Services/Cms/CmsUrlService.cs:66-74 | adding the slash twice gives the same as once, and the result is never blank |
| CmsUrl.TopLevelSegmentIsFirst | RailTix/Services/Cms/CmsUrlService.cs:76-86 | null for blank input, `/` or a path of slashes; otherwise the first non-empty piece between slashes |
| CmsUrl.TopLevelOfNormalized | RailTix/Services/Cms/CmsUrlService.cs:76-86 | on a normalised path the top-level segment is null exactly for `/`, and otherwise its first segment, a non-empty slug |
| CmsUrl.SegmentsPath | RailTix/Services/Cms/CmsUrlService.cs:53 | `/` followed by non-empty slugs joined with `/` is canonical and splits back into those slugs |
| ReservedRoutes.LoadSegmentsMembers | RailTix/Services/Cms/CmsReservedRouteService.cs:34-43 | a segment is loaded exactly when some active route normalises to it and it is not blank; every loaded segment is a slug |
| ReservedRoutes.ContainsNormalized | RailTix/Services/Cms/CmsReservedRouteService.cs:43-58 | the case-insensitive lookup of a normalised segment is plain membership, since normalised segments are lower case |
| ReservedRoutes.SlugLowerIdentity | RailTix/Services/Cms/CmsReservedRouteService.cs:43 | lower-casing a slug leaves it unchanged |
| ReservedRoutes.ReservedRouteService.constructor | RailTix/Services/Cms/CmsReservedRouteService.cs:20-25 | the service starts over the given database with an empty cache |
| ReservedRoutes.ReservedRouteService.GetReservedSegments | RailTix/Services/Cms/CmsReservedRouteService.cs:27-47 | a cached set is returned as it is; otherwise the set is loaded from the active routes and cached |
| ReservedRoutes.ReservedRouteService.IsReservedSegment | RailTix/Services/Cms/CmsReservedRouteService.cs:49-59 | a null or blank segment is not reserved and leaves the cache alone; otherwise the answer is whether its normalised form is in the current set, which is then cached |
| ReservedRoutes.ReservedRouteService.InvalidateCache | RailTix/Services/Cms/CmsReservedRouteService.cs:61-64 | the cache is emptied, so the next read reloads from the table |
| UrlMiddleware.HasExtensionBeforeMeans | RailTix/Middleware/CmsUrlNormalizationMiddleware.cs:52 | the backwards scan for an extension finds one exactly when a `.` other than the last character has no `.` or `/` after it |
| UrlMiddleware.HasExtensionMeans | RailTix/Middleware/CmsUrlNormalizationMiddleware.cs:52 | `Path.HasExtension` holds exactly when the last file name holds a `.` that is followed by at least one character |
| UrlMiddleware.Invoke | RailTix/Middleware/CmsUrlNormalizationMiddleware.cs:18-38 | a redirect always goes to the normalised path (a missing path standing for `/`) with the query string kept |
| UrlMiddleware.InvokeRedirectsNonCanonical | RailTix/Middleware/CmsUrlNormalizationMiddleware.cs:18-58 | a request is redirected exactly when it is a GET or HEAD for a non-blank path other than `/` without extension that is not canonical |
| UrlMiddleware.NormalizedHasNoExtension | RailTix/Middleware/CmsUrlNormalizationMiddleware.cs:28-52 | a normalised path never has an extension |
| UrlMiddleware.NoSecondRedirect | RailTix/Middleware/CmsUrlNormalizationMiddleware.cs:28-37 | following a redirect is never redirected again: the target is passed on to the next handler |
| CmsPages.RootIsNotReserved | RailTix/Controllers/CmsController.cs:26-31 | a missing path is `/`, and `/` has no top-level segment, so it is never reserved |
| CmsPages.CmsController.constructor | RailTix/Controllers/CmsController.cs:13-21 | the controller keeps its renderer and reserved-route service |
| CmsPages.CmsController.Page | RailTix/Controllers/CmsController.cs:23-40 | a path whose top-level segment is reserved is not found; otherwise the page is not found exactly when no published page has the normalised path |
| CmsDomain.Wrap32 | RailTix/Controllers/AdminContentController.cs:610 | unchecked `int` arithmetic: the result is a 32-bit value, equal to the exact one when that fits, and one past `int.MaxValue` is `int.MinValue` |
| CmsDomain.TrimOrNull | RailTix/Controllers/AdminContentController.cs:724-726 | null exactly for a missing or blank value; otherwise the value trimmed |
| ContentComponents.NormalizeEventListSource | RailTix/Controllers/AdminContentController.cs:821-826 | always `manual` or `query`, and `manual` exactly when the trimmed source equals `manual` ignoring case |
| ContentComponents.NormalizeEventListLimit | RailTix/Controllers/AdminContentController.cs:828-836 | always between 1 and 50: 10 for a missing or non-positive limit, 50 above 50, the limit itself in range |
| ContentComponents.ComponentErrorsExactly | RailTix/Controllers/AdminContentController.cs:662-699 | a form draws no error exactly when its type is supported, an image has a URL, a banner a heading, a manual list its event ids and a given limit lies in 1..50 |
| ContentComponents.SourceErrorUnreachable | RailTix/Controllers/AdminContentController.cs:683-687 | the "Source must be query or manual" error can never be added |
| ContentComponents.StoredEventList | RailTix/Controllers/AdminContentController.cs:721-728 | stored event-list settings always have a source and a limit in 1..50, and event ids exactly when the form's were not blank |
| ContentComponents.BuildSettingsJson | RailTix/Controllers/AdminContentController.cs:701-732 | the settings of the form's own type are stored; any type other than Image and Banner stores event-list settings |
| ContentComponents.NormalizeEventListSourceIdempotent | RailTix/Controllers/AdminContentController.cs:821-826 | normalising a normalised source changes nothing |
| ContentComponents.SettingsRoundTrip | RailTix/Controllers/AdminContentController.cs:701-788 | saving a supported form and mapping it back shows the settings entered for its type (event lists as stored), and saving that again stores the same component |
| ContentComponents.StoredEventListIdempotent | RailTix/Controllers/AdminContentController.cs:721-728 | storing stored event-list settings again changes nothing |
| ContentComponents.TrimOrNullIdempotent | RailTix/Controllers/AdminContentController.cs:724-726 | trimming-or-nulling twice gives the same as once |
| Slugs.EnsureUniqueSlug | RailTix/Controllers/AdminContentController.cs:521-537 | the slug returned matches no existing sibling slug ignoring case, and it is the first candidate in the order `first`, `base-2`, `base-3`, … that is free; every earlier candidate is taken (the same loop is `EventsController.EnsureUniqueSlugAsync`, whose first choice is `event` for a blank slug) |
| Slugs.CandidatesDistinct | RailTix/Controllers/AdminContentController.cs:529-534 | two different suffixes give candidates that differ even ignoring case, which is why the suffix loop ends |
| Slugs.CandidateIsSlug | RailTix/Controllers/AdminContentController.cs:533 | a suffixed candidate of a normalised slug is again a non-empty normalised slug |
| PageTree.ParentMap | RailTix/Controllers/AdminContentController.cs:583-587 | the parent link of every page row, the relation the ancestor walk follows |
| PageTree.BuildPathCanonical | RailTix/Controllers/AdminContentController.cs:539-548 | a child's path built from a canonical parent path (or none) and a slug is canonical, and its segments are the parent's segments followed by the slug |
| PageTree.BuildPathUnderRoot | RailTix/Controllers/AdminContentController.cs:541-545 | with no parent, or the homepage's `/` as parent path, the path is `/` followed by the slug |
| PageTree.BuildPathUnderPage | RailTix/Controllers/AdminContentController.cs:541-547 | under any other page the path is the parent's path, `/`, then the slug, one segment longer |
| PageTree.ChildPathCanonical | RailTix/Controllers/AdminContentController.cs:628-637 | the path the cascade gives a non-homepage child, built from its slug or from its normalised custom URL, is canonical |
| PageTree.IsDescendant | RailTix/Controllers/AdminContentController.cs:578-601 | the walk up the parent links from `possibleParentId` answers true exactly when `pageId` is a proper ancestor of it; a missing row ends the walk with false; the walk terminates on an acyclic table |
| PageTree.EditParentChecks | RailTix/Controllers/AdminContentController.cs:209-217 | when the page is not its own new parent and not an ancestor of it, moving the page under the new parent leaves the parent links acyclic |
| PageTree.NextAfterMax | RailTix/Controllers/AdminContentController.cs:605-610 | `(max ?? 0) + 1` in unchecked 32-bit `int` arithmetic: 1 for no positions, otherwise the largest position plus one wrapped into 32 bits; the result is always a 32-bit value |
| PageTree.NextAboveAll | RailTix/Controllers/AdminContentController.cs:605-610 | while every position is below `int.MaxValue`, the next position is above every position and one more than the largest |
| PageTree.NextWrapsAtMax | RailTix/Controllers/AdminContentController.cs:605-610 | a position at `int.MaxValue` makes the next position `int.MinValue`, no greater than any position, so the new row sorts first |
| PageTree.GetNextPosition | RailTix/Controllers/AdminContentController.cs:603-611 | the next position is `(max ?? 0) + 1` over the positions of the parent's children, wrapped as C#'s `int` addition wraps: 1 under a parent without children |
| PageTree.GetNextComponentPosition | RailTix/Controllers/AdminContentController.cs:613-621 | the same over the positions of the components of one page |
| PageTree.CascadeResult | RailTix/Controllers/AdminContentController.cs:623-643 | the table the path cascade leaves keeps every row's key and identity |
| PageTree.CascadeChangesPathsOnly | RailTix/Controllers/AdminContentController.cs:623-643 | the cascade changes nothing but paths, and only below the page it starts from |
| PageTree.UpdateDescendantPaths | RailTix/Controllers/AdminContentController.cs:623-643 | the recursive update gives every descendant the path its nearest chain of parents prescribes: homepages keep theirs, pages with a custom URL take its normalised form, the rest `BuildPath` of their parent's new path |
| PageTree.DeletePageTree | RailTix/Controllers/AdminContentController.cs:645-660 | after the recursive delete, exactly the pages outside the subtree of the page remain, and exactly the components of those pages |
| CmsDatabase.SeedIsValid | RailTix/Data/Migrations/20260202070507_AddCmsPagesAndRoutes.cs:82-94 | the seeded tables (the homepage at `/`, the reserved segments `events` and `account`) satisfy every key and unique index and form a one-page tree |
| CmsDatabase.SeedPageIsWellFormed | RailTix/Data/Migrations/20260202070507_AddCmsPagesAndRoutes.cs:85 | the seeded homepage is well formed: no parent, path `/`, slug `home` |
| CmsDatabase.CmsDb.Seeded | RailTix/Data/Migrations/20260202070507_AddCmsPagesAndRoutes.cs:82-94 | the tables start as the migration seeds them and are valid |
| CmsDatabase.CmsDb.SaveChanges | RailTix/Controllers/AdminContentController.cs:838-850 | the working copy is committed exactly when the save goes through and no primary key, parent key or unique index (`Path`, `(ParentId, Slug)` for non-null parents, the single homepage, the reserved `Segment`) is violated; otherwise the tables are left as they were; the tables stay valid either way |
| PageInvariants.InsertPreservesTree | RailTix/Controllers/AdminContentController.cs:125-140 | inserting a well-formed child under an existing parent at the path its parent gives it keeps the table a tree with consistent paths |
| PageInvariants.InsertRanked | RailTix/Controllers/AdminContentController.cs:131 | the parent links stay acyclic when a new page is added under an existing one |
| PageInvariants.InsertPaths | RailTix/Controllers/AdminContentController.cs:130 | every page keeps the path its parent's path prescribes after the insert |
| PageInvariants.InsertKeepsIndexes | RailTix/Data/Migrations/20260202070507_AddCmsPagesAndRoutes.cs:96-119 | a new non-homepage row with a path no row has and a slug no sibling has violates no index |
| PageInvariants.TableAfterEdit | RailTix/Controllers/AdminContentController.cs:273-285 | the table after an edit has the same keys, holds the edited row, changes nothing else but paths, and is the plain row update when the path did not change |
| PageInvariants.NewPathCanonical | RailTix/Controllers/AdminContentController.cs:628-637 | every path the cascade computes from a canonical root path is canonical |
| PageInvariants.EditPreservesTree | RailTix/Controllers/AdminContentController.cs:270-285 | an acceptable edit, followed by the cascade when the path changed, keeps the table a tree in which every page sits at the path its parent prescribes |
| PageInvariants.ParentMapAfterEdit | RailTix/Controllers/AdminContentController.cs:276 | after the edit only the edited page's parent link has changed |
| PageInvariants.EditInPlaceShape | RailTix/Controllers/AdminContentController.cs:273-280 | an edit that keeps the path keeps every row well formed and every path consistent |
| PageInvariants.CascadeTable | RailTix/Controllers/AdminContentController.cs:282-285 | when the path changed, the table after the edit is the cascade from the edited row |
| PageInvariants.EditCascadeWellFormed | RailTix/Controllers/AdminContentController.cs:282-285 | every row stays well formed across an edit with a cascade |
| PageInvariants.EditCascadePaths | RailTix/Controllers/AdminContentController.cs:282-285 | every row sits at the path its parent prescribes after an edit with a cascade |
| PageInvariants.EditKeepsIndexes | RailTix/Data/Migrations/20260202070507_AddCmsPagesAndRoutes.cs:96-119 | an edit that keeps the homepage flag, points at an existing parent and takes a path no other row has and a slug no other sibling has violates no index |
| PageInvariants.DeletePreserves | RailTix/Controllers/AdminContentController.cs:645-660 | removing a subtree together with its components keeps the tree invariant and every index |
| PageInvariants.DeleteRanked | RailTix/Controllers/AdminContentController.cs:645-660 | the remaining parent links stay acyclic after a subtree is removed |
| PageInvariants.DeletePaths | RailTix/Controllers/AdminContentController.cs:645-660 | the remaining pages keep consistent paths; none of them had a parent inside the removed subtree |
| PageInvariants.DeleteIndexes | RailTix/Data/Migrations/20260202070507_AddCmsPagesAndRoutes.cs:62-79 | the remaining rows violate no index, and no remaining component points at a removed page |
| PageInvariants.StoreComponentKeepsIndexes | RailTix/Controllers/AdminContentController.cs:375-388 | storing a component of an existing page violates no index |
| PageInvariants.RemoveComponentKeepsIndexes | RailTix/Controllers/AdminContentController.cs:452-453 | removing a component violates no index |
| AdminContent.ResolveParent | RailTix/Controllers/AdminContentController.cs:511-519 | no parent for a missing or empty id or an id no row has; otherwise exactly the row with that id |
| AdminContent.BaseSlug | RailTix/Controllers/AdminContentController.cs:90-94 | the normalised slug, or the normalised title when the slug is blank, or `page` when that is blank too; always a non-empty slug |
| AdminContent.CustomUrlOrNull | RailTix/Controllers/AdminContentController.cs:550-558 | null exactly for a blank custom URL; otherwise its normalised path, which is canonical, non-blank and a fixed point of normalisation |
| AdminContent.SiblingSlugsTaken | RailTix/Controllers/AdminContentController.cs:523-527 | the slug list read from the sibling rows (excluding the edited page) contains a slug, ignoring case, exactly when such a sibling has it |
| AdminContent.FirstFreeSlugUnique | RailTix/Controllers/AdminContentController.cs:529-536 | the first free candidate is determined by the table, the parent and the base slug |
| AdminContent.FirstFreeSlugShape | RailTix/Controllers/AdminContentController.cs:529-536 | the first free candidate is a non-empty slug no other sibling has |
| AdminContent.ChildRowShape | RailTix/Controllers/AdminContentController.cs:96-103 | a non-homepage row under an existing parent, with a normalised slug and the custom URL or the built path, is well formed and sits at the path its parent gives it |
| AdminContent.EditRowAcceptable | RailTix/Controllers/AdminContentController.cs:204-251 | when no edit check adds an error, the row the edit builds keeps its id and path, may be written into the tree and has a path no other row has |
| AdminContent.InsertChildValid | RailTix/Controllers/AdminContentController.cs:125-140 | inserting an acceptable child keeps the tree invariant (one rank deeper than its parent) and every index |
| AdminContent.RowsRanked | RailTix/Controllers/AdminContentController.cs:54 | rows read from the table in any order carry the ranks both page views need |
| AdminContent.AdminContentController.constructor | RailTix/Controllers/AdminContentController.cs:34-43 | the controller works over the given tables and reserved-segment service |
| AdminContent.AdminContentController.Pages | RailTix/Controllers/AdminContentController.cs:52-58 | the page list holds every row exactly once and is `BuildTree` over them from the root |
| AdminContent.AdminContentController.PopulateParentOptions | RailTix/Controllers/AdminContentController.cs:476-482 | the parent drop-down is the pre-order walk of the position-ordered tree without the excluded page and its subtree; each option names an existing page and is selected exactly when it is the posted parent |
| AdminContent.AdminContentController.EnsureUniqueSlug | RailTix/Controllers/AdminContentController.cs:521-537 | the result is the first of `base`, `base-2`, … that no other sibling under the parent has, ignoring case |
| AdminContent.AdminContentController.IsPathAllowed | RailTix/Controllers/AdminContentController.cs:560-569 | blank paths and `/` are allowed; any other path is allowed exactly when its top-level segment is not reserved; the service may fill its cache on the way |
| AdminContent.AdminContentController.Create | RailTix/Controllers/AdminContentController.cs:80-148 | a new page gets the resolved parent, the first free slug (the base slug without a parent), the custom URL or built path, the posted position when it is positive, else the next position with its 32-bit wrap; the errors are exactly parent required, URL reserved and URL in use, and with any of them nothing is inserted; otherwise the insert commits exactly when the save goes through and changes only the new row |
| AdminContent.AdminContentController.CreateChecks | RailTix/Controllers/AdminContentController.cs:84-113 | the parent, slug, path and error list `Create` computes before it inserts |
| AdminContent.AdminContentController.InsertChild | RailTix/Controllers/AdminContentController.cs:140-141 | the acceptable child is inserted exactly when the save goes through, and the tables stay valid |
| AdminContent.AdminContentController.Edit | RailTix/Controllers/AdminContentController.cs:191-304 | NotFound exactly for an unknown id; the homepage keeps its slug, `/` and no parent; any other page takes the resolved parent, the first free slug among its new siblings and the custom URL or built path; the errors are own parent, moved under a descendant, parent required, URL reserved and URL in use; with none, the row and (after a path change) its descendants' paths are written and commit exactly when the save goes through and no index is violated, which an edit that keeps the path cannot cause |
| AdminContent.AdminContentController.EditChecks | RailTix/Controllers/AdminContentController.cs:204-251 | the slug, path, row and error list `Edit` computes before it writes |
| AdminContent.AdminContentController.EditTarget | RailTix/Controllers/AdminContentController.cs:225-241 | the homepage keeps its slug and path `/`; any other page takes the first free slug under its new parent and the custom URL or built path |
| AdminContent.AdminContentController.CommitEdit | RailTix/Controllers/AdminContentController.cs:270-287 | the table after the edit (with the cascade when the path changed) is committed exactly when the save goes through and no index is violated |
| AdminContent.AdminContentController.TableAfterEditing | RailTix/Controllers/AdminContentController.cs:273-285 | the working copy is the row update, followed by the path cascade when the path changed |
| AdminContent.AdminContentController.Delete | RailTix/Controllers/AdminContentController.cs:308-325 | NotFound for an unknown id; the homepage is never deleted; any other page goes with its whole subtree and all their components when the save goes through, and the action returns to the page list either way |
| AdminContent.AdminContentController.CreateComponent | RailTix/Controllers/AdminContentController.cs:351-391 | NotFound for an unknown page; a form with errors is shown again; otherwise the component is stored with the posted position when it is positive, else the next position on the page with its 32-bit wrap, when the save goes through, and the action returns to the page |
| AdminContent.AdminContentController.EditComponent | RailTix/Controllers/AdminContentController.cs:410-440 | NotFound unless the component belongs to the page; a valid form replaces its type, settings, position and enabled flag when the save goes through |
| AdminContent.AdminContentController.DeleteComponent | RailTix/Controllers/AdminContentController.cs:444-455 | NotFound unless the component belongs to the page; otherwise it is removed when the save goes through, and the action returns to the page |
| AdminContent.CommitEditFacts | RailTix/Controllers/AdminContentController.cs:270-287 | the table after an acceptable edit is a tree, and an edit that keeps the path keeps every index |
| AdminContent.EditRank | RailTix/Controllers/AdminContentController.cs:209-217 | the parent links after an acceptable edit are acyclic under a bounded rank |
| AdminReservedRoutes.BySegmentIsTotalPreorder | RailTix/Controllers/AdminReservedRoutesController.cs:41 | ordering routes by segment is a total preorder, so the sorted list is well defined up to ties |
| AdminReservedRoutes.SegmentErrors | RailTix/Controllers/AdminReservedRoutesController.cs:63-73 | a posted segment draws no error exactly when binding raised none, the normalised segment is not blank and no other route has it |
| AdminReservedRoutes.AdminReservedRoutesController.constructor | RailTix/Controllers/AdminReservedRoutesController.cs:24-34 | the controller works over the given tables and reserved-segment service |
| AdminReservedRoutes.AdminReservedRoutesController.Index | RailTix/Controllers/AdminReservedRoutesController.cs:37-51 | lists every route exactly once, ordered by segment |
| AdminReservedRoutes.AdminReservedRoutesController.Create | RailTix/Controllers/AdminReservedRoutesController.cs:61-97 | the normalised segment is stored as a new route exactly when it draws no error and the save goes through; then, and only then, the cache is invalidated; otherwise the table and the cache are unchanged |
| AdminReservedRoutes.AdminReservedRoutesController.Edit | RailTix/Controllers/AdminReservedRoutesController.cs:118-155 | NotFound exactly for an unknown id; otherwise the route takes the normalised segment and the active flag exactly when it draws no error and the save goes through, which also invalidates the cache |
| AdminReservedRoutes.AdminReservedRoutesController.Delete | RailTix/Controllers/AdminReservedRoutesController.cs:159-175 | NotFound exactly for an unknown id; otherwise the route is removed and the cache invalidated when the save goes through, and the action redirects to the index either way |
| PageListing.ByPositionTitleIsTotalPreorder | RailTix/Controllers/AdminContentController.cs:461-462 | position then ordinal title is a total preorder |
| PageListing.ByPositionIsTotalPreorder | RailTix/Controllers/AdminContentController.cs:478 | position order is a total preorder |
| PageListing.ChildRows | RailTix/Controllers/AdminContentController.cs:460 | the rows kept are exactly the listed rows under the parent |
| PageListing.Level | RailTix/Controllers/AdminContentController.cs:459-462 | one level is a permutation of the rows under the parent, sorted by position then title |
| PageListing.BuildTreeLevel | RailTix/Controllers/AdminContentController.cs:457-474 | each level of the page list has one item per row under the parent, in level order, each carrying the row's fields and the tree below it |
| PageListing.LevelOrdered | RailTix/Controllers/AdminContentController.cs:461-462 | the items of a level are in position order, ties in ordinal title order |
| PageListing.LevelComplete | RailTix/Controllers/AdminContentController.cs:459-460 | every row under the parent appears in its level of the page list |
| PageListing.ItemsOfShape | RailTix/Controllers/AdminContentController.cs:463-472 | the projection of one level keeps its length and maps each row to its item with its subtree |
| PageListing.Prefix | RailTix/Controllers/AdminContentController.cs:499 | no indentation at the top level; below it `depth * 2` hyphens and a space |
| PageListing.ChildrenInOrder | RailTix/Controllers/AdminContentController.cs:492 | each row under the parent exactly once (a permutation of the `Where` result), sorted by position and then title |
| PageListing.BuildParentOptionsRecursive | RailTix/Controllers/AdminContentController.cs:484-509 | appends, in pre-order, one entry per row under the parent except the excluded one (whose subtree is skipped), each followed by its own subtree one level deeper |
| PageListing.ParentOptions | RailTix/Controllers/AdminContentController.cs:476-482 | the drop-down is the pre-order walk of the page list without the excluded subtree; every entry names a listed page, carries its indented title, and is selected exactly when it is the selected page |
| PageListing.OptionsFollowTree | RailTix/Controllers/AdminContentController.cs:484-509 | the drop-down walk over the rows agrees with the pre-order walk of the page list `BuildTree` builds |
| PageListing.OptionsShape | RailTix/Controllers/AdminContentController.cs:494-505 | no entry is the excluded page; each is selected exactly when it is the selected page, and its text is the indented title of its page |
| Tables.ToList | RailTix/Controllers/AdminContentController.cs:54 | listing a table yields each row exactly once, under distinct keys |
| Tables.ToListMembers | RailTix/Controllers/AdminContentController.cs:54 | a value is in the listing exactly when some row of the table holds it |
| CmsRenderer.ComponentViewOf | RailTix/Services/Cms/CmsPageRenderer.cs:64-86 | a component renders with its own type and only the settings of that type; it fails exactly when its type is image, banner or event list and its settings document is malformed; an event list always gets a list |
| CmsRenderer.BlankEventListSettings | RailTix/Services/Cms/CmsPageRenderer.cs:81 | an event list with blank settings lists as configured with the defaults: source `query`, limit 10 |
| CmsRenderer.ByComponentPositionIsTotalPreorder | RailTix/Services/Cms/CmsPageRenderer.cs:50 | component position order is a total preorder |
| CmsRenderer.ViewsOf | RailTix/Services/Cms/CmsPageRenderer.cs:49-53 | a rendered component list has one view per component |
| CmsRenderer.ViewsOfPrefix | RailTix/Services/Cms/CmsPageRenderer.cs:50-53 | a component that fails makes the whole list fail, whatever follows it |
| CmsRenderer.ViewsOfShape | RailTix/Services/Cms/CmsPageRenderer.cs:49-53 | the list fails exactly when some component fails; otherwise the i-th view is the i-th component's |
| CmsRenderer.EnabledInOrderShape | RailTix/Services/Cms/CmsPageRenderer.cs:50 | the rendered components are exactly the enabled ones, each once, in position order |
| CmsRenderer.PageViewShape | RailTix/Services/Cms/CmsPageRenderer.cs:47-62 | a page fails to render exactly when an enabled supported component has malformed settings; otherwise its view carries the page's title, path and homepage flag and one view per enabled component in position order |
| CmsRenderer.FirstPublishedAt | RailTix/Services/Cms/CmsPageRenderer.cs:29-32 | none exactly when no listed row is published at the path; otherwise a published row at that path |
| CmsRenderer.FirstPublishedHomepage | RailTix/Services/Cms/CmsPageRenderer.cs:39-42 | none exactly when no listed row is the published homepage; otherwise such a row |
| CmsRenderer.CmsPageRenderer.constructor | RailTix/Services/Cms/CmsPageRenderer.cs:20-24 | the renderer reads the given tables |
| CmsRenderer.CmsPageRenderer.LoadComponents | RailTix/Services/Cms/CmsPageRenderer.cs:31 | the rows loaded are exactly the page's components |
| CmsRenderer.CmsPageRenderer.MapComponent | RailTix/Services/Cms/CmsPageRenderer.cs:64-86 | mapping one component gives its view over the current events |
| CmsRenderer.CmsPageRenderer.MapToViewModel | RailTix/Services/Cms/CmsPageRenderer.cs:47-62 | mapping a page gives its page view over the current events |
| CmsRenderer.CmsPageRenderer.GetPageByPath | RailTix/Services/Cms/CmsPageRenderer.cs:26-35 | no page exactly when no published row has the normalised path; otherwise the rendering of such a row with its components |
| CmsRenderer.CmsPageRenderer.GetHomepage | RailTix/Services/Cms/CmsPageRenderer.cs:37-45 | no page exactly when no row is the published homepage; otherwise the rendering of that row with its components |
| EventLists.MapEvents | RailTix/Services/Cms/CmsPageRenderer.cs:157 | one item per listed event |
| EventLists.ParseEventIds | RailTix/Services/Cms/CmsPageRenderer.cs:178-195 | the ids the setting names, as `EventIdsOf` defines them |
| EventLists.ParsedIdsMembers | RailTix/Services/Cms/CmsPageRenderer.cs:186-192 | an id is parsed exactly when some comma-separated token, trimmed, is a GUID naming it |
| EventLists.EventIdsOfShape | RailTix/Services/Cms/CmsPageRenderer.cs:178-195 | a blank setting names nothing; otherwise the ids are exactly the GUIDs among the trimmed tokens, without repeats, in order of first appearance |
| EventLists.LiveLookup | RailTix/Services/Cms/CmsPageRenderer.cs:101-117 | the lookup holds exactly the live events whose id is listed, each under its own id |
| EventLists.ManualEvents | RailTix/Services/Cms/CmsPageRenderer.cs:118-130 | the loop lists the found events in id order and stops when the limit is reached |
| EventLists.FoundShape | RailTix/Services/Cms/CmsPageRenderer.cs:118-124 | the found events are exactly the listed ids that the lookup holds, in the order of the ids |
| EventLists.ByStartTitleIsTotalPreorder | RailTix/Services/Cms/CmsPageRenderer.cs:152-153 | start time then ordinal title is a total preorder |
| EventLists.QueryEventsShape | RailTix/Services/Cms/CmsPageRenderer.cs:136-155 | the query lists as many live events near the location as the limit allows, soonest first; a candidate is left out only when the list is full and every listed event comes no later than it |
| EventLists.BuildEventList | RailTix/Services/Cms/CmsPageRenderer.cs:88-159 | the component view is the normalised source, category, location and limit, and the listed events mapped |
| EventLists.EventListBounds | RailTix/Services/Cms/CmsPageRenderer.cs:88-176 | the source is `manual` or `query`, the limit lies in 1..50, and the list holds at most that many live events of the table |
| EventLists.ManualListShape | RailTix/Services/Cms/CmsPageRenderer.cs:105-133 | in manual mode the list holds live events named by the setting, in the order of the ids, and leaves one out only when it is full |
| EventLists.QueryListShape | RailTix/Services/Cms/CmsPageRenderer.cs:135-158 | in query mode the list holds live events, near the trimmed location when one is given, soonest first |
| EventLists.CategoryIgnored | RailTix/Services/Cms/CmsPageRenderer.cs:146-149 | the category setting does not change which events are listed |
| EventLists.DefaultSettingsList | RailTix/Services/Cms/CmsPageRenderer.cs:81 | missing settings list the first ten live events, soonest first |
| EventStore.EventsDb.Insert | RailTix/Controllers/EventsController.cs:165-175 | the event is appended exactly when the save goes through and no stored event has its id; otherwise the table is unchanged |
| EventAdmin.NewerFirstIsTotalPreorder | RailTix/Controllers/EventsController.cs:53 | newest-first by creation time is a total preorder |
| EventAdmin.IndexOf | RailTix/Controllers/EventsController.cs:56-70 | one list item per visible event |
| EventAdmin.IndexShape | RailTix/Controllers/EventsController.cs:44-70 | the index lists the events newest first; an administrator, or a user without an id, sees every event, anyone else exactly the events they created; each item copies its event's fields |
| EventAdmin.CreateFormTimes | RailTix/Controllers/EventsController.cs:79-81 | the default start is 19:00 on the seventh day after today and the default end three hours later, which passes the date check |
| EventAdmin.DefaultTimeZoneFallbacks | RailTix/Controllers/EventsController.cs:83-88 | the user's time zone when set; otherwise the zone of the user's country and city, or `Pacific/Auckland` when that is unknown or the user has no country |
| EventAdmin.TableZonesNotBlank | RailTix/Controllers/EventsController.cs:86-88 | no zone the location table gives is blank, so a resolved zone is never replaced by the fallback |
| EventAdmin.DefaultCurrencyFallbacks | RailTix/Controllers/EventsController.cs:90-95 | the user's currency when set; otherwise the currency of the user's country, or `NZD` when it is unknown or the user has no country; never blank |
| EventAdmin.DateErrors | RailTix/Controllers/EventsController.cs:180-191 | an error exactly when both times are given and the end is not after the start |
| EventAdmin.DisplayNameShape | RailTix/Controllers/EventsController.cs:210-219 | no name without a user; the trimmed first and last name when either is not blank; otherwise the user's email |
| EventAdmin.CreateErrorsMeaning | RailTix/Controllers/EventsController.cs:121-130 | the form is accepted exactly when binding raised nothing, the dates are in order and the normalised slug (or title) is not blank |
| EventAdmin.SlugBlankIsEmpty | RailTix/Controllers/EventsController.cs:123 | a normalised slug is blank only when it is empty |
| EventAdmin.SlugsOf | RailTix/Controllers/EventsController.cs:196-199 | the slug column of the events, in table order |
| EventAdmin.TakenByEvent | RailTix/Controllers/EventsController.cs:202 | a candidate is taken exactly when some event has that slug ignoring case |
| EventAdmin.NewEventShape | RailTix/Controllers/EventsController.cs:141-163 | the new event is a draft under the given id and slug, owned by the user, with the posted times, the trimmed title and time zone and the upper-cased currency |
| EventAdmin.StoredTrimOrNull | RailTix/Controllers/EventsController.cs:145-159 | an optional text field is stored as null when blank and trimmed otherwise |
| EventAdmin.EventsController.constructor | RailTix/Controllers/EventsController.cs:27-39 | the controller works over the given table |
| EventAdmin.EventsController.Index | RailTix/Controllers/EventsController.cs:41-73 | the model is the index of the table for the user |
| EventAdmin.EventsController.EnsureUniqueEventSlug | RailTix/Controllers/EventsController.cs:193-208 | the slug is free ignoring case among all events, and is the first free one of `event` (for a blank base) or the base, then `base-2`, `base-3`, … |
| EventAdmin.EventsController.Create | RailTix/Controllers/EventsController.cs:113-178 | no user is Unauthorized; a form with errors comes back with the base slug; otherwise a draft event with a free slug is appended exactly when the save goes through, and the table is unchanged otherwise |
| Guids.ParseGuid | RailTix/Services/Cms/CmsPageRenderer.cs:188 | a parsed GUID is a 128-bit value |
| Guids.FormatGuid | RailTix/Controllers/AdminContentController.cs:502 | the written form is 36 characters long |
| Guids.ParseFormatGuid | RailTix/Services/Cms/CmsPageRenderer.cs:188 | every 128-bit id written in the hyphenated form parses back to itself |
| Guids.HexRoundTrip | RailTix/Services/Cms/CmsPageRenderer.cs:188 | reading back the hexadecimal digits of a number gives the number |
| Locations.CountriesOf | RailTix/Services/Location/LocationService.cs:36 | the country column of the city table, in table order |
| Locations.CitiesInMembers | RailTix/Services/Location/LocationService.cs:41-42 | a city is listed for a country exactly when some record of that country, ignoring case, names it |
| Locations.OrdinalLeIsTotalPreorder | RailTix/Services/Location/LocationService.cs:36 | ordinal string order is a total preorder |
| Locations.SortedDistinct | RailTix/Services/Location/LocationService.cs:36 | removing repeats and sorting keeps exactly the original members, once each, in order |
| Locations.GetCountriesShape | RailTix/Services/Location/LocationService.cs:34-37 | the countries are listed once each, sorted, exactly those of the city table |
| Locations.GetCitiesShape | RailTix/Services/Location/LocationService.cs:39-45 | the cities of a country are listed once each, sorted, exactly those of records whose country matches ignoring case; none for an unknown country |
| Locations.CountriesHaveCities | RailTix/Services/Location/LocationService.cs:34-45 | every listed country has at least one city |
| Locations.LookupIgnoreCase | RailTix/Services/Location/LocationService.cs:27-32 | a case-insensitive dictionary lookup finds nothing exactly when no key matches, and otherwise the value of a matching key |
| Locations.FirstRecord | RailTix/Services/Location/LocationService.cs:58-67 | none exactly when no record matches both country and city ignoring case; otherwise a matching record of the table |
| Locations.ResolveTimeZoneIsRecordZone | RailTix/Services/Location/LocationService.cs:56-67 | the time zone is unknown exactly when no record matches, and otherwise is the zone of the record `GetRecord` returns |
| Locations.EqualsIgnoreCaseTrans | RailTix/Services/Location/LocationService.cs:41 | case-insensitive equality is transitive |
| Locations.LookupsIgnoreCase | RailTix/Services/Location/LocationService.cs:39-68 | every lookup gives the same answer for two spellings of a country that differ only in case |
| Locations.LookupAgrees | RailTix/Services/Location/LocationService.cs:49 | keys the comparer cannot tell apart give the same dictionary answer |
| Locations.CitiesInAgrees | RailTix/Services/Location/LocationService.cs:41 | countries the comparer cannot tell apart list the same cities |
| Locations.FirstRecordAgrees | RailTix/Services/Location/LocationService.cs:65-67 | countries the comparer cannot tell apart find the same record |
| Locations.CurrencyOfNewZealand | RailTix/Services/Location/LocationService.cs:30 | New Zealand uses NZD |
| Locations.CurrencyOfAustralia | RailTix/Services/Location/LocationService.cs:31 | Australia uses AUD |
| Locations.CityCurrenciesAgree | RailTix/Services/Location/LocationService.cs:8-32 | the currency of every city record is the one the country table gives its country |
| Locations.CountryCurrencyOfCity | RailTix/Services/Location/LocationService.cs:8-32 | any spelling of a record's country resolves to that record's currency |
| Locations.ResolvedCurrencyIsCode | RailTix/Services/Location/LocationService.cs:47-54 | a resolved currency is NZD or AUD, never blank |
| DateValidation.DaysInMonth | RailTix/wwwroot/js/modules/forms/dateValidation.js:36 | every month of the proleptic Gregorian calendar has 28 to 31 days |
| DateValidation.NextDay | RailTix/wwwroot/js/modules/forms/dateValidation.js:36 | the day after a valid calendar day is a valid calendar day |
| DateValidation.PreviousDay | RailTix/wwwroot/js/modules/forms/dateValidation.js:36 | the day before a valid calendar day is a valid calendar day |
| DateValidation.AddDays | RailTix/wwwroot/js/modules/forms/dateValidation.js:36 | adding any number of days to a valid day gives a valid day |
| DateValidation.NewDate | RailTix/wwwroot/js/modules/forms/dateValidation.js:36 | `new Date(y, m, d, h, mi)` always yields a valid date, carrying out-of-range fields over |
| DateValidation.SetFullYear | RailTix/wwwroot/js/modules/forms/dateValidation.js:145 | `setFullYear` always yields a valid date |
| DateValidation.TypeOf | RailTix/wwwroot/js/modules/forms/dateValidation.js:130 | an input is a date, a datetime-local or another type exactly by its `type` name |
| DateValidation.TruncateFor | RailTix/wwwroot/js/modules/forms/dateValidation.js:72-80 | the clock reduced to whole minutes, and to midnight for a date input, is a valid date |
| DateValidation.ParseInputValue | RailTix/wwwroot/js/modules/forms/dateValidation.js:22-70 | a parsed value is always a valid date |
| DateValidation.TrimJsStart | RailTix/wwwroot/js/modules/forms/dateValidation.js:142 | dropping leading white space never lengthens the text |
| DateValidation.DigitPrefix | RailTix/wwwroot/js/modules/forms/dateValidation.js:142 | the longest leading run of ASCII digits |
| DateValidation.DateInput.constructor | RailTix/wwwroot/js/modules/forms/dateValidation.js:125-155 | a field starts with its type, value and data attributes and with no bounds and no message |
| DateValidation.DateInput.ApplyBounds | RailTix/wwwroot/js/modules/forms/dateValidation.js:125-155 | the bounds are recomputed from the clock, the `maxYears` attribute and the linked field; other input types keep theirs; the message is untouched |
| DateValidation.DateInput.SetMinFromClock | RailTix/wwwroot/js/modules/forms/dateValidation.js:134-140 | `min` is cleared, then set to the formatted current minute or day when the field may not lie in the past |
| DateValidation.DateInput.SetMaxFromClock | RailTix/wwwroot/js/modules/forms/dateValidation.js:135-147 | `max` is cleared, then set to now plus `maxYears` years when that parses to a positive number |
| DateValidation.DateInput.RaiseMin | RailTix/wwwroot/js/modules/forms/dateValidation.js:149-154 | `min` becomes the linked value when `min` is empty or the linked value is greater as a string |
| DateValidation.DateInput.Validate | RailTix/wwwroot/js/modules/forms/dateValidation.js:157-202 | the verdict of the field's checks, with the message they set; the bounds stay |
| DateValidation.Submit | RailTix/wwwroot/js/modules/forms/dateValidation.js:241-248 | the form is valid exactly when every date field passes its checks, and every field ends with its new bounds and message |
| DateValidation.AllValidMeaning | RailTix/wwwroot/js/modules/forms/dateValidation.js:242-247 | the flag built up over the first n fields is the conjunction of their verdicts |
| DateValidation.Process | RailTix/wwwroot/js/modules/forms/dateValidation.js:244-245 | one submit step recomputes the field's bounds, validates it and returns its verdict |
| DateValidation.AddDaysInMonth | RailTix/wwwroot/js/modules/forms/dateValidation.js:36 | days added within a month stay in it; one past its end is the first of the next month |
| DateValidation.AddDaysForwardYear | RailTix/wwwroot/js/modules/forms/dateValidation.js:36 | adding days never moves the year back |
| DateValidation.NewDateKeeps | RailTix/wwwroot/js/modules/forms/dateValidation.js:36-45 | in-range fields outside years 0–99 give exactly that date |
| DateValidation.TwoDigitYearMoves | RailTix/wwwroot/js/modules/forms/dateValidation.js:36-43 | a year from 0 to 99 is read as 1900 onwards, so it never reads back as itself |
| DateValidation.SetFullYearShape | RailTix/wwwroot/js/modules/forms/dateValidation.js:145 | moving to another year keeps month and day, except that 29 February of a year without one becomes 1 March |
| DateValidation.EarlierIsStrictOrder | RailTix/wwwroot/js/modules/forms/dateValidation.js:179 | comparing dates is a strict total order |
| DateValidation.NumeralWidth | RailTix/wwwroot/js/modules/forms/dateValidation.js:9 | the decimal numeral of a number below 10000 has one to four digits |
| DateValidation.PadTwoDigits | RailTix/wwwroot/js/modules/forms/dateValidation.js:4-6 | `pad` of a number below 100 is its two-digit numeral |
| DateValidation.PadKeepsWideNumbers | RailTix/wwwroot/js/modules/forms/dateValidation.js:4-6 | `pad` leaves a numeral of two or more digits alone |
| DateValidation.LongNumeral | RailTix/wwwroot/js/modules/forms/dateValidation.js:4-6 | a number of 10 or more has at least two digits |
| DateValidation.DayTextShape | RailTix/wwwroot/js/modules/forms/dateValidation.js:9-14 | the date text of a four-digit year matches `YYYY-MM-DD` and its fields read back as year, month and day |
| DateValidation.FormatShape | RailTix/wwwroot/js/modules/forms/dateValidation.js:8-20 | the formatted value of a four-digit year matches the pattern of its input type and its fields read back as the date's parts |
| DateValidation.ParseDateMeaning | RailTix/wwwroot/js/modules/forms/dateValidation.js:27-46 | a date value parses exactly when it matches `YYYY-MM-DD` and names a real calendar day outside years 0–99, to that date at midnight |
| DateValidation.ParseDateTimeMeaning | RailTix/wwwroot/js/modules/forms/dateValidation.js:48-69 | a datetime value parses exactly when it matches `YYYY-MM-DDTHH:mm` and names a real minute outside years 0–99, to that date and time |
| DateValidation.RoundTrip | RailTix/wwwroot/js/modules/forms/dateValidation.js:8-70 | formatting a date of a four-digit year and parsing it back gives the date truncated to the input type |
| DateValidation.ShortYearNotReadBack | RailTix/wwwroot/js/modules/forms/dateValidation.js:9-48 | a date before year 1000 formats to fewer than four year digits and is not read back |
| DateValidation.DigitPrefixOf | RailTix/wwwroot/js/modules/forms/dateValidation.js:142 | the digit run of digits followed by a non-digit is those digits |
| DateValidation.ParseIntReadsNumeral | RailTix/wwwroot/js/modules/forms/dateValidation.js:142 | `parseInt` reads a numeral, or a minus sign and a numeral, up to the first non-digit |
| DateValidation.ParseIntSkipsSpace | RailTix/wwwroot/js/modules/forms/dateValidation.js:142-143 | `parseInt` skips leading white space, and the empty text is `NaN` |
| DateValidation.FormatNonEmpty | RailTix/wwwroot/js/modules/forms/dateValidation.js:8-20 | a formatted date is never empty |
| DateValidation.MinIsLater | RailTix/wwwroot/js/modules/forms/dateValidation.js:137-154 | `min` is empty exactly when the field may lie in the past and has no linked value; otherwise it is the current bound or the linked value, and no smaller than either |
| DateValidation.MaxBoundMeaning | RailTix/wwwroot/js/modules/forms/dateValidation.js:142-147 | `max` is set exactly when `maxYears` parses to a positive number, and then is the current day or minute that many years ahead, 29 February becoming 1 March |
| DateValidation.CheckMeaning | RailTix/wwwroot/js/modules/forms/dateValidation.js:157-202 | other input types pass; a date field passes exactly when it is empty, or parses and is not in the past when that is forbidden and is after a parseable linked value; the message is empty exactly when it passes, and names the failed check otherwise |
| StrongPassword.ValidateAsync | RailTix/Services/Security/StrongPasswordValidator.cs:18-40 | the result is the password's validation; the user plays no part |
| StrongPassword.MissingPasswordRequired | RailTix/Services/Security/StrongPasswordValidator.cs:21-25 | a missing or empty password fails with exactly the required error |
| StrongPassword.ErrorsOfMeaning | RailTix/Services/Security/StrongPasswordValidator.cs:27-37 | each check adds its own error exactly when it fails; none appears twice, and the required error never appears for a given password |
| StrongPassword.ErrorsForMeaning | RailTix/Services/Security/StrongPasswordValidator.cs:27-37 | the error list holds each error exactly when its check failed, without repeats |
| StrongPassword.ErrorsForRanked | RailTix/Services/Security/StrongPasswordValidator.cs:28-37 | the errors appear in the order the checks run |
| StrongPassword.AddIfRanked | RailTix/Services/Security/StrongPasswordValidator.cs:28-37 | adding a later check's error keeps the list in check order |
| StrongPassword.DescriptionsDistinct | RailTix/Services/Security/StrongPasswordValidator.cs:23-37 | different errors have different descriptions |
| StrongPassword.ValidationMeaning | RailTix/Services/Security/StrongPasswordValidator.cs:18-40 | the password passes exactly when it is given, not on the denylist in any capitalisation, and has a lowercase and an uppercase letter, a digit and a symbol; a failure carries at least one error |
| StrongPassword.CommonIgnoresCase | RailTix/Services/Security/StrongPasswordValidator.cs:27-28 | the denylist check ignores case |
| PasswordPolicy.RuleOfKey | RailTix/wwwroot/js/modules/account/passwordPolicy.js:18-24 | a `data-rule` key names the rule with that key, and no rule when none has it |
| PasswordPolicy.Utf16Length | RailTix/wwwroot/js/modules/account/passwordPolicy.js:19 | the UTF-16 length is at least the number of characters |
| PasswordPolicy.RuleItem.constructor | RailTix/wwwroot/js/modules/account/passwordPolicy.js:27-29 | a checklist item starts with its class list |
| PasswordPolicy.Update | RailTix/wwwroot/js/modules/account/passwordPolicy.js:31-39 | every item whose key names a rule ends marked by that rule on the current value; other items are untouched |
| PasswordPolicy.MarkedExactlyOne | RailTix/wwwroot/js/modules/account/passwordPolicy.js:37-38 | a marked item carries exactly one of `ok` and `bad`, the one the rule's result names, and keeps its other classes |
| PasswordPolicy.MissingValueFailsAll | RailTix/wwwroot/js/modules/account/passwordPolicy.js:32 | a missing value is the empty string and fails every rule |
| PasswordPolicy.LenCountsCharacters | RailTix/wwwroot/js/modules/account/passwordPolicy.js:19 | without characters beyond the basic multilingual plane the length rule counts characters |
| PasswordPolicy.BmpLength | RailTix/wwwroot/js/modules/account/passwordPolicy.js:19 | such a text has as many UTF-16 units as characters |
| PasswordPolicy.ClassesMatchServer | RailTix/wwwroot/js/modules/account/passwordPolicy.js:20-22 | the letter and digit rules are the server's checks |
| PasswordPolicy.SymbolMatchesServer | RailTix/wwwroot/js/modules/account/passwordPolicy.js:23 | the symbol rule is the server's except on U+0085 and U+FEFF, which the two regex dialects class differently |
| PasswordPolicy.SymbolDialectsDiffer | RailTix/wwwroot/js/modules/account/passwordPolicy.js:23 | U+FEFF is a symbol only to the server, U+0085 only to the checklist |
| PasswordPolicy.ServerAcceptedPassesChecklist | RailTix/wwwroot/js/modules/account/passwordPolicy.js:18-24 | a password the server accepts passes every checklist rule but perhaps the length, when it holds no U+FEFF |
| StripeStatus.HasStripeAccountId | RailTix/Models/ViewModels/Account/StripeConnectionStatusViewModel.cs:18 | an account id is present exactly when it is given and holds a character other than white space |
| StripeStatus.StateLabel | RailTix/Models/ViewModels/Account/StripeConnectionStatusViewModel.cs:21-37 | the label is one of the four states |
| StripeStatus.StateLabelMeaning | RailTix/Models/ViewModels/Account/StripeConnectionStatusViewModel.cs:19-37 | not configured exactly when Stripe is not configured; not connected exactly when configured without an account id; connected exactly when both charges and payouts are enabled too; setup incomplete otherwise |
| StripeStatus.StateLabelIgnoresDetails | RailTix/Models/ViewModels/Account/StripeConnectionStatusViewModel.cs:21-37 | the label depends only on the configuration, the presence of an id and the two capability flags |
| StripeStatus.StateLabelExamples | RailTix/Models/ViewModels/Account/StripeConnectionStatusViewModel.cs:25-35 | an unconfigured status, a blank id and an account with charges but no payouts give their labels |
| AccountController.RolesMeaning | RailTix/Controllers/AccountController.cs:576-584 | an admin may manage Stripe and uses the platform account; an event manager who is not an admin manages Stripe on their own account; anyone else may not |
| AccountController.EnvironmentLabel | RailTix/Controllers/AccountController.cs:586-604 | the label is one of four |
| AccountController.EnvironmentLabelMeaning | RailTix/Controllers/AccountController.cs:586-604 | not configured exactly when the key is missing or blank; live or test exactly by the key's prefix; unknown otherwise |
| AccountController.PlatformDashboardUrl | RailTix/Controllers/AccountController.cs:606-611 | the live dashboard exactly for a live key, the test dashboard otherwise |
| AccountController.DashboardOfKey | RailTix/Controllers/AccountController.cs:593-611 | the live dashboard is chosen exactly when the key starts with `sk_live_` |
| AccountController.RedirectToLocal | RailTix/Controllers/AccountController.cs:378-385 | a redirect goes to the given URL only when it is local; anything else goes to the home page |
| AccountController.RedirectToLocalMeaning | RailTix/Controllers/AccountController.cs:378-385 | the redirect is taken exactly for a non-empty local URL, which starts with `/` or `~/` and not with `//` or `/\` |
| AccountController.LocalUrlExamples | RailTix/Controllers/AccountController.cs:380 | paths on the site are local; protocol-relative, backslash and absolute URLs and the empty string are not |
| AccountController.PaymentGate | RailTix/Controllers/AccountController.cs:402-410 | the gate answers either with a login redirect back to the payment page or with a refusal |
| AccountController.PaymentGateMeaning | RailTix/Controllers/AccountController.cs:402-410 | an anonymous user is sent to log in, a user who may not manage Stripe is refused, and exactly the others pass, admins among them |
| AccountController.RegisterCurrency | RailTix/Controllers/AccountController.cs:184 | the resolved currency, or NZD when none resolves |
| AccountController.RegisterTimeZone | RailTix/Controllers/AccountController.cs:185 | the resolved time zone, or Pacific/Auckland when none resolves |
| AccountController.RegisterCurrencyMeaning | RailTix/Controllers/AccountController.cs:184 | the currency is NZD or AUD, and is the currency of any known city in that country |
| AccountController.RegisterTimeZoneMeaning | RailTix/Controllers/AccountController.cs:185 | the time zone is the default or a known city's; an unknown city gets the default and a known one its own |

## Left out

- Entity Framework and SQL Server are stand-ins.
  - Tables are maps; `SaveChangesAsync` is a commit that may fail.
  - Equality in queries (`r.Segment == segment`, path and slug lookups) is
    ordinal, and `EF.Functions.Like` is case-sensitive substring containment.
    The database collation is not modelled. Nor are the `LIKE` wildcards: a
    `%`, `_` or `[...]` in the visitor's location text matches as a pattern
    in `CmsPageRenderer.cs:140-143`, but the model reads it literally.
  - `OrderBy`/`ThenBy` on strings is ordinal, not culture-aware. This affects
    page titles, reserved segments, countries, cities and event titles.
  - The order in which the database returns unordered rows is left
    unspecified.
- The database's cascade-delete foreign key is not modelled. Components are
  removed explicitly, as the controller does.
- Column lengths (`StringLength`, `maxLength`) and other data-annotation checks
  are not modelled. The exception is the `[Required]` event start and end.
- Positions are unbounded integers in the model's row types. The form
  binder and the `int` columns only ever hold 32-bit values, and the model
  does not state that bound as an invariant. The one computation that
  overflows, `(max ?? 0) + 1` in the next-position queries, wraps as
  unchecked C# `int` addition does (`Wrap32`).
- Timestamps (`CreatedAt`, `UpdatedAt`) are not modelled. The event index
  order takes `CreatedAt` as a field of the row.
- The 30-minute TTL of the reserved-route cache is not modelled. An entry stays
  until it is invalidated.
- Unicode is not modelled:
  - `char.IsLetterOrDigit`, `ToLowerInvariant`, `ToUpperInvariant` and .NET
    `\d` are restricted to ASCII.
  - `char.IsWhiteSpace` is the ASCII white-space set.
  - The two regex dialects' `\s` classes are modelled in full, to compare them.
- `String.StartsWith(string)` without a comparison argument is culture-sensitive
  in .NET. It is modelled as ordinal.
- `Guid.TryParse`: the `X` format and surrounding white space are not modelled.
- Guids.ParseGuid: its ensures only bounds the value. What it parses is given
  by the partner lemma `ParseFormatGuid`.
- `System.Text.Json` is not modelled. Settings are records, and a settings
  document is blank, malformed or a record.
- Component types other than `Image`, `Banner` and `EventList` render nothing.
  Their settings are not modelled.
- `LocationService.FindNearest` and `Haversine` are left out, because they use
  floating-point trigonometry.
- `ApplicationUser` is not modelled beyond the fields the modelled code reads.
- These `AccountController` parts are framework calls and I/O, and are left
  out:
  - the Stripe API calls;
  - `GetUserAsync` returning null;
  - reCAPTCHA, e-mail, sign-in and Identity.
- `Url.IsLocalUrl` is written out as the framework's rule.
- `StripeConnectRefresh` has no role gate in the source, so it has none in the
  model.
- Final view re-population is not modelled. This covers component lists and
  parent options after an error on `Create` and `Edit`, and Razor views in
  general.
- JavaScript `Date` is a proleptic Gregorian calendar without time zones or
  daylight saving. It has no range limit, and seconds and milliseconds are
  not modelled. The current time is a parameter.
- `resolveLinkedField` is not modelled. The linked field is given to the model
  directly, because the selector lookup is DOM code.
- `setFieldMessage` is modelled only as the message text. The span's classes
  and `findValidationMessageElement` are DOM code.
- Also DOM code and left out:
  - `initFormDateValidation` and the refresh wiring;
  - `preventDefault`, `focus` and `reportValidity`;
  - the `instanceof` check.
- The `passwordPolicy.js` selectors and the building of the checklist
  elements are DOM code, and are left out.
- JavaScript string comparison of UTF-16 code units is modelled as comparison
  of characters.
- `async`/`await` only waits on I/O. Everything is sequential.
