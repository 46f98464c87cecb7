# Canal & River Trust integration — verified model

This project models the core of a Home Assistant integration that reads the Canal & River Trust
stoppage feed. An API client fetches closures and stoppages. A data update coordinator filters them
by the user's options. Two entity platforms, a device tracker and a geo-location platform, turn the
located notices into entities. Text helpers clean feed text, extract waterway names, classify
issues and word their durations.

The model is written in Dafny, one module per source file plus shared helpers:

- `Wrappers`: `Option` and `Result`.
- `Ascii`: the Python string built-ins the code uses, over ASCII (`lower`, `isspace`, `isalnum`,
  `strip`, `in`, decimal printing).
- `Seqs`: list-comprehension filtering and `enumerate` positions, with subsequence lemmas.
- `Feed`: the data model. `Field<T>` is one key of a JSON dict: `Absent`, `Null` or `Val(v)`. This
  keeps `dict.get(key, default)` exact: a present `null` is not replaced by the default.
- `Const`, `Api`, `Coordinator`, `Utils`, `GeoJson`, `DeviceTracker`, `GeoLocation`.
- `GeoJson` holds `_extract_coordinates`, which both entity files define identically.
- `Entity` holds the id, icon and attribute logic the two entity classes share.

Other modelling choices:

- Coordinates have an opaque type parameter, because only their selection and order matter.
- Each entity is a class: the fields set once in `__init__` are `const`, and the notice that
  `async_update` rebinds is the one `var`.
- The coordinator's location filter is a method with a loop, like the Python code.
- The filtering and text helpers are functions, as in the Python code.

Some consequences of the code that the model proves:

- The client's dict has `closures`, `stoppages` and `last_updated` but never a `notices` key. Both
  entity platforms read `notices`, so after a real refresh neither platform creates an entity
  (`DeviceTracker.NoTrackersFromFetchedData`, `GeoLocation.NoEventsFromFetchedData`).
- `api.py` imports `CLOSURES_ENDPOINT`, which `const.py` does not define
  (`Api.ClosuresEndpointUndefined`). The model treats the closures fetch as if the name existed.

Some further facts about the code that the model follows:

- Features carry their record under `attributes` (`api.py:34`).
- The geometry of a feature is never attached to the record, so a fetched notice has no `geometry`.
- A feature without `attributes` does not get skipped. The comprehension raises `KeyError`, the
  handler catches it, and the whole list becomes empty.
- The query parameters in `const.py` have no `start`/`end` dates.

## Model

| member | source | states |
|---|---|---|
| Feed.GetOr | custom_components/canal_river_trust/geo_location.py:79 | `dict.get(key, default)`: a missing key gives the default, a present `null` gives `None` (so a later `.lower()` raises), a value gives itself |
| Feed.IdOr0 | custom_components/canal_river_trust/coordinator.py:121 | `get("reasonId", 0)` compared with integers: a present integer is itself, a missing or `null` id acts as 0 |
| Feed.NoticesOf | custom_components/canal_river_trust/device_tracker.py:31 | `data.get("notices", [])`: the list when the key is there, empty otherwise |
| Feed.CurrentNotices | custom_components/canal_river_trust/device_tracker.py:30-31 | no data (or empty data) gives no notices; otherwise the `notices` entry or `[]` |
| Const.FixedQuery | custom_components/canal_river_trust/const.py:21-25 | the query sends `consult=false`, `geometry=point` and, as `fields`, the ten field names joined by commas, in order |
| Const.TypeName | custom_components/canal_river_trust/const.py:42-47 | type ids 1-4 map to Stoppage, Closure, Restriction, Advisory; any other or missing id is exactly the `Unknown` case |
| Const.ReasonName | custom_components/canal_river_trust/const.py:50-57 | reason ids 1-6 map to Maintenance, Lock Works, Bridge Works, Emergency, Water Level, Vegetation; every other id is `Unknown` |
| Const.ReasonNamesDistinct | custom_components/canal_river_trust/const.py:50-57 | the reason table is injective: two ids with the same name are the same id |
| Api.AttributesOf | custom_components/canal_river_trust/api.py:34 | `[feature["attributes"] for feature in ...]` succeeds exactly when every feature has attributes, and then keeps their order and count |
| Api.Features | custom_components/canal_river_trust/api.py:31-35 | a feature list comes only from a 200 response whose JSON has a `features` list, and is that list; any other status, a timeout or a client error gives none |
| Api.FetchNotices | custom_components/canal_river_trust/api.py:23-44 | a timeout, a client error, a non-200 status, a body without `features` or a feature without `attributes` all give `[]`; otherwise the attributes of every feature |
| Api.NonOkStatusIsEmpty | custom_components/canal_river_trust/api.py:31-38 | any status other than 200 gives the empty list whatever the body |
| Api.MissingAttributesEmptiesAll | custom_components/canal_river_trust/api.py:34-44 | one feature without `attributes` empties the whole list (the `KeyError` is caught), not just that feature |
| Api.GetAllData | custom_components/canal_river_trust/api.py:69-91 | the dict has both lists (an exception from either fetch becomes `[]`), `last_updated` from the clock, and no `notices` key |
| Api.FetchAll | custom_components/canal_river_trust/api.py:69-91 | a refresh holds exactly the two fetch results, the timestamp and no `notices` key |
| Api.ClosuresEndpointUndefined | custom_components/canal_river_trust/api.py:11 | `CLOSURES_ENDPOINT` is the one imported name that `const.py` does not define |
| Coordinator.UpdateIntervalMinutes | custom_components/canal_river_trust/coordinator.py:34-36 | the refresh interval is the option when set, 240 minutes otherwise |
| Coordinator.MatchesLocationFilter | custom_components/canal_river_trust/coordinator.py:106-116 | the loop over title, region and waterways returns true exactly when some present, non-empty field contains the filter, ignoring case |
| Coordinator.IsPlanned | custom_components/canal_river_trust/coordinator.py:118-122 | a stoppage is planned exactly when its `reasonId` is 1 or 2; a missing or `null` id is not (for the meaning of those ids see `PlannedIsMaintenanceOrLockWorks`) |
| Coordinator.IsEmergency | custom_components/canal_river_trust/coordinator.py:124-128 | a closure is an emergency exactly when its `reasonId` is 4 (see `EmergencyIsEmergencyReason`) |
| Coordinator.IncludePlanned | custom_components/canal_river_trust/coordinator.py:89 | planned stoppages are kept unless the option is set to false; unset means true |
| Coordinator.IncludeEmergency | custom_components/canal_river_trust/coordinator.py:90 | emergency closures are kept unless the option is set to false; unset means true |
| Coordinator.LocationStep | custom_components/canal_river_trust/coordinator.py:78-86 | the location step reads `closures` first: without it the step fails with `KeyError('closures')`, with it but without `stoppages` with `KeyError('stoppages')`, with both it succeeds and leaves `last_updated` and `notices` alone |
| Coordinator.PlannedStep | custom_components/canal_river_trust/coordinator.py:92-96 | the planned step fails exactly when `stoppages` is missing, with `KeyError('stoppages')`, and otherwise changes only `stoppages` |
| Coordinator.EmergencyStep | custom_components/canal_river_trust/coordinator.py:98-102 | the emergency step fails exactly when `closures` is missing, with `KeyError('closures')`, and otherwise changes only `closures` |
| Coordinator.NoLocationFieldsNeverMatch | custom_components/canal_river_trust/coordinator.py:111-116 | an item with no non-empty location field never matches |
| Coordinator.TitleMatchesItsOwnCase | custom_components/canal_river_trust/coordinator.py:109-113 | an item matches its own title, in that spelling or lowered |
| Coordinator.PlannedIsMaintenanceOrLockWorks | custom_components/canal_river_trust/coordinator.py:118-122 | planned (reason 1 or 2) is exactly a reason named Maintenance or Lock Works |
| Coordinator.EmergencyIsEmergencyReason | custom_components/canal_river_trust/coordinator.py:124-128 | emergency (reason 4) is exactly a reason named Emergency |
| Coordinator.ApplyFilters | custom_components/canal_river_trust/coordinator.py:72-104 | filtering fails exactly when an enabled step indexes a missing list; on success only `closures` and `stoppages` may change and neither appears or disappears |
| Coordinator.ApplyFiltersLists | custom_components/canal_river_trust/coordinator.py:74-102 | each output list is its input list put through exactly the enabled conditions for that list, in source order |
| Coordinator.ClosuresThroughKeeps | custom_components/canal_river_trust/coordinator.py:78-102 | the closures keep their order, and a closure stays exactly when it passes the location condition (if set) and is not an emergency (if emergencies are excluded) |
| Coordinator.StoppagesThroughKeeps | custom_components/canal_river_trust/coordinator.py:78-96 | the stoppages keep their order, and a stoppage stays exactly when it passes the location condition (if set) and is not planned (if planned ones are excluded) |
| Coordinator.ApplyFiltersKeeps | custom_components/canal_river_trust/coordinator.py:72-104 | for the whole dict: both lists are subsequences of the input lists, with membership exactly as the enabled conditions say |
| Coordinator.NoFiltersPassThrough | custom_components/canal_river_trust/coordinator.py:74-104 | with no filter enabled the data comes back unchanged, even without the two lists |
| Coordinator.UnsetOptionsIncludeAll | custom_components/canal_river_trust/coordinator.py:89-90 | unset type options include both kinds, so only a location filter can remove anything |
| Coordinator.PlannedRemovesExactly | custom_components/canal_river_trust/coordinator.py:92-96 | excluding planned removes exactly the planned stoppages (their count) and leaves closures alone |
| Coordinator.EmergencyRemovesExactly | custom_components/canal_river_trust/coordinator.py:98-102 | excluding emergencies removes exactly the emergency closures (their count) and leaves stoppages alone |
| Coordinator.ApplyFiltersIdempotent | custom_components/canal_river_trust/coordinator.py:72-104 | filtering already filtered data with the same options changes nothing |
| Coordinator.UpdateData | custom_components/canal_river_trust/coordinator.py:45-70 | a fetch error is wrapped in `UpdateFailed`; with fetched data the refresh returns exactly what `ApplyFilters` returns, its `KeyError` wrapped in `UpdateFailed`, and it succeeds exactly when the needed lists are present |
| Coordinator.UpdateDataKeeps | custom_components/canal_river_trust/coordinator.py:45-70 | a successful refresh holds, as ordered sub-lists, exactly the fetched closures and stoppages that pass every enabled condition, with the fetch time kept |
| Coordinator.MissingClosuresFails | custom_components/canal_river_trust/coordinator.py:78-80 | a location filter on data without `closures` fails the cycle with a `KeyError` |
| Coordinator.FetchedDataFilters | custom_components/canal_river_trust/coordinator.py:49-52 | filtering the client's dict never fails, and the result still has no `notices` key |
| GeoJson.CandidateCoordinates | custom_components/canal_river_trust/device_tracker.py:47-53 | a Point offers its own coordinates, a collection the coordinates of its first member if that is a Point, anything else none |
| GeoJson.ExtractCoordinates | custom_components/canal_river_trust/device_tracker.py:42-59 | a missing or `null` geometry gives none; a pair is returned exactly when the candidate list has two or more entries, as (second, first) |
| GeoJson.ExtractPointAt | custom_components/canal_river_trust/device_tracker.py:55-57 | round trip: a Point written longitude first gives back (latitude, longitude) |
| GeoJson.ExtraCoordinatesIgnored | custom_components/canal_river_trust/device_tracker.py:55-57 | entries after the second (an altitude, say) do not change the pair |
| GeoJson.CollectionUsesFirstMember | custom_components/canal_river_trust/device_tracker.py:48-51 | a collection reads only its first member |
| GeoJson.NestedCollectionIsNone | custom_components/canal_river_trust/device_tracker.py:48-51 | a collection whose first member is itself a collection gives none |
| Entity.PyText | custom_components/canal_river_trust/device_tracker.py:82 | an f-string renders a string as itself and `None` as `None` |
| Entity.SafeChar | custom_components/canal_river_trust/device_tracker.py:78-79 | an upper-case letter is lowered, space and `-` become `_`, lower-case letters, digits and `_` are kept, and every other character is dropped; what is kept is an id character |
| Entity.Sanitise | custom_components/canal_river_trust/device_tracker.py:78-79 | bounds only: the sanitised text is no longer than its input and holds only id characters (the mapping itself is stated by `Entity.SanitiseCons`) |
| Entity.SanitiseCons | custom_components/canal_river_trust/device_tracker.py:78-79 | the first character goes through `SafeChar` and lands ahead of the sanitised rest, so every character is mapped in order |
| Entity.SanitiseIdChars | custom_components/canal_river_trust/device_tracker.py:78-79 | text made of id characters is its own sanitised form |
| Entity.SanitiseAppend | custom_components/canal_river_trust/device_tracker.py:78-79 | since the sanitiser maps each character on its own, sanitising a concatenation is the concatenation of the sanitised parts |
| Entity.SafeId | custom_components/canal_river_trust/device_tracker.py:78-79 | the safe id is the first 50 characters of the sanitised text (all of it when shorter), all id characters |
| Entity.SafeIdKeepsSafe | custom_components/canal_river_trust/device_tracker.py:78-79 | an id already safe and at most 50 long is kept as is |
| Entity.SafeIdIdempotent | custom_components/canal_river_trust/device_tracker.py:78-79 | making a safe id safe again changes nothing |
| Entity.SafeIdExample | custom_components/canal_river_trust/device_tracker.py:78-79 | `Lock 5-A` becomes `lock_5_a` |
| Entity.Icon | custom_components/canal_river_trust/device_tracker.py:85-89 | the icon is `mdi:lock-alert` exactly for type 2, `mdi:construction` otherwise |
| Entity.IconMarksClosures | custom_components/canal_river_trust/device_tracker.py:85-89 | the lock icon appears exactly when the type table names the notice a Closure |
| Entity.NoticeAttributes | custom_components/canal_river_trust/device_tracker.py:125-139 | title, region, waterways and state are the stored text, `None` when stored as `null` and `Unknown` when missing; the type and reason names are the table lookups, `Unknown` exactly outside the tables; dates and programme id pass through; `source` is as given |
| Entity.AttributesAgreeWithIcon | custom_components/canal_river_trust/device_tracker.py:85-89 | the attributes name a notice a closure exactly when the entity shows the lock icon |
| DeviceTracker.NoticeId | custom_components/canal_river_trust/device_tracker.py:75 | `get("id", get("title", "unknown"))`: the id when present, else the title, else `unknown`; a `null` at either level is `None` |
| Entity.PyStr | custom_components/canal_river_trust/device_tracker.py:78 | `str()` of a notice id: `None` for a null, the text itself for a string, the decimal digits for an integer |
| DeviceTracker.TrackerUniqueId | custom_components/canal_river_trust/device_tracker.py:78-81 | the unique id starts with the entry id and `_`, ends in `_location`, and the safe form of the printed notice id reads back out from between them |
| DeviceTracker.TrackerUniqueIdsCollide | custom_components/canal_river_trust/device_tracker.py:78-81 | two trackers of one entry share a unique id exactly when their notice ids sanitise to the same safe id |
| DeviceTracker.TrackedNotices | custom_components/canal_river_trust/device_tracker.py:30-35 | every notice that gets a tracker is one of the current notices and has extractable coordinates, and there are no more of them than notices (order and completeness are in `TrackedNoticesAreLocated`) |
| DeviceTracker.TrackedNoticesAreLocated | custom_components/canal_river_trust/device_tracker.py:30-35 | trackers are made for exactly the notices whose coordinates extract, in list order, one each |
| DeviceTracker.NoTrackersFromFetchedData | custom_components/canal_river_trust/device_tracker.py:30-35 | after a real refresh there is no `notices` key, so setup creates no tracker |
| DeviceTracker.FirstWithId | custom_components/canal_river_trust/device_tracker.py:152-156 | the search finds the first notice whose id equals the tracker's, or reports that none does |
| DeviceTracker.Rebound | custom_components/canal_river_trust/device_tracker.py:149-156 | with no current notice of the tracked id the tracker keeps its notice; otherwise it takes a current notice that has that id |
| DeviceTracker.ReboundKeepsId | custom_components/canal_river_trust/device_tracker.py:146-156 | an update never changes which notice id the tracker follows |
| DeviceTracker.LocationTracker.constructor | custom_components/canal_river_trust/device_tracker.py:65-89 | the tracker stores the notice, its id, unique id, `CRT <title>` name and icon |
| DeviceTracker.LocationTracker.Latitude | custom_components/canal_river_trust/device_tracker.py:108-112 | latitude is present exactly when coordinates extract, and is the first of the pair |
| DeviceTracker.LocationTracker.Longitude | custom_components/canal_river_trust/device_tracker.py:114-118 | longitude is present exactly when coordinates extract, and is the second of the pair |
| DeviceTracker.LocationTracker.ExtraStateAttributes | custom_components/canal_river_trust/device_tracker.py:125-139 | the attributes are the notice attributes, with no `source` entry |
| DeviceTracker.LocationTracker.Update | custom_components/canal_river_trust/device_tracker.py:146-156 | the tracker takes the first current notice with its id, and keeps its notice when there is none or no data |
| DeviceTracker.SetupEntry | custom_components/canal_river_trust/device_tracker.py:19-39 | one fresh tracker per located notice, in list order, each built for that notice: its id, unique id, name and icon are the ones `__init__` derives |
| GeoLocation.GeoTitle | custom_components/canal_river_trust/geo_location.py:79 | the title, or `notice_<index>` when it is missing; `null` is the case where `.lower()` raises |
| GeoLocation.GeoUniqueId | custom_components/canal_river_trust/geo_location.py:83 | `<entry>_geo_<safe title>_<index>`; what it guarantees, distinct ids for distinct positions, is `GeoUniqueIdsDistinct` |
| GeoLocation.GeoUniqueIdsDistinct | custom_components/canal_river_trust/geo_location.py:83 | events at different positions never share a unique id, whatever their titles |
| GeoLocation.LocatedPositions | custom_components/canal_river_trust/geo_location.py:30-35 | the positions that get an event; that they are increasing, exactly the located ones and the tracker platform's notices is `LocatedPositionsSelect` |
| GeoLocation.LocatedPositionsSelect | custom_components/canal_river_trust/geo_location.py:30-35 | the stored indices are strictly increasing, are exactly the located positions, and pick the same notices as the tracker platform |
| GeoLocation.GeolocationEvent.constructor | custom_components/canal_river_trust/geo_location.py:65-91 | the event stores notice and index, the unique id from title and index, `CRT <title>` and the icon |
| GeoLocation.GeolocationEvent.Latitude | custom_components/canal_river_trust/geo_location.py:105-109 | latitude is present exactly when coordinates extract, and is the first of the pair |
| GeoLocation.GeolocationEvent.Longitude | custom_components/canal_river_trust/geo_location.py:111-115 | longitude is present exactly when coordinates extract, and is the second of the pair |
| GeoLocation.GeolocationEvent.Distance | custom_components/canal_river_trust/geo_location.py:117-122 | the distance is always unknown |
| GeoLocation.GeolocationEvent.ExtraStateAttributes | custom_components/canal_river_trust/geo_location.py:124-139 | the notice attributes plus `source` set to the integration's domain |
| GeoLocation.GeolocationEvent.Update | custom_components/canal_river_trust/geo_location.py:146-152 | the event takes whatever notice is now at its index, and keeps its notice when the list is shorter |
| GeoLocation.FirstNullTitle | custom_components/canal_river_trust/geo_location.py:79-80 | a located position, from the start point on, whose title is `null`, so that building its event in the setup loop raises (the first, by `FirstNullTitleIsFirst`) |
| GeoLocation.FirstNullTitleIsFirst | custom_components/canal_river_trust/geo_location.py:79-80 | the search finds the first located notice whose title is `null`, or reports that no located notice has one |
| GeoLocation.SetupEntry | custom_components/canal_river_trust/geo_location.py:19-39 | setup fails exactly when some located notice has a `null` title (naming the first); otherwise one fresh event per located position, in order, each built for the notice at its position with the unique id, name and icon `__init__` derives, and no two events share a unique id |
| GeoLocation.NoEventsFromFetchedData | custom_components/canal_river_trust/geo_location.py:30-35 | after a real refresh there are no notices, so no event is created |
| Utils.TagAt | custom_components/canal_river_trust/utils.py:49 | a tag match at the front is `<`, at least one non-`>` character, then the first `>`; `<>` and an unclosed `<` are not tags |
| Utils.StripTags | custom_components/canal_river_trust/utils.py:49 | bounds only: deleting tags never lengthens the text or brings in a character that was not there (what is kept and what is deleted is stated by `StripTagsKeepsHead`, `StripTagsKeepsPlain`, `StripTagsDropsTag` and `StripTagsSkipsMatch`) |
| Utils.StripTagsKeepsHead | custom_components/canal_river_trust/utils.py:49 | a character where no tag matches, a lone `<` included, is kept, ahead of whatever the rest becomes |
| Utils.StripTagsKeepsPlain | custom_components/canal_river_trust/utils.py:49 | text without `<` is kept unchanged, ahead of whatever the rest becomes |
| Utils.StripTagsDropsTag | custom_components/canal_river_trust/utils.py:49 | a whole `<...>` tag is deleted, whatever follows it |
| Utils.StripTagsSkipsMatch | custom_components/canal_river_trust/utils.py:49 | a tag match at the front is deleted and the scan goes on right after it |
| Utils.StripTagsTagFree | custom_components/canal_river_trust/utils.py:49 | after one pass no tag remains, even where deletions bring characters together |
| Utils.StripTagsOfTagFree | custom_components/canal_river_trust/utils.py:49 | text without tags is unchanged |
| Utils.StripTagsIdempotent | custom_components/canal_river_trust/utils.py:49 | deleting tags twice is the same as once |
| Utils.Collapse | custom_components/canal_river_trust/utils.py:52 | empty text stays empty; the result starts with the first character, or with one space when that is whitespace; only characters of the text and spaces appear (how each run and each other character maps is stated by `CollapseRunStep`, `CollapseKeepStep` and `CollapseJoin`) |
| Utils.CollapseRunStep | custom_components/canal_river_trust/utils.py:52 | a whitespace run at the front becomes one space followed by the collapse of the rest |
| Utils.CollapseKeepStep | custom_components/canal_river_trust/utils.py:52 | any other first character is kept, followed by the collapse of the rest |
| Utils.CollapseJoin | custom_components/canal_river_trust/utils.py:52 | a whitespace run between other characters becomes exactly one space, the two sides collapsing independently |
| Utils.CollapseShape | custom_components/canal_river_trust/utils.py:52 | after collapsing the only whitespace is single spaces, never two in a row |
| Utils.CollapseKeepsText | custom_components/canal_river_trust/utils.py:52 | collapsing keeps every character that is not whitespace, in order |
| Utils.CollapseStripNormalised | custom_components/canal_river_trust/utils.py:52 | collapsing and stripping always gives single inner spaces and no edge whitespace |
| Utils.CollapseOfNormalised | custom_components/canal_river_trust/utils.py:52 | text with only single spaces is its own collapse |
| Utils.Replace | custom_components/canal_river_trust/utils.py:55-58 | bounds only: replacement brings in only characters of the text or of the replacement (what it does is stated by the three lemmas below) |
| Utils.ReplaceAtMatch | custom_components/canal_river_trust/utils.py:55-58 | an occurrence at the front becomes the replacement and the scan goes on after it |
| Utils.ReplaceSkipsNonMatch | custom_components/canal_river_trust/utils.py:55-58 | where no occurrence starts, the character is kept and the scan moves on by one |
| Utils.ReplaceKeepsPlain | custom_components/canal_river_trust/utils.py:55-58 | text without the pattern's first character is kept unchanged, ahead of whatever the rest becomes |
| Utils.ReplaceAbsent | custom_components/canal_river_trust/utils.py:55-58 | text without the pattern's first character is unchanged |
| Utils.Decode | custom_components/canal_river_trust/utils.py:55-58 | decoding brings in only space, `&`, `<` and `>` |
| Utils.DecodeAbsent | custom_components/canal_river_trust/utils.py:55-58 | text without `&` is unchanged by decoding |
| Utils.DecodeKeepsPlain | custom_components/canal_river_trust/utils.py:55-58 | text without `&` is kept unchanged by decoding, ahead of whatever the rest decodes to |
| Utils.CleanText | custom_components/canal_river_trust/utils.py:43-60 | `None` and `""` give `""`; other text is decoded after tags are deleted and whitespace collapsed |
| Utils.UndecodedCleanShape | custom_components/canal_river_trust/utils.py:48-52 | before decoding, the text is always normalised and tag-free |
| Utils.CleanTextNoNewline | custom_components/canal_river_trust/utils.py:43-60 | cleaned text never holds a line break |
| Utils.CleanTextIdempotentWithoutEntities | custom_components/canal_river_trust/utils.py:43-60 | for text without `&`, the result is normalised and tag-free, and cleaning it again changes nothing |
| Utils.EscapedTagSurvives | custom_components/canal_river_trust/utils.py:49-58 | `&lt;b&gt;` comes out as `<b>`: entities are decoded after tag removal |
| Utils.DoubleEscapeDecodesFully | custom_components/canal_river_trust/utils.py:56-57 | `&amp;lt;` comes out as `<`, since `&amp;` is decoded before `&lt;` |
| Utils.SpacesFromNbspStay | custom_components/canal_river_trust/utils.py:52-55 | `a&nbsp;&nbsp;b` comes out as `a  b`, since `&nbsp;` is decoded after whitespace is collapsed |
| Utils.FirstKeywordEnd | custom_components/canal_river_trust/utils.py:74-81 | finds the smallest position where the keyword, ignoring case, ends and is followed by whitespace, `,` or the end |
| Utils.LineStart | custom_components/canal_river_trust/utils.py:74 | the match start is the start of the keyword's line, since `.` does not cross a line break |
| Utils.PatternGroup | custom_components/canal_river_trust/utils.py:81-83 | the pattern matches exactly when some keyword end exists; the group runs from that line's start to the first such end |
| Utils.FirstMatching | custom_components/canal_river_trust/utils.py:80-83 | a position found names a pattern that matches |
| Utils.FirstMatchingIsFirst | custom_components/canal_river_trust/utils.py:80-83 | the patterns are tried in order: none before the one found matches, and when none is found no pattern matches |
| Utils.ExtractWaterwayName | custom_components/canal_river_trust/utils.py:63-87 | a non-blank waterway gives its cleaned text; otherwise the first matching pattern's group, stripped, or the whole cleaned location; `Unknown` when both are blank |
| Utils.PatternGroupIsShortestPrefix | custom_components/canal_river_trust/utils.py:74-83 | on one line, the group is the shortest prefix that ends in the keyword and is followed by a delimiter |
| Utils.StrippedGroupEndsInKeyword | custom_components/canal_river_trust/utils.py:83 | stripping the group keeps the keyword at its end |
| Utils.LocationNameIsKeywordPrefix | custom_components/canal_river_trust/utils.py:68-83 | a name taken from a location is the stripped shortest keyword prefix of the cleaned location, and ends in that keyword |
| Utils.CombinedText | custom_components/canal_river_trust/utils.py:92-96 | the lowered type, reason and description are joined by single spaces (missing fields as `""`); a `null` field is the raising case |
| Utils.Category | custom_components/canal_river_trust/utils.py:98-122 | Emergency exactly when an emergency word occurs; Planned Maintenance exactly when a planned word occurs and no emergency one; Other exactly when no word of any table occurs |
| Utils.FirstLabel | custom_components/canal_river_trust/utils.py:98-122 | the label of the first table row with a keyword in the text, or Other |
| Utils.CategoryIsFirstTableMatch | custom_components/canal_river_trust/utils.py:98-122 | the if-chain equals the first match over the ordered keyword table |
| Utils.CategorizeIssueType | custom_components/canal_river_trust/utils.py:90-122 | the category of the combined text, none when a field is `null` |
| Utils.CategoryLabels | custom_components/canal_river_trust/utils.py:98-122 | the result is always one of the seven labels |
| Utils.PhraseAcrossFields | custom_components/canal_river_trust/utils.py:96-116 | a phrase can span two fields: a type ending `low` and a reason starting `water` trigger the water-level test |
| Utils.SeverityLevel | custom_components/canal_river_trust/utils.py:125-139 | Emergency is Critical whatever the status; then closed or suspended is High, restricted or limited Medium, otherwise Low |
| Utils.SeverityPrecedence | custom_components/canal_river_trust/utils.py:130-134 | Critical exactly for emergencies, and a closed status is never below High |
| Utils.DaySeconds | custom_components/canal_river_trust/utils.py:152-153 | like `timedelta`, the seconds part is in [0, 86400) and the days part is the floor |
| Utils.FormatDuration | custom_components/canal_river_trust/utils.py:142-176 | no start or an unparsable date gives `Duration unknown`; mixing naive and aware times raises; otherwise the closed or ongoing wording |
| Utils.ClosedDays | custom_components/canal_river_trust/utils.py:154-155 | n whole days (n at least 1) read `n days` or `Ongoing for n days` |
| Utils.ClosedHours | custom_components/canal_river_trust/utils.py:156-158 | over an hour and under a day reads the whole hours (1 to 23) |
| Utils.ClosedMinutes | custom_components/canal_river_trust/utils.py:159-161 | an hour or less reads the whole minutes (0 to 60), or `Recently started` when ongoing |
| Utils.PartDayHours | custom_components/canal_river_trust/utils.py:156-158 | a `timedelta` of no or negative days and over an hour of seconds reads the whole hours of its seconds (1 to 23), closed or ongoing, so a negative duration is bucketed on its normalised `seconds` |
| Utils.PartDayMinutes | custom_components/canal_river_trust/utils.py:159-161 | a `timedelta` of no or negative days and at most an hour of seconds reads the whole minutes of its seconds (0 to 60), or `Recently started` when ongoing |
| Utils.NegativeDurationWording | custom_components/canal_river_trust/utils.py:150-173 | a negative elapsed time (an end before the start, a start in the future) has negative days, never reads in days, and reads hours, minutes or `Recently started` |
| Utils.FutureStartReadsHours | custom_components/canal_river_trust/utils.py:164-170 | a start three days and two hours ahead reads `Ongoing for 22 hours` (`days == -4`, `seconds == 79200`) |
| Utils.Days | custom_components/canal_river_trust/utils.py:154 | `duration.days` rounds down: the whole days are the largest count of days not exceeding the duration, negative for a negative one |
| Utils.ClosedDuration | custom_components/canal_river_trust/utils.py:150-161 | the wording with an end date: whole days when there is at least one, else whole hours of the day's seconds above an hour, else whole minutes; stated for every total by `ClosedDays`, `PartDayHours` and `PartDayMinutes`, negative durations included |
| Utils.OngoingDuration | custom_components/canal_river_trust/utils.py:163-173 | the wording without an end date: `Ongoing for` days, then hours, else `Recently started`; stated for every total by `ClosedDays`, `PartDayHours` and `PartDayMinutes`, a start in the future included (`NegativeDurationWording`) |
| Utils.ExactHourReadsAsMinutes | custom_components/canal_river_trust/utils.py:156-161 | exactly 3600 seconds reads `60 minutes` |
| Utils.EndJustBeforeStart | custom_components/canal_river_trust/utils.py:152-158 | an end one second before the start reads `23 hours` |

## Left out

- Network I/O, `aiohttp` sessions, the 30-second timeouts, `response.json()` and `asyncio.gather` concurrency. Each fetch is a parameter (`Api.Outcome`) that says how it ended.
- The `datetime.now()` timestamp of `get_all_data`. It is a parameter.
- Logging, and the text of log and `UpdateFailed` messages. Only the cause is kept.
- `parse_date` (`strptime` formats, and epoch timestamps read in the local timezone). It depends on the clock and the locale.
- The ISO date parsing and `datetime.now()` inside `format_duration`. Their result is the `Utils.Elapsed` parameter.
- Utils.FormatDuration: sub-second parts of a `timedelta` are not modelled, since elapsed time is in whole seconds.
- Floating-point latitude and longitude. They are an opaque type.
- Unicode case mapping, Unicode whitespace and Unicode case-insensitive matching. Characters are treated as ASCII.
- JSON values of unexpected types, such as a non-string title or a non-list `coordinates`. Every field has the type the code expects.
- `str(item[field])` on non-string location fields, for the same reason.
- The Home Assistant framework: config entries, `hass.data`, `async_add_entities` (including the geo platform's update-before-add), `device_info`, `source_type`, `location_accuracy`, `available` and the coordinator's scheduling. Only the interval value in minutes is modelled.
- `sensor.py`, `config_flow.py`, `__init__.py` and the test script are not part of this model.
