# Hex-Zone-Server: a verified model of its cores

Hex-Zone-Server keeps zones, owners and messages for neighbourhood networks. This project models the parts
of it that carry a property over all inputs or all runs, and proves those properties with Dafny.
`dafny verify dfyconfig.toml` checks everything.

Code that updates state (the rate limiter, the schedule, owner, code, zone and template tables) is a class
whose methods are proved against pure state functions; what holds over whole runs is proved about those
functions. Loops over lists are methods with invariants that refine a specification. Pure code is functions
and lemmas. Times and coordinates are exact numbers, text is ASCII.

| file | what it models |
|---|---|
| `Inbox.dfy`, `InboxContents.dfy`, `StableSort.dfy`, `Lists.dfy` | `GET /messages`: truncated feeds, permission feed in three queries, stable merge, block filter, read receipts, paging |
| `RateLimiter.dfy` | the rolling window per client key, over every interleaving of threads that read the clock before the lock |
| `H3.dfy` | the resolution-ordered overlap check on a tree of cells |
| `ZoneRows.dfy`, `ZoneStore.dfy`, `ZoneRuns.dfy`, `ZoneContents.dfy` | zone rows and their writers: the crud module, the zones API, the contract service, Communal ID tagging, the primary calculated from a Communal ID, soft deletion; what runs of them keep, and what each stored row holds |
| `Wkt.dfy`, `Boundary.dfy` | coordinate normalization, the nested WKT printer with a reader for it, ring down-sampling, GeoJSON normalization |
| `AccessSchedule.dfy` | the guest-schedule lifecycle with its event log and recipients |
| `Accounts.dfy`, `AccountRules.dfy`, `OwnerDirectory.dfy` | account roots, visibility, sign-up, invites, guarded updates with cascade, deletion, the type migration |
| `RegistrationCodes.dfy` | minting, lookup, re-issue, revocation and consumption of single-use codes |
| `Messages.dfy` | message types, the visible feed, quick-alert templates kept in the message table |
| `EventId.dfy`, `Text.dfy` | event-id keys against their SQL prefilter; ASCII string helpers |

## What turned out different

These expectations do not hold of the code as written. The lemmas named show the failure and, where a
condition is given, say exactly when the expectation holds.

- **Inbox pages.** The fetch cap saturates at 2500 rows and leaves 128 rows of room for blocked ones. A page with at
  most `blocked` blocked rows depends on the newest `skip + limit + blocked` rows. Among stores whose queries lose
  none of those, it is always right exactly when that number fits the cap (`Inbox.PageExactIff`,
  `Inbox.CapInNumbers`). A query cut before its visibility check loses none of the newest n exactly when it still
  yields n rows or no visible row lies past the cut (`Inbox.CutCoversIff`), and it is sure to do so exactly when it
  hides at most what cap and slack leave over (`Inbox.StandsHiddenIff`). The geo scan reads events of all owners,
  and enough hidden ones hide an older visible one (`Inbox.HiddenEventsLoseRows`). The grants query stops at 200
  rows whatever the page asks for (`Inbox.OlderGrantsAreLost`).
- **Rate limit.** The clock is read before the lock is taken. With readings up to `skew` late the limit holds
  for intervals of length window − skew and for no longer ones, unless the limit is one event, where the whole
  window is safe (`RateLimiter.RateBoundIsTight`, and over thread
  interleavings `RateLimiter.InterleavingBoundIsTight`).
- **Overlap check.** It compares texts. It never reports an overlap that is not there, and it misses one exactly
  when every covering cell of the list is spelled in another accepted way (`H3.AnswerMissesIff`,
  `H3.SpellingHidesOverlap`). For cells spelled as the library prints them it is exact (`H3.OverlapIsSharedArea`),
  and respelling the cells before the check would make it exact on every list (`H3.RespellingMakesItExact`).
- **Disjoint cells.** No writer respells the cells, so a single accepted write can store a cell inside another one,
  also through the centre cell added on creation (`ZoneRuns.OneWriteNestsCells`). The primary zone of a new
  Individual merges the cells of all zones with one Communal ID and checks nothing, so two zones accepted one by one
  can give a primary with nested cells (`ZoneRuns.CommunalPrimaryNestsCells`). `ZoneRuns.WriteKeepsDisjointIff` says
  exactly which writes do harm; when clients spell cells as printed, only such a primary does
  (`ZoneRuns.PrintedRunsKeepDisjoint`).
- **Antimeridian.** +180 is kept apart from every other longitude of that meridian, which all wrap to −180
  (`Wkt.WrapIsCanonicalOffTheSeam`).
- **Open rings.** Down-sampling an unclosed ring can leave one position more than the limit, and a second pass
  then changes it again (`Boundary.OvershootIsOnePast`, `Boundary.NormalizeTwice`).
- **Config mirror.** `_sync_parameters_h3_cells` is meant to keep `config.h3Cells` aligned with the column. It
  changes the loaded JSON object in place and assigns the same object back, which the session takes for no
  change: unless the update also sets the parameters, or there was no object before, the new mirror is not
  stored (`ZoneRuns.CellsAloneLeaveMirrorStale`, `ZoneRuns.AlignedAfterUpdateIff`). The contract update does the
  same (`ZoneRuns.ContractUpdateAlignedIff`). A later API update that leaves the config out then brings the old
  cells back (`ZoneRuns.RenameRevertsCells`; exactly when not: `ZoneRuns.KeepsCellsIff`). A requested resolution
  of 0 is read as not given and becomes 13.
- **Schedules.** The comment promises that all network administrators see a pending request. An administrator
  whose stored zone id carries outer whitespace may decide the request but is not told about it
  (`AccessSchedule.AdministratorsToldIff`). The fallback recipient branch cannot be reached.
- **Account forest.** Making an administrator of an owner linked to somebody else is not guarded (also not
  when the Individual Pro type forces the role) and is the only operation that breaks "administrators are
  account roots" (`OwnerDirectory.OperationKeepsHealthyIff`). It can demote the last system administrator,
  which the guard's message rules out (`OwnerDirectory.LastSystemAdministratorLostIff`, reached from the
  seeded table in `OwnerDirectory.SeedReachesPromotion`).
- **Messaging list.** A system administrator is offered every owner but may message only the own account
  (`Accounts.SystemAdministratorListIsWider`).
- **Network sign-up.** The documentation of `resolve_account_owner_id` says the chosen plan is not used to find
  the administrator; the code does filter by it, and the model follows the code.
- **Roles.** A caller who names the own account type again is not checked, and this puts right a role that the type
  rules out, so a role can change without a system administrator (`AccountRules.OnlySystemAdministratorsChangeTypes`).
- **Registration codes.** A supplied code is found again exactly when it is a short dashed one or is already in
  lookup form (`RegistrationCodes.SuppliedCodeIsFoundIff`); the comment says longer tokens "stay as minted".
- **Message types.** The dashed aliases of the alias table are never consulted, dashes being replaced before
  (`Messages.TextsOfType`).
- **Event ids.** The prefilter lowers the column but does not trim it, so padded stored ids are missed
  (`EventId.PrefilterExact`).

## Model

| member | source | states |
|---|---|---|
| Inbox.FilterForViewer | app/services/message_block_service.py:20-82 | the loop keeps, in order, exactly the rows no rule of the viewer matches (type-only, member-only, both; senders that are not positive ids match type-only rules) |
| Inbox.OneRule | app/services/message_block_service.py:27-61 | what one rule of the viewer removes: a kind, a member, that kind from that member, or everything; exactly that, in the order of the rows |
| Inbox.RulesAddUp | app/services/message_block_service.py:30-60 | one more rule is one more such filter |
| Inbox.RulesOfOthersDoNotMatter | app/services/message_block_service.py:54-58 | rules of other owners change nothing of what the viewer sees |
| Inbox.RulesOfOthersKeepPages | app/routers/messages.py:30-36 | nor any page |
| Inbox.SenderlessRowsSurvive | app/services/message_block_service.py:37-47 | rows without a sender survive every rule that names a member |
| Inbox.ReadOwnerIdsByMessageIds | app/services/alarm_read_service.py:32-47 | one grouped query gives each wanted event its own readers in creation order and nothing for other events |
| Inbox.EnrichWithAlarmReads | app/services/alarm_read_service.py:50-77 | the batched enrichment equals the row-by-row one: same length and order, only alarm events with string ids change |
| InboxContents.EnrichedRowsAre | app/services/alarm_read_service.py:50-77 | each alarm event of the zone log carries exactly the owners with a receipt and whether the viewer is one; nothing else of any row changes |
| InboxContents.ReadersSplit | app/services/alarm_read_service.py:36-47 | readers come in the order of their receipts |
| InboxContents.OneReceipt | app/services/alarm_read_service.py:36-47 | a receipt counts for its own event only |
| Inbox.ListPermissionEvents | app/services/guest_api_service.py:291-358 | the three scan loops with their shared `seen` set list zone events, then requests and grants not listed before |
| InboxContents.PermissionFeedIs | app/services/guest_api_service.py:291-358 | in numbers and memberships: which rows the three queries list, none twice, and in what order |
| Inbox.ListInbox | app/routers/messages.py:478-544 | fetch, merge, filter, enrich and slice compute the page function the theorems below are about |
| InboxContents.WholeInboxHolds | app/routers/messages.py:478-544 | the whole inbox, on which pages are windows, holds exactly the rows some feed lists and no rule of the viewer mutes |
| Inbox.CutCoversIff | app/services/guest_api_service.py:305-349 | a query cut before its visibility check is a newest-first prefix serving n rows if and only if it yields n rows or no wanted row lies past the cut |
| Inbox.ScanCovers | app/services/guest_api_service.py:388-460 | the same for the scans with their slack of 250 rows over the cap |
| Inbox.StandsHiddenIff | app/services/guest_api_service.py:388-415 | every scan with at most h hidden rows serves the newest n if and only if h + n is within its row limit |
| Inbox.HiddenEventsLoseRows | app/services/guest_api_service.py:388-394 | more hidden geo events than cap and slack make the first page miss a visible one, with nothing blocked |
| Inbox.RequestsToldApart | app/services/guest_api_service.py:320-337 | a request repeated only because the zone scan was cut short never reaches the newest n rows |
| Inbox.GrantsToldApart | app/services/guest_api_service.py:338-358 | the same for grants listed already as zone events or requests |
| Inbox.FetchedCovers | app/routers/messages.py:479-542 | when no query loses one of its newest n rows, the newest n merged rows of the truncated feeds are those of the whole feeds |
| Inbox.PageIsWindowOfWholeInbox | app/routers/messages.py:478-544 | the page is rows skip..skip+limit of the filtered, enriched, stably sorted merge of the untruncated feeds when, for some n within the cap, the newest n rows hold the window besides the blocked ones and no query loses one of them |
| Inbox.PageWithFewHidden | app/routers/messages.py:478-544 | in numbers: with at most 200 grants it suffices that every scan hides at most cap + 250 less the rows needed |
| Inbox.CapTooSmall | app/routers/messages.py:478 | otherwise some store with that many blocked rows yields a short page |
| Inbox.PageExactIff | app/routers/messages.py:478-544 | over all stores whose queries lose none of the rows needed, the page is right if and only if skip + limit + blocked is within the fetch cap |
| Inbox.CapInNumbers | app/routers/messages.py:478 | that condition without the cap: total at most 2500, and at most 128 blocked rows or a large first page |
| Inbox.OlderGrantsAreLost | app/services/guest_api_service.py:338-348 | with more than 200 grants the page starting at the 201st is not the window of the whole inbox |
| Inbox.PagesTile | app/routers/messages.py:478-544 | consecutive pages, each fetched with its own cap, concatenate to a prefix of the whole inbox: no gap, no repeat |
| StableSort.SortIsTheStableSort | app/routers/messages.py:538-542 | a list is the computed order if and only if it is descending and keeps the input order within each time |
| StableSort.ExtraRow | app/routers/messages.py:538-542 | one more input row lands somewhere without disturbing the others, after every earlier row with at least its time |
| StableSort.TruncatedMerge | app/routers/messages.py:538-542 | merging feeds cut at k or later gives the same newest k rows as merging whole feeds |
| RateLimiter.Limiter.AllowRequest | app/core/guest_permission_rate_limit.py:13-24 | the deque loop trims, decides and records as the step function says; refused calls record nothing |
| RateLimiter.ViewStep | app/core/guest_permission_rate_limit.py:17-24 | a request moves its own key and leaves the bucket and history of every other key alone |
| RateLimiter.RunKeepsTail | app/core/guest_permission_rate_limit.py:17-24 | in every run a deque is a tail of the key's admission history and what was dropped is older than the latest window |
| RateLimiter.BucketNeverExceedsMax | app/core/guest_permission_rate_limit.py:21-23 | in every run a deque holds at most max times, whatever the clock does |
| RateLimiter.DecisionIsNaiveCount | app/core/guest_permission_rate_limit.py:13-24 | with times in lock order the decision is the naive count over everything ever admitted, and the deque is that window's part of the history |
| RateLimiter.RateBound | app/core/guest_permission_rate_limit.py:13-24 | with readings at most skew late, every closed interval of length window − skew holds at most max admissions of a key |
| RateLimiter.InterleavingBound | app/core/guest_permission_rate_limit.py:15-24 | the same over every interleaving of any number of threads that wait at most `delay` between clock and lock |
| RateLimiter.LateReadingSlipsIn | app/core/guest_permission_rate_limit.py:15-24 | for any longer interval and max at least 2 a run breaks the bound |
| RateLimiter.RateBoundIsTight | app/core/guest_permission_rate_limit.py:13-24 | for every limit and skew, the interval lengths at which the bound holds in all runs, exactly |
| RateLimiter.InterleavingBoundIsTight | app/core/guest_permission_rate_limit.py:15-24 | the same equivalence over all interleavings of threads: the late run is one of them |
| H3.HasH3Overlap | app/core/h3_utils.py:59-73 | the single pass with `seen` answers whether some valid entry lies strictly inside another that is spelled canonically |
| H3.ParentDropsDigits | app/core/h3_utils.py:68-71 | the parent at a coarser resolution is the cell with the further digits dropped |
| H3.AncestorsAreParents | app/core/h3_utils.py:67-71 | a cell has one ancestor at every coarser resolution, its parent there, and no others |
| H3.AncestryIsTransitive | app/core/h3_utils.py:68-71 | an ancestor of an ancestor is one |
| H3.OverlapIsExtension | app/core/h3_utils.py:59-73 | in digits: the answer is yes exactly when a listed printed cell is extended by any digits to another listed cell |
| H3.SharedAreaIsCommonExtension | app/core/h3_utils.py:59-73 | two cells share area exactly when some digits make the same cell of both |
| H3.SharedAreaIsNesting | app/core/h3_utils.py:59-73 | two different cells share a descendant if and only if one is an ancestor of the other |
| H3.OverlapIsSharedArea | app/core/h3_utils.py:59-73 | for canonically spelled cells the answer is true exactly when two distinct valid cells share area |
| H3.OverlapDependsOnMembersOnly | app/core/h3_utils.py:61-66 | order and repetition of the list do not matter |
| H3.SpellingHidesOverlap | app/core/h3_utils.py:69-71 | a covering cell in another accepted spelling goes unnoticed |
| H3.NestingIsSharedArea | app/core/h3_utils.py:59-73 | in any spelling, lists with nested cells are those in which two different cells share area |
| H3.AnswerMissesIff | app/core/h3_utils.py:59-73 | the answer is never a false alarm, and misses a nesting if and only if there are covering cells and none is spelled canonically |
| H3.RespellingMakesItExact | app/core/h3_utils.py:61-72 | on the respelled list the check finds exactly the nestings of the original |
| ZoneRows.CheckCells | app/crud/zone.py:72-76 | invalid cells are reported before overlapping ones; accepted lists are valid and free of nesting |
| ZoneStore.ZoneStore.CreateZone | app/crud/zone.py:57-93 | the written row or the first error, in the source's order of checks; a failed create changes nothing |
| ZoneStore.ZoneStore.UpdateZoneByRecordId | app/crud/zone.py:267-335 | the field loop of both update functions; the first failing field aborts; the stored row has the synced config only when the parameters are a new object |
| ZoneStore.ZoneStore.CreateZoneViaApi | app/routers/zones.py:656-669 | normalization of config and cells, validation, then insertion (create_zone, lines 843-932) |
| ZoneStore.ZoneStore.UpdateZoneViaApi | app/routers/zones.py:1847-1937 | the merged payload is validated and written; a payload without config and cells starts from the serialized row |
| ZoneStore.ZoneStore.CreateZoneViaContract | app/services/zone_service.py:116-170 | only the camel-case list is checked and stored; a null list is stored as null |
| ZoneStore.ZoneStore.UpdateZoneViaContract | app/services/zone_service.py:206-258 | columns are written; parameters only when the row had none or an empty object |
| ZoneStore.ZoneStore.AssignCommunalId | app/services/communal_zone_service.py:729-753 | tags the row and leaves cells and lists alone |
| ZoneRows.MergeSourceCells | app/services/individual_communal_signup.py:87-114 | the loops with `seen` list column and config cells of all sources, equal texts once, in order |
| ZoneStore.ZoneStore.ProvisionCommunalPrimary | app/services/individual_communal_signup.py:117-208 | stores the merged cells of the active tagged zones unchecked, under the only source's name or one made of the ID; no zones and no geometry are refused |
| ZoneStore.ZoneStore.DeleteZone | app/crud/zone.py:377-388 | soft deletion: only the active flag changes, and only once |
| ZoneRows.BuildApiRow | app/routers/zones.py:453-502 | cell extraction, cell checks, the area requirement and geometry conversion, each with its error |
| ZoneStore.FailsFrom | app/crud/zone.py:315-328 | an error at one field is the result of the update whatever fields follow |
| ZoneContents.AcceptedIff | app/crud/zone.py:57-335 | for each of the nine writes, exactly what it must meet to be accepted |
| ZoneContents.OneRowChanges | app/crud/zone.py:57-388 | a refused write changes nothing, an accepted one stores one row, a new one under the next id |
| ZoneContents.StoredGeometryIs | app/crud/zone.py:41-45 | after an accepted write the row holds the very polygon asked for, read back position by position, or none, or what it held before |
| ZoneContents.StoredLabelsAre | app/routers/zones.py:915-929 | name, kind and active flag after each accepted write |
| ZoneRuns.MergeIsDisjointIff | app/services/individual_communal_signup.py:87-114 | a merged list is valid and unnested in every spelling if and only if each list is and no cell of one lies inside a cell of another |
| ZoneRuns.PrimaryOfDisjointZones | app/services/individual_communal_signup.py:134-203 | with disjoint sources that bring just their columns, only nesting across two zones, in any spelling, makes the primary nest |
| ZoneRuns.OneWriteNestsCells | app/routers/zones.py:482-491 | one accepted API create, or one crud create through its centre cell, stores a cell inside another |
| ZoneRuns.CommunalPrimaryNestsCells | app/services/individual_communal_signup.py:188-203 | two zones accepted one by one, one inside the other: the primary stores the nested pair |
| ZoneRuns.StoredCellsAre | app/crud/zone.py:57-335 | what a client write stores is the list asked for, which passed the check, or the cells the row had |
| ZoneRuns.WriteKeepsDisjointIff | app/crud/zone.py:57-335 | over all nine writes a table of valid, unnested cells stays one if and only if the write is neither an accepted list that nests under other spellings only nor a primary of clashing sources |
| ZoneRuns.RunsKeepDisjoint | app/routers/zones.py:482-491 | runs without such writes store only valid cells, none inside another in any spelling |
| ZoneRuns.RunsStayPrinted | app/crud/zone.py:48-93 | when all payload lists are in the printed spelling, every stored column and config list is |
| ZoneRuns.PrintedRunsKeepDisjoint | app/routers/zones.py:482-491 | in such runs only a primary of clashing sources can nest stored cells |
| ZoneRuns.StoredCellsShareNoArea | app/routers/zones.py:482-491 | after either kind of run two different cells of one row are valid and share no area, the added centre included |
| ZoneContents.CreatedCells | app/crud/zone.py:59-67 | a created row holds the client's cells in order, then the centre cell unless it was listed |
| ZoneContents.RequestedIs | app/routers/zones.py:453-469 | which of the spellings of config and top-level list an API payload has read as its cells, and what an update without any falls back to (lines 656-669, 707-717) |
| ZoneContents.StoredTagsAre | app/services/communal_zone_service.py:729-753 | the Communal IDs after each of the nine writes |
| ZoneContents.ParametersAfterUpdate | app/crud/zone.py:48-54 | the stored parameters after a crud update, and exactly when its cells are written into the config (field loop and sync of lines 308-331) |
| ZoneContents.SourcesAre | app/services/individual_communal_signup.py:117-150 | the sources of a primary are the active tagged zones, each once |
| ZoneContents.PrimaryCellsAre | app/services/individual_communal_signup.py:87-114 | a primary stores the texts its sources bring, each where it stands first |
| ZoneContents.ContributionIs | app/services/individual_communal_signup.py:96-113 | a source brings its column and both config lists, cleaned |
| ZoneRuns.AlignedAfterUpdateIff | app/crud/zone.py:48-54 | exactly when a crud update leaves the stored config mirror aligned with the column |
| ZoneRuns.CellsAloneLeaveMirrorStale | app/crud/zone.py:314-331 | an update of the cells alone on a row with parameters stores the cells and the old mirror |
| ZoneRuns.ContractUpdateAlignedIff | app/services/zone_service.py:221-252 | exactly when a contract update leaves the stored mirror aligned |
| ZoneRuns.WriteKeepsAlignedIff | app/crud/zone.py:48-93 | path by path, exactly when a write leaves every mirror aligned |
| ZoneRuns.RunsKeepAligned | app/crud/zone.py:48-93 | runs of such writes keep every mirror aligned |
| ZoneRuns.KeepsCellsIff | app/routers/zones.py:707-717 | for every row, a partial API update keeps the cells if and only if the config has neither list or the winning one spells the column |
| ZoneRuns.ApiRowsKeepCells | app/routers/zones.py:663-717 | rows written by the API itself always do |
| ZoneRuns.RenameRevertsCells | app/routers/zones.py:1870-1928 | cells moved by a crud or contract update come back with the next API rename |
| Wkt.WrapLands | app/models/zone.py:10-21 | wrapping lands in [-180, 180], keeps the meridian, is idempotent, and gives 180 only for 180 |
| Wkt.WrapIsCanonicalOffTheSeam | app/models/zone.py:10-21 | longitudes of one meridian wrap alike if and only if both or neither are exactly 180 |
| Wkt.ClampIsNearest | app/models/zone.py:24-30 | the clamp is the nearest latitude of the map: fixed inside, the end on its side outside, monotone |
| Wkt.PolygonCoordsToWkt | app/models/zone.py:33-44 | the ring loop prints the normalized rings, or fails on a position that is not a pair; crud/zone.py:14-25 is the same text |
| Wkt.GeoJsonToWkt | app/models/zone.py:47-57 | both geometry types print as MULTIPOLYGON; other types and bad positions fail |
| Wkt.PrintedWktReadsBack | app/models/zone.py:33-57 | a reader recovers from the text exactly the nested rings with wrapped longitudes and clamped latitudes |
| Wkt.TextShowsGeometry | app/models/zone.py:33-57 | exactly polygons and multipolygons of pairs are printed, and read back the text has every polygon, ring and position of the input in order, longitude wrapped first, latitude clamped second |
| Wkt.TextsOfTwo | app/models/zone.py:36-57 | the very characters between coordinates, positions, rings and polygons |
| Wkt.SameTextSameRings | app/crud/zone.py:14-45 | two geometries print alike if and only if their normalized rings are alike |
| Boundary.SimplifyRing | app/services/area_boundary_service.py:235-244 | the sampling code computes the function the bounds below are about |
| Boundary.SampleIs | app/services/area_boundary_service.py:235-244 | position by position: every step-th one, with the smallest step that fits, then the last and the first where missing |
| Boundary.SampledIsSubsequence | app/services/area_boundary_service.py:239-241 | the sample takes its positions from the ring in order |
| Boundary.SampleBounds | app/services/area_boundary_service.py:238-239 | the ceiling step gives between m/2 + 1 and m positions, below m when the last one is skipped |
| Boundary.ClosedRingBounds | app/services/area_boundary_service.py:235-244 | a closed ring over the limit: closed subsequence, same end points, m/2 + 1 to m positions |
| Boundary.OpenRingBounds | app/services/area_boundary_service.py:235-244 | an open ring over the limit: closed, last position kept, up to m + 1 positions |
| Boundary.OvershootIsOnePast | app/services/area_boundary_service.py:238-243 | exactly which rings end above the limit |
| Boundary.SimplifyTwice | app/services/area_boundary_service.py:235-244 | simplifying is idempotent if and only if the ring does not overshoot; closed rings never do |
| Boundary.NormalizeGeojsonBoundary | app/services/area_boundary_service.py:247-280 | both loops compute the normalized geometry; junk coordinates give no result |
| Boundary.NormalizedRings | app/services/area_boundary_service.py:247-280 | the output rings are the simplified usable input rings, all and in order; no result means none was usable |
| Boundary.KeptRingsAre | app/services/area_boundary_service.py:254-257 | the rings kept are those of at least four positions, in order, each simplified |
| Boundary.PolygonsStayApart | app/services/area_boundary_service.py:263-279 | each polygon with a kept ring comes back with its own rings; one alone as a Polygon |
| Boundary.OtherResults | app/services/area_boundary_service.py:249-280 | polygons come back as polygons; other types and a missing list give no result |
| Boundary.NothingKeptIff | app/services/area_boundary_service.py:255-271 | no result means exactly that no ring of at least four positions existed |
| Boundary.TriangleIsKept | app/services/area_boundary_service.py:255-257 | a closed triangle is kept as it is |
| Boundary.CleanRingBounds | app/services/area_boundary_service.py:254-257 | every output ring has 4 to 513 positions; from a closed ring at most 512, taken from it in order |
| Boundary.OnePolygon | app/services/area_boundary_service.py:277-278 | a one-polygon list normalizes as that polygon |
| Boundary.NormalizeTwice | app/services/area_boundary_service.py:247-280 | normalizing is idempotent if and only if no usable ring overshoots |
| Boundary.ClosedRingsNeverOvershoot | app/services/area_boundary_service.py:242-243 | so it is idempotent on every geometry with closed rings |
| AccessSchedule.ScheduleService.RecordSchedulePermissionZoneEvent | app/services/access_schedule_service.py:374-433 | appends one event with the row's values, sender, first other recipient and recipient list |
| AccessSchedule.ScheduleService.CreateSchedule | app/services/access_schedule_service.py:61-112 | new row, status and opening event for administrators and members, and each refusal |
| AccessSchedule.ScheduleService.AcceptSchedule | app/services/access_schedule_service.py:140-174 | the whole new state, or the refusal with nothing changed |
| AccessSchedule.ScheduleService.RejectSchedule | app/services/access_schedule_service.py:177-211 | the whole new state, or the refusal with nothing changed |
| AccessSchedule.ScheduleService.RevokeSchedule | app/services/access_schedule_service.py:214-248 | the whole new state, or the refusal with nothing changed |
| AccessSchedule.LogReplaysToRows | app/services/access_schedule_service.py:61-248 | in every run replaying a schedule's events gives its status; active holds iff ACCEPTED, the reviewer is empty iff PENDING, and the last event agrees with the row |
| AccessSchedule.OnlyLegalPaths | app/services/access_schedule_service.py:61-248 | the only event sequences that end in each status |
| AccessSchedule.AnswersMatchEffects | app/services/access_schedule_service.py:61-248 | a refused call changes nothing; an accepted one adds one event about one schedule and touches no other row |
| AccessSchedule.TerminalStaysPut | app/services/access_schedule_service.py:140-248 | rejected and revoked schedules and their histories never change again |
| AccessSchedule.EveryEventIsExplained | app/services/access_schedule_service.py:61-248 | in every run each event was caused by a caller active in the schedule's zone: requests by its users, every decision by an administrator |
| AccessSchedule.DecisionsSucceedIff | app/services/access_schedule_service.py:140-248 | a decision succeeds exactly for an active administrator of the zone on the right status, sets status, activity and reviewer only, and the refusals are told apart |
| AccessSchedule.CreationSucceedsIff | app/services/access_schedule_service.py:61-90 | a request succeeds exactly for active members of an existing zone, and the fields of the new row |
| AccessSchedule.ToldAre | app/services/access_schedule_service.py:251-282 | recipients are exactly the creator, the reviewer of a decision and the owners stored as active administrators under the trimmed zone id |
| AccessSchedule.AddressedToAnother | app/services/access_schedule_service.py:395-398 | sender and addressee are recipients, and they differ whenever there is anyone else |
| AccessSchedule.AdministratorsToldIff | app/services/access_schedule_service.py:30-53 | an administrator able to decide a request is told about it exactly when the stored zone id is trimmed or the request is theirs |
| AccessSchedule.StoredZonesAreTrimmed | app/services/access_schedule_service.py:62-64 | in every run stored schedule zones are trimmed and non-empty, so the previous row always applies |
| Accounts.MessagingListAgreesWithCheck | app/services/access_policy.py:282-316 | in a forest the offered receivers are exactly those the send check accepts, with or without the zone condition |
| Accounts.ChainBreaksAgreement | app/services/access_policy.py:293-313 | with a chain of links a receiver is offered and then refused |
| Accounts.PropagationIsTheAccount | app/services/access_policy.py:260-279 | in a forest alarm fan-out reaches exactly the active owners with the sender's root |
| Accounts.PropagationPartitions | app/services/access_policy.py:260-279 | fan-out is symmetric and divides active owners into disjoint classes |
| AccountRules.ReachedIff | app/services/access_policy.py:260-279 | in links: fan-out reaches the account holder, the owners linked to the holder and the sender |
| AccountRules.MessagesFollowAlarms | app/services/access_policy.py:306-316 | in a forest the send check accepts the other receivers of the fan-out, and with the zone condition those of the same zone |
| AccountRules.VisibleIsTheAccount | app/services/access_policy.py:240-257 | with administrators at the roots the Private tier sees everyone, an administrator the own account, a user only itself |
| AccountRules.OfferedIff | app/services/access_policy.py:282-303 | in a forest, whom the messaging list offers, with or without inactive owners and the zone condition |
| Accounts.AcceptedIsAdministrator | app/services/access_policy.py:44-175 | a resolved link names an existing administrator with a free seat |
| Accounts.NetworkSignup | app/services/access_policy.py:131-175 | joining by network name links to an administrator of that network and plan; none and several are told apart |
| AccountRules.SeatNumbers | app/services/device_entitlements.py:36-80 | in numbers, exactly when an administrator is accepted as the holder of a new user's account |
| AccountRules.HolderIff | app/services/access_policy.py:44-175 | exactly which administrator a new user is linked to: the one asked for with the plan, the only active one of network and plan, or with an e-mail the earliest one of that e-mail, up to case and padding |
| AccountRules.RegistrationAcceptedIff | app/routers/owners.py:76-140 | exactly which sign-ups are accepted at the owners route |
| AccountRules.ContractAcceptedIff | app/services/auth_service.py:85-168 | exactly which sign-ups the contract registration accepts |
| AccountRules.RegisteredFields | app/services/auth_service.py:85-168 | every field of the owner that either registration stores |
| AccountRules.JoinAcceptedIff | app/routers/utils.py:477-508 | exactly when an invite is redeemed |
| AccountRules.JoinedFields | app/routers/utils.py:627-709 | every field of the owner it makes |
| Accounts.SignupFitsCapacity | app/services/device_entitlements.py:245-312 | after an accepted member sign-up the account is within its seats |
| Accounts.RegisteredIsOneOfThree | app/routers/owners.py:76-140 | by either registration: an administrator root with a code, an Individual root with a Communal ID, or a member on the administrator's plan; capacity levels only on Organization, 1 to 5 for administrators |
| Accounts.SignupsMakeNoSystemAdministrator | app/routers/utils.py:627-709 | neither registration nor invite ever makes a system administrator |
| Accounts.UpdateReaches | app/crud/owner.py:154-182 | a type change reaches every linked member and nobody else, and the capacity level follows the type |
| AccountRules.UpdateAcceptedIff | app/routers/owners.py:475-593 | exactly which updates are accepted, and which refusals are not-found or unprocessable; all others are forbidden |
| AccountRules.UpdateWrites | app/crud/owner.py:185-243 | every field of every row after an accepted update, forced role, capacity level and cascade included |
| AccountRules.OnlySystemAdministratorsChangeTypes | app/services/account_type_policy.py:74-257 | only the Private tier changes types and roles, except that naming the own type puts right a role the type rules out |
| Accounts.UpdateKeepsSoundIff | app/crud/owner.py:213-226 | an update keeps administrators at the roots if and only if it does not promote a linked owner |
| Accounts.DeleteKeepsSound | app/crud/owner.py:246-253 | deletion with links set to null keeps the forest |
| AccountRules.DeletionSplitsTheAccount | app/crud/owner.py:246-253 | deleting an account holder makes every member its own account; nothing else of any row changes |
| OwnerDirectory.OwnerTable.CreateOwner | app/crud/owner.py:56-76 | insert, then self-link of a row without a link |
| OwnerDirectory.OwnerTable.RegisterOwner | app/routers/owners.py:76-142 | the stored owner with the code's level, or the first error; keeps the forest |
| OwnerDirectory.OwnerTable.RegisterUser | app/services/auth_service.py:85-168 | the contract registration: exact e-mail check, code before the administrator look-up; keeps the forest |
| OwnerDirectory.OwnerTable.JoinWithQr | app/routers/utils.py:616-713 | token and inviter checks (lines 477-508), the stored owner, and the token marked used only on success; keeps the forest |
| OwnerDirectory.OwnerTable.CascadeAccountType | app/crud/owner.py:154-182 | the member loop sets exactly the linked owners to the invited-member type |
| OwnerDirectory.OwnerTable.ApplyUpdate | app/crud/owner.py:185-243 | the step-by-step update computes the updated directory |
| OwnerDirectory.OwnerTable.UpdateOwner | app/routers/owners.py:475-593 | the guards in order, the forced role, and the update or the refusal |
| OwnerDirectory.OwnerTable.DeleteOwner | app/routers/owners.py:611-630 | only the owner may delete the own row; keeps the forest |
| OwnerDirectory.OwnerTable.MigrateInvitedMemberAccountTypes | app/services/account_type_policy.py:149-184 | the nested loops give the migrated directory and the count returned is the number of owners changed |
| OwnerDirectory.MigratingTwice | app/services/account_type_policy.py:149-184 | a second run finds nothing to change |
| OwnerDirectory.MigrationReaches | app/services/account_type_policy.py:149-184 | exactly the users linked to an active Family or Organization administrator get that type; nothing else of any row changes |
| OwnerDirectory.OperationKeepsHealthyIff | app/crud/owner.py:213-217 | registration, invite, update and deletion keep the forest except exactly for a promotion of a linked owner |
| OwnerDirectory.RunsKeepTheForest | app/services/access_policy.py:27-29 | from any healthy table, runs without such a promotion keep links null or naming roots, and administrators at roots |
| OwnerDirectory.SeededRunsKeepTheForest | app/services/system_admin_seed.py:51-67 | so do all such runs from the table seeded with the system administrator |
| OwnerDirectory.RootsChangeRoles | app/crud/owner.py:213-217 | such runs include accepted role changes of account roots |
| OwnerDirectory.LastSystemAdministratorLostIff | app/services/account_type_policy.py:209-257 | exactly when an accepted account-type change leaves no active system administrator, cascade and forced role included |
| OwnerDirectory.SystemAdministratorSurvives | app/routers/owners.py:517-561 | no run of guarded type changes without such a promotion loses the last one |
| OwnerDirectory.SeedReachesPromotion | app/routers/owners.py:541-547 | from the seed a sign-up and one type change promote a linked owner, break the forest's shape and demote the last system administrator |
| RegistrationCodes.MintedTokenIsNormal | app/core/security.py:175-188 | a minted token is stable under lookup normalization in any case, and never has the length of an HMAC code |
| RegistrationCodes.NormalizeFixes | app/crud/registration_code.py:54-58 | lookup leaves a text alone if and only if it is trimmed, upper-case and without spaces |
| RegistrationCodes.LookupIgnoresCaseAndPadding | app/crud/registration_code.py:54-58 | lookup does not see letter case or outer whitespace |
| RegistrationCodes.LookupIgnoresSpaces | app/crud/registration_code.py:54-58 | nor spaces between the parts of a code |
| RegistrationCodes.SuppliedCodeIsFoundIff | app/crud/registration_code.py:23-30 | exactly which supplied codes are found again under the text supplied |
| RegistrationCodes.ServiceCodesAreInLookupForm | app/crud/registration_code.py:23-30 | codes of two groups of six upper-case letters or digits are stored and looked up as they are |
| RegistrationCodes.OutcomesAre | app/crud/registration_code.py:11-143 | exactly when insertion, refresh and consumption succeed, the row each leaves, and all other rows unchanged |
| RegistrationCodes.CodeStore.CreateRegistrationCode | app/crud/registration_code.py:11-51 | stores the minted or supplied token, or fails on a duplicate |
| RegistrationCodes.CodeStore.RefreshRegistrationCodeIssuance | app/crud/registration_code.py:61-81 | re-opens the row with the new terms |
| RegistrationCodes.CodeStore.RevokePendingIssuances | app/crud/registration_code.py:100-126 | the loop revokes exactly the pending rows of that email, tier and level |
| RegistrationCodes.RevokesExactlyPending | app/crud/registration_code.py:100-126 | what a pending row is: email, tier and level as given, unused, not revoked, still running |
| RegistrationCodes.CodeStore.TryConsumeRegistrationCode | app/crud/registration_code.py:129-143 | marks a consumable row used and says so; otherwise changes nothing |
| RegistrationCodes.CodeStore.IssueForEmailTier | app/services/registration_code_service.py:259-294 | revoke, then refresh or create; a used code is refused and the revocation rolled back |
| RegistrationCodes.IssueOutcome | app/services/registration_code_service.py:259-294 | issuing fails exactly on a used code; otherwise the code is open under the new terms and the other pending ones are revoked |
| RegistrationCodes.ConsumedAtMostOncePerIssue | app/crud/registration_code.py:61-143 | in every run successful consumptions of a code number at most one plus the refreshes of its row |
| RegistrationCodes.ConsumedOnceThroughTheService | app/services/registration_code_service.py:269-294 | when rows are re-issued only through the service, a code is consumed at most once, exactly when it is marked used |
| RegistrationCodes.DeadCodesStayDead | app/crud/registration_code.py:129-143 | a used, revoked or expired code is not consumed again until its row is re-issued, the clock not going back |
| RegistrationCodes.MintedCodeWorksOnce | app/crud/registration_code.py:31-36 | a minted code is consumed once when typed back in lower case, and then no more |
| Messages.CanonicalNamesAreFixed | app/domain/message_types.py:100-112 | every canonical name normalizes to its own type |
| Messages.TextsOfType | app/domain/message_types.py:100-112 | exactly which texts name a type |
| Messages.PrivateTypesAre | app/domain/message_types.py:115-116 | which types are private |
| Messages.FeedIsNewestPrefix | app/crud/message.py:30-78 | the limited query gives a newest-first prefix of all visible non-template messages, cut only at the limit |
| Messages.FeedListsIff | app/crud/message.py:41-58 | the feed lists exactly non-templates from the viewer's zone: public ones for all, private ones for sender and receiver |
| Messages.MessageTable.LoadQuickMessages | app/routes/contract_routes.py:1337-1348 | the mapping of the owner's template rows, later rows winning |
| Messages.MessageTable.SaveQuickMessages | app/routes/contract_routes.py:1351-1380 | old templates removed, then one row per non-blank entry of a supported type |
| Messages.SavedRowsAre | app/routes/contract_routes.py:1361-1380 | every row a save adds is a template of the owner to themselves, of the scope of its type, from one of the entries |
| Messages.LoadAfterSave | app/routes/contract_routes.py:1337-1380 | loading after saving gives what the payload alone says |
| Messages.CollectedComesFromEntries | app/routes/contract_routes.py:1361-1380 | nothing is invented and every stored type is kept |
| Messages.EveryEntryReadBackIff | app/routes/contract_routes.py:1361-1380 | every stored entry is read back with its own trimmed body if and only if no two name one type with different bodies |
| Messages.LoadSaveLoadIff | app/routes/contract_routes.py:1337-1380 | for any table, loading, saving what was loaded and loading again gives the same mapping if and only if the loaded one has canonical types and trimmed, non-blank bodies |
| Messages.SavedTableIsStable | app/routes/contract_routes.py:1351-1380 | one save of the owner is enough for that, whatever the table held before |
| Messages.LoadSaveLoadIsStable | app/routes/contract_routes.py:1337-1380 | in every table that saves, posts and removals lead to, it does, in whatever order the entries are saved |
| Messages.SaveTouchesNothingElse | app/crud/message.py:49-58 | other owners' templates and every page of every viewer's feed are unchanged by a save |
| Text.StripIs | app/domain/event_id.py:18-24 | strip takes whitespace off both ends and nothing else |
| EventId.CanonicalKeyShape | app/domain/event_id.py:18-30 | canonicalization is idempotent; keys are trimmed, lower-case and not of the EVT-number form |
| EventId.KeysAre | app/domain/event_id.py:18-30 | written out: the ids with a numeric key are its four spellings in any case and padding, other ids are their own key, blank ones have none |
| EventId.PrefilterExact | app/domain/event_id.py:38-44 | the SQL values for a key accept a stored id if and only if its key is that one and it is not padded |
| EventId.PrefilterAgreesWithEquivalence | app/domain/event_id.py:33-44 | for an unpadded stored id the prefilter and the equivalence test agree |

## Left out

- HTTP, dependencies, schemas, WebSocket, push, SMTP, geocoding, avatars, schema patches and seeding: I/O without a core.
- Inbox.ListInbox: the branches for one other owner and for a guest thread, and row conversion to responses, are not modelled; rows are responses already.
- Inbox.PageIsWindowOfWholeInbox: assumes that no query loses a row the page needs, that an event id names one event, and that the database returns equal-time rows in a fixed order; what makes an event visible is a parameter.
- Messages.LoadSaveLoadIsStable: rows written outside these operations are not in the runs.
- Messages.MessageTable.LoadQuickMessages: rows are read in table order, which the query does not fix; primary keys are not modelled.
- `create_message` and `record_alarm_read`: they would add only one-row writes.
- RateLimiter.InterleavingBound: time is exact; a thread's delay between clock and lock is a bound given to the theorem.
- H3.HasH3Overlap: the cell library is a tree of digit prefixes; whether it accepts several spellings of one cell is left open.
- ZoneStore.ZoneStore.CreateZone: this and the crud updates have no caller among the routes; they are modelled as the crud module offers them.
- ZoneStore.ZoneStore.CreateZoneViaApi: ownership, quota, naming, attachability and area policies are one refusal flag; dynamic clusters (which do not touch cells), an empty polygon object and the zones evicted by a quota (soft deletions) are not modelled.
- ZoneStore.ZoneStore.UpdateZoneViaApi: the same, and the merged geometry is given by its polygon.
- ZoneStore.ZoneStore.CreateZoneViaContract: the policies are one refusal flag; a cell list given as an object or an empty scalar counts as rejected.
- ZoneStore.ZoneStore.UpdateZoneViaContract: the same limits as the contract create.
- ZoneStore.ZoneStore.ProvisionCommunalPrimary: the merged polygon is given, sources come in id order, and how a text is cleaned is a parameter; the other checks of Communal IDs are not modelled.
- Wkt.PrintedWktReadsBack: number formatting is a parameter whose texts hold no space, comma or parenthesis; missing coordinates are not modelled.
- Floating-point rounding, in coordinates and in the ceiling of the sampling step, is not modelled.
- Unicode text: case folding, digits and whitespace are ASCII; database trimming is taken to be the language's strip.
- AccessSchedule.ScheduleService.CreateSchedule: start and end times, guest notification flags, WebSocket payloads and message texts are not modelled; whether a zone exists is a parameter.
- AccessSchedule.ScheduleService.RecordSchedulePermissionZoneEvent: links of a schedule set to null by deleting an owner are not modelled, so its creator is always known.
- OwnerDirectory.OwnerTable.RegisterOwner: the registration code check is a parameter that answers with the code's level, and whether the chosen Communal ID can give a primary zone is another; passwords, keys and addresses are not modelled.
- OwnerDirectory.OwnerTable.JoinWithQr: the same for the Communal ID of a system administrator's invite.
- OwnerDirectory.OwnerTable.RegisterUser: the same; the network id is the one after defaulting.
- `ensure_system_admin` on a table that has the built-in e-mail already: only the first seeding is modelled.
- OwnerDirectory.OwnerTable.UpdateOwner: email, network id, avatar and other plain fields are not modelled.
- OwnerDirectory.SystemAdministratorSurvives: explicit role changes, deactivation and deletion of system administrators are not guarded by the code and are not steps of these runs.
- OwnerDirectory.OwnerTable.MigrateInvitedMemberAccountTypes: stated for stores whose administrators are account roots.
- Accounts.MessagingListAgreesWithCheck: id listings are sets; their database order is not modelled.
- `list_joinable_networks` and zone listings: display groupings.
- RegistrationCodes.CodeStore.IssueForEmailTier: the HMAC, the random key, the e-mail and the schema self-heal retry are not modelled.
- `require_and_consume_admin_registration_code`: its checks of email and tier before consumption are not modelled.
- Database concurrency: every operation is one atomic step.
