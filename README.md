# gbif-alert, modelled in Dafny

gbif-alert is a Django web application that alerts its users when new
observations of invasive species appear in GBIF, the Global Biodiversity
Information Facility. This project models its core and proves properties of
the model:

- the URL filters shared by the dashboard, the API and the maps: how they are
  read from the query string, how they select observations, and how alert
  filters round-trip through encoding;
- the data pages and the internal API: pagination, the `order` parameter, the
  monthly histogram, marking observations as seen or unseen, alert creation and
  alert-name suggestion;
- the vector-tile SQL templates behind the maps: which observations a query
  selects, and the hexagon counts;
- the two importers (`import_observations` for GBIF downloads and
  `import_occurrences` for the occurrence table), including stable ids, the
  migration of comments and views from a replaced observation, and dataset
  bookkeeping;
- the one-shot command that records, for every user, the recent observations
  they have not seen, and the data migration that gives every alert an
  explicit species list;
- the loaders for Natura 2000 areas and Belgian municipalities, with their
  GeoJSON helper;
- the template tags, `readable_string`, the language choices and the
  profile form, the page-fragment model and its admin, and the front-end state
  of the dashboard's index page.

Each source file is one Dafny module. A few shared modules sit beside them:
`Wrappers`, `Text`, `Dates`, `UrlEncoding`, `JsonValues`, `Records` (the
database rows) and `Database` (the tables the importers change in place).
Python functions that only compute become Dafny functions. Loops become
methods whose loop invariants tie them to such functions. State the importers
change in place becomes classes whose methods state their new contents.

## Model

| member | source | states |
|---|---|---|
| Api.DataPageJson | dashboard/views/api.py:83-151 | the page answer is produced exactly when `ObservationsPage` succeeds, with the same error otherwise, and holds `as_dict(for_user)` of each observation of the page in page order |
| Api.OutOfRangeServesLastPage | dashboard/views/api.py:123-124 | a page number below 1 or past the page count serves the last page |
| Api.AvailableAreas | dashboard/views/api.py:47 | an area is listed iff it is in the table and available to the user, and the list is no longer than the table |
| Api.AreasListJson | dashboard/views/api.py:40-51 | one `to_dict(include_geojson=False)` per available area, in order |
| Api.AnonymousListsGlobalAreas | dashboard/views/api.py:43-44 | an anonymous visitor's list holds exactly the global areas of the table |
| Api.NoForeignAreaListed | dashboard/views/api.py:45 | a signed-in user's list never holds another user's area |
| Api.AreaWithPk | dashboard/views/api.py:56 | an area is found iff the table holds one with that primary key, and the one found has it |
| Api.AreaGeojson | dashboard/views/api.py:54-62 | 404 iff no area has the id, 403 iff the area exists but is not available to the user, otherwise the serialised area |
| Api.AnonymousNeverGetsPrivateArea | dashboard/views/api.py:54-62 | whatever the id, GeoJSON reaches an anonymous visitor only for a global area |
| DataPage.LimitOf | dashboard/views/api.py:129-131 | `limit` is 50 when absent, `""` or `"null"`, otherwise the parsed integer, failing iff `int()` refuses the value |
| DataPage.OrderedObservationsUnsorted | dashboard/views/api.py:128-136 | without `order` the selected rows keep table order; an `order` naming no field fails with `FieldError` |
| DataPage.OrderedObservationsSorted | dashboard/views/api.py:135-136 | with a field's ordering the rows are a permutation of the selected rows, sorted by that ordering |
| DataPage.ObservationsPage | dashboard/views/api.py:128-140 | the errors come in source order (`limit`, `page_number`, filters, `order_by`, paginator); on success the page is the `get_page` slice of the ordered selection, with its count, page count and number |
| DataPage.OrderedAreSelected | dashboard/views/api.py:134-136 | ordering never adds a row: each ordered row is a selected one |
| DataPage.PageObjectsMatch | dashboard/views/api.py:134-144 | every observation on a served page is in the table and matches the filters |
| DataPage.PageResponse | dashboard/views/api.py:142-151 | the response has exactly the keys `results`, `pageNumber`, `firstPage`, `lastPage`, `totalResultsCount`, in that order |
| DataPage.PageResponseMembers | dashboard/views/api.py:144-149 | `pageNumber` is the page's number, `lastPage` the page count (`page_range.stop - 1`) and `totalResultsCount` the paginator's count |
| DataPage.NormalResults | dashboard/views/api.py:144 | one `as_dict(for_user)` per observation of the page, in page order |
| DataPage.DatesOf | dashboard/views/api.py:165 | the dates of the observations, position by position |
| DataPage.MonthlyHistogramJson | dashboard/views/api.py:154-177 | fails iff the filters fail; otherwise the JSON of the histogram of the selected observations' dates |
| DataPage.HistogramEntryCounts | dashboard/views/api.py:164-169 | each histogram entry counts exactly the selected observations of its month, and that count is positive |
| InternalApi.ModeOf | dashboard/views/internal_api.py:164 | `mode` comes from the URL query and is `"normal"` when absent |
| InternalApi.DataPageJson | dashboard/views/internal_api.py:162-191 | page errors pass through; a mode other than `normal`/`short` fails with `UnboundLocalError` once the page exists; otherwise the results are `as_dict` or `as_short_dict` of the page's observations |
| InternalApi.ShortResults | dashboard/views/internal_api.py:180 | one `as_short_dict()` per observation of the page, in page order |
| InternalApi.Merge | dashboard/views/internal_api.py:272 | merging the two error dicts holds the keys of both and is empty iff both are |
| InternalApi.MergeLookup | dashboard/views/internal_api.py:272 | after the merge a key of `message_dict` carries its messages and any other key keeps the view's own |
| InternalApi.SpeciesErrors | dashboard/views/internal_api.py:266-267 | a `species` error exactly when no species id is given |
| InternalApi.AlertIndex | dashboard/views/internal_api.py:257 | finds an alert with that id owned by the user, or reports that none exists |
| InternalApi.CreateOrUpdateAlert | dashboard/views/internal_api.py:246-287 | 404 iff an id is given and the user owns no such alert; `success` iff the merged errors are empty, and then nothing is saved; with no error the alert is saved (appended with a fresh pk, or updated in place) and its species, areas and datasets are rewritten in that order; an id with no row fails that `add` with `IntegrityError`, leaving the alert saved, the earlier relations rewritten, the failing one cleared and the later ones as they were, so a failing species `add` leaves an alert without species; pks stay distinct |
| InternalApi.NoSpeciesNoSuccess | dashboard/views/internal_api.py:266-274 | without species ids the errors are never empty and always carry a `species` entry |
| InternalApi.AvailableAlertIntervals | dashboard/views/internal_api.py:320-327 | one `{"id", "label"}` per notification choice, in declaration order |
| InternalApi.DefaultFrequencyIsOffered | dashboard/models.py:371-390 | the default frequency, weekly, is one of the offered intervals |
| InternalApi.AlertName | dashboard/views/internal_api.py:337 | every suggested name starts with `My alert #` |
| InternalApi.AlertNameInjective | dashboard/views/internal_api.py:337 | different numbers give different names |
| InternalApi.NamesOf | dashboard/views/internal_api.py:334-336 | a name is listed iff some alert of the user carries it |
| InternalApi.SuggestAlertName | dashboard/views/internal_api.py:330-340 | the suggestion is `My alert #n` for the smallest `n >= 1` not taken by the user's alerts |
| Listing.NumPages | dashboard/views/api.py:138 | the page count is at least 1 and is the ceiling of `max(1, count) / per_page` |
| Listing.PageNumber | dashboard/views/api.py:140 | no integer gives page 1, a number in range is kept, any other number gives the last page |
| Listing.PageSlice | dashboard/views/api.py:140 | page `k` holds at most `per_page` objects, the ones starting at `(k - 1) * per_page`, in order |
| Listing.GetPage | dashboard/views/api.py:138-140 | fails iff `per_page <= 0` (zero divides by zero); otherwise the page's number, count, page count and slice |
| Listing.PageSizes | dashboard/views/api.py:138-140 | every page but the last is full, the last holds the rest, and a page is empty only when there are no objects |
| Listing.PagesFromSuffix | dashboard/views/api.py:138-140 | pages `k` onwards hold exactly the objects from page `k`'s first index on |
| Listing.PagesPartition | dashboard/views/api.py:138-140 | the pages read in order give back every object once, in order |
| Listing.ThreeResultsTwoPerPage | dashboard/views/internal_api.py:184-190 | three results at two per page: pages of two then one, and numbers `-1` and `3` serve page 2 |
| Listing.NoResults | dashboard/views/api.py:125 | with nothing selected there is one empty page, count 0 |
| MonthlyHistogram.Histogram | dashboard/views/api.py:164-169 | the buckets are strictly chronological, one per month, none empty, and their counts add up to the number of dates |
| MonthlyHistogram.AddOneKeepsShape | dashboard/views/api.py:164-169 | counting one more row keeps the buckets chronological and non-empty |
| MonthlyHistogram.CountForAddOne | dashboard/views/api.py:164-169 | counting a row of month `m` raises `m`'s count by one and no other |
| MonthlyHistogram.HistogramCounts | dashboard/views/api.py:164-169 | each month's count is the number of dates in that month; a month with no date has none |
| MonthlyHistogram.BucketsAreNonEmpty | dashboard/views/internal_api.py:204-209 | every bucket counts the dates of its month, and at least one |
| MonthlyHistogram.HistogramJson | dashboard/views/api.py:171-177 | one `{"year", "month", "count"}` per bucket, in order |
| QueryOrdering.SortBy | dashboard/views/api.py:135-136 | `order_by` rearranges the rows: the result is a permutation of its input |
| QueryOrdering.SortBySorted | dashboard/views/api.py:135-136 | under an ordering by a field, the rearranged rows are sorted by it |
| QueryOrdering.SortBySortedIsIdentity | dashboard/views/api.py:135-136 | rows already in the requested order stay as they are |
| JsonValues.Get | dashboard/views/api.py:142-151 | reading a key of a response dict finds a value iff the key is present, and that value is bound to it |
| JsonValues.GetAppend | dashboard/views/api.py:142-151 | a key bound last wins and hides no other key |
| ObservationQuery.FilteredObservations | dashboard/views/helpers.py:90-115 | decoding errors propagate; otherwise an observation is selected iff it is in the table and matches the decoded filters for the request's user |
| RequestFilters.QueryDictFor | dashboard/views/helpers.py:20-28 | GET reads the URL query, every other method the body |
| RequestFilters.GetLast | dashboard/views/helpers.py:32 | `get` finds nothing iff no pair has the key, else the value of the last pair with it |
| RequestFilters.GetListMembers | dashboard/views/helpers.py:46 | `getlist` returns exactly the values sent with the key |
| RequestFilters.GetListAppend | dashboard/views/helpers.py:46 | the values of a concatenated query are those of each part, in order |
| RequestFilters.GetListFollowsBindings | dashboard/views/helpers.py:40-46 | `getlist` returns the values of the pairs with the key, one per pair, in the order sent |
| RequestFilters.GetLastIsLastOfList | dashboard/views/helpers.py:32-46 | `get` returns the last of the values `getlist` returns |
| RequestFilters.ExtractArray | dashboard/views/helpers.py:40-46 | every value of the key, in order; `[]` iff the key is absent |
| RequestFilters.ParseAll | dashboard/views/helpers.py:35-37 | the same length and order, each element `int()` of its text; the first text `int()` refuses raises |
| RequestFilters.ExtractInt | dashboard/views/helpers.py:49-55 | None iff the value is absent, `""` or `"null"`; otherwise `int()` of the last value, and `ValueError` iff `int()` refuses it |
| RequestFilters.ExtractDate | dashboard/views/helpers.py:58-70 | None iff absent, `""` or `"null"`; otherwise the `%Y-%m-%d` date, a real calendar date, and `ValueError` iff the text is no such date |
| RequestFilters.FilteringUser | dashboard/views/helpers.py:102-104 | the filtering user is set iff the request is authenticated |
| RequestFilters.GetAndPostDecodeAlike | dashboard/views/helpers.py:20-28 | a GET query and a POST body holding the same pairs decode to the same filters |
| RequestFilters.DecodeFiltersReadsOnlyItsKeys | dashboard/views/helpers.py:129-137 | the filters depend only on the values of the seven keys read |
| RequestFilters.StatusForUserIgnored | dashboard/views/helpers.py:134 | the status comes from `status`: a `status_for_user` pair changes nothing |
| RequestFilters.EncodeInts | dashboard/views/helpers.py:43-44 | one `key[]=n` pair per id, in order |
| RequestFilters.ParseAllIntToString | dashboard/views/helpers.py:35-37 | parsing the decimal texts of integers gives the integers back |
| RequestFilters.ExtractDateOfFormatted | dashboard/views/helpers.py:58-70 | a key whose only value is a formatted date reads back as that date |
| RequestFilters.DecodeEncodeFilters | dashboard/views/helpers.py:118-147 | decoding the query string built for a filter tuple gives the tuple back |
| Maps.HexSizeTable | dashboard/views/maps.py:25-52 | the hexagon size is defined for exactly zooms 0 to 20, is twice the baseline, at least 10, and never grows with the zoom |
| Maps.BuildSqlParams | dashboard/views/maps.py:162-182 | the id lists are always bound; `status` and `user_id` only together, when the status is truthy and the user signed in; each date only when set |
| Maps.DecodedDatesValid | dashboard/views/helpers.py:58-70 | decoded filters hold only real calendar dates |
| Maps.MvtTilesObservations | dashboard/views/maps.py:134-187 | filter errors propagate; otherwise the bound parameters encode the filters with the tile coordinates and no hexagon entries |
| Maps.MvtTilesHexagonGridAggregated | dashboard/views/maps.py:190-243 | filter errors come first, then a zoom outside 0..20 raises `KeyError`; otherwise the parameters carry the doubled hexagon size and a viewport extent |
| Maps.ObservationMinMaxInHexGrid | dashboard/views/maps.py:246-299 | a malformed zoom raises, no zoom gives no response; otherwise filters, then the hexagon size lookup, with the estimated extent and no tile coordinates |
| Maps.ViewCount | dashboard/views/maps.py:60-99 | the `seen` join keeps a row iff the user has a view of the observation |
| Maps.AreaCount | dashboard/views/maps.py:65-84 | the cross join keeps a row iff the observation lies in some selected area |
| Maps.TemplateSelectsMatches | dashboard/views/maps.py:57-101 | the SQL filter, run with the parameters the views bind, selects an observation iff it matches the filters: each non-empty dimension a conjunct, inclusive dates, selected areas OR-ed, status only for a signed-in user |
| Maps.TemplateCountsOverlapTwice | dashboard/views/maps.py:65-84 | an observation in two selected areas yields at least two rows of the SQL filter |
| Maps.Filtered | dashboard/views/helpers.py:106-115 | the matching observations of the table, each once, in table order |
| Maps.CountWhere | dashboard/views/maps.py:111-125 | counts the positions whose observation is kept |
| Maps.HexCount | dashboard/views/maps.py:109-126 | the intended hexagon count: the number of matching observations in the hexagon |
| Maps.HexCountDoubleCountsOverlap | dashboard/views/maps.py:109-126 | one observation in two overlapping selected areas: the grid as written counts 2, the intended count is 1 |
| Records.AnonymousSeesGlobalAreasOnly | dashboard/models.py:320-332 | an area is available to an anonymous visitor iff it is global |
| Records.AvailabilityForUser | dashboard/models.py:320-332 | an area is available to a signed-in user iff it is global or theirs |
| Records.UserSpecificAreaHasOneReader | dashboard/models.py:328-332 | a user-specific area is available to one user only, its owner |
| Records.AreaToDict | dashboard/models.py:337-347 | the keys `id`, `name`, `isUserSpecific`, then `geojson_str` only when asked for; `isUserSpecific` is true iff the area has an owner |
| Records.StableIdInputInjective | dashboard/models.py:250-257 | the hashed text determines the occurrence id and dataset key it was built from, as long as dataset keys hold no space |
| Records.StableIdInputAmbiguous | dashboard/models.py:256 | without that proviso two different pairs hash the same text |
| Records.IdenticalObservations | dashboard/models.py:242-244 | exactly the other rows (by primary key) with the same stable id |
| Records.ReplacedObservation | dashboard/models.py:219-240 | no row iff no other row shares the stable id; a row only when it is the single one and from an older import; `MultipleObjectsReturned` iff two or more share it; `OtherIdenticalObservationIsNewer` only when one is not older |
| Records.ReplacedObservationIsTheOnlyOne | dashboard/models.py:229-235 | the row returned is the only other row with the stable id |
| Records.InitialDataImportKept | dashboard/management/commands/import_observations.py:167-169 | in `InitialDataImportFor`, the reconstruction of the `set_or_migrate_initial_data_import` called here (its body is not in models.py): a row replacing the only older row with its stable id inherits that row's initial import |
| Records.InitialDataImportFresh | dashboard/management/commands/import_observations.py:167-169 | in that reconstruction: a row sharing its stable id with no other row starts its own history with its own import |
| Records.IdenticalPksUnique | dashboard/models.py:242-244 | the identical rows keep the table's distinct primary keys |
| Records.ObservationMembers | dashboard/models.py:281-292 | eight members, `stableId` second, `date` last and reading back as the observation's date |
| Records.AsDict | dashboard/models.py:278-301 | `viewedByCurrentUser` is present iff the user is signed in, and then is true iff that user has a view of the observation; `date` reads back as the observation's date |
| Records.StrLessEqTotal | dashboard/models.py:394 | any two names compare under the name order |
| Records.StrLessEqTransitive | dashboard/models.py:394 | the name order chains |
| Records.StrLessEqAntisymmetric | dashboard/models.py:394 | two names each no greater than the other are equal |
| Records.InsertName | dashboard/models.py:394 | inserting a name into sorted names keeps them sorted and adds exactly that name |
| Records.SortNames | dashboard/models.py:394 | `order_by("name")`: the names sorted, a permutation of the input |
| Records.SortedNamesUnique | dashboard/models.py:394 | two sorted lists of the same names are equal |
| Records.NamesListOrderFree | dashboard/models.py:392-402 | `areas_list`, `datasets_list` and `species_list` do not depend on the order the related rows come back in |
| Records.NamesListOfSorted | dashboard/models.py:392-402 | names already in order are joined with `", "` as they stand |
| Database.HasViewPairs | dashboard/models.py:350-365 | a view exists iff its (observation, user) pair is in the table's pairs |
| Database.RemoveView | dashboard/models.py:185 | the table without the row of that (observation, user) pair, every other row kept |
| Database.RemoveViewUnique | dashboard/models.py:362-365 | deleting a view keeps one view per (observation, user) |
| Database.MarkThenUnmarkRestores | dashboard/models.py:150-190 | marking an unviewed observation as viewed, then as not viewed, restores the view table |
| Database.ViewTimestamp | dashboard/models.py:176 | a timestamp is found iff the pair has a view, and it is that view's |
| Database.RepointComments | dashboard/models.py:211-213 | comments of the replaced row point at the new one, every other field and comment unchanged |
| Database.RepointViews | dashboard/models.py:215-217 | views of the replaced row point at the new one, everything else unchanged |
| Database.RepointViewsUnique | dashboard/models.py:215-217 | without a user who viewed both rows, moving the views keeps the pairs unique and leaves nothing on the replaced row (also lines 362-365) |
| Database.PartlyRepointed | dashboard/models.py:215-217 | the views table part-way through the loop: the first `k` views moved, the rest untouched |
| Database.RepointedHasView | dashboard/models.py:215-217 | part-way through, the user of the next view to move has a view of the new row iff they had one before the move began |
| Database.FirstConflictUnique | dashboard/models.py:215-217 | a failed move stops at a single, determined view |
| Database.MoveOneKeepsUnique | dashboard/models.py:216-217 | moving one view to an observation its user has not viewed keeps the pairs unique (also lines 362-365) |
| Database.DatasetKey | dashboard/models.py:193-195 | a key is found iff a dataset has that primary key, and it is that dataset's key |
| Database.DatasetKeyAfterUpdate | dashboard/models.py:72-80 | saving new values into one dataset row changes the key found for that row only |
| Database.OfImport | dashboard/models.py:99-101 | exactly the rows of that data import, in table order |
| Database.OfImportAppend | dashboard/models.py:99-101 | the rows of an import in two tables put together are those of each |
| Database.OfImportAllOrNone | dashboard/models.py:99-101 | a table with no row of the import keeps none; a table of only that import keeps all |
| Database.CountOfImportCounts | dashboard/models.py:99-101 | `filter(data_import=...).count()` is the number of rows of that import |
| Database.Db.constructor | dashboard/models.py:19-365 | every table starts empty and the key sequence at 1 |
| Database.Db.MarkAsViewedBy | dashboard/models.py:150-163 | nothing changes for an anonymous user or an existing pair; otherwise exactly one view row is appended; the pairs gain exactly the user's pair; pairs stay unique |
| Database.Db.FirstViewedAt | dashboard/models.py:165-179 | a timestamp iff the user is signed in and has a view of the observation, and it is that view's |
| Database.Db.MarkAsNotViewedBy | dashboard/models.py:181-190 | true iff the user is signed in and a view existed, which is then deleted; otherwise the table is unchanged; afterwards a signed-in user has no view of it |
| Database.Db.MigrateLinkedEntities | dashboard/models.py:203-217 | replacement errors and "no replaced row" change nothing; otherwise every comment moves; views all move iff no user viewed both rows, else `IntegrityError` with the views before the first conflict moved and the rest untouched |
| Database.Db.MoveComments | dashboard/models.py:211-213 | the comments table afterwards is the repointed one |
| Database.Db.MoveViews | dashboard/models.py:215-217 | succeeds iff no user viewed both rows, then the views table is the repointed one; on failure it is the table part-way to the first conflict; pairs stay unique |
| Database.Db.SaveObservation | dashboard/models.py:192-196 | only that row changes, and its stable id is rebuilt from its occurrence id and dataset key |
| Database.Db.SaveDataset | dashboard/models.py:51-80 | a key used by another dataset fails with nothing changed; otherwise the row takes the new values, only stable ids of observations change, none when the key is unchanged, and every stable id stays current |
| Database.Db.ResaveObservationsOf | dashboard/models.py:75-78 | every observation of the dataset is saved again, others stay as they were, and all stable ids are current |
| Database.Db.CompleteImport | dashboard/models.py:95-102 | the import is completed at the given time with the number of observations of that import as its counter |
| ImportObservations.SpeciesForRow | dashboard/management/commands/import_observations.py:29-52 | the three keys are parsed in order and the first one that fails gives the error; the result is found iff all three parse and one of them is in the table, and it is the taxonKey's species, else the acceptedTaxonKey's, else the speciesKey's |
| ImportObservations.SpeciesKeysParsedEagerly | dashboard/management/commands/import_observations.py:34-44 | a known taxonKey does not rescue a row whose speciesKey is not an integer |
| ImportObservations.RejectedIffSkipped | dashboard/management/commands/import_observations.py:111-117 | a row is skipped exactly when it lacks a year, coordinates, an occurrenceID or the PRESENT status (also line 175) |
| ImportObservations.AcceptedRowBuilt | dashboard/management/commands/import_observations.py:119-158 | an accepted row builds exactly when its year and gbifID parse, the date is a real date, the species resolves and the dataset key is in the table |
| ImportObservations.BuiltObservationFields | dashboard/management/commands/import_observations.py:97-173 | a built observation carries the row's date (month and day defaulting to 1), point, individual count, uncertainty, stripped text fields, gbifID, species, dataset, stable id, the current import and the initial import migrated from the observation it replaces |
| ImportObservations.BuiltKeepsInitialDataImport | dashboard/management/commands/import_observations.py:167-169 | a built observation whose stable id exactly one saved row of an older import carries takes over that row's initial import (through the reconstruction `InitialDataImportFor`) |
| ImportObservations.BuiltStartsInitialDataImport | dashboard/management/commands/import_observations.py:167-169 | a built observation whose stable id no saved row carries has the current import as its initial import |
| ImportObservations.MonthAndDayDefaultIndependently | dashboard/management/commands/import_observations.py:120-128 | an unreadable month becomes 1 while a readable day is kept |
| ImportObservations.OutcomeStep | dashboard/management/commands/import_observations.py:220-234 | one more row appends its observation, counts as skipped, or stops the import, a KeyError becoming a CommandError for that row |
| ImportObservations.OutcomeErrorSticks | dashboard/management/commands/import_observations.py:230-231 | once a row fails, the whole import fails with that error |
| ImportObservations.SkippedCountsRejected | dashboard/management/commands/import_observations.py:216-244 | the returned counter is the number of rows that are not accepted |
| ImportObservations.FlushCountStep | dashboard/management/commands/import_observations.py:236-239 | reading row `index` flushes the buffer exactly when `index` is a multiple of 10000, which keeps the batch count fitting the rows read |
| ImportObservations.FlushCountIsCeiling | dashboard/management/commands/import_observations.py:236-242 | the number of flushes before row `index` is `index / 10000` rounded up |
| ImportObservations.BufferStep | dashboard/management/commands/import_observations.py:236-239 | a buffer flushed at a multiple of 10000 never holds more than 10000 observations (also line 26) |
| ImportObservations.FlattenAppend | dashboard/management/commands/import_observations.py:238-242 | handing one more batch to the insert appends its observations after the earlier ones |
| ImportObservations.ImportAllObservationsFromDwca | dashboard/management/commands/import_observations.py:209-244 | the loop fails iff some row fails, with that row's error; otherwise the batches concatenate to the observations of the accepted rows in row order, each batch holds at most 10000, there is one batch per flush plus the final one, and the counter is the number of skipped rows |
| ImportObservations.ErrorStopsImport | dashboard/management/commands/import_observations.py:230-231 | a row that fails to build ends the import with its error |
| ImportObservations.ReadRowKeepsImported | dashboard/management/commands/import_observations.py:220-239 | a row that builds keeps the loop invariant: counted when skipped, buffered when kept, flushed on a multiple of 10000 |
| ImportObservations.Assign | dashboard/management/commands/import_observations.py:330 | `d[key] = name` keeps keys unique, adds the key, binds it to the name and leaves every other entry in its place |
| ImportObservations.NameFor | dashboard/management/commands/import_observations.py:333 | a name is found iff the key is in the dict, and it is the name the dict holds for it |
| ImportObservations.DatasetsReferencedInDwca | dashboard/management/commands/import_observations.py:321-330 | the loop builds the dict of the rows' dataset keys and stripped names |
| ImportObservations.ReferencedDatasetsKeys | dashboard/management/commands/import_observations.py:321-330 | the dict's keys are exactly the rows' dataset keys |
| ImportObservations.ReferencedDatasetsLastNameWins | dashboard/management/commands/import_observations.py:330 | each key holds the name of the last row carrying it |
| ImportObservations.NameForAssigned | dashboard/management/commands/import_observations.py:330 | after `d[key] = name`, the key holds that name |
| ImportObservations.NameForUnchanged | dashboard/management/commands/import_observations.py:330 | assigning one key leaves every other key's name as it was |
| ImportObservations.FixedNames | dashboard/management/commands/import_observations.py:332-337 | each entry keeps its key, and its name is replaced by the GBIF API's name exactly when it is empty |
| ImportObservations.FixEmptyNames | dashboard/management/commands/import_observations.py:332-337 | the loop computes `FixedNames` |
| ImportObservations.FixedNamesKeepKeys | dashboard/management/commands/import_observations.py:332-337 | fixing names keeps the same unique keys, and a name stays empty only when the API gives an empty name |
| ImportObservations.UpdateOrCreateDatasets | dashboard/management/commands/import_observations.py:339-348 | dataset keys stay unique, the hash table has exactly the dict's keys, each key maps to the dataset that holds its key and name, and datasets of keys not in the dict are unchanged |
| ImportObservations.DatasetStep | dashboard/management/commands/import_observations.py:343-348 | one `update_or_create` keeps the loop invariant of the dataset pass |
| ImportObservations.UpdateOrCreateDataset | dashboard/management/commands/import_observations.py:344-347 | the dataset holding the key is renamed, or a new one is added; it then holds the key and name, keys stay unique and other datasets are untouched |
| ImportObservations.SpeciesTable | dashboard/management/commands/import_observations.py:351-353 | a taxon key is in the table iff some species carries it |
| ImportObservations.BuildSpeciesTable | dashboard/management/commands/import_observations.py:351-353 | the loop computes `SpeciesTable` |
| ImportObservations.SpeciesTableLookup | dashboard/management/commands/import_observations.py:351-353 | with distinct taxon keys, each key gives back its own species |
| ImportObservations.CommentsOf | dashboard/models.py:305 | a comment survives iff its observation does |
| ImportObservations.ViewsOf | dashboard/models.py:358 | a view survives iff its observation does |
| ImportObservations.ViewsOfUnique | dashboard/models.py:363-365 | deleting observations keeps one view per (observation, user) |
| ImportObservations.UniqueAppend | dashboard/models.py:363-365 | adding a view for a new (observation, user) pair keeps views unique |
| ImportObservations.DeletePreviousObservations | dashboard/management/commands/import_observations.py:374-375 | only the current import's observations remain, with the comments and views that belong to them |
| ImportObservations.Unreferenced | dashboard/management/commands/import_observations.py:392-398 | every alert loses the dataset and keeps everything else |
| ImportObservations.RemoveUnusedDatasets | dashboard/management/commands/import_observations.py:387-400 | a dataset remains iff it was there and still has an observation, and every alert loses exactly the deleted datasets |
| DwcRows.GetInt | dashboard/management/commands/import_observations.py:59-77 | the stripped text converts exactly when it is an integer literal, to that integer; otherwise a ValueError |
| DwcRows.IntOrNone | dashboard/management/commands/import_observations.py:135-140 | the integer of the stripped text, or None where `int()` raises |
| DwcRows.PointOf | dashboard/management/commands/import_observations.py:99-106 | a point exists exactly when both coordinates parse, and it is (longitude, latitude) |
| DwcRows.MakeDate | dashboard/management/commands/import_observations.py:130 | `datetime.date` succeeds exactly on a calendar date, and gives that date |
| ImportOccurrences.TaxonKeyValues | dashboard/management/commands/import_occurrences.py:32 | one string value per species, its taxon key in decimal, in order |
| ImportOccurrences.TaxonKeys | dashboard/management/commands/import_occurrences.py:32 | the species' taxon keys, in order |
| ImportOccurrences.BuildGbifPredicate | dashboard/management/commands/import_occurrences.py:22-36 | the request is an object whose only member is `predicate` |
| ImportOccurrences.Member | dashboard/management/commands/import_occurrences.py:24-35 | a member is found only in an object that holds the key |
| ImportOccurrences.ParseTaxonKeys | dashboard/management/commands/import_occurrences.py:32 | reading the values back gives one integer per value |
| ImportOccurrences.ParseTaxonKeyValues | dashboard/management/commands/import_occurrences.py:32 | the written values read back as the species' taxon keys |
| ImportOccurrences.GbifPredicateRoundTrip | dashboard/management/commands/import_occurrences.py:22-36 | the request reads back as the `and` of the country and the `in` of every taxon key, in order |
| ImportOccurrences.WithTaxonKey | dashboard/management/commands/import_occurrences.py:45 | the species carrying the key, and only those |
| ImportOccurrences.GetSpecies | dashboard/management/commands/import_occurrences.py:45-52 | `get` gives a species holding the key; DoesNotExist exactly when none holds it; otherwise MultipleObjectsReturned |
| ImportOccurrences.UniqueKeyFoundOnce | dashboard/models.py:30 | with unique taxon keys, exactly one species carries each species' key |
| ImportOccurrences.GetSpeciesByOwnKey | dashboard/models.py:30 | with unique taxon keys, `get` finds each species by its own key |
| ImportOccurrences.TaxonKeyAnswersAlone | dashboard/management/commands/import_occurrences.py:44-45 | a species found by taxonKey is the answer, whatever acceptedTaxonKey holds |
| ImportOccurrences.AcceptedTaxonKeyFallback | dashboard/management/commands/import_occurrences.py:46-52 | when no species has the taxonKey, acceptedTaxonKey is parsed and its lookup is the answer, errors included |
| ImportOccurrences.TaxonKeyParsedFirst | dashboard/management/commands/import_occurrences.py:41-43 | an unreadable taxonKey raises before any lookup |
| ImportOccurrences.LazierThanObservationImporter | dashboard/management/commands/import_occurrences.py:39-52 | a row found by taxonKey with an unreadable acceptedTaxonKey is imported here and refused by the observation importer |
| ImportOccurrences.StatusIgnored | dashboard/management/commands/import_occurrences.py:95-96 | occurrenceStatus plays no part in whether a row is imported |
| ImportOccurrences.ObservationImporterIsStricter | dashboard/management/commands/import_occurrences.py:96 | every row the observation importer accepts is imported here, and a row that is not PRESENT is only imported here |
| ImportOccurrences.MonthDayJointReset | dashboard/management/commands/import_occurrences.py:99-104 | month and day are read in one `try`: both kept when both parse, both 1 otherwise |
| ImportOccurrences.DayLostWithMonth | dashboard/management/commands/import_occurrences.py:99-104 | an unreadable month loses a readable day here, while the observation importer keeps it |
| ImportOccurrences.NotImportedIffSkipped | dashboard/management/commands/import_occurrences.py:96 | a row gives nothing exactly when it lacks a year, coordinates or an occurrenceID |
| ImportOccurrences.ImportedRowBuilt | dashboard/management/commands/import_occurrences.py:98-124 | an imported row builds exactly when its year, date, gbifID and species resolve |
| ImportOccurrences.BuiltOccurrenceFields | dashboard/management/commands/import_occurrences.py:98-124 | a built occurrence carries the row's date, point, occurrenceID, gbifID, species, dataset key and name |
| ImportOccurrences.GetOrCreateDataset | dashboard/management/commands/import_occurrences.py:110-113 | an existing dataset with the key is returned untouched; otherwise one with the key and name is appended; keys stay unique |
| ImportOccurrences.CreateOccurrence | dashboard/management/commands/import_occurrences.py:114-125 | the occurrence is appended with the next primary key, and comments and views move over from the one it replaces |
| ImportOccurrences.PrepareOccurrence | dashboard/management/commands/import_occurrences.py:80-113 | a row that is not imported changes nothing; an error is the build's error; the dataset is got or created once the date is known; a built row is the occurrence of the row's fields in the dataset holding its key |
| ImportOccurrences.ImportSingleOccurrence | dashboard/management/commands/import_occurrences.py:80-125 | a skipped row and a row that fails change no observation, comment or view; an imported row adds exactly its occurrence, of the current import, at the end |
| ImportOccurrences.ImportedFlags | dashboard/management/commands/import_occurrences.py:160-161 | one flag per row |
| ImportOccurrences.ImportedFlagAt | dashboard/management/commands/import_occurrences.py:96 | the flag of row `i` says whether row `i` is imported |
| ImportOccurrences.CountTrue | dashboard/management/commands/import_occurrences.py:160-161 | at most one count per row |
| ImportOccurrences.Builds | dashboard/management/commands/import_occurrences.py:160-161 | one build per row |
| ImportOccurrences.BuildsAt | dashboard/management/commands/import_occurrences.py:160-161 | the build of row `i` is that row's `BuildOccurrence` |
| ImportOccurrences.FieldsOf | dashboard/management/commands/import_occurrences.py:114-124 | a row gives at most one occurrence |
| ImportOccurrences.ImportedFields | dashboard/management/commands/import_occurrences.py:160-161 | the first `i` rows give at most `i` occurrences |
| ImportOccurrences.CreatedFromAt | dashboard/management/commands/import_occurrences.py:114-124 | the `k`-th created row is the occurrence of the `k`-th fields |
| ImportOccurrences.CreatedFromShift | dashboard/management/commands/import_occurrences.py:230 | the created rows, taken alone, are still the occurrences in order |
| ImportOccurrences.CreatedFromStep | dashboard/management/commands/import_occurrences.py:160-161 | the created rows extend by the row's occurrence when it is built, by nothing otherwise |
| ImportOccurrences.ImportAllOccurrencesFromDwca | dashboard/management/commands/import_occurrences.py:156-162 | on success the rows added after the old table are exactly the occurrences of the imported rows, in row order, each of the current import in an existing dataset; dataset keys and views stay unique |
| ImportOccurrences.ImportRowAt | dashboard/management/commands/import_occurrences.py:160-161 | one turn of the loop extends the progress by row `i`, or fails |
| ImportOccurrences.BuildFieldsOf | dashboard/management/commands/import_occurrences.py:96-124 | a skipped row gives no fields; an added occurrence is the occurrence of the row's fields |
| ImportOccurrences.ImportedSoFarStep | dashboard/management/commands/import_occurrences.py:160-161 | one more row, imported or skipped, keeps the loop invariant |
| ImportOccurrences.CreatedRowsStep | dashboard/management/commands/import_occurrences.py:160-161 | created rows stay of the current import and in existing datasets when a row is added or none |
| ImportOccurrences.DeletionKeepsCreated | dashboard/management/commands/import_occurrences.py:229-230 | deleting every row of another import leaves exactly the created occurrences, when earlier rows all come from earlier imports |
| ImportOccurrences.Handle | dashboard/management/commands/import_occurrences.py:208-234 | an error rolls every table back; success leaves only the new import's occurrences, which are those of the imported rows in order, and appends the completed import with the download id, the end time and the count of its observations |
| SeenUnseenMigration.OneYearAgo | dashboard/management/commands/migrate_new_seen_unseen.py:12 | the cutoff, when it exists, is a valid date before today |
| SeenUnseenMigration.AlertsOf | dashboard/management/commands/migrate_new_seen_unseen.py:26 | an alert is listed iff it belongs to the user |
| SeenUnseenMigration.FromObservationsMembers | dashboard/management/commands/migrate_new_seen_unseen.py:27-33 | one alert's pass calls for exactly the user's rows of observations dated after the cutoff that the user has not opened |
| SeenUnseenMigration.FromAlertsMembers | dashboard/management/commands/migrate_new_seen_unseen.py:26-33 | a user's pass calls for exactly the rows of eligible observations of any of the alerts given |
| SeenUnseenMigration.FromUsersMembers | dashboard/management/commands/migrate_new_seen_unseen.py:17-36 | the command calls for exactly the rows of an existing user, one of whose alerts matches an eligible observation |
| SeenUnseenMigration.NothingWithoutAlertOrAfterView | dashboard/management/commands/migrate_new_seen_unseen.py:25-29 | no row goes to a user without alerts, nor for an observation the user has opened |
| SeenUnseenMigration.UnseenTable.constructor | dashboard/management/commands/migrate_new_seen_unseen.py:31 | a table starts with its rows, each pair once |
| SeenUnseenMigration.UnseenTable.Create | dashboard/management/commands/migrate_new_seen_unseen.py:30-36 | a new pair is appended; a pair already there raises IntegrityError, which is swallowed, and adds nothing; pairs stay unique |
| SeenUnseenMigration.ExtendsTransitive | dashboard/management/commands/migrate_new_seen_unseen.py:19-36 | rows kept in place across two passes are kept across both |
| SeenUnseenMigration.MigrateObservations | dashboard/management/commands/migrate_new_seen_unseen.py:27-36 | the table gains exactly the rows one alert's observations call for, keeps its rows in place and stays unique |
| SeenUnseenMigration.MigrateUser | dashboard/management/commands/migrate_new_seen_unseen.py:26-36 | the table gains exactly the rows the user's alerts call for |
| SeenUnseenMigration.Migrate | dashboard/management/commands/migrate_new_seen_unseen.py:16-36 | the table gains exactly the rows every user calls for, keeping its rows in place and unique |
| ExplicitAlertSpecies.SpeciesPks | dashboard/migrations/0015_explicit_alert_species.py:12 | the set holds exactly the species' primary keys |
| ExplicitAlertSpecies.Explicit | dashboard/migrations/0015_explicit_alert_species.py:10-12 | an alert targets the same species before and after, now listed explicitly, and nothing else about it changes |
| ExplicitAlertSpecies.PartlyExplicit | dashboard/migrations/0015_explicit_alert_species.py:10-12 | after `k` iterations the first `k` alerts are explicit and the rest untouched |
| ExplicitAlertSpecies.ExplicitAlerts | dashboard/migrations/0015_explicit_alert_species.py:6-12 | every alert is made explicit, in place |
| ExplicitAlertSpecies.MakeAlertsExplicit | dashboard/migrations/0015_explicit_alert_species.py:6-12 | the loop leaves the alerts table equal to `ExplicitAlerts` of the old one |
| ExplicitAlertSpecies.MigratedAlertsListSpecies | dashboard/migrations/0015_explicit_alert_species.py:11-12 | with at least one species, every alert lists species after the migration |
| ExplicitAlertSpecies.MigrationIdempotent | dashboard/migrations/0015_explicit_alert_species.py:6-12 | running the migration twice is the same as running it once |
| Geometry.GetMultipolygonFromFeature | dashboard/management/commands/helpers.py:17-30 | a MultiPolygon comes back as it is and a Polygon becomes a MultiPolygon of that one polygon; any other type raises ValueError naming the type |
| N2000Areas.DirectivesRanked | dashboard/management/commands/load_n2000_areas.py:30-40 | `Natura2000` comes first, then habitat for B, bird for A, both for C, none otherwise, in that order |
| N2000Areas.AppendRanked | dashboard/management/commands/load_n2000_areas.py:42-47 | appending a region tag whose flag is set keeps the tags in order and without repeats |
| N2000Areas.N2000TagsSpec | dashboard/management/commands/load_n2000_areas.py:30-47 | a feature's tags are `Natura2000`, the directive tags of its site type and the region tags whose flag is 1; in that order, none twice, nothing else |
| N2000Areas.FeatureTags | dashboard/management/commands/load_n2000_areas.py:30-47 | the list built by appending is `N2000Tags` of the feature |
| N2000Areas.LoadN2000Areas | dashboard/management/commands/load_n2000_areas.py:28-52 | one area per feature, in order, named "SITECODE - SITENAME", with its tags and its reprojected geometry |
| MunicipalityAreas.StatuteNaming | dashboard/management/commands/load_belgian_municipalities_areas.py:46-67 | statutes 1 to 8 except 3 are covered: 1 and 5 take the Dutch name and Flanders, 2, 6 and 7 the French name and Wallonia, 8 the German name and Wallonia, 4 "Dutch - French" and Brussels |
| MunicipalityAreas.ThenAppend | dashboard/management/commands/load_belgian_municipalities_areas.py:79 | creating one more area appends it to those already created |
| MunicipalityAreas.NameAndTags | dashboard/management/commands/load_belgian_municipalities_areas.py:44-67 | the `match` sets the name and region tag of a covered statute and leaves `area_name` as it was otherwise |
| MunicipalityAreas.LoadLayer | dashboard/management/commands/load_belgian_municipalities_areas.py:43-80 | one layer's loop creates the areas the feature-by-feature run gives, and stops with its error where that run stops |
| MunicipalityAreas.LoadBelgianMunicipalities | dashboard/management/commands/load_belgian_municipalities_areas.py:35-80 | the command creates exactly the areas of the features of the "municipality" layers, in order, and stops with the first error |
| MunicipalityAreas.AllCoveredLoadsAll | dashboard/management/commands/load_belgian_municipalities_areas.py:43-80 | with every statute covered and every geometry polygonal, one area per feature, named after its statute and tagged municipality and its region |
| MunicipalityAreas.StaleNameForUncoveredStatute | dashboard/management/commands/load_belgian_municipalities_areas.py:46-79 | a municipality whose statute is not covered is stored under the previous municipality's name, with the municipality tag only |
| MunicipalityAreas.UnboundNameStopsAtOnce | dashboard/management/commands/load_belgian_municipalities_areas.py:46-79 | when the first municipality's statute is not covered, nothing is created and the name is unbound |
| MunicipalityAreas.OnlyMunicipalityLayers | dashboard/management/commands/load_belgian_municipalities_areas.py:41 | layers with any other name give no features |
| TemplateTags.MyReverse | dashboard/templatetags/gbif-alert_extras.py:16-27 | no query arguments give the reversed URL alone; otherwise the URL, `?` and the urlencoded arguments |
| TemplateTags.MyReverseReadsBack | dashboard/templatetags/gbif-alert_extras.py:22-25 | the URL is kept as the prefix and the query string decodes back to the arguments, in order |
| TemplateTags.DataImportLinkFilters | dashboard/templatetags/gbif-alert_extras.py:30-50 | the data import link is the index URL with one `filters` argument that decodes to `{'initialDataImportIds': [pk]}` |
| TemplateTags.DataImportFilterIsAscii | dashboard/templatetags/gbif-alert_extras.py:46-50 | the filter text is ASCII, so urlencoding it is percent-escaping alone |
| TemplateTags.ReplaceSingle | dashboard/templatetags/gbif-alert_extras.py:40-42 | replacing the only occurrence of a character puts the replacement in its place |
| TemplateTags.MvtTemplatePlaceholders | dashboard/templatetags/gbif-alert_extras.py:37-43 | a tile route whose text around the coordinates has no 1, 2 or 3 becomes the route with `{z}`, `{x}` and `{y}` in their places |
| TemplateTags.MvtTemplateHasNoCoordinateDigits | dashboard/templatetags/gbif-alert_extras.py:37-43 | no 1, 2 or 3 survives in a tile template, wherever it stood in the route |
| TemplateTags.IdTemplatePlaceholder | dashboard/templatetags/gbif-alert_extras.py:91-108 | with no other 1 in the route, the placeholder stands exactly where the argument was |
| TemplateTags.ObservationDetailsTemplatePlaceholders | dashboard/templatetags/gbif-alert_extras.py:56-61 | the observation template has `{stable_id}` where the argument was, followed by `?origin={origin}` |
| TemplateTags.JsConfigObject | dashboard/templatetags/gbif-alert_extras.py:53-115 | the object holds `authenticatedUser`, `apiEndpoints` and `mainMapConfig` in that order, plus `userId` exactly for an authenticated user, with the user's pk |
| TemplateTags.AfterPrefix | dashboard/templatetags/gbif-alert_extras.py:118-130 | the rest is found iff the URL starts with the prefix, and prefix plus rest is the URL |
| TemplateTags.GbifUrlsRecoverValue | dashboard/templatetags/gbif-alert_extras.py:118-130 | each GBIF link gives back the value it was built from, and dataset links never equal occurrence or download links |
| TemplateTags.LowerAll | dashboard/templatetags/gbif-alert_extras.py:141 | case folding keeps the length and lower-cases each character |
| TemplateTags.UrlShapedAt | dashboard/templatetags/gbif-alert_extras.py:134-140 | scheme, host, optional port and path, one after the other, make a URL |
| TemplateTags.AsLinkIfUrl | dashboard/templatetags/gbif-alert_extras.py:147-152 | a URL becomes an anchor on itself marked safe as it is; anything else is returned unchanged |
| TemplateTags.HrefUpToQuote | dashboard/templatetags/gbif-alert_extras.py:150 | the `href` a browser reads ends at the first double quote |
| TemplateTags.SampleDomain | dashboard/templatetags/gbif-alert_extras.py:136 | `ab.cd` is a domain name |
| TemplateTags.QuotedUrlIsUrl | dashboard/templatetags/gbif-alert_extras.py:133-144 | a URL with a double quote in its path passes `_is_url` |
| TemplateTags.AsLinkIfUrlBreaksOutOfHref | dashboard/templatetags/gbif-alert_extras.py:147-150 | a URL with a double quote is marked safe, and its link points only to the text before the quote |
| TemplateTags.AsLinkIfUrlInjectionExample | dashboard/templatetags/gbif-alert_extras.py:147-150 | `http://ab.cd/"x` is such a URL, and its link points to `http://ab.cd/` |
| TemplateTags.Escape | dashboard/templatetags/gbif-alert_extras.py:150 | escaped text holds no double quote and no angle bracket |
| TemplateTags.UnescapeEscape | dashboard/templatetags/gbif-alert_extras.py:150 | escaping loses nothing: unescaping gives the value back |
| TemplateTags.AsLinkIfUrlEscaped | dashboard/templatetags/gbif-alert_extras.py:147-152 | a URL becomes an anchor on its escaped self; anything else is returned unchanged |
| TemplateTags.EscapedLinkKeepsHref | dashboard/templatetags/gbif-alert_extras.py:150 | with escaping, the `href` a browser reads is the whole value, escaped, and unescapes to it |
| Text.NatToString | dashboard/models.py:291 | `str(n)` is at least one decimal digit, without a leading zero |
| Text.Strip | dashboard/management/commands/import_observations.py:59-61 | `strip()` never lengthens the text and leaves no whitespace at either end |
| Text.StripUnchanged | dashboard/management/commands/import_observations.py:59-61 | text without whitespace at its ends is stripped to itself |
| Text.ParseIntOfIntToString | dashboard/management/commands/import_observations.py:72-77 | `int(str(i)) == i` |
| Text.ParseIntOfNegative | dashboard/management/commands/import_observations.py:72-77 | `int` reads a minus sign followed by digits as the negative value |
| Text.NatToStringInjective | dashboard/models.py:291 | two numbers with the same rendering are equal |
| Text.ReplaceCharMembers | dashboard/templatetags/gbif-alert_extras.py:40-42 | `replace` leaves only characters of the text other than the pattern, or characters of the replacement |
| Text.ReplaceCharAppend | dashboard/templatetags/gbif-alert_extras.py:40-42 | `replace` of a single character works piece by piece |
| Text.ReplaceCharAbsent | dashboard/templatetags/gbif-alert_extras.py:40-42 | text without the pattern is left as it is |
| UrlEncoding.HexRoundTrip | dashboard/templatetags/gbif-alert_extras.py:25 | each escaped hexadecimal digit reads back to its value |
| UrlEncoding.QuotePlus | dashboard/templatetags/gbif-alert_extras.py:25 | `quote_plus` writes only unreserved characters, `+` and `%` |
| UrlEncoding.UnquoteQuote | dashboard/templatetags/gbif-alert_extras.py:25 | unquoting gives back ASCII text that `quote_plus` escaped |
| UrlEncoding.EncodedFields | dashboard/templatetags/gbif-alert_extras.py:25 | one `k=v` field per pair, key and value each quoted |
| UrlEncoding.SplitJoin | dashboard/templatetags/gbif-alert_extras.py:25 | splitting what was joined on a separator the parts lack gives the parts back |
| UrlEncoding.IndexOf | dashboard/templatetags/gbif-alert_extras.py:25 | the index found is that of the first occurrence; none means the character is absent |
| UrlEncoding.QuotedLacks | dashboard/templatetags/gbif-alert_extras.py:25 | `&` and `=` never appear in quoted text |
| UrlEncoding.ParseEncodedFields | dashboard/templatetags/gbif-alert_extras.py:25 | each encoded field reads back to its pair |
| UrlEncoding.ParseUrlEncode | dashboard/templatetags/gbif-alert_extras.py:25 | Django's reading of `urlencode(pairs)` gives the pairs back, in order |
| Dates.DaysInMonth | dashboard/management/commands/migrate_new_seen_unseen.py:12 | 28 to 31 days, 29 exactly for February of a leap year |
| Dates.PrevDay | dashboard/management/commands/migrate_new_seen_unseen.py:12 | the day before is a valid earlier date one ordinal lower, and missing only before 0001-01-01 |
| Dates.SubtractDays | dashboard/management/commands/migrate_new_seen_unseen.py:12 | subtracting `n` days gives a valid date `n` ordinals earlier, when there is one |
| Dates.Format | dashboard/models.py:291 | `str(date)` is ten characters: four digits, a dash, two digits, a dash, two digits |
| Dates.Parse | dashboard/views/helpers.py:58-70 | `strptime(s, "%Y-%m-%d")` only gives valid dates |
| Dates.ParseFormat | dashboard/views/helpers.py:58-70 | `strptime` reads back every date `str(date)` writes |
| Utils.WordLength | dashboard/utils.py:6 | the word at the start of the text runs up to the first whitespace or the end |
| Utils.Words | dashboard/utils.py:6 | `split()` gives only non-empty words without whitespace |
| Utils.JoinSingleSpaced | dashboard/utils.py:6 | joining words with one space leaves no space at either end and never two in a row |
| Utils.WordsOfJoin | dashboard/utils.py:6 | splitting words joined by single spaces gives the words back |
| Utils.ReadableStringSpec | dashboard/utils.py:4-6 | the result is single-spaced, holds no newline, and holds exactly the words of the input once its newlines are removed, in order |
| Utils.ReadableStringIdempotent | dashboard/utils.py:4-6 | making a readable string readable again changes nothing |
| Utils.NewlineJoinsText | dashboard/utils.py:6 | a newline is deleted, not turned into a space: the text on its two sides runs together |
| Utils.NoWordsIffBlank | dashboard/utils.py:6 | `split()` finds no word exactly when the text is all whitespace |
| Utils.BlankBecomesEmpty | dashboard/utils.py:6 | whitespace-only input becomes the empty string |
| Forms.SubsequenceOfTail | dashboard/forms.py:28-32 | a subsequence of the tail is a subsequence of the whole |
| Forms.EnabledLanguagesSpec | dashboard/forms.py:21-32 | the enabled languages keep the order of `LANGUAGES`; a language is offered iff it is in `LANGUAGES` with an enabled code, as many times as it appears there |
| Forms.EditProfileForm.constructor | dashboard/forms.py:48-82 | the form has the profile fields in order, only `username` is read-only, and the language choices are the enabled languages |
| Forms.EditProfileFieldsSpec | dashboard/forms.py:57-78 | the profile form has no password field; its fields are the common ones followed by `notification_delay_days`, none twice |
| PageFragments.ContentField | page_fragments/models.py:11-13 | a content field exists exactly for `content_nl`, `content_en` and `content_fr` |
| PageFragments.ContentFieldNameOf | page_fragments/models.py:20-22 | the field name is `content_nl`, `content_en` or `content_fr` exactly for the codes nl, en and fr |
| PageFragments.GetContentInSpec | page_fragments/models.py:24-43 | a supported language with content gives that content; an empty translation or an unsupported code gives the fallback language's content |
| PageFragments.UnsupportedFallbackFails | page_fragments/models.py:28-33 | a fallback language without a content field makes every lookup raise AttributeError |
| PageFragments.CleanSpec | page_fragments/models.py:45-56 | validation fails exactly when the fallback content is empty, and a valid fragment gives non-empty content in every language |
| PageFragmentsAdmin.SummarizeStr | page_fragments/admin.py:11-13 | text of at most 75 characters is kept; longer text becomes its first 75 characters followed by `...` |
| PageFragmentsAdmin.SummarizeStrIdempotent | page_fragments/admin.py:11-13 | summarizing a summary changes nothing |
| PageFragmentsAdmin.SummaryColumns | page_fragments/admin.py:9-28 | each summary column summarizes its own language's content field |
| IndexPage.SpeciesAsEntries | assets/ts/pages_entry_points/index.ts:61-65 | one entry per species, in order, with its id and its scientific name as label |
| IndexPage.RootApp.constructor | assets/ts/pages_entry_points/index.ts:39-58 | the application starts with no species, the two base layers with `osmHot` selected, the map tab, empty filters and opacity 0.8; the selections are among those offered |
| IndexPage.RootApp.ChangeSelectedSpecies | assets/ts/pages_entry_points/index.ts:68-70 | the species filter is replaced wholesale; the dates and the selections stay |
| Listing.FullPageSlice | dashboard/views/api.py:140 | a page before the last holds exactly `per_page` objects, starting at `(k - 1) * per_page` |
| Listing.LastPageSlice | dashboard/views/api.py:140 | the last page holds every object from `(k - 1) * per_page` to the end |
| Database.CountOfImport | dashboard/models.py:99-101 | the count never exceeds the number of observations |
| RequestFilters.GetListEncodeFilters | dashboard/views/helpers.py:40-70 | each key of the encoded filters holds exactly the values written for it: the ids as decimal text, the dates as `YYYY-MM-DD`, the status |
| RequestFilters.DecodeEncodedIds | dashboard/views/helpers.py:35-37 | each encoded id list reads back as the same ids |
| RequestFilters.DecodeEncodedDate | dashboard/views/helpers.py:58-70 | each encoded date reads back as the same date, and an absent one as None |
| RequestFilters.DecodeEncodedStatus | dashboard/views/helpers.py:31-32 | the encoded status reads back as it was |
| RequestFilters.ExtractIntArrayOfTexts | dashboard/views/helpers.py:35-37 | a list of decimal renderings converts back to the integers |

## Left out

- DwcRows.PointOf: Python's `float()` is the parameter `FloatParser`. Floating point is not modelled, so nothing is proved about which strings it accepts (`nan`, `inf` and `1_0` all parse in Python). `IsAccepted` and the coordinates of a built observation depend only on what the parameter returns.
- Text.ParseInt: only ASCII digits are modelled. Python's `int()` also accepts other Unicode decimal digits. The same restriction holds for `strptime` in Dates.Parse and for `\d` in the template-tag patterns.
- InternalApi.CreateOrUpdateAlert: `full_clean()` is the parameter `fullClean`, a function of the alert's name and frequency only. The unique constraints Django checks against the other rows of the alert table are not modelled. Only the foreign keys of the three relations are checked against the tables; the `IntegrityError` is the model's answer, not the HTTP 500 page Django renders for it. Every alert keeps a species only when the species `add` succeeds. With an unknown species id, the saved alert is left without species; the contract states this case.
- Records.InitialDataImportFor: `Observation.set_or_migrate_initial_data_import` is not in dashboard/models.py, so the model reconstructs it from its name and from `replaced_observation`, on three assumptions. First, it looks up identical rows by the stable identifier the new observation will get; the source calls it at dashboard/management/commands/import_observations.py:167, before `set_stable_id()` at line 172, so this assumes the method computes that identifier itself. Second, `MultipleObjectsReturned` and `OtherIdenticalObservationIsNewer` give the observation its own import; the import loop catches neither, so this assumes the method does. Third, it looks in the observation table as it was before the import started, not in the table with the batches already flushed by the loop.
- ImportObservations.BuildSingleObservation: sets the initial import through Records.InitialDataImportFor, under the assumptions of the line above.
- ObservationQuery.FilteredObservations: `Observation.objects.filtered_from_my_params` is not in dashboard/models.py. The model takes it to select exactly what the SQL template of dashboard/views/maps.py selects (Maps.Matches), as the comment at dashboard/views/maps.py:54-56 requires of the two.
- Records.SortNames: `order_by("name")` sorts by the database collation; the model sorts by code point. The two orders differ on accented and lower-case names, for example "Écaussinnes".
- TemplateTags.LowerAll: only ASCII letters are folded. With `re.IGNORECASE`, Python's `re` also matches 'ſ', 'ı', 'İ' and the Kelvin sign (U+212A) against `[A-Z]` and `s`. So `httpſ://ab.cd` passes `_is_url` (dashboard/templatetags/gbif-alert_extras.py:133-144) but is not URL-shaped in the model.
- Api.AvailableAreas: the `Area.objects.available_to` manager is not part of this model. It is defined as the areas for which `Area.is_available_to` (dashboard/models.py:331-332) holds, kept in table order.
- ImportOccurrences.ImportSingleOccurrence: the `Occurrence` model is not part of this model. An occurrence is stored as an observation row that holds the fields passed to `Occurrence.objects.create`, with its other fields empty.
- ImportObservations.ImportAllObservationsFromDwca: the model ends at the batches handed to `batch_insert_observations`. It does not model that function's `bulk_create` and `migrate_linked_entities` calls (dashboard/management/commands/import_observations.py:246-251), nor the `transaction.atomic` around `handle`. The same steps are modelled for the occurrence importer (ImportOccurrences.Handle) and for one observation (Database.Db.MigrateLinkedEntities).
- ImportOccurrences.Handle: the created rows are tied to the DwC-A rows only when every row already in the table belongs to an import with a smaller primary key. Primary keys from one sequence ensure this, but the model does not carry it as a table invariant.
- N2000Areas.N2000Tags: the GDAL field values (`SITECODE`, `SITENAME`, `SITETYPE` and the `Brussels`, `Wallonia` and `Flanders` flags) are used exactly as the feature gives them. Any stripping or conversion GDAL applies when reading a field is not modelled.
- QueryOrdering.SortBy: rows that tie on the requested ordering keep their table order. PostgreSQL promises no order among ties.
- DataPage.ObservationsPage: the field names `order_by` accepts come from `orderings`, a field of the tables that maps a name to an ordering. The model does not derive them from the `Observation` model's fields. An unknown name gives the error Django raises as `FieldError`.
- Dates.Format: the year is always padded to four digits. glibc's `strftime` prints years before 1000 without padding.
- SeenUnseenMigration.Migrate: requires that the date one year before today exists. Python raises `OverflowError` in the year 1, and the command would stop there.
- The SHA-1 digest, the clock (`timezone.now()`, `date.today()`), PostGIS (`ST_Within`, `ST_Intersects`, hexagon grids, tile envelopes), GeoJSON serialisation, reprojection, `remove_z_dimension` and the GBIF API calls (`get_dataset_name_from_gbif_api`, the download request and its polling) are parameters or uninterpreted relations. Their own behaviour is outside this model.
- File and network I/O are not modelled: opening the DwC-A and shapefiles, downloading from GBIF, sending e-mail, logging and progress output. Maintenance mode and the `settings` values that only switch these on or off are left out too.
- `get_admin_url`, `get_absolute_url`, `__str__` and `sorted_comments_set` in dashboard/models.py are not modelled. They are URL reversing and display helpers with no rule of their own.
- `NewCustomAreaForm`, `SignUpForm` and `NewObservationCommentForm` in dashboard/forms.py are not modelled. They only declare fields and widgets for Django to render and validate.
- `populateAvailableSpecies` in assets/ts/pages_entry_points/index.ts is not modelled: it is an HTTP call. The model starts from the species list that the call stores (IndexPage.SpeciesAsEntries).
- Integer widths: Python and PostgreSQL integers and primary keys are unbounded `nat`s here. The model has no 32-bit or 64-bit overflow.

## Findings

| source | as written | input that shows it | evidently intended | confidence | as-written member | corrected member |
|---|---|---|---|---|---|---|
| dashboard/views/maps.py:65-67 | the filter cross-joins the selected areas and keeps a row per (observation, selected area containing it); the aggregated grid (dashboard/views/maps.py:109-126) then counts rows, not observations | one observation lying in two overlapping selected areas | each observation counted once in its hexagon | not executed | Maps.HexCountAsWritten, Maps.TemplateCountsOverlapTwice | Maps.HexCount, Maps.HexCountDoubleCountsOverlap |
| dashboard/templatetags/gbif-alert_extras.py:147-152 | `as_link_if_url` builds the anchor by string formatting and passes it to `mark_safe` without escaping; the URL pattern of lines 133-144 lets a `"` through, since its path part is `\S+` | `http://ab.cd/"x`: the href then reads `http://ab.cd/` and the rest of the value lands in the tag's markup | the value escaped before it is placed in the href and the link text | not executed | TemplateTags.AsLinkIfUrl, TemplateTags.AsLinkIfUrlBreaksOutOfHref, TemplateTags.AsLinkIfUrlInjectionExample | TemplateTags.AsLinkIfUrlEscaped, TemplateTags.EscapedLinkKeepsHref |
