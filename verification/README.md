# Verified model of the resource optimization backend

A Dafny model of five parts of the backend, with proofs of what they promise: the recommendation poller and
the four tables it writes, the stored variation percentages and the API response that reads them, the
half-month partitions and the retention job, the aggregation of a usage report into update payloads, and the
list query's filters and page links. `dafny verify dfyconfig.toml` checks the whole project.

## What is modelled

**Poller** (`Tables`, `Poller`, `PollerRuns`, `Gate`, `GateRuns`). `RecommendationPoller` holds the four tables
as maps and works the way the service does: look up the stored row, look up the workload, apply the time gate,
read Kruize's reply into two parallel lists, and write both lists in one transaction with rollback. What the
database, Kruize and the transaction answer is the `Env` of a delivery: any lookup error, any reply with any
number of entries in any order, and any fate of the transaction, including a panic. Each method is proved
against a function of the state before (`After`, `Committed`, `Saved`); the theorems about runs are about that
function. A run is any interleaving of deliveries of any message, any number of times, with workloads added and
deleted (with the cascade) and history partitions dropped.

**Stored percentages** (`Conversion`, `Payload`, `RecommendationJson`, `ResponseFields`, `VariationCache`,
`UnitAgreement`, `CachedReads`). The 14 derived columns are extracted at write time; the response injects them at read time or
recomputes them from the JSON tree. The JSON passes are functions on arbitrary trees. `ResponseFields` says what
a client sees, cell by cell, straight from the stored tree. `VariationCache` says exactly when the injected and
the recomputed response are the same, in whatever units, `UnitAgreement` how far apart they can be, and
`CachedReads` carries both to every row of every run of the poller.

**Partitions and retention** (`Calendar`, `Partitions`, `Retention`, `HousekeptRuns`). A proleptic Gregorian calendar with day
numbers, the stored procedures that create and drop half-month partitions on a catalog, and the housekeeper's
cut-off.

**Report aggregation** (`Grouping`, `Aggregation`). Filter, classify, group, regroup by experiment, regroup by
interval, chunk: loops with a group-by of its own, and each container's share of each interval followed all the
way with its three usage sums.

**List query** (`Filters`, `Paging`). Filter values become a map from clauses to arguments, evaluated as a
conjunction; page links walk the ordered result.

## What came out

- Absent a panic no row that was to be written is lost, but the recover handlers in
  `internal/services/recommendation_poller.go:65-69` and `:98-102` leave the error nil: a panic commits the offset
  with nothing written (`LostIffPanic`). A reply with an invalid container beside a saved one is committed too.
- `internal/model/workload.go` reports a workload as missing on any query error, so a failed existence query
  also commits without a request. It is one of the cases of `CommittedIff`.
- The gate reads only the workload's first row. As long as replies report every container that has a current
  row, at the time asked for, the throttle and redelivery theorems hold for workloads with any number of
  containers. A container that is no longer reported keeps the gate open: a save leaves the same message due again
  exactly when the first row is one that was not written (`DueAgainIff`), and it does happen (`DueAgainWhenLeftOut`).
- The do-nothing history insert of namespaces is harmless with one entry per reply for the time asked for
  (`NamespaceHistoryAlwaysComplete`). In general the history row matches under the condition of
  `NamespaceHistoryMatchesIff`, and two entries with one end time lose it (`TwoEntriesLoseHistory`).
- The columns hold percentages of amounts cut to cores and MiB, whatever units a response is asked for. The stored
  percentage is the recomputed one exactly when the variation is not zero, the percentage fits its column, and it
  is the same in both units (`ReproducedIff`); with amounts that neither unit cuts the last condition always holds
  (`UncutReproducedIff`). The list endpoints default to bytes (`internal/api/handlers.go:37`, `:155`), where the two
  can differ, 33.216 against 33.333 (`BytesListDiffers`). How far is the rounding of the two units as a share of
  the current request as it is shown (`StoredPctWithin`): at most 0.15 * (1 + |v| / c) + 0.002 for a request from a
  core up in millicores (`LargeRequestWithin`), but more below a core, as 34 against 35 for a tenth of one
  (`MillicoresListDiffers`), and a request too small for a unit is shown at zero percent in it. A zero variation is
  omitted by the marshaller, so the recomputing path leaves its cell without an amount.
- The comment in `internal/services/housekeeper/tablePartitionCleaner.go:19-21` has the cut-off fall on the 1st
  of the month or the 16th of the month before. The code takes the second from the current month, not the
  threshold's. The cut-off is then later than the threshold exactly when that is past the 14th of a month before
  the previous one, or the 15th of the previous one (`CutOffTooLateIff`). With the default period of 15 days
  (`internal/config/config.go:219`) this happens on one day of every year, the 2nd of March or in leap years the
  1st (`DefaultCutOffTooLateIff`), and drops the records of the 15th of February (`DefaultRunLosesIff`).
- Cluster values that are UUIDs, as many included as exact, make the same clause text, and the exact clause is
  overwritten (`FilterMeansWantedIff`, `CollisionAdmitsTooMuch`).
- The `previous` link is missing on the page at `offset == limit` (`PreviousUndoesNextIff`). The link named
  `last` is the following page and `first` the current one.

## Assumptions

All times are UTC. The poll interval is at least one hour where a theorem says `interval >= 1`. Deliveries and
the other steps of a run are atomic. A workload id is never handed out twice. `SingleAnswer` (a reply has at
most one recommendation, with one entry, for the time that was asked for) and `RegularReply` (what is saved of a
reply ends at that time, and covers every container with a current row) are stated where they are used; the source
checks only that the time is among the keys.

## Model

| member | source | states |
|---|---|---|
| `Calendar.DayNumberOrder` | internal/utils/utils.go:243-245 | comparing truncated dates is comparing day numbers: the order of year, month, day and that of days since 1970 agree both ways |
| `Calendar.AddDays` | internal/services/housekeeper/tablePartitionCleaner.go:17 | adding days moves the day number by exactly that many, across month lengths, leap years and year ends, in both directions |
| `Calendar.PreviousMonth` | internal/services/housekeeper/tablePartitionCleaner.go:26 | the month before is the one whose length separates the two firsts, January going back to December |
| `Calendar.DayNumberClosedForm` | internal/utils/utils.go:243-245 | the day number of every date in closed form, with the leap year rule written out |
| `Calendar.DateOfIff` | internal/utils/utils.go:243-245 | an instant has a date exactly when it lies between the midnight of that date and the next |
| `Gate.DueIsLater` | internal/services/recommendation_poller.go:391-398 | a due time is strictly later than the stored one, by the interval or across a first of the month |
| `Gate.DueAntitone` | internal/utils/utils.go:236-250 | storing a later time never makes a time due, with saturating subtraction and truncated hours |
| `Gate.NotDueAgain` | internal/services/recommendation_poller.go:394 | a time just stored is not due again |
| `Gate.DueIff` | internal/services/recommendation_poller.go:391-398 | for every two times and every interval: due exactly when the interval has passed, if it fits a 64-bit count of nanoseconds, or when the later is on the first of a month and the stored one on an earlier day |
| `Gate.CountIsNumber` | internal/utils/utils.go:236-250 | the firsts counted by the throttle bound are those after the one day and up to the other |
| `Gate.FirstOfMonthIff` | internal/utils/utils.go:247-250 | a day is counted exactly when its date is a first |
| `Gate.ChainBound` | internal/utils/utils.go:236-250 | a chain of steps, each a full span or onto a marked later day, has no more steps than full spans fit plus marked days passed |
| `Gate.ThrottleBound` | internal/services/recommendation_poller.go:378-401 | end times each due after the last number at most one more than the intervals between first and last plus the firsts of a month after the first date |
| `Conversion.ThreeDecimals` | internal/utils/conversion.go:53-68 | both branches cut to thousandths toward zero, and cutting again changes nothing |
| `Conversion.PercentageStoredExactly` | internal/utils/conversion.go:14-25 | a truncated and clamped percentage survives the rounding of its column unchanged and fits it |
| `Conversion.NumericBounds` | internal/utils/conversion.go:9-29 | the clamps are the largest values with ten and with twenty digits, four of them decimals |
| `Conversion.CpuPercentageError` | internal/utils/conversion.go:84-90 | for a current request of at least a core inside the range, the stored CPU percentage is within 0.1 * (1 + abs(v)/c) + 0.001 of the exact one unless clamped |
| `Conversion.MemoryPercentageError` | internal/utils/conversion.go:94-100 | from one MiB up, the stored memory percentage is within (1 + abs(v)/c) + 0.001 of the exact one unless clamped |
| `Conversion.CpuPercentageMonotone` | internal/utils/conversion.go:84-90 | a larger variation never gets a smaller stored CPU percentage |
| `Payload.RecommendationColumnValues.constructor` | internal/model/common.go:142-156 | the struct filled in field by field through its pointer holds, for each of the 14 columns, the value of its own resource, term and engine, nil where a term has no engines |
| `Payload.RecommendationColumnValues.ExtractTermVariations` | internal/model/common.go:158-177 | the twelve assignments change the fields of terms with engines, each to the percentage of its own column, and no other |
| `Payload.ExtractTermByTerm` | internal/model/common.go:142-177 | filling in term after term gives each of the 14 columns the value of its own resource, term and engine |
| `Payload.StoredPercentagesAreExact` | internal/model/common.go:142-177 | the columns hold extracted percentages without loss, and no extracted value overflows its column |
| `Payload.StoredRequestIs` | internal/model/common.go:142-156 | the request columns hold the current requests to the nearest ten thousandth, cut at the largest value of the column |
| `RecommendationJson.ListFormIsDetailFormWithoutPlots` | internal/api/utils.go:522-951 | for every tree, unit choice and stored percentages the list form is the detail form with the plots of the three terms removed; both panic or fail on the same inputs |
| `RecommendationJson.TermPassKeepsPlotsApart` | internal/api/utils.go:753-768 | every pass leaves a term without plots as it would have without them |
| `RecommendationJson.PassedTermsField` | internal/api/utils.go:584-590 | a pass over the terms changes the three known terms where they are objects and no other field |
| `RecommendationJson.OnTermsCommutes` | internal/api/utils.go:753-768 | dropping plots commutes with every pass over the terms |
| `RecommendationJson.UnitsCommute` | internal/api/utils.go:522-701 | dropping plots commutes with unit conversion, which rewrites the plots too; how it rewrites them is stated by ResponsePlots |
| `RecommendationJson.NotificationsCommute` | internal/api/utils.go:703-751 | dropping plots commutes with filtering notifications |
| `RecommendationJson.PercentagesCommute` | internal/api/utils.go:774-880 | dropping plots commutes with the percentages, whose current amounts it leaves |
| `RecommendationJson.ConversionMeans` | internal/api/utils.go:492-520 | amounts as shown: cores cut to thousandths, whole millicores to the nearest, bytes as they are, MiB and GiB cut to hundredths |
| `RecommendationJson.OtherUnits` | internal/api/utils.go:492-520 | a unit by any other name leaves a CPU amount and drops a memory amount |
| `RecommendationJson.FormatNames` | internal/api/common.go:91-100 | the name each unit is shown under, for Kubernetes and otherwise |
| `RecommendationJson.OutcomeIff` | internal/api/utils.go:931-951 | no response exactly without an object, and a panic exactly when some term's engines are neither null nor an object |
| `ResponseFields.ResponseCells` | internal/api/utils.go:774-951 | for every tree and each term, engine, section and resource: current and recommended amounts come out in the units asked for, variations in percent of the current amount of that section and resource, or as the percentage stored for that term, engine and resource |
| `ResponseFields.ResponseNotifications` | internal/api/utils.go:703-751 | the notifications of the recommendation, each term and each engine are shown whole if all are on the list, else not at all; no other pass touches them |
| `ResponseFields.ResponseTermFields` | internal/api/utils.go:532-614 | in either form: a start time that stands for none is left out, any other shown as it is, and the duration is cut to tenths of an hour |
| `ResponseFields.ResponsePlots` | internal/api/utils.go:616-661 | in detail form, for each term, data point and resource: each of the five quantiles is the stored one, zero when it is no number, in the units of that resource, the format is named so if there is one, and all else is left; in list form there are no plots |
| `VariationCache.TreesAgreeIffEnginesDo` | internal/api/utils.go:887-951 | injecting and then converting the limits gives the same tree as converting everything exactly when it does so on every engine |
| `VariationCache.EngineAgreesIffCellsDo` | internal/api/utils.go:887-951 | and on an engine exactly when it does so on its CPU and its memory cell |
| `VariationCache.StoredResponseIsRecomputedIff` | internal/api/utils.go:887-951 | for every recommendation, in list and detail form and in all units, the response from stored columns is the recomputed one exactly when every percentage is reproduced in those units |
| `UnitAgreement.ReproducedIff` | internal/model/common.go:117-121 | in all units a percentage is reproduced exactly when the variation is not zero, the percentage fits its column, and it is the same in the units of the request as in cores and MiB |
| `UnitAgreement.UncutReproducedIff` | internal/api/utils.go:492-520 | for whole millicores, whole hundredths of a MiB shown in bytes, whole hundredths of a GiB, and any amount in cores and MiB: exactly when the variation is not zero and the percentage fits its column |
| `UnitAgreement.ShownPctError` | internal/api/utils.go:492-520 | in any accepted units and for every request: shown as zero when the current request is shown as zero, otherwise within the rounding of those units, as a share of the current request as shown, times 1 + abs(v/c), plus 0.001, of the exact percentage |
| `UnitAgreement.StoredPctWithin` | internal/utils/conversion.go:84-100 | for every request inside its column: a stored percentage that fits its column is within the shares of the two units of the one recomputed in any accepted units, each being zero where the request is too small for its unit |
| `UnitAgreement.LargeRequestError` | internal/api/utils.go:492-520 | from one core, byte, MiB or GiB up the bound does not depend on the request: 0.1 in cores, 0.05 in millicores, 1 in MiB and GiB and 0 in bytes, times 1 + abs(v)/c, plus 0.001 |
| `UnitAgreement.LargeRequestWithin` | internal/utils/conversion.go:84-100 | and a stored percentage is within the sum of the two of the recomputed one |
| `UnitAgreement.PercentagesServed` | internal/api/utils.go:887-951 | for every recommendation, form and units: a request's variation is served as its stored percentage, and recomputed in the units of the request or not at all when it is zero |
| `UnitAgreement.AmountsServed` | internal/api/utils.go:522-701 | from the payload to the response, in either form and all units: each engine's recommended and the current limits and requests, each resource in its own units and under their name |
| `UnitAgreement.TermsServed` | internal/api/utils.go:532-614 | from the payload to the response: a term's start time unless it stands for none, and its duration in tenths of an hour |
| `UnitAgreement.PlotsServed` | internal/api/utils.go:616-661 | from the payload to the detail response: each quantile of each data point under its own name and in the units of its resource |
| `UnitAgreement.BytesListDiffers` | internal/api/handlers.go:37-59 | a list response in bytes, the default, shows 33.216 from the stored column where it would compute 33.333 |
| `UnitAgreement.MillicoresListDiffers` | internal/api/handlers.go:37-59 | a list response in millicores shows 34 for a tenth of a core where it would compute 35, further apart than for any request from a core up |
| `VariationCache.ValuesIffEngines` | internal/model/common.go:90-104 | the stored columns hold some percentage exactly when some term has engines |
| `Tables.EveryColumnListed` | internal/model/recommendation_set.go:150-169 | the conflict list names the times, the recommendation, the update time and all 14 derived columns |
| `Tables.ConflictLeavesNothingStale` | internal/model/recommendation_set.go:148-169 | assigning the listed columns leaves no column of the old row |
| `Tables.UpsertReplaces` | internal/model/recommendation_set.go:147-170 | the column-list upsert of container rows is replacement of the row |
| `Tables.UpsertNamespaceReplaces` | internal/model/namespace_recommendation_set.go:126-149 | that of namespace rows replaces all but the organisation and namespace name of the first insert |
| `Poller.RecommendationPoller.CreateRecommendationSet` | internal/model/recommendation_set.go:147-170 | inserts, or on a conflict assigns the listed columns, in the current table alone |
| `Poller.RecommendationPoller.CreateHistoricalRecommendationSet` | internal/model/historical_recommendation_set.go:26-43 | inserts or overwrites the history row |
| `Poller.RecommendationPoller.CreateNamespaceRecommendationSet` | internal/model/namespace_recommendation_set.go:126-157 | inserts, or on a conflict assigns the listed columns |
| `Poller.RecommendationPoller.CreateHistoricalNamespaceRecommendationSet` | internal/model/namespace_historical_recommendation_set.go:23-35 | inserts, or on a conflict does nothing |
| `Poller.CopiedAll` | internal/services/recommendation_poller.go:175-190 | copied field by field, each of the 14 extracted values goes to its own column |
| `Poller.FillRow` | internal/services/recommendation_poller.go:171-195 | the row to insert has the times, the recommendation and all 14 values of that recommendation |
| `Poller.RecommendationPoller.TransactionForContainer` | internal/services/recommendation_poller.go:61-92 | writes all rows of both tables or none; returns an error exactly when begin, a statement or the commit fails, and none on a panic |
| `Poller.RecommendationPoller.TransactionForNamespace` | internal/services/recommendation_poller.go:94-125 | the same for the two namespace tables |
| `Poller.RecommendationPoller.ListContainers` | internal/services/recommendation_poller.go:163-216 | the two parallel lists hold the rows of every marshalling entry of every valid container in order, and some container was invalid exactly when the flag is set |
| `Poller.RecommendationPoller.ListNamespace` | internal/services/recommendation_poller.go:239-287 | the same for the one namespace of a reply |
| `Poller.RecommendationPoller.RequestAndSaveRecommendation` | internal/services/recommendation_poller.go:132-317 | what is written and whether the cycle is complete, for every reply and every fate of the transaction |
| `Poller.RecommendationPoller.PollForRecommendations` | internal/services/recommendation_poller.go:319-412 | the tables after a delivery and whether its offset is committed, for every message, state and environment |
| `PollerRuns.UncommittedChangesNothing` | internal/services/recommendation_poller.go:319-412 | a delivery left uncommitted leaves every table unchanged |
| `PollerRuns.CommittedIff` | internal/services/recommendation_poller.go:319-412 | an offset is committed exactly for a malformed or unsupported message, a missing workload or failed existence query, a zero stored time, a time not due, a full save, an invalid answer with nothing to save, or a panicked transaction |
| `PollerRuns.RequestsIff` | internal/services/recommendation_poller.go:346-407 | exactly when a recommendation is requested, with the gate written out: no row yet, or its end time is set and the interval has passed or a first of the month has come since |
| `PollerRuns.ValidIff` | internal/utils/kruize/kruize_api.go:316-337 | a recommendation is valid exactly with code 111000 and an entry under the time asked for, to the millisecond |
| `PollerRuns.SomeInvalidIff` | internal/services/recommendation_poller.go:209-212 | the cycle is marked complete by an invalid one exactly when some object of the reply is invalid |
| `PollerRuns.ObjectsAre` | internal/services/recommendation_poller.go:145-163 | a reply is read as the containers, or the one namespace, of an answer of the message's own type |
| `PollerRuns.WritesConcat` | internal/services/recommendation_poller.go:164-208 | recommendations are saved in the order of the reply, object by object |
| `PollerRuns.EntriesConcat` | internal/services/recommendation_poller.go:166-208 | and entry by entry |
| `PollerRuns.LostIffPanic` | internal/services/recommendation_poller.go:65-69 | rows to be written are lost with the committed message exactly when the transaction panics |
| `PollerRuns.WritesExactly` | internal/utils/kruize/kruize_api.go:316-337 | what is saved is exactly the marshalling entries of the valid objects of the reply |
| `PollerRuns.SavedPairByPair` | internal/services/recommendation_poller.go:75-90 | writing all current rows and then all history rows comes to writing them pair by pair |
| `PollerRuns.SaveOneReplacesRow` | internal/services/recommendation_poller.go:167-208 | after a pair is written the current row is the new one, whole, and no other current row has changed |
| `PollerRuns.ContainerRowsAre` | internal/services/recommendation_poller.go:175-208 | the current and the history row stored of a container's recommendation, column by column, and that no other row changes |
| `PollerRuns.NamespaceRowsAre` | internal/services/recommendation_poller.go:250-281 | and of a namespace's: organisation and name stay those of the first insert, and a history row that is there stays as it is |
| `PollerRuns.DeliveryIsLocal` | internal/services/recommendation_poller.go:319-412 | a delivery touches no row of another workload in any of the four tables |
| `PollerRuns.DerivedColumnsCoherent` | internal/services/recommendation_poller.go:167-196 | in every run, each current row's 14 derived columns are all NULL or, like its times, exactly those of the recommendation in that same row |
| `PollerRuns.ContainerHistoryComplete` | internal/services/recommendation_poller.go:165-208 | in every run, with any replies and with partition drops, each current container row not older than the last cut-off has a history row with the same workload, container, times and recommendation |
| `PollerRuns.NamespaceSaveAdvances` | internal/services/recommendation_poller.go:218-289 | under single answers a namespace save strictly increases the stored end time and its history insert meets no conflict |
| `PollerRuns.NamespaceHistoryAlwaysComplete` | internal/model/namespace_historical_recommendation_set.go:23-27 | in every run with single answers each current namespace row has a history row with the same times and recommendation |
| `PollerRuns.FirstHistoryWins` | internal/model/namespace_historical_recommendation_set.go:23-27 | a namespace history row once there stays, otherwise the first of several entries with the same end time is kept |
| `PollerRuns.NamespaceHistoryMatchesIff` | internal/services/recommendation_poller.go:240-283 | for any reply, exactly when the history row matches the current one after a namespace save |
| `PollerRuns.TwoEntriesLoseHistory` | internal/services/recommendation_poller.go:240-283 | two entries with one end time and different recommendations leave a current row without its history |
| `PollerRuns.TwoEntriesDelivered` | internal/services/recommendation_poller.go:240-283 | it happens in one delivery: a valid reply with two entries is saved and committed, and the row has no history |
| `GateRuns.SingleAnswerIsRegular` | internal/utils/kruize/kruize_api.go:316-337 | a single answer is a regular reply for a namespace, and for a container that alone has a current row |
| `GateRuns.SavedEndsAreDue` | internal/services/recommendation_poller.go:378-401 | in every run with regular replies, each saved end time of a workload, with any number of containers, was due after the one saved before, and all its current rows end at the last one |
| `GateRuns.SavedEndsAreSaves` | internal/services/recommendation_poller.go:391-401 | the end times that are bounded are one for each save |
| `GateRuns.AllRowsEndAt` | internal/services/recommendation_poller.go:165-208 | after a save that covers every container with a current row, all current rows of the workload end at the requested time |
| `GateRuns.SavesAreThrottled` | internal/services/recommendation_poller.go:378-401 | the throttle bound over whole runs, for namespace workloads and for container workloads with any number of containers |
| `GateRuns.GateStaysShut` | internal/services/recommendation_poller.go:391-401 | a gate shut for a time stays shut when a later time is stored |
| `GateRuns.SettledStays` | internal/services/recommendation_poller.go:361-407 | every step of a run with regular replies, deletion of the workload included, keeps a settled message settled |
| `GateRuns.RedeliveryChangesNothing` | internal/services/recommendation_poller.go:361-407 | once saved or found not due, a message delivered again at any later point of the run changes no table, whatever the surroundings then do |
| `GateRuns.SavedRowAt` | internal/model/recommendation_set.go:74-82 | after a save at one end time a row found for the workload ends then if it was written and as before otherwise |
| `GateRuns.DueAgainIff` | internal/model/recommendation_set.go:74-82 | for any reply at the requested time, exactly when the same message is due again after a save |
| `GateRuns.DueAgainWhenLeftOut` | internal/services/recommendation_poller.go:391-401 | it happens: with two containers of which one is no longer reported, the message is saved, due, and saved again |
| `CachedReads.CoherentRowServes` | internal/api/utils.go:931-951 | in all units, a coherent row is served as recomputed exactly when it is a legacy row or all its percentages are reproduced |
| `CachedReads.ServedFromCacheIff` | internal/api/utils.go:931-951 | the same for every current row in every state of every run of the poller, in all units |
| `CachedReads.ServedWithin` | internal/api/utils.go:931-951 | in every state of every run and in all units, a non-zero variation whose request and percentage are inside their columns is served at most the shares of the two units away from the recomputed one, and as zero where the request is too small for the unit |
| `Partitions.PartitionCatalog.CreateRangePartition` | migrations/000005_partition_functions.up.sql:1-13 | creates the empty partition, or fails and changes nothing exactly when the name is taken or the range overlaps a partition of the parent |
| `Partitions.PartitionCatalog.CreateIfMissing` | migrations/000005_partition_functions.up.sql:31-33 | never fails: a half-month is created unless its name exists, and a free name is a free range |
| `Partitions.PartitionCatalog.CreateMonthlyPartitions` | migrations/000005_partition_functions.up.sql:15-58 | never fails; the catalog gains exactly the half-month of the date and the one before |
| `Partitions.PartitionCatalog.InsertRecord` | internal/model/historical_recommendation_set.go:32-40 | the record goes to the partition of its time; the insert fails exactly when there is none |
| `Partitions.PartitionCatalog.DropRosPartition` | migrations/000011_delete_partition_function.up.sql:9-16 | drops exactly the partitions, of any parent, that start before the date |
| `Partitions.HalfMonthRange` | migrations/000005_partition_functions.up.sql:27-50 | the range of a half-month holds the 1st to the 15th of its month, or the 16th to the end |
| `Partitions.OverlapIff` | migrations/000005_partition_functions.up.sql:6-10 | two ranges overlap exactly when some date lies in both |
| `Partitions.CreateKeepsRecords` | migrations/000005_partition_functions.up.sql:15-58 | creating partitions leaves every record |
| `Partitions.InsertAddsRecord` | internal/model/historical_recommendation_set.go:32-40 | an insert adds its record, if there is a partition for it, and leaves all others |
| `Partitions.NamesAreRanges` | migrations/000005_partition_functions.up.sql:30-31 | two partitions of a parent have one name exactly when they have one range, and otherwise do not overlap |
| `Partitions.FreeNameMeansFreeRange` | migrations/000005_partition_functions.up.sql:30-33 | when the exists-by-name test finds nothing, the range meets no partition of the parent |
| `Partitions.RunKeepsValid` | migrations/000005_partition_functions.up.sql:15-58 | every sequence of create, insert and drop calls keeps all partitions half-months holding only records of their range |
| `Partitions.PartitionsNeverOverlap` | migrations/000005_partition_functions.up.sql:15-58 | both facts for every catalog reached from an empty database |
| `Partitions.CreateCovers` | migrations/000005_partition_functions.up.sql:25-55 | one create call adds to the covered instants exactly the half-month of the date and the one before |
| `Partitions.RecentInstantsCovered` | migrations/000005_partition_functions.up.sql:25-55 | right after a create call every instant from 13 days before up to the date has a partition |
| `Partitions.FourteenDaysBackMayBeMissing` | migrations/000005_partition_functions.up.sql:49-50 | thirteen is the most that holds: on the first of March of a common year the instant 14 days before has none |
| `Partitions.DropKeeps` | migrations/000011_delete_partition_function.up.sql:9-16 | a record survives a drop exactly when its half-month starts no earlier than the date |
| `Partitions.DropAtHalfStartIsExact` | migrations/000011_delete_partition_function.up.sql:9-16 | with a cut-off that starts a half-month, exactly the records at or after it survive and no partition straddles it |
| `Retention.CutOff` | internal/services/housekeeper/tablePartitionCleaner.go:19-27 | the date handed to the drop starts a half-month |
| `Retention.CutOffIs` | internal/services/housekeeper/tablePartitionCleaner.go:19-27 | which date it is: for a threshold before the 15th the latest start of a half-month that is not after the threshold, otherwise the latest 16th before the first of the current month |
| `Retention.CutOffTooLateIff` | internal/services/housekeeper/tablePartitionCleaner.go:14-27 | for every date and every period, the cut-off is later than the threshold exactly when that is past the 14th of a month before the previous one, or the 15th of the previous one |
| `Retention.CutOffWithinFourWeeks` | internal/services/housekeeper/tablePartitionCleaner.go:14-27 | up to 28 days it is too late exactly when the threshold is the 15th of the month before, and then by one day |
| `Retention.DefaultCutOffTooLateIff` | internal/config/config.go:219 | with the default period it is too late exactly on the 2nd of March, in leap years on the 1st |
| `Retention.CutOffAtMost46DaysBack` | internal/services/housekeeper/tablePartitionCleaner.go:14-27 | with the 15-day period the cut-off is at most 46 days back |
| `Retention.FortySixDaysReached` | internal/services/housekeeper/tablePartitionCleaner.go:14-27 | the bound is reached every 31st of August |
| `Retention.HousekeepingRun` | internal/services/housekeeper/tablePartitionCleaner.go:14-29 | of the records inside the period a run loses exactly those of the threshold day when that is the 15th of the month before; of the older ones it keeps exactly those at or after the cut-off |
| `Retention.OlderRecordSurvivesIff` | internal/services/housekeeper/tablePartitionCleaner.go:14-29 | of the records older than the period, up to 28 days, exactly those of the threshold's own half-month survive, or, when the threshold is past the 14th of the current month, those from the 16th of the previous one on, or none when it is the 15th of the previous one |
| `Retention.DefaultRunLosesIff` | internal/services/housekeeper/tablePartitionCleaner.go:14-29 | with the default period a run loses a record still within it exactly on that day, when the record is of the 15th of February |
| `Retention.RunKeepsRecent` | internal/services/housekeeper/tablePartitionCleaner.go:14-29 | a run leaves exactly the records at or after the cut-off, and with the 15-day period no partition that starts more than 46 days back |
| `HousekeptRuns.HistoryWithinRetention` | internal/services/housekeeper/tablePartitionCleaner.go:14-29 | in every run in which only the retention job drops history, each current container row that ends on or after the latest cut has its history row, and so has each within the period on the day of that cut unless the job takes the wrong month that day |
| `Retention.Housekeeper.DeletePartitions` | internal/services/housekeeper/tablePartitionCleaner.go:11-33 | the job does that to the catalog |
| `Grouping.GroupBy` | internal/services/report_processor.go:128 | every row is in one group, and each group is the rows of one key in order |
| `Grouping.SelectConcat` | internal/services/report_processor.go:128 | the rows of a key are taken each as often and in the order they come in |
| `Grouping.SelectOne` | internal/services/report_processor.go:128 | of one row, it is taken exactly when it has the key |
| `Grouping.TotalOne` | internal/utils/aggregator.go:117 | the total of one row is its own sums |
| `Grouping.TotalPermuted` | internal/utils/aggregator.go:117 | a total does not depend on the order of the rows |
| `Grouping.MapPermuted` | internal/utils/aggregator.go:117 | neither does what is made of each row, as a multiset |
| `Grouping.TotalOfGroups` | internal/utils/aggregator.go:117 | what stands for each group with the group's total has the total of all |
| `Aggregation.FilterValidCSVRecords` | internal/utils/aggregator.go:121-202 | the valid rows in order with the workload type in lower case; kept plus dropped is the rows read |
| `Aggregation.KeptIff` | internal/utils/aggregator.go:142-197 | a row is kept exactly when all twelve values of the three usages are there and not negative, owner and workload type are given, and the type is one of six in whatever case |
| `Aggregation.KeptConcat` | internal/utils/aggregator.go:142-202 | the filter works row by row and keeps their order |
| `Aggregation.KeptOne` | internal/utils/aggregator.go:169-182 | a kept row has its workload type in lower case and is otherwise unchanged |
| `Aggregation.LowerCase` | internal/utils/aggregator.go:170-176 | lower case turns each of the 26 capitals into its small letter and leaves every other character |
| `Aggregation.AttributedTo` | internal/utils/aggregator.go:211-223 | a row without a workload counts for its replica set or replication controller, any other for its workload |
| `Aggregation.SameAggregateIff` | internal/utils/aggregator.go:41-50 | rows are aggregated together exactly when they agree in eight columns |
| `Aggregation.AggregatedAs` | internal/utils/aggregator.go:52-76 | a kept row is aggregated under its own columns and with the sums of its three usage columns |
| `Aggregation.SameExperimentIff` | internal/services/report_processor.go:128 | aggregates are of one experiment exactly when they are of one object of one namespace |
| `Aggregation.AggregateObjects` | internal/utils/aggregator.go:38-50 | exactly one aggregate for each key of the rows, with the sums of exactly the rows of that key, and the total of all |
| `Aggregation.AggregateData` | internal/utils/aggregator.go:16-119 | exactly one aggregate for each key of the kept rows, with their sums; an error exactly when none is kept |
| `Aggregation.MaxIntervalEndTime` | internal/utils/utils.go:181-199 | the latest of the times, an error exactly when one does not parse |
| `Aggregation.ConservedSums` | internal/services/report_processor.go:128-182 | where the items are conserved, so are the three usage sums |
| `Aggregation.GetUpdateResultPayload` | internal/types/kruizePayload/updateResult.go:39-89 | results distinct in their interval, each with the start of the first aggregate of it and one container for each; the items sent and those of the aggregates skipped are together those of the experiment, each as often, and skipped are exactly the aggregates of intervals whose times do not parse |
| `Aggregation.ListContainers` | internal/types/kruizePayload/updateResult.go:68-71 | the containers of an interval in order, with the interval's total |
| `Aggregation.SliceMetricsUpdatePayloadToChunks` | internal/services/utils.go:12-20 | the chunks laid end to end are the objects; none is empty or too long, and all but the last are full |
| `Aggregation.ExperimentChunks` | internal/services/report_processor.go:130-182 | the same for the chunks of an experiment, the whole payload if it fits the limit and otherwise full chunks; skipped are exactly all aggregates when some interval end does not parse, and otherwise those of intervals whose start does not |
| `Aggregation.SendExperiments` | internal/services/report_processor.go:128-182 | over all experiments: items sent and skipped are together those of the aggregates, each as often, results are distinct in experiment and interval and have the start of their interval's first aggregate, and an aggregate is skipped exactly when an interval end of its experiment or the start of its interval does not parse |
| `Aggregation.SentGoesBack` | internal/types/kruizePayload/updateResult.go:68-85 | every container sent is that of an aggregate of the result's own namespace, object and interval, and the result's start is that of the first |
| `Aggregation.ProcessReport` | internal/services/report_processor.go:68-182 | from the CSV rows to the chunks: one aggregate for each key of the kept rows, every aggregate either sent exactly once, in the one result of its experiment and interval with that interval's start and end, or skipped, exactly when an interval end of its experiment or the start of its interval does not parse; and so the three usage sums of the kept rows when all times parse |
| `Filters.BuildModeClause` | internal/api/utils.go:251-291 | at most one clause, with as many placeholders as arguments; ModeMeans states on the row what it admits |
| `Filters.ModeMeans` | internal/api/utils.go:251-291 | of the values that are not empty, an excluding clause admits the rows whose column differs from all, an exact one those equal to some, an including one those that contain some as an ILIKE pattern between wildcards, a cluster UUID compared as it is; or all rows without values |
| `Filters.BuildSQLClauseWithFilterType` | internal/api/utils.go:294-369 | an error exactly when an excluded value is also exact or included, otherwise the merged map, a later clause of the same text overwriting an earlier one |
| `Filters.WithoutCollision` | internal/api/utils.go:294-369 | without a collision the map, as a conjunction in any order, admits exactly the wanted rows |
| `Filters.CollisionAdmitsTooMuch` | internal/api/utils.go:335-367 | on every collision some unwanted row is admitted |
| `Filters.FilterMeansWantedIff` | internal/api/utils.go:228-369 | for every parameter and all values that do not conflict, the map means what was asked for exactly when there is no collision |
| `Filters.ApplyParamFilter` | internal/api/utils.go:371-430 | an error exactly on too many values or a conflict; otherwise the clause map gains exactly the parameter's clauses, and without a collision the parameter narrows the rows admitted so far to the wanted ones |
| `Filters.MapQueryParameters` | internal/api/utils.go:110-142 | all parameters of a request go into one map; an error exactly when one of them is faulty |
| `Filters.ClausesOnOwnColumns` | internal/api/utils.go:251-291 | every placeholder of a parameter's clauses is on that parameter's own columns |
| `Filters.NoneYetFiltered` | internal/api/utils.go:425-429 | so the parameters before leave the columns of another unfiltered |
| `Filters.AllParametersMean` | internal/api/utils.go:110-142 | the map of a request with different parameters, none colliding, admits exactly the rows that its first clauses admit and every parameter wants |
| `Paging.NextLinksWalkTheRest` | internal/api/utils.go:51-56 | following next links from any offset ends, and the pages are the rows from there on, each once and in order |
| `Paging.NextLinksWalkTheResult` | internal/model/recommendation_set.go:111-124 | from the start the walk is the whole result |
| `Paging.LinksLeadTo` | internal/api/utils.go:33-56 | where each of the four links leads and when it is there; last is the following page even past the end |
| `Paging.PreviousUndoesNextIff` | internal/api/utils.go:44-56 | the previous link leads back along a next link exactly from a positive offset |

## Left out

- Kafka, HTTP, GORM, logging, metrics, configuration and feature flags are environment: a success, a failure or a reply. A lost answer to a commit, and a commit of the offset that itself fails, are not modelled.
- IEEE 754: amounts are exact reals, so NaN and infinity, the branches of the clamps for them, and the rounding of the NUMERIC(20,4) constant and of `duration.Hours()` are absent.
- PollerRuns.NamespaceHistoryAlwaysComplete: needs single-answer namespace replies; without them NamespaceHistoryMatchesIff says exactly what holds.
- GateRuns.SavesAreThrottled: is about workloads that are not deleted, under regular replies; DueAgainIff says what a container that is left out of a reply changes.
- Poller.RecommendationPoller.PollForRecommendations: the first row in primary key order is any row of the workload, chosen by the environment; row ids and the order of the keys are not modelled.
- RecommendationJson.ListFormIsDetailFormWithoutPlots: the passes are functions on trees where the source updates nested maps in place; a tree fresh from json.Unmarshal has no shared parts, so aliasing is all that is missing, and key order and log output are absent too.
- VariationCache.StoredResponseIsRecomputedIff: the text of times and numbers is not modelled; a time prints by any function.
- Partitions.PartitionCatalog.CreateRangePartition: names are structured, so folding, the length limit of identifiers and two parents that differ only in `-` and `_` are not modelled, nor is the trigger that makes an organisation's own parent table.
- Aggregation.AggregateObjects: follows the three usage sums only; means, minima, maxima and the other summed columns are left out, and so are the internals of the dataframe library.
- Aggregation.ProcessReport: Kruize's answers, experiment creation, failing table writes and the workload_metrics inserts are left out; the chunk size is at least 1.
- Aggregation.FilterValidCSVRecords: lower-casing covers ASCII letters.
- The namespace report, whose payload keeps the first row of each interval, is left out: conservation needs a further assumption there.
- Filters.BuildSQLClauseWithFilterType: clauses are structured instead of text, pattern matching and UUID parsing are any functions, and value sanitization is off, as all callers ask for.
- Paging.NextLinksWalkTheResult: the totally ordered result is given; sorting, the text of the links and CSV limits are left out.
- Filters.MapQueryParameters: whether a workload type is known is an input of each parameter, and the two time-range clauses are those the map starts from.
- Parsing of the time range, RBAC, identity decoding, CSV output and experiment names have no part in the five components.
