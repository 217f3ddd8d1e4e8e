# sway-dashboard analytics core, modelled in Dafny

The sway-dashboard shows a "viewpoint group" leader where their supporters
live and vote. It walks the leader's network of groups (the root group plus
every group led by one of its supporters). It joins the network's supporter
profiles to people, verified voter records and jurisdictions. From that it
builds:

- per-jurisdiction counts and influence metrics;
- a state distribution;
- growth time series;
- the upcoming elections in scope;
- the summary cards and the stronghold/opportunity segments.

A set of data-loading scripts feeds the database. They render JSON rows as
batched SQL `INSERT` statements. When a batch upsert fails they drop the
unknown column the error names and retry, then send the whole batch again
as a plain insert, skipping batches that fail on duplicate or foreign keys.
They filter races whose foreign keys are missing.

The model states each of these computations as pure Dafny functions over
immutable data, with a few methods for the loops. Its modelling choices:

- Database answers are inputs.
  - A table is a `seq` of rows.
  - A query that can fail is a `Result`.
  - A batch of `.in()` lookups carries the set of batch indices that failed.
  - Effectful helpers take a call-indexed stream of outcomes.
- JavaScript objects are lists of fields in `Object.keys` order, with distinct keys.
- Numbers are `real` or `int`.
- Dates are day numbers of the proleptic Gregorian calendar.
- Instants are milliseconds.

Modules, following the program's files:

| module | file | models |
|---|---|---|
| `Wrappers`, `Seqs`, `Strings`, `Sorting` | wrappers, seqs, strings, sorting | `Option`/`Result`, list helpers, digit rendering, stable `Array.prototype.sort` |
| `Batching`, `Network` | batching, network | the 100-id `.in()` batching loop and `getViewpointGroupNetwork` |
| `SupporterMap` | supporters | `getSupportersByJurisdiction` and its client copy's join |
| `Calendar`, `GrowthSeries` | calendar, growth | `formatPeriod`, `getPeriodEnd`, ISO weeks, `getSupporterGrowthTimeSeries` |
| `DailySeries`, `SeriesMerge` | daily, merge | the client's daily series, the materialized-view merge, `getVerifiedSupporterCount` |
| `Influence`, `JurisdictionsClient` | influence, jurisdictions_client | turnout estimates, influence metrics and score, the client's jurisdiction list |
| `StateDistribution`, `Elections` | states, elections | state distribution; upcoming elections and election detail |
| `Dashboard`, `Segments`, `Retry` | dashboard, segments, retry | API routes and hooks, the jurisdictions page segments, the home page insights and table, `retryWithBackoff` |
| `JsValue`, `SqlInsert`, `ColumnFilter`, `BatchLoader`, `RaceKeys` | json, sql_insert, columns, insert_batch, race_keys | the data-loading scripts |

## Model

| member | source | states |
|---|---|---|
| Network.ResolveNetwork | lib/leader-context.ts:11-72 | The network starts with the root group and holds it once, with no duplicates. It is `[root]` alone when the supporter query fails or yields no profile ids. |
| Network.SubGroupsAvoidRoot | lib/leader-context.ts:45-62 | The sub-group query never returns the root itself (the `neq` filter), whatever batches fail. |
| Network.MemberFromSubGroupRow | lib/leader-context.ts:45-69 | Every non-root member comes from a leader row returned by the batched sub-group query for the supporters' ids. |
| Network.NetworkSound | lib/leader-context.ts:17-69 | Every non-root member is a group led by a supporter of the root: the network reaches one hop only. |
| Network.NetworkComplete | lib/leader-context.ts:17-71 | When no query fails, every group led by a supporter of the root is in the network. |
| Network.NetworkFailuresOnlyDrop | lib/leader-context.ts:54-57 | A failing sub-group batch only removes members: every member is also a member when no batch fails. |
| Batching.Present | lib/leader-context.ts:32-34 | The non-null ids of a column: every id present is kept, and nothing else. |
| Batching.BatchResults | lib/leader-context.ts:45-62 | One result per batch; a failed batch contributes nothing. |
| Batching.BatchedLookupSound | lib/leader-context.ts:45-62 | Every row returned by the batched loop is a table row whose key is one of the requested ids. |
| Batching.BatchedLookupComplete | lib/leader-context.ts:45-62 | With no failed batch, every table row whose key is requested is returned. |
| Batching.BatchedEqualsUnbatched | lib/leader-context.ts:45-62 | Without failures, batching by 100 gives the same rows as one query over all ids. |
| Batching.FailuresOnlyDrop | lib/leader-context.ts:54-57 | Failed batches only drop rows: each row returned is also returned when no batch fails. |
| SupporterMap.JoinSound | lib/queries.ts:127-173 | A profile is counted in a jurisdiction only if it is a network supporter with a person, a verified voter record and a link to that jurisdiction. A missing person, verification or link contributes nothing. |
| SupporterMap.JoinComplete | lib/queries.ts:127-173 | With unique profile ids and no failed batch, every full supporter-person-verification-link path is counted. |
| SupporterMap.PathsForSound | lib/queries.ts:151-173 | Every row a supporter emits has its profile and a jurisdiction reached through its person and one of their verifications. |
| SupporterMap.PathsForComplete | lib/queries.ts:151-173 | Every profile-person-verification-jurisdiction path of a supporter emits its row, with the supporter's date. |
| SupporterMap.JoinPathsProfiles | lib/queries.ts:151-173 | A profile is among a jurisdiction's rows exactly when the maps reach that jurisdiction from one of its supporter rows. |
| SupporterMap.ProfileToPerson | lib/queries.ts:128 | The profile-to-person map has exactly the fetched profile ids as keys, and each value is the person of a row with that id. |
| SupporterMap.ProfileToPersonUnique | lib/queries.ts:128 | With unique profile ids, each profile maps to its own row's person. |
| SupporterMap.PersonToVerifications | lib/queries.ts:129-136 | A person's list holds exactly the ids of their verification rows. |
| SupporterMap.VerificationToJurisdictions | lib/queries.ts:137-143 | A verification's list holds exactly the jurisdictions it is linked to. |
| SupporterMap.GroupPairs | lib/queries.ts:129-143 | A value is in a key's list exactly when that pair was pushed. |
| SupporterMap.DatesCanOutnumberProfiles | lib/queries.ts:159-170 | A profile with two verifications in the same jurisdiction adds its date twice: dates can outnumber the distinct profiles. |
| SupporterMap.StagesSound | lib/queries.ts:37-123 | A path through the maps built from the fetched stages is a path through the tables themselves. |
| SupporterMap.StagesComplete | lib/queries.ts:37-123 | Without failures, every stage fetches each row and id of a path through the tables. |
| SupporterMap.SupportersByJurisdictionShortcuts | lib/queries.ts:19-123 | The early returns change nothing: unless the supporter query fails, the map is the grouping of the join's paths. A network without supporter rows gives an empty map. |
| SupporterMap.EmptyStageNoPaths | lib/queries.ts:40-99 | If no supporter has a profile, no fetched profile has a person, or no person has a verification, the join has no paths. |
| SupporterMap.NoPaths | lib/queries.ts:151-173 | Supporters that reach no verification emit no path. |
| SupporterMap.GroupRows | lib/queries-client.ts:836-854 | The keys are exactly the rows' jurisdictions, and each entry holds the distinct profiles and all dates of that jurisdiction's rows. |
| SupporterMap.CountProfilesMatchesGroupRows | lib/queries-client.ts:498-507 | A jurisdiction is counted exactly when it has a profile, and its set is that of the grouped rows. |
| SupporterMap.SamePairsSameProfiles | lib/queries-client.ts:836-854 | Two row lists with the same jurisdiction-profile pairs give the same profile sets. |
| SupporterMap.ClientMatchesServer | lib/queries-client.ts:836-854 | When the client's mapping rows hold exactly the linked pairs, its map and the server's join give the same profile set for a jurisdiction. |
| SupporterMap.ClientMatchesServerAt | lib/queries.ts:145-175 | The same agreement for one profile and jurisdiction. |
| Calendar.DaysInMonth | lib/queries.ts:776-779 | A month of the Gregorian calendar has 28 to 31 days. |
| Calendar.IsoWeek | lib/queries.ts:763-771 | `getWeekNumber` returns a week number from 1 to 53. |
| Calendar.SameWeekSameNumber | lib/queries.ts:763-771 | Days of the same Monday-to-Sunday week get the same week number. |
| Calendar.FormatPeriod | lib/queries.ts:747-758 | A period key is never empty. |
| Calendar.KeyRoundTrip | lib/queries.ts:747-758 | Parsing a rendered key recovers the date's year and its month, or its ISO week. |
| Calendar.SameKeySamePeriod | lib/queries.ts:747-758 | Two dates with the same key share their year and their month, or their ISO week. |
| Calendar.WeeklyKeyCollision | lib/queries.ts:753-757 | A weekly key joins the calendar year to the ISO week, so 2024-12-30 and 2024-01-03, 362 days apart, both get `2024-W01`. |
| Calendar.MonthlyPeriodEnd | lib/queries.ts:776-779 | A monthly key's end parses and is the last day of the date's month. |
| Calendar.MonthEndIsLastDay | lib/queries.ts:777-779 | Day 0 of the following month is the month's first day plus its length, minus one. |
| Calendar.MonthlyEndCoversDate | lib/queries.ts:776-779 | Every date lies on or before the end of its own month's period. |
| Calendar.WeeklyPeriodEnd | lib/queries.ts:780-790 | A weekly key's end parses and is the week end computed from the key's year and ISO week. |
| Calendar.WeekEndIsSunday | lib/queries.ts:780-790 | The week end is the first Sunday on or after January 1 plus `(week - 1) * 7` days. |
| Calendar.WeeklyEndBeforeItsDates | lib/queries.ts:780-790 | 2021-01-05 has key `2021-W01`, whose period end is 2021-01-03, two days before the date. |
| GrowthSeries.Dated | lib/queries.ts:207-208 | Exactly the rows with a creation date enter the series. |
| GrowthSeries.BucketOfTag | lib/queries.ts:205-215 | A row lands in exactly the bucket of its own period key. |
| GrowthSeries.SortedKeysSpec | lib/queries.ts:218 | The keys are strictly increasing and are exactly the keys of the dated rows. |
| GrowthSeries.BuildPointsSpec | lib/queries.ts:222-242 | When the loop succeeds, each key's end parsed. Each point's new count is its bucket's size, its active count is the key's count inside the window ending at its period end, and its cumulative count adds the buckets so far to the starting total. |
| GrowthSeries.ActiveInWindow | lib/queries.ts:227-233 | The active count of a key is the number of its bucket's dates `d` with `periodEnd - 30 days <= d <= periodEnd`. |
| GrowthSeries.GrowthNeverFails | lib/queries.ts:195-244 | Period ends of keys made by `formatPeriod` always parse, so the series never fails. A failing query gives `[]`; otherwise there is one point per distinct period. |
| GrowthSeries.GrowthSeriesPoint | lib/queries.ts:222-242 | Each point has a key of some row and the parsed end of that key. Its new count is its bucket's size and its cumulative count the buckets so far. Its active count is the number of its bucket's dates within the 30 days up to its period end. |
| GrowthSeries.GrowthSeriesOrdered | lib/queries.ts:218 | The points come in strictly increasing key order. |
| GrowthSeries.GrowthSeriesTotal | lib/queries.ts:204-244 | The series is empty exactly when no row is dated, and otherwise the last cumulative count is the number of dated rows. |
| GrowthSeries.GrowthCumulativeMonotone | lib/queries.ts:220-239 | The cumulative count never decreases along the series. |
| DailySeries.SortedDaysSpec | lib/queries-client.ts:205-207 | The days are strictly increasing and are exactly the days of the records. |
| DailySeries.DailyPointSpec | lib/queries-client.ts:177-239 | A day's point counts that day's distinct supporters, the distinct supporters up to that day, and those active in its 30-day window. |
| DailySeries.WalkSpec | lib/queries-client.ts:209-236 | The loop's running set after each day is the starting set joined with every day so far. |
| DailySeries.DailyCumulativeMonotone | lib/queries-client.ts:209-236 | Cumulative counts never decrease. |
| DailySeries.DailyActiveBound | lib/queries-client.ts:216-236 | The active count never exceeds the cumulative count. |
| DailySeries.ActiveNotLater | lib/queries-client.ts:216-236 | A record in a day's active window is from that day or earlier. |
| DailySeries.DailyTotal | lib/queries-client.ts:204-239 | The last point's cumulative count is the number of distinct supporters. |
| DailySeries.CumulativeIsNotRunningSum | lib/queries-client.ts:209-236 | A supporter seen on two days counts once in the cumulative total but in both days' new counts. |
| DailySeries.DailyGrowth | lib/queries-client.ts:140-175 | View rows are passed through when present. Otherwise the fallback runs, and the whole call fails exactly when the fallback query fails. |
| SeriesMerge.FoldKeys | lib/queries-client.ts:314-338 | The fold's keys are exactly the rows' period keys, listed once each in first-seen order. |
| SeriesMerge.FoldAt | lib/queries-client.ts:314-338 | An entry sums its rows' new counts, keeps the first row's date and period, and takes the maximum active and cumulative counts. |
| SeriesMerge.MaxActiveForSpec | lib/queries-client.ts:334-337 | The maximum is at least every row's value and equals some row's value. |
| SeriesMerge.SortedAggs | lib/queries-client.ts:341-343 | The merged entries are sorted by date, earliest first. |
| SeriesMerge.SortedAggsTotal | lib/queries-client.ts:341-343 | There is one entry per distinct key, and together the entries hold every row's new count. |
| SeriesMerge.SortedAggsEntry | lib/queries-client.ts:341-343 | Every merged entry is the aggregate of one period key. |
| SeriesMerge.RunningSpec | lib/queries-client.ts:340-355 | The recomputed cumulative count is the running sum of new counts. |
| SeriesMerge.MergeTotal | lib/queries-client.ts:340-355 | For a non-empty input, the last cumulative count is the total of all rows' new counts. |
| SeriesMerge.MergePoint | lib/queries-client.ts:314-355 | There is one merged point per distinct key. Each has the date and period of the key's first row, the sum of its rows' new counts and the maximum of their active counts. |
| SeriesMerge.SortedAggsCover | lib/queries-client.ts:314-343 | Every distinct key has an aggregate in the sorted list, and that aggregate is the key's expected one. |
| SeriesMerge.MergeCovers | lib/queries-client.ts:314-365 | Every distinct key has its own merged point, with the date and period of the key's first row, the sum of its rows' new counts and the maximum of their active counts. |
| SeriesMerge.MergeOrdered | lib/queries-client.ts:341-343 | Merged points come in date order. |
| SeriesMerge.ViewSeries | lib/queries-client.ts:242-365 | The series fails exactly when the view query fails, and no rows give an empty series. Several groups are merged. A single group gives one point per row, in order, each with that row's date, period and counts. |
| SeriesMerge.CumulativeOnDaySpec | lib/queries-client.ts:428-436 | The values kept are exactly the cumulative counts of rows on the given UTC day. |
| SeriesMerge.VerifiedCount | lib/queries-client.ts:417-444 | The verified count fails exactly when its query fails. |
| SeriesMerge.VerifiedCountSpec | lib/queries-client.ts:417-444 | No rows give 0. Otherwise the count is the largest cumulative count among the rows on the first row's UTC day, and is attained by one of them. |
| Influence.EstimateTurnout | lib/queries.ts:409-425 | The turnout estimate is positive for every jurisdiction type. |
| Influence.TurnoutTable | lib/queries.ts:409-425 | The per-level estimates: 150000000 for a country, 5000000 for a state, 500000 for a county and 50000 for a city. Any other level, districts and a missing level included, gets 10000. |
| Influence.RecentCountSpec | lib/queries.ts:361-363 | The recent count is the number of the jurisdiction's creation dates, duplicates included, that fall on or after the cutoff thirty days back. |
| Influence.DisplayName | lib/queries.ts:384 | The name shown is never empty: the jurisdiction's name when it has one. |
| Influence.MetricsSpec | lib/queries.ts:354-396 | A jurisdiction's supporter count is its distinct profiles, 0 when it has none. Its share is that count over the level's turnout estimate, times 100. Its active count is the number of its creation dates within the last thirty days. |
| Influence.MetricsRatesSpec | lib/queries.ts:364-377 | With supporters, the active rate times the supporter count is 100 times the active count; without, it is 0. When supporters predate the window, growth times their number is 100 times the recent count; otherwise growth is 100 with recent supporters and 0 without. Both are never negative. |
| Influence.RateSpec | lib/queries.ts:373-377 | The active rate multiplied back by a positive total gives 100 times the active count; a zero total gives 0. |
| Influence.GrowthSpec | lib/queries.ts:364-371 | Growth multiplied by a positive earlier count gives 100 times the recent count; with no earlier count it is 100 or 0 as recent supporters exist. |
| Influence.ActiveRateAbove100 | lib/queries.ts:361-377 | An active count measured on dates rather than profiles can exceed the supporter count, giving a rate above 100. |
| Influence.JurisdictionsWithInfluenceSpec | lib/queries.ts:299-399 | No supporters give `[]`. Each entry is a jurisdiction with supporters, carrying its own distinct-profile count and the level of a fetched row with its id. |
| Influence.JurisdictionsWithInfluenceComplete | lib/queries.ts:308-399 | With no failing batch, every table row of a jurisdiction with supporters comes back with that jurisdiction's metrics. |
| Influence.Clamp | lib/queries.ts:741 | The result lies within the bounds, and a value already within them is unchanged. |
| Influence.AlignmentSpec | lib/queries.ts:725-732 | Alignment is at most 1 and is 0 with no weights. With weights between 0 and 1 it is their average, missing weights counting as 0. |
| Influence.InfluenceScore | lib/queries.ts:705-742 | The score is between 0 and 100, and is 0 without a target group. |
| Influence.WeightSumBounds | lib/queries.ts:725-732 | With each weight between 0 and 1, the total lies between 0 and the number of weights. |
| Influence.ScoreMonotone | lib/queries.ts:734-741 | A larger supporter count never lowers the score. |
| Influence.ScoreUnclamped | lib/queries.ts:739-741 | When the formula (supporters over 10000 times 50, plus alignment times 50) lies within 0 to 100, the score is that formula. |
| JurisdictionsClient.SupportersByJurisdictionClient | lib/queries-client.ts:815-857 | A failing mapping query gives an empty map. Otherwise the keys are exactly the rows' jurisdictions, each with its rows' profile set and dates. |
| JurisdictionsClient.CountedIdsSpec | lib/queries-client.ts:499-509 | The listed jurisdiction ids are exactly the keys of the profile counts, that is, the jurisdictions with at least one profile. |
| JurisdictionsClient.TallyItemsSpec | lib/queries-client.ts:625-646 | A jurisdiction has a tally exactly when some item is on it. The tally holds the distinct elections of its items, its item count and the count of its items with a race. |
| JurisdictionsClient.TallyBounds | lib/queries-client.ts:629-646 | A jurisdiction's race count and election count never exceed its item count. |
| JurisdictionsClient.SummariseSpec | lib/queries-client.ts:648-656 | A summary carries the row's id and level, its distinct-profile count, and its election, item and race tallies, with races and elections at most items. |
| JurisdictionsClient.JurisdictionsWithInfluenceClient | lib/queries-client.ts:451-669 | An empty network gives `[]`. A failure needs the mapping query or a jurisdiction batch to fail. |
| JurisdictionsClient.JurisdictionsWithInfluenceClientSucceeds | lib/queries-client.ts:554-557 | When neither the mapping query nor a jurisdiction batch fails, the call succeeds. |
| JurisdictionsClient.JurisdictionsWithInfluenceClientSpec | lib/queries-client.ts:509-656 | Each summary is made from a fetched jurisdiction row with at least one profile, using the profile counts and the tallies of the fetched items. |
| JurisdictionsClient.JurisdictionsWithInfluenceClientComplete | lib/queries-client.ts:509-656 | With a network, a working mapping query and no failing jurisdiction batch, every jurisdiction row with a profile comes back with its summary. |
| StateDistribution.TrimSpec | lib/queries-client.ts:989-994 | The trimmed text is a slice of the input with no whitespace at either end, and everything cut off is whitespace. |
| StateDistribution.TrimIdempotent | lib/queries-client.ts:989-994 | Trimming twice equals trimming once. |
| StateDistribution.UpperSpec | lib/queries-client.ts:994 | Upper-cased text has no lower-case ASCII letter, and upper-casing twice equals once. |
| StateDistribution.StateName | lib/queries-client.ts:922-974 | Only a two-letter upper-case code can name a state, and the name is never empty. |
| StateDistribution.StateMap | lib/queries-client.ts:903-918 | The jurisdiction-to-state map has exactly the ids of the fetched rows. |
| StateDistribution.StateMapLast | lib/queries-client.ts:903-918 | A jurisdiction's state text comes from its last row. |
| StateDistribution.JurisdictionStatesSound | lib/queries-client.ts:889-918 | Every mapped jurisdiction is one of the mapping rows', and its text comes from a fetched row with its id. |
| StateDistribution.StateOfExample | lib/queries-client.ts:985-1000 | `" ca "` is counted under California. |
| StateDistribution.StateOfBlank | lib/queries-client.ts:989-991 | A blank or missing state is not counted. |
| StateDistribution.StateOfUnknown | lib/queries-client.ts:995-1000 | An unknown code is not counted. |
| StateDistribution.TagsSpec | lib/queries-client.ts:982-1000 | A tag comes from a row with both ids whose jurisdiction has a known state, and every such row gives one. |
| StateDistribution.TagStates | lib/queries-client.ts:982-1000 | A state appears among the tags exactly when some row with both ids has a jurisdiction of that state. |
| StateDistribution.GroupStatesSpec | lib/queries-client.ts:1002-1011 | Each state's group holds exactly its tagged supporters and jurisdictions. |
| StateDistribution.GroupStatesDomain | lib/queries-client.ts:1002-1011 | The grouped states are exactly the tagged states. |
| StateDistribution.NotCountedEmpty | lib/queries-client.ts:1002-1011 | A state no row is counted under has no supporters or jurisdictions. |
| StateDistribution.Counts | lib/queries-client.ts:1013-1018 | One count per counted state, in order of each state's first row. |
| StateDistribution.DistributionSorted | lib/queries-client.ts:1013-1019 | The distribution is ordered by supporter count, largest first, and names no state twice. |
| StateDistribution.DistributionCounts | lib/queries-client.ts:1013-1018 | Each entry's counts are the positive sizes of its state's distinct supporter and jurisdiction sets. |
| StateDistribution.DistributionStates | lib/queries-client.ts:1013-1019 | The entries name exactly the tagged states. |
| StateDistribution.StateDistributionClient | lib/queries-client.ts:862-1021 | The distribution fails exactly when the mapping query fails. |
| StateDistribution.StateDistributionEmpty | lib/queries-client.ts:884-899 | When no mapping row has a jurisdiction, the distribution is empty. |
| StateDistribution.StateDistributionClientSpec | lib/queries-client.ts:982-1019 | Without a mapping failure the call succeeds. A state is listed exactly when some row with both ids has a jurisdiction whose trimmed, upper-cased text names it. |
| Elections.NonEmpty | lib/queries.ts:510-559 | A text is kept exactly when it is present and not empty. |
| Elections.ElectionName | lib/queries.ts:510-559 | The shown name is never empty (`"Unnamed Election"` otherwise). |
| Elections.FirstWhere | lib/queries.ts:510-559 | A found row is in the table and matches; nothing is found exactly when no row matches. |
| Elections.ItemsOf | lib/queries.ts:490-566 | An election's ballot items are exactly the ballot rows of that election. |
| Elections.ClassifySpec | lib/queries.ts:510-559 | An item is a measure exactly when no race but some measure references it. It has no detail exactly when neither does. A race item carries a race of that item and a measure item a measure of it. |
| Elections.ScopeIdsSpec | lib/queries.ts:474-479 | The scope lists each jurisdiction of the election's items exactly once. |
| Elections.InScopeZero | lib/queries.ts:481-487 | When no scoped jurisdiction has supporters, 0 supporters are in scope. |
| Elections.ServerEntryScope | lib/queries.ts:481-573 | An entry counts the supporters of its scoped jurisdictions. Its share is that count over 10000 per jurisdiction, times 100, and is absent with no jurisdiction. |
| Elections.ServerEntryItems | lib/queries.ts:490-566 | One scored item per ballot row, classified as above, with a score between 0 and 100. An item without detail scores 0. The influence-target count is the number of items scored above 50. |
| Elections.UpcomingElections | lib/queries.ts:430-588 | A failing elections query gives `[]`, and there are never more entries than elections. |
| Elections.UpcomingElectionsOrder | lib/queries.ts:462-587 | There is one entry per election whose ballot items load and exist, in the order the elections came. |
| Elections.UpcomingElectionsClient | lib/queries-client.ts:1026-1170 | The client's list fails exactly when the elections query fails, and never has more entries than elections. |
| Elections.UpcomingElectionsClientSpec | lib/queries-client.ts:1058-1168 | The client lists the same elections as the server, with the same supporters in scope and the same items. Its race and measure counts add up to its item count. |
| Elections.RacesAndMeasures | lib/queries-client.ts:1145-1150 | Races plus measures equals the number of ballot items. |
| Elections.BreakdownSpec | lib/queries-client.ts:1210-1229 | The breakdown has one row for each jurisdiction of the items, and its counts add up to the supporters in scope. |
| Elections.BreakdownSum | lib/queries-client.ts:1217-1229 | The breakdown's counts add up to the supporters in scope. |
| Elections.TopRacesSorted | lib/queries-client.ts:1287-1297 | At most three race items, ordered by their jurisdiction's supporter count, largest first. There are exactly three when at least three races exist. |
| Elections.TopRacesMaximal | lib/queries-client.ts:1287-1297 | No race left out has more supporters than one kept. |
| Elections.ElectionDetailNull | lib/queries-client.ts:1183-1203 | A detail is null exactly when the election query fails, does not return exactly one row, or the ballot items fail to load. |
| Elections.ElectionDetailBreakdown | lib/queries-client.ts:1175-1322 | A detail has one breakdown row per jurisdiction of its items, with counts adding up to its supporters in scope. Its races and measures add up to its items. |
| Dashboard.Summary | app/api/summary/route.ts:30-59 | The summary reports the given total and active counts. Its high-leverage election count is the number of elections whose share in scope is present and at least 5, and its active rate is never negative. |
| Dashboard.SummaryActiveRate | app/api/summary/route.ts:31-32 | The active rate is 0 with no supporters, and otherwise active over total times 100. It is at most 100 when the active count is at most the total. |
| Dashboard.TopByShareNone | app/api/summary/route.ts:35-39 | There is no top jurisdiction exactly when no jurisdiction has a share. |
| Dashboard.TopByShareMax | app/api/summary/route.ts:35-39 | The top jurisdiction is one with a share, its share is at least every other share, and it is the first with that share. |
| Dashboard.SummaryTop | app/api/summary/route.ts:42-57 | The summary has a top jurisdiction exactly when one has a share, and copies its id, name, count and share. When every election is high-leverage, all are counted. |
| Dashboard.SortInOrder | app/api/jurisdictions/route.ts:43-47 | `asc` sorts smallest first and any other order largest first. |
| Dashboard.SortServerJurisdictionsSpec | app/api/jurisdictions/route.ts:17-48 | The route returns a permutation of the jurisdictions, ordered by the chosen key in the chosen direction. Jurisdictions with equal keys keep their order. |
| Dashboard.ServerSortDefaults | app/api/jurisdictions/route.ts:10-47 | Without parameters the route sorts by share, largest first. An unknown key also sorts by share, a missing share counting as 0. Only `asc` sorts smallest first. |
| Dashboard.SummaryMetricsHook | lib/hooks/use-dashboard-data.ts:26-60 | The hook succeeds exactly when all three of its queries succeed. |
| Dashboard.SummaryMetricsHookTopState | lib/hooks/use-dashboard-data.ts:36-42 | There is no top state exactly when the distribution is empty. Otherwise the top state has at least as many supporters as every state. |
| Dashboard.SummaryMetricsHookElections | lib/hooks/use-dashboard-data.ts:45-53 | Elections with access are the number of upcoming elections with a supporter in scope, and the total ballot items is the sum of their item counts. Since each lists an item, the first is at most the elections, which are at most the second. |
| Dashboard.SortClientJurisdictionsSpec | lib/hooks/use-dashboard-data.ts:100-142 | The hook's sort is a permutation ordered by the chosen key and direction, keeping equal keys in order. A missing or unknown key sorts by supporter count. |
| Sorting.SortBy | app/api/jurisdictions/route.ts:17-48 | The numeric-comparator sort returns a permutation ordered by the key. |
| Sorting.SortDescBy | app/api/jurisdictions/route.ts:17-48 | The descending sort returns a permutation ordered largest first. |
| Sorting.SortByStable | app/api/jurisdictions/route.ts:17-48 | Elements with equal keys keep their relative order, as the stable JavaScript sort keeps them. |
| Sorting.SortDescByStable | app/api/jurisdictions/route.ts:17-48 | The descending sort is stable too. |
| Sorting.SortedDescHeadIsMax | app/api/summary/route.ts:35-39 | The head of a descending sort has the largest key. |
| Sorting.SortedDescHeadIsFirstMax | app/api/summary/route.ts:35-39 | The head of a descending sort is the first input element with the largest key. |
| Segments.SegmentSpec | app/jurisdictions/page.tsx:40-48 | Each segment keeps its input's order and holds exactly the jurisdictions meeting its rule. Strongholds need a share of at least 5 and an active rate of at least 50. Sleeping giants need at least 100 supporters and a rate under 30. Emerging markets need growth of at least 20 and a share under 5. A stronghold is never in another segment. |
| Segments.ServerPageJurisdictions | app/jurisdictions/page.tsx:8-25 | The server page lists a permutation of the jurisdictions it fetched, or none on error. |
| Segments.ServerPageSegmentsSpec | app/jurisdictions/page.tsx:36-48 | A failing request shows no segment. Otherwise each segment holds exactly the returned jurisdictions meeting its thresholds. |
| Segments.ClientPageSpec | app/jurisdictions/page-client.tsx:32-59 | On objects that carry share, rate and growth, the page lists a permutation sorted by share, largest first. Each segment holds exactly the entries meeting its thresholds. |
| Segments.ClientPageAsWrittenEmpty | app/jurisdictions/page-client.tsx:51-59 | On the objects the client query returns, the page keeps the hook's order and every segment is empty. |
| Segments.ClientShareSortKeepsOrder | app/jurisdictions/page-client.tsx:32-38 | With every share missing, the share sort leaves the list as it is. |
| Segments.StrongholdShown | app/jurisdictions/page-client.tsx:51-53 | A jurisdiction with share 10 and active rate 80 is a stronghold on the corrected page, while as written the stronghold list stays empty. |
| Segments.InfluenceInsightsSpec | components/influence-insights.tsx:26-40 | Each insight list holds at most five entries, in input order, each meeting its rule. When at most five qualify, it holds all of them. |
| Segments.HomeInsightsAsWrittenEmpty | app/page-client.tsx:37-63 | As written, the home page's insight lists are all empty whatever the data. Its jurisdiction objects have no active rate or growth, and its election objects have no share. |
| Segments.HomeInsightsSpec | components/influence-insights.tsx:26-40 | Over objects that carry the metrics, the component's rules select exactly the lists of `InfluenceInsights`. |
| Segments.WakeUpZoneShown | app/page-client.tsx:37-63 | A jurisdiction with 60 supporters and a 10 percent active rate is a wake-up zone over the metrics. It is missing from the page as written. |
| Segments.GrowthLabelsSpec | app/page-client.tsx:43-51 | Labelling the rows succeeds exactly when every row has a growth, with one label per row. Otherwise it throws the `toFixed` error. |
| Segments.HomeTableAsWrittenThrows | app/page-client.tsx:43-51 | As written, the home table throws as soon as the hook returns a jurisdiction. |
| Segments.HomeTableSpec | app/page-client.tsx:43-51 | Over objects that carry the metrics, the table shows the first ten jurisdictions. |
| Retry.RetryFrom | lib/queries-client.ts:47-62 | A run makes between 1 and `retries + 1` calls, waits once between consecutive calls, and returns the last call's outcome. |
| Retry.RetryWithBackoff | lib/queries-client.ts:47-62 | With the default of three retries, a run makes at most four calls. |
| Retry.RetryFromFirstSuccess | lib/queries-client.ts:47-62 | The helper stops at the first success: every call before the last one failed, and a failing run used every retry. |
| Retry.RetryFromDelays | lib/queries-client.ts:57-59 | A run's waits are a prefix of the backoff schedule for its retry count. |
| Retry.RetryWithBackoffSpec | lib/viewpoint-groups-client.ts:15-36 | The default run succeeds exactly when one of the first four calls succeeds, and returns the first success. A failure rethrows the fourth error after waiting 1000, 2000 and 3000 ms. |
| Retry.AllViewpointGroupsSpec | lib/viewpoint-groups-client.ts:41-56 | The list succeeds exactly when one of four queries returns data; null data gives `[]`. Otherwise the fourth error is thrown. |
| Retry.ViewpointGroupByIdSpec | lib/viewpoint-groups-client.ts:61-79 | The by-id getter never throws, so one call is made; an error gives null. |
| SqlInsert.DoubleQuotes | scripts/data-loading/load-data-to-supabase.ts:38 | Doubling quotes never shortens the text. |
| SqlInsert.Quote | scripts/data-loading/load-data-to-supabase.ts:38 | A quoted literal starts and ends with a single quote. |
| SqlInsert.ScanBodyDoubled | scripts/data-loading/load-data-to-supabase.ts:37-39 | The SQL lexer reads a doubled body back to the original text and stops at the closing quote. |
| SqlInsert.QuoteRoundTrip | scripts/data-loading/load-data-to-supabase.ts:37-39 | Reading the literal back gives the string exactly, so no value can end the literal early. |
| SqlInsert.SqlValueSpec | scripts/data-loading/load-data-to-supabase.ts:27-44 | null and undefined become NULL, and booleans become TRUE/FALSE. Strings read back as themselves; objects and arrays become their JSON text cast to jsonb. |
| SqlInsert.Statement | scripts/data-loading/load-data-to-supabase.ts:68-70 | Every statement starts `INSERT INTO ` and ends with `ON CONFLICT DO NOTHING;`. |
| SqlInsert.GenerateInsert | scripts/data-loading/load-data-to-supabase.ts:47-75 | No statement without a first object row. Otherwise there is one statement per batch of rows, using the first row's keys. |
| SqlInsert.EmitBatches | scripts/data-loading/load-data-to-supabase.ts:59-72 | The loop emits one statement per slice of `batchSize` rows, in order. |
| SqlInsert.TupleMissingColumn | scripts/data-loading/load-data-to-supabase.ts:57-64 | The columns are the first row's keys. A later object row without one of them gets `NULL` in that column. |
| JsValue.Put | scripts/data-loading/load-all-data.ts:74-77 | Writing a property sets it and leaves every other property as it was. |
| JsValue.PutKeys | scripts/data-loading/load-all-data.ts:74-77 | An existing key keeps its place; a new one goes last. |
| JsValue.PutDistinct | scripts/data-loading/load-all-data.ts:74-77 | Writing a property keeps the keys distinct. |
| JsValue.Assign | scripts/data-loading/load-all-data.ts:74-77 | A spread holds the keys of both objects, each once. |
| JsValue.AssignGet | scripts/data-loading/load-all-data.ts:74-77 | In a spread, the source's properties win and the others keep the target's values. |
| ColumnFilter.FilterRowColumns | scripts/data-loading/load-all-data.ts:56-81 | The filtered row has no invalid column. |
| ColumnFilter.SplitEntriesIsFilter | scripts/data-loading/load-all-data.ts:63-70 | The entries loop splits the row into its valid and its invalid properties, each in order. |
| ColumnFilter.FilterRowColumnsDrop | scripts/data-loading/load-all-data.ts:60-80 | A row with no invalid key is returned unchanged. When `data` is itself invalid, the row just loses its invalid columns. |
| ColumnFilter.FilterRowColumnsKeeps | scripts/data-loading/load-all-data.ts:63-66 | Every valid column other than `data` keeps its value. |
| ColumnFilter.FilterRowColumnsMerges | scripts/data-loading/load-all-data.ts:72-78 | With an invalid column present, `data` becomes an object holding each dropped column's value. Its other keys keep the old `data` object's values, or are absent when there was none. |
| ColumnFilter.MergedDataGet | scripts/data-loading/load-all-data.ts:74-77 | In the merged `data`, an extra column wins, and any other key keeps the old `data` object's value. |
| ColumnFilter.ExtractInvalidColumnSound | scripts/data-loading/load-all-data.ts:83-87 | An extracted column name is non-empty, has no quote, and occurs in the message inside the matched pattern. |
| ColumnFilter.ExtractInvalidColumnComplete | scripts/data-loading/load-all-data.ts:83-87 | A message containing the pattern always yields a column, and a message that starts with it yields exactly its name. |
| ColumnFilter.MatchAtOccurs | scripts/data-loading/load-all-data.ts:85 | Where the pattern occurs with a name, the match at that position gives that name. |
| ColumnFilter.ExtractFromComplete | scripts/data-loading/load-all-data.ts:83-87 | Scanning from any position before an occurrence finds a match. |
| BatchLoader.Payload | scripts/data-loading/load-all-data.ts:137-142 | The payload has one row per object row of the batch, and no payload row has an invalid column. |
| BatchLoader.ColumnStep | scripts/data-loading/load-all-data.ts:152-174 | After a missing-column error the batch step is well formed: at most four requests, the upsert first, and at most two new cached columns. |
| BatchLoader.NoColumnStep | scripts/data-loading/load-all-data.ts:176-197 | After any other error the batch step is equally well formed. |
| BatchLoader.FallbackSpec | scripts/data-loading/load-all-data.ts:194-292 | The insert fallback adds an insert, then at most one retry filtered with one more invalid column, which is then cached. A thrown error is never a duplicate-key or foreign-key error, and a successful insert stores the batch. |
| BatchLoader.BatchStepSpec | scripts/data-loading/load-all-data.ts:145-295 | A batch makes one to four requests, starting with the upsert. Every request is filtered with a set between the starting and final invalid sets, which grow by at most two columns. The batch is stored at once exactly when the upsert succeeds, and only an answer that is not a duplicate-key or foreign-key error is thrown. |
| BatchLoader.RunBatch | scripts/data-loading/load-all-data.ts:132-295 | A batch makes one to four requests and adds at most two invalid columns, none unless they are cached. |
| BatchLoader.InsertBatch | scripts/data-loading/load-all-data.ts:123-302 | The steps run are the batches' steps in order, each starting from the cache the one before left and stopping at the first throw. The call fails exactly when some batch threw, with that batch's message, and that batch is the last one run; otherwise all `ceil(n / 1000)` batches ran. Batches are numbered from 1. The cache only grows, only for this table, to the last batch's set, by at most two columns per batch. Each batch makes one to four calls. |
| BatchLoader.BatchesSpec | scripts/data-loading/load-all-data.ts:132-301 | A run has at most one step per batch. No step but the last throws, and it stops early only at a throw. |
| BatchLoader.BatchesCache | scripts/data-loading/load-all-data.ts:129-130 | Across a run the invalid-column set only grows, by at most two columns a batch, and stays the same unless some batch added a column. |
| BatchLoader.BatchesCalls | scripts/data-loading/load-all-data.ts:145-243 | Across a run each batch makes between one and four database calls. |
| BatchLoader.UpdatedCache | scripts/data-loading/load-all-data.ts:157-158 | Only the table's cache entry changes, and it becomes the final invalid-column set; other tables keep theirs. |
| BatchLoader.BatchNumbers | scripts/data-loading/load-all-data.ts:132-134 | The batch starting at row `k * 1000` gets number `floor(k * 1000 / 1000) + 1`, which is `k + 1`. |
| RaceKeys.ReasonsSpec | scripts/data-loading/fix-races-via-mcp.ts:97-107 | The reasons name exactly the missing references, each once. There are none exactly when the race is valid, and a null party never gives one. |
| RaceKeys.PartitionPass | scripts/data-loading/fix-races-via-mcp.ts:93-114 | One step of the loop keeps the partition invariant when a race has no reasons: it goes to the valid list. |
| RaceKeys.PartitionFail | scripts/data-loading/fix-races-via-mcp.ts:93-114 | One step of the loop keeps the partition invariant when a race has reasons: it goes to the invalid list with those reasons. |
| RaceKeys.Partition | scripts/data-loading/fix-races-via-mcp.ts:93-114 | The passed items are, in order, those without reasons. The failed ones are those with reasons, each carrying its own. Together they number the input. |
| RaceKeys.PartitionRaces | scripts/data-loading/fix-races-via-mcp.ts:93-114 | The valid list is the valid races in input order, and the invalid list holds the others, each with its non-empty reasons. |
| RaceKeys.RaceFieldsDecode | scripts/data-loading/fix-races-via-mcp.ts:56 | Each value of a tuple reads back as its column's field. The four ids unquote to themselves, and so do the two timestamps once the cast is dropped. Each flag column reads `true` exactly when the flag is set. |
| RaceKeys.PartyColumn | scripts/data-loading/fix-races-via-mcp.ts:55 | The party column is `NULL` exactly when the party is null or empty; any other party id is written quoted. |
| RaceKeys.ValuesAppend | scripts/data-loading/fix-races-via-mcp.ts:56-58 | The values text of two lists is their values texts joined by the separator, and one race's text is its tuple. |
| RaceKeys.InsertSql | scripts/data-loading/fix-races-via-mcp.ts:60-63 | The statement starts with the races `INSERT` head and ends with `ON CONFLICT (id) DO NOTHING;`. |
| RaceKeys.GenerateInsertSql | scripts/data-loading/fix-races-via-mcp.ts:48-64 | The result is the no-races comment exactly when there are no races, and otherwise the `INSERT` statement. |
| RaceKeys.ViaMcp | scripts/data-loading/fix-races-via-mcp.ts:79-134 | The script emits nothing exactly when no race is valid. Otherwise it emits the statement for the valid races, and it rejects exactly the invalid ones. |
| RaceKeys.ForeignKeysScript | scripts/data-loading/fix-races-foreign-keys.ts:66-110 | The second script emits nothing exactly when no race is valid, and otherwise the same statement for the valid races. |
| RaceKeys.StubsRejectAll | scripts/data-loading/fix-races-via-mcp.ts:126-129 | With the id lookups stubbed to empty sets, every race misses its office term and ballot item, so no race is valid and no SQL is emitted. |

## Left out

- Supabase and PostgREST plumbing, materialized views and SWR caching: their rows and query outcomes are inputs. A query's outcome is a call-indexed value that does not depend on the request's text.
- Concurrency: `Promise.all` is a sequential map, and one failure fails the whole result.
- `setTimeout`: retry delays are recorded, not slept.
- Time zones and time of day: dates are day numbers and instants are integers of milliseconds.
- Floating point and NaN: numbers are `real`. `Number.prototype.toString` and `JSON.stringify` are parameters of `SqlInsert.Formatting`.
- The integer-like key ordering of `Object.keys`: objects keep insertion order.
- `String.prototype.toUpperCase` beyond ASCII letters.
- React components, layout and charts, other than the segment and insight filters and the home table's growth labels.
- The `hasMeaningfulError` branch of the growth fallback, which only picks a log message.
- The race and measure detail fetches inside election detail: their names are inputs.
- The first, unused `periodMap` loop of the view merge, which writes a map that is never read.
- `getViewpointGroupNetworkClient` (lib/queries-client.ts): it is the same walk as `Network.ResolveNetwork`.
- load-data-direct.ts: it is an identical copy of the `SqlInsert` functions.
- `getTotalSupporterCount` and `getActiveSupporterCount`: their values are parameters of `Dashboard.Summary`.
- `getViewpointGroup` (lib/leader-context.ts:83-99): a single row fetch returning null on error, the same shape as `Retry.ViewpointGroupByIdSpec`.
- `sqlValue`'s last branch (`String(value)`): values from `JSON.parse` never reach it.
- File reading, `main`, console logging and `toFixed` progress percentages in the scripts.
- `getExistingIds`: its `Promise.all` results are the `Existing` parameter.
- `retryWithBackoff` called with negative retries: callers use the default.
- `generateInsert` with a batch size of 0 or less: the loop would never end, so the model requires a positive size.
- Race ids and other race fields are inserted without quote escaping: the model renders them as the scripts do and proves nothing about escaping them.

## Findings

| source | as written | input that shows it | evidently intended | confidence | as-written member | corrected member |
|---|---|---|---|---|---|---|
| app/jurisdictions/page-client.tsx:51-59 | The page segments the objects from `getJurisdictionsWithInfluenceClient` by `supporterShare`, `activeRate` and `growth30d`. Those objects (lib/queries-client.ts:648-656) have none of these fields, so every segment is empty and the share sort changes nothing. | a jurisdiction with share 10 and active rate 80 | strongholds, opportunities and fast-growing lists computed from the real metrics, as on the server page | not executed | Segments.ClientPageAsWrittenEmpty | Segments.ClientPageSpec |
| app/page-client.tsx:37-63 | The home page passes the client hooks' objects to `InfluenceInsights` (components/influence-insights.tsx:26-40). The jurisdiction objects have no `activeRate` or `growth30d`, and the election objects (lib/queries-client.ts:1152-1162) have no `supporterShareInScope`. So all three insight lists are empty. | a jurisdiction with 60 supporters and active rate 10 | wake-up zones, growth hotspots and high-leverage elections selected by the real metrics | not executed | Segments.HomeInsightsAsWrittenEmpty | Segments.HomeInsightsSpec |
| app/page-client.tsx:43-51 | The home table formats `j.growth30d.toFixed(1)` for each of the first ten jurisdictions. The client objects have no `growth30d`, so the first row throws a TypeError. | any one jurisdiction | one table row per jurisdiction, up to ten | not executed | Segments.HomeTableAsWrittenThrows | Segments.HomeTableSpec |
