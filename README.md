# Software hub dashboard: the data-shaping core in Dafny

The dashboard lists published software releases and the deployment tasks
(install, uninstall, update on a host) run for each of them. Its React
components hold a small amount of real logic, and this project models and
verifies it:

- **The software list** (`SoftwareList` module).
  - The three-part record filter: a case-insensitive search of the name or
    id, a case-sensitive owner substring match, and an exact publish-day match.
  - The statistics cards: the total, the number of distinct owners, the
    number of releases from the last seven days, and the number shown.
- **The filter panel** (`Filters` module). It is a class whose three text
  fields are replaced one key at a time, or all at once. Every change hands
  the new state to the page.
- **The deployment charts** (`DeploymentChart` module).
  - Status, action and per-day count dictionaries built by `reduce`.
  - The status colour map and the cycling action colours.
  - The day series, sorted by day.
- **The software charts** (`SoftwareChart` module).
  - The owner dictionary, shown as a bar chart with labels cut at 10
    characters and as a pie with labels cut at 8 and six cycling colours.
  - The publish-day series, sorted and cut to its last seven days.
- **The detail page** (`SoftwareDetail` module).
  - The tasks taken from the response.
  - The trim guard on searching.
  - The four task counters.
  - The status and action badge class maps.
- **The records and closed enumerations** (`SoftwareTypes` module).

Three shared modules support the rest:

- **`Strings`** models the JavaScript string operations used: `includes`,
  `toLowerCase` on ASCII, `split(c)[0]`, `trim`, label truncation, and
  code-point order.
- **`Seqs`** models `Array.prototype.filter`, characterised as an
  order-preserving selection with exact multiplicities.
- **`Histogram`** models the `acc[key] = (acc[key] || 0) + 1` reduce.
  - A `Record<string, number>` is a sequence of (key, count) pairs in
    insertion order. That is the order `Object.entries` returns for these
    keys, and it decides which colour each bar gets.
  - The reduce is written as a loop (`Tally`) and proved equal to a fold
    (`TallyOf`).
  - Its results are proved about the fold: one entry per distinct key, in
    first-occurrence order, each counting its key's occurrences, with the
    counts adding up to the input length.
  - Sorting by key (`SortByKey`) and `slice(-n)` (`LastN`) are modelled too.

Conventions:

- `localeCompare` on the day keys is code-point order. For `YYYY-MM-DD` keys
  the two agree.
- Dates are handled as follows:
  - A publication day is the text before the `T` of an ISO-8601 timestamp.
  - A task day is the text before the first space of `updateDate`.
  - The wall clock is a parameter `now` in milliseconds.
  - Date parsing is a parameter `parse`, which returns `None` for an invalid
    date.
- The function passed to `onFilterChange` is modelled by the value each filter
  method returns: that value is the state the callback receives.

## Model

| member | source | states |
|---|---|---|
| SoftwareTypes.ParseAction | src/types/software.ts:21 | a string is an action exactly when it is one of install, uninstall, update, and then names that action |
| SoftwareTypes.ParseStatus | src/types/software.ts:22 | a string is a task status exactly when it is one of SUCCEED, FAILED, PENDING, RUNNING, and then names that status |
| SoftwareTypes.Action.Name | src/types/software.ts:21 | each action is written as one of the three action literals |
| SoftwareTypes.TaskStatus.Name | src/types/software.ts:22 | each status is written as one of the four status literals |
| SoftwareTypes.ActionNamesRoundTrip | src/types/software.ts:21 | the action literals are pairwise distinct and each parses back to its action |
| SoftwareTypes.StatusNamesRoundTrip | src/types/software.ts:22 | the status literals are pairwise distinct and each parses back to its status |
| Strings.ContainsIffOccurs | src/pages/SoftwareList.tsx:31-34 | `includes` holds exactly when the needle occurs at some position of the haystack |
| Strings.ContainsIsShorter | src/pages/SoftwareList.tsx:34 | a string containing another is at least as long |
| Strings.ContainsFirstChar | src/pages/SoftwareList.tsx:34 | a string containing a non-empty needle contains the needle's first character |
| Strings.ToLower | src/pages/SoftwareList.tsx:31-32 | every ASCII capital becomes its small letter, every other character is kept, so no capital is left, and the length is kept |
| Strings.ToLowerIdempotent | src/pages/SoftwareList.tsx:31-32 | lower-casing twice is lower-casing once |
| Strings.PrefixBefore | src/components/software/DeploymentChart.tsx:37 | `split(c)[0]` is a prefix without c that is either the whole string or is followed by c |
| Strings.Ellipsize | src/components/software/SoftwareChart.tsx:18 | a label at most n long is kept; a longer one becomes its first n characters and "...", so it is never longer than n + 3 |
| Strings.TrimStart | src/pages/SoftwareDetail.tsx:27 | trimming the front removes only white space, and leaves a suffix that is empty or starts with a non-space |
| Strings.TrimEnd | src/pages/SoftwareDetail.tsx:27 | trimming the back removes only white space, and leaves a prefix that is empty or ends with a non-space |
| Strings.Trim | src/pages/SoftwareDetail.tsx:27 | `trim()` is empty exactly when every character is white space |
| Strings.LexLeTotal | src/components/software/DeploymentChart.tsx:43 | any two keys are comparable in the sort order |
| Strings.LexLeTransitive | src/components/software/DeploymentChart.tsx:43 | the sort order is transitive |
| Strings.LexLeAntisymmetric | src/components/software/DeploymentChart.tsx:43 | keys ordered both ways are equal |
| Seqs.Filter | src/pages/SoftwareList.tsx:29 | `filter` never gives more elements than it was given |
| Seqs.FilterSelects | src/pages/SoftwareList.tsx:29 | `filter` keeps the passing elements in their original order, each exactly as often as in the input, and drops every other element |
| Seqs.FilterIsSubsequence | src/pages/SoftwareList.tsx:29 | the filtered sequence keeps the input's relative order |
| Seqs.FilterAllPass | src/pages/SoftwareList.tsx:29 | every element of the filtered sequence passes |
| Seqs.FilterMultiset | src/pages/SoftwareList.tsx:29 | a passing element occurs as often as in the input, any other not at all |
| Seqs.FilterCons | src/pages/SoftwareList.tsx:29 | filtering a non-empty sequence is its first element, when it passes, followed by the rest filtered |
| Seqs.FilterLengthCons | src/pages/SoftwareDetail.tsx:79-81 | a filtered count is one for a passing first element plus the count of the rest |
| Seqs.SubsequenceIsShorter | src/pages/SoftwareList.tsx:29 | a subsequence is no longer than its source |
| Seqs.FilterKeepsAll | src/pages/SoftwareList.tsx:29 | filtering returns the input exactly when every element passes |
| Seqs.FilterKeepsLength | src/pages/SoftwareList.tsx:45-50 | the filtered length equals the input length exactly when every element passes |
| Seqs.FilterEmpty | src/pages/SoftwareList.tsx:45-50 | the filtered sequence is empty exactly when no element passes |
| Seqs.DistinctElementsBound | src/pages/SoftwareList.tsx:44 | a sequence has at most as many distinct elements as positions, and at least one when it is not empty |
| Seqs.FilterCountDisjointUnion | src/pages/SoftwareDetail.tsx:81 | counting with an either-or test of two exclusive tests is counting with each and adding |
| Histogram.Keys | src/components/software/DeploymentChart.tsx:18 | the keys of `Object.entries` are one per entry |
| Histogram.Bump | src/components/software/DeploymentChart.tsx:14 | `acc[k] = (acc[k] \|\| 0) + 1` adds one to the total and at most one entry |
| Histogram.BumpAppends | src/components/software/DeploymentChart.tsx:14 | `acc[k] = (acc[k] \|\| 0) + 1` on a key not yet present appends k with count 1 |
| Histogram.BumpInPlace | src/components/software/DeploymentChart.tsx:14 | on a key already present it raises that entry's count by one where it stands |
| Histogram.BumpCounts | src/components/software/DeploymentChart.tsx:14 | it raises k's count by one, leaves every other count alone, and raises the total by one |
| Histogram.BumpKeys | src/components/software/DeploymentChart.tsx:14 | it keeps the key order, appends k when new, and keeps keys distinct |
| Histogram.TallyOf | src/components/software/DeploymentChart.tsx:13-16 | the reduce over the items has at most one entry per item, and its counts add up to the number of items |
| Histogram.TotalIsSum | src/components/software/DeploymentChart.tsx:18-22 | a chart series showing a dictionary's counts entry by entry adds up to the dictionary's total |
| Histogram.Tally | src/components/software/DeploymentChart.tsx:13-16 | the reduce loop, one in-place update per item, ends with the fold of `Bump` over the items |
| Histogram.FirstIndex | src/components/software/DeploymentChart.tsx:26 | the first position of a key that occurs |
| Histogram.FirstIndexAppend | src/components/software/DeploymentChart.tsx:26 | appending an item does not move an existing key's first occurrence |
| Histogram.FirstIndexNew | src/components/software/DeploymentChart.tsx:26 | a new key first occurs where it is appended |
| Histogram.TallyKeySet | src/components/software/DeploymentChart.tsx:13-16 | the reduce has distinct keys, exactly the items |
| Histogram.OrderAppend | src/components/software/DeploymentChart.tsx:13-16 | one more item keeps the first-occurrence order of the known keys, and a new key comes after all of them |
| Histogram.TallyKeyOrder | src/components/software/DeploymentChart.tsx:25-33 | the reduce lists its keys in the order they first occur among the items |
| Histogram.TallyKeys | src/components/software/DeploymentChart.tsx:25-33 | the reduce has distinct keys, exactly the items, in the order they first occur |
| Histogram.TallyCounts | src/components/software/DeploymentChart.tsx:13-16 | each key's count is its number of occurrences, and the counts add up to the number of items |
| Histogram.CountOfEntry | src/components/software/DeploymentChart.tsx:18 | with distinct keys, the lookup of an entry's key gives that entry's count |
| Seqs.DistinctLength | src/pages/SoftwareList.tsx:44 | a repetition-free sequence has as many distinct elements as positions |
| Histogram.TallyEntries | src/components/software/DeploymentChart.tsx:13-42 | every entry counts its key's occurrences and is never zero; there is one entry per distinct item; no items give no entries |
| Histogram.KeysCons | src/components/software/DeploymentChart.tsx:43 | the keys of an entry put in front are that key followed by the rest |
| Histogram.DistinctKeysCons | src/components/software/DeploymentChart.tsx:43 | an entry in front keeps keys distinct exactly when its key is new |
| Histogram.InsertFront | src/components/software/DeploymentChart.tsx:43 | an entry whose key sorts first goes in front, and the series stays ascending with the same entries plus that one |
| Histogram.InsertLater | src/components/software/DeploymentChart.tsx:43 | an entry whose key sorts after the first key is inserted into the rest, and the series stays ascending with the same entries plus that one |
| Histogram.InsertByKey | src/components/software/DeploymentChart.tsx:43 | inserting into an ascending series keeps it ascending, adds exactly that entry, and keeps keys distinct when the key is new |
| Histogram.SortByKey | src/components/software/DeploymentChart.tsx:42-43 | sorting by key gives an ascending permutation of the entries with the same total |
| Histogram.SortCons | src/components/software/DeploymentChart.tsx:43 | inserting the first entry into the sorted rest gives the same entries, total and keys as the whole series, and distinct keys stay distinct |
| Histogram.SortedTallyEntry | src/components/software/DeploymentChart.tsx:42-43 | each entry of the sorted reduce is an item that occurs, counted exactly |
| Histogram.SortedTally | src/components/software/DeploymentChart.tsx:36-47 | the sorted reduce is strictly ascending, one entry per distinct item, each counted exactly, adding up to the number of items |
| Seqs.PermutationMembers | src/components/software/DeploymentChart.tsx:42-43 | every element of a rearrangement is an element of the original, and the lengths agree |
| Histogram.AscendingTail | src/components/software/SoftwareChart.tsx:30-32 | the tail of an ascending series is ascending |
| Histogram.LastN | src/components/software/SoftwareChart.tsx:32 | `slice(-n)` is the tail of length min(n, length) |
| Filters.With | src/components/software/SoftwareFilter.tsx:25 | `{ ...filters, [key]: value }` sets key to value and leaves the other two keys alone |
| Filters.WithLastWriteWins | src/components/software/SoftwareFilter.tsx:24-25 | of two updates of one key the later wins |
| Filters.WithCommutes | src/components/software/SoftwareFilter.tsx:24-25 | updates of different keys commute |
| Filters.SoftwareFilter.constructor | src/components/software/SoftwareFilter.tsx:18-22 | the panel starts with all three filters empty |
| Filters.SoftwareFilter.UpdateFilter | src/components/software/SoftwareFilter.tsx:24-28 | the stored state becomes the old one with key set to value and the rest unchanged, and the callback receives that new state |
| Filters.SoftwareFilter.ClearFilters | src/components/software/SoftwareFilter.tsx:30-34 | from any state the stored state becomes all-empty, so clearing twice is clearing once, and the callback receives it |
| SoftwareList.PublishDay | src/pages/SoftwareList.tsx:37 | the day is the part of the ISO timestamp before its first 'T': a prefix without 'T', followed by 'T' unless it is the whole timestamp |
| SoftwareList.MatchesSearch | src/pages/SoftwareList.tsx:30-32 | an empty term matches every record, and a matching term is no longer than the name or the id |
| SoftwareList.MatchesOwner | src/pages/SoftwareList.tsx:34 | an empty owner filter matches every record, and a matching owner filter is no longer than the owner |
| SoftwareList.MatchesDate | src/pages/SoftwareList.tsx:36-37 | an empty day filter matches every record, and a matching non-empty day is a 'T'-free prefix of the timestamp |
| SoftwareList.Passes | src/pages/SoftwareList.tsx:29-39 | with no filters every record passes; a passing record's owner is at least as long as the owner filter, and its publish day equals a non-empty day filter |
| SoftwareList.FilteredSoftwares | src/pages/SoftwareList.tsx:29-40 | the shown records are an order-preserving selection of the list, no longer than it, holding exactly the records that pass all three tests |
| SoftwareList.PassesIff | src/pages/SoftwareList.tsx:30-39 | a record passes exactly when the lower-cased term occurs in the lower-cased name or id, the owner filter is empty or occurs in the owner, and the day filter is empty or equals the publish day |
| SoftwareList.SearchIgnoresTermCase | src/pages/SoftwareList.tsx:31-32 | the search term matches the same records in any letter case |
| SoftwareList.EmptyFiltersKeepAll | src/pages/SoftwareList.tsx:15-40 | with all three filters empty every record is shown, in order |
| SoftwareList.OwnerMatchIsCaseSensitive | src/pages/SoftwareList.tsx:34 | the owner "user_12345" matches the filter "user" but not "USER" |
| SoftwareList.OwnerNames | src/pages/SoftwareList.tsx:44 | `softwares.map(s => s.owner)` has one owner per record |
| SoftwareList.UniqueOwners | src/pages/SoftwareList.tsx:44 | the owner count is the number of distinct owners, at most the number of records and at least one for a non-empty list |
| SoftwareList.IsRecent | src/pages/SoftwareList.tsx:45-49 | an unparsable date is never recent; a parsed one is recent exactly when it is less than seven days before now |
| SoftwareList.RecentSoftwares | src/pages/SoftwareList.tsx:45-50 | the recent count is at most the total; it equals the total exactly when every record is newer than a week before now, and is zero exactly when none is |
| SoftwareList.Statistics | src/pages/SoftwareList.tsx:43-50 | the owner and recent cards are computed over the whole list whatever the filters, and the shown card is the length of the filtered list (line 118); every card is at most the total, owners at least one for a non-empty list, shown equals total with no filters |
| SoftwareList.OwnerOnlyFilter | src/pages/SoftwareList.tsx:30-39 | with the search and day filters empty, only the owner test decides |
| SoftwareList.SameLengthNotContains | src/pages/SoftwareList.tsx:34 | an owner of the filter's length that differs from it somewhere does not match |
| SoftwareList.OwnerScenarioTests | src/pages/SoftwareList.tsx:30-39 | the filter "user_12345" passes the owners user_12345 and rejects user_67890 and user_99999 |
| SoftwareList.KeepFirstAndThird | src/pages/SoftwareList.tsx:29 | of four elements of which only the first and third pass, `filter` keeps those two, in order |
| SoftwareList.OwnerFilterScenario | src/pages/SoftwareList.tsx:34 | owners user_12345, user_67890, user_12345, user_99999 filtered by "user_12345" keep the first and third record, in order |
| DeploymentChart.TaskDay | src/components/software/DeploymentChart.tsx:37 | a task's day is the text of `updateDate` before its first space, or all of it when it has none |
| DeploymentChart.StatusColor | src/components/software/DeploymentChart.tsx:49-57 | the colour is the grey default exactly when the status is none of the four |
| DeploymentChart.StatusColorsDistinct | src/components/software/DeploymentChart.tsx:49-57 | the four statuses have four different colours |
| DeploymentChart.StatusData | src/components/software/DeploymentChart.tsx:18-22 | one slice per dictionary entry with its status and count, coloured by `getStatusColor` of that status, so grey exactly when the status is none of the four |
| DeploymentChart.ActionColorsDistinct | src/components/software/DeploymentChart.tsx:59 | the three action colours are pairwise different |
| DeploymentChart.ActionData | src/components/software/DeploymentChart.tsx:30-33 | one bar per dictionary entry with its action and count, filled `ACTION_COLORS[i % 3]` (line 118), so neighbouring bars differ |
| DeploymentChart.DailyData | src/components/software/DeploymentChart.tsx:42-47 | the points show the dictionary's (day, count) entries rearranged, each exactly as often (equal multisets), in ascending day order |
| DeploymentChart.BuildCharts | src/components/software/DeploymentChart.tsx:13-47 | the three reduce loops and maps produce the status, action and day series |
| DeploymentChart.StatusChartTotal | src/components/software/DeploymentChart.tsx:13-22 | the pie's counts add up to the number of tasks, and there is no slice exactly when there are no tasks |
| DeploymentChart.StatusChartSlices | src/components/software/DeploymentChart.tsx:13-22 | each slice counts the tasks with its status and is not empty; its status is one of the four, so it is never grey; no status has two slices |
| Seqs.SubsetSize | src/components/software/DeploymentChart.tsx:13-22 | a subset is no larger than its superset |
| Seqs.DistinctWithin | src/components/software/DeploymentChart.tsx:13-33 | distinct keys drawn from a set of names are no more than the names |
| DeploymentChart.TallyHasKey | src/components/software/DeploymentChart.tsx:13-16 | every item has an entry in the reduce |
| DeploymentChart.StatusChartCovers | src/components/software/DeploymentChart.tsx:13-22 | every task's status has a slice |
| DeploymentChart.StatusChartBounded | src/components/software/DeploymentChart.tsx:13-22 | there are at most four slices |
| DeploymentChart.ActionChartTotal | src/components/software/DeploymentChart.tsx:25-33 | the bars add up to the number of tasks, and there is no bar exactly when there are no tasks |
| DeploymentChart.ActionChartBars | src/components/software/DeploymentChart.tsx:25-33 | each bar counts the tasks with its action and is not empty, and no action has two bars |
| DeploymentChart.ActionChartOrder | src/components/software/DeploymentChart.tsx:25-33 | every bar's action is some task's action, and the bars follow the order in which the actions first occur |
| DeploymentChart.ActionChartCovers | src/components/software/DeploymentChart.tsx:25-33 | every task's action has a bar |
| DeploymentChart.ActionChartColors | src/components/software/DeploymentChart.tsx:59 | at most three bars; bar i is filled `ACTION_COLORS[i % 3]` (line 118), so neighbouring bars differ in colour |
| DeploymentChart.DailyChartSeries | src/components/software/DeploymentChart.tsx:36-47 | the points add up to the number of tasks and are in strictly ascending day order, one per distinct day |
| DeploymentChart.DailyChartCounts | src/components/software/DeploymentChart.tsx:36-47 | each point counts the tasks of its day and is not empty |
| DeploymentChart.DailyChartCovers | src/components/software/DeploymentChart.tsx:36-40 | every task's day has a point |
| SoftwareChart.BarData | src/components/software/SoftwareChart.tsx:17-21 | one bar per dictionary entry with the full owner and its count, labelled with the owner cut to ten characters and "...", so at most thirteen long |
| SoftwareChart.PieData | src/components/software/SoftwareChart.tsx:40-44 | one slice per dictionary entry with its count, labelled with the owner cut to eight characters and "...", so at most eleven long, filled `COLORS[i % 6]` |
| SoftwareChart.LineKept | src/components/software/SoftwareChart.tsx:30-36 | the proof behind LineData: the points made from the sorted series cut to its last seven entries are min(7, entries) many, show the tail of the sorted series, ascend, and each shows an entry of the dictionary |
| Histogram.DayPoints | src/components/software/SoftwareChart.tsx:33-36 | one `{ date, count }` point per entry, showing exactly that entry's day and count, in the same order (the same step builds `dailyData` at src/components/software/DeploymentChart.tsx:44-47) |
| SoftwareChart.LineData | src/components/software/SoftwareChart.tsx:30-36 | min(7, entries) points showing the last that many entries of the day-sorted dictionary, so the latest days, in ascending day order, each an entry of the dictionary |
| SoftwareChart.BuildCharts | src/components/software/SoftwareChart.tsx:12-44 | the owner and day reduce loops and maps produce the bar, pie and line series |
| SoftwareChart.BarChartBars | src/components/software/SoftwareChart.tsx:12-21 | one bar per distinct owner, as many as the owner card shows, adding up to the number of releases; each counts its owner's releases; each label is the owner cut to ten characters followed by "..." when longer, so at most 13 long |
| SoftwareChart.BarChartOrder | src/components/software/SoftwareChart.tsx:12-21 | the bars follow the owners' first occurrence, and an owner has a bar exactly when some release has it |
| SoftwareChart.PieChartSlices | src/components/software/SoftwareChart.tsx:38-44 | one slice per bar with the same count; labels are the owner cut at 8 and at most 11 long; slice i is filled `COLORS[i % 6]`, so slices fewer than six apart differ in colour |
| SoftwareChart.PieColorsDistinct | src/components/software/SoftwareChart.tsx:38 | the six pie colours are pairwise different |
| SoftwareChart.LatestOfSorted | src/components/software/SoftwareChart.tsx:30-36 | points showing the tail of a strictly ascending series show it entry by entry, strictly ascend, and every dropped day precedes every kept one |
| SoftwareChart.LineChartPoints | src/components/software/SoftwareChart.tsx:24-36 | min(7, distinct days) points in strictly ascending order |
| SoftwareChart.LineChartCounts | src/components/software/SoftwareChart.tsx:24-36 | each point counts the releases of its day and is not empty |
| SoftwareChart.LineChartKeepsLatest | src/components/software/SoftwareChart.tsx:30-32 | the line is the tail of the full sorted series, and every dropped day precedes every kept one |
| SoftwareChart.TallyABAC | src/components/software/SoftwareChart.tsx:12-15 | the reduce over a, b, a, c for distinct a, b, c is a: 2, b: 1, c: 1, in that order |
| SoftwareChart.OwnerStatsScenario | src/components/software/SoftwareChart.tsx:12-15 | owners a, b, a, c give the dictionary a: 2, b: 1, c: 1 in that order |
| SoftwareDetail.InitialSearchId | src/pages/SoftwareDetail.tsx:16 | the search box starts with the route's id, and is empty exactly when there is none or it is empty |
| SoftwareDetail.QueryEnabled | src/pages/SoftwareDetail.tsx:21-30 | the query is enabled for every id that can be searched |
| SoftwareDetail.CanSearch | src/pages/SoftwareDetail.tsx:26-30 | a search refetches exactly when the id has a character other than white space |
| SoftwareDetail.BlankIdQueriesButCannotSearch | src/pages/SoftwareDetail.tsx:21-30 | the id " " enables the query although it cannot be searched |
| SoftwareDetail.TasksOf | src/pages/SoftwareDetail.tsx:24 | the payload or else no tasks: an error response's payload is used as well, since an empty array is truthy; no response gives no tasks (its consequences are stated by NoResponseIsEmpty) |
| SoftwareDetail.NoResponseIsEmpty | src/pages/SoftwareDetail.tsx:24-81 | with no response or an empty payload (the error envelope of src/services/softwareService.ts:111-116 carries `data: []`), all four counters are zero and the three DeploymentChart series of those tasks are empty, and the counters are all zero only in that case |
| SoftwareDetail.Summarize | src/pages/SoftwareDetail.tsx:78-81 | the success, failure and in-progress counters add up to the total, which is the number of tasks |
| SoftwareDetail.CountsPartition | src/pages/SoftwareDetail.tsx:79-81 | every task is counted by exactly one of the three status counters |
| SoftwareDetail.StatusCount | src/pages/SoftwareDetail.tsx:79-80 | counting the tasks with one status is counting its name among the task statuses |
| SoftwareDetail.InProgressCount | src/pages/SoftwareDetail.tsx:81 | the in-progress counter counts the pending tasks and the running ones |
| SoftwareDetail.SummaryMatchesStatusChart | src/pages/SoftwareDetail.tsx:78-81 | the success and failure counters equal the SUCCEED and FAILED slices of the status pie; in-progress is PENDING plus RUNNING |
| SoftwareDetail.StatusBadge | src/pages/SoftwareDetail.tsx:47-61 | the badge starts with the base classes and is the grey one exactly when the status is unknown |
| SoftwareDetail.ActionBadge | src/pages/SoftwareDetail.tsx:63-75 | the badge starts with the base classes and is the grey one exactly when the action is unknown |
| SoftwareDetail.StatusBadgeTone | src/pages/SoftwareDetail.tsx:47-61 | the four status badges name green, red, yellow and blue right after the base classes |
| SoftwareDetail.ActionBadgeTone | src/pages/SoftwareDetail.tsx:63-75 | the three action badges name green, red and blue right after the base classes |
| SoftwareDetail.BadgesDistinct | src/pages/SoftwareDetail.tsx:47-75 | different statuses get different badges, and so do different actions |
| SoftwareDetail.TaskBadgesNeverGray | src/pages/SoftwareDetail.tsx:47-75 | no task row gets a grey badge, since its action and status are known values |

## Left out

- The data-source client, `src/services/softwareService.ts`, is left out. It
  does network access, asynchronous envelopes, logging and mock data. The
  model's inputs stand for its results.
- The landing page (`src/pages/Index.tsx`) is left out. It uses random
  numbers and timers.
- The statistics card component (`StatCard`) is left out. It only displays a
  value.
- Rendering is left out: the JSX, the recharts components, the pie-slice
  percentages drawn by recharts, and `getStatusIcon`, which returns an icon
  element.
- `toLocaleDateString` display labels are left out, because they depend on
  the locale library. Chart points keep the ISO day that the label is made
  from.
- Date parsing and `toISOString` are left out.
  - `publishedAt` is taken to be an ISO-8601 UTC timestamp, and its day is the
    text before `T`.
  - An unparsable date, on which `toISOString` throws, is not modelled.
  - `recentSoftwares` receives the parse result through the `parse`
    parameter.
- SoftwareList.IsRecent: the week boundary is `now` minus exactly seven
  days of milliseconds. `setDate(getDate() - 7)` in local time can be an hour
  off across a daylight-saving change.
- Strings.LexLe: `localeCompare` is modelled as code-point order. It agrees
  with locale collation on the `YYYY-MM-DD` keys the charts sort. Other keys
  may be ordered differently.
- Strings.Ellipsize: lengths are counted in Unicode scalar values, while
  JavaScript's `length` and `substring` count UTF-16 code units. For owners
  with characters outside the Basic Multilingual Plane (emoji, say), the 10
  and 8 character thresholds of the bar and pie labels cut at different
  places than the model does.
- Strings.ToLower: only ASCII letters are lower-cased. Full Unicode case
  mapping is not modelled.
- Histogram.Keys: keys are kept in insertion order. `Object.entries` lists
  integer-like keys first, in numeric order. An owner name such as "42"
  would move to the front of the bar and pie charts, and the model does not
  capture this.
- Histogram.Bump: the accumulator `{}` of the reduces is a plain object,
  which inherits the members of `Object.prototype`. The model treats it as a
  dictionary with no inherited keys. A key such as "constructor" or
  "toString" reads an inherited function in `acc[k] || 0`, so its count
  becomes a string. A key "__proto__" goes to the prototype setter and gets
  no entry at all. Keys that name `Object.prototype` members are not
  modelled, and the tally, bar and pie properties hold only for other keys.
- SoftwareTypes.DeploymentTask: a task's `action` and `taskStatus` are closed
  enumerations, as `src/types/software.ts:21-22` declares them. Values
  outside those unions, which the `default:` branches of `getStatusColor` and
  the badge maps would handle at run time, cannot occur in the model. The
  bounds of StatusChartBounded (at most four slices) and ActionChartColors
  (at most three bars), the never-grey clause of StatusChartSlices and
  TaskBadgesNeverGray rely on this, and so do Summarize's clause that the
  three status counters add up to the total and CountsPartition: a status
  outside the union would be counted by none of the three. StatusColor,
  StatusBadge and ActionBadge themselves take any string and model the grey
  fallback.
- Query fetching, caching, refetching, the loading and error flags, and
  routing are react-query and router mechanics and are left out. Only the
  `enabled` condition and the `handleSearch` guard are modelled.
- The `SoftwareDetail` record interface (`appId`, `owner`, `appName`,
  `appVersion` at `src/types/software.ts:10-15`) is not used by the core, so
  it is not modelled.
