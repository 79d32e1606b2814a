# rhessys-visualization core, modelled in Dafny

This project models the core of the RHESSys visualization dashboard:

- the client-side chunked data cache that feeds its time-series and scatterplot panels;
- the logic around that cache:
  - time-bucket arithmetic shared by the TypeScript client and the Python importer;
  - SQL filter assembly and per-group row partitioning;
  - brush and pan interval logic;
  - axis auto-scaling;
  - the dashboard reducer and its immutable array helpers;
  - factor, palette and filter derivation;
  - facet filter merging;
  - the single-flight refetch state machine of the aggregated panel;
  - the group and variable pickers.

Code that changes state in place is modelled as classes:

- the chunk fetcher's cache, requested set and generation;
- the scatterplot's cache;
- the view-statistics loops;
- the brush drag sessions;
- the aggregated panel's fetch flags;
- the importer's column counter;
- the dashboard's variable list.

These classes have `modifies` clauses and loops with invariants, and each method is proved against a specification function. Pure code is modelled as datatypes, functions and lemmas.

Modules and the source they model:

- `Common`: sequence and text helpers (joining keys, decimal text, ASCII lower-casing) used throughout.
- `TimeBuckets`: src/utils.ts and the `ymd_to_*` functions of rhessys_import.py (days from civil date, day/week/month/year buckets and their inverses).
- `Abstract`: the filter and query types of src/database/abstract.ts.
- `Mapd`: src/database/mapd.ts (bucket dispatch, WHERE-clause assembly, row post-processing, group partition, listVariables).
- `ChunkFetch`: src/visualizations/chunk_fetcher.ts (the `ChunkFetcher` class).
- `Importer`: rhessys_import.py (name_replacer as the `ColumnRenamer` class, ty_week/ty_month derivation).
- `Scatter`: src/visualizations/scatterplot.tsx (the `Scatterplot` class and in-window index selection).
- `Timeseries`: src/visualizations/timeseries.tsx (view statistics, fetcher configuration, point and path construction).
- `Aggregated`: src/visualizations/aggregated_timeseries.tsx (fetch state machine, x domain, envelope).
- `Brush`: src/visualizations/brush.tsx (`emit`, the `BrushX` and `PanX` drag sessions over an affine scale).
- `Dashboard`: src/dashboard.tsx (the auto-scale branch table, the rescale trigger, the variable list and its handlers).
- `Reducers`: src/dashboard/reducers.ts (array helpers and the reducer).
- `DashState`: src/dashboard/state.ts (factors, palettes, groups and the database filter).
- `Visualization`: src/dashboard/visualization.tsx (facet filters, mergeFilter, canUp/canDown, height toggle).
- `GroupsEditor`: src/widgets/groups_editor.tsx.
- `VariableSelect`: src/widgets/variable_select.tsx.

Timestamps are integer seconds since 1970-01-01 UTC. Database queries, event emitters and callbacks become parameters or recorded values, so every asynchronous `await` is split into a begin step and a complete step.

## Model

Functions that only define a computation (such as TimeBuckets.MonthsToTimestamp, Mapd.GroupToTimestamp, Reducers.Reducer, Visualization.MergedAsWritten, Scatter.FirstUncached or Dashboard.VariableList) have no row of their own. The row of the lemma or method that states what they mean cites the same source lines, usually under the name with a `Spec` suffix.

| member | source | states |
|---|---|---|
| Common.SplitJoin | src/visualizations/chunk_fetcher.ts:70-72 | splitting a join on a separator that no part contains gives back the parts: the inverse that makes joined keys decodable |
| Common.NatToStringDigits | src/visualizations/chunk_fetcher.ts:70-72 | the decimal text of a number is made of digits only |
| Common.ParseNatToString | src/visualizations/chunk_fetcher.ts:70-72 | reading the decimal text of a natural number gives the number back |
| Common.NatToStringInjective | src/visualizations/chunk_fetcher.ts:70-72 | distinct naturals print differently |
| Common.IntToStringNoColon | src/visualizations/chunk_fetcher.ts:70-72 | the text of an integer never holds ':' |
| Common.IntToStringSign | src/visualizations/chunk_fetcher.ts:70-72 | the text of an integer starts with '-' exactly when it is negative |
| Common.IntToStringInjective | src/visualizations/chunk_fetcher.ts:70-72 | distinct integers print differently |
| Common.TrimStartSpec | src/visualizations/chunk_fetcher.ts:114-117 | trimming the front drops a prefix of white space (ECMAScript WhiteSpace and LineTerminator) and stops at the first other character |
| Common.TrimEndSpec | src/visualizations/chunk_fetcher.ts:114-117 | trimming the end drops a suffix of white space and stops at the last other character |
| Common.TrimBlank | src/visualizations/chunk_fetcher.ts:114-117 | trimming leaves nothing exactly when the text is all white space |
| Common.TrimPadded | src/visualizations/chunk_fetcher.ts:114-117 | white space added before and after a text does not change its trimmed form |
| Common.FractionDigitsBelow | src/visualizations/chunk_fetcher.ts:114-117 | n digits read as a number below 10^n |
| Common.Fraction | src/visualizations/chunk_fetcher.ts:114-117 | the digits after a decimal point denote a fraction in [0, 1) |
| Common.JoinSplit | src/visualizations/chunk_fetcher.ts:114-117 | joining the pieces of a split with the separator gives back the text |
| Common.UnsignedDecimalPoint | src/visualizations/chunk_fetcher.ts:114-117 | digits, a point and digits convert to the whole part plus the fraction, a missing part counting as none |
| Common.UnsignedDecimalRejects | src/visualizations/chunk_fetcher.ts:114-117 | a text holding any character other than digits and the point is NaN |
| Common.UnsignedDecimalNat | src/visualizations/chunk_fetcher.ts:114-117 | the decimal text of a natural number converts back to it |
| Common.BlankIsZero | src/visualizations/chunk_fetcher.ts:114-117 | blank text, the empty string included, converts to 0 |
| Common.StringToNumberPadded | src/visualizations/chunk_fetcher.ts:114-117 | white space around a text does not change the number it converts to |
| Common.StringToNumberDigits | src/visualizations/chunk_fetcher.ts:114-117 | a text of digits converts as an unsigned decimal |
| Common.StringToNumberMinus | src/visualizations/chunk_fetcher.ts:114-117 | a minus sign before digits negates the number they convert to |
| Common.StringToNumberInt | src/visualizations/chunk_fetcher.ts:114-117 | the text of any integer converts back to that integer |
| Common.ToLower | src/widgets/variable_select.tsx:53-58 | `toLowerCase` keeps the length and lower-cases each ASCII letter in place |
| Common.IndexOfSpec | src/widgets/variable_select.tsx:53-58 | `indexOf` returns the first position where the needle occurs, and -1 exactly when it occurs nowhere |
| Common.LexLessIrreflexive | src/dashboard.tsx:71-74 | no name sorts before itself under `<` on strings |
| Common.LexLessTotal | src/dashboard.tsx:71-74 | of two distinct names one sorts before the other |
| Common.LexLessTransitive | src/dashboard.tsx:71-74 | `<` on strings is transitive |
| TimeBuckets.YearStep | src/utils.ts:41-44 | January 1st of year y + 1 comes one year length (365 or 366 days, Gregorian leap rule) after January 1st of year y |
| TimeBuckets.EraShift | src/utils.ts:41-44 | the calendar repeats every 400 years: n eras later January 1st is 146097 * n days later |
| TimeBuckets.DaysBeforeYearMonotone | src/utils.ts:41-44 | later years start later, by at least 365 days per year |
| TimeBuckets.FindYearSpec | src/utils.ts:41-44 | the search for the year of a day inside a 400-year era ends, at or after its start, in the year whose days hold that day |
| TimeBuckets.YearOfSpec | src/utils.ts:41-44 | YearOf(days), the UTC year of a day, is the year whose days [January 1st, next January 1st) contain it |
| TimeBuckets.YearUnique | src/utils.ts:41-44 | only one year contains a given day, so any year containing it is YearOf(days) |
| TimeBuckets.MonthStep | src/utils.ts:26-30 | a month's first day plus its length is the next month's first day; December ends the year |
| TimeBuckets.FindMonthSpec | src/utils.ts:26-30 | the month search ends in the month whose days hold the given day of the year |
| TimeBuckets.MonthUnique | src/utils.ts:26-30 | a day of the year lies in one month only |
| TimeBuckets.CivilSpec | src/utils.ts:26-30 | the UTC date of a day index (what `new Date(...)` gives) is a valid date whose day index is that day |
| TimeBuckets.DateWithinYear | src/utils.ts:26-30 | a valid date's offset into its year is within the year's length |
| TimeBuckets.CivilOfDayIndex | src/utils.ts:26-30 | a valid date is the UTC date of its own day index: date to day index and back is the identity |
| TimeBuckets.NextMonthStart | src/utils.ts:32-39 | the first of the next month (January of the next year after December) is the first of this month plus its length |
| TimeBuckets.ParseTimeEpoch | src/utils.ts:3-8 | `parseTime("1970-01-01")` is 0, so timestamps count from the epoch |
| TimeBuckets.ParseTimeValid | src/utils.ts:3-8 | parsing a valid date's text gives the first second of its day |
| TimeBuckets.TimestampToDays | src/utils.ts:10-12 | the day of a timestamp is the one whose seconds contain it (floor division) |
| TimeBuckets.DaysRoundTrip | src/utils.ts:10-16 | a day's first second maps back to that day |
| TimeBuckets.DaysToTimestampMonotone | src/utils.ts:14-16 | later days start later |
| TimeBuckets.TimestampToWeeks | src/utils.ts:18-20 | the week of a timestamp is the one whose seconds contain it |
| TimeBuckets.WeeksRoundTrip | src/utils.ts:18-24 | a week's first second maps back to that week |
| TimeBuckets.MonthsToTimestampAt | src/utils.ts:32-39 | month 12 * (y - 1970) + m starts at the first second of month m of year y; December goes through the printed month 0, which Date.UTC reads as December of the year before |
| TimeBuckets.MonthsDiv | src/utils.ts:35-37 | the year offset dY of month 12 * (y - 1970) + m is y - 1970, or one more for December |
| TimeBuckets.MonthsSplit | src/utils.ts:32-39 | every month index is 12 * (y - 1970) + m for one year y and one month m in 1..12 |
| TimeBuckets.MonthsOfDate | src/utils.ts:26-30 | a timestamp in a valid date has month index 12 * (year - 1970) + month (January 1970 is month 1) |
| TimeBuckets.MonthsRoundTrip | src/utils.ts:26-39 | for years the parser reads back (100..9999), a month's first second maps back to that month |
| TimeBuckets.MonthBounds | src/utils.ts:32-39 | month 12 * (y - 1970) + m starts on the first of month m and the next month starts that many days later |
| TimeBuckets.MonthHolds | src/utils.ts:26-39 | a timestamp within a day of month m of year y lies within that month's seconds |
| TimeBuckets.MonthsBracket | src/utils.ts:26-39 | every timestamp lies between the start of its month and the start of the next month |
| TimeBuckets.CivilMonth | src/utils.ts:26-30 | the month index of a timestamp is that of its UTC date, and the date's month holds the day |
| TimeBuckets.YearsRoundTrip | src/utils.ts:41-48 | for years the parser reads back (100..9999), a year's first second maps back to that year |
| TimeBuckets.YearsToTimestampIsYearStart | src/utils.ts:46-48 | `parseTime(year + "-01-01")` is the first second of January 1st of that year |
| TimeBuckets.YearOfTimestamp | src/utils.ts:41-44 | the day of a timestamp lies within the year `getUTCFullYear` gives |
| TimeBuckets.CivilYear | src/utils.ts:41-44 | the year of the UTC date of a day is YearOf that day |
| TimeBuckets.YearsBracket | src/utils.ts:41-48 | every timestamp lies between the start of its year and the start of the next year |
| TimeBuckets.YearHolds | src/utils.ts:41-48 | a timestamp within a day of year y lies within that year's seconds |
| TimeBuckets.MonthsToTimestampIncreasing | src/utils.ts:32-39 | each month starts strictly after the month before it |
| TimeBuckets.YearsToTimestampIncreasing | src/utils.ts:46-48 | each year starts strictly after the year before it |
| Abstract.Lookup | src/database/abstract.ts:9-16 | an attribute constraint is found exactly when its name is one of the filter's attribute keys |
| Abstract.LookupFirst | src/database/abstract.ts:9-16 | what is found is the constraint of the first entry with that name: an entry of the list, with no entry of that name before it |
| Abstract.Put | src/database/abstract.ts:9-16 | storing a constraint under a name makes the lookup of that name return it, leaves every other name's constraint as it was, keeps an existing key in place and appends a new key last |
| Mapd.GroupBracket | src/database/mapd.ts:236-260 | every timestamp lies in its bucket: at or after the start of the bucket timestamp_to_group gives it and before the start of the next bucket, for all four granularities |
| Mapd.GroupIncreasing | src/database/mapd.ts:249-260 | each bucket of group_to_timestamp starts strictly after the one before it |
| Mapd.GroupMonotone | src/database/mapd.ts:249-260 | a later bucket never starts earlier |
| Mapd.GroupOrdered | src/database/mapd.ts:249-260 | bucket starts are ordered like the bucket numbers, for every pair of buckets |
| Mapd.BucketAtLeastOrder | src/database/mapd.ts:236-260 | given the bucket t that holds a timestamp, a bucket b is at least t exactly when b ends after that timestamp |
| Mapd.BucketAtMostOrder | src/database/mapd.ts:236-260 | given the bucket t that holds a timestamp, a bucket b is at most t exactly when b starts at or before that timestamp |
| Mapd.AtLeastBucketMeaning | src/database/mapd.ts:268-275 | the bucket comparison `t_g >= timestamp_to_group(timeStart)` keeps exactly the buckets that end after timeStart |
| Mapd.AtMostBucketMeaning | src/database/mapd.ts:276-283 | the bucket comparison `t_g <= timestamp_to_group(timeEnd)` keeps exactly the buckets that start at or before timeEnd |
| Mapd.GroupRoundTrip | src/database/mapd.ts:236-260 | for day and week buckets, timestamp_to_group of group_to_timestamp gives the bucket back |
| Mapd.EqualsTerms | src/database/mapd.ts:291-295 | an `in` list yields one equality term per listed value, in list order |
| Mapd.RenderAllAppend | src/database/mapd.ts:262-314 | rendering the parts of two lists one after the other gives the rendering of both lists joined |
| Mapd.WhereClauseShape | src/database/mapd.ts:309-313 | the clause is empty exactly when no part was pushed, and otherwise starts with "WHERE " |
| Mapd.AttrParts | src/database/mapd.ts:285-306 | the parts one attribute pushes are the rendered `in` part (`(FALSE)` for an empty list, else the OR of equalities) followed by the `within.min` and `within.max` bounds that are given |
| Mapd.AttributesParts | src/database/mapd.ts:284-307 | the loop over the attributes pushes each attribute's parts in key order |
| Mapd.TimeParts | src/database/mapd.ts:268-283 | the time parts are the bucket lower bound for a given timeStart followed by the bucket upper bound for a given timeEnd |
| Mapd.FilterExpression | src/database/mapd.ts:262-314 | the SQL is the WHERE clause over the rendered time parts followed by the attribute parts, and the empty string for no filter or no parts |
| Mapd.AllHoldAppend | src/database/mapd.ts:309-313 | an AND of two lists of parts admits a row exactly when both lists admit it |
| Mapd.AllHoldSingle | src/database/mapd.ts:309-313 | an AND of one part admits a row exactly when that part does |
| Mapd.AttrCondsMeaning | src/database/mapd.ts:285-306 | the parts of one attribute constraint admit a row exactly when its value is in the `in` list (none for an empty list) and its number is inside the given `within` bounds |
| Mapd.AttributesCondsMeaning | src/database/mapd.ts:284-307 | the parts of all attribute constraints admit a row exactly when every constraint admits it |
| Mapd.StartCondsMeaning | src/database/mapd.ts:268-275 | the timeStart part admits a row exactly when its bucket ends after timeStart, and every row without a timeStart |
| Mapd.StartBoundMeaning | src/database/mapd.ts:268-275 | the single lower bucket bound admits a row exactly when the row's bucket ends after the bound's timestamp |
| Mapd.EndCondsMeaning | src/database/mapd.ts:276-283 | the timeEnd part admits a row exactly when its bucket starts at or before timeEnd, and every row without a timeEnd |
| Mapd.EndBoundMeaning | src/database/mapd.ts:276-283 | the single upper bucket bound admits a row exactly when the row's bucket starts at or before the bound's timestamp |
| Mapd.TimeCondsMeaning | src/database/mapd.ts:268-283 | the time parts admit a row exactly when its bucket's span meets the inclusive interval [timeStart, timeEnd] |
| Mapd.FilterCondsMeaning | src/database/mapd.ts:262-314 | the WHERE clause of a filter selects exactly the rows the filter admits: bucket span meets the time interval and every attribute constraint holds; no filter selects every row |
| Mapd.CopyVariablesSpec | src/database/mapd.ts:63-68 | after post-processing, each requested variable holds its m_ column (undefined when that column is missing), and every other column is unchanged |
| Mapd.PostProcessRows | src/database/mapd.ts:63-68 | the loop over the rows keeps their number and order and post-processes each one: t becomes its bucket's start time, then each requested variable is copied from its m_ column |
| Mapd.PostProcessedFields | src/database/mapd.ts:63-68 | an item's t is its bucket's start time unless a variable named "t" is requested, whose copy overwrites it with the m_t column (undefined without one); each requested variable holds its m_ column, and every other column is kept |
| Mapd.Partition | src/database/mapd.ts:69-77 | without groups the result is a single list of all rows; with groups it has one list per group |
| Mapd.RowsOfSpec | src/database/mapd.ts:69-77 | a group's list holds exactly the rows whose g_ columns equal the group's values, in their original order (a sub-sequence of the rows) |
| Mapd.LookupDescription | src/database/mapd.ts:164-171 | the description of a name is the first row with that name when there is one, and empty name, description and unit when there is none |
| Mapd.ListVariables | src/database/mapd.ts:172-198 | the variable list is no longer than the table's fields |
| Mapd.ListVariablesSpec | src/database/mapd.ts:172-198 | every listed variable is an m_ field with the prefix stripped, its type and description, and every m_ field is listed |
| ChunkFetch.ChunkIdInjective | src/visualizations/chunk_fetcher.ts:70-72 | two chunks get the same id `timeStart::timeEnd` only when both bounds are equal |
| ChunkFetch.Times | src/visualizations/chunk_fetcher.ts:112-121 | the t array holds each row's t converted as a Float64Array converts it, one entry per row in row order |
| ChunkFetch.Column | src/visualizations/chunk_fetcher.ts:112-121 | a variable's array holds each row's value of that variable converted as a Float64Array converts it, one entry per row in row order |
| ChunkFetch.GroupOf | src/visualizations/chunk_fetcher.ts:112-121 | a chunk group has a t array and exactly one array per requested variable, each as long as the group's rows |
| ChunkFetch.BuildGroup | src/visualizations/chunk_fetcher.ts:112-121 | the loop that fills the typed arrays builds exactly the chunk group of the rows |
| ChunkFetch.OwnedRows | src/visualizations/chunk_fetcher.ts:112-121 | the corrected chunk contents of the first finding, not the program's: a chunk keeps exactly the returned rows with timeStart <= t < timeEnd, where the source keeps every returned row |
| ChunkFetch.ChunkOf | src/visualizations/chunk_fetcher.ts:112-127 | the stored chunk carries the id of its bounds, the bounds themselves and one group per requested group; each group's t array holds the time of every row returned for that group, and it has each requested variable's column of those rows |
| ChunkFetch.BuildChunk | src/visualizations/chunk_fetcher.ts:112-127 | the loop over the groups builds exactly that chunk |
| ChunkFetch.RangeSize | src/visualizations/chunk_fetcher.ts:134-147 | the chunk length of every granularity is positive |
| ChunkFetch.Planned | src/visualizations/chunk_fetcher.ts:148-155 | the chunk list has one entry per multiple of the range size from floor(timeStart / rs) to ceil(timeEnd / rs), and entry k spans [(r1 + k) * rs, (r1 + k + 1) * rs) |
| ChunkFetch.FloorDivBounds | src/visualizations/chunk_fetcher.ts:148 | Math.floor(a / rs) * rs is the start of the range-size slot that holds a |
| ChunkFetch.CeilDivBounds | src/visualizations/chunk_fetcher.ts:149 | Math.ceil(a / rs) * rs is the smallest multiple of rs at or above a |
| ChunkFetch.SpanUnique | src/visualizations/chunk_fetcher.ts:148-155 | a time lies in only one slot of the range size |
| ChunkFetch.PlannedConsecutive | src/visualizations/chunk_fetcher.ts:153-155 | each planned chunk starts where the one before it ends |
| ChunkFetch.PlannedCovers | src/visualizations/chunk_fetcher.ts:148-155 | every time in [timeStart, timeEnd] lies in the planned chunk at index floor(t / rs) - floor(timeStart / rs) |
| ChunkFetch.PlannedIncreasing | src/visualizations/chunk_fetcher.ts:153-155 | the planned chunks start at strictly increasing times |
| ChunkFetch.PlanChunks | src/visualizations/chunk_fetcher.ts:150-155 | the loop that collects the chunks produces exactly the planned chunk list |
| ChunkFetch.AnyStored | src/visualizations/chunk_fetcher.ts:161-163 | "some chunk was stored" holds exactly when one of the fetch results is true |
| ChunkFetch.ChunkQuerySelects | src/visualizations/chunk_fetcher.ts:96-106 | a chunk's query selects exactly the buckets whose span meets [timeStart, timeEnd], both ends inclusive |
| ChunkFetch.BoundaryBucketShared | src/visualizations/chunk_fetcher.ts:96-106 | as written: for adjacent chunks [s, e] and [e, e2], the bucket holding e is selected by both queries |
| ChunkFetch.BracketBucketShared | src/visualizations/chunk_fetcher.ts:96-106 | as written: any bucket that straddles a chunk boundary is selected by both neighbouring chunk queries |
| ChunkFetch.OwnedBucketQueried | src/visualizations/chunk_fetcher.ts:96-106 | a bucket that starts inside a chunk's half-open span is selected by that chunk's query, so keeping the owned rows loses nothing |
| ChunkFetch.OwnedByOneChunk | src/visualizations/chunk_fetcher.ts:148-155 | a bucket inside the requested window starts in exactly one planned chunk |
| ChunkFetch.InsertByStart | src/visualizations/chunk_fetcher.ts:175 | inserting a chunk into the sorted list adds exactly that chunk |
| ChunkFetch.InsertByStartSorted | src/visualizations/chunk_fetcher.ts:175 | inserting into a list sorted by timeStart keeps it sorted |
| ChunkFetch.SortByStart | src/visualizations/chunk_fetcher.ts:175 | sorting keeps the same chunks, each as often |
| ChunkFetch.SortByStartSorted | src/visualizations/chunk_fetcher.ts:175 | the sorted list is ordered by timeStart |
| ChunkFetch.SortKeepsNoRepeats | src/visualizations/chunk_fetcher.ts:175 | sorting a list without repeats gives a list without repeats |
| ChunkFetch.RequestsSpec | src/visualizations/chunk_fetcher.ts:85-106 | every query sent is for a planned chunk that was neither cached nor requested, with the fetcher's current parameters, and every such chunk is queried |
| ChunkFetch.ChunkFetcher.constructor | src/visualizations/chunk_fetcher.ts:33-36 | a new fetcher has no filter, day granularity, one empty group, no variables, an empty cache and nothing requested |
| ChunkFetch.ChunkFetcher.Clear | src/visualizations/chunk_fetcher.ts:74-78 | clearing empties the cache and the requested set and starts a new generation, leaving the parameters alone |
| ChunkFetch.ChunkFetcher.SetVariables | src/visualizations/chunk_fetcher.ts:38-43 | the same variables change nothing; new ones are stored and clear the fetcher |
| ChunkFetch.ChunkFetcher.SetGroups | src/visualizations/chunk_fetcher.ts:45-50 | the same groups change nothing; new ones are stored and clear the fetcher |
| ChunkFetch.ChunkFetcher.SetFilter | src/visualizations/chunk_fetcher.ts:52-57 | the same filter changes nothing; a new one is stored and clears the fetcher |
| ChunkFetch.ChunkFetcher.SetGranularity | src/visualizations/chunk_fetcher.ts:59-64 | the same granularity changes nothing; a new one is stored and clears the fetcher |
| ChunkFetch.ChunkFetcher.BeginFetch | src/visualizations/chunk_fetcher.ts:80-106 | a cached or already requested chunk sends no query; otherwise the chunk is marked requested and queried with the current filter, granularity, groups, variables and generation |
| ChunkFetch.ChunkFetcher.CompleteFetch | src/visualizations/chunk_fetcher.ts:108-128 | a result is stored exactly when its generation is still current, and then the cache gains the chunk built from it; a stale result changes nothing |
| ChunkFetch.ChunkFetcher.BeginAll | src/visualizations/chunk_fetcher.ts:153-159 | fetching a list of chunks marks requested exactly the listed chunks that were not cached and sends one query per chunk neither cached nor requested |
| ChunkFetch.ChunkFetcher.Request | src/visualizations/chunk_fetcher.ts:132-160 | a request adds to the requested set exactly the planned chunks of its window (by the range size of the granularity) that were not cached, and queries each planned chunk that was neither cached nor requested; cache, generation and parameters are unchanged |
| ChunkFetch.ChunkFetcher.Overlapping | src/visualizations/chunk_fetcher.ts:167-174 | the picked chunks are exactly the cached chunks that overlap the window, each once |
| ChunkFetch.ChunkFetcher.GetChunks | src/visualizations/chunk_fetcher.ts:167-176 | getChunks returns exactly the cached chunks that overlap the window, each once, sorted by timeStart |
| Importer.DayIndexOf | rhessys_import.py:6-10 | the day index exists exactly for a date `datetime.date` accepts, and it is the day whose UTC calendar date is that date |
| Importer.WeekIndexOf | rhessys_import.py:13-17 | the week index exists exactly for a valid date, and it is the week (floor division by 7) that holds the date's day index |
| Importer.DayOfYear | rhessys_import.py:26-30 | the day of the year exists exactly for a valid date, lies in 1..365 or 366, and counting it from January 1st of the year lands on the date |
| Importer.WeekOfYearRange | rhessys_import.py:74 | the week of the year of any day of the year lies in 1..53 |
| Importer.TimeColumnsOf | rhessys_import.py:63-75 | the derived time columns exist exactly when the row's date is valid (an invalid one raises and aborts the import) |
| Importer.TimeColumnsAgreeWithBuckets | rhessys_import.py:63-75 | for a valid date, t_day, t_week, t_month and t_year are the day, week, month and year buckets the dashboard computes for the timestamp of that date, and the t_day bucket starts exactly at that timestamp |
| Importer.ReplaceCharSpec | rhessys_import.py:55 | replacing a character by a text without it leaves none of it, and a text without it is left as it is |
| Importer.ReplaceCharKeepsOut | rhessys_import.py:55 | a character in neither the text nor the replacement does not appear in the result |
| Importer.SanitizeShape | rhessys_import.py:55 | every sanitized name starts with "m_" and holds no '.' and no '%'; a header without those characters is only prefixed |
| Importer.ReplaceCharAppend | rhessys_import.py:55 | replacing a character in a concatenation replaces it in each part |
| Importer.SanitizedDot | rhessys_import.py:55 | for x without '.' or '%', the header x.b sanitises to m_x_b |
| Importer.SanitizedCollide | rhessys_import.py:55 | for x without '.' or '%', the distinct headers x.b and x_b both sanitise to m_x_b, and x_b_2 to m_x_b_2 |
| Importer.SanitizedAt | rhessys_import.py:54-61 | the k-th sanitized name is the sanitized k-th header |
| Importer.NumberedStep | rhessys_import.py:56-60 | numbering one more name appends it with the suffix of its occurrence count (none for the first) |
| Importer.OccurrencesAbsent | rhessys_import.py:56-58 | a name that has not been seen has count 0 |
| Importer.NumberedFirstOccurrence | rhessys_import.py:57-58 | a name at its first occurrence keeps its name |
| Importer.RenamedFirstOccurrence | rhessys_import.py:54-61 | a header whose sanitized name no earlier header has is renamed to its sanitized name alone |
| Importer.NumberedAt | rhessys_import.py:56-60 | a name that occurred c times before position i gets the suffix c + 1 there (none when c is 0) |
| Importer.CounterOfCounts | rhessys_import.py:52-56 | the Counter holds, for every name, how often it has been counted |
| Importer.CounterOfStep | rhessys_import.py:56 | counting one more name increments exactly its entry |
| Importer.RenameStep | rhessys_import.py:54-61 | one step of the renaming increments the Counter's entry for the name and appends the name with its new count's suffix |
| Importer.ColumnRenamer.constructor | rhessys_import.py:52 | the Counter starts empty |
| Importer.ColumnRenamer.Replace | rhessys_import.py:54-60 | name_replacer increments the sanitized name's count and returns that name, suffixed with "_" and the count from the second time on |
| Importer.RenameColumns | rhessys_import.py:52-61 | the renaming loop produces exactly the numbered sanitized headers |
| Importer.RenamedCollides | rhessys_import.py:54-61 | as written: for any x without '.' or '%', the distinct headers x.b, x_b, x_b_2 become m_x_b, m_x_b_2, m_x_b_2, two equal column names |
| Importer.NumberedCollides | rhessys_import.py:56-60 | as written: the numbering of y, y, y_2 is y, y_2, y_2 |
| Importer.SuffixedAtLeast | rhessys_import.py:60 | the name x_k carries a suffix of at least k and of no more |
| Importer.NumberedPrefix | rhessys_import.py:61 | the names given to the first n headers do not depend on the later headers |
| Importer.SuffixSetShrinks | rhessys_import.py:56-60 | moving past a taken suffix leaves fewer taken suffixes ahead (the measure of the free-suffix search) |
| Importer.FreeIndex | rhessys_import.py:56-60 | the free-suffix search returns an index at least its start whose suffixed name is not taken |
| Importer.FreeIndexStep | rhessys_import.py:56-60 | a taken name moves the search one index on |
| Importer.SuffixedNameFor | rhessys_import.py:60 | a suffixed name is the name itself or the name with a numeric suffix of at least 2 |
| Importer.UniqueNumberedStep | rhessys_import.py:54-61 | one step of the corrected numbering appends the first free suffixed form, searching from the name's occurrence count |
| Importer.UniqueNumberedDistinct | rhessys_import.py:54-61 | the corrected numbering gives pairwise distinct names |
| Importer.UniqueNumberedNames | rhessys_import.py:54-61 | each corrected name is the original name or it with a numeric suffix |
| Importer.NoDuplicatesFresh | rhessys_import.py:57-58 | in a list without duplicates no entry occurred before |
| Importer.UniqueNumberedAgrees | rhessys_import.py:54-61 | when the numbering as written has no collision, the corrected numbering gives the same names |
| Importer.RenamedUniqueSpec | rhessys_import.py:54-61 | the corrected renaming gives pairwise distinct column names, each the sanitized header or it with a numeric suffix, and equals the renaming as written whenever that has no collision |
| Importer.FirstFree | rhessys_import.py:56-60 | the search loop for a free suffix returns the first free suffixed name from its start on |
| Importer.RenameColumnsUnique | rhessys_import.py:52-61 | the corrected renaming loop produces exactly the corrected names |
| Importer.RenameUniqueStep | rhessys_import.py:54-61 | one step of the corrected loop increments the Counter and appends the first free suffixed name |
| Scatter.ScatterChunkOf | src/visualizations/scatterplot.tsx:79-89 | a stored chunk has the id `timeStart::timeEnd` and its bounds, one entry per group, and per group t, x and y arrays as long as that group's rows, whose entry k is row k's t, x-variable and y-variable cell converted as a Float64Array converts it |
| Scatter.FirstUncachedSpec | src/visualizations/scatterplot.tsx:107-114 | there is no uncached chunk exactly when every planned chunk is cached; otherwise it is the earliest planned chunk not cached |
| Scatter.FirstUncachedStep | src/visualizations/scatterplot.tsx:110-114 | extending the plan by one chunk keeps the first uncached chunk, or makes it the new chunk when that one is not cached |
| Scatter.PassProgress | src/visualizations/scatterplot.tsx:110-117 | a pass that stores the first uncached chunk leaves exactly one chunk fewer missing, so the passes triggered by each re-render end after as many passes as there were missing chunks |
| Scatter.SelectIndices | src/visualizations/scatterplot.tsx:231-236 | the drawn indices are exactly the indices whose time lies in [timeStart, timeEnd], in ascending order |
| Scatter.Scatterplot.constructor | src/visualizations/scatterplot.tsx:43-54 | a new plot has its props, an empty chunk cache and generation 0 |
| Scatter.Scatterplot.BeginFetch | src/visualizations/scatterplot.tsx:56-75 | a cached chunk sends no query; otherwise one query per group is sent, tagged with the current generation |
| Scatter.Scatterplot.CompleteFetch | src/visualizations/scatterplot.tsx:76-90 | a result is stored exactly when its generation is still current, and then the cache gains the chunk built from it; a stale result leaves the cache alone |
| Scatter.Scatterplot.FetchChunk | src/visualizations/scatterplot.tsx:56-91 | a whole fetchChunk stores a chunk exactly when it was not cached, and then stores the chunk built from the database's answers to its group queries |
| Scatter.Scatterplot.FetchPass | src/visualizations/scatterplot.tsx:110-114 | the loop over a plan stores the first chunk not cached and nothing else, or nothing when every chunk is cached (`shouldUpdate \|\| ...` skips every later fetch) |
| Scatter.Scatterplot.FetchChunks | src/visualizations/scatterplot.tsx:93-118 | fetchChunks plans the chunks of the window by the granularity's range size and adds to the cache exactly the first planned chunk not cached, reporting an update exactly when it did |
| Scatter.Scatterplot.DidUpdate | src/visualizations/scatterplot.tsx:124-134 | the cache is cleared and the generation bumped exactly when the groups or the granularity changed; a change of the x or y variable keeps the cache |
| Scatter.DrawnStored | src/visualizations/scatterplot.tsx:150-155 | a chunk just stored is drawn exactly when it meets the window and holds one entry per current group |
| Scatter.PlannedEndsAfterStart | src/visualizations/scatterplot.tsx:100-112 | every planned chunk ends after the window starts |
| Scatter.FetchedDrawn | src/visualizations/scatterplot.tsx:94-155 | the chunk a fetch pass stores is drawn by the next render exactly when it starts at or before the window's end; the extra chunk planned past the end is fetched but not drawn |
| Scatter.Queries | src/visualizations/scatterplot.tsx:62-75 | a fetch sends one query per group |
| Scatter.Answers | src/visualizations/scatterplot.tsx:62-75 | Promise.all gathers one answer per query |
| Timeseries.SumSnoc | src/visualizations/timeseries.tsx:88 | adding one more value to sumX adds it to the sum of the values so far |
| Timeseries.SumSquaresSnoc | src/visualizations/timeseries.tsx:89 | adding one more value to sumX2 adds its square |
| Timeseries.FoldSums | src/visualizations/timeseries.tsx:71-94 | after counting a list of values, count is its length, sumX its sum and sumX2 its sum of squares |
| Timeseries.FoldBounds | src/visualizations/timeseries.tsx:74-87 | every finite value counted lies between minX and maxX |
| Timeseries.FoldAttained | src/visualizations/timeseries.tsx:74-87 | minX and maxX are values of the list when it holds a finite one, and stay at +Infinity and -Infinity when every value is NaN |
| Timeseries.FoldSnoc | src/visualizations/timeseries.tsx:81-90 | counting one more value adds it to the sums and the count and lowers minX or raises maxX to it when it is below or above them |
| Timeseries.Summary | src/visualizations/timeseries.tsx:95-101 | the result keeps count, min and max; with nothing counted mean and variance are NaN; otherwise the mean is sumX / count and, with finite sums, the variance is sumX2 / count - (sumX / count)^2; a NaN sum makes the variance NaN |
| Timeseries.NoRepeatsAppend | src/visualizations/timeseries.tsx:76-94 | two lists of samples without repeats and without common samples join into a list without repeats |
| Timeseries.GroupSamplesSpec | src/visualizations/timeseries.tsx:78-91 | the samples the innermost loop counts over a group are exactly that group's indices whose time lies in [timeStart, timeEnd], each once |
| Timeseries.ChunkSamplesSpec | src/visualizations/timeseries.tsx:77-92 | the samples counted over a chunk are exactly its in-window samples over all its groups, each once |
| Timeseries.AllSamplesSpec | src/visualizations/timeseries.tsx:76-94 | the samples counted over the chunks are exactly the in-window samples of every group of every chunk, each once |
| Timeseries.ValuesIndex | src/visualizations/timeseries.tsx:81 | the k-th counted value is the variable's value at the k-th sample |
| Timeseries.ValuesSnoc | src/visualizations/timeseries.tsx:81 | one more sample adds its value at the end |
| Timeseries.BoundaryCountedTwice | src/visualizations/timeseries.tsx:67-91 | with the cache as written, two adjacent chunks that both received the row of the bucket at their shared bound make the view statistics count that one row twice |
| Timeseries.BoundaryCountedOnce | src/visualizations/timeseries.tsx:67-91 | with the corrected chunk contents, the same row is counted once, in the chunk that starts at it |
| Timeseries.ViewStatsMeaning | src/visualizations/timeseries.tsx:66-102 | count is the number of samples with timeStart <= t <= timeEnd over every group of every chunk, each counted once, and every finite value of such a sample lies between min and max |
| Timeseries.CountGroup | src/visualizations/timeseries.tsx:78-91 | the innermost loop takes the accumulators from the fold of the values counted so far to the fold that also counts this group's in-window values |
| Timeseries.CountChunk | src/visualizations/timeseries.tsx:77-92 | the loop over a chunk's groups does the same for all of its groups |
| Timeseries.CollectStats | src/visualizations/timeseries.tsx:71-94 | the nested loops end with the accumulators equal to the fold of the values of exactly the in-window samples, in loop order |
| Timeseries.FetcherGroups | src/visualizations/timeseries.tsx:114-117 | the grouping handed to the fetcher has the groupsBy columns and each group's values, in group order |
| Timeseries.TimeseriesPlot.constructor | src/visualizations/timeseries.tsx:61-64 | a new plot owns a new, empty fetcher |
| Timeseries.TimeseriesPlot.Render | src/visualizations/timeseries.tsx:111-118 | render leaves the fetcher configured with the plot's variable, granularity, filter and groups; when all four are unchanged only planned chunks neither cached nor requested are queried, otherwise the fetcher starts a new generation and every planned chunk is queried |
| Timeseries.TimeseriesPlot.GetCurrentViewStats | src/visualizations/timeseries.tsx:66-102 | the statistics are the summary of the fold of the variable's values at the in-window samples of exactly the cached chunks that meet the window, sorted by start |
| Timeseries.KeptPointsSpec | src/visualizations/timeseries.tsx:262-278 | a point is dropped exactly when its x or y is not finite (a value <= 0 on a log scale), and the kept points stay in index order |
| Timeseries.ChunkPoints | src/visualizations/timeseries.tsx:258-278 | the loops of TimeseriesChunk produce exactly the kept points |
| Timeseries.PathEntries | src/visualizations/timeseries.tsx:262-281 | the path starts with 'M' and cutting the rest at each 'L' gives the entries back; with no entries it is "M" |
| Aggregated.QueryOf | src/visualizations/aggregated_timeseries.tsx:62-86 | the query asks for the one variable at the aggregation, groups by groupsBy with each group's values, and keeps the filter's attributes while its time range becomes the props' range |
| Aggregated.UnchangedPropsSameQuery | src/visualizations/aggregated_timeseries.tsx:112-138 | props that agree on everything the comparison looks at give the same query, so skipping the refetch loses nothing |
| Aggregated.AggregatedTimeseries.constructor | src/visualizations/aggregated_timeseries.tsx:55-93 | a new plot has no data, no fetch in flight and has issued no query |
| Aggregated.AggregatedTimeseries.FetchData | src/visualizations/aggregated_timeseries.tsx:94-106 | while a fetch is in flight only the follow-up flag is set; otherwise the flag is cleared and one query for the current props is issued; either way one fetch is in flight afterwards |
| Aggregated.AggregatedTimeseries.CompleteFetch | src/visualizations/aggregated_timeseries.tsx:87-104 | the fetch in flight stores its data; then one follow-up for the current props is issued exactly when one was asked for, otherwise nothing is in flight |
| Aggregated.AggregatedTimeseries.DidMount | src/visualizations/aggregated_timeseries.tsx:108-110 | mounting starts a fetch for the props unless one is in flight |
| Aggregated.AggregatedTimeseries.DidUpdate | src/visualizations/aggregated_timeseries.tsx:112-138 | new props fetch again exactly when the variable, groups, groupsBy, time range, aggregation or filter changed: at once when nothing is in flight, as a follow-up otherwise |
| Aggregated.XDomainCoversBuckets | src/visualizations/aggregated_timeseries.tsx:146-156 | the x domains [1, 366], [1, 53] and [1, 12] hold the ty_day, ty_week and ty_month the importer writes for any valid date |
| Aggregated.Ts | src/visualizations/aggregated_timeseries.tsx:204 | the x inputs are the data points' bucket times, in order |
| Aggregated.Means | src/visualizations/aggregated_timeseries.tsx:205 | the y inputs of the mean line are the points' means, in order |
| Aggregated.Offsets | src/visualizations/aggregated_timeseries.tsx:214-228 | the envelope's y inputs are mean + stdev for the upper edge and mean - stdev for the lower edge, point by point |
| Aggregated.DescPointsSpec | src/visualizations/aggregated_timeseries.tsx:222-232 | the backward loop keeps exactly the points with finite x and y, in descending index order |
| Aggregated.UpperEdge | src/visualizations/aggregated_timeseries.tsx:211-221 | the first envelope loop keeps the finite mean + stdev points in index order |
| Aggregated.LowerEdge | src/visualizations/aggregated_timeseries.tsx:222-232 | the second loop appends the finite mean - stdev points from the last to the first |
| Aggregated.Envelope | src/visualizations/aggregated_timeseries.tsx:202-233 | the envelope is empty on a log scale and otherwise the upper edge forward followed by the lower edge backward |
| Aggregated.EnvelopeAllFinite | src/visualizations/aggregated_timeseries.tsx:210-233 | with every time, mean and stdev finite on a linear scale, the envelope walks every point forward at mean + stdev and every point back at mean - stdev |
| Aggregated.AllDrawable | src/visualizations/aggregated_timeseries.tsx:211-232 | with finite inputs on a linear scale every envelope point is finite |
| Aggregated.KeptAll | src/visualizations/aggregated_timeseries.tsx:211-221 | when every point is finite the forward loop keeps all of them in order |
| Aggregated.DescAll | src/visualizations/aggregated_timeseries.tsx:222-232 | when every point is finite the backward loop keeps all of them in reverse order |
| Aggregated.MeanLine | src/visualizations/aggregated_timeseries.tsx:203-209 | the mean line keeps exactly the finite (time, mean) points in index order |
| Brush.InvertShift | src/visualizations/brush.tsx:57-67 | moving a pixel position by dy moves the value under it by dy / k on a linear scale |
| Brush.ScaleRoundTrip | src/visualizations/brush.tsx:51-67 | `scale.invert` undoes `scale` and the other way round |
| Brush.Clamp | src/visualizations/brush.tsx:36-37 | `Math.max(min, Math.min(max, p))` lies in [min, max] and leaves a value already there unchanged |
| Brush.Emit | src/visualizations/brush.tsx:19-44 | the emitted interval is ordered; without keepDistance it is the two clamped ends in order, inside the domain; with keepDistance it keeps the dragged length, lies inside the domain when that length fits, and is the ordered pair itself when it already lies inside |
| Brush.DraggedMoves | src/visualizations/brush.tsx:57-68 | dragging the min line moves only the min value, the max line only the max value, and the rectangle both, each by dx / k |
| Brush.BrushX.constructor | src/visualizations/brush.tsx:14-17 | a new brush is not dragging and has emitted nothing |
| Brush.BrushX.SetProps | src/visualizations/brush.tsx:4-12 | new props leave the drag session and the emitted intervals alone |
| Brush.BrushX.MouseDown | src/visualizations/brush.tsx:46-76 | without onBrush nothing changes; otherwise a drag of the given side starts at the page position with both ends' pixel positions captured |
| Brush.BrushX.MouseMove | src/visualizations/brush.tsx:57-69 | while dragging, each move emits the dragged values through emit, keeping the distance exactly when both ends are dragged; otherwise nothing changes |
| Brush.BrushX.MouseUp | src/visualizations/brush.tsx:70-73 | releasing the mouse ends the drag and emits nothing |
| Brush.PanShifts | src/visualizations/brush.tsx:241-247 | a pan emits the domain shifted by -dx / k, in ascending order and of the same width, without clamping |
| Brush.PanX.constructor | src/visualizations/brush.tsx:220-223 | a new pan handle is not dragging and has emitted nothing |
| Brush.PanX.MouseDown | src/visualizations/brush.tsx:232-255 | without onBrush nothing changes; otherwise a drag starts at the page position with the scale captured |
| Brush.PanX.MouseMove | src/visualizations/brush.tsx:241-247 | while dragging, each move emits the shifted domain; otherwise nothing changes |
| Brush.PanX.MouseUp | src/visualizations/brush.tsx:248-252 | releasing the mouse emits once more at the release position and ends the drag |
| Dashboard.NumericSpec | src/dashboard.tsx:71 | the filter keeps exactly the variables of type "number", each as often as the table lists it |
| Dashboard.NotBelowTransitive | src/dashboard.tsx:72-74 | "not below by name" is transitive, so the comparator orders consistently |
| Dashboard.ConsSorted | src/dashboard.tsx:72-74 | a sorted list stays sorted under a new head that no name in it is below |
| Dashboard.InsertMultiset | src/dashboard.tsx:72-74 | inserting a variable into the sorted list adds exactly that variable |
| Dashboard.InsertSorted | src/dashboard.tsx:72-74 | inserting into a list sorted by name keeps it sorted |
| Dashboard.SortByNameSpec | src/dashboard.tsx:72-74 | the sort yields a list sorted by name that is a permutation of its input |
| Dashboard.VariableListSpec | src/dashboard.tsx:68-76 | the offered variable list is sorted by name and holds exactly the table's numeric variables, each as often as the table lists it |
| Dashboard.SameHead | src/dashboard.tsx:72-74 | two orderings sorted by name of the same variables with distinct names start with the same variable |
| Dashboard.SortedTail | src/dashboard.tsx:72-74 | the tail of a sorted list with distinct names is sorted with distinct names |
| Dashboard.SortedTailOnly | src/dashboard.tsx:72-74 | the tail of a sorted list is sorted |
| Dashboard.TailMultiset | src/dashboard.tsx:72-74 | two permutations of each other with the same head have tails that are permutations of each other |
| Dashboard.SortedUnique | src/dashboard.tsx:72-74 | with distinct names there is only one ordering sorted by name, so the list shown does not depend on the sort algorithm |
| Dashboard.DashboardPage.constructor | src/dashboard.tsx:42-54 | the page starts with no variable list, overview timelines precip and streamflow at month granularity, and detail timelines streamflow, streamflow_NO3 and root_depth at day granularity |
| Dashboard.DashboardPage.UpdateVariableList | src/dashboard.tsx:68-76 | the fetched list replaces the variable list by its numeric variables sorted by name; the timelines stay as they were |
| Dashboard.DashboardPage.SetVariable | src/dashboard.tsx:112-115 | a timeline's selector replaces the variable at its index in its own section only |
| Dashboard.DashboardPage.RemoveVariable | src/dashboard.tsx:121-124 | a delete button removes exactly the timeline at its index from its own section |
| Dashboard.DashboardPage.AddVariable | src/dashboard.tsx:158-161 | the "Add new variable" selector appends the variable to its own section only |
| Dashboard.DashboardPage.SetGranularity | src/dashboard.tsx:94-98 | a section's granularity selector sets that section's granularity only |
| Dashboard.DashboardPage.AddThenRemove | src/dashboard.tsx:121-161 | adding a timeline and then deleting the timeline just added leaves the whole page state as it was |
| Dashboard.AutoScale | src/dashboard.tsx:287-317 | every branch of autoScale leaves the axis ready and linear |
| Dashboard.AutoScaleNegative | src/dashboard.tsx:293-299 | a variable with a negative value gets the axis [-5 stdev, 5 stdev], whatever its mean |
| Dashboard.AutoScaleNonNegative | src/dashboard.tsx:300-316 | a variable without negative values gets an axis that starts at 0 or at mean - 5 stdev, ends at mean + 5 stdev and holds the mean |
| Dashboard.AutoScaleConstant | src/dashboard.tsx:300-307 | a constant positive variable gets an axis of zero width at its mean |
| Dashboard.Timeline.constructor | src/dashboard.tsx:280-285 | a new timeline has the axis [0, 1], linear and not ready |
| Dashboard.Timeline.DidMount | src/dashboard.tsx:287-321 | mounting queries the variable's statistics at day granularity |
| Dashboard.Timeline.DidUpdate | src/dashboard.tsx:323-330 | new props query the statistics again exactly when the variable or the granularity changed, and always at day granularity |
| Dashboard.Timeline.ApplyStats | src/dashboard.tsx:287-317 | the arriving statistics set the axis to autoScale's choice |
| Reducers.SetAt | src/dashboard/reducers.ts:4-8 | the copy has the same length, the new value at the index and every other element unchanged |
| Reducers.RemoveAt | src/dashboard/reducers.ts:10-14 | an index inside the array removes exactly that element and shifts the later ones down; an index past the end removes nothing |
| Reducers.MoveUp | src/dashboard/reducers.ts:16-24 | the element at i swaps with the one before it when 1 <= i < length, otherwise the copy is unchanged; either way a permutation |
| Reducers.MoveDown | src/dashboard/reducers.ts:26-34 | the element at i swaps with the one after it when 0 <= i < length - 1, otherwise the copy is unchanged; either way a permutation |
| Reducers.SwapMultiset | src/dashboard/reducers.ts:16-34 | swapping two elements keeps the same elements, each as often |
| Reducers.MoveUpRoundTrip | src/dashboard/reducers.ts:16-34 | moving an element up and then down again restores the array |
| Reducers.MoveDownRoundTrip | src/dashboard/reducers.ts:16-34 | moving an element down and then up again restores the array |
| Reducers.Append | src/dashboard/reducers.ts:36-40 | the copy is the array with the value added at the end |
| Reducers.ApplyUpdates | src/dashboard/reducers.ts:42-44 | the merged view has every field of both, the update's value where both have one |
| Reducers.ApplyUpdatesIdempotent | src/dashboard/reducers.ts:42-44 | applying the same updates twice is applying them once |
| Reducers.IndexIn | src/dashboard/reducers.ts:107-111 | `indexOf` is -1 exactly when the level is absent, and otherwise the first position holding it |
| Reducers.FirstWithIdSpec | src/dashboard/reducers.ts:136-147 | the search finds nothing exactly when no view has the id, and otherwise the first view with it |
| Reducers.FindView | src/dashboard/reducers.ts:136-141 | the loop that stops at the first view with the id finds exactly that view's index |
| Reducers.EditViews | src/dashboard/reducers.ts:166-207 | the loop over one view list applies the action's helper at the first view with the id |
| Reducers.Reduce | src/dashboard/reducers.ts:46-211 | the reducer method computes exactly the next state of the reducer's case table |
| Reducers.ReducerFrame | src/dashboard/reducers.ts:50-209 | a view action changes only the two view lists; every other action leaves both view lists as they were |
| Reducers.ReducerUnhandled | src/dashboard/reducers.ts:51-209 | the two move-to-section actions have no case and leave the state as it is |
| Reducers.RemoveSpec | src/dashboard/reducers.ts:166-181 | removing takes out the first view with the id from a list and nothing else; a list without the id is unchanged |
| Reducers.UpdateSpec | src/dashboard/reducers.ts:182-207 | updating merges the updates into the first view with the id and leaves the length and every other view as they were |
| Reducers.MoveUpThenDown | src/dashboard/reducers.ts:134-165 | moving a view up and then down restores the state, when the view is not already first in a list that holds it |
| Reducers.FirstAfterMoveUp | src/dashboard/reducers.ts:134-148 | after moving the first view with the id up, it is found one place earlier |
| Reducers.UpDownOneList | src/dashboard/reducers.ts:134-165 | in one list, moving the view with the id up and then down restores the list |
| Reducers.MovesPermute | src/dashboard/reducers.ts:134-165 | moving a view up or down keeps each view list a permutation of itself |
| Reducers.EnableIdempotent | src/dashboard/reducers.ts:106-109 | enabling a level selects it, and enabling it again changes nothing |
| Reducers.DisableRemovesOne | src/dashboard/reducers.ts:110-115 | disabling a selected level removes exactly one occurrence of it |
| Reducers.EnableThenDisable | src/dashboard/reducers.ts:103-116 | enabling a level that was not selected and disabling it again restores the selection |
| Reducers.FilterValueFrame | src/dashboard/reducers.ts:103-116 | the filter action changes only the named factor's selection, and nothing else of the state |
| Reducers.GroupBySpec | src/dashboard/reducers.ts:73-85 | grouping by an unknown factor leaves a single black group over no attribute; a known factor groups by its name with one group per level |
| DashState.FactorNamedSpec | src/dashboard/state.ts:96-103 | no factor is found exactly when none has the name; otherwise the first factor with the name is found |
| DashState.GetFactor | src/dashboard/state.ts:96-103 | the search loop that returns at the first match finds exactly that factor |
| DashState.FactorColors | src/dashboard/state.ts:105-117 | there is a colour for every level of the factor |
| DashState.FactorColorsSpec | src/dashboard/state.ts:105-117 | the colours are those of the first palette of the factor's kind with enough colours, or black once per level when there is none |
| DashState.GetFactorColors | src/dashboard/state.ts:105-117 | the search loop over the palettes returns exactly those colours |
| DashState.GroupsFromFactor | src/dashboard/state.ts:119-131 | the grouping is by the factor's name, with one group per level, in level order, holding that level and the level's colour |
| DashState.GroupsCoverLevels | src/dashboard/state.ts:119-131 | a level has its own group exactly when it is one of the factor's levels |
| DashState.DBAttributesSpec | src/dashboard/state.ts:133-141 | a factor name is constrained exactly when some factor of that name has a selection of a different size than its levels, and the constraint is `in` the selected levels |
| DashState.GetDBFilter | src/dashboard/state.ts:133-141 | the loop over the factors builds a filter with no time bounds and exactly those attribute constraints |
| DashState.DefaultFilter | src/dashboard/state.ts:143-149 | the default filter has a selection for every factor |
| DashState.DefaultFilterSpec | src/dashboard/state.ts:143-149 | the default filter's keys are the factor names, and with distinct names each selects all of its factor's levels |
| DashState.CreateDefaultFilter | src/dashboard/state.ts:143-149 | the loop over the factors builds exactly the default filter |
| DashState.DefaultFilterUnconstrained | src/dashboard/state.ts:133-149 | with distinct factor names the default filter selects everything, so the database filter derived from it constrains nothing |
| DashState.DefaultFilterRepeatedName | src/dashboard/state.ts:133-149 | with a repeated factor name the default filter keeps the last factor's levels and the database filter still constrains the name |
| GroupsEditor.ColorAt | src/widgets/groups_editor.tsx:18-37 | a palette entry exists exactly for an index inside the palette, and it is the colour at that index |
| GroupsEditor.CreateFacets | src/widgets/groups_editor.tsx:25-40 | one group per value, in order, whose filter has no time bounds and the single attribute constraint `in [value]`, coloured by its index from the nominal or the sequential palette |
| GroupsEditor.FacetsDistinct | src/widgets/groups_editor.tsx:25-40 | distinct values give distinct groups, and groups inside the palette get distinct colours |
| GroupsEditor.TextItemsSnoc | src/widgets/groups_editor.tsx:55-59 | an attribute without an `in` list adds no text; one with it adds "attr = v1,v2" at the end |
| GroupsEditor.TextItemsWithinOnly | src/widgets/groups_editor.tsx:55-59 | attributes with only `within` constraints contribute no text |
| GroupsEditor.FilterToText | src/widgets/groups_editor.tsx:52-62 | the loop over the keys produces the items joined with "; " |
| GroupsEditor.FacetText | src/widgets/groups_editor.tsx:42-62 | a facet's text is "attribute = value", and the "All" group's text is empty |
| GroupsEditor.Presets | src/widgets/groups_editor.tsx:42-50 | there are four preset groupings |
| GroupsEditor.LastMatchSpec | src/widgets/groups_editor.tsx:69-74 | the current option is found exactly when some preset's groups equal the shown groups, and it is the name of the last such preset |
| GroupsEditor.CurrentOption | src/widgets/groups_editor.tsx:69-74 | render's loop over the options yields exactly that name |
| GroupsEditor.Named | src/widgets/groups_editor.tsx:80 | the filtered options are exactly the presets with the selected name |
| GroupsEditor.OnSelect | src/widgets/groups_editor.tsx:79-86 | groups are handed on exactly when one preset carries the selected name, and they are that preset's groups |
| GroupsEditor.OnSelectUnknown | src/widgets/groups_editor.tsx:79-86 | a name no preset carries hands nothing on |
| GroupsEditor.NamedUnique | src/widgets/groups_editor.tsx:80 | a name only one preset carries selects that preset alone |
| GroupsEditor.NamedNone | src/widgets/groups_editor.tsx:80 | a name no preset carries selects none |
| GroupsEditor.LastMatchUnique | src/widgets/groups_editor.tsx:69-74 | groups that no later preset repeats are recognised as their preset |
| GroupsEditor.PresetsDistinct | src/widgets/groups_editor.tsx:42-50 | the presets carry distinct names and distinct groups |
| GroupsEditor.PresetRoundTrip | src/widgets/groups_editor.tsx:69-86 | choosing a preset hands on its groups, and the editor then shows that same preset as current |
| VariableSelect.FirstNamedSpec | src/widgets/variable_select.tsx:24-31 | no variable is found exactly when none has the name; otherwise the first variable with it |
| VariableSelect.ItemPredicate | src/widgets/variable_select.tsx:53-58 | an item is listed exactly when the query occurs, ignoring case, in its name or its description |
| VariableSelect.ItemPredicateFinds | src/widgets/variable_select.tsx:53-58 | an empty query lists every variable, and typing a variable's own name in any case keeps it listed |
| VariableSelect.ItemRenderer | src/widgets/variable_select.tsx:32-52 | a menu entry is drawn exactly for an item the query keeps; it shows the item's name, labelled with its description followed by " (unit)" when the unit is not empty, and nothing else |
| VariableSelect.CurrentDescription | src/widgets/variable_select.tsx:70-75 | the button text starts with the item's name, followed by " - description" when there is one; " (unit)" ends it when there is a unit, and its length is the name's plus those two parts'; without a description or unit it is the name alone; without an item it is the placeholder, or "none" when the placeholder is missing or empty |
| VariableSelect.VariableSelector.constructor | src/widgets/variable_select.tsx:21-23 | a new selector has its props and no highlighted item |
| VariableSelect.VariableSelector.GetItem | src/widgets/variable_select.tsx:24-31 | the loop returns the first variable with the name, or none |
| VariableSelect.VariableSelector.Render | src/widgets/variable_select.tsx:69-75 | the button text is the description of the selected value's variable, or the placeholder |
| VariableSelect.VariableSelector.HandleActiveItemChange | src/widgets/variable_select.tsx:64-68 | the highlighted item becomes the given item and nothing else changes |
| VariableSelect.SelectThenDescribe | src/widgets/variable_select.tsx:24-75 | selecting a listed variable with a unique name makes the button describe that variable |
| Visualization.IsInFilter | src/dashboard/visualization.tsx:36-48 | a level is out exactly when the filter has an `in` list for the factor and the level is not in it |
| Visualization.FacetFilterAdmits | src/dashboard/visualization.tsx:30-48 | a facet filter admits its own level of its attribute and no other, and every level of any other attribute |
| Visualization.ValidFacetLevels | src/dashboard/visualization.tsx:314-319 | the facet levels shown are exactly the factor's levels the global filter admits, in order |
| Visualization.DefaultShowsAllLevels | src/dashboard/visualization.tsx:314-319 | with distinct factor names and the default filter every level of the facet factor is shown |
| Visualization.AllAdmitted | src/dashboard/visualization.tsx:314-319 | a filter without attribute constraints shows every level |
| Visualization.PutAllIn | src/dashboard/visualization.tsx:63-69 | storing an `in` constraint keeps every constraint an `in` list |
| Visualization.Keep | src/dashboard/visualization.tsx:64-66 | the intersected list holds exactly the values in both lists |
| Visualization.MergeOneSpec | src/dashboard/visualization.tsx:63-69 | merging one attribute changes only that attribute; it is then present, and a value is in its list exactly when it was in the earlier list (if any) and is in the new one |
| Visualization.MergeAttrsSpec | src/dashboard/visualization.tsx:61-71 | after merging a filter's attributes, an attribute is present when it was before or the filter names it, and a value is in its list exactly when it was in the earlier list (if any) and in every list the filter gives that name |
| Visualization.Starts | src/dashboard/visualization.tsx:55-57 | the collected starts are exactly the filters' given time starts |
| Visualization.Ends | src/dashboard/visualization.tsx:58-60 | the collected ends are exactly the filters' given time ends |
| Visualization.MaxOf | src/dashboard/visualization.tsx:73-78 | `Math.max(...s)` is an element of s at or above every element |
| Visualization.MinOf | src/dashboard/visualization.tsx:76-78 | the minimum is an element at or below every element, the bound the corrected merge takes for the end |
| Visualization.MergedAttrs | src/dashboard/visualization.tsx:50-72 | the merged attributes carry an `in` list for every attribute |
| Visualization.MergeInto | src/dashboard/visualization.tsx:62-70 | the inner loop over one filter's keys computes exactly the merge of that filter's attributes |
| Visualization.MergeFilter | src/dashboard/visualization.tsx:50-80 | the loops of mergeFilter compute exactly the merge as written: intersected `in` lists, the latest start and the latest end |
| Visualization.OneListPerName | src/dashboard/visualization.tsx:62-66 | within one filter with distinct keys, the lists met for a name are exactly its one `in` list |
| Visualization.MergedAdmits | src/dashboard/visualization.tsx:50-72 | the merged filter admits a level of an attribute exactly when every merged filter does: the merge is the intersection of the attribute filters |
| Visualization.MergedTimeWindow | src/dashboard/visualization.tsx:73-78 | the corrected merge admits a time exactly when every filter's window does |
| Visualization.MergedAsWrittenWidens | src/dashboard/visualization.tsx:76-78 | as written: merging end times 100 and 200 keeps 200, so the merge admits 150, which the first filter excludes |
| Visualization.MergeVersionsAgree | src/dashboard/visualization.tsx:202-207 | without end times the merge as written and the corrected merge agree, which is the case for the panels' facet and global filters |
| Visualization.PanelFilterAdmits | src/dashboard/visualization.tsx:202-207 | a facet panel's filter, merged as written, admits exactly its own level of the facet factor, and that only when the global filter admits it; without an end time in the global filter it equals the corrected merge |
| Visualization.CanUpDownSpec | src/dashboard/visualization.tsx:106-116 | the up button is disabled exactly when the view is first in its list, and with unique ids the down button exactly when it is last |
| Visualization.ButtonsMatchReducer | src/dashboard/visualization.tsx:106-116 | with unique ids, the up button is enabled exactly when the reducer's move-up action changes the list, and likewise for down |
| Visualization.HeightSwitchRoundTrip | src/dashboard/visualization.tsx:756-776 | with increasing steps, the height switch shows the state it was last toggled to |

## Left out

### Runtime, I/O and numerics

- I/O (MapD connection, sessions, listTables, variables.csv, the SQL of queryValueStats and queryAggregatedVariables) becomes query results passed in as parameters or function values. Promise.all concurrency is not modelled: awaits are begin/complete pairs in a sequential trace.
- requestAnimationFrame debouncing, canvas and SVG drawing, axes, margins and layout are not modelled: they only render.
- Math.sqrt, log and exp are not available over integers and reals in Dafny:
  - view statistics report the variance in place of the standard deviation;
  - the log scale's `ln` is a parameter;
  - the wheel zoom and truncateTK are not modelled.
- Float64 arithmetic is modelled as exact reals: `Num` is `Fin(real) | NaN`. Rounding, overflow to ±Infinity and cancellation are not modelled:
  - Brush.ScaleRoundTrip and Timeseries.FoldSums hold exactly over reals, but only up to rounding in floating point;
  - in floating point, sumX2 / count - mean^2 can come out slightly negative for nearly equal values, and Math.sqrt then gives a NaN stdev.
- Timeseries.Summary: the variance is stated as the source computes it, sumX2 / count - (sumX / count)^2. That this equals the mean squared deviation from the mean, and so is never negative over reals, is not proved.
- Fractional seconds are dropped: timestamps are integers.
- d3 time parsing is modelled only for years 100..9999. `%Y` reads at most four digits and no sign. Below year 100, d3 sets the full year after resolving the month, so the month-0 overflow that months_to_timestamp relies on would not move into the year before.
- Unicode case folding is not modelled: only ASCII letters are lower-cased.
- Common.StringToNumber: only signed decimals with an optional point are converted. ToNumber also reads exponents ("1e3"), "Infinity" and 0x, 0o and 0b prefixes, which the model makes NaN. The Num datatype has no infinities, and the source converts cells that the database returns as numbers.
- Mapd.InGroup: compares a row's g_ cells with the group's text values structurally. src/database/mapd.ts:72 uses loose `==`, so a numeric cell 3 would also match the text "3". The factors configured in src/dataset_selector.tsx:42-50 all have text levels.
- Number formatting with toFixed is a parameter (`fmt`).
- pandas CSV loading and dataframe merging (rhessys_import.py:33-49) and dropping the "Unnamed: 0" column are not modelled. The importer's time columns are derived per row, not over the whole table.

### Behaviour of the source kept as it is

- A failed query in the chunk fetcher leaves its chunk in the requested set forever, so that chunk is never retried before a clear. The model has no failure path because the source has no catch.
- A failed aggregated fetch leaves previousFetch set forever. The model has no failure path.
- The scatterplot calls `db.queryTimeSeries`, which the database interface in src/database/abstract.ts does not declare. It is modelled as a query parameter.
- The scatterplot's boundary bucket is drawn twice, for the same reason as the first finding below.
- The unreachable default of RangeSize (365 days) is not modelled: granularity is a closed datatype.
- A cell stored in a Float64Array is converted as ToNumber converts it: a text by StringToNumber, null (Mapd.Value's NullV) to 0, undefined to NaN. This holds in the point filters too.
- A requested variable named "t" overwrites the converted `t` with the m_t column, as in the source. Mapd.PostProcessedFields states it.
- DashboardTimeline passes a `lines` prop that TimeseriesPlot does not declare. It is ignored.
- The auto-scale query always asks for "day" statistics, yet a granularity change re-runs it anyway. The model keeps the trigger as written.
- The auto-scale branch for `min < 0` ignores the mean. The model keeps that branch as written.
- Dashboard.SortByName: the JavaScript comparator returns 1 for equal names, which is not a consistent comparator. The model sorts by name with an insertion sort. Dashboard.SortedUnique shows that with distinct names the order is the only one possible.
- DashState.DefaultFilterRepeatedName: with a repeated factor name, the default filter is no longer unconstrained. The lemma shows this; the unconstrained result is proved for distinct names.

### Modelling choices

- Reducers.SetAt is modelled for in-range indices only. An out-of-range index grows a JavaScript array with holes, which a Dafny sequence cannot hold.
- A view's fields are modelled as a map from field name to value, and applyUpdates as a map override.
- JSON.stringify comparison and deepEquals (not defined in src/utils.ts) are modelled as structural equality of datatypes.
- The d3 palettes are constants copied from d3-scale-chromatic.
- A palette index past the end gives None, where JavaScript gives undefined.
- The aggregated panel's mean line reuses Timeseries' kept-point construction; toFixed(5) formatting is not modelled.
- The envelope lookup reads mean and standard deviation from one aggregated datum.

### Operations not modelled

- createDefaultDashboardState, createDefaultTimeseries, createDefaultScatterplot and uniqueID are not modelled: they draw random identifiers.
- handleItemSelect in the variable picker is not modelled: it only forwards to a callback.
- The `data[0].variables[variable]` guard in the aggregated render is not modelled.
- The rest of src/dashboard/visualization.tsx is rendering and is not modelled.
- mergeStats is not modelled: it uses `d3.mean` over floating point.
- The "year" aggregation queries a `ty_year` column that the importer never creates. The x domain is left at its default for year, as in the source.

### Preconditions

- Timeseries.TimeseriesPlot.GetCurrentViewStats requires every cached chunk to carry the variable's column. In the source, reading a missing column throws.
- DashState.GetDBFilter and the reducer's SetFilterValue require the factor to be present in the filter. In the source, the lookup gives undefined and the code throws.

## Findings

| source | as written | input that shows it | evidently intended | confidence | as-written member | corrected member |
|---|---|---|---|---|---|---|
| src/visualizations/chunk_fetcher.ts:96-121 | chunk bounds become inclusive bucket filters at both ends (src/database/mapd.ts:268-283), and adjacent chunks share the boundary `e`. Both queries select the bucket holding `e` (ChunkFetch.BoundaryBucketShared), both chunks store its row, and the view statistics (src/visualizations/timeseries.tsx:67-91) count it twice | chunks [s, e] and [e, e2] with s < e < e2 whose queries both return the row with t = e: the count over [s, e2] is 2 for one row | each bucket belongs to exactly one chunk: half-open chunks [i*rs, i*rs+rs), which ChunkFetch.OwnedByOneChunk shows hold each bucket once, kept by ChunkFetch.OwnedRows | not executed | Timeseries.BoundaryCountedTwice | Timeseries.BoundaryCountedOnce |
| rhessys_import.py:54-61 | the k-th repeat of a sanitized name gets the suffix "_k" without checking that the suffixed name is free | the distinct headers a.b, a_b, a_b_2 become m_a_b, m_a_b_2, m_a_b_2 (Importer.RenamedCollides, for any a without '.' or '%') | renamed columns are all distinct | not executed | Importer.RenamedCollides | Importer.RenamedUniqueSpec |
| src/dashboard/visualization.tsx:76-78 | the merged timeEnd is the max of the given timeEnds, so merging widens the window | filters ending at 100 and at 200 merge to an end of 200, which admits 150 although the first filter excludes it | a merged filter admits a time exactly when every input filter does (min of the ends) | not executed | Visualization.MergedAsWrittenWidens | Visualization.MergedTimeWindow |
