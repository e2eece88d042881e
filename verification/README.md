# coding-challenge: the people-file summary, modelled in Dafny

The application reads one file of people records (CSV or JSON, optionally gzip-compressed)
and prints three figures:

- the average number of siblings, rounded;
- the three favourite foods with their counts;
- how many people were born in each month, each birth read in its own time zone.

This project models the two components that carry that logic.

- **`SummaryData`** (`service.dfy`, class `Service.SummaryData`) is the stateful aggregator.
  - Its four running fields are the record count, the sibling sum, the food table and the month table.
  - `reset` clears them.
  - The per-record update step (`numOfSiblings +=`, `updateBirthMonths`, `updateFoodMap`) runs inside the record loops of the CSV, Jackson and Gson readers.
  - `generateReport` dispatches on the file type and computes the report.
- **The pure logic behind it** (`aggregation.dfy`) is stated on values:
  - the update step as a function on `Totals`;
  - the totals of a whole list (`Tally`, `Aggregate`) and what they mean: the record count, the sum of the siblings, one count per food and per month, and independence from record order;
  - `getAverageSiblings`, which is `Math.round` of a `double` quotient, stated exactly in integers;
  - the top-three selection: a sort by descending count over the map's entry stream, then `limit(3)`; foods with equal counts may come out in any order;
  - the twelve month cells of the report.
- **Birth months** (`time_zones.dfy`, `calendar.dfy`) follow java.time:
  - `ZoneId.of` picks a fixed offset, with `ZoneOffset.of`'s layouts and its 18-hour limit, or a named region.
  - `Instant.ofEpochMilli` floor-divides to seconds. The offset is added, and floor division by 86400 gives the epoch day.
  - The epoch day becomes a date of the proleptic Gregorian calendar of ISO 8601. The month is read off that date.
  - Named regions are resolved through an abstract table of offsets (`ZoneRules`).
  - The aggregation sees the whole chain as one `Resolver` function from a record to its month.
- **`FileUtils`** (`file_utils.dfy`): `getFileExtension`, `getFileType` with its case-sensitive promotion of `gz` to `csv.gz` / `json.gz`, and the decompressed file name of `decompressGZIP`.
- **`Runner`** (`runner.dfy`): the start-up decision of `main`:
  - a supported type runs the report;
  - any other type prints the "only support" message;
  - a missing file raises the `NullPointerException` that `main` catches.
- **`Scenarios`** (`scenarios.dfy`): one complete run on a three-record CSV file, from the epoch timestamps to the printed figures.

The class methods are proved against the value-level functions. Examples:

- `ProcessRows` leaves the fields equal to `Tally` of the records, or else stops at the first record whose zone does not resolve.
- `GenerateReport` leaves the fields `ReportFields` of the file type and the records: `Aggregate` of the records, or the counts up to the first record that fails, whose zone error it returns.

The properties the source promises are lemmas about those functions.

## Model

| member | source | states |
|---|---|---|
| Service.SummaryData.constructor | src/main/java/com/interset/interview/service/SummaryData.java:40-43 | the object keeps the file type and the file it was built with, and its counters start at zero |
| Service.SummaryData.Reset | src/main/java/com/interset/interview/service/SummaryData.java:48-53 | after reset the record count and sibling sum are 0 and both tables are empty |
| Service.SummaryData.UpdateFoodMap | src/main/java/com/interset/interview/service/SummaryData.java:138-144 | the food table becomes `Bump` of the old one: the food's count rises by one (inserted at 1 when absent), every other entry and all other fields are unchanged |
| Service.SummaryData.UpdateBirthMonths | src/main/java/com/interset/interview/service/SummaryData.java:117-131 | succeeds exactly when the zone resolves; then the abbreviation of the local birth month rises by one and nothing else changes; when `ZoneId.of` fails nothing changes |
| Service.RecordMonth | src/main/java/com/interset/interview/service/SummaryData.java:120-125 | a record's month is defined exactly when its zone resolves, and is the month of its instant in that zone |
| Service.SummaryData.Accept | src/main/java/com/interset/interview/service/SummaryData.java:162-164 | one record's update step: on success the fields are `Observe` of the old fields; on a zone error only the siblings have been added |
| Service.SummaryData.ProcessRows | src/main/java/com/interset/interview/service/SummaryData.java:161-166 | succeeds exactly when every zone resolves; then the fields are `Tally` of the records and `records` is their number; otherwise `records` is unchanged, and the tables and sibling sum are those of the records before the first unresolvable one, plus that record's siblings |
| Service.SummaryData.ProcessRowsStreaming | src/main/java/com/interset/interview/service/SummaryData.java:224-231 | the same outcome, with `records` counted up once per completed record, so a failing run has counted the records before the failure |
| Service.SummaryData.IterationOrder | src/main/java/com/interset/interview/service/SummaryData.java:84 | the entry stream of the food table lists every food exactly once |
| Service.SummaryData.GenerateReport | src/main/java/com/interset/interview/service/SummaryData.java:58-102 | for a supported type the report succeeds exactly when every zone resolves, and the fields are then `Aggregate` of the records; a failure is the zone error of the first unresolvable record; an unsupported type processes nothing; the average is `AverageSiblings` of the fields; the month line is the twelve lookups; the foods line is `TopFoods` over some enumeration of the food table; in every case the fields afterwards are `ReportFields` |
| Service.ReportFields | src/main/java/com/interset/interview/service/SummaryData.java:58-77 | the fields a report run leaves: empty for an unsupported type; `records` is the number of records exactly when every zone resolves and 0 otherwise; the sibling sum covers all records, or the records up to and including the first one whose zone fails |
| Service.ReportTwice | src/main/java/com/interset/interview/service/SummaryData.java:59 | since the report starts with a reset, generating it twice on the same records leaves the same fields (`ReportFields`) after each run, and gives the same error, or the same average, month line, and foods line length and counts |
| Aggregation.MonthName | src/main/java/com/interset/interview/service/SummaryData.java:124-125 | each month number prints as one of the twelve three-letter abbreviations |
| Aggregation.MonthNamesDistinct | src/main/java/com/interset/interview/service/SummaryData.java:124-125 | distinct months print differently, so each month has its own key |
| Aggregation.Bump | src/main/java/com/interset/interview/service/SummaryData.java:138-144 | the key is present afterwards with its old count (0 if absent) plus one; all other keys keep their counts and no other key appears |
| Aggregation.BumpCommutes | src/main/java/com/interset/interview/service/SummaryData.java:138-144 | two increments commute |
| Aggregation.FirstUnresolved | src/main/java/com/interset/interview/service/SummaryData.java:161-165 | when some zone fails, there is a first record whose zone fails and all before it resolve |
| Aggregation.FirstUnresolvedAt | src/main/java/com/interset/interview/service/SummaryData.java:161-165 | a failing record with only resolvable records before it is that first record |
| Aggregation.Observe | src/main/java/com/interset/interview/service/SummaryData.java:162-164 | one record's step leaves `records` alone, adds the record's siblings, and raises the counts of its food and of its month abbreviation by one, adding each key if absent |
| Aggregation.ObserveOthers | src/main/java/com/interset/interview/service/SummaryData.java:162-164 | one record's step leaves the count of every other food and every other month as it was |
| Aggregation.Tally | src/main/java/com/interset/interview/service/SummaryData.java:161-166 | the steps over a list never touch `records` |
| Aggregation.Aggregate | src/main/java/com/interset/interview/service/SummaryData.java:161-166 | after a whole pass `records` is the number of records and `numOfSiblings` the sum of their siblings |
| Aggregation.TallyObserve | src/main/java/com/interset/interview/service/SummaryData.java:161-165 | processing one more resolvable record applies exactly one more update step |
| Aggregation.PrefixStep | src/main/java/com/interset/interview/service/SummaryData.java:161-165 | one completed iteration extends the processed prefix by one record |
| Aggregation.TallySiblings | src/main/java/com/interset/interview/service/SummaryData.java:162 | the steps leave the record count alone and add the sum of the records' siblings |
| Aggregation.TallyFoods | src/main/java/com/interset/interview/service/SummaryData.java:164 | for every food, the table's count grows by the number of records naming it, and the food is present exactly when it was or some record names it |
| Aggregation.TallyMonths | src/main/java/com/interset/interview/service/SummaryData.java:163 | for every month abbreviation, the count grows by the number of records born in that month, and the key is present exactly when it was or some record has that month |
| Aggregation.SumValuesBump | src/main/java/com/interset/interview/service/SummaryData.java:138-144 | one increment raises the sum of all counts by exactly one |
| Aggregation.TallySums | src/main/java/com/interset/interview/service/SummaryData.java:161-165 | each record adds exactly one to the food total and one to the month total |
| Aggregation.TallyWellFormed | src/main/java/com/interset/interview/service/SummaryData.java:126-130 | counts stay positive and the month keys stay among the twelve abbreviations |
| Aggregation.AggregateFoods | src/main/java/com/interset/interview/service/SummaryData.java:161-166 | after a whole pass each food's count is the number of records naming it, and only named foods appear |
| Aggregation.AggregateMonths | src/main/java/com/interset/interview/service/SummaryData.java:161-166 | after a whole pass each month's count is the number of records born in it, and only months that occur appear |
| Aggregation.AggregateTotals | src/main/java/com/interset/interview/service/SummaryData.java:161-166 | after a whole pass the food counts and the month counts each add up to the number of records |
| Aggregation.ObserveCommutes | src/main/java/com/interset/interview/service/SummaryData.java:162-164 | two records' update steps commute |
| Aggregation.StepCommutes | src/main/java/com/interset/interview/service/SummaryData.java:162-164 | the same for steps whose months come from the resolver |
| Aggregation.MoveToEnd | src/main/java/com/interset/interview/service/SummaryData.java:161-165 | moving one record to the end of the list leaves the totals unchanged |
| Aggregation.AllResolvePermutation | src/main/java/com/interset/interview/service/SummaryData.java:161-165 | whether every zone resolves does not depend on the order of the records |
| Aggregation.TallyPermutation | src/main/java/com/interset/interview/service/SummaryData.java:161-165 | any reordering of the records gives the same totals |
| Aggregation.AggregateOrderIndependent | src/main/java/com/interset/interview/service/SummaryData.java:200-206 | record count, sibling sum and both tables after a whole pass are the same for every permutation of the input |
| Aggregation.FloorDiv | src/main/java/com/interset/interview/service/SummaryData.java:110 | the quotient rounded towards minus infinity, for either sign of the divisor |
| Aggregation.AverageSiblings | src/main/java/com/interset/interview/service/SummaryData.java:109-111 | for a positive count the result is the nearest integer to the quotient, halves rounded up; for zero records it is 0 for a sum of 0 or below (NaN or minus infinity) and -1 for a positive sum (the infinite long narrowed to int) |
| Aggregation.AverageExamples | src/main/java/com/interset/interview/service/SummaryData.java:109-111 | 5 over 2 gives 3, 4 over 2 gives 2, 6 over 3 gives 2, and no records give 0 |
| Aggregation.Insert | src/main/java/com/interset/interview/service/SummaryData.java:85 | inserting a key into the sorted list adds exactly that key |
| Aggregation.InsertDescending | src/main/java/com/interset/interview/service/SummaryData.java:85 | inserting keeps a list in non-increasing order of count |
| Aggregation.InsertNoDuplicates | src/main/java/com/interset/interview/service/SummaryData.java:85 | inserting a new key keeps the list free of repeats |
| Aggregation.SortByCount | src/main/java/com/interset/interview/service/SummaryData.java:85 | the sort by value, descending, is a permutation of the stream in non-increasing order of count |
| Aggregation.SortNoDuplicates | src/main/java/com/interset/interview/service/SummaryData.java:85 | sorting a repeat-free stream gives a repeat-free list |
| Aggregation.TopFoods | src/main/java/com/interset/interview/service/SummaryData.java:84-87 | at most three entries, no more than there are foods, each a food of the table with its own count |
| Aggregation.TopFoodsLength | src/main/java/com/interset/interview/service/SummaryData.java:84-87 | the foods line has min(3, number of foods) entries |
| Aggregation.TopFoodsEntries | src/main/java/com/interset/interview/service/SummaryData.java:84-87 | each entry is a food of the table with its own count; entries are distinct and their counts non-increasing |
| Aggregation.TopFoodsCutoff | src/main/java/com/interset/interview/service/SummaryData.java:84-87 | no food left off the line has a larger count than the last one printed |
| Aggregation.CountBagRemove | src/main/java/com/interset/interview/service/SummaryData.java:84-85 | the bag of a table's counts does not depend on the order the keys are taken in |
| Aggregation.CountsOfBag | src/main/java/com/interset/interview/service/SummaryData.java:84-85 | the counts of a repeat-free list of foods form the bag of counts of the foods it lists |
| Aggregation.SortKeySet | src/main/java/com/interset/interview/service/SummaryData.java:84-85 | sorting an enumeration of the table lists exactly the table's foods |
| Aggregation.DescendingCounts | src/main/java/com/interset/interview/service/SummaryData.java:85 | the counts along the sorted list never increase |
| Aggregation.HeadIsMax | src/main/java/com/interset/interview/service/SummaryData.java:85 | the first of a non-increasing list of counts is the largest |
| Aggregation.NonIncreasingUnique | src/main/java/com/interset/interview/service/SummaryData.java:85 | a bag of counts has only one non-increasing arrangement |
| Aggregation.SortedCounts | src/main/java/com/interset/interview/service/SummaryData.java:84-85 | sorting any enumeration of the table gives all of the table's counts, largest first |
| Aggregation.TopFoodsCountsAgree | src/main/java/com/interset/interview/service/SummaryData.java:84-87 | whatever order the table is streamed in, the foods line has the same length and the same count at each position |
| Aggregation.Cells | src/main/java/com/interset/interview/service/SummaryData.java:90-101 | one lookup per key, in order, absent keys giving no value |
| Aggregation.MonthCells | src/main/java/com/interset/interview/service/SummaryData.java:90-101 | twelve cells, January first; a cell has a value exactly when the month is in the table, and then it is the month's count |
| Aggregation.SumCellsIsSumOver | src/main/java/com/interset/interview/service/SummaryData.java:90-101 | the printed cells, an absent month read as 0, add up to the lookups at the listed keys |
| Aggregation.MonthNamesNoDuplicates | src/main/java/com/interset/interview/service/SummaryData.java:90-101 | the month line reads twelve different keys |
| Aggregation.MonthCellsSum | src/main/java/com/interset/interview/service/SummaryData.java:90-101 | for a table keyed by month abbreviations, the twelve cells add up to the table's total |
| Aggregation.MonthColumnTotal | src/main/java/com/interset/interview/service/SummaryData.java:90-101 | after a whole pass the twelve printed month counts add up to the number of records |
| Calendar.DaysInMonth | src/main/java/com/interset/interview/service/SummaryData.java:121 | month lengths lie between 28 and 31 days |
| Calendar.DaysBeforeNextMonth | src/main/java/com/interset/interview/service/SummaryData.java:121 | the cumulative month table agrees with the month lengths and with the year length |
| Calendar.YearStartGrows | src/main/java/com/interset/interview/service/SummaryData.java:121 | later years start at least 365 days per year later |
| Calendar.YearStartBounded | src/main/java/com/interset/interview/service/SummaryData.java:121 | later years start at most 366 days per year later |
| Calendar.EpochDayWithinYear | src/main/java/com/interset/interview/service/SummaryData.java:121 | a date's epoch day lies within its own year |
| Calendar.EpochDayInjective | src/main/java/com/interset/interview/service/SummaryData.java:121 | distinct valid dates have distinct epoch days |
| Calendar.FromEpochDay | src/main/java/com/interset/interview/service/SummaryData.java:121 | every epoch day, before or after 1970, has a valid date whose epoch day it is |
| Calendar.FromEpochDayOfDate | src/main/java/com/interset/interview/service/SummaryData.java:121 | the conversion inverts the epoch-day count in the other direction too |
| Calendar.DayBeforeEpoch | src/main/java/com/interset/interview/service/SummaryData.java:121 | epoch day -1 is 1969-12-31 |
| TimeZones.TwoDigits | src/main/java/com/interset/interview/service/SummaryData.java:118-120 | a two-digit field of an offset id is between 0 and 99 |
| TimeZones.Total | src/main/java/com/interset/interview/service/SummaryData.java:118-120 | accepted fields give an offset of at most 18 hours either way |
| TimeZones.ParseOffset | src/main/java/com/interset/interview/service/SummaryData.java:118-120 | an offset id parses to at most 18 hours either way |
| TimeZones.ParseSigned | src/main/java/com/interset/interview/service/SummaryData.java:118-120 | the signed layouts parse to at most 18 hours either way |
| TimeZones.SplitMagnitude | src/main/java/com/interset/interview/service/SummaryData.java:118-120 | an offset magnitude splits into hours, minutes and seconds within their ranges |
| TimeZones.FormatOffset | src/main/java/com/interset/interview/service/SummaryData.java:118-120 | an offset's id is "Z" or a layout of 6 or 9 characters |
| TimeZones.ParseFormatFields | src/main/java/com/interset/interview/service/SummaryData.java:118-120 | the +hh:mm and +hh:mm:ss layouts parse back to their signed total |
| TimeZones.ParseFormatOffset | src/main/java/com/interset/interview/service/SummaryData.java:118-120 | every offset is read back from its own id |
| TimeZones.ZoneOf | src/main/java/com/interset/interview/service/SummaryData.java:118-120 | a fixed zone's offset is within 18 hours; a region keeps its id, which neither is a single character nor starts with a sign |
| TimeZones.EpochSecond | src/main/java/com/interset/interview/service/SummaryData.java:121 | milliseconds become seconds rounded towards minus infinity |
| TimeZones.LocalDate | src/main/java/com/interset/interview/service/SummaryData.java:121 | the local date is the valid date whose day contains the local second |
| TimeZones.OffsetAt | src/main/java/com/interset/interview/service/SummaryData.java:120-121 | no offset when `ZoneId.of` fails; a fixed zone's own offset; a region's offset from the rules at that second |
| TimeZones.BirthMonth | src/main/java/com/interset/interview/service/SummaryData.java:120-125 | a month exists exactly when the zone resolves, and it is the month of the local date |
| TimeZones.MinusOneHourParses | src/main/java/com/interset/interview/service/SummaryData.java:118-120 | "-01:00" is the fixed offset of minus one hour |
| TimeZones.FirstHourAtMinusOneHour | src/main/java/com/interset/interview/service/SummaryData.java:121 | an instant in the first hour after the epoch, an hour west of Greenwich, is on 1969-12-31 |
| TimeZones.FirstHourAtMinusOneHourIsDecember | src/main/java/com/interset/interview/service/SummaryData.java:118-125 | so a birth in that hour in zone "-01:00" counts for December, not January |
| FileUtils.LastIndexOf | src/main/java/com/interset/interview/util/FileUtils.java:47 | -1 exactly when the character is absent; otherwise an index holding it, with no later occurrence |
| FileUtils.LowerChar | src/main/java/com/interset/interview/util/FileUtils.java:49 | a lowered character is not upper-case, and only '.' lowers to '.' |
| FileUtils.ToLower | src/main/java/com/interset/interview/util/FileUtils.java:49 | lowering keeps the length and lowers each character |
| FileUtils.FileExtension | src/main/java/com/interset/interview/util/FileUtils.java:42-51 | null exactly for a missing file; otherwise an extension without '.' and without upper-case letters |
| FileUtils.ExtensionAfterLastDot | src/main/java/com/interset/interview/util/FileUtils.java:47-49 | a name with a non-empty part before its last '.' has the lower-cased part after it as extension |
| FileUtils.ExtensionWithoutInnerDot | src/main/java/com/interset/interview/util/FileUtils.java:47-50 | with no '.' past the first character the extension is empty |
| FileUtils.ExtensionOfTrailingDot | src/main/java/com/interset/interview/util/FileUtils.java:47-49 | a trailing '.' gives the empty extension |
| FileUtils.FileType | src/main/java/com/interset/interview/util/FileUtils.java:57-69 | fails with a null dereference exactly when the extension is null |
| FileUtils.FileTypeCases | src/main/java/com/interset/interview/util/FileUtils.java:59-68 | the case split of `getFileType`, stated once for the name lemmas below: any extension but "gz" is the type; "gz" becomes "csv.gz" or "json.gz" when the name ends so, and stays "gz" otherwise |
| FileUtils.GzName | src/main/java/com/interset/interview/util/FileUtils.java:47-49 | a name ending in ".gz" after a non-empty stem has the extension "gz" |
| FileUtils.CsvGzName | src/main/java/com/interset/interview/util/FileUtils.java:59-63 | every name ending in ".csv.gz" has the type "csv.gz" |
| FileUtils.JsonGzName | src/main/java/com/interset/interview/util/FileUtils.java:59-66 | every name ending in ".json.gz" has the type "json.gz" |
| FileUtils.OtherGzName | src/main/java/com/interset/interview/util/FileUtils.java:59-68 | any other ".gz" archive, such as "archive.tar.gz", has the type "gz" |
| FileUtils.UpperGzName | src/main/java/com/interset/interview/util/FileUtils.java:60-65 | a name ending in ".GZ" has the type "gz", because the compound suffix is matched case-sensitively on the original name ("DATA.CSV.GZ" is not "csv.gz") |
| FileUtils.PlainName | src/main/java/com/interset/interview/util/FileUtils.java:68 | any extension other than "gz" is the type itself, lower-cased |
| FileUtils.NoExtensionExamples | src/main/java/com/interset/interview/util/FileUtils.java:47-50 | "noext" and ".csv" have the empty type |
| FileUtils.DecompressedName | src/main/java/com/interset/interview/util/FileUtils.java:76-77 | fails exactly when the name has no '.'; otherwise a proper prefix of the name, followed in it by a '.' after which no '.' occurs |
| FileUtils.DecompressedNameRoundTrip | src/main/java/com/interset/interview/util/FileUtils.java:76-77 | the decompressed name, '.' and the last extension rebuild the original name |
| FileUtils.DecompressedNameOfSplit | src/main/java/com/interset/interview/util/FileUtils.java:76-77 | prefix + "." + an extension without '.' decompresses to prefix |
| FileUtils.CompoundSuffixStrip | src/main/java/com/interset/interview/util/FileUtils.java:76-77 | a name ending in base + ".gz" decompresses to the name without ".gz", which ends in base |
| FileUtils.CsvGzDecompressesToCsv | src/main/java/com/interset/interview/util/FileUtils.java:76-77 | a file of type "csv.gz" decompresses to a name ending in "csv" |
| FileUtils.JsonGzDecompressesToJson | src/main/java/com/interset/interview/util/FileUtils.java:76-77 | a file of type "json.gz" decompresses to a name ending in "json" |
| Runner.IsSupported | src/main/java/com/interset/interview/Runner.java:40 | the `supportFiles` test accepts exactly "csv", "json", "csv.gz" and "json.gz", the four cases of the switch in `generateReport` |
| Runner.Decide | src/main/java/com/interset/interview/Runner.java:36-51 | the report runs exactly for an existing file whose type is supported, with that type; the "does not exist" exit happens exactly for a missing file; every other file is refused |
| Runner.RunsOnlySupportedTypes | src/main/java/com/interset/interview/Runner.java:40 | an existing file either runs with one of the four types or is refused |
| Runner.PlainFilesRun | src/main/java/com/interset/interview/Runner.java:37-45 | csv and json files run, whatever the case of their extension |
| Runner.CompressedFilesRun | src/main/java/com/interset/interview/Runner.java:37-45 | names ending in ".csv.gz" or ".json.gz" run with the compound type |
| Runner.GzAndEmptyUnsupported | src/main/java/com/interset/interview/Runner.java:11 | neither "gz" nor the empty type is supported |
| Runner.OtherArchivesRefused | src/main/java/com/interset/interview/Runner.java:37-43 | other gzip archives, and any ".GZ" name, are refused |
| Runner.NoExtensionRefused | src/main/java/com/interset/interview/Runner.java:37-43 | names without an extension, or with only a leading '.', are refused |
| Runner.MissingFileStops | src/main/java/com/interset/interview/Runner.java:48-51 | a file that is not there ends the run with the "does not exist" message |
| Scenarios.UtcIsGreenwich | src/main/java/com/interset/interview/service/SummaryData.java:120 | "UTC" is the zero offset |
| Scenarios.UtcMonth | src/main/java/com/interset/interview/service/SummaryData.java:120-125 | a record born in "UTC" has the month of the day its instant falls on |
| Scenarios.FirstRowMonth | src/main/java/com/interset/interview/service/SummaryData.java:120-125 | timestamp 0 in "UTC" is January |
| Scenarios.SecondRowMonth | src/main/java/com/interset/interview/service/SummaryData.java:120-125 | timestamp 2678400000 (1970-02-01) in "UTC" is February |
| Scenarios.ThirdRowMonth | src/main/java/com/interset/interview/service/SummaryData.java:120-125 | timestamp 5000000000 (1970-02-27) in "UTC" is February |
| Scenarios.ShapedFirst | src/main/java/com/interset/interview/service/SummaryData.java:161-165 | the totals after the first record |
| Scenarios.ShapedSecond | src/main/java/com/interset/interview/service/SummaryData.java:161-165 | the totals after the second record |
| Scenarios.ShapedThird | src/main/java/com/interset/interview/service/SummaryData.java:161-165 | the totals after the third record |
| Scenarios.ShapedResolve | src/main/java/com/interset/interview/service/SummaryData.java:161-165 | three records whose months are all known all resolve |
| Scenarios.ShapedTotals | src/main/java/com/interset/interview/service/SummaryData.java:161-166 | three such records give 3 records, 6 siblings, Pizza 2, Tacos 1, Jan 1, Feb 2 |
| Scenarios.RowsShaped | src/main/java/com/interset/interview/service/SummaryData.java:120-125 | the three example records resolve to January, February and February whatever the region rules |
| Scenarios.ScenarioFigures | src/main/java/com/interset/interview/service/SummaryData.java:80-87 | average 2, and Pizza (2) before Tacos (1) in every iteration order |
| Scenarios.ScenarioCells | src/main/java/com/interset/interview/service/SummaryData.java:90-101 | the month line holds 1 for January, 2 for February and nothing for the other months |
| Scenarios.ScenarioRun | src/main/java/com/interset/interview/service/SummaryData.java:58-102 | the whole report on such a CSV file: average 2, Pizza (2), Tacos (1), January 1, February 2, the rest absent |

## Left out

- Reading the file is not modelled: CSV parsing, Jackson and Gson parsing, and gzip decompression to a temporary file. The records a parser yields are the parameter `rows`, already typed as `Aggregation.Person`. Read errors, the temporary directory and the deletion of the temporary file are not modelled.
- `Integer.parseInt` and `Long.parseLong` are not modelled. Siblings and timestamps are integers from the start, so the `NumberFormatException` of a malformed field is not modelled either.
- A null field of a record is not modelled. For example, a missing `birth_timezone` makes `ZoneId.of` throw a `NullPointerException`. Every field of the model is present; only the names are optional.
- Printing is not modelled. The report is returned as a value. A month never seen is absent from the table, so the source prints `null` for it, not 0. The model keeps that absence as `None` in the month line.
- The tz database is the parameter `rules`: a named region's offset at an epoch second, or none for an unknown id. Daylight-saving history and the validation of region ids are therefore not modelled.
- The "MMM" pattern is modelled with the English abbreviations Jan to Dec. Other default locales are not modelled.
- Service.SummaryData.constructor: in Java the two tables are null until `reset`. The model starts them empty, since every path reads them only after `reset`.
- Service.SummaryData.Accept: `numOfSiblings`, `records` and the table counts are unbounded integers. The 32-bit wrap-around of Java `int` on overflow is not modelled.
- Aggregation.AverageSiblings: the rounding is stated on the exact rational quotient. The rounding of the `double` quotient itself, which can differ for sums beyond 2^53, is not modelled.
- FileUtils.ToLower: only the ASCII letters A to Z are lowered. Locale-dependent lowering of other characters by `String.toLowerCase` is not modelled.
- The food table's iteration order is not modelled. `HashMap` fixes it from hashes and capacity. `Service.SummaryData.IterationOrder` only promises that every food appears once. The entry stream of a `HashMap` is unordered, so `sorted` does not promise stability, and foods with equal counts may come out in any order. `Aggregation.SortByCount` keeps the order of the enumeration it is given, and the enumeration is left open.
- `FileUtils.getFileSize` and the command line's argument count are not modelled, and `System.exit` is reduced to the `Runner.Launch` outcome.
- The calendar conversion is not java.time's closed-form algorithm. `Calendar.FromEpochDay` searches year and month, and it is proved to be the inverse of the day count it is compared with.
- `processJsonUsingGson` is not called by the source; `processJSONFile` uses Jackson. It is still modelled, as `Service.SummaryData.ProcessRowsStreaming`.
- Service.ReportTwice: the two foods lines are proved equal in length and in the count at each position, not entry for entry. The model leaves each run's enumeration of the food table open (`Service.SummaryData.IterationOrder`), so it cannot tie the order of foods with equal counts across runs. In Java both runs rebuild the same `HashMap` by the same puts and print identical lines.
