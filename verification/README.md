# Telemetry logs: a verified model

The telemetry repository moves log records from edge clusters into ClickHouse and lets people read them
back. This project models six parts of it in Dafny and proves what they promise each other:

1. **Reading a window** (`cli/logs`): `Pages` walks a time window page by page against an API that may cut
   window bounds down to whole seconds; `Tail` and `All` are built on it.
2. **Following** (`cli/logs`): a `Follower` polls with an overlap, remembers what it printed, and forgets it
   again; the logs command first prints a backlog and seeds the follower with it.
3. **Selectors** (`cli/logql`, `queryapi/internal/logql`): what the CLI builds and prints, the server parses.
   Three quotings lie on top of each other: regexp escaping, string quoting, and the brace scan. The parser is
   characterised by a grammar of all spellings.
4. **Answering a query** (`queryapi`): a parsed selector is compiled to parameterised SQL, rows come back
   with their labels, are grouped into streams, and are merged again by the client.
5. **Leaf keys** (`nkey-generator`): one NKey per cluster, stored once, published in a ConfigMap that must
   not lose a key by accident, with permissions that keep clusters apart.
6. **Unbatching and the fake store**: one record per output batch, routed by its own resource; and the
   tick iterator that stands in for the database.

Text is bytes: a Go string is a `seq` of characters below 256. Times are unbounded integers of nanoseconds,
except where the program clamps or parses them. What a component does not control (the server's answers at
each call, the clock, API failures, generated keys, the regexp engine, which code points print) is a
parameter, and every result is for all values of it. `rounds` and `polls` say how long a run is observed; the
results hold for each length.

Where the program mutates state the model does too: `Pages`, the scanners, the printers, the query builders,
the splitters are loops, and `Follower`, `Builder`, `Generator` and the tick `Iterator` are classes. Most are
proved equal to a function, and the lemmas are about the function.

## What does not hold

These promises fail for some input. Each has a lemma with such an input, and a lemma giving a condition
under which the promise holds: the exact one, unless "Left out" says otherwise.

- `Entry.Key` is not unique: a label value holding the byte 0x01 can imitate another label
  (`Entries.KeyCollides`, `Entries.KeyInjectiveOnPlainLabels`). Every entry with two or more labels shares its
  key with another (`Entries.TwoLabelsCollide`), so no condition on one entry alone would do.
- `Tail` promises the newest n lines. Up to a page it has them (`Fetch.TailIsNewest`); beyond a page a second
  that overflows crowds lines out (`Fetch.TailFallsShort`, and `Fetch.TailOnStore` for exactly when).
- A walk does not always keep to a fractional bound. The comment on `Pages` says the API truncates bounds to
  whole seconds; this repository's server binds them as exact nanoseconds, and the CLI sends fractional ones.
  From such a server a walk can emit lines from outside its window (`Fetch.FractionalStartStrays`). It does
  not exactly when the bound shuts out no line of its own second, or that second cannot fill a page
  (`Fetch.NeverStraysIff`); then `Pages` emits what it should (`PagingExact.PagesOnStore`).
- The comment in `Run` says that skipping the overlap avoids refetching one page forever. It does not when
  one second fills the page, or one instant if the server's bounds are exact (`CatchUp.FullSecondStalls`,
  `CatchUp.FullInstantStalls`). Every line is eventually printed exactly when no such page comes before one
  that is still to come (`CatchUp.FollowCatchesUpIff`).
- `OneOf` and `NoneOf` with several values are refused by the server when some value is not UTF-8
  (`Alternation.NotUtf8IsRefused`, `Alternation.OneOfAccepts`).
- The comment on `closingBrace` says that braces inside quoted values are ignored. Inside backquotes and single
  quotes, which the parser also takes, they are not (`RawStrings.RawBraceRefused`, and
  `RawStrings.AcceptedIffBalanced` for exactly which spellings are turned away).
- The CLI's hint about empty labels reads labels out of backquoted strings (`Hints.BackquoteMisleads`) and
  misses a label before white space its pattern does not know (`Hints.VerticalTabHides`). With double-quoted
  strings only, it names exactly the labels whose operator follows white space the pattern knows
  (`Hints.RequiredLabelsExact`).
- With an empty backlog that took long to fetch, the follower begins later than the backlog's window ended, and
  misses lines in between unless a newer one brings them into its overlap (`LogsCommand.LateStartMisses`;
  otherwise nothing is lost, `LogsCommand.WholeLogsThenFollow`).
- Clamping times loses a row stored at the last representable instant (`QueryBuild.ClampLosesLastInstant`,
  `QueryBuild.ClampAgreesIff`).
- A returned row can carry a label value its matcher did not see (`RowLabels.RowLabelsDiffer`,
  `RowLabels.RowLabelsAgreeIff`).
- A failed read of the ConfigMap counts as an empty one, and lets a run drop published keys
  (`NkeyRuns.FailedReadDropsAll`; `NkeyRuns.KeepsGuardedByCalls` says exactly when a run drops a key whose
  cluster has its Secret).
- When another writer creates a cluster's Secret first, the run publishes a key that is stored nowhere
  (`NkeyRuns.LostRacePublishesUnstored`, `NkeyRuns.EnsureKeyReturnsStoredIff`).
- Deleting the Secret of a cluster that is still listed does not rotate its key: all later runs are refused
  (`NkeyRuns.RotationNeverCompletes`, `NkeyRuns.CalmSyncWritesIff`). The comment on `clusterFromUser` says its
  result is only displayed; it also decides which Secret is looked up.
- A batch of one record behind an empty resource group is published to that group's subject
  (`Unbatch.LoneBehindEmptyGroupStrays`, `Unbatch.RoutesOwnIff`).
- Splitting a metric drops its metadata map, although a lone point keeps it
  (`UnbatchMetrics.MetadataIsLost`, `UnbatchMetrics.MetadataSurvivesIff`).
- The fake store's window ends one tick late for some windows that end at or before the epoch
  (`Ticks.BeforeEpochExample`, `Ticks.CoversWindowIff`).

The comment above `buildSeriesQuery` says the grouping keys are bound ahead of the WHERE arguments. The code
binds them after; the model follows the code, and `QueryBuild.ReadSeriesQuery` shows that order to be right.

## Model

| member | source | states |
|---|---|---|
| Entries.KeyFixesTime | cli/logs/client.go:62-69 | equal keys mean equal times, for any bytes in labels and line |
| Entries.KeyInjectiveOnPlainLabels | cli/logs/client.go:62-69 | two entries whose labels avoid the separator bytes have equal keys exactly when they are equal |
| Entries.KeyCollides | cli/logs/client.go:353-359 | two different entries share a key |
| Entries.TwoLabelsCollide | cli/logs/client.go:353-359 | every entry with two or more labels shares its key with one that has a single label |
| Decimal.IntRoundTrip | cli/logs/client.go:62-69 | a printed time reads back as itself, or not at all beyond 64 bits |
| Entries.SortIsOrderedPermutation | cli/logs/client.go:199-208 | the sort yields a permutation ordered in the asked direction |
| Entries.SortFilter | cli/logs/client.go:199-208 | the sort is stable: selecting any subset commutes with it |
| Entries.SortOfOrdered | cli/logs/client.go:199-208 | an ordered sequence is left as it is, ties included |
| Streams.AtTimeSorted | cli/logs/client.go:199-208 | lines sharing a timestamp keep their order through the sort |
| Paging.WalkNeverRepeats | cli/logs/fetch.go:29-73 | against any server that answers inside its window, in order and without repeats, even one whose data changes between calls, no key reaches the callback twice, in either direction |
| PagingExact.WalkOnStore | cli/logs/fetch.go:29-73 | from any position on an unchanging store the walk ends and emits the kept lines that remain, or the prefix after which the callback stopped it |
| PagingExact.PagesOnStore | cli/logs/fetch.go:19-74 | on an unchanging store, exact or truncating, in either direction, Pages ends and emits exactly the expected lines in query order, wherever its bound is kept to |
| PagingExact.WholeIsHonoured | cli/logs/fetch.go:15-18 | which it always is when it falls on a whole second or the server truncates it to one |
| PagingExact.SecondShare | cli/logs/fetch.go:11-18 | of every second the expected lines are its first `limit` lines |
| PagingExact.WholeWindowIff | cli/logs/fetch.go:15-18 | the whole window is emitted exactly when no second holds more than a page |
| PagingExact.ExpectedInOrder | cli/logs/fetch.go:11-13 | what is emitted keeps the window's order and comes from the window |
| PagingExact.StoreIsHonest | cli/logs/fetch.go:15-18 | an unchanging store, truncating or not, is such a server |
| Fetch.FreshLines | cli/logs/fetch.go:35-40 | the loop keeps exactly the lines outside the edge second or not yet seen in it |
| Fetch.Remember | cli/logs/fetch.go:63-67 | the loop adds exactly the keys of the edge second |
| Fetch.Pages | cli/logs/fetch.go:19-74 | the loop over bounds, edge and seen keys is the walk, errors and early stops included |
| Fetch.ReverseInPlace | cli/logs/fetch.go:92 | the array ends up reversed, in place |
| Fetch.Tail | cli/logs/fetch.go:78-94 | nothing for n <= 0, nothing on an error, otherwise the first n lines of the backward walk reversed |
| Fetch.All | cli/logs/fetch.go:97-105 | every line of the forward walk, in order |
| Fetch.TailIsNewest | cli/logs/fetch.go:76-94 | for n up to a page one request brings the newest n lines of the window, whatever its bounds, its lines and the server |
| Fetch.TailOnStore | cli/logs/fetch.go:76-94 | for every n, Tail has the first n expected lines, and these are the newest n exactly when each of those is among the first page of its second |
| Fetch.TailFallsShort | cli/logs/fetch.go:76-94 | one line more than a page in one second, asked for, is not returned |
| Fetch.AllIsWholeIff | cli/logs/fetch.go:96-105 | wherever its start is kept to, All emits the first page of every second, so the whole window exactly when none overflows |
| Fetch.WalkStaysInWindow | cli/logs/fetch.go:19-74 | nothing is emitted from outside the window once the bound the walk moves is widened to its whole second |
| Fetch.NeverStraysIff | cli/logs/fetch.go:48-72 | in either direction and from either kind of server, a walk that is not stopped emits nothing from outside its window, over any number of rounds, exactly when its moving bound shuts out no line of its own second or that second cannot fill a page |
| Fetch.FractionalStartStrays | cli/logs/fetch.go:68-72 | with exact bounds and a fractional start a line from before the start is emitted |
| Arrangements.ArrangesIsHonest | cli/logs/fetch.go:26-72 | answers that differ only in the order of lines of one instant are ones for which no key is emitted twice, whatever the callback |
| Arrangements.PagesArranged | cli/logs/fetch.go:19-74 | against answers that order the lines of one instant differently each time, Pages ends and emits every line of the window once and no other, where its bound is kept to and no second exceeds a page |
| Arrangements.EmitsWindowIff | cli/logs/fetch.go:15-18 | where its bound is kept to, Pages emits the whole window whatever that order, exactly when no second exceeds a page |
| Follow.Follower.AdmitEntries | cli/logs/follow.go:125-151 | lines let through, cursor, floor and seen keys after admit |
| Follow.Follower.PruneSeen | cli/logs/follow.go:144-149 | exactly the keys older than the cutoff are deleted, in any iteration order |
| Follow.Follower.Backlog | cli/logs/follow.go:48-51 | the backlog is admitted and the floor raised to the cursor |
| Follow.Follower.Run | cli/logs/follow.go:56-122 | any number of polls, starting ten seconds before it began, with failures, permanent errors and the skipped overlap, is the run the lemmas speak of |
| FollowRuns.FollowNeverRepeats | cli/logs/follow.go:29-151 | no key is printed twice over any run of polls and failures, whatever the store does: a key is forgotten only when no later poll can return it |
| FollowRuns.FollowGrows | cli/logs/follow.go:40-51 | what was printed stays printed and nothing below the floor comes out |
| FollowRuns.VisibleIsPrintedOnce | cli/logs/follow.go:53-122 | at a poll that was answered with less than 5000 lines, every visible line from ten seconds before the newest printed one (from that one itself after a full page without news, from the start before any was printed) to a minute past the clock has been printed exactly once, unless it is below the floor |
| FollowRuns.OnlyReachedIsPrinted | cli/logs/follow.go:53-122 | and a poll prints no other line: not one out of that reach, below the floor, or printed before |
| FollowRuns.AfterPoll | cli/logs/follow.go:84-151 | afterwards the cursor is the newest time printed, exactly the keys of the eleven seconds before it are held, and the overlap is skipped next exactly after a full page without news; a failed poll changes nothing |
| CatchUp.SkipPollProgress | cli/logs/follow.go:109-112 | with the overlap skipped, a poll brings something new unless all it brings lies in the cursor's second, or its instant if bounds are exact |
| CatchUp.FollowCatchesUp | cli/logs/follow.go:53-122 | on a store that stopped changing, a bounded number of polls prints every line still to come, each once, if none is blocked by a page that fills one second (one instant if bounds are exact) |
| CatchUp.BlockedNeverPrinted | cli/logs/follow.go:109-117 | nothing after such a page is printed, from any state that has not passed it, however long it polls |
| CatchUp.FollowCatchesUpIff | cli/logs/follow.go:53-122 | so every line is eventually printed exactly when none still to come is blocked |
| CatchUp.RoomySecondsBlockNothing | cli/logs/follow.go:109-112 | nothing is blocked where no second holds a full page |
| CatchUp.StalledForever | cli/logs/follow.go:109-117 | a stalled follower prints nothing more, however long it polls |
| CatchUp.FullSecondStalls | cli/logs/follow.go:110-112 | one line more than a page in one second is never printed, on a server that truncates |
| CatchUp.FullInstantStalls | cli/logs/follow.go:110-112 | nor are all lines of one instant that holds more than a page, on any server |
| LogsCommand.BacklogThenFollow | cli/internal/command/logs.go:116-139 | after a backlog that seeded it line by line, the follower repeats none of it and prints nothing older than any of it |
| LogsCommand.FetchBacklog | cli/internal/command/logs.go:126-136 | Tail for a limit, All for -1, with distinct keys in either case |
| LogsCommand.RunLogs | cli/internal/command/logs.go:116-139 | the whole command: backlog and follow together print no key twice, nothing followed is older than a backlog line, and nothing is followed after an error |
| LogsCommand.BacklogThenFollowIff | cli/internal/command/logs.go:116-139 | on a store that stopped changing, backlog and follower together print every line not older than the backlog's newest exactly when none still to come is blocked |
| LogsCommand.WholeLogsThenFollow | cli/internal/command/logs.go:116-139 | without a limit, and where neither half loses lines, they print every line from the window's start on, each once |
| LogsCommand.LateStartMisses | cli/logs/follow.go:61-78 | after an empty backlog, a store whose lines all come before the start of polling is never printed |
| Quoting.ScanQuote | queryapi/internal/logql/parser.go:189-199 | the server's string scan undoes the CLI's quoting on every byte string, valid UTF-8 or not, and stops right after it |
| Quoting.LiteralLocal | queryapi/internal/logql/parser.go:189-199 | whatever the scan takes for a string is one whatever follows it, and begins and ends with the same quote |
| Quoting.RawIsLiteral | queryapi/internal/logql/parser.go:189-199 | a backquoted string stands for its bytes without carriage returns |
| Quoting.OctalIsLiteral | queryapi/internal/logql/parser.go:189-199 | three octal digits after a backslash stand for that byte |
| Quoting.SingleIsLiteral | queryapi/internal/logql/parser.go:189-199 | a single-quoted string holds one character |
| Quoting.QuotePlain | cli/logql/logql.go:124-135 | printable ASCII without quotes and backslashes is quoted as it stands |
| Grammar.ParsesIff | queryapi/internal/logql/parser.go:22-199 | a text parses to a selector exactly when it is one of its spellings: white space of any kind around braces, labels, operators, values and commas, a comma after the last matcher allowed, any literals of the values, no brace outside double quotes before the closing one; a matcher, and regexps that compile |
| Grammar.ParseWritten | queryapi/internal/logql/parser.go:22-140 | and a spelling without a matcher, or with a regexp that does not compile, is refused with that error |
| Grammar.ParseSpaced | queryapi/internal/logql/parser.go:22-140 | the same for every spelling with double-quoted strings, with no condition on braces |
| Grammar.OperatorReads | queryapi/internal/logql/parser.go:171-178 | the four operators of a matcher, by the characters they are written with |
| Grammar.FilterOperatorReads | queryapi/internal/logql/parser.go:180-187 | the four operators of a line filter, after any spelled selector |
| Grammar.IdentIff | queryapi/internal/logql/parser.go:158-169 | labels are ASCII letters, digits and underscores, not beginning with a digit |
| Grammar.StageRefused | queryapi/internal/logql/parser.go:142-156 | after any spelled selector, the pipeline stages the subset leaves out are refused by name |
| Grammar.RangeRefused | queryapi/internal/logql/parser.go:142-145 | and so is a range vector |
| RawStrings.AcceptedIffBalanced | queryapi/internal/logql/parser.go:52-71 | a spelling with any quotes is accepted exactly when, counting double quotes alone, no brace comes before the closing one and no string is open there |
| RawStrings.RawBraceRefused | queryapi/internal/logql/parser.go:52-71 | a backquoted value with a closing brace in it is refused |
| Logql.FindClosingBrace | queryapi/internal/logql/parser.go:54-71 | the byte loop returns the brace outside strings, or which error |
| Logql.ScanIdentifier | queryapi/internal/logql/parser.go:158-169 | the longest identifier and what follows it |
| Logql.ReadMatchers | queryapi/internal/logql/parser.go:73-111 | the loop over label, operator, value and comma parses as the function that `Grammar.ParsesIff` characterises, with every error |
| Logql.ReadFilters | queryapi/internal/logql/parser.go:113-140 | the loop over line filters, with unsupported stages refused |
| Logql.ParseQuery | queryapi/internal/logql/parser.go:22-50 | the whole parser accepts and refuses as that function does |
| Logql.ContainsIff | queryapi/internal/logql/ast.go:64-70 | a text filter takes exactly the lines its text stands in, and its negation the others |
| Printing.JoinParts | cli/logql/logql.go:124-130 | the joined parts are the printed matchers |
| Printing.String | cli/logql/logql.go:124-135 | the printer's loops produce the selector's text |
| Printing.RenderTwo | cli/logql/logql.go:124-135 | two matchers and a filter, character by character |
| RoundTrip.ParseRender | cli/logql/logql.go:124-135 | parsing a printed selector returns its matchers and filters in order exactly when it has a matcher and all regexps compile; otherwise the error names which failed |
| RoundTrip.ParsePrintParse | queryapi/internal/logql/parser.go:22-50 | whatever the server accepted can be printed and parsed again unchanged |
| Alternation.DedupeMeaning | cli/logql/logql.go:151-160 | the trimmed non-blank values, each once |
| Alternation.DedupeValues | cli/logql/logql.go:151-160 | the loop computes that list in first-seen order |
| Alternation.AlternationText | cli/logql/logql.go:143-149 | the escaped values joined by bars |
| Alternation.Builder.OneOf | cli/logql/logql.go:75-84 | no matcher for no value, equality for one, an alternation otherwise |
| Alternation.Builder.NoneOf | cli/logql/logql.go:87-96 | the negated forms of the same |
| Alternation.WordsOfAlternated | cli/logql/logql.go:142-149 | the words of an alternation are the values, metacharacters included |
| Alternation.AlternatedValid | cli/logql/logql.go:142-149 | an alternation is UTF-8 exactly when all its values are |
| Alternation.OneOfAccepts | cli/logql/logql.go:75-84 | printed, parsed and matched, a OneOf accepts exactly the named values; the server takes it exactly when there is one value or all are UTF-8 |
| Alternation.NoneOfAccepts | cli/logql/logql.go:87-96 | and a NoneOf exactly the others |
| Alternation.NotUtf8IsRefused | cli/logql/logql.go:75-84 | a OneOf of two values, one holding the byte 0xFF, is refused as a bad regexp |
| Alternation.LineRegexpSearches | queryapi/internal/logql/parser.go:126-135 | a line filter's alternation accepts exactly the lines holding one of its words anywhere, and its negation the others |
| Hints.ScanUnquoted | cli/internal/command/logs.go:322-345 | the byte loop blanks quoted strings up to the closing brace |
| Hints.SameBrace | cli/internal/command/logs.go:322-345 | it stops at the brace the server's parser finds |
| Hints.SelectorIsBody | cli/internal/command/logs.go:322-345 | on a whole query it reads exactly the body the server reads |
| Hints.FindRequiredLabels | cli/internal/command/logs.go:310-318 | the loop over pattern matches computes the required labels |
| Hints.RequiredLabelsExact | cli/internal/command/logs.go:303-345 | for every accepted query whose strings are double-quoted, the hint is the labels of those positive matchers whose operator follows white space the pattern knows |
| Hints.RequiredLabelsAgree | cli/internal/command/logs.go:303-345 | which are all the parsed positive matchers' labels, if the selector outside strings is ASCII without vertical tabs |
| Hints.FirstsInOrder | cli/internal/command/logs.go:307-318 | labels are kept in the order in which they are first matched positively, none twice |
| Hints.FirstsMeaning | cli/internal/command/logs.go:307-318 | the labels kept are exactly the positively matched ones |
| Hints.BackquoteMisleads | cli/internal/command/logs.go:320-345 | a backquoted value makes the hint differ from the parse |
| Hints.VerticalTabHides | cli/internal/command/logs.go:303-318 | a vertical tab between label and operator, which the server skips, makes the hint miss the label |
| QueryBuild.ClampAgreesIff | queryapi/internal/storage/clickhouse/query.go:47-55 | clamped bounds select the same rows except the one at the last instant when the window reaches past it |
| QueryBuild.ClampLosesLastInstant | queryapi/internal/storage/clickhouse/query.go:47-55 | that row and such a window |
| QueryBuild.LabelsRead | queryapi/internal/storage/clickhouse/query.go:136-147 | three labels read their own columns, every other one the attribute of its name |
| QueryBuild.BuildLogsQuery | queryapi/internal/storage/clickhouse/query.go:62-88 | the loops build the statement, or refuse a limit that is not positive |
| QueryBuild.ReadLogsQuery | queryapi/internal/storage/clickhouse/query.go:24-147 | reading the statement back, each hole taking its own argument, gives the selected values in order, the intended conditions, the order and the limit |
| QueryBuild.CompiledSelectsAsked | queryapi/internal/storage/clickhouse/query.go:34-147 | a row satisfies the compiled conditions exactly when it is of the project, in the window, and satisfies every matcher and filter as the parser defines them |
| QueryBuild.LogsQueryMeans | queryapi/internal/storage/clickhouse/query.go:62-88 | the statement's possible results are exactly the first `limit` asked-for rows in time order |
| QueryBuild.BuildSeriesQuery | queryapi/internal/storage/clickhouse/query.go:209-239 | the loops build the series statement |
| QueryBuild.ReadSeriesQuery | queryapi/internal/storage/clickhouse/query.go:209-254 | its arguments fall into the SELECT, WHERE and GROUP BY holes meant for them |
| QueryBuild.SeriesQueryMeans | queryapi/internal/storage/clickhouse/query.go:194-239 | it yields exactly the service, severity and resource name of the asked-for rows, each combination once, selected as grouped |
| QueryBuild.LogsQueryMatched | queryapi/internal/storage/clickhouse/query.go:62-88 | it has as many holes as arguments |
| QueryBuild.SeriesQueryMatched | queryapi/internal/storage/clickhouse/query.go:209-239 | so does the series statement |
| RowLabels.AssembleLabels | queryapi/internal/storage/clickhouse/iterator.go:89-115 | the loop over parallel arrays keeps promoted columns, first entries and non-empty values |
| RowLabels.ScanRow | queryapi/internal/storage/clickhouse/iterator.go:21-49 | taking by position what the statement selects of a stored row gives that row's time, labels and line; values of other kinds are an error |
| RowLabels.InternalNeverShown | queryapi/internal/storage/clickhouse/iterator.go:57-62 | the attribute the schema keeps for itself is on no returned row |
| RowLabels.RowLabelsAgreeIff | queryapi/internal/storage/clickhouse/iterator.go:89-115 | a row's label is the value its matcher read exactly unless it is internal and set, its column is empty while an attribute is not, or its first entry is empty while a later one is not |
| RowLabels.RowLabelsDiffer | queryapi/internal/storage/clickhouse/iterator.go:89-115 | a row on which they differ |
| RowLabels.AnsweredRowsMatch | queryapi/internal/storage/clickhouse/iterator.go:76-115 | the labels shown on an answered row satisfy the matchers off those cases |
| LabelKey.Key | queryapi/internal/storage/storage.go:66-73 | pairs collected in any map order, sorted and joined, give one key |
| LabelKey.DecodeKey | queryapi/internal/storage/storage.go:63-73 | a key decodes to exactly its label set's pairs |
| LabelKey.KeyInjective | queryapi/internal/storage/storage.go:63-73 | label sets have equal keys exactly when they are equal, for any bytes |
| Streams.CollectStreams | queryapi/loki.go:32-53 | the loop with its index by key groups rows by label set in order of first appearance |
| Streams.CollectConserves | queryapi/loki.go:30-53 | grouping keeps every row once and each stream in order |
| Streams.MergeStreams | cli/logs/client.go:170-182 | the client's loops decode, flatten and sort the streams |
| Streams.DeliveredConserves | cli/logs/client.go:144-183 | grouping then merging is a time-ordered permutation that keeps each stream's order |
| Streams.DeliveredIsOriginalIff | cli/logs/client.go:144-183 | the client has exactly the server's rows in their order exactly when rows sharing a time stand in the order in which their streams first appear |
| Streams.DeliveredIsOriginal | cli/logs/client.go:144-183 | in particular when no two streams share a time |
| Serving.SelectorToRows | queryapi/internal/storage/clickhouse/query.go:62-88 | a selector printed by the CLI, parsed and compiled by the server, is answered with exactly the rows the CLI's selector describes, and with their values in the order they are scanned |
| Serving.ReceivedIsPage | cli/logs/client.go:144-183 | whatever the database answers, the page received is one that walking and following are proved for |
| Serving.ReceivedIsArranged | cli/logs/client.go:144-183 | rows sharing a time included, the whole read path answers with the window of an unchanging exact store in some order by time, cut at the limit |
| Serving.ReceivedIsStorePage | cli/logs/client.go:144-183 | when no two asked-for rows share a time, the whole read path answers as an unchanging exact store does |
| Nkeys.ClusterReadsBack | nkey-generator/main.go:394-421 | the cluster read back from a user block is the one it was built for, for any name |
| Nkeys.Generator.EnsurePushSecret | nkey-generator/main.go:301-339 | reading then writing, with either call failing |
| Nkeys.Generator.Ensure | nkey-generator/main.go:241-296 | the stored key, or a generated one, under every failure and an earlier writer |
| Nkeys.Generator.DroppedNkeys | nkey-generator/main.go:365-388 | the loop over previous users with its Secret lookups |
| Nkeys.Generator.Write | nkey-generator/main.go:459-512 | the guard, then the read and the write |
| Nkeys.Generator.Run | nkey-generator/main.go:152-181 | the whole run over the listed clusters |
| NkeyRuns.EnsureKeyReturnsStoredIff | nkey-generator/main.go:239-296 | a returned key is the one in the cluster's Secret, under the first name or else the second, or a new one; it is the stored one exactly when no other writer stored a different one first; nothing stored changes |
| NkeyRuns.DroppedIsLost | nkey-generator/main.go:357-388 | the guard reports exactly the clusters of missing keys whose Secret exists, and fails only when a call does |
| NkeyRuns.WriteIsGuarded | nkey-generator/main.go:453-512 | the ConfigMap changes exactly on success, and then every previous key is kept or its cluster has no Secret |
| NkeyRuns.SyncKeepsSecrets | nkey-generator/main.go:149-181 | no run changes a stored Secret; a failed run leaves the ConfigMap; the refusal of an empty list is unreachable |
| NkeyRuns.SyncPublishesStored | nkey-generator/main.go:149-181 | a successful run publishes the fixed users and, in order, every valid listed cluster's stored key |
| NkeyRuns.SyncMakesPairs | nkey-generator/main.go:262-285 | without other writers, a run adds only Secrets of valid listed clusters, each holding the seed and, twice, the public key of one pair it generated |
| NkeyRuns.SyncReportsFailures | nkey-generator/main.go:149-181 | a run that succeeds made no call that failed, unless it was the one reading the ConfigMap |
| NkeyRuns.SyncKeepsKeys | nkey-generator/main.go:453-467 | a published key leaves only in a run that failed to read the ConfigMap or found no Secret for its cluster |
| NkeyRuns.CalmSyncWritesIff | nkey-generator/main.go:149-181 | a run without failures writes exactly when listed Secrets have keys and every published key is a listed cluster's stored key or belongs to an unlisted cluster without Secret |
| NkeyRuns.SyncAgainIsStable | nkey-generator/main.go:149-181 | repeating a successful run changes neither keys nor users |
| NkeyRuns.RotationIsRefused | nkey-generator/main.go:459-467 | after the Secret of a listed cluster is deleted the next run makes a new key and is refused |
| NkeyRuns.RotationNeverCompletes | nkey-generator/main.go:459-467 | and so is every later run on that listing |
| NkeyRuns.PublishedAfterIff | nkey-generator/main.go:149-181 | after a successful run, its read of the ConfigMap failed or not, a key is published exactly when it is a valid listed cluster's stored key |
| NkeyRuns.PublishedSurvivesIff | nkey-generator/main.go:453-512 | a published key survives a run exactly when the run fails or the key is, beforehand, a listed cluster's stored key |
| NkeyRuns.KeepsGuardedIff | nkey-generator/main.go:453-467 | a run drops no key whose cluster has its Secret exactly when it read the ConfigMap, or failed, or no published key is both unlisted and of a cluster with a Secret |
| NkeyRuns.KeepsGuardedByCalls | nkey-generator/main.go:453-512 | the same in terms of the run's calls: it stops before the ConfigMap, or reads it, or a later call fails, or no such key is at risk |
| NkeyRuns.MisreadIsUnguarded | nkey-generator/main.go:426-467 | a run whose read failed writes exactly when its next two calls succeed |
| NkeyRuns.FailedReadDropsAll | nkey-generator/main.go:423-431 | a failed read and an empty listing publish the fixed users alone |
| NkeyRuns.LostRacePublishesUnstored | nkey-generator/main.go:286-295 | a create that meets another writer's Secret publishes a key that is not stored |
| NkeyRuns.SeedsNeverChange | nkey-generator/main.go:239-240 | over any history of runs, failures and deletions elsewhere, a stored Secret stays as it is |
| NkeyRuns.EverySecretIsAPair | nkey-generator/main.go:262-285 | after any such history every Secret is one from the start, unchanged, or holds the seed and public key of one generated pair |
| NkeyRuns.ClustersNeverShareKeys | nkey-generator/main.go:239-296 | if generated pairs differ, no two clusters ever come to hold the same key |
| NkeyRuns.PublishedStaysPublished | nkey-generator/main.go:453-467 | over any such history, a key published for a cluster stays published until that cluster's Secret is deleted |
| NkeyScope.ValidNameIff | nkey-generator/main.go:45-52 | a cluster name is a DNS label: lower-case letters, digits and inner dashes, at most 63 |
| NkeyScope.LeafPublishesOwnIff | nkey-generator/main.go:341-355 | by NATS subject matching, a cluster's user may publish exactly the logs, metrics and traces subjects of that cluster with one more token |
| NkeyScope.LeafSubscribesInboxIff | nkey-generator/main.go:341-355 | and subscribe to reply inboxes alone |
| NkeyScope.KeyOpensOwnCluster | nkey-generator/main.go:149-181 | after a successful run, a published key opens the subjects of one listed cluster, whose Secret holds it, and nothing else |
| NkeyScope.SubjectHasOneKey | nkey-generator/main.go:341-355 | after any history and one more run, two published users share a subject exactly when they hold the same key |
| NkeyScope.NackMayAll | nkey-generator/main.go:183-199 | the first user without a key may do anything |
| NkeyScope.SinkMayIff | nkey-generator/main.go:183-199 | the second may subscribe to telemetry and inboxes and publish to the JetStream API and acknowledgements, and nothing else |
| NkeyScope.SinkHearsLeaves | nkey-generator/main.go:183-199 | it may subscribe to whatever a cluster may publish |
| Unbatch.SplitRecords | processor/unbatchprocessor/processor.go:43-70 | the nested loops, with the cases of no and one record, are the split |
| Unbatch.SplitConserves | processor/unbatchprocessor/processor.go:38-70 | the outputs together hold the input's records in order, each under its own resource, scope and schema URLs |
| Unbatch.SplitSingles | processor/unbatchprocessor/processor.go:38-42 | one output per record, holding it alone; splitting an output again gives that output |
| Unbatch.RoutesOwnIff | exporter/natsexporter/exporter.go:101-134 | under every configuration each record goes to the value of the named attribute on its own resource, or to the configured subject without a name or such an attribute, exactly unless the batch is one record behind a first resource that routes differently |
| Unbatch.FirstGroupRoutesOwn | exporter/natsexporter/exporter.go:124-134 | in particular when the first resource group holds a record |
| Unbatch.LoneBehindEmptyGroupStrays | exporter/natsexporter/exporter.go:124-128 | one record behind an empty group goes to the wrong subject |
| UnbatchMetrics.SplitMetricBatch | processor/unbatchprocessor/processor.go:158-177 | the nested loops are the split into data points |
| UnbatchMetrics.ExplodeMetric | processor/unbatchprocessor/processor.go:179-248 | one single-point metric per data point, for each of the five types, with its settings |
| UnbatchMetrics.MetricsConserve | processor/unbatchprocessor/processor.go:152-248 | the outputs together hold every data point in order under its header, type, settings, scope and resource |
| UnbatchMetrics.MetricsSplitSingly | processor/unbatchprocessor/processor.go:152-177 | one output per point, holding it alone; splitting an output again gives that output |
| UnbatchMetrics.MetadataSurvivesIff | processor/unbatchprocessor/processor.go:179-195 | metadata survives exactly when there is at most one point or none of the points' metrics has any |
| UnbatchMetrics.MetadataIsLost | processor/unbatchprocessor/processor.go:179-195 | a gauge of two points whose metadata is gone |
| UnbatchMetrics.PointsRouteOwnIff | exporter/natsexporter/exporter.go:136-146 | data points go to their own resources' subjects in the same sense, under the same condition |
| Ticks.CeilDivIsFirst | queryapi/internal/storage/fake/iterator.go:40-46 | the first tick is the least at or after the start, before and after the epoch |
| Ticks.CoversWindowIff | queryapi/internal/storage/fake/iterator.go:27-29 | the tick range is exactly the window unless the end is at or before the epoch, off the grid, and the rounded tick is not before the start |
| Ticks.Iterator.Next | queryapi/internal/storage/fake/iterator.go:48-77 | each call takes the first of the rows still to come, says truly whether there was one, ends, and records a cancelled context |
| Ticks.Iterator.constructor | queryapi/internal/storage/fake/iterator.go:27-38 | the rows still to come are the query's answer |
| Ticks.Drain | queryapi/internal/storage/fake/iterator.go:48-70 | called until it stops, the iterator returns the answer and nothing else |
| Ticks.AnswerIsFirstMatching | queryapi/internal/storage/fake/iterator.go:13-70 | off the failing windows the answer is the first `limit` matching rows at the window's ticks, in order |
| Ticks.BackwardReversesForward | queryapi/internal/storage/fake/iterator.go:31-36 | without a limit the backward answer is the forward one reversed |
| Ticks.StraysPastEnd | queryapi/internal/storage/fake/iterator.go:29 | on a failing window the iterator visits a tick at or past the end |
| Ticks.BeforeEpochExample | queryapi/internal/storage/fake/iterator.go:29 | one such window |

## Left out

- HTTP, JSON and YAML encoding, tokens and retries, TLS, flags, printing to the terminal, Kubernetes object metadata.
- The label-names and label-values queries, and the label catalogue.
- The migrations, the health probe, the collectors' configuration and the NATS connection.
- Regular expressions other than alternations of escaped literals: the engine is a parameter. ClickHouse's `match` and Go's `regexp` are taken to be one engine, although in ClickHouse the dot matches a newline.
- Which code points print is a parameter of quoting; results hold for every such table.
- SQL is modelled as tokens with holes, not characters, and ClickHouse as a reader of those tokens.
- Serving.ReceivedIsStorePage: asks for distinct times, since a database may return rows of one time in any order; `Serving.ReceivedIsArranged` does not.
- Errors while iterating database rows, which `collectStreams` returns beside the streams collected so far.
- 64-bit overflow of times and durations, except where the program clamps or parses them.
- NkeyRuns.SyncKeepsKeys: is one way and about runs that read the ConfigMap; `NkeyRuns.KeepsGuardedIff` is the exact form, for a world without other writers.
- NkeyRuns.SyncMakesPairs: is about a generator without other writers; another writer's Secret is whatever that writer stored, and `NkeyRuns.EnsureKeyReturnsStoredIff` covers that case.
- NkeyRuns.EverySecretIsAPair: likewise.
- NkeyRuns.ClustersNeverShareKeys: likewise.
- NkeyScope.KeyOpensOwnCluster: likewise.
- NkeyScope.SubjectHasOneKey: likewise.
- Entries.KeyInjectiveOnPlainLabels: gives a sufficient condition on a pair of entries; for one entry there is none to give, since any with two labels has a partner with its key.
- Hints.RequiredLabelsExact: is stated for double-quoted strings; once other quotes are allowed, the hint depends on what the raw strings spell, which is the question itself.
- Hints.RequiredLabelsAgree: gives a condition on the text alone; `Hints.RequiredLabelsExact` is the exact form.
- LogsCommand.LateStartMisses: is about stores with nothing newer; which lines a later overlap still catches is not stated.
- Alternation.OneOfAccepts: speaks of label values that are UTF-8; how a regexp engine reads other bytes is not modelled.
- Alternation.NoneOfAccepts: likewise.
- Retry delays of the follower and its status messages.
- NATS itself: a subject is taken to match a permission as the NATS documentation says of `*` and `>`.
- API writes that are applied although the call reports a failure, and a Secret created by another writer at a call that then fails.
- Nkeys.Generator.Ensure: keeps of a Secret its seed and two public-key fields, and of a PushSecret that it exists.
- The row at a tick, and which rows match, are parameters of the tick iterator.
- Attribute values of resources are kept as the strings they render to; records, spans, scopes and data points are any values.
- Forwarding of the outputs to the next consumer, which stops at the first error.
