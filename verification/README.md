# Model of the ZCC log analyser

The analyser takes a bundle of client logs, packet captures and proxy scripts apart and answers
questions about it. This project models the eight pieces of it that other views rely on and proves
what they are relied on for. Code that works step by step is a method or a class with its loops,
proved against functions; the theorems are lemmas about those functions.

| files | part of the analyser |
|---|---|
| `LogStore`, `IdExtract`, `Labels`, `LogIndex`, `LineSequence`, `Order` | the record store: streaming records out of files, the identifier index, the lazy line sequence |
| `FlowLedger`, `FlowTheorems`, `FlowViews` | connections rebuilt from their close records, and their aggregation |
| `JsonScan`, `JsonDocs`, `JsonTheorems`, `JsonTruncation` | the JSON scanner that tolerates cut log lines |
| `PacAnchors`, `PacComments`, `PacBlankLines` | finding and cleaning proxy auto-config scripts |
| `Query`, `QueryTheorems` | the query language |
| `Bundle`, `BundlePrograms`, `BundlePaths`, `BundleDisk`, `BundleOwn`, `BundleCases` | extraction of nested archives by concurrent workers |
| `Dns`, `Endpoints`, `PcapTables`, `PcapTheorems` | packet accounting and DNS answers |
| `RawView`, `LineBuckets` | the highlighter and the line classifier |
| `Text`, `MapSum` | positions in text, counters |

Regular expressions, time stamps, component names, address texts and line shapes enter as arbitrary
functions or values, so the theorems hold for any of them. SQL tables are sequences of rows, a
query is the filter, join and sort it asks for.

Some properties one would expect fail. The code is modelled as it is; a lemma says when the property
holds, another gives an input for which it does not, and both are in the table.

- Asking for some identifier types can index others, because an empty half of the selection falls back
  to the whole half (`SelectionExact`, `SelectionLeaks`).
- A slice with a negative step is the list's only where the clamped bounds meet; it is empty when it
  starts at its stop or above, and otherwise gives rows where the list gives none (`SliceExact`,
  `BackwardSliceIsTurned`, `ReverseSliceIsEmpty`).
- Labels alone are not unique; the `.log` suffix filter makes them so (`LabelsDiffer`, `LabelsCanCollide`).
- What a cut object shows is true to it if and only if the cut does not fall in a `\u` escape of a string
  value behind its `u` (`TruncationIsFaithful`, `CutEscapeInvents`).
- Doubled blank lines are undone if and only if a text has no content at all, or six lines of it with the
  first line among them and all blank lines empty (`CollapseUndoesDoubling`, `LeadingBlankIsLost`).
- A search limit is kept if and only if it is one or more, or nothing matches (`LimitKept`, `ZeroGivesOne`).
- The remark at zcc_diag/bundle.py:224-230 that no two workers write one path: two workers do not if and
  only if the archives they find have no path in common (`ApartExactly`). A worker finds what the last
  member of its path holds, so two archives of one name are the second one twice (`WorkerOpens`,
  `SameNameAlike`, `LastContentTwice`); names that differ in the case of their suffix, or a file that lies in
  another archive's directory, can make workers collide too (`WorkersCollide`, `DirectoriesMeet`).
- Archives are read right in every interleaving if and only if no worker writes an archive that another
  opens (`ReadsExactly`); with that the outcome is the same on every schedule (`RunYields`), though not always
  that of the bundle as it stands (`TwentyBytes`). When all paths differ it is (`OutcomeIsScheduleIndependent`).
- The cap of "`max_members` files total" (zcc_diag/bundle.py:14) is tested per archive: a run passes it if and
  only if the archives it visits have more paths than the cap (`FilesOverCap`, `CapIsPerArchive`).
- A bundle within all caps is extracted without an error if and only if no file stands where a directory is
  made (`RunYields`, `FileThenDirectory`).
- An empty match strictly inside a highlighted token repeats text (`ErasesToInput`, `EmptyMatchRepeats`).
- A rule named "unknown" counts as unclassified (`UnknownsAreUnresolved`, `NamedUnknown`).

## Model

| member | source | states |
|---|---|---|
| `IdExtract.Collector.Collect` | zcc_diag/log_store.py:428-461 | Stopping at the first new value its type has no room for gives the same list as walking every value to the end of the text. |
| `IdExtract.FullStays` | zcc_diag/log_store.py:448-461 | Once a type is at its cap, no further values of the type change the result. |
| `IdExtract.ExtractIds` | zcc_diag/log_store.py:464-493 | The gated two-pass extraction returns the identifiers of the open specs, single-gate specs first, in order. |
| `IdExtract.FastEqualsSlow` | zcc_diag/log_store.py:464-511 | If every gate holds whenever its regex finds something, gated and ungated extraction return the same ordered list for every text and catalogue. |
| `IdExtract.ExtractedIds` | zcc_diag/log_store.py:428-493 | No identifier twice, none that no spec found, no type above the cap; a found value is missing only if its type is full, and then the truncation test holds. |
| `IdExtract.SelectionExact` | zcc_diag/log_store.py:401-419 | A selection runs only wanted specs if and only if each half of the catalogue keeps a wanted spec or has nothing unwanted. |
| `IdExtract.SelectionLeaks` | zcc_diag/log_store.py:479-486 | A concrete selection that indexes a type nobody asked for. |
| `LogStore.Settings` | zcc_diag/log_store.py:464-493 | The extractor a build runs lists no identifier twice, which is all the index relies on. |
| `LogStore.Ingestor.Flush` | zcc_diag/log_store.py:1321-1330 | Writing the batches moves rows to the tables and changes nothing about what the store will hold. |
| `LogStore.Ingestor.CloseRecord` | zcc_diag/log_store.py:1230-1261 | Closing a record adds its continuation, its identifiers and its counts to the tables, whatever batches are pending. |
| `LogStore.Ingestor.Feed` | zcc_diag/log_store.py:1263-1319 | Streaming a file adds exactly the function of its lines and of the record open at entry; afterwards nothing is open or unwritten. |
| `LogStore.StreamGroups` | zcc_diag/log_store.py:1263-1319 | The streaming state machine refines grouping: each stamped line gets the run of unmatched non-blank lines up to the next valid one, through lines with bad stamps. |
| `LogStore.FilesAreIsolated` | zcc_diag/log_store.py:1263-1319 | With no record open at entry a file adds its own groups and nothing of another file. |
| `LogStore.EveryLineCounted` | zcc_diag/log_store.py:1189-1319 | Rows, attached lines, lines dropped by the caps, orphans and bad stamps add up to the non-blank physical lines, and the truncation counter is the number of records that the caps took a line from. |
| `LogStore.AccountsAddUp` | zcc_diag/log_store.py:1230-1319 | The store's counters, with what the caps dropped, account for every non-blank line of a file; the truncation counter for every record cut. |
| `Labels.Labeller.Label` | zcc_diag/log_store.py:1598-1608 | The k-th file gets its name, or its name and the number of times the name has been seen. |
| `Labels.LabelsDiffer` | zcc_diag/log_store.py:1598-1641 | Among names ending in `.log` no two files of a build share a label. |
| `Labels.LabelsCanCollide` | zcc_diag/log_store.py:1601-1604 | Without that filter they can: three names of which two get one label. |
| `LogIndex.Build` | zcc_diag/log_store.py:1610-1645 | The tables of a build depend on the files only, wherever batches were written. |
| `LogIndex.LinesForIdAgrees` | zcc_diag/log_store.py:962-978 | After any build the lines listed for an identifier are exactly the sorted lines whose record text yields it, each once; with a limit, the first of them. |
| `LogIndex.IdsForLineAgrees` | zcc_diag/log_store.py:947-960 | After any build the identifiers listed for a stored line are those extraction finds in its record text, sorted. |
| `LogIndex.RelatedIdsAgree` | zcc_diag/log_store.py:1009-1039 | After any build the self-join, grouping, order and limit give, per type, the other identifiers that share records with one, each with the number of records whose text carries both, most first. |
| `LogIndex.RelatedForced` | zcc_diag/log_store.py:1026-1039 | Grouping, sorting and cutting depend only on which identifiers there are and on their counts, not on the order of the join. |
| `LogIndex.RecordFound` | zcc_diag/log_store.py:891-916 | At the address of a record stand its identifiers and the kept part of its run, and nothing else. |
| `LogIndex.LineScanned` | zcc_diag/log_store.py:891-916 | The record text read back for a record's line is its body with the kept part of its run, and the identifiers stored for it are those extraction finds in that text. |
| `LogIndex.LazySequenceIsSortedList` | zcc_diag/log_store.py:580-645 | After any build every arrangement that satisfies the query order is the one sorted list, and the row count is its length. |
| `LineSequence.GetIndex` | zcc_diag/log_store.py:608-616 | Indexing, negative indices and out-of-range errors included, is the list's. |
| `LineSequence.GetSlice` | zcc_diag/log_store.py:617-645 | The paged slice equals its specification for every bound and step. |
| `LineSequence.SliceExact` | zcc_diag/log_store.py:617-645 | A slice equals the list's own slice for every positive step, and for a negative one exactly when the clamped bounds meet. |
| `LineSequence.BackwardSliceIsTurned` | zcc_diag/log_store.py:632-645 | With a negative step the slice is empty exactly when it starts at its stop or above, and the list's slice exactly when it starts at its stop or below. |
| `LineSequence.ReverseSliceIsEmpty` | zcc_diag/log_store.py:632-645 | Reversing any sequence by a slice gives nothing, which is the reversed list only for the empty one. |
| `LineSequence.QueriesAgree` | zcc_diag/log_store.py:553-645 | With a strict order any two queries see one arrangement, so pages of different queries fit together. |
| `Order.SortFilter` | zcc_diag/log_store.py:577-577 | Filtering before or after sorting is the same when the order is strict. |
| `FlowLedger.DedupeCarriers` | zcc_diag/flow_ledger.py:388-409 | Exactly the destructor records are dropped whose connection id also has a TCP close record, of this connection or of an earlier or later one with the same id, and they are counted; UDP closes stay. |
| `FlowLedger.SegmentOne` | zcc_diag/flow_ledger.py:467-481 | The two-pointer loop gives each line of a connection to the first close at or after it and counts those after the last close. |
| `FlowLedger.OwnerUnique` | zcc_diag/flow_ledger.py:471-474 | That close is the only one with every earlier close before the line and itself not before it. |
| `FlowLedger.AssignLines` | zcc_diag/flow_ledger.py:465-481 | After all connections every close record has its own lines and no others, although they share one map. |
| `FlowLedger.Ledger.Build` | zcc_diag/flow_ledger.py:412-509 | Flows and all five counters of the ledger, from the record store's tables alone. |
| `FlowLedger.BuiltAddressIsKey` | zcc_diag/flow_ledger.py:480-484 | The address the ledger is keyed by is a key of every build, so no two closes share lines. |
| `FlowTheorems.FlowsDoNotOverlap` | zcc_diag/flow_ledger.py:450-490 | Lines of a later flow of a reused connection lie strictly after the earlier close and not after their own; a flow starts no later than it ends. |
| `FlowTheorems.FlowInOrder` | zcc_diag/flow_ledger.py:483-502 | So does the first flow of a connection. |
| `FlowTheorems.SegmentsPartition` | zcc_diag/flow_ledger.py:467-481 | A line of a connection lies in the segment of its owner and in no other, the segment after the last close included, and counted with repetitions the segments hold all lines. |
| `FlowTheorems.LinesConserved` | zcc_diag/flow_ledger.py:459-508 | Lines of all flows and lines after the last close are together all lines of the connections that closed. |
| `FlowTheorems.LifetimeIsScan` | zcc_diag/flow_ledger.py:459-466 | After any build the lines the ledger looks up for a connection are exactly those whose record text yields its id, oldest first. |
| `FlowTheorems.BuiltLinesConserved` | zcc_diag/flow_ledger.py:412-509 | So after any build lines of flows and late lines are together exactly the lines whose record text yields the id of a closed connection. |
| `FlowViews.ByDestination` | zcc_diag/flow_ledger.py:223-238 | Each row holds the figures of exactly the flows of one destination, no destination twice, busiest first; without a cut none is missing, and a row cut off has fewer bytes than every row kept, or as many and a later key. |
| `FlowViews.ByHour` | zcc_diag/flow_ledger.py:240-255 | One complete row an hour, keys ascending; with hours written in text order, every flow of an earlier row closed before every flow of a later one. |
| `FlowViews.ByProto` | zcc_diag/flow_ledger.py:257-263 | One complete row a protocol, by bytes descending and then by name. |
| `FlowTheorems.BucketsExact` | zcc_diag/flow_ledger.py:232-237 | Each bucket holds exactly the flows with its key, in order, under a key of its own. |
| `FlowTheorems.AggregationConserves` | zcc_diag/flow_ledger.py:223-283 | Over all rows, flow counts and bytes in both directions are those of the ledger. |
| `FlowTheorems.DrillDown` | zcc_diag/flow_ledger.py:265-283 | From a row one gets back exactly the flows with its key, the row's figures are theirs, and no other row has that key. |
| `JsonScan.ScanString` | zcc_diag/fields.py:333-359 | Text, end and completeness of a string, escapes and `\u` included, on any text. |
| `JsonScan.ScanValue` | zcc_diag/fields.py:362-387 | Value, end and completeness of any value, mutually recursive with the containers. |
| `JsonScan.ScanArray` | zcc_diag/fields.py:390-407 | The same for arrays. |
| `JsonScan.ScanObject` | zcc_diag/fields.py:410-436 | The same for objects; it always ends, at or after its start. |
| `JsonScan.IterJsonObjects` | zcc_diag/fields.py:439-460 | All objects with enough keys, in order; every scan makes progress. |
| `JsonTheorems.ObjectRoundTrip` | zcc_diag/fields.py:333-436 | For every printed object, any blanks inside and any text around it: the scan is complete if and only if the object is not nested too deep, and then returns its value and its exact end. |
| `JsonTheorems.RecoversEmbedded` | zcc_diag/fields.py:439-460 | Every non-empty object in brace-free prose is found, in order, at its place, complete. |
| `JsonTheorems.ObjectCut` | zcc_diag/fields.py:341-436 | On every strict prefix that has the opening brace, the scan is incomplete and returns exactly what the prefix shows. |
| `JsonTruncation.TruncationIsFaithful` | zcc_diag/fields.py:333-436 | Cut anywhere behind its brace, an object is read as its whole entries, exact, and at most one more that is truncated in turn, down to whole characters, if and only if the cut is not in a string value's `\u` escape behind the `u`; in one, what is read begins the true text if and only if the escape spells a u and the digits in sight begin what follows it. |
| `JsonTruncation.CutEscapeInvents` | zcc_diag/fields.py:344-352 | The scanner reads {"k":"\u0041"}, cut after `\u0`, as having "u0" for "A". |
| `Query.Tokenize` | zcc_diag/query.py:309-360 | Tokens or error of any text, quoted, slashed and bare. |
| `Query.Parser.ParseOr` | zcc_diag/query.py:549-555 | What a disjunction is parsed to and where the parser then stands, on any token list. |
| `Query.Parser.ParseAnd` | zcc_diag/query.py:557-572 | The same for conjunctions, with and without the word. |
| `Query.Parser.ParseUnary` | zcc_diag/query.py:574-581 | The same for negations. |
| `Query.Parse` | zcc_diag/query.py:601-608 | From characters to a tree or an error. |
| `Query.FindMatches` | zcc_diag/query.py:615-629 | The matching lines in order up to the limit, which is tested only after a line was given out. |
| `Query.LimitKept` | zcc_diag/query.py:615-629 | No more lines than the limit if and only if the limit is one or more or nothing matches; below one, the first matching line. |
| `Query.ZeroGivesOne` | zcc_diag/query.py:615-629 | With the limit zero a matching line is given out. |
| `QueryTheorems.ParseInvertsPrint` | zcc_diag/query.py:309-608 | The text of every printable tree is parsed back to that tree, down to quoting and escaping; its own times and numbers are all that must be writable. |
| `QueryTheorems.PrintedQueryMeansTheSame` | zcc_diag/query.py:309-608 | Whatever any query is parsed to can be printed, and the printed text is parsed to the same tree, when times are read in whole seconds and every whole second that a date can hold, and every number that is read, can be written. |
| `QueryTheorems.QuotedTextBack` | zcc_diag/query.py:380-399 | Any text at all survives quoting. |
| `QueryTheorems.AndIsImplicit` | zcc_diag/query.py:557-572 | Leaving out an AND between two operands changes neither tree nor error, on any token list. |
| `PacAnchors.IterAnchors` | zcc_diag/pac_extract.py:541-571 | The chunked search with carried bytes equals one search over the whole data within the limit, for every sequence of read sizes. |
| `PacAnchors.AnchorsExact` | zcc_diag/pac_extract.py:541-571 | That search lists every case-insensitive occurrence once, ascending, with one plus the line breaks before it. |
| `PacComments.StripComments` | zcc_diag/pac_extract.py:797-877 | The nested loops equal a character machine over strings, comments and regex literals. |
| `PacComments.LayoutKept` | zcc_diag/pac_extract.py:797-877 | Same length, line breaks in place, comment characters blanked and every other character kept; none of a string or regex literal is a comment's. |
| `PacComments.StripIdempotent` | zcc_diag/pac_extract.py:797-877 | Stripping twice equals stripping once. |
| `PacBlankLines.CollapseDoubledBlankLines` | zcc_diag/pac_extract.py:272-324 | Text and count equal the specification on every text. |
| `PacBlankLines.CollapseKeepsContent` | zcc_diag/pac_extract.py:272-324 | On every text the content lines are unchanged and the number of lines falls by exactly the number returned. |
| `PacBlankLines.CollapseUndoesDoubling` | zcc_diag/pac_extract.py:272-324 | What a writer that adds an empty line after each content line did is undone exactly, one line per content line, if and only if there is no content, or six lines of it with the first line among them and every blank line empty. |
| `PacBlankLines.TextUndoubled` | zcc_diag/pac_extract.py:272-324 | The same from text to text, again in both directions. |
| `PacBlankLines.LeadingBlankIsLost` | zcc_diag/pac_extract.py:272-324 | With six lines of content a text that starts blank comes back one line short: without its first line. |
| `Bundle.ExecKeeps` | zcc_diag/bundle.py:181-213 | The safety and conservation invariants hold at every point of every interleaving. |
| `Bundle.EveryRunFinishes` | zcc_diag/bundle.py:237-262 | No interleaving blocks: every schedule can be extended to a finished run. |
| `Bundle.ActsAreBounded` | zcc_diag/bundle.py:237-262 | No interleaving runs for ever: in any schedule the steps that act and those that then remain are together no more than the programs have. |
| `BundlePaths.LimitHolds` | zcc_diag/bundle.py:181-203 | Whatever the programs, if they count, check and write in this order, then at every point of every interleaving the bytes that passed the check, and so the bytes written, are within the limit. |
| `BundlePaths.NeverOverTheLimit` | zcc_diag/bundle.py:106-262 | So they are in every extraction of every bundle, paths that coincide included. |
| `BundlePrograms.RunsDo` | zcc_diag/bundle.py:124-262 | All threads together count and write the bytes, list the files and note the skips of the archives they visit, and raise exactly when a cap is broken. |
| `BundlePrograms.RunLeaves` | zcc_diag/bundle.py:124-222 | A thread opens only the archives it visits, writes exactly their paths, makes exactly their directories, and finishes no file before it is created. |
| `BundlePaths.WorkerOpens` | zcc_diag/bundle.py:220-248 | A worker opens what the last member written to its path holds. |
| `BundlePaths.SameNameAlike` | zcc_diag/bundle.py:220-248 | The workers of two nested archives of one name do the same, and write apart if and only if the archive on disk writes nothing. |
| `BundlePaths.ApartExactly` | zcc_diag/bundle.py:224-252 | What two threads write, a worker alone after the main thread, is disjoint if and only if the archives they visit, as they stand on disk, have no path in common. |
| `BundlePaths.JobsSteady` | zcc_diag/bundle.py:132-262 | Alone, each thread reads every archive right, whatever it has overwritten before. |
| `BundlePaths.ReadsAreRight` | zcc_diag/bundle.py:132-262 | When no worker writes an archive that another opens, at any point of any interleaving whoever reads an archive next finds it finished and holding what the thread takes it to be. |
| `BundleDisk.ReadsExactly` | zcc_diag/bundle.py:132-262 | And only then: otherwise, within the caps and with room for all files, some interleaving has a worker read an archive that another is writing. |
| `BundleDisk.RunYields` | zcc_diag/bundle.py:106-262 | When no worker writes an archive that another opens, then whatever the schedule a finished run has read all archives right, and has no error if and only if the caps are kept, the total fits and no file stands where a directory is made; then bytes, files and skip notes are those of the archives visited, as they stand on disk. |
| `BundleDisk.FilesListedOnce` | zcc_diag/bundle.py:174-222 | Under the same condition the files listed by a run are the paths of the archives visited, and each is listed once if and only if they differ. |
| `BundleDisk.FilesOverCap` | zcc_diag/bundle.py:143-146 | Under the same condition a run without error lists more files than the cap on members if and only if the archives visited have more paths. |
| `BundleOwn.AllOwn` | zcc_diag/bundle.py:106-262 | When all paths of a bundle differ, the archives visited are those that stand in the bundle, as far as no cap is broken. |
| `BundleOwn.WorkersWriteApart` | zcc_diag/bundle.py:224-252 | When all paths of a bundle differ, no two threads write one path and no worker writes an archive that another opens. |
| `BundleOwn.OutcomeIsScheduleIndependent` | zcc_diag/bundle.py:106-262 | When all paths of a bundle differ, the outcome is that of the bundle as it stands, on every schedule. |
| `BundleCases.CapIsPerArchive` | zcc_diag/bundle.py:143-146 | A bundle of two archives, neither with more members than the cap of one, is extracted to two files. |
| `BundleCases.FileInTheWay` | zcc_diag/bundle.py:174-181 | A file that is on the way to another member, or is a directory member, makes every run fail, in whatever order they come. |
| `BundleCases.FileThenDirectory` | zcc_diag/bundle.py:174-181 | So does the bundle of the files `a` and `a/b`, which keeps all caps and whose paths differ. |
| `BundleCases.SharedDirectory` | zcc_diag/bundle.py:241-241 | Archives whose names differ in their last four letters only are extracted into one directory. |
| `BundleCases.WorkersCollide` | zcc_diag/bundle.py:224-252 | Two workers with one directory write one path if the archives they find have a member of the same name. |
| `BundleCases.DirectoriesMeet` | zcc_diag/bundle.py:238-248 | So do archives with different directories: `q.zip` with the member `r_extracted/x`, and `q_extracted/r.zip` with the member `x`. |
| `BundleCases.LastContentTwice` | zcc_diag/bundle.py:181-252 | Two archives of one name with one file each: both workers extract the second content to one path, and the first is never opened. |
| `BundleCases.TwentyBytes` | zcc_diag/bundle.py:181-252 | Such a bundle of 12 bytes that ends with 20 bytes on every schedule, or fails on a limit below that. |
| `Dns.ParseQname` | zcc_diag/pcap_review.py:446-477 | The first question's name on any payload, within bounds, one pointer and 64 steps. |
| `Dns.SkipName` | zcc_diag/pcap_review.py:571-584 | The offset after a name on any payload, within bounds and 128 steps. |
| `Dns.ParseAddressAnswers` | zcc_diag/pcap_review.py:587-620 | The answer pairs of any payload, however damaged. |
| `Dns.DecodeInvertsEncode` | zcc_diag/pcap_review.py:587-620 | Every well-formed response, any bytes in its labels, names plain or ending in a pointer, decodes to exactly its class-IN A and AAAA answers, in order, under the first question's name. |
| `Dns.FirstName` | zcc_diag/pcap_review.py:446-477 | That name, of the message and of every cut behind the questions, is the text of its labels, and with a pointer of those before it and those where it leads; without a question there is none. |
| `Dns.PlainText` | zcc_diag/pcap_review.py:477-477 | For labels in ASCII without dots the text is the labels joined and in lower case. |
| `Dns.DecodeCut` | zcc_diag/pcap_review.py:587-620 | Cut anywhere, it decodes to the answers that stand whole in what is left, under the name that is left; a query, and a cut inside the questions, to none. |
| `Dns.PointerFollowedOnce` | zcc_diag/pcap_review.py:455-477 | One pointer leads to the rest of the name and costs one of the 64 steps; a second one gives up, unless the steps end before it. |
| `Dns.SkipCut` | zcc_diag/pcap_review.py:571-584 | On any payload cut short a name is skipped exactly when all of it is there. |
| `Endpoints.SplitFormat` | zcc_diag/endpoint_intel.py:292-297 | Splitting a key gives address, protocol and port back, IPv6 addresses included. |
| `Endpoints.FormatSplit` | zcc_diag/endpoint_intel.py:292-297 | A key that splits is the format of its parts if and only if its port has no superfluous zeros. |
| `Endpoints.FormatInjective` | zcc_diag/endpoint_intel.py:292-297 | Different endpoints have different keys. |
| `Endpoints.FlowKeySymmetric` | zcc_diag/pcap_review.py:821-825 | Both directions of a conversation have one flow key. |
| `Endpoints.ServerSymmetric` | zcc_diag/pcap_review.py:692-710 | Both directions of a conversation name the same server. |
| `Endpoints.ServerOfFlow` | zcc_diag/pcap_review.py:692-824 | The key of a flow determines its server. |
| `PcapTables.EndpointTable.Bump` | zcc_diag/pcap_review.py:718-738 | A row after one packet, new rows included, all six columns. |
| `PcapTables.Summary.AddPacket` | zcc_diag/pcap_review.py:777-833 | Six tables move together: they keep holding what the packets so far put into them. |
| `PcapTables.Summary.Scan` | zcc_diag/pcap_review.py:746-833 | After the scan, the packet cap and a reader error included, the tables are those of the frames looked at. |
| `PcapTheorems.RowExact` | zcc_diag/pcap_review.py:718-738 | A key has a row if and only if it has packets, and each column is the sum over them. |
| `PcapTheorems.TablesBalance` | zcc_diag/pcap_review.py:796-808 | Every row is sent plus received; over all rows sent equals received equals the parsed packets and their bytes. |
| `PcapTheorems.DestinationsAreReceived` | zcc_diag/pcap_review.py:783-808 | The destination counters are the received columns of the endpoint tables. |
| `PcapTheorems.AddressFromTransport` | zcc_diag/pcap_review.py:796-808 | An address row is the sum of the transport rows whose key splits to the address. |
| `PcapTheorems.TalkersFromFlows` | zcc_diag/pcap_review.py:810-833 | The bytes charged to a server are the bytes of the flows whose server it is. |
| `PcapTheorems.TalkersAreServers` | zcc_diag/pcap_review.py:810-833 | A server is listed if and only if a flow names it. |
| `PcapTheorems.FlowSpan` | zcc_diag/pcap_review.py:821-833 | A flow's interval runs from its first packet to its last, whichever way they go. |
| `PcapTheorems.FlowBytes` | zcc_diag/pcap_review.py:821-833 | It holds the bytes of all packets of the flow. |
| `PcapTheorems.MergeStatRows` | zcc_diag/endpoint_intel.py:157-167 | The nested loops over captures and rows equal the row-by-row sum, in whatever order the rows are visited. |
| `PcapTheorems.MergeIsOneScan` | zcc_diag/endpoint_intel.py:157-167 | Merging the tables of several captures gives the table of one scan over all their packets. |
| `PcapTheorems.MergeKeepsLaw` | zcc_diag/endpoint_intel.py:157-167 | Merging keeps sent plus received in every row, whatever tables are merged. |
| `PcapTheorems.MergeColumn` | zcc_diag/endpoint_intel.py:157-167 | Merging keeps every column total. |
| `RawView.ChooseSpans` | zcc_diag/raw_view.py:268-283 | The claimed array gives the greedy choice over all patterns' matches. |
| `RawView.ChosenDisjoint` | zcc_diag/raw_view.py:268-283 | Chosen spans never overlap. |
| `RawView.EarlierWins` | zcc_diag/raw_view.py:274-283 | A match is left out only for one tried before it, and a choice once made stays. |
| `RawView.HighlightTokens` | zcc_diag/raw_view.py:258-309 | The output for any patterns, titles of client-made addresses included. |
| `RawView.ErasesToInput` | zcc_diag/raw_view.py:258-309 | Removing the markup gives exactly the escaped line if and only if no empty match was taken strictly inside a token. |
| `RawView.NonEmptyMatches` | zcc_diag/raw_view.py:272-283 | It is never taken when no pattern matches the empty text. |
| `RawView.EmptyMatchRepeats` | zcc_diag/raw_view.py:272-309 | With a token over "ab" and an empty match between its letters the output shows "abb". |
| `RawView.PagesCover` | zcc_diag/raw_view.py:369-386 | All pages in order are all lines once; a page out of range is clamped, none is too long. |
| `LineBuckets.ClassifyLine` | zcc_diag/line_buckets.py:498-539 | The fused loop with its skips and early exit equals one first-match search per axis, each with its own fallback. |
| `LineBuckets.FirstMatchIsFirst` | zcc_diag/line_buckets.py:511-524 | That search returns the first matching rule that names the axis, whatever earlier rules say about the other. |
| `LineBuckets.BuildBuckets` | zcc_diag/line_buckets.py:542-601 | All pivots, provenance counts, gaps and kept lines of the report. |
| `LineBuckets.PivotsFit` | zcc_diag/line_buckets.py:563-568 | Every pivot sums to the number of lines, and the pairs have the two single pivots as marginals. |
| `LineBuckets.ShapesFillTheGap` | zcc_diag/line_buckets.py:572-577 | The shapes account for every line without a subsystem. |
| `LineBuckets.UnknownsAreUnresolved` | zcc_diag/line_buckets.py:526-579 | Unclassified counts exceed the unresolved provenance counts by exactly the lines whose rule or default is named "unknown" or not at all. |
| `LineBuckets.NoneMisnamed` | zcc_diag/line_buckets.py:526-539 | So they agree if and only if there is no such line, and always with well-named rules and defaults. |
| `LineBuckets.NamedUnknown` | zcc_diag/line_buckets.py:526-539 | A rule named "unknown" matches and is counted as unclassified. |
| `LineBuckets.DrillDownCounts` | zcc_diag/line_buckets.py:480-491 | Drilling down lists as many lines as the pivots count, per pair, per axis and in all. |

## Left out

- JsonScan.ScanString: `int(x, 16)` accepts signs, underscores and blanks inside a `\u` escape, and lone surrogates; the model accepts four hexadecimal digits and plain characters.
- JsonScan.ScanValue: a number is its lexeme, not the integer or float that Python makes of it.
- JsonTruncation.TruncationIsFaithful: objects nested deeper than the limit are excluded; for them the scan stops where the limit is passed, whatever is cut behind it.
- Query.Tokenize: lower-casing and blanks are those of ASCII and of the listed blank characters; times, durations and regexes are abstract.
- LogStore.Ingestor.Feed: a line iterator that raises half-way is not modelled, nor are process, thread, level, session and host columns, time zones and the counts per component and per file.
- FlowLedger.Ledger.Build: the batched lookup of connection lines is one lookup; `_parse_close` is an arbitrary function of the record text, and carrier counts and file counts are left out.
- PacBlankLines.CollapseDoubledBlankLines: the seven-tenths test is done in integers.
- BundleDisk.RunYields: bundles in which a worker writes an archive that another opens are excluded, because for them a read can find a file half written (`ReadsExactly`) and what the zip library then does is not modelled; the bundle itself must not be overwritten, which the fresh directory rules out (`BundlePaths.OutsideIsSpared`).
- Bundle.Programs: the ratio test is done in integers, the verdict on a member's path is given with the member, names are normalised, and the cap of eight workers is dropped, which allows more interleavings than the code. Of the file system's errors only a file where a directory is made and a directory where a file is created are modelled.
- Dns.ParseAddressAnswers: address texts are represented by the bytes they render.
- Dns.FirstName: of a name with more than 64 labels only the first 64 are kept, as in the code.
- Endpoints.SplitFormat: digits are ASCII, and a newline at the end of a key is not ignored as `$` would.
- PcapTables.Summary.AddPacket: resets, retransmits, handshakes, TLS alerts, server names and DNS tables of the summary are left out; addresses are non-empty texts without blanks.
- PcapTheorems.MergeStatRows: rows have the six columns that the scan gives them.
- LineBuckets.BuildBuckets: shapes are counted; which of them are listed on top is left out.
- PAC carving by brace depth, JSON unescaping of scripts and merging of equal documents.
- Flattening and harvesting of JSON, label tables and record schemas.
- SQLite, zip decoding, the rest of the file system, signals and disk preflight: replaced by sequences, maps and byte streams.
- Pages, command line, styles and Markdown: presentation only.
- Policy, posture, triage and catalogue modules, session and identifier inventories, update checks and geo lookups.
