# livegrep's search engine, verified

livegrep answers regular-expression queries over a large body of source code.
It stores lines in chunks, a line it has in its table once, builds a suffix
array over each chunk, turns the query's expression into a plan (a trie of byte ranges), walks
the suffix array with the plan, scans the lines around the hits with the real
expression, and maps every line found back to the files and line numbers that
have it. All of that is meant to be a fast form of searching each file line by
line. This project models those parts in Dafny and proves that it is.

The main results:

* `EndToEnd.IndexAndSearch`: whatever files were indexed, every report shows,
  in its context, a line of a file that matches; and every matching line is
  reported, in the file and under the number it has there, but perhaps an
  empty one that ends a chunk (or, in a search restricted to files or trees, a
  range of one). If the suffix arrays were used, this needs an expression in
  which no alternation forgets that an alternative repeats
  (`Regexps.ForgetsNoRepetition`); `ForgottenRepeats.AlternateSoundExactly`
  says exactly when one does, and `Counterexamples.RepetitionForgotten` shows a
  line that is missed. Nothing is reported twice without the suffix arrays, nor,
  under the same condition, with them if all lines are shorter than 250 bytes.
* `Grep.Match`: the same for the lines as stored, with the exact fate of empty
  lines at the end of a chunk.
* `Delivery.MatchApart`: the same for what a call with threads is given, in
  every interleaving.
* `QueryPlanner.ConstructQueryPlan`: for every outcome of the cost heuristics,
  the plan finds every string the expression matches, under the same condition
  on alternations.
* `SuffixSearch.Search`: the suffix walk emits exactly the positions from which
  the plan leads to its end or to where at most a hundred positions still read
  alike, none twice, among them every one the plan accepts; or it says that its
  buffer is too small, exactly if there are more.
* `NameSearch.SearchNames`: the search of file names reports a file that it
  should once, except for those it misses and those it reports twice, and says
  exactly which these are.
* `Workers.Delivered`, `Workers.RunsEnd`: in every interleaving of the threads
  of a search each chunk is searched once, each result is delivered once, and
  the call returns.
* `DumpLoad.DumpAndLoad`: finalizing an index, dumping it and loading the file
  gives the same index back, exactly if it has a tree and ends its content
  chunks with their records, which fails if files were indexed but no line.
* `Reloading.SearchReloaded`: the search of a loaded index answers for the one
  that was dumped.
* `QueryTexts.ParsesPrinted`: parsing a printed query, with escapes and balanced
  groups in its values, gives its operators back; `QueryTexts.RepeatedKey`,
  `QueryTexts.SecondMain`, `QueryTexts.SecondMainThen`: what it refuses.

How the files fit together:

* `Plans`, `QueryPlans`, `PlanConcat`, `PlanSoundness`, `ForgottenRepeats`,
  `Regexps`, `Runes`, `IndexWalker`, `QueryPlanner`: the planner. A plan is a
  heap graph whose nodes are shared and updated in place; the ghost field
  `tree` is the trie it stands for.
* `SuffixArrays`, `SuffixSearch`, `RadixSort`: the suffix walk and the sort of
  its hits.
* `Lines`, `FileContents`, `IndexTypes`, `ChunkFiles`, `Searchers`, `Scanning`,
  `Search`, `Reporting`, `Grep`: scanning chunks and reporting lines.
* `NameSearch`: the search of file names.
* `ChunkRanges`, `FileLines`, `Indexing`, `Finalizing`, `EndToEnd`: building
  the index.
* `ThreadQueues`, `Workers`, `Delivery`: the threads of a search.
* `Images`, `DumpLoad`, `Reloading`: the index file.
* `Queries`, `QueryTexts`, `DiffRows`, `DirectoryTree`: the query language, split
  diffs and directory listings of the web server.
* `Counterexamples`: inputs on which a line or a rune is missed.
* `Bytes`, `Sequences`, `Wrappers`: what the others share.

The regular-expression engine is a function that says whether the expression
matches bytes `i..j` of a line, and so are the patterns for paths and trees and
the test for valid UTF-8; the suffix sorter's result is a parameter with
the property that it is the sorted list of suffixes. Stated preconditions on
expressions (`Regexps.InScope`): no newline in a literal, nor in a class of up
to 32 runes; the ranges of such a class in order, and, if one of them is ASCII,
each of the others with ends whose encodings (section 3 of RFC 3629) differ in
the last byte only, which `IndexWalker.LexRangeExactly` shows to be exactly when
the planner's range is right (`Counterexamples.CyrillicMissed` is a range for
which it is not); case-insensitive letters in lower case with their two
variants. Nothing is asked of larger classes, such as `[^a]` or `\S`, nor of
what is under a star or a question mark: their plan is to know nothing.

Where the code does something its own comments do not say, the model follows
the code:

* Alternation drops the mark that an operand repeats
  (`src/query_planner.cc:488`), so the plan of `w(x+|y)z` misses "wxxz". It
  matters only if all alternatives are anchored on both sides, one of them
  repeats, and they can be merged without giving up.
* A scan stops when it reaches the newline at which it is to end
  (`src/codesearch.cc:1026-1034`), so an empty last line of a chunk is passed
  over if the line before it matched, if it is the only line, or if a part of a
  megabyte in which nothing matched ends just before it.
* Two hits 250 bytes or more apart are scanned apart even if they are on one
  line (`src/codesearch.cc:943-957`), so a long line may be reported twice.
* The last line of a file is dropped if it is one byte long and has no newline
  after it (`src/codesearch.cc:756`).
* The table of known lines is emptied at the first new line of every file,
  because `prev` starts as null (`src/codesearch.cc:698`,
  `src/codesearch.cc:740-741`); lines are stored once per chunk only within that
  limit.
* The file-name searcher takes a position in a name for one in the next name
  when it remembers what it has reported (`src/codesearch.cc:527-534`), so a
  name whose only hit is its first byte is missed if the name before it is hit
  after its first byte, and a name hit at its first byte and after it is reported
  twice otherwise: `NameSearch.NameMissed`, `NameSearch.NameTwice`.
* `alignp` masks positions with 32 bits (`src/dump_load.cc:67-70`), so aligning
  goes back once the next page is beyond four gigabytes:
  `DumpLoad.AlignExactly`.
* Loading checks that every offset lies within the file, and an index without
  trees ends in an empty section, whose offset does not
  (`src/dump_load.cc:222-226`).
* Finalizing returns before it sets the end of the last content chunk if no
  line was ever indexed (`src/chunk_allocator.cc:105-117`). The chunk is then
  dumped with all of its buffer (`src/dump_load.cc:359-370`, and
  `src/dump_load.cc:156-162` for an index dumped as it is built), and loading
  goes on past the last file (`src/dump_load.cc:563-567`). One tree with one
  empty file is enough: `DumpLoad.EmptyFileNotLoaded`.
* An empty line after a hunk makes the diff parser ask for the first byte of
  nothing (`server/fileviewer/fileview.go:2127`).

## Model

| member | source | states |
|---|---|---|
| EndToEnd.IndexAndSearch | src/codesearch.cc:688-809 | stated on the bytes of the files given to the indexer, where line `n` is what stands between newlines `n - 1` and `n`, or nothing if it is too long: every report is of such a line that matches, is valid text and is in a file whose path and tree pass the four patterns, and shows the text of the line and of its context; every such line is reported with its file and number, unless it is empty and ends a chunk, or in restricted searches an accepted range; in unrestricted searches without the suffix arrays, exactly those not passed over; none twice without them, or if all lines are shorter than 250 bytes |
| EndToEnd.GrepsIsGrepsText | src/content.h:21-66 | searching the stored lines of a file is searching the lines of its own bytes, and each is stored under its number with its length |
| Grep.Match | src/codesearch.cc:1264-1361 | all reports are right in file, number, line and context, and of files whose path and tree pass the four patterns; every findable line is reported if no alternation forgets a repetition or the suffix arrays are not used, and if they are, in any case every findable line in which a position the plan accepts is matched; none is twice without the suffix arrays, nor with them if all lines are shorter than 250 bytes; in unrestricted searches without them a matching line is missing exactly if it is an empty last line of a chunk at which the scan stops |
| Grep.ExactlyUnpassed | src/codesearch.cc:1019-1056 | for chunks of any size: an empty last line is missing if and only if scanning part by part from the last matching line before it comes to stop exactly there |
| Grep.PassedOverShort | src/codesearch.cc:1019-1056 | in a chunk of up to a megabyte that is if it is the only line or the line before it matches |
| Grep.AllGreps | src/codesearch.cc:797-963 | a line that a plain search finds is reported once all that is due has been handed on |
| Grep.OnlyGreps | src/codesearch.cc:1019-1056 | nothing but what a plain search finds is reported |
| Grep.HandedIsReported | src/codesearch.cc:1088-1134 | a line handed to the lookup is reported for every accepted file and every line number that has it |
| Grep.ChosenIsAccepted | src/codesearch.cc:164-189 | a file is accepted if and only if its path and tree pass the two patterns and fail the two negated ones |
| Grep.PlanGreps | src/codesearch.cc:895-963 | whether or not the plan selects all matches, a line in which it accepts a position of a match is reported |
| Counterexamples.RepetitionForgotten | src/query_planner.cc:488-488 | the planner's steps on `w(x+\|y)z` where nothing is given up, alternation included, return a plan that accepts from no offset of "wxxz", which the expression matches |
| Counterexamples.CyrillicMissed | src/query_planner.cc:268-283 | the graph for the range from U+0430 to U+044F accepts the encodings of its second half, but the last, from no offset |
| Counterexamples.EmptyLastLineMissed | src/codesearch.cc:1026-1034 | in the index of one file with the lines "a" and "", a query that every line matches does not report the second |
| Reporting.AllOnce | src/codesearch.cc:1088-1134 | if no line is handed on twice, no pair of file and line number is reported twice |
| Reporting.LineReportsAre | src/codesearch.cc:1088-1134 | the reports of a line are those of the accepted files that have it in a range around it |
| Reporting.TreeReportsLikeBrute | src/codesearch.cc:1058-1134 | the tree walk reports the same multiset as the linear scan of the ranges |
| Reporting.VisitsApart | src/chunk.cc:24-66 | no file is visited twice for one line |
| Search.SearchIndex | src/codesearch.cc:1372-1385 | chunks in any order: every line due is handed on; without a plan, or if all lines are short, no line twice; without a plan, empty last lines exactly as stated |
| Search.SearchChunk | src/codesearch.cc:797-809 | one chunk, filtered or not, or skipped |
| Search.SkippedChunk | src/codesearch.cc:781-795 | a chunk that is skipped because of its tree names holds no line that is due |
| Search.FilteredSearch | src/codesearch.cc:895-908 | every line due that holds a position the plan accepts is handed on, however small the buffer; with a plan that selects all matches, every line due |
| Search.OverflowForcesFull | src/codesearch.cc:895-928 | a buffer of a fiftieth of the chunk size that overflows forces a full scan |
| Search.MatchIsHit | src/codesearch.cc:837-893 | a match in a line puts a position the plan accepts in the line, before its newline |
| Search.SearchLines | src/codesearch.cc:917-963 | every line due that has a hit is handed on, whichever of the dense, restricted or interval paths is taken; in increasing order and none twice, unless two consecutive hits on one due line are 250 bytes or more apart |
| Search.ScanHits | src/codesearch.cc:936-963 | the coalesced intervals with one shared finger cover the lines of all sorted hits, and each once unless consecutive hits on it are 250 bytes or more apart |
| Scanning.Searcher.FullSearchIn | src/codesearch.cc:1019-1056 | within two newlines: every line due is handed on, in strictly increasing order, only wanted lines, and the queue holds exactly their reports; an empty last line in an unrestricted scan from the start exactly if the scan does not stop there |
| Scanning.Searcher.FullSearch | src/codesearch.cc:965-969 | the same for a whole chunk |
| Scanning.Searcher.NextRange | src/codesearch.cc:971-1017 | nothing that is skipped holds a line of an accepted range, and accepted ranges already passed end by the end of the current one |
| Scanning.Searcher.Coalesce | src/codesearch.cc:996-1016 | ranges that continue the current one without a large gap are passed only as far as the scan reaches |
| Scanning.LineFound | src/codesearch.cc:1049-1054 | the leftmost match determines the next line: nothing due is left before its end |
| Scanning.NothingFound | src/codesearch.cc:1038-1048 | a scan that finds no match up to a newline leaves nothing due before it |
| Lines.LineUnique | src/codesearch.cc:311-343 | a line is determined by any of its positions |
| Searchers.FindMatch | src/codesearch.cc:1088-1134 | the stack walk reports exactly the ranges the recursive walk visits, in its order, and ends |
| Searchers.FindMatchBrute | src/codesearch.cc:1058-1086 | the linear scan reports exactly the ranges that contain the line |
| FileContents.TryMatch | src/codesearch.cc:1174-1251 | the reports are those of the reference function, contexts included |
| FileContents.ReportsExactly | src/codesearch.cc:1174-1251 | the reference reports are right, complete, and in strictly increasing order of line numbers |
| FileContents.BeforeIs | src/codesearch.cc:1213-1227 | the context before is the preceding lines, nearest first, as many as asked for or there are |
| FileContents.AfterIs | src/codesearch.cc:1228-1247 | the context after is the following lines, in order, as many as asked for or there are |
| ChunkFiles.Compact | src/chunk.cc:84-104 | in-place compaction keeps the multiset of file, left and right, and leaves strictly increasing keys |
| ChunkFiles.BuildTreeCorrect | src/chunk.cc:114-136 | the tree lists the ranges in order, and each limit is the greatest right end below it |
| ChunkFiles.VisitsAreScan | src/codesearch.cc:1088-1134 | the pruned walk visits the ranges that contain the position, each as often as a linear scan |
| ChunkRanges.AddChunkFile | src/chunk.cc:24-54 | the nearest range, if near enough, takes the line in; ranges of a file stay apart and lose no line |
| ChunkRanges.EnclosedOnce | src/chunk.cc:24-66 | a line lies in at most one range of a file |
| ChunkRanges.FinishFile | src/chunk.cc:56-66 | the sorted ranges pass the check that they do not meet, and join those of the other files |
| ChunkRanges.NoDistance | src/chunk.cc:30-42 | a line at no distance from a range lies in it, which is what the assertion in the loop says |
| Indexing.Indexer.AllocLine | src/chunk_allocator.cc:64-71 | a new line goes to the end of the current chunk or starts a new one, and all earlier lines stay where they were |
| Indexing.Indexer.AddLine | src/codesearch.cc:719-754 | the line is stored under its text, or nothing if it is too long, and lies in a range of the file; a line that the table of lines has is not stored again, and afterwards the table has it; the table refers to the current chunk only |
| Indexing.Indexer.IndexFile | src/codesearch.cc:688-779 | files with a NUL byte are skipped; the pieces of any other are its lines in order, too long ones as empty lines, or none at all if the record is too large |
| Indexing.NeverJoined | src/content.cc:11-22 | the test for adjacent pieces never succeeds, so piece k is line k |
| FileLines.KeptExactly | src/codesearch.cc:718-763 | all lines of a file are kept, if and only if it does not end in an unterminated line of one byte |
| FileLines.KeptIs | src/codesearch.cc:718-763 | line `n` of those kept is the text between the newlines before and after it, counted in the bytes of the file, and there are as many as newlines, and one more for a last line of two bytes or more without one |
| FileLines.SearchedIs | src/codesearch.cc:719-726 | a line is kept as it is if it and its newline are shorter than the limit, and is empty otherwise |
| Indexing.IndexedIs | src/codesearch.cc:719-771 | by the bytes of the file alone: unless its record would take four megabytes, the lines it is indexed with are exactly its own, each under its number |
| FileLines.LinesJoin | src/codesearch.cc:718-763 | the lines, each with a newline, make up the text again |
| Finalizing.Finalize | src/chunk_allocator.cc:105-117 | the finished index is valid, and its files have exactly the lines they were indexed with |
| Finalizing.FinalizeChunk | src/chunk.cc:70-104 | exchanging newline and NUL around the sort leaves the text unchanged; the compacted ranges are ranges of lines, one per file and line |
| Finalizing.CompactedFine | src/chunk.cc:84-104 | no line is in two ranges of one file after compaction |
| Finalizing.BuildTreeNames | src/chunk.cc:106-112 | the names are exactly those of the trees with files in the chunk |
| SuffixArrays.MungeRestores | src/chunk.cc:70-82 | exchanging newlines for NUL and back is the identity if and only if the data has no NUL |
| SuffixSearch.LowerBound | src/codesearch.cc:817-835 | the search finds the first suffix whose byte at the depth is not below the given one, newlines lowest |
| SuffixSearch.ExpandEdge | src/codesearch.cc:855-889 | one edge's interval is cut into the intervals of its bytes, losing nothing and in order |
| SuffixSearch.Search | src/codesearch.cc:837-893 | what is emitted are exactly the positions from which the plan leads to its end, or to where at most a hundred positions of the whole text start alike, none twice, among them all the plan accepts; the count is one more than the buffer holds if and only if there are more of them than that; and the walk ends |
| RadixSort.LsdRadixSort | src/lib/radix_sort.cc:16-60 | sorts in place, a permutation, for every length, elements beyond untouched |
| RadixSort.Pass | src/lib/radix_sort.cc:45-59 | one pass is the stable distribution into buckets |
| RadixSort.BucketSizes | src/lib/radix_sort.cc:37-43 | histograms taken once serve all passes, because bucket sizes do not depend on the order |
| RadixSort.BucketsOrder | src/lib/radix_sort.cc:45-59 | a stable pass on elements in order by the lower digits orders them by one more |
| QueryPlans.QueryPlan.Insert | src/query_planner.cc:68-75 | the edge is added in order, unless there is one with its key, and the trie with it |
| QueryPlans.Merge | src/query_planner.cc:424-471 | one step on two range cursors: what has been put out and what is left still merge both operands |
| QueryPlans.AlternateNodes | src/query_planner.cc:488-523 | the merged node stands for either operand |
| QueryPlans.Alternate | src/query_planner.cc:525-534 | with the memo map, at any recursion cut-off: the result accepts what either operand accepts, is well formed, and has the anchors both have |
| Plans.MergedAlternates | src/query_planner.cc:424-523 | merging byte by byte is alternation of walks and of paths |
| Plans.WalkIsPathPrefix | src/query_planner.cc:98-143 | a walk through a plan without give-up nodes accepts exactly if a path is a prefix |
| Plans.SubstPaths | src/query_planner.cc:123-143 | the paths of a joined plan are exactly a path of the first followed by one of the second |
| PlanConcat.CollectTails | src/query_planner.cc:98-121 | every null edge reachable is collected, none twice, shared nodes visited once |
| PlanConcat.Concat | src/query_planner.cc:123-143 | joining in place on the shared graph substitutes the second plan at every null edge, and the anchors follow |
| PlanSoundness.ConcatSound | src/query_planner.cc:123-143 | a joined plan is sound for the concatenation |
| PlanSoundness.PlusSound | src/query_planner.cc:616-623 | a plan marked as repeating is sound for one or more repetitions |
| ForgottenRepeats.AlternateSoundExactly | src/query_planner.cc:473-523 | every outcome of alternation is sound for all languages its operands are sound for, if and only if not both operands are anchored on both sides with one of them repeating and no path of either going on where one of the other ends |
| ForgottenRepeats.Merge | src/query_planner.cc:473-523 | plans none of whose paths goes on where one of the other ends have a merged plan without give-ups |
| Runes.EncodeIs | src/query_planner.cc:220-228 | the encoding has one to four bytes by the size of the code point, and the bits of the code point in its bytes |
| IndexWalker.LiteralPlan | src/query_planner.cc:220-228 | a literal's plan is its chain of bytes |
| IndexWalker.CaseFoldLiteral | src/query_planner.cc:234-245 | sound for both cases of a letter |
| IndexWalker.LexRange | src/query_planner.cc:268-283 | the graph built stands for the reference trie of a range, with signed comparison of bytes |
| IndexWalker.LexRangeExactly | src/query_planner.cc:268-283 | that trie has every rune of a non-ASCII range as a path, if and only if the ends differ in the last byte only |
| IndexWalker.CClass | src/query_planner.cc:285-304 | the plan of a class is sound for it: by its ASCII ranges and those beyond whose ends differ in the last byte, or by knowing nothing if it is large or has no ASCII range |
| QueryPlanner.ConcatPair | src/query_planner.cc:328-351 | joined or one of the two kept: sound for the concatenation either way |
| QueryPlanner.ConcatAll | src/query_planner.cc:380-408 | sound for the whole sequence, from whatever start is preferred |
| QueryPlanner.AlternateAll | src/query_planner.cc:598-605 | sound for the union, unless all plans are anchored on both sides and one of them repeats |
| QueryPlanner.Build | src/query_planner.cc:550-645 | by induction on the expression: the plan is sound for what it matches, if no alternation in it forgets a repetition |
| QueryPlanner.ConstructQueryPlan | src/query_planner.cc:538-548 | every string the expression matches has an offset from which the plan accepts, for every outcome of the heuristics, if no alternation in it forgets a repetition |
| ThreadQueues.ThreadQueue.Push | src/lib/thread_queue.h:20-24 | appends, as the threads' steps do; what was pushed is what was popped and what is left, in order |
| ThreadQueues.ThreadQueue.Pop | src/lib/thread_queue.h:32-41 | takes the first element, as the threads' steps do, or reports the end once the queue is closed and empty |
| Workers.StepKeeps | src/codesearch.cc:1322-1385 | every step of the caller, a worker or the file-name searcher keeps the invariant |
| Workers.Always | src/codesearch.cc:1372-1385 | at any moment no chunk has been taken twice, and the result queue is closed only once all results are pushed and nobody holds the job |
| Workers.Delivered | src/codesearch.cc:1322-1348 | when the call returns every chunk was taken by one worker, the queue was closed once, every result was delivered as often as it was found, and nobody refers to the job |
| Workers.RunToEnd | src/codesearch.cc:1322-1385 | from any start there is a run in which the call returns |
| Workers.RunsEnd | src/codesearch.cc:1322-1385 | every run ends, and it ends exactly when the call has returned: nothing hangs |
| Delivery.MatchApart | src/codesearch.cc:1264-1361 | when a call with threads returns, in any interleaving, what it was given are right reports, all findable ones, and none twice, under the same conditions as for one thread |
| Delivery.DeliversAnswers | src/codesearch.cc:1322-1385 | if the results of each chunk are those of its own search, what a finished run has delivered answers the query |
| DumpLoad.DumpAndLoad | src/dump_load.cc:423-619 | if every aligned position is below four gigabytes and all counts fit their fields, a finalized and dumped index is loaded back unchanged, if and only if it has a tree, and has a chunk, or no files, or content records that fill their last chunk |
| DumpLoad.EmptyFileNotLoaded | src/chunk_allocator.cc:105-117 | an index of one tree and one empty file is not loaded back, whatever its content buffer holds |
| Reloading.SearchReloaded | src/dump_load.cc:492-619 | the search of a loaded index, its trees and names built again, answers the query for the index that was dumped |
| DumpLoad.Dump | src/dump_load.cc:285-436 | the file is marked by the eight bytes of its kind and version; every section stands at the offset its header gives, after the header has been rewritten in place, the data of every chunk at a multiple of 16 KB; content chunks with all they hold up to their ends |
| DumpLoad.Load | src/dump_load.cc:515-619 | a file not marked with this kind and version is refused; from any file that stores an index, that index; every pointer check passes if and only if there is a tree, and the walk over the contents stays within the files if and only if nothing was stored after the last record |
| DumpLoad.LoadGroup | src/dump_load.cc:557-571 | back-to-back records of unequal length go to consecutive files, and the walk ends exactly after the last, if and only if nothing follows it |
| DumpLoad.LoadChunk | src/dump_load.cc:492-513 | text, suffixes and ranges of a chunk are read back |
| DumpLoad.AlignExactly | src/dump_load.cc:67-70 | aligning goes to the next page if and only if that is below four gigabytes |
| DumpLoad.RecordsGrow | src/content.h:100-106 | no content record is empty, so the end of a content chunk tells how many there are |
| Images.ValueOfInt | src/dump_load.cc:72-79 | a number that fits its width is read back from its bytes |
| Images.ElementAt | src/dump_load.cc:317-357 | each element of a list stands right after the ones before it |
| DiffRows.SplitRows | server/fileviewer/fileview.go:2064-2624 | fails exactly if the line that ends the hunk is empty; otherwise the rows are the hunk's header and, run by run, each context line in a row of its own with both numbers and between them each run of changes paired; the left cells are the context and deleted lines with consecutive old numbers, the right cells the context and added lines with new ones |
| DiffRows.ParseHunk | server/fileviewer/fileview.go:2064-2186 | the lines up to the first that is none, numbered on both sides from the header's starts; fails exactly if that line is empty |
| DiffRows.RowsFromHunk | server/fileviewer/fileview.go:2474-2537 | each context line is one row with its own numbers, between the rows of the runs of changes before and after it; no cell is lost, repeated or moved on either side |
| DiffRows.ModifiedRows | server/fileviewer/fileview.go:2544-2624 | for d deletions and e additions as many rows as the larger: row i pairs deletion i with addition i as far as both go, and the rest are deletions or additions alone, in order |
| DirectoryTree.BuildDirectoryTree | server/fileviewer/fileview.go:1527-1617 | reading the tree in preorder gives the listing back, for any listing; in a preorder listing every entry hangs under its own directory; popping never passes the root |
| DirectoryTree.AddedLast | server/fileviewer/fileview.go:1594-1613 | a node added under the current directory comes last in every subtree around it |
| DirectoryTree.TopOwns | server/fileviewer/fileview.go:1584-1592 | after popping to an entry's depth the current directory is the one the entry is in |
| Queries.ParseOps | server/query.go:41-147 | the loop computes the reference parse, and the text that remains shrinks with every piece |
| QueryTexts.ValueRun | server/query.go:52-143 | by a grammar of values: characters, escapes and, in regular expressions, balanced groups with spaces and colons in them; such a value is read whole, character for character, up to the next space or the end |
| QueryTexts.MainRun | server/query.go:52-143 | so is a main term, which may hold spaces, and groups after them in a literal too |
| QueryTexts.GroupBalances | server/query.go:82-118 | a group ends with the bracket that closes it, past nested groups and escaped brackets |
| QueryTexts.ParsesPrinted | server/query.go:41-147 | distinct known operators with such values, and such a main term before, between or after them or none, are parsed back |
| QueryTexts.RepeatedKey | server/query.go:74-76 | after any such query an operator that it has already is refused by name |
| QueryTexts.SecondMain | server/query.go:51-60 | a second main term at the end is refused |
| QueryTexts.SecondMainThen | server/query.go:128-136 | before another operator it is refused as not contiguous |
| Queries.ParseQuery | server/query.go:41-215 | text without an operator where one is looked for is the line searched for, quoted outside regular-expression mode; otherwise the query means what its operators say |
| Queries.Finish | server/query.go:149-215 | refused exactly for both of two synonyms, several patterns, or a limit that is no number of 64 bits, of which the low 32 are kept; the pattern is that of the bare term or `case:`, quoted in literal mode, or of `lit:`, always quoted; either synonym is the file pattern; searches by file or tree name exactly if there is no pattern; case is ignored unless `case:`, `lit:` or a capital asks for it |
| Queries.TrimDrops | server/query.go:48-48 | trimming drops white space at both ends, all of it and nothing else |
| Queries.AtoiOfPrinted | server/query.go:203-209 | every number of 64 bits is read back from its decimal form |
| Queries.AtoiOnlyNumbers | server/query.go:203-209 | nothing but a sign or none and digits is read as a number |
| NameSearch.SearchNames | src/codesearch.cc:488-548 | every report is of a file that is asked for and whose path matches; if the buffer is too small for the hits each such file is reported once; otherwise one that has a hit is missed if and only if its only hit is at its first byte and the name before it has one after its first, reported twice if and only if it has hits at and after its first byte and the name before has none after its own, and reported once in all other cases |
| NameSearch.TryFiles | src/codesearch.cc:515-547 | how often each file is tried, for any hits; the search for its start that goes on from the last one finds what a search of all starts would |
| NameSearch.NameMissed | src/codesearch.cc:527-534 | of two names that match, the second of which is one letter, the second is not found |
| NameSearch.NameTwice | src/codesearch.cc:527-534 | a name of two such letters is found twice |
## Left out

- Search.SearchLines: a due line with two consecutive hits 250 bytes or more apart may be scanned twice; how often is left open. Which of the two paths a dense restricted search takes is left open, because it depends on sampled densities.
- Grep.Match: in a query restricted to files or trees, an empty line at which an accepted range ends may be passed over, and so may any empty line that ends a chunk; whether it is depends on how ranges are joined and is left open.
- Scanning.Searcher.FullSearchIn: the exact fate of an empty last line is stated for unrestricted scans from the start of a chunk; in others it is left open.
- Plan statistics, selectivity, `kMaxNodes` and weights (src/query_planner.cc:32-96, src/query_planner.cc:319-326): whatever depends on them is an arbitrary choice.
- The match limit, the deadline, timers and metrics: the search is never cut short.
- The transform callback and the match bounds within a line (src/codesearch.cc:1137-1172).
- NameSearch.SearchNames: the hits are a parameter, sorted positions in names as the code asserts them to be; the suffix array of the names is not modelled, and that every name that matches has a hit is a condition. What is read past the last start is taken to be no position in a name. The tree-name searcher (src/codesearch.cc:426-486) is the same loop.
- Workers.Delivered: the protocol has the file-name searcher as a thread with given results. Calls that search names only.
- Scanning without an index (`FLAGS_index` off), and without deduplication of the suffix arrays' buffers between threads.
- RE2, divsufsort and std::sort: an oracle, a sorted permutation as a parameter, and an insertion sort in their place.
- Pointers into chunk memory: a stored line is a chunk number, an offset and a length.
- Finishing chunks in the background while files are still being indexed: suffix arrays are built at the end.
- DumpLoad.DumpAndLoad: files below 2^64 bytes; the metadata of trees is an uninterpreted string; an index that is written while it is built (src/dump_load.cc:95-181) is not modelled.
- DirectoryTree.BuildDirectoryTree: nodes are indices into an arena instead of pointers, a line is an entry or none, and sizes, modes and hashes are left out.
- DiffRows.ParseHunk: the header's numbers are parameters; the flags for a missing newline, which are written to a slice that is not the hunk's, and the header of the next hunk, which is kept, are left out.
- Queries.ParseQuery: text is a sequence of characters, so valid UTF-8 only; quoting is a parameter that leaves the empty string empty.
- Scoring, link building, HTTP handlers and the rest of the web server.
- Several calls at once on the same workers.
