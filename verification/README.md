# Verified model of OpenLAD's deterministic core

OpenLAD ingests documents into pages, sections and chunks, and later fits retrieved text into a
character budget. This project models the deterministic code between the I/O and the model calls,
and proves what it promises. Each source file or component has one module; loops of the program
are methods with loops, objects whose fields are updated are classes, and every such method is
proved equal to a reference function about which the promises are then proved as lemmas.
`dafny verify dfyconfig.toml` checks everything.

- **Options**, **Numbers**, **Text**: absent values; the greater and the lesser of two numbers; lines,
  whitespace and the non-whitespace content of a text, and `FlatMap` with its laws; content conservation
  everywhere means equality of non-whitespace content.
- **PeriodTrim**, **OcrCleanup**: the cleanup of degenerate OCR tails. The periodic cut is lossless
  up to repetition, uses the least period, and is *not* idempotent (exactly when a second pass cuts
  again is proved); the numbered cut removes only lines that look degenerate, and the report about both
  is exact.
- **LineChunker**, **StructureChunker**: the two text chunkers. **StructureProperties**, **ChunkSizes**,
  **ChunkBreaks**, **ChunkReread**, **ChunkContents**: the fate of over-large tables, the length of every
  chunk, where chunks begin and end, what becomes of a chunk that is split once more, and what chunks
  repeat.
- **Passages**, **ChunkPassages**, **StructurePassages**: chunks as disjoint passages of a text, in order,
  with only whitespace between them.
- **Accounts**, **ChunkAccounts**: accounts of all content of a text. An account takes the content, in
  order, apart into the own parts of exactly the chunks and the lost tables; what a chunk shows before
  its own part are passages that earlier parts have as their own.
- **SectionChunks**, **SectionProperties**, **SpanRuns**, **ChunkLimits**, **PageContents**: assembling a
  document's chunks section by section, their storage keys, which pages share a chunk and which of them
  it is keyed by, when a chunk is over the size limit, what a document's chunks show of its pages, and the
  account of a page of any length.
- **EmbeddingStore**: batch embedding and storage under arbitrary failures, which failures each counter
  counts, and which vectors stay behind without a row.
- **TenantStore**: the tables of a tenant as two classes, and what every reachable state satisfies.
- **IngestProtocol**, **IngestProperties**, **FactoryProtocol**: the per-tenant ingestion lock and the
  database cache as state machines over all interleavings of threads.
- **PageCoverage**, **RunMerge**, **TocSections**: section intervals from page labels and from a table
  of contents, and the greedy filling of uncovered pages.
- **StepQuotas**, **Merger**, **Executor**: the context budget, from the quotas of a plan's steps to the
  final context. **TruncationSignal**: which cuts the detector finds in that context.
- **PackMerge**, **Ranges**: composition of configuration packs, and the printed form of number ranges.

What the program asks of regular expressions and of `SequenceMatcher` (does this text open a heading,
is it a table row, a separator; the body of a numbered line; are two bodies similar) is a function
parameter, so the results hold for any answers. Of the heading pattern only this is used: it matches the
beginning of a line (`core/ingestion/parser.py:1862-1869`). Failures of embedding and storage calls, and whether an index
insert succeeds, are parameters as well. Ratios configured as floating-point numbers are exact
rationals.

Where code, comments and tests disagree the model follows the code:

- `tests/test_merge_truncation_marker.py:10-12` calls the merger's final cut unreachable.
  `Merger.FinalCutIff` says from header lengths, page sizes, share and limit exactly when it acts, and
  `Merger.FinalCutReachable` gives two documents, with headings, page sizes and share as the program
  and its configuration produce them, that end 12 characters over a limit of 12000.
- `core/ingestion/structure_text_rules.py:116-118` describes a following section that is closer than the
  preceding one. `PageCoverage.FollowingNeverCloser` shows that this never happens, and
  `PageCoverage.PartitionIff` shows when filling makes sections overlap instead.
- `core/ingestion/parser.py:1914` says that large tables keep their header. A large table with header
  rows only (at most two rows, or its first separator is the last row) is lost exactly when the rest of
  the text gives at least two chunks
  (`ChunkContents.TableLostIff`; `StructureProperties.LargeRowLost` are texts that lose a row). When it
  gives one chunk or none, the program splits the text by lines instead and keeps the table.
- `core/ingestion/parser.py:1795-1803` promises to keep lines whole. The overlap repeats a fragment of a
  line whenever the last line of the previous chunk is longer than the overlap
  (`LineChunker.OverlapWholeIff`, `LineChunker.OverlapStartsMidLine`).
- `core/ingestion/builder.py:1953-1957` bounds every merged chunk by the limit. A chunk can be a fifth
  longer, or exceed the limit by the overlap, and never more than the greater of the two
  (`SectionProperties.GroupSpansBound`); both happen (`ChunkLimits.RowOverLimit`,
  `ChunkLimits.OverlapOverLimit`), and `ChunkLimits.OverLimitIff` says exactly when there is such a chunk.
- `core/ingestion/builder.py:1652-1653` says that bookmark sections cover the document. Pages before the
  first bookmark are in no section (`TocSections.PageInSectionIff`, `TocSections.FirstPagesUncovered`).
- `core/ingestion/builder.py:2124-2137` keeps the kind of the last failed call. When a later call
  succeeds with a wrong number of vectors, the rows are counted under that kind
  (`EmbeddingStore.BlameIff`, `EmbeddingStore.TimeoutBlamedForWrongCount`).
- `core/ingestion/builder.py:391-393` falls back to the stored hash when a build is given none. A direct
  build removes that row before it reads it, so the hash is kept only when the removal fails and nobody
  deletes the row in between (`IngestProperties.DirectBuildHash`, `IngestProperties.StoredHashLost`).
- `core/retrieval/executor.py:138-141` slices a step to its quota, which can cut into the marker of the
  merger (`TruncationSignal.SliceSeenIff`). The cut stays visible all the same, because a merge that is
  cut at its end contains an earlier marker (`TruncationSignal.FinalCutSeen`). What is invisible is a
  page that is left out whole (`TruncationSignal.PageLeftOutUnseen`) or shown as an excerpt within its
  cap (`Merger.UnmarkedExcerptIff`), and a document that is left out whole
  (`TruncationSignal.DroppedUnseenIff`).

## Model

| member | source | states |
|---|---|---|
| `PeriodTrim.MatchLength` | core/ingestion/parser.py:138-142 | the inner loop counts exactly the characters, leftwards from the end, that equal the one a unit before them |
| `PeriodTrim.TryPeriod` | core/ingestion/parser.py:136-147 | a unit length hits exactly when its longest periodic tail meets both thresholds, and then yields that cut |
| `PeriodTrim.TrimExactPeriodRepeats` | core/ingestion/parser.py:120-148 | the scan over unit lengths computes `Trimmed`: the cut by the least qualifying period, or the text |
| `PeriodTrim.TailLengthMaximal` | core/ingestion/parser.py:138-143 | no tail with that period is longer than the one the loop measures |
| `PeriodTrim.QualifiesIff` | core/ingestion/parser.py:135-147 | a period meets the thresholds exactly when some tail longer than one unit repeats it often enough |
| `PeriodTrim.LeastPeriod` | core/ingestion/parser.py:135 | the chosen period qualifies and no smaller one does |
| `PeriodTrim.CutIsPrefix` | core/ingestion/parser.py:144-147 | the two slices joined are the input without its last repeats-1 units |
| `PeriodTrim.CutIsLossless` | core/ingestion/parser.py:144-147 | the input is the result followed by repeats-1 copies of the result's own last unit |
| `PeriodTrim.TrimIsLossless` | core/ingestion/parser.py:120-148 | whenever text changes, it is restored from the result, with the least period that meets the thresholds |
| `PeriodTrim.TrimIsPrefix` | core/ingestion/parser.py:120-148 | the result is always a prefix of the input |
| `PeriodTrim.TrimmedIff` | core/ingestion/parser.py:131-148 | text changes exactly when it is long enough and some period qualifies |
| `PeriodTrim.CutPeriodSpent` | core/ingestion/parser.py:146-147 | a period that was cut never qualifies again on the result |
| `PeriodTrim.SecondPassIff` | core/ingestion/parser.py:120-148 | a second pass changes the result exactly when what the first one keeps is still long enough and ends in repeats of another period, both read off the first text |
| `PeriodTrim.SecondPassCanCut` | core/ingestion/parser.py:120-148 | the pass is not idempotent: on a concrete text a second pass cuts a longer period exposed by the first |
| `OcrCleanup.NumberedTail` | core/ingestion/parser.py:168-186 | the upward scan over blank, numbered and stub lines computes `Scan` |
| `OcrCleanup.LongestBody` | core/ingestion/parser.py:187-190 | `max(bodies, key=len)` is the first longest body |
| `OcrCleanup.SimilarBodies` | core/ingestion/parser.py:191-203 | the similar lines, in order |
| `OcrCleanup.SkipIntroducers` | core/ingestion/parser.py:210-222 | the nested loop computes `IntroducerStart`; it terminates because the cut line strictly moves up |
| `OcrCleanup.TrimNumberedPseudoRepeats` | core/ingestion/parser.py:151-223 | the whole pass equals `Trimmed`, including both majority branches |
| `OcrCleanup.CleanOcrTranscription` | core/ingestion/parser.py:271-294 | text, character count and pass names of the composed cleanup |
| `OcrCleanup.ScanShape` | core/ingestion/parser.py:169-186 | collected indices ascend and belong to numbered lines; every line from the first on is blank, numbered, or a stub below all of them |
| `OcrCleanup.IntroducersPassed` | core/ingestion/parser.py:204-222 | the cut moves past exactly the adjacent block of lead-ins and blank lines |
| `OcrCleanup.IntroducerBlockUnique` | core/ingestion/parser.py:204-222 | only one line satisfies that description |
| `OcrCleanup.IntroducerIff` | core/ingestion/parser.py:204-222 | a lead-in is a line whose last character that is not whitespace is a colon |
| `OcrCleanup.OnlyDegenerationCut` | core/ingestion/parser.py:199-223 | every removed line is blank, numbered, a lead-in, or a stub |
| `OcrCleanup.CutIff` | core/ingestion/parser.py:167-203 | there is a cut exactly when, among the numbered lines of the tail, the first longest body has at least 40 characters and at least four lines have a body similar to it; it starts at the first line of the tail when half of it is similar, else at the first similar line |
| `OcrCleanup.CutPlace` | core/ingestion/parser.py:199-222 | a degenerate tail has a line where the repeats start and a block of lead-ins above it |
| `OcrCleanup.TrimmedText` | core/ingestion/parser.py:167-223 | the text changes exactly when its tail is degenerate, and then becomes the lines above the block of lead-ins above the repeats, with one newline after them |
| `OcrCleanup.UpperKept` | core/ingestion/parser.py:223 | every line above the cut is in the result as it was, up to whitespace at the very end |
| `OcrCleanup.NumberedCutShortens` | core/ingestion/parser.py:223 | a changed text is shorter, and up to trailing whitespace a prefix of the input |
| `OcrCleanup.CleanupReportExact` | core/ingestion/parser.py:271-294 | length never grows, the result is a prefix up to trailing whitespace, characters were removed iff a pass is named, no pass iff unchanged |
| `OcrCleanup.CleanupText` | core/ingestion/parser.py:271-294 | the cleaned text is what the periodic cut leaves, changed exactly when that has a degenerate tail, and then only its lines above the repeats and their lead-ins |
| `OcrCleanup.PassesNameChanges` | core/ingestion/parser.py:284-290 | each pass is named exactly when it changed its own input |
| `LineChunker.SliceLine` | core/ingestion/parser.py:1822-1825 | an unbreakable line is emitted as its stripped slices |
| `LineChunker.PackLines` | core/ingestion/parser.py:1804-1831 | the greedy loop with its flush computes the base chunks |
| `LineChunker.OverlapChunks` | core/ingestion/parser.py:1835-1843 | the loop puts the overlap tail of the chunk before it in front of each further chunk |
| `LineChunker.ChunkOnLineBoundaries` | core/ingestion/parser.py:1793-1844 | both stages together |
| `LineChunker.LinesKeptWhole` | core/ingestion/parser.py:1795-1803 | every line that fits lies whole in exactly one block, only longer lines are sliced, all in text order |
| `ChunkPassages.BaseChunksPassages` | core/ingestion/parser.py:1793-1831 | the base chunks are, in order, disjoint passages of the text with only whitespace between them; each is consecutive lines as they stand in the text, stripped, or a stripped slice of an over-long line |
| `LineChunker.BaseChunksFit` | core/ingestion/parser.py:1817-1831 | without overlap chunks are non-empty, stripped, within the size, and greedily packed |
| `LineChunker.OverlapKeepsChunks` | core/ingestion/parser.py:1833-1843 | with overlap each output is a tail of the previous base chunk, then its own base chunk, and exceeds the size by at most overlap+1 |
| `LineChunker.OverlapTailLongest` | core/ingestion/parser.py:1835-1840 | the overlap is the last characters when none of them is a newline, and otherwise the longest run of whole last lines shorter than that |
| `LineChunker.OverlapWholeIff` | core/ingestion/parser.py:1837-1840 | the overlap consists of whole last lines exactly when the chunk is no longer than the overlap, its last characters contain a newline, or they start just after one |
| `LineChunker.OverlapStartsMidLine` | core/ingestion/parser.py:1835-1843 | any two words that do not fit one chunk together: the second chunk starts with a fragment of the first word |
| `LineChunker.ContentConserved` | core/ingestion/parser.py:1793-1844 | base chunks carry the non-whitespace content of the text, nothing lost, repeated or reordered |
| `StructureChunker.ReadRun` | core/ingestion/parser.py:1900-1903 | the maximal run of table lines from a position |
| `StructureChunker.SplitTable` | core/ingestion/parser.py:1918-1945 | header detection at the first separator, or two rows, and the sub-tables |
| `StructureChunker.EmitSubTables` | core/ingestion/parser.py:1929-1945 | the greedy loop over data rows emits the sub-tables of the reference definition |
| `StructureChunker.EmitPieces` | core/ingestion/parser.py:1955-1963 | an over-long line is added piece by piece, blank pieces skipped, with flushes in between |
| `StructureChunker.AddSegment` | core/ingestion/parser.py:1892-1966 | each branch (heading, small table, large table, line) takes the open chunk to the reference state |
| `StructureChunker.ChunkByStructure` | core/ingestion/parser.py:1846-1970 | the walk over the lines computes `StructureChunks`, with the text itself as fallback |
| `StructureProperties.TextIsRead` | core/ingestion/parser.py:1886-1967 | the segments joined are the text, and each is what its kind says |
| `ChunkBreaks.RunsMaximal` | core/ingestion/parser.py:1900-1903 | a run of table lines ends only where the next line belongs to no table |
| `ChunkBreaks.ElementsFromText` | core/ingestion/parser.py:1892-1966 | every chunk consists of lines and tables as they were read; only a line over the limit is sliced, into slices of exactly the limit and the rest |
| `StructureProperties.ContentShown` | core/ingestion/parser.py:1846-1970 | the chunks show the content of the segments in order, each over-large table replaced by its sub-tables; if that is nothing, they show the whole text |
| `StructureProperties.ContentConserved` | core/ingestion/parser.py:1846-1970 | without an over-large table the content of the text is conserved exactly |
| `StructurePassages.StructureChunksPassages` | core/ingestion/parser.py:1846-1970 | the chunks are, in order, disjoint passages, with only whitespace between them, of the text in which each over-large table is replaced by its sub-tables |
| `StructurePassages.TextPassages` | core/ingestion/parser.py:1846-1970 | without an over-large table they are such passages of the text itself |
| `ChunkBreaks.HeadingsOpenChunks` | core/ingestion/parser.py:1892-1898 | no line read as a heading, and no table that begins with one, stands behind the first element of a chunk |
| `ChunkBreaks.TableWholeIff` | core/ingestion/parser.py:1900-1913 | a run of table lines is in one chunk as a whole exactly when it has at most one and a half times the limit |
| `ChunkBreaks.ChunksClosed` | core/ingestion/parser.py:1872-1966 | in a text without an over-large table or line a chunk is followed by another only when the next element does not fit any more or is a heading |
| `StructureProperties.TableSplitsIntoBlocks` | core/ingestion/parser.py:1914-1945 | the header ends with the first separator, or else after two rows; the sub-tables partition the rows behind it in order, each begins with the full header, is within the limit unless it is a single row, and ends only where the next row no longer fits |
| `StructureProperties.FallbackIff` | core/ingestion/parser.py:1967-1970 | nothing is emitted, so the text itself is returned, exactly when it consists of blank lines and over-large tables that end with their first separator or have at most two rows and no earlier one |
| `StructureProperties.TableDroppedIff` | core/ingestion/parser.py:1924-1970 | an over-large table contributes nothing to the structure chunks exactly when its first separator is its last row, or it has at most two rows and no earlier one, and something else is emitted |
| `ChunkContents.TableLostIff` | core/ingestion/parser.py:1785-1791 | through the entry point it is lost exactly when its first separator is its last row, or it has at most two rows and no earlier one, and at least two chunks are emitted |
| `StructureProperties.LargeRowLost` | core/ingestion/parser.py:1785-1791 | any large table of one row between two lines is lost: the two lines are all the chunks, whatever the overlap |
| `ChunkSizes.ChunkLengthBound` | core/ingestion/parser.py:1846-1970 | every chunk is the text of an emitted group and no longer than the text: within max + its number of tables, or one heading line, or one table of at most 1.5 max, or a header with one row, or the text itself when nothing is emitted; only a heading line or a header with one row exceeds 1.5 max |
| `ChunkReread.GroupStays` | core/ingestion/parser.py:1846-1970 | a chunk over the limit that is read again is one chunk again, unless it is a single line |
| `ChunkReread.OneChunkStays` | core/ingestion/parser.py:1846-1970 | a text without inner headings whose lines and tables fit the limit together gives at most one chunk |
| `ChunkReread.SecondSplitBound` | core/ingestion/builder.py:2006-2014 | splitting a chunk over the limit once more by structure gives one chunk, or pieces within the limit |
| `ChunkSizes.SimpleChunksBound` | core/ingestion/parser.py:1785-1791 | the entry point: within size and overlap, or a chunk by structure with its shape and length |
| `ChunkContents.LineChunkContent` | core/ingestion/parser.py:1793-1844 | each chunk shows a tail of at most overlap characters of the chunk before it, then its own part; the own parts are the whole text |
| `ChunkContents.TableShown` | core/ingestion/parser.py:1914-1945 | an over-large table is shown as blocks that together are the rows behind the header, the rows up to the first separator or the first two, each block behind the whole header |
| `ChunkAccounts.LineChunksAccount` | core/ingestion/parser.py:1793-1844 | an account of exactly the line chunks in which nothing is lost and each chunk repeats exactly its overlap |
| `ChunkAccounts.StructureChunksAccount` | core/ingestion/parser.py:1846-1970 | an account of exactly the structure chunks and exactly the over-large header-only tables of the text (none when nothing else is emitted), in which nothing is repeated but a table's header before its own later blocks |
| `Accounts.NothingInvented` | core/ingestion/parser.py:1785-1970 | in any account a source shows no character that is not content |
| `Accounts.NothingMissing` | core/ingestion/parser.py:1785-1970 | in any account the sources together hold at least all of the content |
| `ChunkAccounts.SimpleChunksAccount` | core/ingestion/parser.py:1785-1844 | the same through the entry point: the tables are lost only when the structure gives the chunks, and otherwise nothing is |
| `ChunkContents.SimpleChunksContent` | core/ingestion/parser.py:1785-1791 | the entry point shows the content of the structure, or the line chunks, or the text itself |
| `SectionChunks.PushKept` | core/ingestion/builder.py:1979-1982 | stripped sub-chunks of at least 20 characters are kept, under the page's key |
| `SectionChunks.GatherPages` | core/ingestion/builder.py:1959-2002 | merging pages up to the limit, splitting an over-long page at once |
| `SectionChunks.ResplitSpans` | core/ingestion/builder.py:2004-2017 | texts over 1.2 times the limit are split again |
| `SectionChunks.MergeSpans` | core/ingestion/builder.py:2019-2025 | the last merge, which keeps the first chunk's page |
| `SectionChunks.ProcessSectionChunks` | core/ingestion/builder.py:1939-2032 | the whole step appends the group's numbered chunks |
| `SectionChunks.CollectChunks` | core/ingestion/builder.py:2056-2105 | the grouping loop and the limit on the number of chunks |
| `SectionChunks.SectionsNotMixed` | core/ingestion/builder.py:2069-2089 | a group holds pages of one named section or of none, is labelled by its last page, and is closed once it exceeds twice the chunk size |
| `SectionChunks.PagesHandedOnce` | core/ingestion/builder.py:2062-2096 | the groups joined are exactly the pages with enough text, each once, in order |
| `SectionChunks.GroupsClosed` | core/ingestion/builder.py:2069-2096 | a group is followed by another only when it exceeds twice the chunk size or the next page has another section |
| `SectionChunks.GroupKeys` | core/ingestion/builder.py:2027-2032 | chunks of a group are numbered from 0, labelled with the group's section, keyed by a page of the group, and carry exactly the texts and pages of its spans |
| `SpanRuns.GroupRuns` | core/ingestion/builder.py:1959-2025 | what the pages contribute falls into consecutive runs, one per chunk: a chunk is its run's texts joined by newlines, keyed by the page the run begins with; a run of several parts fits the limit, and no two neighbouring chunks would |
| `SpanRuns.AtomsKeyed` | core/ingestion/builder.py:1972-2017 | what a page contributes, its stripped text or its pieces, is keyed by that page |
| `SpanRuns.PagesGathered` | core/ingestion/builder.py:1985-1998 | between pages over the limit, pages are gathered from the first on, each run as long as fits |
| `SpanRuns.LongPageParts` | core/ingestion/builder.py:1970-1983 | a page over the limit parts the pages before it from those behind it, and its kept pieces stand alone between them |
| `SpanRuns.MergeRuns` | core/ingestion/builder.py:2019-2025 | in the last merge small chunks are joined from the first on, each with as many as fit |
| `SectionChunks.VectorKeysDistinct` | core/ingestion/builder.py:2027-2105 | all (page id, index) keys of a document are distinct although numbering restarts per group, and every page id is one of the document's |
| `SectionProperties.GroupContent` | core/ingestion/builder.py:1939-2032 | merging, splitting again and merging small chunks show page after page what each page alone would show |
| `SectionProperties.FittingGroupConserved` | core/ingestion/builder.py:1964-2032 | pages that fit the limit are carried exactly |
| `SectionProperties.DocumentContent` | core/ingestion/builder.py:2056-2105 | the chunks of a document show page after page what each page with enough text alone would show, up to the limit on their number |
| `SectionProperties.OverlongPageShown` | core/ingestion/builder.py:1972-2017 | a page over the limit shows its pieces in order: nothing of a piece under 20 characters, all of any other, or all of its own pieces but those under 20 |
| `PageContents.OverlongPageAccount` | core/ingestion/builder.py:1972-2017 | an account of exactly the pieces of a page over the limit, those split again replaced by their own pieces, and exactly the tables the splits lose; a piece is lost exactly when it is under 20 characters, the others are the page's spans, and at most two passages are repeated before an own part |
| `SectionProperties.GroupSpansBound` | core/ingestion/builder.py:1953-2032 | whatever the pages, no chunk exceeds six fifths of the limit, or the limit, the overlap and 1 |
| `ChunkLimits.OverLimitIff` | core/ingestion/builder.py:1953-2032 | a group has a chunk over the limit exactly when a page over the limit has a piece over it by at most a fifth, or one with a second piece over it |
| `ChunkLimits.SecondOverNeedsOverlap` | core/ingestion/builder.py:2006-2017 | without overlap only the pieces over the limit by at most a fifth count |
| `ChunkLimits.RowOverLimit` | core/ingestion/builder.py:1972-2008 | a line and a table row over the limit by at most a fifth: the row is a chunk |
| `ChunkLimits.OverlapOverLimit` | core/ingestion/builder.py:1972-2008 | a table row of twice the limit: a chunk has exactly the limit, the overlap and 1 |
| `SectionProperties.FittingGroupShort` | core/ingestion/builder.py:1953-2032 | when every page fits, no chunk exceeds the limit |
| `SectionProperties.MergedWithinLimit` | core/ingestion/builder.py:2019-2025 | a chunk over the limit after the last merge was there before it |
| `ChunkLimits.OverKept` | core/ingestion/builder.py:2019-2025 | and one that was there before it stays as it is |
| `SectionProperties.MergeIsGreedy` | core/ingestion/builder.py:2019-2025 | after the last merge no two neighbours would fit one chunk |
| `EmbeddingStore.EmbedBatch` | core/ingestion/builder.py:2114-2132 | at most three calls, a rejection ends them, the last failure's kind is kept |
| `EmbeddingStore.EmbeddingOutcome` | core/ingestion/builder.py:2114-2132 | what up to three calls come to, told from the calls: vectors, a rejection after retried failures, or only failures; the kind kept is that of the last failure before the answer |
| `EmbeddingStore.LostToIff` | core/ingestion/builder.py:2114-2137 | a batch counts for a kind exactly when a call was rejected, or all calls failed and the last in this way, or a call gave a wrong number of vectors right after a failure of this kind |
| `EmbeddingStore.BucketsExact` | core/ingestion/builder.py:2107-2175 | over all batches each embedding bucket is the rows lost to its kind, and the store bucket the embedded rows whose own store failed after their batch had failed |
| `EmbeddingStore.BlameIff` | core/ingestion/builder.py:2114-2137 | a batch is counted under another cause than its own exactly when a wrong number of vectors came right after a timeout |
| `EmbeddingStore.TimeoutBlamedForWrongCount` | core/ingestion/builder.py:2114-2137 | such calls: a timeout, then no vector for one row |
| `EmbeddingStore.StoreOneByOne` | core/ingestion/builder.py:2155-2175 | every row reaches the metadata table once or is counted as failed |
| `EmbeddingStore.StoreBatch` | core/ingestion/builder.py:2150-2175 | two transactions, row by row exactly when one of them fails; a failed batch leaves no metadata row behind |
| `EmbeddingStore.EmbedAndStore` | core/ingestion/builder.py:2110-2175 | one batch: all its rows are stored or counted in the bucket its fate names |
| `EmbeddingStore.StoreRows` | core/ingestion/builder.py:2107-2175 | the batch loop: stored plus buckets equals rows, and each bucket is the sum over the batches lost to it |
| `EmbeddingStore.StoreEmbeddings` | core/ingestion/builder.py:2107-2196 | for every sequence of failures the accounting is exact, a loss warning appears iff something was lost, and the stored chunks are written once, in order |
| `EmbeddingStore.SavedChunksRows` | core/db/tenant_db.py:579-613 | stored rows get consecutive new ids and older rows are untouched |
| `EmbeddingStore.SavedChunksIndex` | core/db/tenant_db.py:579-613 | a stored row is in the full-text index under its id exactly when it has text and its index insert went through; older index rows are untouched |
| `EmbeddingStore.StoredChunkRow` | core/ingestion/builder.py:2144-2175 | each metadata row that is written carries its chunk's page, index, section and text |
| `EmbeddingStore.NoChunkStoredTwice` | core/ingestion/builder.py:2144-2175 | no chunk ever has two metadata rows, whatever failed in between |
| `EmbeddingStore.SentVectorsIntact` | core/db/tenant_db.py:1117-1126 | a vector that was sent is there under its page id and index, with its own text; replacing only replaces a chunk by itself |
| `EmbeddingStore.DocumentVectorsIntact` | core/ingestion/builder.py:2027-2175 | assembly and storage together: no vector of a document overwrites another chunk |
| `EmbeddingStore.AssembledVectorsAllowed` | core/ingestion/builder.py:2027-2152 | assembly sends vectors only under page ids issued for the document |
| `EmbeddingStore.OrphanVectorIff` | core/ingestion/builder.py:2150-2175 | a vector stays behind without a metadata row exactly when its batch could not be stored as a whole, its row failed, and one of the two stores of the vector went through |
| `TenantStore.TenantMetadataDB.constructor` | core/db/tenant_db.py:76-103 | a new database is empty and its row ids start at 1 |
| `TenantStore.TenantMetadataDB.SaveDocument` | core/db/tenant_db.py:313-340 | insert or update by id; a hash that is not passed keeps its value, or is empty in a new row |
| `TenantStore.TenantMetadataDB.GetDocumentByHash` | core/db/tenant_db.py:347-350 | a document with the hash, or the certainty that there is none |
| `TenantStore.TenantMetadataDB.SavePage` | core/db/tenant_db.py:515-545 | a fresh row id, and an index row only for a page with text |
| `TenantStore.TenantMetadataDB.SaveChunk` | core/db/tenant_db.py:560-577 | one chunk and its index row in one transaction |
| `TenantStore.TenantMetadataDB.SaveChunks` | core/db/tenant_db.py:579-613 | all chunks of a batch with consecutive ids, or none when a row raises |
| `TenantStore.TenantMetadataDB.SaveStructureIndex` | core/db/tenant_db.py:792-814 | replaces the section with the same document, path and present start page |
| `TenantStore.TenantMetadataDB.DeleteIndexRows` | core/db/tenant_db.py:456-457 | index rows are removed through the rows they belong to, before those go |
| `TenantStore.TenantMetadataDB.DeleteRows` | core/db/tenant_db.py:458-463 | the document's rows leave every table |
| `TenantStore.TenantMetadataDB.DeleteDocument` | core/db/tenant_db.py:454-467 | one transaction: everything, or on failure nothing and false |
| `TenantStore.TenantVectorDB.StoreL2Chunk` | core/db/tenant_db.py:1079-1098 | insert or replace on (page id, index); an error is swallowed |
| `TenantStore.TenantVectorDB.StoreL2Chunks` | core/db/tenant_db.py:1100-1132 | all rows in order, or none and it raises |
| `TenantStore.TenantVectorDB.DeleteDocVectors` | core/db/tenant_db.py:1183-1196 | removes the document's vectors, or on failure none |
| `TenantStore.ApplyConsistent` | core/db/tenant_db.py:515-613 | every committed transaction keeps indexes, counters, section identity and page ownership consistent |
| `TenantStore.ReachableConsistent` | core/db/tenant_db.py:515-613 | hence so does every run of transactions |
| `TenantStore.FreshReachable` | core/db/tenant_db.py:454-613 | in every state reachable from empty databases, index rows match live rows and a vector row never points at another document's page |
| `TenantStore.DeletionComplete` | core/db/tenant_db.py:454-464 | deletion leaves no row of the document in any table or index, and the indexes in agreement |
| `TenantStore.DeletionPrecise` | core/db/tenant_db.py:454-464 | rows and index rows of every other document are kept unchanged |
| `TenantStore.DeadPagesStayDead` | core/db/tenant_db.py:102-103 | a page id that is gone is never issued again, so a stale vector never resolves |
| `IngestProtocol.DocumentIndexBuilder.IngestLock` | core/ingestion/builder.py:103-116 | get or create: the same lock object for a tenant ever after |
| `IngestProtocol.InvariantKept` | core/ingestion/builder.py:95-116 | every step of every thread keeps the lock table, guard, ownership, stack and hash invariants |
| `IngestProtocol.ReachableInvariant` | core/ingestion/builder.py:95-260 | they hold in every reachable state of every interleaving |
| `IngestProtocol.MutualExclusion` | core/ingestion/builder.py:156-160 | two threads inside the section have different tenants |
| `IngestProperties.OneThreadPerTenant` | core/ingestion/builder.py:156-160 | at most one thread is inside an ingest or build of a tenant, over all interleavings |
| `IngestProperties.LockNeverReplaced` | core/ingestion/builder.py:111-116 | a tenant's lock stays the same however the run goes on |
| `IngestProperties.OneLockPerTenant` | core/ingestion/builder.py:95-116 | two calls refer to one lock exactly when they are of one tenant |
| `IngestProtocol.UniqueKept` | core/ingestion/builder.py:205-213 | every write of a document row keeps file hashes unique per tenant |
| `IngestProperties.OneDocumentPerHash` | core/ingestion/builder.py:174-213 | no tenant ever has two documents of one file hash |
| `IngestProperties.NoFileIngestedTwice` | core/ingestion/builder.py:177-213 | the duplicate check is still right when the row is written |
| `IngestProperties.DirectBuildForgetsHash` | core/ingestion/builder.py:391-439 | a build inside an ingest writes the file's hash; a direct build that removed the old row writes none |
| `IngestProperties.DirectBuildHash` | core/ingestion/builder.py:243-439 | over all interleavings a direct build loses the stored hash exactly when its removal of the row succeeded or the row was deleted before it was read |
| `IngestProperties.StoredHashLost` | core/ingestion/builder.py:243-439 | a reachable state in which a stored hash is gone: an unconfirmed ingest, then a direct build |
| `IngestProperties.ConfirmedIngest` | core/ingestion/builder.py:156-260 | from any reachable state at rest, a confirmed ingest of a new file runs its build inside, with the lock held twice, and ends with the document stored under its hash and the lock free |
| `IngestProperties.NestedBuildNeverBlocks` | core/ingestion/builder.py:250-260 | a build inside an ingest never waits for its tenant's lock |
| `IngestProperties.OwnerReady` | core/ingestion/builder.py:156-160 | the owner of a tenant's lock can go on unless it needs the guard; releasing never raises |
| `IngestProperties.NoDeadlock` | core/ingestion/builder.py:103-116 | while a call is in progress some thread can take its next step |
| `IngestProperties.StepsShrink` | core/ingestion/builder.py:139-260 | every access of a thread brings its call closer to its end |
| `IngestProperties.CallsAreBounded` | core/ingestion/builder.py:139-260 | over any run a call takes boundedly many accesses of its own thread |
| `FactoryProtocol.OneInstancePerTenant` | core/db/tenant_db.py:1227-1240 | while a tenant's entry is never cleared, one pair of databases is made for the cache and every caller gets it |
| `FactoryProtocol.LookupNeverRaises` | core/db/tenant_db.py:1240 | and then the lookup after the lock never fails |
| `FactoryProtocol.CachedNeverWaits` | core/db/tenant_db.py:1227-1240 | a call for a tenant in the cache never waits for the lock and returns the cached pair |
| `FactoryProtocol.SoundKept` | core/db/tenant_db.py:1229-1240 | every step, also clearing other tenants, keeps the cache sound for the tenant |
| `FactoryProtocol.EntryGoneIff` | core/db/tenant_db.py:1229-1250 | over any run an entry is gone exactly when it was cleared and not put again |
| `FactoryProtocol.LookupRaisesIff` | core/db/tenant_db.py:1227-1250 | over all runs the lookup raises exactly when the entry was cleared after the caller last found or put it, with no later put |
| `FactoryProtocol.ClearingRaises` | core/db/tenant_db.py:1240-1250 | a run in which clearing between release and lookup makes the lookup raise |
| `PageCoverage.CoveredPages` | core/ingestion/structure_text_rules.py:131-134 | exactly the pages from 1 on that some interval contains |
| `PageCoverage.LastBefore` | core/ingestion/structure_text_rules.py:138 | the first section with the greatest end before the page |
| `PageCoverage.FirstAfter` | core/ingestion/structure_text_rules.py:139 | the first section with the least start after the page |
| `PageCoverage.EnsurePageCoverage` | core/ingestion/structure_text_rules.py:112-154 | gaps computed first, filled one by one in place, then sorted: equals `Coverage` |
| `PageCoverage.CoverageInvariantHolds` | core/ingestion/structure_text_rules.py:157-166 | true exactly when every page is covered |
| `PageCoverage.SortCorrect` | core/ingestion/structure_text_rules.py:153 | a permutation, ascending in the start page, stable |
| `PageCoverage.CoverageInvariant` | core/ingestion/structure_text_rules.py:112-154 | for any intervals with start at most end every page is covered, the result is sorted, and sections keep their count, labels and own pages |
| `PageCoverage.FollowingNeverCloser` | core/ingestion/structure_text_rules.py:140-144 | a gap page with a preceding section always joins it, whose end is the page just before |
| `PageCoverage.ForwardFill` | core/ingestion/structure_text_rules.py:136-148 | for ordered disjoint sections the greedy loop equals a closed-form forward fill |
| `PageCoverage.CoverageClosedForm` | core/ingestion/structure_text_rules.py:112-154 | and so does the whole operation |
| `PageCoverage.PartitionIff` | core/ingestion/structure_text_rules.py:136-154 | the result is a partition exactly when at most one page precedes the first section, or there is one section or one page |
| `RunMerge.MergePageRuns` | core/ingestion/builder.py:1610-1645 | adjacent pages with one path become one interval |
| `RunMerge.SectionsOfPages` | core/ingestion/builder.py:1610-1657 | run merging followed by coverage |
| `RunMerge.MergedOrdered` | core/ingestion/builder.py:1620-1645 | intervals are ordered and disjoint, and neighbours carry different paths |
| `RunMerge.MergedRuns` | core/ingestion/builder.py:1620-1645 | the labelled pages fall into consecutive runs of one path, one per section: it ranges from the run's first page to its last and takes level, title and full path from the first |
| `RunMerge.LabelledPageInRun` | core/ingestion/builder.py:1620-1645 | a labelled page lies in an interval with its path |
| `RunMerge.LabelledPageInNoOtherRun` | core/ingestion/builder.py:1620-1645 | and in no interval with another path |
| `RunMerge.EveryPageReachable` | core/ingestion/builder.py:1647-1657 | every page of the document lies in some section |
| `RunMerge.LabelledPageReachable` | core/ingestion/builder.py:1610-1657 | every labelled page lies in a section carrying its own path, after filling too |
| `RunMerge.PageRunsPartitionIff` | core/ingestion/builder.py:1610-1657 | when the saved sections partition the document |
| `TocSections.BuildPathMap` | core/ingestion/builder.py:1118-1152 | later entries replace earlier ones of the same path |
| `TocSections.PathMapLast` | core/ingestion/builder.py:1118-1152 | the map has exactly the listed paths, each with the last entry of that path |
| `TocSections.ParentPath` | core/ingestion/builder.py:1138-1141 | a parent path is a strictly shorter prefix |
| `TocSections.ParentPathIff` | core/ingestion/builder.py:1138-1141 | the parent path ends before the last dot, and a path without a dot has none |
| `TocSections.BuildFullPath` | core/ingestion/builder.py:1155-1167 | the walk terminates and joins the whole lineage |
| `TocSections.LineageIsChain` | core/ingestion/builder.py:1155-1167 | the lineage runs from an entry without listed parent, child by child, to the entry |
| `TocSections.FullPathExtends` | core/ingestion/builder.py:1138-1167 | a full path is that of the listed parent, an arrow, and the entry's path and title, or just these when no parent is listed |
| `TocSections.BuildExplicitSections` | core/ingestion/builder.py:1244-1271 | the nested loop gives every entry its range and full path |
| `TocSections.SectionFields` | core/ingestion/builder.py:1244-1271 | a section starts on its entry's page, lies inside the document, and ends on the page of the next entry at its level or above, if that is not before its start, or with the document; path, level, title and full path are the entry's |
| `TocSections.BestEntry` | core/ingestion/builder.py:1179-1185 | the entry before the first one that starts later |
| `TocSections.LabelsIff` | core/ingestion/builder.py:1179-1185 | it is the last entry such that it and all before it start on the page or earlier |
| `TocSections.RangesNest` | core/ingestion/builder.py:1254-1263 | with non-decreasing pages a section's range lies inside the range of every section above it |
| `TocSections.RangesApart` | core/ingestion/builder.py:1254-1263 | any other later section, so every sibling, shares at most the boundary page |
| `TocSections.LabelAgreesWithRange` | core/ingestion/builder.py:1177-1197 | the section that labels a page contains it, and so does every section above that |
| `TocSections.PageInSectionIff` | core/ingestion/builder.py:1244-1271 | in any entry order a page lies in a section exactly when some entry starts on it or before |
| `TocSections.FirstPagesUncovered` | core/ingestion/builder.py:1244-1271 | bookmarks that leave the first two pages in no section |
| `TocSections.NestIff` | core/ingestion/builder.py:1254-1263 | in any entry order: a range lies inside that of a section above it exactly when that section starts no later and, unless it runs to the end, neither page of the inner range lies behind it |
| `TocSections.ApartIff` | core/ingestion/builder.py:1254-1263 | in any entry order: a range ends by the start of another later section exactly when neither page it is made of lies behind that start |
| `TocSections.UnorderedEntriesDoNotNest` | core/ingestion/builder.py:1254-1263 | bookmarks out of page order for which that condition fails |
| `StepQuotas.StepsWithoutFilter` | core/retrieval/executor.py:369-377 | exactly the steps whose filter resolves to no document |
| `StepQuotas.AssignShares` | core/retrieval/executor.py:382-386 | the list in place after the filtered shares |
| `StepQuotas.AssignRemainder` | core/retrieval/executor.py:387-391 | the list in place after the even split of the rest |
| `StepQuotas.RaiseTo` | core/retrieval/executor.py:399-401 | the list in place after the minimum |
| `StepQuotas.ScaleTo` | core/retrieval/executor.py:414-418 | the list in place after proportional scaling |
| `StepQuotas.CalculateStepQuotas` | core/retrieval/executor.py:366-420 | all passes in order equal `Quotas` |
| `StepQuotas.DealtFitsBudget` | core/retrieval/executor.py:382-391 | before minimum and caps the quotas are non-negative and within the budget |
| `StepQuotas.DealtShare` | core/retrieval/executor.py:382-386 | a step that names documents is dealt its part, by documents, of the filtered part of the budget, each rounded by less than one |
| `StepQuotas.DealtRest` | core/retrieval/executor.py:387-391 | the steps that name none are dealt equal parts, and then all of the budget is dealt but less than one for each of them |
| `StepQuotas.QuotaExact` | core/retrieval/executor.py:395-420 | the final quota is what was dealt, raised to the minimum and capped for a single step, or, when these exceed the multi-step cap together, the cap's part in proportion to that |
| `StepQuotas.UnscaledSingle` | core/retrieval/executor.py:396-410 | a single step gets at most the budget, and its minimum unless the cap forbids it |
| `StepQuotas.UnscaledMulti` | core/retrieval/executor.py:395-401 | several steps together get at most twice the budget, each its minimum |
| `StepQuotas.QuotasFitCap` | core/retrieval/executor.py:411-420 | final quotas are non-negative and sum to at most the multi-step cap |
| `StepQuotas.QuotaGuarantee` | core/retrieval/executor.py:395-420 | no step starves: each keeps a known fraction of its minimum |
| `StepQuotas.MoreDocumentsNeverLess` | core/retrieval/executor.py:384-386 | a step naming more documents never gets less than one naming fewer |
| `Merger.MarkTruncated` | core/retrieval/truncation.py:32-34 | a cut costs exactly 12 characters for the marker |
| `Merger.SmartTruncate` | core/retrieval/retriever.py:1296-1359 | an over-long page becomes its excerpt: at most ten keyword sentences, then head and tail when room remains, cut and marked when over the cap |
| `Merger.UnmarkedExcerptIff` | core/retrieval/retriever.py:1336-1358 | an over-long page is shortened without a marker exactly when its first ten keyword sentences fit the cap |
| `Merger.ExcerptShows` | core/retrieval/retriever.py:1331-1354 | an unmarked excerpt holds the first ten keyword sentences and, with room, equally much of the head and the tail of the page |
| `Merger.ExcerptText` | core/retrieval/retriever.py:1331-1354 | an unmarked excerpt in full: the note, the first ten keyword sentences in order, and, when more than 600 characters remain, the beginning of the page and then its end, unless the beginning contains that |
| `Merger.PackDocument` | core/retrieval/retriever.py:1583-1632 | the page loop of one document under both budgets |
| `Merger.MergeSegments` | core/retrieval/retriever.py:1578-1673 | the document loop, the join and the final cut |
| `Merger.PackPagesSound` | core/retrieval/retriever.py:1585-1632 | included pages are a prefix in score order, only the last is cut, it fits both budgets with its marker, and packing stops only at a page that does not fit |
| `Merger.DocumentShare` | core/retrieval/retriever.py:1450-1632 | before the final cut every document is its header and a sound packing within its share |
| `Merger.DocumentCutIff` | core/retrieval/retriever.py:1614-1631 | a document is cut exactly when, by page sizes, a page exceeds the share within the limit and the share has room for its heading, the marker and over 100 characters |
| `Merger.LeftOutUnmarkedIff` | core/retrieval/retriever.py:1614-1626 | pages are left out with no marker exactly when the first that does not fit is over the limit or the share has no such room |
| `Merger.PackedSizes` | core/retrieval/retriever.py:1585-1632 | one document from its page sizes: pages shown in full, cut or not, and characters written; a document that is cut fills its share exactly |
| `Merger.DocumentReachedIff` | core/retrieval/retriever.py:1578-1632 | from header and page sizes alone: which documents are written, which are left out whole, and which of those written are cut |
| `Merger.MergedTextBound` | core/retrieval/retriever.py:1668-1673 | the text is what was written for the documents, or, over the limit, its first characters and the marker: at most the limit plus 12; the final cut acts only if a document before the last was cut |
| `Merger.SingleDocumentFits` | core/retrieval/retriever.py:1578-1673 | one document never exceeds the limit |
| `Merger.FinalCutIff` | core/retrieval/retriever.py:1578-1673 | the final cut acts exactly when the length computed from headers, page sizes, share and limit exceeds the limit |
| `Merger.ClaimsFitNoFinalCut` | core/retrieval/retriever.py:1450-1673 | it never acts when the headers and, per document, the lesser of share and total size add up to at most the limit |
| `Merger.FinalCutReachable` | core/retrieval/retriever.py:1571-1673 | with the program's headings, configured share and page caps: two documents for which it acts, with limit plus 12 characters returned |
| `Executor.RunPlan` | core/retrieval/executor.py:121-152 | the step loop with its early exit |
| `Executor.TruncateProportionally` | core/retrieval/executor.py:177-182 | all steps shortened in order, then one marker |
| `Executor.ExecuteStandard` | core/retrieval/executor.py:111-190 | the plan from its steps to the final context |
| `Executor.StepContextBound` | core/retrieval/executor.py:136-141 | a step is within its quota and within what is left plus 12 |
| `Executor.AccumulatedBound` | core/retrieval/executor.py:121-152 | over any run of steps the accumulated context is within the budget plus 12 and within the sum of quotas |
| `Executor.StepsRun` | core/retrieval/executor.py:121-152 | steps run from the first on, each on what the earlier ones left, and a step is skipped only once the budget is spent |
| `Executor.FinalContextBound` | core/retrieval/executor.py:172-190 | the final context is at most the budget plus 500 per step plus 12 |
| `Executor.EveryStepKeepsPrefix` | core/retrieval/executor.py:156-182 | the final context joins all steps that ran: whole within the budget; over it a marked join of prefixes, one step's of the budget, each of several of exactly its proportional share, at least 500 characters, or all it has |
| `Executor.PlannedContextBound` | core/retrieval/executor.py:111-190 | quotas and step loop together keep the context within the budget plus 12 and the multi-step cap |
| `TruncationSignal.SliceSeenIff` | core/retrieval/truncation.py:20-41 | text that is cut, marked and sliced shows the cut exactly when eleven characters beyond the text are kept |
| `TruncationSignal.StepSeenIff` | core/retrieval/executor.py:136-141 | for texts without markers, a step's context is detected as cut exactly when header lengths, page sizes and budgets cut one of its documents at its share |
| `TruncationSignal.StepCutSeen` | core/retrieval/executor.py:136-141 | for any texts, neither the final cut of the merge nor the slice to the quota hides that a document was cut |
| `TruncationSignal.FinalCutSeen` | core/retrieval/executor.py:136-141 | for any texts, a step whose merge was cut at the end is detected as cut |
| `TruncationSignal.ContextSeenIff` | core/retrieval/executor.py:111-190 | for texts without markers, the plan's final context is detected as cut exactly when it was over the budget or the sizes in some step cut a document |
| `TruncationSignal.PageLeftOutUnseen` | core/retrieval/retriever.py:1614-1626 | a second page over what is left for the step is left out and the context is not detected as cut |
| `TruncationSignal.DroppedUnseenIff` | core/retrieval/retriever.py:1578-1579 | a document is left out undetected exactly when its header or an earlier one does not fit and no document is cut |
| `TruncationSignal.DocumentLeftOutUnseen` | core/retrieval/retriever.py:1578-1579 | three documents under the configured minimum share of which the last is left out undetected |
| `PackMerge.UnionList` | core/plugins/__init__.py:581-587 | the loop computes `Union` |
| `PackMerge.MergeHookDicts` | core/plugins/__init__.py:590-602 | the loop over the overlay, in any key order, computes `Merge` |
| `PackMerge.UnionContents` | core/plugins/__init__.py:581-587 | base items stay in front, nothing lost or invented, no item added twice |
| `PackMerge.UnionInParts` | core/plugins/__init__.py:584-586 | feeding the overlay in parts is feeding it whole |
| `PackMerge.UnionAssociative` | core/plugins/__init__.py:581-587 | list union is associative |
| `PackMerge.MergeIdentity` | core/plugins/__init__.py:590-602 | the empty pack is a two-sided identity |
| `PackMerge.MergeIdempotent` | core/plugins/__init__.py:590-602 | merging a pack with itself changes nothing |
| `PackMerge.OverlayAbsorbs` | core/plugins/__init__.py:590-602 | when a layer adds nothing below another, decided on the two trees |
| `PackMerge.OverlayAssociativeIff` | core/plugins/__init__.py:590-602 | layering three packs is independent of grouping exactly under a guard on the trees |
| `PackMerge.MergeAssociativeOnCommonShape` | core/plugins/__init__.py:590-602 | in particular for packs of one schema |
| `PackMerge.MergeNotAssociative` | core/plugins/__init__.py:600-601 | a scalar between two dictionaries breaks associativity |
| `PackMerge.OverlayAt` | core/plugins/__init__.py:590-602 | what is found at any path of the merged pack: the merge of both values, or the only one there is, or nothing where the overlay ends the base's path early |
| `PackMerge.OverlayScalarWins` | core/plugins/__init__.py:594-601 | an overlay scalar is found unchanged at its path |
| `PackMerge.BaseItemsKept` | core/plugins/__init__.py:598-599 | a base list keeps its items in order and in front, at any path |
| `Ranges.CompressRanges` | core/ingestion/entity_harvest.py:36-49 | the loop prints the run decomposition |
| `Ranges.PageRuns` | core/ingestion/parser.py:1053-1067 | the page batching computes the same decomposition |
| `Ranges.SortedDistinctMembers` | core/ingestion/entity_harvest.py:38 | sorted, distinct, same members |
| `Ranges.RunsDecompose` | core/ingestion/entity_harvest.py:41-48 | runs list exactly the numbers, ordered, disjoint and maximal |
| `Ranges.DecompositionUnique` | core/ingestion/entity_harvest.py:41-48 | there is only one such decomposition |
| `Ranges.PageRunsCoverRequest` | core/ingestion/parser.py:1053-1067 | the batches visit each requested page once, in order |
| `Ranges.ParsePrinted` | core/ingestion/entity_harvest.py:46-49 | an independent reader returns the printed runs |
| `Ranges.CompressionRoundTrip` | core/ingestion/entity_harvest.py:36-49 | printing and reading returns exactly the sorted set, whatever the signs |
| `Ranges.CompressionFaithful` | core/ingestion/entity_harvest.py:36-49 | two lists print alike exactly when they hold the same numbers |

## Left out

- Parsing and rendering of PDF and Office files, OCR, the language-model calls, the HTTP interface, start-up and configuration: foreign libraries and I/O.
- Regular expressions and `SequenceMatcher` themselves: parameters, so no property depends on their content.
- Rounding of floating-point ratios in the executor and the merger: exact rationals instead. `1.5` and `1.2` times a size are compared exactly.
- Python's equality of list items in pack merging, where `1 == True`: items are compared as values of one tree type.
- Retrieval ranking, boost rules, section expansion, list formatting and page segmentation before packing: the merger model starts from formatted pages in score order, and the source entries it returns beside the text are not modelled.
- The cap on a page by its score: a table lookup; pages come with their caps applied.
- Keyword extraction in smart truncation: the sentences that contain a keyword are an input.
- Cleaning and filtering of bookmark entries, and the page-keyed end pages of the table-of-contents path: the model starts from valid entries.
- Text of sections, tail removal on their first page, and everything saved beside the intervals.
- SQL text, ranking of full-text search, cosine distance, migrations, and the tables for logs, chats and audits.
- Removal of files on disk when a document is deleted.
- Embedding values: a vector row carries its document and text only.
- Chunks beyond the limit on chunks per document, which the program only logs: accounting covers the kept ones.
- EmbeddingStore.StoreOneByOne: "stored" means that the metadata row was stored; the vector may be missing, because its store swallows errors, as in the program.
- A failure of the embedding step as a whole (an exception outside the per-batch handling), which the program turns into one warning.
- IngestProperties.OneDocumentPerHash: direct calls of `build_index` carry no hash, as its documentation says (`core/ingestion/builder.py:243-244`); nothing is claimed for a caller that passes the hash of another document.
- IngestProperties.CallsAreBounded: bounds the accesses to shared state, not the time between them; a waiting thread may be overtaken.
- Column updates of a document other than its hash, and the deletion of vectors through the interface, do not matter for the lock protocol.
- PageCoverage.CoverageInvariant: nothing is claimed for an interval that starts after its end; run merging, the only caller, never makes one.
- FactoryProtocol.OneInstancePerTenant: counts the pair made for the cache. On first use `init_tenant_databases` opens another pair for the schema (`core/db/tenant_db.py:1235-1238`), which is not kept.
- PeriodTrim.SecondPassIff: for thresholds that ask for at least two repeats, as the program's do.
- Merger.FinalCutReachable: the header of a degraded document carries a note, which only makes headers longer; headers in the other lemmas are arbitrary.
