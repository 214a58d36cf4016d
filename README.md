# immersion-whisper, modelled in Dafny

immersion-whisper turns the episodes of a series into material for language
study. It has five parts:

- It transcribes each episode into an SRT subtitle file.
- It feeds every subtitle segment into a **lemma index**: a SQLite database of subtitles, lemmas and the many-to-many relation between them. Triggers keep each lemma's frequency up to date, and each lemma gets one example sentence, its "card".
- It condenses the audio to the spoken parts.
- It merges a local configuration over the default one.
- It builds an Anki deck with one note per subtitle.

This project models the core of that program and proves what the code promises.

The modules follow the program's files:

| module | file | what it models |
|---|---|---|
| `Models` | `models.dfy` | the three tables of `database/models.py` as row datatypes, their counters, and the constraints the schema and the triggers are meant to keep |
| `Store` | `store.dfy` | the SQLite store as a class `Database`: the set-up and reset procedures and the frequency triggers of `database/setup.py`, and every statement the processor issues |
| `Lemmatizer` | `lemmatizer.dfy` | the token filter and lower-casing of `_lemmatize_batch` |
| `SubProcessor` | `processor.dfy` | `SubtitleProcessor` of `core/sub_processor.py`: the buffer, the lemma cache and the batch commit |
| `Transcriber` | `transcriber.dfy` | SRT timestamps, the block parser, the block writer and the loop that feeds segments to the processor (`core/transcriber.py`) |
| `Condenser` | `condenser.dfy` | padding, sorting and merging of subtitle spans (`core/condenser.py`) |
| `Config` | `config.dfy` | `deep_merge` (`config.py`) |
| `Deck` | `deck.dfy` | media file names, batching of the audio commands, note fields and the result of `create_deck` (`core/deck_creator.py`) |
| `Text`, `Wrappers` | `text.dfy`, `wrappers.dfy` | Python's `strip`, `split`, `int`, `str` and `:0Nd` formatting on `seq<char>`; `Option`, `Result`, `Outcome` |

Each statement's effect on the rows is a pure function on a `Tables` value. `Database` holds the tables as maps with auto-increment counters, and each of its methods is proved against those functions.

What one commit of the processor does is the function `SubProcessor.Flush`. It is built step by step from the source, and its properties are lemmas. `SubProcessor.Commit` performs the same steps against a `Database` and is proved to agree with `Flush`, or with the as-written `FlushAsWritten` when asked to follow the code as written (see Findings).

Times are whole milliseconds throughout. Some inputs are beyond the program and are modelled as parameters:

- the spaCy pipeline is a function `nlp` from a text to its tokens;
- `random.choice` is a function `rand` from a lemma id to a position, taken modulo the list's length;
- the order in which Python iterates the set of new lemma texts is the out-parameter `order`, which can be any enumeration of that set;
- the files on disk are the `Option` or `set` arguments that stand for them.

## Model

| member | source | states |
|---|---|---|
| Models.EmptyTablesWellFormed | src/immersion_whisper/database/models.py:11-31 | freshly created tables meet the schema: counters at 1, no rows, lemma texts unique |
| Models.EmptyTablesIndexed | src/immersion_whisper/database/models.py:19-31 | freshly created tables are a consistent index: frequencies exact, relations resolve, cards linked |
| Models.CardsResolve | src/immersion_whisper/database/models.py:25 | in a consistent index a lemma's card subtitle is an existing subtitle row |
| Models.Appended | src/immersion_whisper/database/models.py:12 | a multi-row insert puts row i under id start+i, keeps every other id's row and adds no other id |
| Models.RefCountInsert | src/immersion_whisper/database/setup.py:6-13 | a new relation row raises the reference count of exactly the lemma it names, by one |
| Models.RefCountRemove | src/immersion_whisper/database/setup.py:14-21 | removing a relation row lowers the reference count of exactly the lemma it names, by one |
| Models.RefCountAppended | src/immersion_whisper/database/setup.py:6-13 | rows appended under fresh ids raise each lemma's count by the number of new rows naming it |
| Store.InsertRelationRowsEffect | src/immersion_whisper/database/setup.py:6-13 | after a multi-row relation insert every lemma's frequency rose by its number of new rows; nothing else about any lemma or subtitle changed; the rows sit under consecutive fresh ids |
| Store.InsertRelationRowKeepsFrequencies | src/immersion_whisper/database/setup.py:6-13 | the increment trigger keeps every frequency equal to the number of relation rows naming the lemma |
| Store.DeleteRelationRowKeepsFrequencies | src/immersion_whisper/database/setup.py:14-21 | the decrement trigger keeps every frequency equal to the number of relation rows naming the lemma |
| Store.ChangesKeepFrequencies | src/immersion_whisper/database/setup.py:4-23 | from exact frequencies, any sequence of relation inserts and deletes keeps the schema and exact frequencies |
| Store.InsertRelationRowsFrequencies | src/immersion_whisper/database/setup.py:6-13 | a multi-row relation insert keeps frequencies exact |
| Store.InsertLemmaRowsWellFormed | src/immersion_whisper/database/models.py:21 | inserting distinct texts that are not yet stored keeps lemma texts unique and ids below the counter |
| Store.InsertSubtitleRowsWellFormed | src/immersion_whisper/database/models.py:11-16 | a subtitle insert keeps the schema |
| Store.InsertRelationRowsWellFormed | src/immersion_whisper/database/models.py:28-31 | a relation insert keeps the schema's constraints |
| Store.SetCardsWellFormed | src/immersion_whisper/database/models.py:25 | setting card subtitles keeps the schema |
| Store.InsertLemmaRowsIndexed | src/immersion_whisper/database/models.py:22-25 | new lemma rows start at frequency 0 with no card, so a consistent index stays consistent |
| Store.InsertSubtitleRowsIndexed | src/immersion_whisper/database/models.py:11-16 | new subtitle rows keep a consistent index consistent |
| Store.InsertRelationRowsIndexed | src/immersion_whisper/database/setup.py:6-13 | relation rows naming existing subtitles and lemmas keep a consistent index consistent |
| Store.InsertRelationRowsResolve | src/immersion_whisper/database/models.py:28-31 | relation rows naming existing rows keep every relation row resolving |
| Store.InsertRelationRowsCards | src/immersion_whisper/database/models.py:25 | new relation rows keep every card linked to a relation row |
| Store.InsertRelationRowsRelate | src/immersion_whisper/database/models.py:25 | cards drawn from the new relation rows are related once those rows are in |
| Store.SetCardsIndexed | src/immersion_whisper/database/models.py:25 | cards that are related subtitles keep a consistent index consistent |
| Store.ScanLemmas | src/immersion_whisper/core/sub_processor.py:34-35 | the scan returns exactly the lemma rows passing the optional text filter, each once, as (id, text); the model lists them in ascending id order |
| Store.ScanSubtitles | src/immersion_whisper/core/sub_processor.py:102-104 | the scan returns exactly the subtitle rows whose text is listed, each once; the model lists them in ascending id order |
| Store.Database.constructor | src/immersion_whisper/database/models.py:3 | a database file nobody has set up: closed, no tables |
| Store.Database.Connect | src/immersion_whisper/database/setup.py:36 | connecting fails exactly when the connection is already open, and leaves it open |
| Store.Database.Close | src/immersion_whisper/database/setup.py:40-42 | closing leaves the connection closed |
| Store.Database.CreateTables | src/immersion_whisper/database/setup.py:28 | `create_tables(safe=True)` makes the tables exist and keeps every row |
| Store.Database.CreateTriggers | src/immersion_whisper/database/setup.py:4-23 | the triggers exist afterwards exactly when the tables do; without tables the statement fails; no row changes |
| Store.Database.DropTables | src/immersion_whisper/database/setup.py:49 | dropping leaves no tables, no triggers and empty contents with counters at 1 |
| Store.Database.SetupDatabaseElements | src/immersion_whisper/database/setup.py:26-30 | tables and triggers exist afterwards, rows unchanged |
| Store.Database.InitDb | src/immersion_whisper/database/setup.py:33-42 | from a closed connection: tables and triggers set up, rows kept; from an open one: the error is swallowed and nothing changes; the connection ends closed |
| Store.Database.ResetDb | src/immersion_whisper/database/setup.py:45-55 | from a closed connection: set-up tables with no rows and counters at 1; from an open one: nothing changes; the connection ends closed |
| Store.InitDbTwice | src/immersion_whisper/database/setup.py:33-42 | a second `init_db` changes nothing the first left, and no row is lost |
| Store.ResetDbTwice | src/immersion_whisper/database/setup.py:45-55 | two resets leave the same empty, set-up store |
| Store.Database.SelectLemmas | src/immersion_whisper/core/sub_processor.py:34-35 | fails without tables or over the parameter limit; otherwise every lemma row passing the filter exactly once, as (id, text), listed by the model in ascending id order |
| Store.Database.InsertLemmas | src/immersion_whisper/core/sub_processor.py:85-86 | fails without tables, over the parameter limit, or on a text already stored or repeated, changing nothing; otherwise one default row per text under consecutive fresh ids |
| Store.Database.SelectSubtitles | src/immersion_whisper/core/sub_processor.py:102-104 | fails without tables or over the limit; otherwise every subtitle row with a listed text, each once, listed by the model in ascending id order |
| Store.Database.InsertSubtitles | src/immersion_whisper/core/sub_processor.py:99 | fails without tables or over the limit, changing nothing; otherwise the rows under consecutive fresh ids |
| Store.Database.InsertRelations | src/immersion_whisper/core/sub_processor.py:129-130 | fails without tables or over the limit, changing nothing; otherwise the rows stored and the increment trigger fired once per row |
| Store.Database.DeleteRelation | src/immersion_whisper/database/setup.py:14-21 | the row is removed and the decrement trigger lowers its lemma's frequency |
| Store.Database.BulkUpdateCards | src/immersion_whisper/core/sub_processor.py:146-147 | fails without tables or over the limit; otherwise each listed existing lemma gets its new card and nothing else changes |
| Store.Database.Rollback | src/immersion_whisper/core/sub_processor.py:78 | the rows and counters are those of the snapshot taken when the transaction began |
| Lemmatizer.KeptPositions | src/immersion_whisper/core/sub_processor.py:57-63 | the positions of the kept tokens, strictly increasing, each in range and kept, and every kept position present |
| Lemmatizer.KeptPositionsUnique | src/immersion_whisper/core/sub_processor.py:57-63 | any increasing list of exactly the kept positions is `KeptPositions`, so the order of the lemma list is fixed |
| Lemmatizer.DocLemmas | src/immersion_whisper/core/sub_processor.py:57-63 | entry `j` is the lower-cased lemma of the `j`-th alphabetic, non-stop, non-punctuation token, so the kept tokens contribute one entry each, in token order, and no other token contributes; no ASCII capital is left |
| Lemmatizer.NoKeptNoLemmas | src/immersion_whisper/core/sub_processor.py:61 | a document without kept tokens gives no lemma |
| Lemmatizer.LemmatizeBatch | src/immersion_whisper/core/sub_processor.py:52-64 | one lemma list per text, in input order, each the filtered, lower-cased lemmas of that text |
| SubProcessor.TextIndex | src/immersion_whisper/core/sub_processor.py:34-36 | the dictionary a lemma select builds holds exactly the stored texts passing the filter, each under the id of a row with that text |
| SubProcessor.OverlayFacts | src/immersion_whisper/core/sub_processor.py:90-91 | assigning `d[key] = id` row by row: a key of the rows takes the id of its last row, any other key keeps its old value, and no other key appears |
| SubProcessor.OverlayRows | src/immersion_whisper/core/sub_processor.py:105-108 | the loop that builds a dictionary from selected rows gives that overlay |
| SubProcessor.OverlayIndex | src/immersion_whisper/core/sub_processor.py:89-91 | laying the rows of a lemma select over the cache gives the cache updated with the index of the selected texts |
| SubProcessor.Enumerate | src/immersion_whisper/core/sub_processor.py:85 | iterating a set yields each element exactly once |
| SubProcessor.NewIds | src/immersion_whisper/core/sub_processor.py:85-86 | the ids a multi-row insert hands out: exactly the inserted texts, the i-th under next+i |
| SubProcessor.NewIdsIndex | src/immersion_whisper/core/sub_processor.py:86-91 | selecting the texts just inserted gives back exactly the ids they were inserted under |
| SubProcessor.SelectedCache | src/immersion_whisper/core/sub_processor.py:89-91 | the rows selected after the insert, laid over the cache, give the cache with the new texts under their new ids |
| SubProcessor.SubtitleIdsByKey | src/immersion_whisper/core/sub_processor.py:105-119 | two segments get the same subtitle id exactly when they share (text, episode, start, end) |
| SubProcessor.SubtitleIdsInBatch | src/immersion_whisper/core/sub_processor.py:105-119 | each segment's id is that of the newest stored row with its key; no later row of the batch shares the key |
| SubProcessor.LookupIsNewest | src/immersion_whisper/core/sub_processor.py:105-108 | looking a key up in the fetched rows finds the newest row with that key |
| SubProcessor.LookupOfBatch | src/immersion_whisper/core/sub_processor.py:102-119 | after the insert, the lookup finds every segment, whatever older rows share its key |
| SubProcessor.BatchKeysFound | src/immersion_whisper/core/sub_processor.py:109-119 | no segment's lookup comes back empty, so `dropna` on `subtitle_id` drops nothing |
| SubProcessor.LookupIds | src/immersion_whisper/core/sub_processor.py:109-119 | one id per segment, in order: the one its key maps to |
| SubProcessor.RelationRowsEmpty | src/immersion_whisper/core/sub_processor.py:122-123 | there are relation rows exactly when some segment of the batch has a lemma |
| SubProcessor.RelationRowsFrom | src/immersion_whisper/core/sub_processor.py:122-128 | every relation row pairs a segment's id with the cached id of one of that segment's lemmas |
| SubProcessor.RelationRowsCover | src/immersion_whisper/core/sub_processor.py:122-128 | every lemma occurrence of every segment has its relation row |
| SubProcessor.RelationRowsLength | src/immersion_whisper/core/sub_processor.py:122-128 | exactly one relation row per lemma occurrence, repeats included |
| SubProcessor.RelationRowsCount | src/immersion_whisper/core/sub_processor.py:122-130 | each lemma of the batch is named by as many new rows as it has occurrences in the batch |
| SubProcessor.Associated | src/immersion_whisper/core/sub_processor.py:136-138 | the subtitle list grouped under a lemma id holds exactly the subtitles of the rows naming it |
| SubProcessor.Cards | src/immersion_whisper/core/sub_processor.py:139-145 | exactly the batch's lemmas that have relation rows get a card, and each card is one of the subtitles related to it |
| SubProcessor.KeyHasCard | src/immersion_whisper/core/sub_processor.py:144 | a lemma of the batch with a relation row is given a card |
| SubProcessor.NewTextsFresh | src/immersion_whisper/core/sub_processor.py:80-86 | with a faithful cache, the new texts are distinct and not stored, so their insert cannot violate the unique constraint |
| SubProcessor.CacheAfterFaithful | src/immersion_whisper/core/sub_processor.py:84-91 | after the lemma insert, the updated cache maps exactly the stored texts to their rows' ids |
| SubProcessor.FailedFlushRollsBack | src/immersion_whisper/core/sub_processor.py:74-151 | a failed commit leaves the store as it was; the cache is the old one, or the old one plus the new texts when the failure came after line 91 |
| SubProcessor.FlushSucceeds | src/immersion_whisper/core/sub_processor.py:78-147 | a successful commit needs the tables and leaves the committed store and the cache with the new texts |
| SubProcessor.FlushWithoutTables | src/immersion_whisper/core/sub_processor.py:78-151 | without tables every commit fails with "no such table", changing neither store nor cache |
| SubProcessor.FailedFlushLeavesStaleCache | src/immersion_whisper/core/sub_processor.py:88-91 | a commit failing after line 91 leaves a cache entry for a text no stored row carries |
| SubProcessor.FlushFailsAtLemmas | src/immersion_whisper/core/sub_processor.py:84-86 | a failing lemma insert ends either commit, as written or corrected, with that error, store and cache unchanged |
| SubProcessor.FlushFailsLater | src/immersion_whisper/core/sub_processor.py:93-147 | a later failing statement ends either commit, as written or corrected, with its error, the store rolled back and the cache keeping the new texts |
| SubProcessor.FlushPasses | src/immersion_whisper/core/sub_processor.py:78-147 | when every statement passes, either commit, as written or corrected, gives the committed store and the extended cache |
| SubProcessor.CommitStoresLemmas | src/immersion_whisper/core/sub_processor.py:80-86 | a successful commit stores each new text once, under consecutive fresh ids, and no other lemma row |
| SubProcessor.CommitCachesLemmas | src/immersion_whisper/core/sub_processor.py:80-91 | afterwards the cache maps exactly the stored texts to their ids, so every lemma of the batch is cached under the id of the row with its text |
| SubProcessor.CommittedLemmaRows | src/immersion_whisper/core/sub_processor.py:94-147 | after the lemma insert only frequencies and cards of lemma rows change |
| SubProcessor.CommitStoresRows | src/immersion_whisper/core/sub_processor.py:94-130 | the segments are stored in order from the next subtitle id, and the relation rows from the next relation id |
| SubProcessor.CommitSubtitleIds | src/immersion_whisper/core/sub_processor.py:99-119 | each segment is stored under the id its relation rows use, however many segments share its key |
| SubProcessor.CommitLinksOccurrence | src/immersion_whisper/core/sub_processor.py:121-130 | every lemma occurrence of every segment has a relation row linking the segment's row to the row of the lemma's text |
| SubProcessor.CommitRelationOrigin | src/immersion_whisper/core/sub_processor.py:121-130 | every new relation row links one of the segments to one of that segment's lemmas |
| SubProcessor.CommittedLemmaRow | src/immersion_whisper/core/sub_processor.py:129-147 | an inserted lemma row gains its number of new relation rows in frequency, and its card when it has one |
| SubProcessor.CommitFrequency | src/immersion_whisper/core/sub_processor.py:122-130 | each lemma of the batch ends with its old frequency (0 if new) plus its occurrences in the batch |
| SubProcessor.CommitKeepsOtherLemmas | src/immersion_whisper/core/sub_processor.py:78-147 | a lemma row whose text is not in the batch comes out exactly as it went in |
| SubProcessor.CommitCard | src/immersion_whisper/core/sub_processor.py:132-147 | every lemma of the batch ends with a card: a stored segment that contains it, overwriting any earlier card |
| SubProcessor.CardDrawn | src/immersion_whisper/core/sub_processor.py:132-145 | the card drawn for a lemma of the batch is the id of a segment containing the lemma |
| SubProcessor.CommitKeepsIndex | src/immersion_whisper/core/sub_processor.py:78-147 | a successful commit on a consistent index with a faithful cache keeps the schema and the index consistent |
| SubProcessor.FlushKeepsIndex | src/immersion_whisper/core/sub_processor.py:74-153 | whatever its outcome, a commit keeps a consistent index consistent, and after a successful one the cache is faithful again |
| SubProcessor.NoLemmasNothingToLink | src/immersion_whisper/core/sub_processor.py:80-145 | a batch where no segment has a lemma gives no new texts, no relation rows and no cards |
| SubProcessor.NoLemmasAsWritten | src/immersion_whisper/core/sub_processor.py:122-138 | as written, such a batch fails at the `groupby` with a missing `lemma_id` column, and its segments are rolled back |
| SubProcessor.NoLemmasIntended | src/immersion_whisper/core/sub_processor.py:122-147 | as intended, such a batch stores its segments, passes, and keeps the cache |
| SubProcessor.StoreNewLemmas | src/immersion_whisper/core/sub_processor.py:84-91 | no new texts: nothing happens; otherwise the insert's outcome, with on success the new rows and the cache extended by their ids, and on failure nothing changed |
| SubProcessor.StoreSubtitles | src/immersion_whisper/core/sub_processor.py:94-119 | the subtitle insert's outcome; on success the rows are stored and each segment gets the id its key's newest row has |
| SubProcessor.BuildRelations | src/immersion_whisper/core/sub_processor.py:121-128 | the relation rows, segment by segment and occurrence by occurrence |
| SubProcessor.StoreLinks | src/immersion_whisper/core/sub_processor.py:129-147 | relation insert unless there are no rows; with no rows the as-written flag raises the missing `lemma_id` column; then the card update unless there are no cards; the first failure ends it; on success the store holds both |
| SubProcessor.Commit | src/immersion_whisper/core/sub_processor.py:78-147 | the outcome, the store and the cache the commit leaves are exactly those of `FlushWith` for its flag: `FlushAsWritten` when the flag is set, the corrected `Flush` otherwise |
| SubProcessor.RollBack | src/immersion_whisper/core/sub_processor.py:78 | the store is back at the snapshot |
| SubProcessor.SubtitleProcessor.constructor | src/immersion_whisper/core/sub_processor.py:26-28 | an empty buffer and no cache loaded |
| SubProcessor.SubtitleProcessor.Add | src/immersion_whisper/core/sub_processor.py:41-50 | the buffer grows by exactly the one record, at the end, with its values unchanged |
| SubProcessor.SubtitleProcessor.LoadCacheIfNeeded | src/immersion_whisper/core/sub_processor.py:30-39 | a loaded cache is kept; otherwise every stored text is mapped to the id of its row; a failing select leaves the cache unloaded and is raised |
| SubProcessor.SubtitleProcessor.Process | src/immersion_whisper/core/sub_processor.py:66-153 | a failing cache load raises with the buffer intact; an empty buffer returns with the store untouched; otherwise the commit's outcome, store and cache are `Flush`'s and the buffer is emptied whatever the outcome; a consistent index stays consistent |
| Transcriber.ClockValue | src/immersion_whisper/core/transcriber.py:21-27 | `HH:MM:SS,mmm` built from digit fields reads as HH*3600000 + MM*60000 + SS*1000 + mmm |
| Transcriber.TimestampValue | src/immersion_whisper/core/transcriber.py:21-27 | every timestamp the block expression accepts reads as that sum of its fields |
| Transcriber.ClockFields | src/immersion_whisper/core/transcriber.py:77-80 | the hour, minute, second and millisecond fields written add back up to the time within its day, each in range |
| Transcriber.PaddedClock | src/immersion_whisper/core/transcriber.py:80 | zero-padded fields in range form a well-formed timestamp that reads back as their sum |
| Transcriber.FormatThenRead | src/immersion_whisper/core/transcriber.py:77-80 | what `_format_timestamp` writes is a well-formed timestamp, and reading it gives the time modulo 24 hours |
| Transcriber.PieceAt | src/immersion_whisper/core/transcriber.py:42-43 | each piece of the block expression takes no more than the input, and a timestamp piece takes exactly 12 characters forming a timestamp |
| Transcriber.HeadAt | src/immersion_whisper/core/transcriber.py:42-43 | a matched head captures two well-formed timestamps and ends inside the input |
| Transcriber.TextEnd | src/immersion_whisper/core/transcriber.py:44 | the lazy text group stops at the first blank line at or after its start, or at the end |
| Transcriber.MatchAt | src/immersion_whisper/core/transcriber.py:41-46 | a match is non-empty, within the input, and captures well-formed timestamps |
| Transcriber.FindIter | src/immersion_whisper/core/transcriber.py:48 | every match `finditer` yields has well-formed timestamps |
| Transcriber.ParseSrtFile | src/immersion_whisper/core/transcriber.py:30-57 | a missing file gives nothing; otherwise its newlines are translated as text-mode reading does, and there is one segment per match in the stripped result, in order, times read from both timestamps and text stripped |
| Transcriber.SegmentsLoop | src/immersion_whisper/core/transcriber.py:48-56 | the loop appends one segment per match, in order |
| Transcriber.WriteSrt | src/immersion_whisper/core/transcriber.py:144-148 | block i+1 for segment i, in order: number, timestamp line, left-stripped text, blank line |
| Transcriber.RoundTrip | src/immersion_whisper/core/transcriber.py:144-148 | reading back the written file, through text-mode newline translation, gives one segment per segment written, in order, text stripped and times modulo a day |
| Transcriber.NoReturnWritten | src/immersion_whisper/core/transcriber.py:144-148 | a file written from texts without a carriage return holds none, so text-mode reading leaves it as written |
| Transcriber.FeedSegments | src/immersion_whisper/core/transcriber.py:135-141 | every segment goes to the processor in order, left-stripped under the episode number, then one flush: the processor ends as `process` on its buffer plus those records |
| Condenser.SrtTimeToMs | src/immersion_whisper/core/condenser.py:11-15 | the condenser reads a time as the same number of milliseconds as the transcriber |
| Condenser.SrtTimeToMsFields | src/immersion_whisper/core/condenser.py:11-15 | fields in their usual ranges come back out of the milliseconds |
| Condenser.Padded | src/immersion_whisper/core/condenser.py:35-38 | a padded span starts at max(0, start - padding), never before 0, and ends at end + padding |
| Condenser.SortByStartFacts | src/immersion_whisper/core/condenser.py:40 | the sort orders by start and keeps every span as often as it occurs |
| Condenser.MergeStepSeparated | src/immersion_whisper/core/condenser.py:43-49 | one loop step keeps the merged spans separated, given a span starting no earlier than the last one |
| Condenser.MergeStepContains | src/immersion_whisper/core/condenser.py:43-49 | one loop step keeps every span held before and holds the current one |
| Condenser.MergedEnds | src/immersion_whisper/core/condenser.py:42-49 | the merge's first span starts where the input does, its last no later than the last input span |
| Condenser.MergedSeparated | src/immersion_whisper/core/condenser.py:42-49 | merged spans ascend, each starting at or after the end of the one before |
| Condenser.MergedContains | src/immersion_whisper/core/condenser.py:42-49 | every input span lies inside some merged span |
| Condenser.MergedFacts | src/immersion_whisper/core/condenser.py:42-49 | the merge's spans are separated and hold every input span, from the input's first start |
| Condenser.MergedCovers | src/immersion_whisper/core/condenser.py:42-49 | the merge covers exactly the points the input spans cover |
| Condenser.MergedSound | src/immersion_whisper/core/condenser.py:42-49 | a point the merge covers is covered by some input span |
| Condenser.MergedStarts | src/immersion_whisper/core/condenser.py:42-49 | every merged span starts where some input span starts |
| Condenser.TouchingStaysApart | src/immersion_whisper/core/condenser.py:46 | spans that only touch stay apart; strictly overlapping ones are merged |
| Condenser.MergeIntervals | src/immersion_whisper/core/condenser.py:42-49 | the loop's `merged_intervals` is the merge of its input |
| Condenser.Condense | src/immersion_whisper/core/condenser.py:18-49 | stops when the output directory is unset or empty, then on an empty subtitle list before any merge; otherwise pads, sorts and merges |
| Condenser.CondensedSpans | src/immersion_whisper/core/condenser.py:30-49 | at least one span is cut and no more than there are subtitles; they are separated, inside the audio, hold every padded span and cover exactly what the padded spans cover |
| Config.MergedKeys | src/immersion_whisper/config.py:56-64 | keys are the union; base-only keys keep their value; mappings on both sides merge; any other update value replaces, also when only one side is a mapping |
| Config.MergeEmpty | src/immersion_whisper/config.py:56-65 | an empty update leaves base unchanged |
| Config.MergeIntoEmpty | src/immersion_whisper/config.py:56-64 | merging into an empty base gives the update |
| Config.MergeSelf | src/immersion_whisper/config.py:56-65 | merging a configuration with itself changes nothing |
| Config.MergedOverrides | src/immersion_whisper/config.py:57-64 | every leaf the update sets is in place after the merge, however deep |
| Config.NestedExample | src/immersion_whisper/config.py:56-64 | a nested setting replaced, its sibling kept, a new key added |
| Config.Dict.DeepMerge | src/immersion_whisper/config.py:52-65 | the dictionary itself is returned, mutated into the merge of its old contents with the update |
| Deck.MediaNameParts | src/immersion_whisper/core/deck_creator.py:179-181 | a media name is the deck name, `_`, at least four digits reading as the index (exactly four below 10000), and the extension |
| Deck.MediaNameInjective | src/immersion_whisper/core/deck_creator.py:179-181 | different subtitles get different files |
| Deck.ImageIsNotAudio | src/immersion_whisper/core/deck_creator.py:180-181 | a screenshot name is never an audio clip name |
| Deck.NumBatchesCeiling | src/immersion_whisper/core/deck_creator.py:120-121 | the number of batches is n / size rounded up, and 0 exactly when there are no subtitles |
| Deck.BatchBounds | src/immersion_whisper/core/deck_creator.py:123-126 | batch i is non-empty, holds at most `size` subtitles and starts where the ones before it end |
| Deck.BatchOfIndex | src/immersion_whisper/core/deck_creator.py:123-132 | subtitle k lies in batch k / size and in no other |
| Deck.BatchesPartition | src/immersion_whisper/core/deck_creator.py:123-132 | the batches cut [0, n) into consecutive non-empty pieces from 0 to n, and each index lies in exactly one |
| Deck.BatchCommand | src/immersion_whisper/core/deck_creator.py:129-151 | one audio command's outputs are the clips of its batch, each named by its index in the whole file |
| Deck.AudioBatches | src/immersion_whisper/core/deck_creator.py:119-160 | ceil(n / size) commands, batch i holding the clips of its index range; together every subtitle's clip once, in order |
| Deck.ExtractMedia | src/immersion_whisper/core/deck_creator.py:77-162 | one screenshot per subtitle, named by index, then the audio batches as above |
| Deck.WordCases | src/immersion_whisper/core/deck_creator.py:187 | the word raises exactly for non-empty, all-whitespace text; it is '' for empty text, otherwise the first whitespace-separated word |
| Deck.OrderedFieldsFollowNames | src/immersion_whisper/core/deck_creator.py:196 | field i holds the content for the model's field name i, and '' where none is given |
| Deck.FieldsOfModel | src/immersion_whisper/core/deck_creator.py:176-196 | with the model's seven fields a note reads: word, sentence, '', '', sound tag, '', image tag |
| Deck.MadeFacts | src/immersion_whisper/core/deck_creator.py:185 | notes are made, in increasing order, for exactly the subtitles with both files |
| Deck.NotesUpToOk | src/immersion_whisper/core/deck_creator.py:178-200 | note creation fails only at the first subtitle with both files and whitespace-only text, and succeeds exactly when there is none |
| Deck.NotesUpToShape | src/immersion_whisper/core/deck_creator.py:185-200 | a successful run makes one note per subtitle with both files, in order, and lists its image path then its audio path |
| Deck.NotesUpToStaysErr | src/immersion_whisper/core/deck_creator.py:178-199 | once note creation has raised, later subtitles change nothing |
| Deck.AnkiDeck.AddNote | src/immersion_whisper/core/deck_creator.py:199 | the note is appended to the deck |
| Deck.CreateNotes | src/immersion_whisper/core/deck_creator.py:165-202 | raises where the note specification raises; otherwise the notes are added to the deck in order and the media list is returned |
| Deck.CreateDeck | src/immersion_whisper/core/deck_creator.py:215-247 | None when an input file is missing or no note was made; the `IndexError` of note creation when it raises; otherwise the package of every note and its media, written to `output/<deck>.apkg`, and that path |
| Text.FirstWord | src/immersion_whisper/core/deck_creator.py:187 | `split()[0]` exists exactly when the text is not all whitespace, and it is a space-free word found at the front after the leading spaces |
| Text.ZeroPadValue | src/immersion_whisper/core/transcriber.py:80 | `:0Nd` keeps the value, is at least N characters long, and exactly N for a number below 10^N |
| Text.ReadText | src/immersion_whisper/core/transcriber.py:37 | text-mode reading leaves no carriage return and never lengthens the text |
| Text.ReadTextPlain | src/immersion_whisper/core/transcriber.py:37 | text without a carriage return reads unchanged, so reading twice is reading once |
| Text.BlankLineFromReturns | src/immersion_whisper/core/transcriber.py:37 | two carriage returns, alone or each followed by a line feed, read as a blank line |
| Text.IntOfDigits | src/immersion_whisper/core/transcriber.py:26 | `int` of a digit string is its decimal value |

## Left out

- I/O is left out. Reading and writing files, `pysrt.open`, `sys.exit`, logging and `print` are not modelled. A file is an `Option<string>`, with `None` for a missing one. The files the extraction left behind are a set of paths.
- Whisper transcription (`transcribe`, lines 97-130), `_extract_audio`, the ffmpeg, pydub and genanki calls, and the writing of the `.apkg` package are external programs and libraries. The model produces the commands and the package contents; nothing is run.
- `transcribe` takes the episode number from the file stem with `int()`. It is a parameter of `Transcriber.FeedSegments`.
- Float seconds are not modelled. Every time is whole milliseconds. The screenshot time is the float midpoint of the subtitle; the model records the subtitle's span instead.
- Transcriber.FindIter: the block expression is modelled as a matcher written piece by piece. It follows the expression for the choices a written file needs. It is not proved equal to Python's `re` engine on every input.
- Transcriber.RoundTrip: proved only for segments whose texts hold no carriage return, whose left-stripped texts hold no blank line, and whose last text is more than whitespace. Outside that case the file does not read back as written. Text-mode reading turns a `\r` into a line break, so a text `"a\r\rb"` reads as `"a\n\nb"` (`Text.BlankLineFromReturns`) and only `"a"` is read back. A last text of whitespace only is lost in the same way. The model does not state what is read back then.
- Text.IntOf: `int()` is modelled on ASCII digit strings only. Python also accepts signs, underscores, surrounding whitespace and other Unicode decimal digits.
- Transcriber.PieceAt: the expression's `\d` is modelled as an ASCII digit. On a `str`, Python's `\d` also matches every other Unicode decimal digit, such as Arabic-Indic or full-width digits, so the model rejects blocks numbered or timed in such digits that the source reads.
- `str.lower()` is modelled on ASCII letters only. Whitespace is Python's `str.isspace` set.
- `get_nlp` and the spaCy pipeline are the parameter `nlp`. Only the project's own filter and lower-casing are modelled.
- pandas' `explode`, `dropna` and `groupby` are modelled as sequence operations with the same effect.
- SubProcessor.Cards: `random.choice` is modelled by a position drawn by `rand`. Only that the card is one of the lemma's related subtitles is stated, as the source promises nothing more.
- The iteration order of the new lemma texts is Python's set order. It is left open as the out-parameter `order`, constrained only to enumerate the set.
- Store.ScanSubtitles: the model lists rows in ascending id order. SQLite promises no order without `ORDER BY`; ascending rowid is what a full table scan gives. The order matters here: the natural-key dictionary keeps the last row for each key, so `SubProcessor.LookupIsNewest` and `SubProcessor.SubtitleIdsInBatch` rely on the model's order.
- Store.ScanLemmas: the model lists rows in ascending id order. SQLite promises no order without `ORDER BY`. A select filtered by text may go through the unique index on `text` and return rows in text order. The commit only builds a dictionary from those rows, and the texts are unique, so the order does not affect it.
- Store.Database.DeleteRelation: the model's next relation id never decreases. SQLite gives a new row the largest rowid plus one, so after the row with the largest id is deleted, that id is used again.
- SubProcessor.SubtitleProcessor.Process: commits with the corrected `Flush`. So its contract does not cover the as-written `KeyError` rollback of a batch with no kept lemma; `Commit` with the flag set covers that path.
- Transcriber.FeedSegments: its flush is `Process`, so the same holds: the as-written rollback of a batch with no kept lemma is not in its contract.
- The store fails in three modelled ways: no such table, the unique constraint on lemma text, and too many host parameters bound in one statement. The parameter limit is the constructor argument `maxVariables`. Disk, locking and other SQLite failures are not modelled.
- SQLite does not enforce foreign keys unless told to. The model does not enforce them either; that relation rows and cards resolve is the `Indexed` invariant, proved where it holds.
- Logging the error before re-raising it (lines 37-39 and 149-151) is not modelled. The raise is the `Fail` outcome.
- `process_subtitle` and `flush_batch` go through a module-level processor. `Transcriber.FeedSegments` takes that processor as a parameter.
- Condenser.SortByStartFacts: states that the result is ordered by start and is a permutation of the input. It does not state that the sort is stable, although the insertion sort that models it is. The sort works on sequences, not on the list in place.
- Subtitles are `[start, end]` lists in the source. The merge loop mutates the last merged list in place, and that list is also an element of `intervals`. Nothing reads that element afterwards, so the model uses immutable `Interval` values.
- The cutting and export of the condensed audio (lines 51-60) is left out. `Condense` returns the spans to cut.
- Config.Dict.DeepMerge: values are immutable. The source stores the update's own nested dictionaries in `base`, and a later mutation through one would show in the other; the model does not capture this. Dictionary key order is not modelled either.
- `load_config` and `SETTINGS` are YAML file I/O and are left out.
- Deck.ExtractMedia: requires a positive `audio_batch_size`. The value is 100 in the only configuration `create_deck` uses. With 0 the source raises `ZeroDivisionError`; with a negative size, floor division makes the batch count non-positive.
- Failing ffmpeg commands are only logged by the source. The model does not run them, and the media `present` after extraction is a parameter of `CreateDeck`.
- Deleting and recreating the media directory is left out. So are reading the card templates and the `hash`-derived model and deck ids, which are randomised per process.
- Deck.CreateNotes: on the `IndexError` the deck's notes are not stated. The exception ends `create_deck`, so nothing is packaged.
- The rest of the repository is not part of this model because it holds no core logic: the translator, the frequency analyzer, `utils.py`, the command-line entry points and the legacy `exporters/deck_creator.py`.

## Findings

| source | as written | input that shows it | evidently intended | confidence | as-written member | corrected member |
|---|---|---|---|---|---|---|
| src/immersion_whisper/core/sub_processor.py:122-138 | The `lemma_id` column is added to `rels_df` only inside `if not rels_df.empty` (line 123). The `groupby('lemma_id')` of line 137 runs in every case, so on an empty frame it raises `KeyError`. The whole batch is rolled back and the error is re-raised. | A non-empty buffer in which no segment has a kept token, for example one segment whose text is only punctuation and stop words, on a store with tables. | Such a batch stores its subtitles and commits, with no relation rows and no cards. | not executed | SubProcessor.NoLemmasAsWritten | SubProcessor.NoLemmasIntended |

The as-written commit is `SubProcessor.FlushAsWritten`. The corrected one is `SubProcessor.Flush`. `SubProcessor.Commit` and `StoreLinks` take a flag: set, they run the code as written and are proved equal to `FlushAsWritten`; clear, they are proved equal to `Flush`. `SubtitleProcessor.Process` uses the corrected commit.
