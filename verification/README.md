# Verified model of the knowledge base's algorithmic cores

The repository is an offline personal knowledge base: it indexes a diary and chat
logs as vectors, searches them, guards what may leave the machine, compiles bounded
prompts and keeps an authenticated chain of what was sent. This project models the
parts of it that are algorithms and proves what they promise, for all inputs, all
runs or all interleavings. `dafny verify dfyconfig.toml` checks everything.

| file | what it models |
|---|---|
| Ranking, TopKSearch | the quantised score order, the bounded best-hit list, the multi-threaded block scan and `rank_hits` |
| AosoaFile | the four-lane binary segment, tombstone offsets |
| LsmIndex, LsmStore, LsmSearch | the segmented vector index: what agreement of manifest, files and metadata means, `sync_diary_index_lsm` with `maybe_compact` step by step, and `search_lsm` |
| CanonicalText, DiarySearch | canonical text, which content hashes digest and the metadata file keeps; syncs and searches compared with the diary itself |
| AhoCorasick, PrivacySearch | the hand-written automaton and the egress guard built on it |
| DaemonProtocol, DaemonLiveness | client and search daemon as one state machine over single writes to the shared scratch buffer and two pipes: what every run keeps, and what a search achieves |
| Redactor | the streaming redactor of hidden reasoning |
| RetrievalManifest, ContextSelection, ContextAssembly, ContextText, ContextAccounting, ContextCompiler | the budgeted context compiler, what stands where in its text, and the manifest that re-checks its accounting |
| StateChain | the hash-linked manifest store with cached heads, ancestor walk and retention |
| JsonLine, Utf8 | the string scanner that reads JSON lines, and UTF-8 |
| Attestation | length-prefixed framings and the term snapshot |
| LineImport, Sessions | importing chat exports, extracting conversation sessions |
| ProbeFunnel | the probing sessions |
| Ranks, Coupling | tie-averaged ranks and the masked correlation, over exact reals |
| Common | an optional value, sizes of sets, substrings, decimal digits |

A source object whose methods change it is a class here, and its methods are proved
against functions or relations on values; the lemmas then say what those values mean,
in the end in the terms of the inputs alone: positions of a list, characters of a text,
scores, times, steps of a run.
A dictionary is a map, with a list of its keys where its order matters. Library calls
(sorting by a floating-point priority, `argsort`, sentence splitting, embedding, the
text rules) are parameters, constrained only where the proofs need it. Hashes, MACs
and ids made from them are injective: an id is its preimage or a value that
determines it. A day's content hash determines the canonical text only. What was given
to the embedder is stored nowhere; the model keeps it beside the state, for proofs only.

Some results are exact conditions rather than plain guarantees.

- Over all runs of syncs the index ranks like the diary exactly when the embedder gives
  texts with the same canonical form the same vector (`DiarySearch.EveryRunExact`). The
  fallback embedder does (`FallbackNeverStale`); under another one an edit of white space
  is not noticed, since the content hash digests canonical text and the vectors come from
  the text as it is (`EditNoticed`, `IgnoredEdit`). The comment at content_hash says the
  hash is of the embedded text itself; the model follows the code.
- After one sync it does exactly when the lane of each day that was not embedded again
  holds the vector of the day's present text (`DiarySearch.IndexIsDiaryExactly`). The
  text in the metadata file does not tell: it is saved in canonical form, so equality
  with it is neither enough nor needed (`StoredTextNotEnough`, `StoredTextNotNeeded`).
- Above `top_k` 64 the daemon's clamp shows: the answer is the true one exactly when no
  segment that the daemon answers holds more than 64 of the first `top_k` days
  (`LsmSearch.SearchLsm`, and `DaemonClampExact` for one segment).
- A compiled context is refused by its own manifest exactly when a repeated sentence
  is selected as often as it occurs, when an uncut current turn or query contains a
  truncation marker, or when cutting the current turn does not shorten it
  (`ContextCompiler.CompileContext`, with families of failing inputs in
  `RepeatedSentenceFails` and `CutThatDoesNotShorten`).
- Without a timeout a search raises only when mapping its index or the engine itself
  fails, and one that does not fail can always be served (`DaemonLiveness.SearchSucceeds`,
  `RaisesOnlyOnFailure`). After one timeout a client never gets hits again from the same
  daemon: one line stays left over for good (`DaemonProtocol.NoHitsAfterTimeout`).
- A process goes on exactly when its cached head is an ancestor of the latest manifest
  and all manifests between are on disk. Fewer than 256 saves by another process never
  shut it out; more than 256 sequence numbers behind it never can go on, and such states
  are reached by saves alone (`StateChain.Store.Save`, `CaughtUp`, `TooFarBehind`,
  `LeftBehind`).
- Importing an export twice is the same as once if it carries its header. Without one it
  is exactly when no message is, in the block left open and in what the second copy adds
  to it together, more often than in some block of the first import. So it always is
  when the export begins on an earlier day than it ends, and a single day can be doubled;
  the comment at load_line_messages promises more (`LineImport.ImportTwice`,
  `HeaderlessTwice`, `HeaderlessLaterEnd`, `HeaderlessSameEnd`, `HeaderlessDoubles`).
- A day of a group chat is listed by time exactly when no one-digit hour meets a later
  two-digit one that sorts before it as text: 10:00 is listed before 9:05
  (`Sessions.BlockInTimeOrder`, `TenBeforeNine`). The comment at
  extract_group_daily_logs says by time.
- The five-question cap of a probing session and the branch for superseded atoms can
  never be reached.

## Model

| member | source | states |
|---|---|---|
| `Ranking.QuantizersAgree` | src/cpp/search_engine.cpp:273-283 | Both runtimes accept the same scores, reject the same ones, and give each accepted score the integer nearest to a million times it, halves upward |
| `Ranking.RankableMeaning` | src/cpp/search_engine.cpp:273-283 | A score can be ranked exactly when it is finite and its millionths, rounded half up, fit a signed 64-bit word, and its rank value is then that number |
| `Ranking.TopKInScores` | src/cpp/search_engine.cpp:285-288 | Read in the scores alone: of two listed hits the earlier has more millionths, or as many and the smaller id, and a hit that is left out is preceded by each of a full list of k |
| `Ranking.TopKUnique` | src/cpp/search_engine.cpp:285-288 | With distinct ids only one list is the k best in the strict (score, id) order, so any two rankers that meet the definition agree hit by hit |
| `Ranking.TopKOfParts` | src/python/core/lsm_index.py:604-650 | Cutting one part to its k best before merging loses nothing of the k best of the whole |
| `Ranking.CutPartsExact` | src/python/core/lsm_index.py:604-650 | Merging parts that were each cut at a cap of their own gives the k best of the whole exactly when no part holds more of them than its cap |
| `TopKSearch.TopK.LowerBound` | src/cpp/search_engine.cpp:300-301 | The halving search returns the place before which every hit is better and from which none is |
| `TopKSearch.TopK.Push` | src/cpp/search_engine.cpp:296-304 | The bounded list after one push; PushKeepsTopK says what that list is |
| `TopKSearch.PushKeepsTopK` | src/cpp/search_engine.cpp:290-309 | After any pushes the list is the k best of everything pushed |
| `TopKSearch.KBest` | src/cpp/search_engine.cpp:285-309 | Every set of hits with distinct ids has a list of its k best |
| `TopKSearch.Search` | src/cpp/search_engine.cpp:339-388 | For every assignment of blocks to threads and every interleaving: fails exactly when some live lane's score cannot be ranked; otherwise at most k live lanes, the highest scores first by millionths and then by smaller id, and no live lane is left out unless k better ones are listed |
| `TopKSearch.SearchSequential` | src/cpp/search_engine.cpp:368-387 | The build without threads has the same failure condition and the same answer, in the lanes' own ids and scores |
| `TopKSearch.MergedIsTopK` | src/cpp/search_engine.cpp:339-388 | The serial merge of the threads' bounded lists is the k best of all live lanes |
| `TopKSearch.ScheduleIrrelevant` | src/cpp/search_engine.cpp:339-388 | Different thread counts and schedules give the same list |
| `TopKSearch.DealtOut` | src/cpp/search_engine.cpp:339-388 | Such schedules exist for any number of threads |
| `TopKSearch.RankHits` | src/python/core/score_ranking.py:32-49 | Fails exactly on a negative top_k or some unrankable score; otherwise at most top_k of the inputs, the highest scores first by millionths and then by smaller id, and no input is left out unless top_k better ones are listed |
| `TopKSearch.StableSort` | src/python/core/score_ranking.py:32-49 | The sorted list is a permutation in rank order, and hits with the same key stay in the order of the list |
| `TopKSearch.CutOfSorted` | src/python/core/score_ranking.py:32-49 | A full sort cut at k is the k best |
| `AosoaFile.ToAosoa` | src/python/core/pipeline.py:187-200 | Vector i sits at lane i of the blocks under id i, padding lanes hold zeros under id -1 |
| `AosoaFile.WriteBinary` | src/python/core/pipeline.py:203-219 | The header words, the file's size, and every lane of the written file reads back its id and its vector |
| `AosoaFile.LaneWords` | src/python/core/pipeline.py:187-219 | Behind the eight header words each block has 1540 words, 384 rows of four lanes and then the four ids; a tombstone offset is the byte of its id |
| `AosoaFile.EncodeWithIds` | src/python/core/lsm_index.py:360-384 | Encoding then decoding lane by lane gives back each vector under the id it was given, the rest is -1 |
| `AosoaFile.TombOffsetIsIdWord` | src/python/core/lsm_index.py:253-256 | The tombstone offset is in bounds, aligned, disjoint from that of any other lane and never inside vector data |
| `AosoaFile.TombstoneOneLane` | src/python/core/lsm_index.py:346-356 | A tombstone changes exactly one lane's id and no vector |
| `LsmIndex.PreflightPasses` | src/python/core/lsm_index.py:140-190 | A state that agrees with its hashes never trips the integrity checks |
| `LsmIndex.ByDateMeaning` | src/python/core/lsm_index.py:504-505 | Every date of the diary is there and no other, each under the chunk that no later one of its date follows |
| `LsmIndex.RewrittenAgrees` | src/python/core/lsm_index.py:521-570 | Writing the new segment and both dictionaries leaves exactly the replaced lanes to tombstone: every other lane has the vector of the text given under its id |
| `LsmIndex.StoredText` | src/python/core/lsm_index.py:329-342 | What _save_meta stores of a chunk, title and body in canonical form, has the canonical text of the chunk, hence its content hash |
| `LsmIndex.TombstoneAgrees` | src/python/core/lsm_index.py:576-578 | Each tombstone removes one lane from that list and disturbs nothing else |
| `LsmIndex.CountedAgrees` | src/python/core/lsm_index.py:579-587 | After the dead counts are bumped, live and dead counts match the lanes again |
| `LsmIndex.RepackedAgrees` | src/python/core/lsm_index.py:405-464 | Compaction keeps every day's vector, id and content hash and leaves no dead lane |
| `LsmIndex.LanesAreDays` | src/python/core/lsm_index.py:478-600 | Each lane of the manifest's segments is -1 or the lane of exactly one current day, ids are unique and below next_chunk_id, and metadata ids are the live ids |
| `LsmStore.Index.constructor` | src/python/core/lsm_index.py:92-94 | The empty manifest is a valid index |
| `LsmStore.Index.NextSegmentName` | src/python/core/lsm_index.py:467-474 | The least number no segment uses |
| `LsmStore.Index.LastPerDate` | src/python/core/lsm_index.py:504-505 | Every date of the diary once and no other, under the last chunk of that date, by the positions in the diary |
| `LsmStore.Index.FindChanged` | src/python/core/lsm_index.py:507-512 | Exactly the dates that are forced, new or have another content hash, each once |
| `LsmStore.Index.AppendSegment` | src/python/core/lsm_index.py:533-552 | The new file holds the changed chunks' vectors under the next ids, and is entered with matching counts and hash |
| `LsmStore.Index.WriteTombstones` | src/python/core/lsm_index.py:572-578 | After the loop no stale lane is left, and untouched segments keep their payload |
| `LsmStore.Index.CountDead` | src/python/core/lsm_index.py:579-587 | The touched segments' counts and hashes, all others unchanged |
| `LsmStore.Index.GatherAll` | src/python/core/lsm_index.py:404-426 | The live lanes gathered for compaction are every day once, with its vector and id |
| `LsmStore.Index.MaybeCompact` | src/python/core/lsm_index.py:387-464 | Fires exactly when there are more segments than allowed or some segment's dead share is over the ratio, and some day is left; if not, nothing changes; either way the index agrees and every day keeps its id and text |
| `LsmStore.Index.Finish` | src/python/core/lsm_index.py:594-600 | With the limits of 8 segments and one half: either nothing had to be compacted and nothing changes, or one segment is left |
| `LsmStore.Index.Update` | src/python/core/lsm_index.py:514-570 | After the first half the index agrees except for the stale lanes, next_chunk_id has grown by the number of changed days, and saving the entries, old ones canonical and new ones not yet, stores what was given in canonical form |
| `LsmStore.Index.SyncedByPosition` | src/python/core/lsm_index.py:504-560 | By the positions in the diary: the indexed dates are those of the diary; the last chunk of each date gives the day's hash, and, if it had to be embedded, is what was given under the day's new id |
| `LsmStore.Index.WorkByPosition` | src/python/core/lsm_index.py:504-517 | There is something to embed exactly when the last chunk of some date is forced, of a new date or of another hash, and something to delete exactly when some indexed date is not in the diary |
| `LsmStore.Index.Sync` | src/python/core/lsm_index.py:478-600 | Whatever was added, edited, deleted or forced and whether or not compaction fires, the index ends valid, with exactly the dates of the diary; the last chunk of each date gives the recorded hash, and if it was forced, of a new date or of another hash it was given to the embedder, title, newline and text, under a new id not below the old next_chunk_id, while any other day keeps its id and its text; the result says exactly whether there was such a chunk or a date to delete, and without work nothing changes |
| `LsmSearch.SearchIndex` | src/python/core/consultation_engine.py:667-712 | Whichever back end answers, one file's answer is its k best live lanes, and it fails exactly on a bad score or a negative top_k |
| `LsmSearch.DedupByDate` | src/python/core/lsm_index.py:636-644 | One hit a date, none beaten by another hit of its date |
| `LsmSearch.SegmentHitsAreDayHits` | src/python/core/lsm_index.py:604-650 | The live lanes of all segments together are exactly the current days, each with the vector of the text given for it |
| `LsmSearch.MergedAnswer` | src/python/core/lsm_index.py:604-650 | Merging the segments' lists, each cut at what its back end may contribute, and deduplicating by date gives the k best of all days exactly when no segment holds more of them than that |
| `LsmSearch.SearchLsm` | src/python/core/lsm_index.py:604-650 | On an agreeing index, whichever back end answers for each segment: for 1 <= top_k <= 64, or without a daemon, at most top_k current days, the highest scores of their given texts first by millionths and then by smaller id, no day left out unless top_k better ones are listed; beyond that exactly when no segment answered by the daemon holds more than 64 of the first top_k; it fails exactly on a day whose score cannot be ranked or a negative top_k |
| `LsmSearch.CompactionKeepsAnswers` | src/python/core/lsm_index.py:387-464 | Compacting first does not change any answer |
| `LsmSearch.CorpusHitsMeaning` | src/python/core/lsm_index.py:504-532 | The diary's hits by position: for the last chunk of each date whose score can be ranked, its rank value under the day's id, and nothing else |
| `LsmSearch.DayHitsAreCorpusHits` | src/python/core/lsm_index.py:478-600 | The index ranks like the diary for every query exactly when the text given for each day has the same vector as the day's current text |
| `LsmSearch.SameForAllEmbedders` | src/python/core/lsm_index.py:478-600 | Texts have the same vector under every embedder exactly when the given texts are the diary's, character by character |
| `LsmSearch.DaemonClampExact` | src/cpp/search_engine.cpp:614-619 | For top_k above 64 the daemon's answer is the true one exactly when the file has at most 64 rankable lanes |
| `CanonicalText.CanonicalIsOnePass` | src/python/core/canonicalization.py:19-35 | The replacements, the three substitutions and the strip together are one pass that makes each run of white space a newline, if it ends a line, or a space, and leaves none at the ends |
| `CanonicalText.CanonicalTwice` | src/python/core/canonicalization.py:19-35 | Canonical text is its own canonical form |
| `CanonicalText.LinesApart` | src/python/core/canonicalization.py:19-35 | Canonicalising a title and a body first does not change the canonical form of the two together |
| `CanonicalText.SolidUnchanged` | src/python/core/canonicalization.py:19-35 | Text without white space, such as a date, is canonical |
| `CanonicalText.WordsApart` | src/python/core/canonicalization.py:19-35 | Between two words, whatever white space is before, between and behind them, one line break is left if the white space between ends a line, else one space, and nothing else |
| `CanonicalText.SpaceTable` | src/python/core/canonicalization.py:10-35 | The white space and the line ends, character by character |
| `CanonicalText.DoubledSpace` | src/python/core/canonicalization.py:19-35 | Doubling a space anywhere in a text does not show in its canonical text |
| `CanonicalText.EmptyLineFolded` | src/python/core/canonicalization.py:19-35 | Nor does an empty line, so a text with one is never canonical |
| `DiarySearch.EditNoticed` | src/python/core/lsm_index.py:507-512 | Without force a known day is embedded again exactly when its canonical text differs from that of its entry in the metadata file |
| `DiarySearch.DigestExists` | src/python/core/lsm_index.py:507-512 | For every embedder there is a hash that digests exactly the canonical text |
| `DiarySearch.SyncedTexts` | src/python/core/lsm_index.py:478-600 | What a sync leaves has the diary's vectors, or literally its texts, exactly when the texts last given for the days it kept did before |
| `DiarySearch.IndexIsDiaryExactly` | src/python/core/lsm_index.py:478-600 | After one sync the index ranks like the diary, for every query, exactly when before it the lane of each day it kept held the vector of the day's present text, which can be checked on the segment files |
| `DiarySearch.EveryRunExact` | src/python/core/lsm_index.py:478-600 | Over all runs of syncs the index ranks like the diary after every sync exactly when the embedder gives texts with the same canonical form the same vector |
| `DiarySearch.FallbackNeverStale` | src/python/core/pipeline.py:116-134 | An embedder that canonicalises first, as the fallback does, is one of these |
| `DiarySearch.StoredTextNotEnough` | src/python/core/lsm_index.py:329-342 | A run after which the metadata file has the diary's chunk literally and the index does not rank like the diary |
| `DiarySearch.StoredTextNotNeeded` | src/python/core/lsm_index.py:329-342 | For any chunk that is not canonical, a run after which the metadata file does not have the diary's chunk and the index ranks like the diary |
| `DiarySearch.EmptyLineNotNeeded` | src/python/core/data_merger.py:270-276 | Any day with an empty line in its text is such a chunk |
| `DiarySearch.SyncOnce` | src/python/core/consultation_engine.py:609-615 | A sync is a step of these runs, and leaves an index that ranks like the diary exactly when the lanes it kept hold the diary's vectors |
| `DiarySearch.SyncAndSearch` | src/python/core/consultation_engine.py:609-726 | A sync followed by a search: if the lanes the sync kept hold the diary's vectors, and always if the embedder respects the canonical form, the answer for 1 <= top_k <= 64 lists at most top_k dates of the diary, each under the score of the last chunk of its date, the highest first, and leaves no date out unless top_k better ones are listed; it fails exactly on such a chunk whose score cannot be ranked or a negative top_k |
| `DiarySearch.SpaceNotSeen` | src/python/core/canonicalization.py:19-35 | A day with a doubled space and the day without it have the same canonical form and the same entry in the metadata file |
| `DiarySearch.IgnoredEdit` | src/python/core/lsm_index.py:478-600 | The run of the code on two texts of a day with one canonical form: the second sync does no work, the metadata file keeps the canonical form of the first, and the index ranks like the diary exactly when the embedder does not tell the two apart |
| `AhoCorasick.InsertAll` | src/python/core/privacy_search.py:114-123 | The trie's nodes are exactly the prefixes of the patterns |
| `AhoCorasick.LinkOf` | src/python/core/privacy_search.py:133-139 | The link found by the fallback loop is the longest proper suffix of the child's label in the trie |
| `AhoCorasick.ShallowSettled` | src/python/core/privacy_search.py:125-141 | When a node is taken from the queue all nodes up to its depth already have their links |
| `AhoCorasick.FlagMeaning` | src/python/core/privacy_search.py:140-141 | Propagating the flag along the link marks exactly the labels that end with a pattern |
| `AhoCorasick.LinkAll` | src/python/core/privacy_search.py:125-143 | After the pass every failure link is the longest proper suffix in the trie and a node is terminal exactly when some pattern is a suffix of its label |
| `AhoCorasick.ChaseEnd` | src/python/core/privacy_search.py:150-152 | Where the fallback loop stops is the longest suffix of the text read so far that is in the trie |
| `AhoCorasick.Scan` | src/python/core/privacy_search.py:145-156 | Finds something exactly when some pattern occurs contiguously in the text, with at most one fallback step a character over the whole scan |
| `PrivacySearch.EgressSanitizer.Create` | src/python/core/privacy_search.py:84-108 | Construction fails exactly on a term that is empty or longer than 4096 bytes when stripped, or on more than 100000 distinct ones; otherwise the patterns are the stripped terms in normal form |
| `PrivacySearch.EgressSanitizer.ValidateQuery` | src/python/core/privacy_search.py:145-156 | Malformed exactly when empty or longer than 4096 bytes; otherwise a violation exactly when some protected term occurs in the normalised query |
| `PrivacySearch.CleanQueries` | src/python/core/privacy_search.py:51-70 | Accepts exactly 1 to 16 queries, each not empty and at most 4096 bytes when stripped, together at most 16384, and strips each |
| `PrivacySearch.Retrieve` | src/python/core/privacy_search.py:195-215 | All or nothing: no query reaches the searcher unless every query of the intent is clean, and the results are the searcher's answers one after the other |
| `PrivacySearch.AnswersInOrder` | src/python/core/privacy_search.py:205-215 | Each call's answer stands whole between two cuts, in the order of the calls and with nothing else |
| `DaemonProtocol.InitInv` | src/python/core/search_daemon.py:97-118 | The initial state satisfies the invariant of all runs |
| `DaemonProtocol.NextInv` | src/python/core/search_daemon.py:202-281 | Every client, daemon and file step, in any interleaving, keeps the invariant |
| `DaemonProtocol.SendInv` | src/python/core/search_daemon.py:214-224 | Sending a request keeps the correspondence between pending lines and the current call |
| `DaemonProtocol.TimeOutInv` | src/python/core/search_daemon.py:202-212 | A timeout leaves one more line outstanding than before |
| `DaemonProtocol.TakeSearchReplyInv` | src/python/core/search_daemon.py:241-258 | A search accepts a line only under its own sequence number, which then answers exactly this call |
| `DaemonProtocol.TakeSimpleReplyInv` | src/python/core/search_daemon.py:266-281 | A remap or ping taking someone else's line never makes a later search trust a wrong index version |
| `DaemonProtocol.MapIndexInv` | src/cpp/search_engine.cpp:575-591 | Mapping on demand never serves a version older than a completed remap promised |
| `DaemonProtocol.ComputeInv` | src/cpp/search_engine.cpp:628-640 | What the daemon computes from its copy is the answer to the call that is waiting, whenever nothing is left over |
| `DaemonProtocol.ListHitInv` | src/cpp/search_engine.cpp:642-648 | The result slots written so far are a prefix of that answer |
| `DaemonProtocol.ReturnedHitsAreOurs` | src/python/core/search_daemon.py:226-264 | In every run, if search returns hits they are the daemon's results for exactly the query, top_k and index this call wrote, on an index no older than any completed remap of it |
| `DaemonProtocol.OutstandingNeverDrops` | src/python/core/search_daemon.py:202-224 | No step ever consumes a left-over line |
| `DaemonProtocol.NoHitsAfterTimeout` | src/python/core/search_daemon.py:202-264 | Once a call has timed out no later search of the same client returns hits |
| `DaemonLiveness.SearchSucceeds` | src/python/core/search_daemon.py:226-264 | From every state of a run that is in step and idle, for every query, top_k and index that is mapped or on disk: if the engine answers with hits there is a run of client and daemon in which this search returns exactly these hits |
| `DaemonLiveness.NeverRefused` | src/cpp/search_engine.cpp:604-613 | Without a timeout the sequence check never refuses a request |
| `DaemonLiveness.RaisesOnlyOnFailure` | src/python/core/search_daemon.py:241-258 | Without a timeout a search raises only when mapping its index, or the engine on exactly what it asked for, has failed |
| `DaemonLiveness.FreshAfterRemap` | src/python/core/search_daemon.py:266-281 | After a remap has read its ok line, every search of that index that returns was answered from a version no older than the one on disk when the remap began |
| `Redactor.StreamThenRest` | src/python/core/consultation_engine.py:456-529 | What has been emitted, followed by the answer for the held text and any continuation, is the answer for the whole |
| `Redactor.StreamTwice` | src/python/core/consultation_engine.py:456-529 | Streaming in two pieces equals streaming in one, in output, depth and held text |
| `Redactor.HoldIsTagPrefix` | src/python/core/consultation_engine.py:442-454 | The held buffer is empty or a tag prefix of at most seven characters |
| `Redactor.HiddenReasoningRedactor.ProcessStreaming` | src/python/core/consultation_engine.py:456-517 | The streaming loop emits, nests and holds as the recursive definition does |
| `Redactor.HiddenReasoningRedactor.ProcessFinal` | src/python/core/consultation_engine.py:456-517 | The final pass emits the redaction of everything held and drops an unfinished opening tag |
| `Redactor.HiddenReasoningRedactor.Feed` | src/python/core/consultation_engine.py:519-523 | What is visible is always a prefix of the final answer for every continuation |
| `Redactor.HiddenReasoningRedactor.Finalize` | src/python/core/consultation_engine.py:525-529 | The answer depends only on the text fed and exceeds what was streamed by at most seven characters |
| `Redactor.HiddenReasoningRedactor.RedactFull` | src/python/core/consultation_engine.py:422-427 | Redacting at once gives the recursive definition |
| `Redactor.GenerateRedacted` | src/python/core/consultation_engine.py:1128-1150 | However the answer was cut into pieces, with or without a callback, the result is the same, and the tokens are a prefix of it |
| `Redactor.PlainText` | src/python/core/consultation_engine.py:456-517 | Text without an angle bracket passes outside a block and disappears inside one |
| `Redactor.NestedRedacted` | src/python/core/consultation_engine.py:456-517 | Exactly the text outside all blocks survives, at any nesting depth |
| `Redactor.AnyCaseRedacted` | src/python/core/consultation_engine.py:436-440 | A block whose tags are spelled in any mixture of small letters and capitals is gone with its tags, and the text around it stays |
| `Redactor.StrayTags` | src/python/core/consultation_engine.py:456-517 | A closing tag without a block is dropped alone, an opening one without an end hides the rest |
| `Redactor.UnfinishedTag` | src/python/core/consultation_engine.py:442-517 | At the very end a beginning of an opening tag is dropped, that of a closing tag is not |
| `Redactor.JoinedParts` | src/python/core/consultation_engine.py:1128-1150 | The answer is that for all pieces, each in its place |
| `ContextSelection.GreedyTakes` | src/python/core/session_memory.py:406-425 | An item is taken exactly when it is eligible and fits beside the items taken before it |
| `ContextSelection.GreedyFits` | src/python/core/session_memory.py:617-706 | A selection never exceeds its count or its character budget |
| `ContextSelection.ChosenPlaces` | src/python/core/session_memory.py:617-706 | What is chosen is what stands at all marked places, in the order of the list |
| `ContextSelection.SelectTailTurnBlocks` | src/python/core/session_memory.py:406-425 | The plain tail selector computes the greedy tail in transcript order |
| `ContextSelection.InstrumentTailTurnBlocks` | src/python/core/session_memory.py:552-614 | The instrumented tail selector returns the same blocks as its plain twin on every input, and records every turn once by its fate |
| `ContextSelection.SelectAtoms` | src/python/core/session_memory.py:1034-1062 | The plain atom selector, which stops at the count limit, computes the greedy selection |
| `ContextSelection.InstrumentSelectAtoms` | src/python/core/session_memory.py:617-706 | The instrumented one, which goes on recording, returns the same atoms on every input |
| `ContextSelection.SelectAtomBlocks` | src/python/core/session_memory.py:428-441 | The lines up to the first that does not fit, each with the atom's kind, text and quote |
| `ContextSelection.RefilterKeepsAll` | src/python/core/session_memory.py:864-892 | Filtering the selected atoms again with the same budget drops nothing |
| `ContextSelection.LastRecordStands` | src/python/core/session_memory.py:534-549 | A later record of an id replaces the earlier one |
| `ContextAssembly.AssembleContextUnits` | src/python/core/session_memory.py:444-456 | The plain assembly joins the units that fit beside the earlier ones |
| `ContextAssembly.AssembleContextUnitsInstrumented` | src/python/core/session_memory.py:467-508 | The instrumented assembly gives the same text, rejects exactly the candidates of dropped units, and books each lane's formatting |
| `ContextAssembly.AssembledFits` | src/python/core/session_memory.py:444-456 | The context never exceeds the total budget |
| `RetrievalManifest.LaneAgainstList` | src/python/core/retrieval_manifest.py:382-407 | A lane's candidates sum to what its unit lists, unless an accepted id is listed twice, and then to less |
| `RetrievalManifest.LaneCounts` | src/python/core/session_memory.py:709-740 | The three counts of a lane are the numbers of its candidates that are included, rejected and shown by a higher lane |
| `RetrievalManifest.CandidateMeaning` | src/python/core/retrieval_manifest.py:240-280 | Which candidates the constructor lets through, by status, reason and characters |
| `RetrievalManifest.ManifestPromises` | src/python/core/retrieval_manifest.py:292-407 | An accepted manifest has the four lanes in order, each within its own budget, their characters add up to the context's, at most 12000, and every number is the one its candidates give, each listed once |
| `ContextAccounting.LaneUsageOf` | src/python/core/session_memory.py:709-740 | One loop over the candidates gives the sums and counts that the manifest constructor will compute for the lane |
| `ContextAccounting.BuildLaneUsage` | src/python/core/session_memory.py:709-740 | For any candidates and formatting, one record a lane in the fixed order, whose counts and used characters pass the constructor's checks of that lane |
| `ContextAccounting.ManifestAccepted` | src/python/core/retrieval_manifest.py:331-407 | The assembled numbers pass the manifest constructor exactly when no unit of the context counts an id twice |
| `ContextAccounting.LanesSum` | src/python/core/retrieval_manifest.py:385-387 | Every lane is within its budget and lane totals sum to the used characters, or to less exactly when an id is counted twice |
| `ContextCompiler.TruncateBodyToBudgetWithMarker` | src/python/core/session_memory.py:277-294 | Whole sentences while they fit, else a hard cut, and always the marker; an error for no budget |
| `ContextCompiler.TurnCase` | src/python/core/session_memory.py:308-322 | A current turn can be recorded exactly when an uncut one has no marker and a cut one loses more than the marker adds |
| `ContextCompiler.QueryCase` | src/python/core/session_memory.py:297-305 | A cut query can always be recorded, an uncut one exactly when it contains no marker |
| `ContextCompiler.KeptIsCut` | src/python/core/session_memory.py:277-294 | What is kept of a text that is cut is as many whole leading sentences as fit, one after the other, or else its first characters |
| `ContextCompiler.AddCurrent` | src/python/core/session_memory.py:764-832 | The current unit and its candidate, or the error |
| `ContextCompiler.AddTail` | src/python/core/session_memory.py:834-862 | The recent transcript's unit lists exactly the accepted turns, in transcript order, and its content fits the lane |
| `ContextCompiler.TailTakes` | src/python/core/session_memory.py:552-614 | From the newest turn back a turn is kept exactly when it is not the current one and fits, as shown, into 3600 characters beside the later ones that are kept |
| `ContextCompiler.TailRecorded` | src/python/core/session_memory.py:552-614 | Each turn is recorded as shown by a higher lane, accepted whole or over the budget, with its size |
| `ContextCompiler.AtomsCountedTwice` | src/python/core/session_memory.py:882-892 | A unit of atoms counts an id twice exactly when a repeated atom is taken both early and last |
| `ContextCompiler.AtomTakes` | src/python/core/session_memory.py:617-706 | In rank order an atom is taken exactly when fewer than the limit are taken before it and its line fits the budget beside theirs |
| `ContextCompiler.LaneTakes` | src/python/core/session_memory.py:864-918 | Working memory takes 24 atoms in 4000 characters; evidence is what 8 atoms in 2000 hold beyond those of working memory |
| `ContextCompiler.AtomRecorded` | src/python/core/session_memory.py:617-706 | An atom is recorded as accepted whole, as one too many, or as over the budget, with its size |
| `ContextCompiler.CurrentNotRepeated` | src/python/core/session_memory.py:764-866 | When the current section shows the last turn, that turn is not shown again, nor any atom taken from it |
| `ContextCompiler.NothingExcluded` | src/python/core/session_memory.py:764-866 | When it does not, every turn and every active atom may be shown |
| `ContextCompiler.AddWorking` | src/python/core/session_memory.py:864-892 | Working memory is the greedy selection, complete, within its lane: behind its heading each selected atom has a line of its own with its kind, text and quote, in selection order |
| `ContextCompiler.AddRetrieved` | src/python/core/session_memory.py:894-929 | Retrieved evidence is the second selection without what working memory has, and duplicates are marked |
| `ContextCompiler.CompileContext` | src/python/core/session_memory.py:743-963 | Ends with a manifest exactly when the current unit can be recorded and nothing repeated is counted; then the context, at most 12000 characters, is the plain twins' context, it is laid out as ContextSections says, and the manifest's numbers are accepted |
| `ContextCompiler.ContextSections` | src/python/core/session_memory.py:743-940 | The text of a context, position by position: the current turn or query, whole if it has the room and else cut as KeptIsCut says; every kept turn in transcript order with its id, index, alias and whole text; every atom of working memory and of evidence on its own line with its kind, text and quote, in selection order; an empty line between sections and nothing else; evidence is missing only if it would exceed 12000 characters |
| `ContextCompiler.PreconditionsSuffice` | src/python/core/session_memory.py:743-963 | Without repeated atom ids, without markers in whole texts, with room for text behind the current turn's header and with a cut turn longer than room and marker together, every compilation ends with an accepted manifest, whatever the ranking |
| `ContextCompiler.RoomForText` | src/python/core/session_memory.py:84-132 | The ids and aliases the code gives to turns always leave that room |
| `ContextCompiler.RepeatedSentenceFails` | src/python/core/session_memory.py:882-892 | When some id repeats among the active atoms, and these are at most 24 and fit working memory together, the compilation fails for every ranking |
| `ContextCompiler.CutThatDoesNotShorten` | src/python/core/session_memory.py:308-322 | A turn over its room by at most the marker, with a first sentence over the room, cannot be recorded |
| `ContextCompiler.UpperLanesKept` | src/python/core/session_memory.py:467-508 | Only retrieved evidence is ever dropped for the total budget |
| `StateChain.AncestorsAccepted` | src/python/core/retrieval_manifest.py:1131-1174 | Every accepted manifest of sequence n has n - 1 accepted ancestors in its session, linked by parent hash down to the genesis parent |
| `StateChain.ChainUnique` | src/python/core/retrieval_manifest.py:1004-1031 | There is only one such chain |
| `StateChain.CryptoExists` | src/python/core/retrieval_manifest.py:1004-1031 | A mac that names at most one manifest exists, whatever the genesis parents |
| `StateChain.WalkFindsAncestor` | src/python/core/retrieval_manifest.py:1004-1031 | A successful walk ends at the ancestor with the cached head's sequence number, and it is the cached head |
| `StateChain.Store.WalkToHead` | src/python/core/retrieval_manifest.py:1004-1031 | The loop terminates and succeeds exactly when every link down to the cached head checks out |
| `StateChain.Store.WalkExact` | src/python/core/retrieval_manifest.py:1004-1031 | In every reachable state the walk succeeds exactly when the cached head is an ancestor and all manifests between are still on disk |
| `StateChain.Store.TooFarBehind` | src/python/core/retrieval_manifest.py:1004-1064 | A process more than 256 sequence numbers behind the latest manifest of its session can never go on, however the files are dated |
| `StateChain.Store.TrustIsAncestry` | src/python/core/retrieval_manifest.py:1034-1064 | The check of the cached head succeeds exactly when there is no head, it is of another session that this save continues, it is the latest one, or it is on the chain of the latest one with everything between on disk |
| `StateChain.LeftBehind` | src/python/core/retrieval_manifest.py:1131-1174 | Such a state is reached by any run in which one process saves once and another one more than 256 times: a further save of the first one is rejected although its head is an ancestor and the manifest extends the latest one |
| `StateChain.CaughtUp` | src/python/core/retrieval_manifest.py:1034-1064 | And so is the other one: one process saves once, another one at least once and fewer than 256 times, and the next save of the first one, which extends the latest manifest, is accepted, whatever the times |
| `StateChain.Store.ReadLatest` | src/python/core/retrieval_manifest.py:952-972 | The latest manifest, or the error when the pointer and the file disagree |
| `StateChain.Store.CheckLatest` | src/python/core/retrieval_manifest.py:1034-1064 | Goes on exactly when there is no cached head, it is of another session that this save continues, it is the latest one, or it is on the chain of the latest one with everything between on disk; it then adopts the head on disk, otherwise nothing changes |
| `StateChain.Store.Bootstrap` | src/python/core/retrieval_manifest.py:983-1001 | Restores an empty cache from disk and refuses any other head than the cached one |
| `StateChain.NewestIds` | src/python/core/retrieval_manifest.py:1115-1128 | Retention keeps the latest and the newest others, at most the limit |
| `StateChain.KeptUnique` | src/python/core/retrieval_manifest.py:1115-1128 | What is kept is determined by the modification times, the names and the latest id |
| `StateChain.Store.Prune` | src/python/core/retrieval_manifest.py:1067-1128 | Up to 256 files nothing changes; beyond that 256 are left, the latest one among them, and each that is gone is older than each other one that stays, by time and then by name; no kept file changes |
| `StateChain.Store.Save` | src/python/core/retrieval_manifest.py:1131-1174 | Accepted exactly when the cached head may be trusted in that sense and the manifest starts a chain, extends the latest one or is the latest one; with a head of the latest session behind it, an extending manifest is accepted exactly when some chain of the latest manifest has the head at its sequence number and everything between is on disk; latest then names it on disk; a rejected save changes neither disk nor pointer |
| `JsonLine.JsonValuePos` | src/cpp/search_engine.cpp:438-453 | The position after the first real key, or that there is none |
| `JsonLine.JsonFindU64` | src/cpp/search_engine.cpp:455-466 | The number at the key, if its value is one |
| `JsonLine.AppendUnicodeEscape` | src/cpp/search_engine.cpp:468-509 | One escape or surrogate pair, its length and its bytes; malformed ones are rejected |
| `JsonLine.JsonFindString` | src/cpp/search_engine.cpp:511-543 | The unescaped string at the key, if its value is one |
| `JsonLine.JsonEscape` | src/cpp/search_engine.cpp:414-434 | The escaped spelling of a string, in which no character below a space is left |
| `JsonLine.EscapedChar` | src/cpp/search_engine.cpp:414-434 | Character by character: the five short escapes, four hex digits for any other control character, and itself for all others |
| `JsonLine.EscapeAlphabet` | src/cpp/search_engine.cpp:511-543 | The letters of the two-character escapes and the hex digits in both cases |
| `JsonLine.PairSpelled` | src/cpp/search_engine.cpp:468-509 | A code point beyond the basic plane is spelled as its two surrogates, the high one first |
| `JsonLine.BytesAreUtf8` | src/cpp/search_engine.cpp:488-508 | The bytes written for a code point are its UTF-8 encoding (section 3 of RFC 3629) |
| `JsonLine.CodeRead` | src/cpp/search_engine.cpp:468-509 | Reading an escaped code point back gives its UTF-8 bytes, surrogate pair or not (section 7 of RFC 8259) |
| `JsonLine.UnescapeSpelled` | src/cpp/search_engine.cpp:511-543 | The reader undoes every admissible escaping up to the closing quote |
| `JsonLine.LookupReturnsOwnValue` | src/cpp/search_engine.cpp:438-543 | In a flat line with distinct identifier keys every lookup returns exactly its own value, whatever the other values spell |
| `JsonLine.LookupOfAbsentKey` | src/cpp/search_engine.cpp:438-453 | A key the object does not have is not found, even when a value spells it |
| `JsonLine.EscapedRoundTrip` | src/cpp/search_engine.cpp:414-543 | A string escaped by the writer is read back unchanged |
| `JsonLine.LineSpelled` | src/python/core/search_daemon.py:214-224 | Such a line as json.dumps writes it, with its quotes, colons, commas and decimal digits |
| `Utf8.OrderKept` | src/python/core/e0b_attestation.py:152-160 | Sorting by code point is sorting by UTF-8 bytes (section 3 of RFC 3629) |
| `Utf8.EncodeAllInjective` | src/python/core/e0b_attestation.py:108-121 | Different texts have different UTF-8 bytes |
| `Utf8.EncodedBits` | src/python/core/e0b_attestation.py:108-121 | The four forms of section 3 of RFC 3629: each byte in its range, and the code point from the bits of all of them |
| `Utf8.LessMeaning` | src/python/core/e0b_attestation.py:152-160 | The order of texts: a proper beginning first, else the smaller where they first differ |
| `Attestation.FramedInjective` | src/python/core/e0b_attestation.py:108-121 | Length-prefixed items are determined by their bytes although their number is not encoded |
| `Attestation.FramedInOrder` | src/python/core/e0b_attestation.py:108-121 | Each item lies behind eight bytes of its length, in order and with nothing between |
| `Attestation.U64Value` | src/python/core/e0b_attestation.py:108-121 | The eight bytes of a number, the most significant one first |
| `Attestation.Preimage` | src/python/core/e0b_attestation.py:108-121 | The bytes, or the error for a revision or a length out of range |
| `Attestation.PreimageInjective` | src/python/core/e0b_attestation.py:108-121 | Different dictionaries or revisions have different preimages |
| `Attestation.PreimageLayout` | src/python/core/e0b_attestation.py:108-121 | The digested bytes, field by field: the name of the format, the revision and the terms |
| `Attestation.AttestationFraming` | src/python/core/e0b_intent.py:108-137 | The framed bytes, or the error for a malformed field |
| `Attestation.LowerHexMeaning` | src/python/core/e0b_intent.py:59-66 | The hexadecimal fields are those of the right length in the digits 0 to 9 and a to f |
| `Attestation.FramingInjective` | src/python/core/e0b_intent.py:108-137 | Equal framings mean equal intents, field by field |
| `Attestation.FramingLayout` | src/python/core/e0b_intent.py:108-137 | The framed bytes, field by field, each at its own place |
| `Attestation.Build` | src/python/core/e0b_attestation.py:132-167 | Fails exactly on a stale revision, a term that is empty or longer than 4096 bytes, or more than 100000 terms; otherwise lists the canonical terms once, sorted |
| `Attestation.SnapshotDeterminedBySet` | src/python/core/e0b_attestation.py:132-167 | The snapshot depends only on the set of canonical terms and the revision |
| `Attestation.SnapshotSeparatesSets` | src/python/core/e0b_attestation.py:132-167 | Equal digested bytes mean the same set and the same revision |
| `Ranks.RankValues` | src/python/core/coupling.py:56-71 | The nested loops give every value the mean of the positions of its tie |
| `Ranks.RankTransform` | src/python/core/coupling.py:42-73 | A missing value gives 0, a present one its mapped rank among the present ones, everything 0 with fewer than two |
| `Ranks.MappedOrder` | src/python/core/coupling.py:42-73 | Mapped values keep order and equality and lie in [-1, 1] |
| `Ranks.MappedEnds` | src/python/core/coupling.py:71-73 | The one smallest value is mapped to -1 and the one largest to 1 |
| `Ranks.RankSum` | src/python/core/coupling.py:62-71 | Averaging ties keeps the total rank sum |
| `Ranks.OrderPermutes` | src/python/core/coupling.py:56-62 | Naming every position once permutes the values |
| `Ranks.SomeArgsort` | src/python/core/coupling.py:53-56 | Every list of values has such an order |
| `Ranks.MappedSumZero` | src/python/core/coupling.py:71-73 | The mapped values of a lane sum to zero |
| `Coupling.EnoughPadding` | src/python/core/coupling.py:75-81 | With padding up to the lag the circular sum is the linear one |
| `Coupling.PaddedLagsAreLinear` | src/python/core/coupling.py:107-107 | The chosen power of two is enough for every lag of the series |
| `Coupling.PaddedIsLeast` | src/python/core/coupling.py:107-107 | It is a power of two, and half of it would be less than twice the length |
| `Coupling.TooLittlePadding` | src/python/core/coupling.py:103-107 | With less padding some series wrap around |
| `Coupling.Moments` | src/python/core/coupling.py:146-153 | The six sums are the moments of exactly the pairs where both lanes have a value |
| `Coupling.CauchySchwarz` | src/python/core/coupling.py:126-143 | The squared covariance is at most the product of the variances, which are not negative |
| `Coupling.ClipNeverActs` | src/python/core/coupling.py:126-143 | On the circular sums of any two lanes, for all masks and lags, rho_at returns the bare covariance over the root of the bare variances of the pairs both lanes have, with their number, or nothing for fewer than 100 pairs or a variance of at most 10^-9: neither the clamps nor the clip ever change anything, and the ratio is within [-1, 1] |
| `LineImport.ReadBlocks` | src/python/core/profiler.py:275-306 | The line loop cuts the log into the blocks of its specification |
| `LineImport.BlocksConcat` | src/python/core/profiler.py:285-306 | An export with its header is cut into the same blocks wherever it is appended |
| `LineImport.BlocksForward` | src/python/core/profiler.py:294-302 | Inside a block dates never go back |
| `LineImport.CommonFallback` | src/python/core/profiler.py:238-243 | The fallback is the one sender common to at least two dyads, if there is exactly one |
| `LineImport.ResolveSelfByContact` | src/python/core/profiler.py:214-255 | Each contact's owner, by who writes where: the declared name, else one of the two stock names, else the only one common to all contacts of two, of which there are at least two; no entry for an unresolved contact |
| `LineImport.OwnerMeaning` | src/python/core/profiler.py:237-255 | The three tiers in the terms of the messages |
| `LineImport.LoadLineMessages` | src/python/core/profiler.py:258-327 | The whole loader computes the specified list, order and self attribution included |
| `LineImport.LoadedMeaning` | src/python/core/profiler.py:308-326 | Each message is marked as the owner's exactly when its sender is, and the messages come in the order in which they are first met |
| `LineImport.BeforeHeaders` | src/python/core/profiler.py:275-306 | A message before any header is of the unknown contact, and one before any date has no date |
| `LineImport.MaxCountMeaning` | src/python/core/profiler.py:310-315 | The merged count of a message is the largest count in any block, attained by one |
| `LineImport.LoadedAsOften` | src/python/core/profiler.py:310-326 | Every message is loaded as often as the block that has it most |
| `LineImport.BlocksAbsorbed` | src/python/core/profiler.py:308-326 | Further blocks change nothing, not even the order or who is the owner, exactly when every message in them is in some earlier block as often |
| `LineImport.ImportTwice` | src/python/core/profiler.py:258-327 | Importing a headed export twice equals importing it once, whatever the log held before |
| `LineImport.ImportAgainLater` | src/python/core/profiler.py:258-327 | So does importing it again after other headed exports |
| `LineImport.SecondPass` | src/python/core/profiler.py:294-302 | A second pass over headerless lines adds what comes before their first cut to the open block, and then only blocks that the first pass has with every message as often |
| `LineImport.HeaderlessTwice` | src/python/core/profiler.py:258-327 | Importing any headerless export a second time changes nothing exactly when no message is, in the block left open by the first import and in what is added to it together, more often than in some block of the first import |
| `LineImport.HeaderlessLaterEnd` | src/python/core/profiler.py:294-302 | A headerless export that begins on an earlier day than it ends can always be imported again without effect |
| `LineImport.HeaderlessSameEnd` | src/python/core/profiler.py:294-302 | One that does not is joined to its own last block, and can be imported again without effect exactly when no message is in that block and its first one together more often than in some block |
| `LineImport.HeaderlessDoubles` | src/python/core/profiler.py:294-302 | A single day without a header, imported twice, doubles its message |
| `Sessions.ExtractRuns` | src/python/core/data_merger.py:154-190 | The message loop computes the answered runs of a contact, with their latencies |
| `Sessions.RunsAreGood` | src/python/core/data_merger.py:122-194 | Runs are disjoint and contiguous, start with the other party, who is alone until the reply, and pause less than 30 minutes after it; only own messages and an unanswered rest stay outside |
| `Sessions.RunsDetermined` | src/python/core/data_merger.py:122-194 | That description leaves no choice: any runs that meet it are the extracted ones |
| `Sessions.RunsApart` | src/python/core/data_merger.py:178-180 | Consecutive sessions of a contact are at least 30 minutes apart |
| `Sessions.PausesWithin` | src/python/core/data_merger.py:178-180 | After its answer a run goes on over every pause below 30 minutes and over no other |
| `Sessions.AtMinutes` | src/python/core/data_merger.py:52-55 | Times are compared in minutes, read digit by digit |
| `Sessions.TimesRead` | src/python/core/data_merger.py:52-55 | Times with one or two digits for the hour and two for the minute are read as such |
| `Sessions.ReadableMeaning` | src/python/core/data_merger.py:52-55 | A message can be read exactly when its day is one of the calendar and its time one of the day |
| `Sessions.SliceByDay` | src/python/core/data_merger.py:218-223 | The day buckets of a session, in order of first appearance |
| `Sessions.SlicesRejoin` | src/python/core/data_merger.py:213-223 | The day buckets, joined in ascending day order, give back the session: every turn is in exactly one |
| `Sessions.ExtractConversationSessions` | src/python/core/data_merger.py:122-194 | All sessions of all non-group contacts by start time, or the error exactly when a message of theirs has a date or time that does not exist or a session is oversized |
| `Sessions.AllRunsAreSessions` | src/python/core/data_merger.py:122-194 | Every answered run of every contact that is no group is a session, once, and a group has none |
| `Sessions.GroupMeaning` | src/python/core/data_merger.py:75-87 | A group is a contact to which three different senders write |
| `Sessions.OversizedMeaning` | src/python/core/data_merger.py:140-152 | Oversized is over 30 days or over 5000 turns |
| `Sessions.SortStable` | src/python/core/data_merger.py:140-194 | Sorting keeps elements with the same time in their order |
| `Sessions.SessionFacts` | src/python/core/data_merger.py:122-243 | Each session is a good run of its contact's timeline, that contact is no group, and its day slices rejoin |
| `Sessions.ExtractGroupDailyLogs` | src/python/core/data_merger.py:90-119 | Every dated message of a group is in the block of its contact and day and nowhere else, and the block is sorted by the text of the time |
| `Sessions.TextSorted` | src/python/core/data_merger.py:115-115 | That sort orders the time texts, loses nothing and keeps messages with the same text in the order of the log |
| `Sessions.BlockInTimeOrder` | src/python/core/data_merger.py:115-115 | A block is in the order of time exactly when no message with a one-digit hour meets a later one with two digits whose first digit is not larger |
| `Sessions.SameWidthInTimeOrder` | src/python/core/data_merger.py:115-115 | Blocks whose hours all have one digit or all have two are in the order of time |
| `Sessions.TenBeforeNine` | src/python/core/data_merger.py:115-115 | A message at 10:00 is listed before one at 9:05 |
| `ProbeFunnel.SelectProbeQuestion` | src/python/core/probe_funnel.py:351-363 | The bank has exactly one question for every axis and stage, so asked or not it is the one returned |
| `ProbeFunnel.StartKeeps` | src/python/core/probe_funnel.py:366-377 | Opening a session when none is active keeps the store in step |
| `ProbeFunnel.AnswerKeeps` | src/python/core/probe_funnel.py:470-496 | Answering the active session's question keeps every axis a stage prefix and every session in step |
| `ProbeFunnel.Store.CompletedStages` | src/python/core/probe_funnel.py:262-273 | The stages with a trusted answer in the axis |
| `ProbeFunnel.Store.CandidateStage` | src/python/core/probe_funnel.py:276-281 | The first missing stage, or the last when none is missing |
| `ProbeFunnel.Store.ProbeNextQuestion` | src/python/core/probe_funnel.py:380-422 | Asks the active session's question, else opens one session; fails exactly when none is active and the axis had its session today |
| `ProbeFunnel.Store.RecordProbeAnswer` | src/python/core/probe_funnel.py:436-496 | Accepts exactly the question of an active session's stage, the cap of five never rejecting anything; the session then has the question and the node more and goes from Fact to Context to Emotion to Meaning, behind which it is closed |
| `ProbeFunnel.Store.EveryRun` | src/python/core/probe_funnel.py:366-496 | In every run at most one session is active, an answered stage has the one before it answered, an active session is at a stage not yet answered or the last one, a closed session means a complete axis, and five questions are never reached |

## Left out

- LsmStore.Index.Sync: crash-free runs under one embedder only; a crash between deleting old segments and saving the manifest, the legacy bootstrap and a change of embedder are not modelled.
- CanonicalText.CanonicalIsOnePass: without NFC, so texts are taken as already normalised; the other steps are as in the code.
- LsmIndex.StoredText: a chunk is its date, title and text; other entries of the metadata file, which no search depends on, are not modelled.
- DiarySearch.SyncAndSearch: the boost that search_daily gives to days with both sources is not modelled.
- TopKSearch.TopK.Push: states the new list through the insertion it performs; PushKeepsTopK says that this list is the k best.
- PrivacySearch.EgressSanitizer.ValidateQuery: normalisation, canonical form and byte length are given functions, not the Unicode tables.
- Redactor.GenerateRedacted: lower-casing is per character, with the Kelvin sign as the one non-ASCII letter that lowers into a tag.
- JsonLine.LookupReturnsOwnValue: covers flat one-line objects with string and unsigned values, the lines the two programs exchange; nested objects are not written by either.
- DaemonProtocol.ReturnedHitsAreOurs: one client at a time, as the lock ensures; process start, restart after an error and the operating system's pipe limits are not modelled, and a call's timeout may come at any moment.
- DaemonLiveness.SearchSucceeds: a run that serves the search exists from every such state; that processes are scheduled to take it is not modelled.
- StateChain.Store.Save: the locked section is one step; lock files, fsync, symbolic links and files edited by someone else are not modelled, and a manifest is its parent, sequence number, session and one value for all other fields.
- ContextCompiler.CompileContext: text is already normalised and its length adds up; the sentence splitter is any function, the priority ranking any reordering, and `compile_atoms` and the returned working memory are not modelled.
- RetrievalManifest.LaneAgainstList: candidate fields that no number depends on (content hash, source type, rank, alias, kind) are not modelled.
- Coupling.ClipNeverActs: exact reals; the FFT, rounding, quantiles, the choice of the best lag and the null distribution of `coupling_matrix` are not modelled.
- Ranks.RankTransform: `argsort` is a given function that returns a permutation in value order.
- LineImport.LoadLineMessages: the regular expressions are replaced by the four kinds of line they tell apart.
- Sessions.ExtractGroupDailyLogs: the blocks are not rendered and their order within a day is not stated; the texts and headers of sessions are not rendered either.
- Sessions.ExtractConversationSessions: dates are numbers, those outside the calendar beyond the last day that datetime knows; digits are ASCII.
- ProbeFunnel.Store.ProbeNextQuestion: the axis with the highest priority is an input; priorities, insights and the store file are not modelled.
- Attestation.Build: the digest is represented by the bytes it digests.
- Segment files and the candidate table are values held in a field and replaced when changed, so aliasing between two open files is not captured.
- Scores are exact reals or not finite; the SIMD dot product, `%.9g` output and float parsing are not modelled.
- Memory maps, `_release_index_mapping`, process handling, the offline guard and tensor rows in the native engine are plumbing.
- The knowledge index (`sync_knowledge_index`) and the legacy whole-index rebuild are overwritten as a whole; calendar, finance and diary parsing are line-by-line readers.
- Profile heuristics, gap analysis, digital twin fitting, personas and prompts are keyword tables and statistics without a crisp specification.
