# IMDB_MIR indexing and ranking core, modelled in Dafny

This project models the indexing and ranking engine of the IMDB_MIR movie
search system and proves properties of it:

- the inverted index over preprocessed movie documents
  (`Logic/core/indexer/index.py`). It has a `documents` sub-index (id to
  document) and three posting sub-indexes, `stars`, `genres` and
  `summaries` (term to {document id to term frequency}). The index is built
  from a document list, looked up, and changed in place by adding and
  removing a document. The repository's own add/remove self-check is part of
  the model;
- the tiered index (`tiered_index.py`), which splits a posting sub-index
  into three tiers by the total of each term's counts;
- the metadata index (`metadata_index.py`): per-field average lengths and
  the document count;
- the scorer (`Logic/core/utility/scorer.py`): candidate documents, the
  cached idf, query term counts, and the vector-space, Okapi BM25 and
  unigram language-model scores;
- near-duplicate detection (`Logic/core/indexer/LSH.py`): shingling, the
  Jaccard score, the characteristic matrix, min-hashing and LSH banding;
- the spell corrector (`Logic/core/utility/spell_correction.py`) and the
  snippet finder (`Logic/core/utility/snippet.py`).

One module per source file, plus shared helpers:

| file | module | what |
|---|---|---|
| results.dfy | `Results` | `Result`/`Option` and the Python exceptions the source can raise |
| sums.dfy | `Sums` | `sum(d.values())`, independent of key order |
| text.dfy | `Text` | `str.split()`, `' '.join`, `str.lower()`, `Counter`, `list.index`, slicing |
| postings.dfy | `Postings` | one posting sub-index and its per-token increment and delete |
| index.dfy | `InvertedIndex` | the `Index` class, its builders, add, remove and the self-check |
| tiered_index.dfy | `TieredIndex` | `Tiered_index` |
| metadata_index.dfy | `DocumentMetadata` | `Metadata_index` |
| scorer.dfy | `Scoring` | the `Scorer` class and the three scoring models |
| shingling.dfy | `Shingling` | `shingle_document`/`shingle_word` and `jaccard_score` |
| lsh.dfy | `Lsh` | `MinHashLSH` |
| spell_correction.dfy | `SpellCorrector` | `SpellCorrection` |
| snippet.dfy | `SnippetFinder` | `Snippet` |

The source's objects become classes whose fields the methods update. Each
method is proved against a specification function, for example
`AddDocument`, `RemoveDocument`, `TieringOf`, `Score` or `Buckets`. The
properties are proved about those functions as lemmas.

Behaviour kept exactly as the source has it:

- **Genres.** `index_genres` keys each whole genre string, but
  `add_document_to_index` and `remove_document_from_index` split genres on
  whitespace. A built document with a two-word genre therefore cannot be
  removed.
- **Repeated tokens.** Removal deletes once per token occurrence, so a field
  with a repeated token makes removal raise `KeyError`.
- **Lookups.** A lookup of an absent term in a built posting sub-index (a
  `defaultdict`) inserts an empty posting map.
- **The `l` tf code.** Its log guard tests `tf < 0`, so the weight is 0 for
  every real count.
- **Min-hash.** `np.intersect1d` sorts, so the permutation has no effect.
- **Bucket keys.** A bucket key depends on the band's values only, not on
  the band number, so equal slices of different bands share a bucket
  (`Lsh.SharedBucket`).
- **The spell table.** The shingle union is never stored, so every entry is
  empty and `spell_check` changes no word.
- **Spell candidates.** The candidate score is the boolean `jaccard > 0`.

Outside the model (each is a parameter):

- Floating point is `real`, and `np.log` is a function parameter `ln`.
- The random permutations of min-hashing.
- The md5 bucket key.
- The English stop-word list.

## Model

| member | source | states |
|---|---|---|
| Text.Split | Logic/core/utility/snippet.py:69 | `str.split()`: every result element is a non-empty word with no whitespace |
| Text.Lower | Logic/core/utility/snippet.py:40 | `str.lower()` keeps the length and lower-cases character by character |
| Text.Counts | Logic/core/utility/scorer.py:92 | `get_query_tfs`: the counter's keys are exactly the query's terms |
| Text.CountsTotal | Logic/core/utility/scorer.py:92 | the query term counts add up to the query length |
| Text.IndexOf | Logic/core/utility/snippet.py:76 | `list.index`: the position of the first occurrence |
| Text.SplitJoin | Logic/core/utility/snippet.py:42 | joining words with single spaces and splitting again gives the words back |
| Text.Slice | Logic/core/indexer/LSH.py:107 | a Python slice: within bounds it is `s[lo..hi]`, empty when `hi <= lo`, and never longer than the sequence |
| Sums.SumValues | Logic/core/indexer/tiered_index.py:66 | the loop over the keys computes `sum(counts.values())` |
| Sums.SumRemove | Logic/core/indexer/tiered_index.py:66 | a sum over a dict is one value plus the sum of the rest, so key order does not matter |
| Postings.AddTokens | Logic/core/indexer/index.py:150-155 | the counting loop of one field, token by token (`idx[term][id] += 1`, starting from 1); its meaning is stated by the lemmas `AddTokensTf`, `AddTokensWellFormed`, `AddTokensMentioned` and `AddTokensOthers` below |
| Postings.AddTokensTf | Logic/core/indexer/index.py:151-155 | after counting tokens for document d, each (term, d) frequency rises by the term's number of occurrences and nothing else changes |
| Postings.AddTokensWellFormed | Logic/core/indexer/index.py:151-155 | counting tokens keeps every posting map non-empty and every count at least 1 |
| Postings.AddTokensMentioned | Logic/core/indexer/index.py:152-155 | a counted term's posting map is the old one with d's count raised by its number of occurrences |
| Postings.AddTokensOthers | Logic/core/indexer/index.py:151-155 | a term not among the tokens keeps its posting map |
| Postings.AddTokensAdded | Logic/core/indexer/index.py:151-155 | counting tokens is exactly the per-token increment (`Added`) |
| Postings.AddTokensAppend | Logic/core/indexer/index.py:150-151 | counting two token lists in turn is counting their concatenation |
| Postings.SameTfEqual | Logic/core/indexer/index.py:56-59 | two well-formed sub-indexes with the same frequencies are equal |
| Postings.Delete | Logic/core/indexer/index.py:177-179 | one `del idx[term][id]` plus the pop of an emptied term: raises iff the term has no entry for the id; a raise on a present term changes nothing; afterwards the entry is gone; no entry is ever added |
| Postings.DeleteTf | Logic/core/indexer/index.py:177-179 | deleting an existing (term, d) entry does not raise, zeroes that frequency only, and drops a term left empty |
| Postings.RemoveTokensRaisedStays | Logic/core/indexer/index.py:175-177 | once a deletion raises, the later tokens are not processed |
| Postings.RemoveTokens | Logic/core/indexer/index.py:175-179 | the deleting loop of one field, stopping at the first `KeyError`: it never adds an entry, and when nothing raised it never adds a term |
| Postings.RemoveTokensSpec | Logic/core/indexer/index.py:175-179 | removal succeeds iff the tokens are distinct and each has an entry for d; then exactly those entries are gone |
| Postings.RemoveLastSpec | Logic/core/indexer/index.py:177-179 | one more deletion succeeds iff the token is new and has an entry |
| Postings.AddThenRemoveTokens | Logic/core/indexer/index.py:151-155 | for a fresh id and distinct tokens, deleting after counting restores the sub-index |
| InvertedIndex.KindOf | Logic/core/indexer/index.py:17-22 | an index-type name maps to the sub-index of that name, or to none when no sub-index has it |
| InvertedIndex.WithSub | Logic/core/indexer/index.py:145-155 | replacing one posting sub-index leaves the documents and the other sub-indexes unchanged |
| InvertedIndex.IndexDocuments | Logic/core/indexer/index.py:36 | every stored document sits under its own id |
| InvertedIndex.IndexDocumentsKeys | Logic/core/indexer/index.py:36 | the keys are exactly the ids of the documents |
| InvertedIndex.IndexDocumentsLast | Logic/core/indexer/index.py:36 | a duplicate id keeps its last document |
| InvertedIndex.BuildField | Logic/core/indexer/index.py:52-59 | the builder of one posting sub-index over all documents in order; `BuildFieldCounts` states its counts and well-formedness |
| InvertedIndex.BuildFieldCounts | Logic/core/indexer/index.py:52-59 | a built posting sub-index is well formed, and `index[term][id]` is the document's number of occurrences of the term (tokens for stars and summaries, whole entries for genres) |
| InvertedIndex.GenreTermsUnsplit | Logic/core/indexer/index.py:76-82 | the genres builder uses each whole genre string as the term |
| InvertedIndex.Build | Logic/core/indexer/index.py:15-22 | the four sub-indexes the constructor builds; `BuildWellFormed` and `IndexDocumentsKeys` state what they hold |
| InvertedIndex.BuildWellFormed | Logic/core/indexer/index.py:15-22 | the built index stores each document under its id, and every posting sub-index is well formed |
| InvertedIndex.IndexField | Logic/core/indexer/index.py:97-106 | the builder loop computes the field's sub-index, in which each frequency is the document's term count |
| InvertedIndex.PostingList | Logic/core/indexer/index.py:126-130 | only a known index type gives ids; on the documents index it gives ids iff the word is a stored id, and on a posting index only for a term that is indexed |
| InvertedIndex.AfterLookup | Logic/core/indexer/index.py:126-130 | the lookup leaves the documents alone, does not change what the same lookup returns, and leaves the term present in a posting sub-index |
| InvertedIndex.PostingListSpec | Logic/core/indexer/index.py:126-130 | `get_posting_list` returns exactly the ids under the term, and nothing for an absent term or an unknown index type |
| InvertedIndex.LookupOfAbsentTermAddsEmptyPosting | Logic/core/indexer/index.py:128 | looking up an absent term inserts an empty posting map, which breaks the sub-index invariant |
| InvertedIndex.AddDocument | Logic/core/indexer/index.py:143-155 | stores the document under its id, and raises iff one of the three fields is absent |
| InvertedIndex.AddDocumentSpec | Logic/core/indexer/index.py:143-155 | adding stores the document under its id. It raises iff a field is absent. Otherwise each field gains one count per token and the invariant holds |
| InvertedIndex.RemoveAbsentIsNoOp | Logic/core/indexer/index.py:169-171 | removing an id that is not stored changes nothing and does not raise |
| InvertedIndex.RemoveDocument | Logic/core/indexer/index.py:169-179 | pops the id from the documents; an id that is not stored changes nothing, and only a stored id can raise |
| InvertedIndex.RemoveDocumentSpec | Logic/core/indexer/index.py:169-179 | removing pops the document. It succeeds iff every field's tokens are removable; then exactly the document's entries are gone, emptied terms are dropped and the invariant holds |
| InvertedIndex.FieldRemoval | Logic/core/indexer/index.py:174-179 | one field's removal succeeds iff its tokens are removable, and then removes exactly them |
| InvertedIndex.RemoveRepeatedTokenRaises | Logic/core/indexer/index.py:177 | a field with a repeated token makes removal raise |
| InvertedIndex.AddThenRemove | Logic/core/indexer/index.py:202-262 | for a fresh id, all fields present and no token repeated within a field, add then remove restores the whole index |
| InvertedIndex.CheckAddRemovePasses | Logic/core/indexer/index.py:190-262 | on any well-formed index without id `100`, the self-check reports `Remove is correct` |
| InvertedIndex.DummyAddGains | Logic/core/indexer/index.py:203-244 | adding the dummy document does not raise, stores it, and each of the five checked terms gains exactly id `100` |
| InvertedIndex.DummyRemoves | Logic/core/indexer/index.py:246-262 | removing the dummy gives back the saved copy with the dummy keys tidied away |
| InvertedIndex.NoFailure | Logic/core/indexer/index.py:211-244 | when all five terms gained exactly `100`, no add check fails |
| InvertedIndex.FirstFailureStep | Logic/core/indexer/index.py:211-244 | a check that passes moves on to the next one |
| InvertedIndex.TidyWellFormed | Logic/core/indexer/index.py:181-187 | on a well-formed index, `check_if_key_exists` then `delete_dummy_keys` restore the saved copy |
| InvertedIndex.GainedMentioned | Logic/core/indexer/index.py:213-214 | a term the added document mentions gains exactly that document's id |
| InvertedIndex.DummyTerms | Logic/core/indexer/index.py:195-200 | the dummy's fields split into `tim henry`, `drama crime` and `good` |
| InvertedIndex.DummyDistinct | Logic/core/indexer/index.py:195-200 | no dummy field repeats a token |
| InvertedIndex.GenreWithSpaceCannotBeRemoved | Logic/core/indexer/index.py:78 | a built document with the genre `w1 w2` is indexed under `w1 w2`, not `w1`, and removing it raises |
| InvertedIndex.OneGenreBuild | Logic/core/indexer/index.py:75-83 | building one document with one genre indexes that whole genre once |
| InvertedIndex.TwoWordGenreTerms | Logic/core/indexer/index.py:151 | add and remove split the genre `w1 w2` into the two terms |
| InvertedIndex.Index.constructor | Logic/core/indexer/index.py:15-22 | the index holds the build of the documents and is well formed |
| InvertedIndex.Index.SetSub | Logic/core/indexer/index.py:145-155 | replaces one posting sub-index and nothing else |
| InvertedIndex.Index.GetPostingList | Logic/core/indexer/index.py:126-130 | returns the posting list; the state afterwards includes the lookup's insertion |
| InvertedIndex.Index.AddDocumentToIndex | Logic/core/indexer/index.py:143-155 | appends the document, applies the add (stopping where it raises), and keeps the invariant when it does not raise |
| InvertedIndex.Index.AddField | Logic/core/indexer/index.py:149-155 | the nested loop counts every token of every entry |
| InvertedIndex.Index.RemoveField | Logic/core/indexer/index.py:174-179 | an absent field raises; otherwise the loop is the per-token removal |
| InvertedIndex.Index.RemoveDocumentFromIndex | Logic/core/indexer/index.py:169-179 | applies the removal (stopping where it raises), leaves the document list alone, and keeps the invariant when it does not raise |
| InvertedIndex.Index.CheckAddRemoveIsCorrect | Logic/core/indexer/index.py:190-262 | returns the check's verdict; leaves the index with the dummy added, and removed again unless the add check failed; the dummy stays appended to the preprocessed documents |
| InvertedIndex.Index.FindFailure | Logic/core/indexer/index.py:211-244 | finds the first checked term that did not gain exactly `100` |
| InvertedIndex.AddItems | Logic/core/indexer/index.py:150-155 | the entry loop counts the entries' terms |
| InvertedIndex.AddTerms | Logic/core/indexer/index.py:151-155 | the token loop counts the tokens |
| InvertedIndex.RemoveItems | Logic/core/indexer/index.py:175-179 | the entry loop deletes the entries' tokens, stopping at the first raise |
| InvertedIndex.TermsAppend | Logic/core/indexer/index.py:150-151 | the terms of two entry lists are the terms of each, concatenated |
| TieredIndex.TieringOfIsTiering | Logic/core/indexer/tiered_index.py:65-72 | the tiering exists: first tier iff total > t1, second iff t2 < total <= t1, third otherwise, maps unchanged |
| TieredIndex.TieringOf | Logic/core/indexer/tiered_index.py:65-72 | the three tiers computed by threshold; `TieringOfIsTiering` proves they meet `IsTiering` |
| TieredIndex.IsTiering | Logic/core/indexer/tiered_index.py:65-72 | the independent description of a tiering: each term in the tier its total selects (a total equal to a threshold falls lower), with its posting map unchanged |
| TieredIndex.TieringUnique | Logic/core/indexer/tiered_index.py:65-72 | at most one triple of tiers meets that description |
| TieredIndex.TieringPartitions | Logic/core/indexer/tiered_index.py:65-72 | the tiers are pairwise disjoint and together hold exactly the index's terms |
| TieredIndex.TieringMonotone | Logic/core/indexer/tiered_index.py:67-72 | a term with a larger total is in the same tier or a higher one |
| TieredIndex.GenresThirdTierEmpty | Logic/core/indexer/tiered_index.py:26 | with thresholds (1, 0) on a well-formed index, no term reaches the third tier |
| TieredIndex.Tiered.constructor | Logic/core/indexer/tiered_index.py:17-27 | holds the three sub-indexes and their tierings with thresholds (3, 2), (10, 5) and (1, 0) |
| TieredIndex.Tiered.ConvertToTieredIndex | Logic/core/indexer/tiered_index.py:57-78 | raises `ValueError` for an index name not held (`documents`); otherwise returns the tiering |
| DocumentMetadata.FieldLength | Logic/core/indexer/metadata_index.py:61-64 | what one document adds: the length of a truthy field, 0 for an absent, `None` or empty one |
| DocumentMetadata.Lengths | Logic/core/indexer/metadata_index.py:60-64 | one length per stored document |
| DocumentMetadata.TotalLength | Logic/core/indexer/metadata_index.py:59-64 | the summed lengths over all stored documents; `AverageBounds` bounds it |
| DocumentMetadata.Average | Logic/core/indexer/metadata_index.py:59-65 | the total divided by the number of documents; `AverageBounds` places it between 0 and the largest length |
| DocumentMetadata.AverageBounds | Logic/core/indexer/metadata_index.py:59-65 | the average lies between 0 and the largest field length |
| DocumentMetadata.EmptyFieldStillCounted | Logic/core/indexer/metadata_index.py:61-65 | a document whose field is absent, `None` or empty adds nothing to the total but still counts in the denominator |
| DocumentMetadata.MetadataIndex.constructor | Logic/core/indexer/metadata_index.py:18-19 | builds the metadata, or `ZeroDivisionError` for no documents |
| DocumentMetadata.MetadataIndex.CreateMetadataIndex | Logic/core/indexer/metadata_index.py:34-46 | raises `ZeroDivisionError` iff there are no documents; otherwise the document count and the three field averages |
| DocumentMetadata.MetadataIndex.GetAverageDocumentFieldLength | Logic/core/indexer/metadata_index.py:48-65 | the loop computes total length divided by the number of documents; no documents gives `ZeroDivisionError`, not 0 |
| Scoring.Candidates | Logic/core/utility/scorer.py:45-49 | a document is a candidate iff some query term in the index has a posting for it |
| Scoring.CandidatesContributing | Logic/core/utility/scorer.py:45-49 | there are candidates iff some query term has a non-empty posting map |
| Scoring.Idf | Logic/core/utility/scorer.py:72 | `np.log(N / df)` for an indexed term with a non-empty posting map; `IdfResult` adds the error cases |
| Scoring.IdfResult | Logic/core/utility/scorer.py:72 | `log(N / df)`, `KeyError` for a term not in the index, `ZeroDivisionError` for an empty posting map |
| Scoring.SplitMethod | Logic/core/utility/scorer.py:116 | `method.split('.')` unpacks into two parts iff the code has exactly one dot, and the parts rejoin to the code |
| Scoring.Smoothed | Logic/core/utility/scorer.py:340-345 | the smoothed probability raises `ZeroDivisionError` exactly when its smoothing has a zero denominator |
| Scoring.TermScoreOfApply | Logic/core/utility/scorer.py:153 | the per-term function gives each term's score |
| Scoring.FoldAppend | Logic/core/utility/scorer.py:153-176 | the score of a concatenated query is the sum of the parts' scores, or the first error |
| Scoring.FoldErrIff | Logic/core/utility/scorer.py:153-176 | a score raises iff some query term raises |
| Scoring.TermScore | Logic/core/utility/scorer.py:153-176 | one query term's contribution to a document's score, or what it raises, for the vector-space, BM25 and unigram models; the lemmas below state its zero and error cases |
| Scoring.Score | Logic/core/utility/scorer.py:153-176 | the score loops: the terms' contributions added in order, stopping at the first exception; `FoldAppend`, `FoldErrIff` and `ScoreErrIff` state it |
| Scoring.ScoreErrIff | Logic/core/utility/scorer.py:153-176 | the same, for each scoring model |
| Scoring.FoldErrStays | Logic/core/utility/scorer.py:153-176 | once a prefix of the query raises, the whole query raises the same error |
| Scoring.FoldStep | Logic/core/utility/scorer.py:176 | `score += term_score`, one term at a time |
| Scoring.FoldSingle | Logic/core/utility/scorer.py:151-176 | a one-term query scores that term |
| Scoring.DropZeroTerm | Logic/core/utility/scorer.py:154 | a term that contributes 0 can be dropped from the query |
| Scoring.TimesIsProduct | Logic/core/utility/scorer.py:176 | adding one weight k times is k times the weight |
| Scoring.RepeatedTerm | Logic/core/utility/scorer.py:153-176 | a query term repeated k times contributes k times its weight |
| Scoring.VectorSpaceAbsentTerm | Logic/core/utility/scorer.py:154 | a term absent from the index, or with an empty posting map, contributes 0 |
| Scoring.VectorSpaceLogCodeZero | Logic/core/utility/scorer.py:160 | with an `l` tf code on either side, every document scores 0, because the guard is `tf < 0` |
| Scoring.VectorSpaceErrIff | Logic/core/utility/scorer.py:159-175 | a vector-space score raises iff the codes are unusable and some query term is in the index; it raises `IndexError` for a short code and `UnboundLocalError` for an unknown df letter |
| Scoring.CandidateErrIff | Logic/core/utility/scorer.py:118-119 | for a candidate document the score raises iff the codes are unusable |
| Scoring.Bm25ZeroTerm | Logic/core/utility/scorer.py:248-256 | a term absent from the index, or with tf 0 in the document, contributes 0 |
| Scoring.Bm25Defined | Logic/core/utility/scorer.py:241-258 | on a well-formed index with positive average length, BM25 never raises |
| Scoring.UnigramErrIff | Logic/core/utility/scorer.py:336-347 | a unigram score raises iff the query is non-empty and the smoothing divides by zero |
| Scoring.UnigramNaiveZeroTf | Logic/core/utility/scorer.py:343-347 | naive smoothing with tf 0 contributes 0 instead of a log |
| Scoring.UnigramUnknownSmoothing | Logic/core/utility/scorer.py:340-347 | an unknown smoothing name uses the raw tf, without error |
| Scoring.UnigramScoreError | Logic/core/utility/scorer.py:341-345 | the only error a unigram score can raise is `ZeroDivisionError` |
| Scoring.Scorer.constructor | Logic/core/utility/scorer.py:19-21 | holds the index and `N` with an empty idf cache |
| Scoring.Scorer.GetListOfDocuments | Logic/core/utility/scorer.py:45-49 | returns the candidate documents, without duplicates |
| Scoring.Scorer.ListOf | Logic/core/utility/scorer.py:49 | `list(set(...))` lists each element once |
| Scoring.Scorer.GetIdf | Logic/core/utility/scorer.py:70-74 | returns the idf or its error. A new value is cached, a cached value is returned unchanged, and the cache stays consistent |
| Scoring.Scorer.GetVectorSpaceModelScore | Logic/core/utility/scorer.py:151-178 | computes the vector-space score of the document |
| Scoring.Scorer.AddVectorSpaceTerm | Logic/core/utility/scorer.py:153-176 | one loop step adds the term's weight to the running score |
| Scoring.Scorer.VectorSpaceTerm | Logic/core/utility/scorer.py:154-175 | one term's contribution or error |
| Scoring.Scorer.Weight | Logic/core/utility/scorer.py:159-173 | the weight is bound iff the df letter is `t` or `n`, and is then tf times idf |
| Scoring.Scorer.ComputeScoresWithVectorSpaceModel | Logic/core/utility/scorer.py:112-122 | `ValueError` for a code without exactly one dot. Raises iff there are candidates and unusable codes; otherwise each candidate's score, keyed by exactly the candidates |
| Scoring.Scorer.ScoreDocumentsWithVectorSpaceModel | Logic/core/utility/scorer.py:118-122 | scores every listed candidate, or raises the codes' error |
| Scoring.Scorer.GetOkapiBm25Score | Logic/core/utility/scorer.py:241-258 | computes the BM25 score with k1 = 1.5 and b = 0.75; the only possible error is `ZeroDivisionError` |
| Scoring.Scorer.AddBm25Term | Logic/core/utility/scorer.py:247-256 | one loop step of the BM25 sum |
| Scoring.Scorer.Bm25Term | Logic/core/utility/scorer.py:248-255 | one term's BM25 contribution or error |
| Scoring.Scorer.ComputeScoresWithOkapiBm25 | Logic/core/utility/scorer.py:207-214 | raises iff some candidate's score raises; otherwise each candidate's score, keyed by exactly the candidates |
| Scoring.Scorer.ComputeScoreWithUnigramModel | Logic/core/utility/scorer.py:332-349 | computes the unigram score with the document's length and the model size |
| Scoring.Scorer.AddUnigramTerm | Logic/core/utility/scorer.py:336-347 | one loop step of the unigram sum |
| Scoring.Scorer.UnigramTerm | Logic/core/utility/scorer.py:337-347 | one term's unigram contribution, with the collection frequency summed over the documents of known length |
| Scoring.Scorer.ComputeScoresWithUnigramModel | Logic/core/utility/scorer.py:288-300 | raises iff some candidate's smoothing divides by zero; otherwise each candidate's score, keyed by exactly the candidates |
| Shingling.Shingles | Logic/core/indexer/LSH.py:39 | every shingle has length k |
| Shingling.ShinglesSpec | Logic/core/utility/spell_correction.py:34 | a string is a shingle iff it is a length-k substring; there are none when the text is shorter than k |
| Shingling.ShinglesNonEmpty | Logic/core/indexer/LSH.py:39 | a text of length at least k has its first k characters as a shingle |
| Shingling.Jaccard | Logic/core/indexer/LSH.py:145-148 | the score lies in [0, 1] |
| Shingling.JaccardSymmetric | Logic/core/utility/spell_correction.py:56-59 | the score is symmetric |
| Shingling.JaccardPositive | Logic/core/utility/spell_correction.py:56-59 | the score is positive iff the sets intersect |
| Shingling.JaccardOne | Logic/core/indexer/LSH.py:145-148 | the score is 1 iff the sets are equal and non-empty |
| Lsh.AllShingles | Logic/core/indexer/LSH.py:52-53 | the distinct shingles are exactly those of some document |
| Lsh.AddShinglesSpec | Logic/core/indexer/LSH.py:53 | collecting shingles keeps them distinct and adds exactly the document's shingles |
| Lsh.Rows | Logic/core/indexer/LSH.py:52-54 | the matrix rows: the corpus's shingles in first-occurrence order; `RowsSpec` states them |
| Lsh.RowsSpec | Logic/core/indexer/LSH.py:52-54 | the matrix rows are distinct and are exactly the corpus's shingles |
| Lsh.ShingleInRows | Logic/core/indexer/LSH.py:53 | every document's shingle has a row |
| Lsh.EmptyColumn | Logic/core/indexer/LSH.py:75-76 | a column with no set cell belongs to a document shorter than 2 |
| Lsh.Column | Logic/core/indexer/LSH.py:107 | `signature[:, doc]` is the document's column |
| Lsh.Columns | Logic/core/indexer/LSH.py:104 | one column per document |
| Lsh.Sizes | Logic/core/indexer/LSH.py:109 | one bucket size per bucket |
| Lsh.DocBuckets | Logic/core/indexer/LSH.py:105-109 | one document's bands appended to their buckets; `DocBucketsIn` and `DocBucketsTotal` state it |
| Lsh.DocBucketsIn | Logic/core/indexer/LSH.py:105-109 | after one document's bands, a document is in a bucket iff it was already or it is this document and some band's key is that bucket |
| Lsh.DocBucketsTotal | Logic/core/indexer/LSH.py:105-109 | one document adds one entry per band |
| Lsh.Buckets | Logic/core/indexer/LSH.py:104-109 | every document's bands in turn; `BucketsIn` and `BucketsTotal` state it |
| Lsh.BucketsIn | Logic/core/indexer/LSH.py:104-109 | document e is in bucket k iff e is a document and some band of its column has key k |
| Lsh.BucketsTotal | Logic/core/indexer/LSH.py:104-109 | the bucket entries number bands × documents |
| Lsh.SharedBucket | Logic/core/indexer/LSH.py:106-109 | two documents with an equal band slice share a bucket, even when the bands differ |
| Lsh.IdenticalColumnsShareBuckets | Logic/core/indexer/LSH.py:106-109 | documents with identical columns are in the same buckets |
| Lsh.JoinAsWritten | Logic/core/indexer/LSH.py:108 | `','.join` of the slice succeeds only on an empty slice, giving the empty string |
| Lsh.LshBucketsAsWritten | Logic/core/indexer/LSH.py:99-111 | `lsh_buckets` as written: whenever it does not raise, it gives the buckets |
| Lsh.LshBucketsAsWrittenRaises | Logic/core/indexer/LSH.py:108 | as written, it raises `TypeError` on any signature with a hash row and a document |
| Lsh.MinHashLsh.constructor | Logic/core/indexer/LSH.py:20-21 | holds the documents and the number of hashes |
| Lsh.MinHashLsh.BuildCharacteristicMatrix | Logic/core/indexer/LSH.py:52-57 | one row per distinct shingle, one column per document, a cell set iff the document has that shingle |
| Lsh.MinHashLsh.MinOverOnes | Logic/core/indexer/LSH.py:75-76 | the minimum of the permuted set rows is the first set row, or none when the column is empty |
| Lsh.MinHashLsh.MinHashSignature | Logic/core/indexer/LSH.py:70-78 | raises `ValueError` iff some document has no shingle; otherwise each cell is the document's first shingle row, whatever the permutations |
| Lsh.MinHashLsh.FillRow | Logic/core/indexer/LSH.py:74-76 | fills one signature row with first set rows, fails iff some column is empty, and leaves the other rows alone |
| Lsh.MinHashLsh.LshBuckets | Logic/core/indexer/LSH.py:99-111 | `ValueError` iff bands × rows ≠ number of hashes; otherwise the bucket map |
| Lsh.MinHashLsh.PerformLsh | Logic/core/indexer/LSH.py:123-126 | with 10 bands of `num_hashes // 10` rows: raises iff some document is too short or the hash count is not a multiple of 10; otherwise bands × documents entries, all naming documents; the buckets are those of the min-hash columns, each entry the document's first shingle row |
| Lsh.MinHashColumns | Logic/core/indexer/LSH.py:70-78 | one column per document with one entry per hash: the document's first shingle row |
| Lsh.FirstRowFound | Logic/core/indexer/LSH.py:75-76 | the first shingle row of a document is the one a search from row 0 finds |
| Lsh.MinHashLsh.MinHashColumnsOf | Logic/core/indexer/LSH.py:70-78 | a signature of first rows has exactly the min-hash columns |
| Lsh.SameShinglesShareBuckets | Logic/core/indexer/LSH.py:123-126 | documents with the same shingles share every bucket of `perform_lsh` |
| SpellCorrector.CorpusWords | Logic/core/utility/spell_correction.py:82-83 | the corpus words are whitespace-free words |
| SpellCorrector.FirstOccurrences | Logic/core/utility/spell_correction.py:85-86 | the table's keys in insertion order: distinct, exactly the corpus words |
| SpellCorrector.TopFive | Logic/core/utility/spell_correction.py:114 | `candidates[:-6:-1]` keeps min(5, n) entries |
| SpellCorrector.CorrectWord | Logic/core/utility/spell_correction.py:140-142 | the first nearest word, or the word itself when there is none; by `NearestSpec` a replacement is a table word |
| SpellCorrector.CorrectWords | Logic/core/utility/spell_correction.py:139-142 | one corrected word per query word |
| SpellCorrector.Candidates | Logic/core/utility/spell_correction.py:109-111 | the table words with a positive Jaccard score, in table order, stored with the comparison's `True`; `CandidatesSpec` states it |
| SpellCorrector.CandidatesSpec | Logic/core/utility/spell_correction.py:109-111 | every candidate is a table word with a positive Jaccard score, stored with score `True` |
| SpellCorrector.SortByScore | Logic/core/utility/spell_correction.py:113 | the stable sort by score; `SortAllTrue` shows it changes nothing here |
| SpellCorrector.SortAllTrue | Logic/core/utility/spell_correction.py:113 | the stable sort leaves all-`True` candidates in place |
| SpellCorrector.NearestIsLastFive | Logic/core/utility/spell_correction.py:110-114 | the result is the last five candidates in reverse table order, whatever their Jaccard scores |
| SpellCorrector.Nearest | Logic/core/utility/spell_correction.py:106-116 | the five nearest words; `NearestIsLastFive` and `NearestSpec` state them |
| SpellCorrector.NearestSpec | Logic/core/utility/spell_correction.py:106-116 | at most five words, each a table word with a positive Jaccard score |
| SpellCorrector.TopFiveFromCandidates | Logic/core/utility/spell_correction.py:114 | each returned word is a candidate's word |
| SpellCorrector.EmptyTableNoCandidates | Logic/core/utility/spell_correction.py:86 | with only empty shingle sets stored, no word has a candidate |
| SpellCorrector.CorrectWordsAreWords | Logic/core/utility/spell_correction.py:139-142 | corrected words are still single words |
| SpellCorrector.CorrectWordsEmptyTable | Logic/core/utility/spell_correction.py:86 | with the table as built, no word changes |
| SpellCorrector.SpellCheckTokens | Logic/core/utility/spell_correction.py:136-143 | `spell_check` keeps the token count; splitting its result gives the corrected words |
| SpellCorrector.SpellCheckAsBuilt | Logic/core/utility/spell_correction.py:86 | with the table the constructor builds, `spell_check` only normalises whitespace |
| SpellCorrector.SpellCorrection.constructor | Logic/core/utility/spell_correction.py:14 | the table's keys are the corpus words in first-occurrence order with empty values; the counter holds each word's count |
| SpellCorrector.SpellCorrection.ShinglingAndCounting | Logic/core/utility/spell_correction.py:79-88 | every corpus word becomes a key with an empty set; the counter is `Counter` of the corpus words |
| SpellCorrector.SpellCorrection.CountWords | Logic/core/utility/spell_correction.py:84 | `word_counter += Counter(words)` |
| SpellCorrector.SpellCorrection.TableWords | Logic/core/utility/spell_correction.py:85-86 | the lookup inserts each new word with an empty set; the union is discarded |
| SpellCorrector.SpellCorrection.FindNearestWords | Logic/core/utility/spell_correction.py:106-116 | returns the nearest words |
| SpellCorrector.SpellCorrection.SpellCheck | Logic/core/utility/spell_correction.py:135-145 | returns the corrected words joined by single spaces |
| SnippetFinder.Highlight | Logic/core/utility/snippet.py:79 | `***word***` adds six characters |
| SnippetFinder.DropStopWords | Logic/core/utility/snippet.py:41 | keeps exactly the words that are not stop words |
| SnippetFinder.QueryWords | Logic/core/utility/snippet.py:40-41 | the kept query words are lower-cased words of the query, none a stop word |
| SnippetFinder.FilteredQueryWords | Logic/core/utility/snippet.py:42 | the filtered query splits back into exactly the kept words |
| SnippetFinder.Window | Logic/core/utility/snippet.py:77-79 | the words around position i with that word highlighted; `WindowSpec` states them |
| SnippetFinder.SnippetOf | Logic/core/utility/snippet.py:76-80 | the joined window at the word's first occurrence |
| SnippetFinder.WindowSpec | Logic/core/utility/snippet.py:77-79 | the window holds at most 2n + 1 words, has the highlighted word at its offset, and the document's own words elsewhere |
| SnippetFinder.Snippets | Logic/core/utility/snippet.py:74-80 | one snippet per query word that occurs, in query order; `SnippetsPartition` and `SnippetsNonEmpty` state them |
| SnippetFinder.Missing | Logic/core/utility/snippet.py:74-82 | the query words that do not occur, in order and with repeats; `SnippetsPartition` states them |
| SnippetFinder.SnippetsPartition | Logic/core/utility/snippet.py:74-82 | every query word is either snippeted or missing; the missing list keeps each absent word's repeats |
| SnippetFinder.SnippetsNonEmpty | Logic/core/utility/snippet.py:75-80 | there is a snippet iff some query word occurs, and no snippet is empty |
| SnippetFinder.FinalSnippetEmpty | Logic/core/utility/snippet.py:84 | the final snippet is empty iff no query word occurs |
| SnippetFinder.JoinLength | Logic/core/utility/snippet.py:84 | a joined string is at least as long as each part |
| SnippetFinder.Snippet.constructor | Logic/core/utility/snippet.py:20-21 | holds the window size and the stop words |
| SnippetFinder.Snippet.RemoveStopWordsFromQueryAsWritten | Logic/core/utility/snippet.py:40-42 | as written: raises `AttributeError` iff the lower-cased query has at least one word; a query without words gives `''` |
| SnippetFinder.Snippet.RemoveStopWordsFromQuery | Logic/core/utility/snippet.py:40-42 | the filter reading the stop words the constructor stores: the result splits back into exactly the lower-cased query words that are not stop words |
| SnippetFinder.Snippet.FindSnippet | Logic/core/utility/snippet.py:63-86 | the snippets of the filtered query words joined by ` ... `, and the missing words |
| SnippetFinder.Snippet.CollectSnippets | Logic/core/utility/snippet.py:74-82 | the loop builds exactly the snippets and the missing words, in query order |

## Left out

- File input and output: `store_index`, `load_index` and `check_if_index_loaded_correctly` (index.py:264-321), `store_tiered_index`, `read_documents`, `store_metadata_index`. The `Index_reader` loads in the constructors become constructor parameters holding the loaded maps.
- `check_if_indexing_is_good` (index.py:323-384) compares wall-clock times.
- The `print` output of `check_add_remove_is_correct` is a `Verdict` value.
- `Logic/core/indexer/indexes_enum.py` is not part of this model; the four sub-index names are a closed datatype `Kind`.
- `np.random.permutation` (LSH.py:73): the permutations are a parameter of `MinHashSignature` and `PerformLsh`.
- `jaccard_similarity_test` (LSH.py:150-196): random sampling and a printed score.
- md5 (LSH.py:108): an arbitrary key function of the band values.
- Lsh.MinHashLsh.BuildCharacteristicMatrix: models the evident intent (one row per distinct shingle in first-occurrence order, cell set iff the document has the shingle). `np.unique` on a numpy array of sets, `np.isin` and the row order numpy would give are library behaviour outside the model.
- Floating point: every float is a `real`, `np.log` is the collection's function `ln`, and `np.inf` initial cells are not modelled. Rounding, infinities and NaN are outside the model; so are numpy's divide-by-zero warnings, because Python's own divisions by zero raise `ZeroDivisionError`.
- `compute_cosine_norm` (scorer.py:180-181) is an empty stub. The third letter of a SMART code is never read.
- `compute_scores_with_unigram_model`'s default `document_lengths=None` would raise on `.get`. The model takes a map.
- InvertedIndex.Index.GetPostingList: returns the posting list as a set of ids; the source returns a list in insertion order, and that order is not modelled.
- Default arguments (`number_of_words_on_each_side=5` at snippet.py:11, `alpha=0.5` and `lamda=0.5` at scorer.py:261): the callers pass these values explicitly.
- Scoring.Scorer.GetListOfDocuments: the order of `list(set(...))` is not modelled, only its elements and their distinctness.
- Dictionary and set iteration orders are not modelled where the result does not depend on them. The spell table's insertion order matters, and is modelled.
- Text.Lower: models `str.lower()` on ASCII letters only. Python's full Unicode case mapping also lowers other letters and can change a string's length (`'İ'.lower()` has two characters), which the "keeps the length" contract does not reflect.
- The English stop-word list from nltk is a constructor parameter of `Snippet`.
- Crawler, preprocessing and the BERT fine-tuner are outside the core; they are network, foreign-library and training code.

## Findings

| source | as written | input that shows it | evidently intended | confidence | as-written member | corrected member |
|---|---|---|---|---|---|---|
| Logic/core/indexer/LSH.py:108 | `','.join(band_signature)` joins numpy floats, which raises `TypeError` | any signature with at least one hash row and one document, e.g. `num_hashes = 10`, one document | join the values as strings and hash the slice, so each (document, band) goes to one bucket | not executed | Lsh.LshBucketsAsWrittenRaises | Lsh.MinHashLsh.LshBuckets |
| Logic/core/utility/snippet.py:41 | `remove_stop_words_from_query` reads `self.stop_words`, but `__init__` sets `self.stopwords` (line 21), so any query with at least one word raises `AttributeError`, and so does `find_snippet` | any query with a word, e.g. `find_snippet("a b", "a")` | filter the query with the stop words the constructor stores | not executed | SnippetFinder.Snippet.RemoveStopWordsFromQueryAsWritten | SnippetFinder.Snippet.FindSnippet |
