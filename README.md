# FAQ retrieval core, modelled in Dafny

This project models the retrieval core of an FAQ question-answering service.

- **Knowledge-base parser.** It reads `Q: … A: …` pairs out of a text file, cleans their whitespace, numbers them by match position, and looks them up by id or keyword.
- **TF-IDF keyword index.** It preprocesses the text, fits with a fallback vectorizer, selects the top `n` positive similarities, picks the important terms, and explains a match.
- **Vector-store wrapper.** It builds the ChromaDB records, converts a cosine distance into a similarity, reads search answers, and suggests similar questions.
- **In-memory similarity.** It computes cosine similarity with a zero-norm guard, ranks the top `k`, and guards the embedding request against empty text.
- **Hybrid RAG service.** It checks the weights and fuses semantic and keyword hits into `results_map`, an upsert keyed by question id. It ranks the hits by weighted score and cuts the list at `n_results`. It also builds the character-budgeted context for the language model and explains results by match type.

Modules:

- `Wrappers`: `Option` and `Result`.
- `Text`: Python's `str.split`, `join`, `strip`, ASCII `lower`, `in`, and the decimal form of an integer.
- `Ranking`: a stable sort of positions by a real key, with the tie rule as a parameter.
- `KbParser`, `Tfidf`, `VectorStore`, `Embeddings`, `HybridRag`: one module per source file.

Choices in the model:

- Each class whose fields the source updates is a Dafny `class`: the parser, the TF-IDF service and the RAG service.
- Loops in the source are `method`s. Each is proved equal to a specification function, or proved to meet the property directly. The properties are then lemmas about those functions.
- Outside services are parameters:
  - the embedding HTTP request: `string -> Result<seq<real>, EmbedError>`;
  - the ChromaDB collection's query: a function from an embedding and a count to the store's parallel answer lists;
  - the TF-IDF vectorizer's outputs: the similarity vector, the vocabulary and term weights, and whether each vectorizer's fit succeeds;
  - the square root.
- Python exceptions become `Failure` values:
  - the `ValueError` of a missing id or of an empty knowledge base;
  - the empty-text `ValueError`;
  - the `IndexError` of a short store answer or of an out-of-range negative index;
  - the failed weight assertion.
- Floats are modelled as reals.

## Model

| member | source | states |
|---|---|---|
| KbParser.ToTextInjective | app/kb_parser.py:28-44 | `to_text`, the `full_text` of `to_dict`, loses nothing: two pairs whose questions have no newline and whose texts agree have the same question and answer |
| KbParser.CleanTextSpec | app/kb_parser.py:122-141 | `_clean_text` equals `' '.join(text.split())`, has no whitespace at either end and only single spaces inside, keeps the words in order, and is idempotent |
| KbParser.TidyNoNewline | app/kb_parser.py:133-139 | cleaned text contains no newline |
| KbParser.ScanMatches | app/kb_parser.py:86-89 | each match found satisfies the pattern `Q:\s*(.*?)\s*A:\s*(.*?)(?=Q:\|$)` under DOTALL: lazy question up to the first `A:`, lazy answer up to the next `Q:` or the end |
| KbParser.ScanLeftmost | app/kb_parser.py:86-89 | `findall` is leftmost and non-overlapping: no match starts before the first match, between two matches or after the last |
| KbParser.ScanLeftmostHit | app/kb_parser.py:86-89 | where a match can start, the scan reports it first |
| KbParser.ScanLeftmostMiss | app/kb_parser.py:86-89 | where no match can start, the scan moves one position on and still skips nothing |
| KbParser.NoMatchStartMeans | app/kb_parser.py:86-89 | the gap predicate used above holds exactly when no match can start anywhere in the range |
| KbParser.MatchGroups | app/kb_parser.py:86-89 | for one match of the pattern: the question group holds no `A:`, the answer group holds no `Q:`, and the question group has no whitespace at either end |
| KbParser.FindAllGroups | app/kb_parser.py:86-89 | the same for every pair of groups `re.findall` returns |
| KbParser.EntryOptions | app/kb_parser.py:93-105 | the entry built from match `i` carries id `i`, its position among all matches |
| KbParser.SurvivorsStep | app/kb_parser.py:99-105 | one iteration of the loop appends the entry at the next position, if there is one, and keeps the ids increasing and the kept pairs complete |
| KbParser.SurvivorsSpec | app/kb_parser.py:93-105 | the kept pairs are exactly the matches with non-empty cleaned question and answer, in order; ids strictly increase, so they are unique, and can have gaps |
| KbParser.BuildEntriesSpec | app/kb_parser.py:93-105 | the same for the groups of the matches: every kept pair is `EntryOf` its group and every non-empty group is kept |
| KbParser.EntriesClean | app/kb_parser.py:93-105 | every stored pair has a non-empty, cleaned question and answer taken from match `id` |
| KbParser.KnowledgeBaseParser.Parse | app/kb_parser.py:65-113 | `qa_pairs` becomes the entries of the content; the `ValueError` for no pairs is `Failure(NoPairsFound)`, otherwise the pairs are returned |
| KbParser.FindById | app/kb_parser.py:143-153 | a found pair has the asked id and is stored; failure happens exactly when no stored pair has the id, with the id in the error |
| KbParser.FindByIdFirst | app/kb_parser.py:150-152 | the lookup returns the first pair with the id |
| KbParser.FindByIdUnique | app/kb_parser.py:143-153 | with increasing ids, the lookup returns the one pair that has the id |
| KbParser.KnowledgeBaseParser.GetById | app/kb_parser.py:143-153 | the loop returns the lookup's result |
| KbParser.KeywordMatchesSpec | app/kb_parser.py:155-170 | a pair is returned exactly when it is stored and the lowered keyword occurs in its lowered question or answer; never more results than pairs |
| KbParser.HitPositions | app/kb_parser.py:162-170 | exactly the positions whose pair the keyword hits, strictly increasing |
| KbParser.KeywordMatchesPrefix | app/kb_parser.py:162-170 | the matches among the first `n` pairs are the pairs at the hit positions below `n`, in order |
| KbParser.KeywordMatchesOrder | app/kb_parser.py:162-170 | the matches are the pairs at a strictly increasing list of positions holding every hit position, so stored order is kept |
| KbParser.KnowledgeBaseParser.SearchByKeyword | app/kb_parser.py:162-170 | the loop returns the stored pairs that match, in stored order |
| Text.SplitJoin | app/kb_parser.py:133 | splitting words joined by single spaces gives the words back |
| Text.JoinWordsNormal | app/kb_parser.py:133 | `' '.join(s.split())` is tidy, idempotent and keeps the words |
| Text.StripEmpty | app/embeddings_service.py:98-99 | a text strips to the empty string exactly when it is all whitespace |
| Text.ContainsIff | app/kb_parser.py:166-167 | the substring test `k in s` holds exactly when `k` occurs at some position |
| Text.NatToStringInjective | app/chromadb_service.py:136 | different numbers have different decimal forms |
| Ranking.RankOrderSpec | app/rag_service.py:217 | the sort lists every position once, in non-increasing key order; equal keys are in index order, ascending for the stable `sort(reverse=True)` and descending for the reversed `argsort` |
| Tfidf.PreprocessRewriteErased | app/tfidf_service.py:70-86 | the email and URL rewrites (`.`→DOT, `@`→AT, `/`→SLASH) add nothing to the result: their marker letters are upper case and the next step erases them |
| Tfidf.PreprocessShape | app/tfidf_service.py:54-88 | preprocessed text is tidy and contains only `a-z`, `0-9`, `-` and single spaces |
| Tfidf.PreprocessIdempotent | app/tfidf_service.py:54-88 | preprocessing twice equals preprocessing once |
| Tfidf.TfidfService.Fit | app/tfidf_service.py:90-122 | documents are preprocessed one by one and pairs stored; the vectorizer is kept when it fits and replaced by the fallback otherwise; `is_fitted` is set when either fit succeeds |
| Tfidf.TopIndices | app/tfidf_service.py:151 | `argsort(...)[::-1][:n]` gives `min(n, len)` distinct positions, best first, ties highest index first; every position when `n >= len`; a position left out scores no more than any position kept |
| Tfidf.KeepPositive | app/tfidf_service.py:155-156 | every kept position has a positive similarity |
| Tfidf.KeepPositiveSound | app/tfidf_service.py:155-156 | every kept position is one of the top positions |
| Tfidf.KeepPositiveComplete | app/tfidf_service.py:155-156 | every top position with a positive similarity is kept |
| Tfidf.KeepPositiveAll | app/tfidf_service.py:155-156 | when every top position is positive, all of them are kept |
| Tfidf.KeepPositiveOrder | app/tfidf_service.py:154-156 | kept positions come in the order of the top positions |
| Tfidf.KeepPositiveRanked | app/tfidf_service.py:155-156 | filtering keeps the ranking order |
| Tfidf.SelectPositiveSpec | app/tfidf_service.py:151-161 | at most one result per top position, all with positive score, each the id and similarity of a top position, non-increasing; ids are distinct when the stored ids are |
| Tfidf.SelectPositiveComplete | app/tfidf_service.py:154-159 | every top position with a positive similarity gives its `(qa_id, score)` result |
| Tfidf.SelectPositiveStep | app/tfidf_service.py:154-159 | one iteration of the loop appends `(qa_id, score)` exactly when the candidate's similarity is positive |
| Tfidf.SelectTopBest | app/tfidf_service.py:151-159 | a positive position missing from the results scores no more than any result |
| Tfidf.SelectTopShort | app/tfidf_service.py:151-159 | when fewer than `n_results` results come back, every positive position is among them |
| Tfidf.SearchSelection | app/tfidf_service.py:151-161 | the selection over the top `n_results` positions: at most `n_results` positive, non-increasing `(qa_id, score)` pairs, none better left out, and all positives present in a short answer |
| Tfidf.TfidfService.Search | app/tfidf_service.py:124-161 | unfitted gives `[]`; otherwise the loop computes the selection over the top `n_results` positions, with the properties `SearchSelection` proves |
| Tfidf.PositiveIndices | app/tfidf_service.py:190 | `np.where(scores > 0)` lists exactly the positive positions, ascending |
| Tfidf.TermOrderComplete | app/tfidf_service.py:190-200 | the ordered terms are exactly the positive ones |
| Tfidf.TermOrderHas | app/tfidf_service.py:190-200 | every positive-weight term is ordered |
| Tfidf.TermOrderRanked | app/tfidf_service.py:200 | terms are in non-increasing weight order, equal weights in vocabulary order |
| Tfidf.ImportantTermsSpec | app/tfidf_service.py:177-202 | at most `top_n` pairs of a term and its positive weight, non-increasing; with fewer than `top_n`, all positive terms are there |
| Tfidf.ImportantTermsTop | app/tfidf_service.py:200-202 | a positive term left out weighs no more than any term returned |
| Tfidf.TfidfService.ExplainSearch | app/tfidf_service.py:204-240 | the error dict when unfitted or `result_idx >= len(documents)`; `IndexError` below `-len`; otherwise the matching keywords are the tokens both texts share, with both lists of important terms cut to 5, and "Matched N keywords" |
| Tfidf.MatchingKeywordsAreTokens | app/tfidf_service.py:220-226 | a matching keyword is a non-empty token of `a-z`, `0-9` and `-` |
| VectorStore.DistanceToSimilarity | app/chromadb_service.py:212-226 | the similarity is always in [0,1] |
| VectorStore.SimilarityValues | app/chromadb_service.py:212-226 | `1 - d/2` on [0,2]; `1/(1+d)` above 2, strictly between 0 and 1/3; 1 for a negative distance |
| VectorStore.SimilarityAntitone | app/chromadb_service.py:212-226 | a larger distance never scores higher within [0,2], or within (2,∞) |
| VectorStore.SimilarityJumpsAtTwo | app/chromadb_service.py:212-223 | the conversion is discontinuous: distance 2 scores 0, any larger distance more |
| VectorStore.RecordIdInjective | app/chromadb_service.py:136 | distinct `qa_id`s give distinct record ids `qa_<id>` |
| VectorStore.AddEmbeddings | app/chromadb_service.py:130-155 | one record per pair in order, with id `qa_<id>`, the full text as document and id, question and answer as metadata; record ids are distinct when pair ids are |
| VectorStore.Hits | app/chromadb_service.py:201-240 | one hit per returned document |
| VectorStore.Search | app/chromadb_service.py:159-242 | fails exactly when the metadata or distance list is shorter than the documents; otherwise one result per document, in store order, carrying metadata fields and the converted distance; non-decreasing distances up to 2 give non-increasing similarities |
| VectorStore.SuggestableIndices | app/chromadb_service.py:309-311 | exactly the positions whose similarity reaches the threshold and whose question differs from the asked one ignoring case, in order |
| VectorStore.FindSimilarQuestions | app/chromadb_service.py:287-313 | among the five nearest, the first three suggestable questions, in search order |
| Embeddings.DotSymmetric | app/embeddings_service.py:184 | the dot product is symmetric |
| Embeddings.DotZero | app/embeddings_service.py:184 | a zero vector has dot product 0 with anything |
| Embeddings.CosineSymmetric | app/embeddings_service.py:183-194 | cosine similarity is symmetric |
| Embeddings.CosineZeroVector | app/embeddings_service.py:189-190 | a zero vector gives similarity 0.0 (the zero-norm guard) |
| Embeddings.CosineSelf | app/embeddings_service.py:183-194 | a non-zero vector has similarity 1 with itself |
| Embeddings.MostSimilar | app/embeddings_service.py:213-224 | `min(top_k, len)` positions in ranking order; nothing left out scores higher than a kept one |
| Embeddings.TopPairsSpec | app/embeddings_service.py:213-224 | the `min(top_k, len)` pairs hold their index's cosine score, scores non-increasing, distinct indices, ties lower index first, and no index left out scores higher than a kept one |
| Embeddings.FindMostSimilar | app/embeddings_service.py:196-224 | the loop and the sort compute exactly `TopPairs`, the list `TopPairsSpec` describes |
| Embeddings.CreateEmbeddingGuard | app/embeddings_service.py:98-100 | a blank text fails with the empty-text error whatever the request; any other text is sent stripped |
| HybridRag.DefaultWeightsAccepted | app/rag_service.py:62-79 | the default weights 0.6 and 0.4 pass the check |
| HybridRag.AcceptedWeightsBound | app/rag_service.py:73-79 | with accepted non-negative weights and scores in [0,1], a weighted score is in [0, 1.01) |
| HybridRag.NewService | app/rag_service.py:73-79 | the service is built exactly when `abs(semantic_weight + keyword_weight - 1) < 0.01`, and keeps the given weights |
| HybridRag.UpsertWf | app/rag_service.py:181 | assigning a key keeps one insertion-order entry per key |
| HybridRag.SemanticHitOk | app/rag_service.py:170-179 | a semantic-only record built on the parser's entry for its id is consistent: keyword score 0, combined = similarity·ws |
| HybridRag.SemanticFound | app/rag_service.py:169-170 | a semantic loop that succeeds found the parser's entry for each hit it passes |
| HybridRag.SemanticFromWf | app/rag_service.py:169-181 | the semantic loop keeps the map's keys and its insertion order in step, without repeats |
| HybridRag.SemanticFromConsistent | app/rag_service.py:169-181 | the semantic loop keeps every record consistent with the parser and the weights |
| HybridRag.SemanticFromKeeps | app/rag_service.py:169-181 | the semantic loop keeps every record consistent: parser entry for the key, combined = semantic·ws + keyword·wk, zero scores for the missing side |
| HybridRag.BothHitOk | app/rag_service.py:185-193 | re-scoring a consistent record found again keeps it consistent: combined = semantic·ws + keyword·wk |
| HybridRag.KeywordOnlyOk | app/rag_service.py:198-209 | a keyword-only record on the parser's entry for its id is consistent: semantic score 0, combined = keyword·wk |
| HybridRag.ConsistentKnown | app/rag_service.py:168-181 | every key of a consistent map is an id the parser knows |
| HybridRag.KeywordStepKnown | app/rag_service.py:184-211 | a keyword step that succeeds adds only ids the parser knows |
| HybridRag.KeywordFromFails | app/rag_service.py:184-211 | from a map of known ids, the keyword loop fails exactly when some remaining hit's id is unknown to the parser |
| HybridRag.KeywordStepKeeps | app/rag_service.py:184-211 | one keyword step keeps the map well formed and consistent |
| HybridRag.KeywordFromKeeps | app/rag_service.py:184-211 | the keyword loop keeps the map well formed and consistent |
| HybridRag.FuseConsistent | app/rag_service.py:166-211 | the fused map has one record per key, each consistent as above |
| HybridRag.FuseKeys | app/rag_service.py:166-211 | a key is in the fused map exactly when it is the id of a semantic or keyword hit |
| HybridRag.FuseSemanticOnly | app/rag_service.py:172-181 | an id that the keyword search does not return has keyword score 0, semantic score the similarity of its last semantic hit, combined = similarity·ws, type semantic |
| HybridRag.FuseBoth | app/rag_service.py:185-197 | an id returned once by the keyword search, and also semantically, holds the record of its last semantic hit updated in place by the keyword hit |
| HybridRag.BothOfSemantic | app/rag_service.py:187-193 | that updated record keeps the similarity, gets keyword score k, combined = similarity·ws + k·wk, type both |
| HybridRag.FuseKeywordOnly | app/rag_service.py:198-211 | an id returned once by the keyword search and not semantically has semantic score 0, keyword score k, combined = k·wk, type keyword |
| HybridRag.FuseFails | app/rag_service.py:168-211 | fusion fails exactly when some hit's id is unknown to the parser |
| HybridRag.FuseOrder | app/rag_service.py:166-211 | insertion order is the semantic ids, then the new keyword ids, each at its first occurrence |
| HybridRag.AppendNewConcat | app/rag_service.py:165-211 | appending new ids batch by batch equals appending them all at once |
| HybridRag.TopPositions | app/rag_service.py:217-220 | `min(n, len)` positions in non-increasing combined order, ties in map order |
| HybridRag.TopPositionsBest | app/rag_service.py:217-220 | a record cut off scores no higher than any kept |
| HybridRag.FuseAndRankRecords | app/rag_service.py:166-220 | `min(n_results, number of ids)` results, each the fused record for its id with the parser's pair, one per `qa_id` |
| HybridRag.FuseAndRankOrder | app/rag_service.py:214-220 | results are in non-increasing combined order; equal scores keep insertion order; no record left out scores higher than a result |
| HybridRag.RankSorted | app/rag_service.py:217 | the same order facts for any keyed map |
| HybridRag.RankBest | app/rag_service.py:217-220 | the same cut-off fact for any keyed map |
| HybridRag.FuseKeyed | app/rag_service.py:166-211 | every record of the fused map carries the pair of its own id |
| HybridRag.HybridRagService.UpsertSemantic | app/rag_service.py:169-181 | the semantic loop computes the semantic phase of the fusion, including the lookup error |
| HybridRag.HybridRagService.UpsertKeyword | app/rag_service.py:184-211 | the keyword loop computes the keyword phase of the fusion, including the lookup error |
| HybridRag.HybridRagService.Combine | app/rag_service.py:166-220 | the two loops, the sort and the slice compute `FuseAndRank` |
| HybridRag.HybridRagService.Search | app/rag_service.py:132-233 | the result is the hybrid search of the query; a blank query fails with the empty-text error; a success has at most `n_results` results, best first, one per id, each with the parser's pair |
| HybridRag.Fitting | app/rag_service.py:263-272 | never more blocks than given |
| HybridRag.FittingSpec | app/rag_service.py:263-272 | the kept blocks are a prefix whose summed length is within the budget, and the next block would exceed it |
| HybridRag.ContextShape | app/rag_service.py:256-280 | no results gives the sentinel; otherwise the context is never the sentinel and is the header plus the kept blocks joined by `\n\n---\n\n`; when the first block does not fit, the header alone |
| HybridRag.FittingStep | app/rag_service.py:263-272 | one loop step: a block is kept exactly when it fits in what is left of the budget |
| HybridRag.AssembleContext | app/rag_service.py:256-280 | the loop with `break` returns the specified context |
| HybridRag.HybridRagService.GetContextForLlm | app/rag_service.py:235-280 | the context for the six best results, or the search's error |
| HybridRag.OfType | app/rag_service.py:298-300 | the filter keeps exactly the results of the given match type |
| HybridRag.CountsAddUp | app/rag_service.py:298-300 | the semantic, keyword and both counts add up to the number of results |
| HybridRag.Explain | app/rag_service.py:305-321 | counts add up to the total; the top result is absent exactly when there are no results, otherwise it is the first result's question, score and type |
| HybridRag.HybridRagService.ExplainResults | app/rag_service.py:282-321 | the explanation of the five best results, with counts adding up to a total of at most 5 |

## Left out

- File reading, logging, HTTP, and the ChromaDB client lifecycle are not modelled. The parser gets the file contents as a string, and the collection's `reset`, `delete_collection`, `get_stats` and `clear_collection` are not modelled.
- `HybridRagService._initialize_knowledge_base` is not modelled, because it only wires external calls together. The service is built from a parser and a TF-IDF service the caller supplies.
- `create_embeddings_batch` is not modelled: it is a loop of HTTP requests with a sleep. `kb_parser.get_stats` and `load_knowledge_base` are not modelled either: the first is float averages and `round`, the second a file open.
- `Text.Lower` lowers ASCII letters only. Python's Unicode case mapping, including the characters whose lower case is longer, is not modelled.
- Tfidf.PreprocessAsWritten does not model the email and URL regular expressions. Their match positions are any boolean masks. Since the rewrite is proved to have no effect for every mask, it has none for the real ones too.
- The TF-IDF vectorizer's internals are left out: tokenising, n-grams, stop words and the IDF formula. Its outputs are parameters: whether `fit_transform` succeeds for either vectorizer, the query's similarity vector, and the vocabulary with the term weights.
- Tfidf.TfidfService.Fit does not model `document_vectors`. When both fits fail, the source raises from the fallback and leaves `is_fitted` unchanged; the model returns a failure with the same state.
- Tfidf.TfidfService.ExplainSearch models `list(matching_terms)` as a set, because Python's set iteration order is unspecified. Its explanation count is the set's size.
- Embeddings.Cosine takes the square root as a parameter. The bound |cosine| ≤ 1 (Cauchy–Schwarz) is not proved, and a length mismatch, which numpy rejects, is a precondition.
- Floating point is modelled as exact real arithmetic, including the clamp and the weighted sums.
- Result counts are `nat`: `n_results`, `top_k` and `top_n`. Python's `[:n]` with a negative `n` drops elements from the end; that is not modelled, since every caller in the repository passes a positive constant. `max_context_length` is an `int`, and a negative budget gives the header alone, as in the source.
- `list.sort` and `np.argsort` are modelled by a functional stable insertion sort of positions. The in-place update of the Python list is not modelled. numpy's tie order for equal scores is taken to be that of a stable sort.
- HybridRag.HybridResult does not model the free-text `explanation` field of `HybridSearchResult`, which is only formatted scores. The in-place field update of a record found again is modelled as replacing the map entry; such a record is not shared with anything else.
- HybridRag.HybridRagService.ExplainResults takes the query's vocabulary and TF-IDF weights as parameters, like the TF-IDF service's important terms do.
