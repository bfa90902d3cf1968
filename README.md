# Hybrid glossary retrieval, modelled in Dafny

A model of the glossary search of a financial news and glossary platform.
A user query is answered by two retrieval paths whose results are merged and
reranked:

- **Relational keyword search** (`filter_sql`). Keywords are extracted from
  the query. When there are none, the search returns `[]` without querying the
  database. Otherwise it returns the live glossary rows (no soft-delete
  timestamp) whose `term` contains some keyword, ignoring case.
- **Vector search.** The query embedding is sent to the vector index. The
  index returns `(id, score)` matches, and the matched ids are loaded
  ("hydrated") from the glossary table.
- **Merge.** SQL rows come first, flagged `fromSql`. Each hydrated row is then
  appended unless an earlier entry already has its label. An appended row
  carries its index score, looked up in a `defaultdict(float)`, so an id the
  index did not return scores 0.0.
- **Rerank.** Every candidate gets the cosine between the query and its
  label's embedding. An SQL candidate's score is that cosine times
  `sql_boost`, which defaults to 0.95 and so is a discount. Any other
  candidate scores its stored index score, or 1 when it has none. The list is
  then sorted by descending score with Python's stable sort.
- **Fail-soft.** Any exception during retrieval yields `[]`.

The query cleaner `preprocess_user_query` is modelled as well. It
lower-cases the query, tokenizes it, strips non-word characters from each
token and drops stopwords and empty tokens.

Modules:
- `Text`: lower-casing, `\w`, and case-insensitive substring matching.
- `Subsequences`: order-preserving selections.
- `Glossary`: the records.
- `NlpPreprocessors`: the query cleaner.
- `ScoreSort`: the stable in-place sort.
- `RagService`: the retrieval engine.

External capabilities are passed in as values of the `RagService.Services`
datatype. These are keyword extraction, embedding, the cosine expression,
the index query, the table and the hydration query. An external call that
may raise returns a `Fallible` value (`Ok` or `Raised`).

Behaviour of the code worth noting:
- A failed label embedding does not drop only that candidate.
  `generate_embedding` returns `[]`; when the query embedding did not fail,
  `np.dot` then raises because the lengths differ, and the whole request
  returns `[]`. This holds for vector-sourced candidates too, because
  the cosine is computed for every candidate.
- A failing relational or index query does not degrade only its own path:
  it makes the whole request return `[]`.
- `top_k` bounds only the index query. The merged list is not truncated.
- The relational search uses RAKE's `keyword_extraction`, not
  `preprocess_user_query`. The cleaner is modelled on its own.

## Model

| member | source | states |
|---|---|---|
| `Text.Lower` | utils/nlp_preprocessors.py:18 | the lower-cased query has the same length and holds no upper-case letter; each upper-case letter becomes the lower-case letter at the same alphabet position, and every other character is kept |
| `NlpPreprocessors.StripNonWord` | utils/nlp_preprocessors.py:19 | a stripped token is the order-preserving subsequence of the token's word characters: each word character occurs exactly as often as in the token, every other character not at all |
| `NlpPreprocessors.KeepKeywords` | utils/nlp_preprocessors.py:20 | no kept token is a stopword or empty; every non-stopword non-empty token is kept as often as it occurs; the result is an order-preserving subsequence of the tokens |
| `NlpPreprocessors.PreprocessUserQuery` | utils/nlp_preprocessors.py:8-22 | keywords are never stopwords, never empty, made only of word characters, an order-preserving subsequence of the cleaned tokens of the lower-cased query, no more numerous than the tokens, and every cleaned token that is neither empty nor a stopword is a keyword, each kept as often as it occurs among the cleaned tokens |
| `NlpPreprocessors.KeywordsAreLowercase` | utils/nlp_preprocessors.py:18-20 | when every word character the tokenizer emits occurs in its input, every keyword equals its own lower-case form |
| `RagService.Filter` | services/rag_service.py:38-40 | the database returns exactly the rows satisfying the filter, each as often as the table holds it, as an order-preserving subsequence of the table |
| `RagService.FilterSql` | services/rag_service.py:10-43 | with no keywords the result is `[]` and the table is not consulted, even when querying it would raise; otherwise the query raises exactly when the table does, and it returns the rows that are live and whose term contains some keyword, ignoring case |
| `RagService.FilterKeepsDistinctTerms` | models/glossary.py:13 | filtering a table with unique `term` values yields rows with unique `term` values |
| `RagService.SelectedOrderAndDistinct` | services/rag_service.py:26-40 | the keyword search returns rows in table order and, since `term` is unique, never returns a label twice |
| `RagService.IndexScores` | services/rag_service.py:121-125 | the loop builds exactly the id-to-score map `ScoreIndex` of the matches |
| `RagService.UnmatchedIdScoresZero` | services/rag_service.py:123-125 | an id the index did not return is absent from the map and reads as 0.0 through the `defaultdict` |
| `RagService.LastMatchScores` | services/rag_service.py:124-125 | a matched id maps to the score of its last match |
| `RagService.MergeCandidates` | services/rag_service.py:130-153 | the seed loop, the append loop and the duplicate scan compute exactly the merged list `Merged` |
| `RagService.MergedSeedsSqlFirst` | services/rag_service.py:133-140 | the merged list starts with every SQL row in SQL order as an SQL candidate; every later entry is vector-sourced and carries an index score |
| `RagService.MergedHasHydratedTerm` | services/rag_service.py:143-153 | every hydrated label appears in the merged list |
| `RagService.MergedVectorEntry` | services/rag_service.py:143-153 | every entry after the SQL rows is the vector candidate of a hydrated row that no SQL row and no earlier hydrated row shares a label with, scored with its id's index score |
| `RagService.MergedIncludesFirstOfTerm` | services/rag_service.py:143-153 | conversely, each hydrated row whose label no SQL row and no earlier hydrated row has is appended as a vector candidate with its id's index score |
| `RagService.MergedVectorOrder` | services/rag_service.py:143-153 | vector-sourced entries keep hydration order: of two hydrated rows that are each the first of their label, the earlier is appended, after the SQL rows, before the later |
| `RagService.MergedDistinctTerms` | services/rag_service.py:145 | when the SQL rows have distinct labels, no two merged entries share a label |
| `RagService.SqlEntryWinsSharedTerm` | services/rag_service.py:145 | a label found by the SQL search is represented only by its SQL entry, at its SQL position, flagged `fromSql` |
| `RagService.Rerank` | services/rag_service.py:45-88 | empty input gives `[]`; it raises exactly when some candidate's label embedding differs in length from the query embedding; otherwise it returns the scored candidates stably sorted by non-increasing score |
| `RagService.RerankedEntries` | services/rag_service.py:57-86 | the reranked list has as many entries as there are candidates, each a candidate with its fields copied and its hybrid score added, in non-increasing score order |
| `RagService.MergedScoresFollowProvenance` | services/rag_service.py:65-74 | a scored merged entry is SQL-sourced exactly when it is one of the SQL rows; an SQL entry scores label cosine times the boost; a vector entry scores its hydrated row's index score and never the recomputed cosine |
| `RagService.StableTieKeepsSqlFirst` | services/rag_service.py:86 | with SQL candidates first, the stable sort never puts an SQL entry after a vector entry of equal score |
| `RagService.RerankedMergeProperties` | services/rag_service.py:65-86 | reranking the merged list gives non-increasing scores, SQL entries scored at label cosine times 0.95, no SQL entry behind a vector entry of equal score, and no repeated label when the SQL labels are distinct |
| `ScoreSort.SortByScoreDescending` | services/rag_service.py:86 | the array becomes a permutation of its old contents, sorted by non-increasing score, with equal scores in their original order |
| `ScoreSort.StableSortKeepsDistinctTerms` | services/rag_service.py:86 | sorting keeps labels distinct |
| `RagService.RetrieveGlossaryRag` | services/rag_service.py:90-162 | it never raises. A raising relational query, index query or hydration gives `[]`, and so does a label embedding whose length differs from the query embedding's. Otherwise the result is the merged candidates stably sorted by hybrid score. Scores do not increase; an SQL entry scores its label cosine times 0.95; on ties SQL entries stay ahead; with a unique `term` column, or when no keyword is extracted, no label repeats |

## Left out

- Floating point: scores are Dafny `real`s. `cosine` is a parameter standing
  for the `np.dot`/`np.linalg.norm` expression. NaN from zero-norm vectors is
  not modelled: with two empty vectors the code gives NaN rather than raising,
  and the model gives whatever `cosine` returns. So when the query embedding
  and every label embedding fail together, nothing raises unless the index
  rejects the empty vector, which `indexQuery` leaves open; the vector
  entries then keep their index scores.
- The embedding service, the vector index, the glossary table and the
  hydration query are network or database calls. They are parameters. Their
  only modelled failure modes are raising (`Raised`) and an empty embedding.
- Database session creation (`next(get_db())` in `filter_sql`, before the
  no-keyword return) is modelled as never failing: `Services` has no session.
  The code returns `[]` when opening the session fails, even for a query with
  no keywords, where `RagService.FilterSql` gives `Ok([])`.
- `keyword_extraction` (RAKE) and NLTK's `word_tokenize` and stopword list
  are library code. Their outputs are parameters. Keyword extraction is
  modelled as never raising: `keywordExtraction` is total, whereas the code
  returns `[]` when `keyword_extraction` raises inside the `try` of
  `retrieve_glossary_rag`.
- `Text.Lower`, `NlpPreprocessors.StripNonWord`, `Text.ContainsIgnoreCase`:
  modelled for ASCII only, because Python's `str.lower()`, `\w` and
  PostgreSQL's `ILIKE` follow Unicode tables the model does not carry.
  Non-ASCII letters count as non-word characters and are not case-folded.
- `ILIKE` wildcards: a `%` or `_` inside a keyword is a wildcard in SQL. The
  model matches the keyword as a plain substring.
- Row order: SQL without `ORDER BY` has no defined order. Both queries are
  modelled as returning rows in table order for the search, and in whatever
  order `hydrate` gives for the ids.
- Soft-deleted rows: the hydration query does not filter `deleted_at`, so a
  soft-deleted term can still reach the result through the vector path. The
  model keeps this behaviour.
- Logging, the `filtered_ids` list that is built and never used, and the
  `__main__` demo are not modelled.
- The news pipeline, sentiment analysis, summarization, the batch embedding
  job, the HTTP router and the ORM models other than the glossary row are
  not part of this model.
