# Keyword index of the movie search engine, in Dafny

This project models the keyword side of the movie search engine:

- the text-normalisation pipeline `stem(stop(tokenize(text)))` of
  `cli/token_utils.py`;
- the `InvertedIndex` class of `cli/inverted_index.py`. This covers its four maps
  (`index`, `docmap`, `term_freq`, `doc_lens`) and `__add_document` and `build`,
  which fill them in place. It also covers the statistics the class answers
  (`get_documents`, `get_tf`, `get_idf`, `get_tfidf`, `get_bm25_idf`,
  `get_bm25_tf`, `__get_avg_doc_len`, `__get_bm25_norm_doc_len`,
  `__bm25_score`) and the ranked search `bm25_search`.

Modules, one per file:

| file | module | what it holds |
|---|---|---|
| `token_utils.dfy` | `TokenUtils` | `Movie`, `tokenize` (strip punctuation, lowercase, split on `" "`), `stop`, `stem`, and their properties |
| `index_state.dfy` | `IndexState` | the four maps as one value (`Snapshot`); what adding a document and building do to it; the index invariants and the lemmas that they hold |
| `scoring.dfy` | `Scoring` | the exceptions as `Err` results, the IDF, BM25 IDF, length-norm and BM25 TF formulas, and their monotonicity and bounds |
| `search.dfy` | `Search` | the accumulation loops of `bm25_search`, the sort and the `[:limit]` slice, proved against `Totals`. `Totals` is the per-document sum over the query tokens |
| `ranking.dfy` | `Ranking` | the descending stable sort of the `(id, score)` entries and the Python slice |
| `inverted_index.dfy` | `KeywordIndex` | the class `InvertedIndex` (fields, `__add_document`, `build`, `bm25_search`) and the read-only statistics |

How the source is modelled:

- **The class.** `KeywordIndex.InvertedIndex` is a class whose fields are the
  four dictionaries, as `map` fields. `AddDocument` and `Build` loop over the
  tokens and the movies and reassign the fields as the source does. Each is
  proved to leave `State()` equal to a function of the old state:
  `IndexState.WithDocument` and `IndexState.Built`. The index properties are
  lemmas about those functions.
- **The read methods.** `get_tf`, `get_idf` and the other readers change
  nothing. They are functions of the index state `s` (`ix.State()` for an
  index `ix`).
- **Exceptions.** A Python exception is a `Result` error:
  - `ValueError` for a term that is not one token is `NotSingleToken`;
  - a `KeyError` on `term_freq` or `doc_lens` is `UnknownDocument`;
  - a `KeyError` on `index` is `UnknownTerm`;
  - `ZeroDivisionError` is `DivisionByZero`.
- **Parameters.** The stop-word list and the Porter stemmer are parameters
  (`Normalizer`), and so is `math.log` (`ln`). Floats are exact reals.
- **How `bm25_search` is proved.** Its loops are written once for any scorer
  (`Search.Scorer`, a function from a document and a token to a score or an
  error). `Bm25Search` passes `__bm25_score` on the current state
  (`KeywordIndex.Bm25Scorer`).

Two behaviours of the code that a reader might not expect, both modelled as
written:

- `bm25_search` raises `KeyError` on a query token that has no postings
  (`self.index[token]`, `cli/inverted_index.py:146`). Such a token does not
  simply contribute nothing.
- `get_documents` only lowercases its term. It does not tokenize, stop or
  stem it.

## Model

| member | source | states |
|---|---|---|
| TokenUtils.LowerChar | cli/token_utils.py:9 | `str.lower` on one ASCII character: an upper-case letter becomes its lower-case letter, anything else is unchanged, and the result is never upper case |
| TokenUtils.StripPunctuation | cli/token_utils.py:8-9 | the result holds exactly the characters of the text that are not in `string.punctuation`, keeps every space, and is no longer than the text |
| TokenUtils.StripSubsequence | cli/token_utils.py:8 | `translate` keeps the characters it does not delete in their order: the result is a subsequence of the text |
| TokenUtils.StripCounts | cli/token_utils.py:8 | `translate` deletes every punctuation character and keeps every other character exactly as often as it occurs |
| TokenUtils.Lower | cli/token_utils.py:9 | `lower()` keeps the length and lowercases each character in place |
| TokenUtils.Split | cli/token_utils.py:9 | `split(" ")` always yields at least one part |
| TokenUtils.SplitParts | cli/token_utils.py:9 | `split(" ")` yields one part more than there are spaces; no part holds a space, and every character of a part comes from the text |
| TokenUtils.SplitJoin | cli/token_utils.py:9 | joining the parts of `split(" ")` with single spaces gives the text back |
| TokenUtils.JoinSplit | cli/token_utils.py:9 | splitting the join of space-free parts gives the parts back |
| TokenUtils.TokenizeClean | cli/token_utils.py:7-9 | no token holds punctuation, a space or an upper-case letter |
| TokenUtils.LowerClean | cli/token_utils.py:9 | lowercasing text without punctuation leaves neither punctuation nor upper-case letters |
| TokenUtils.TokenizeJoin | cli/token_utils.py:7-9 | joining the tokens with single spaces gives the punctuation-stripped, lowercased text |
| TokenUtils.LowerSpaces | cli/token_utils.py:9 | lowercasing keeps the number of spaces |
| TokenUtils.TokenizeLength | cli/token_utils.py:7-9 | `tokenize` yields exactly one token more than the text has spaces, so never an empty list |
| TokenUtils.SplitEmptyPart | cli/token_utils.py:9 | `split(" ")` yields an empty part exactly when the text is empty, starts or ends with a space, or holds two adjacent spaces |
| TokenUtils.TokenizeEmptyToken | cli/token_utils.py:7-9 | `tokenize` yields an empty token exactly for an empty stripped text, a leading or trailing space, or a doubled space |
| TokenUtils.Stop | cli/token_utils.py:12-16 | the result is no longer than the input and holds no stop word |
| TokenUtils.Tokenize | cli/token_utils.py:7-9 | its round trip with `Join` is stated by `TokenizeJoin` and `JoinSplit`, its tokens by `TokenizeClean`, their number by `TokenizeLength` and its empty tokens by `TokenizeEmptyToken` |
| TokenUtils.StopSubsequence | cli/token_utils.py:16 | `stop(q)` is a subsequence of `q` |
| TokenUtils.StopCounts | cli/token_utils.py:16 | `stop` drops every stop word and keeps every other token as often as it occurs |
| TokenUtils.StopIsTheFilter | cli/token_utils.py:16 | `stop(q)` is the only subsequence of `q` without stop words that keeps all other tokens with their multiplicities, so order is kept |
| TokenUtils.StopIdempotent | cli/token_utils.py:16 | applying `stop` twice is the same as once |
| TokenUtils.Stem | cli/token_utils.py:19-21 | `stem(q)` has the length of `q`, and element `i` is the stem of `q[i]` |
| TokenUtils.StemAppend | cli/token_utils.py:21 | stemming distributes over concatenation |
| TokenUtils.Normalize | cli/inverted_index.py:30 | `stem(stop(tokenize(text)))`, the pipeline applied to documents and terms (also lines 105, 112, 127 and 143); its length is bounded by `NormalizeLength` |
| TokenUtils.NormalizeLength | cli/inverted_index.py:30 | a normalised text has at most one token more than it has spaces |
| IndexState.AddPostings | cli/inverted_index.py:32-35 | the postings after the token loop of `__add_document`; its effect is stated by `AddPostingsEffect` and `AddPostingsStep` |
| IndexState.AddPostingsEffect | cli/inverted_index.py:32-35 | the loop of `__add_document` adds the document to the postings of its tokens, creating the missing sets, and to no other postings |
| IndexState.AddPostingsStep | cli/inverted_index.py:33-35 | one loop iteration adds the document to the postings of one more token |
| IndexState.AddTermCounts | cli/inverted_index.py:36-41 | the counters after the token loop of `__add_document`; its effect is stated by `AddTermCountsEffect` and `AddTermCountsStep` |
| IndexState.AddTermCountsEffect | cli/inverted_index.py:36-41 | the document's counter grows by exactly the occurrences of each token; it is created only when a token arrives; no other counter changes |
| IndexState.AddTermCountsStep | cli/inverted_index.py:36-41 | one loop iteration counts one more occurrence of one token |
| IndexState.WithDocument | cli/inverted_index.py:29-41 | adding a document records its length as its number of normalised tokens, adds its id to `doc_lens` and leaves `docmap` alone |
| IndexState.WithDocumentEffect | cli/inverted_index.py:29-41 | the document joins the postings of each of its tokens and no others; postings only grow; its counts grow by its token occurrences; no other document's counter or length changes |
| IndexState.WithDocumentConsistent | cli/inverted_index.py:29-41 | adding a document keeps the invariant that a document is in a token's postings exactly when the token's count for it is positive, with every count positive |
| IndexState.WithFreshDocument | cli/inverted_index.py:31-41 | for an id without a counter, the counts become the occurrences of its tokens, they sum to its recorded length, and lengths stay in agreement with counts |
| IndexState.SumAddTermCounts | cli/inverted_index.py:36-41 | the sum of a counter grows by the number of tokens counted |
| IndexState.WithDuplicateDocument | cli/inverted_index.py:31-41 | re-adding a non-empty text under an id that already has counts breaks the length/count agreement, because `doc_lens` is overwritten while `term_freq` accumulates |
| IndexState.SumValuesRemove | cli/inverted_index.py:44 | a map's value sum is one value plus the sum of the rest |
| IndexState.SumValuesUpdate | cli/inverted_index.py:44 | updating one entry changes the value sum by the difference |
| IndexState.MovieText | cli/inverted_index.py:61 | the indexed text of a movie is `title + " " + description`; `BuiltIndexesEveryMovie` states that each of its tokens posts the movie |
| IndexState.WithMovie | cli/inverted_index.py:60-62 | one iteration of `build` records the movie in `docmap` under its id and gives that id a length |
| IndexState.Ids | cli/inverted_index.py:60-62 | the id set of the movies contains exactly their ids |
| IndexState.Built | cli/inverted_index.py:57-63 | the state after `build` over the movies in order; its keys are stated by `BuiltKeys`, its invariants by `BuiltValid` and `BuildFromEmpty`, its contents by `BuiltHoldsMovie` |
| IndexState.BuiltKeys | cli/inverted_index.py:57-63 | after `build`, `docmap` and `doc_lens` have exactly the old ids plus the movies' ids |
| IndexState.WithMovieValid | cli/inverted_index.py:60-62 | one iteration of `build` keeps postings and counts consistent and every movie stored under its own id |
| IndexState.BuiltCounters | cli/inverted_index.py:57-63 | `build` creates no counter for an id none of its movies has |
| IndexState.BuiltValid | cli/inverted_index.py:57-63 | `build` keeps the index consistent; with distinct new ids the counts of every document also sum to its length |
| IndexState.WithMovieKeepsOthers | cli/inverted_index.py:60-62 | indexing one movie leaves another movie's entries alone |
| IndexState.WithFreshMovie | cli/inverted_index.py:60-62 | indexing a movie whose id is new stores the movie, its length and its token counts |
| IndexState.BuiltHoldsMovie | cli/inverted_index.py:57-63 | after building from an empty index with distinct ids, each movie is held with its length and exact token counts |
| IndexState.BuiltKeepsEarlier | cli/inverted_index.py:60-62 | a later movie of `build` does not disturb an earlier one |
| IndexState.BuiltHoldsLast | cli/inverted_index.py:60-62 | the last movie of `build` is held with its length and token counts |
| IndexState.BuildFromEmpty | cli/inverted_index.py:23-27 | a fresh index built from movies with distinct ids satisfies every invariant and holds every movie |
| IndexState.BuiltIndexesEveryMovie | cli/inverted_index.py:57-63 | after `build`, each movie's id is in the postings of every token of `title + " " + description` |
| Scoring.IdfValue | cli/inverted_index.py:119 | `log((N + 1) / (df + 1))`; strictly decreasing in df by `IdfDecreasing` |
| Scoring.Bm25IdfValue | cli/inverted_index.py:134 | `log((N - df + 0.5) / (df + 0.5) + 1)`; strictly decreasing in df by `Bm25IdfDecreasing` |
| Scoring.LengthNorm | cli/inverted_index.py:47 | `1 - b + b * len / avg`; at least `1 - b` by `LengthNormAtLeast` and 1 at the mean length by `NormOfMean` |
| Scoring.Bm25TfValue | cli/inverted_index.py:138 | the BM25 TF quotient divides by zero exactly when `tf + k1 * norm` is zero |
| Scoring.IdfDecreasing | cli/inverted_index.py:119 | for an increasing `log`, a rarer token has a strictly larger IDF |
| Scoring.Bm25IdfDecreasing | cli/inverted_index.py:134 | for an increasing `log`, a rarer token has a strictly larger BM25 IDF |
| Scoring.LengthNormAtLeast | cli/inverted_index.py:47 | with `b` in [0, 1] and a positive mean length, the length norm is at least `1 - b` |
| Scoring.Bm25TfBounded | cli/inverted_index.py:138 | the BM25 TF lies in [0, k1 + 1], and below `k1 + 1` when the norm is positive |
| Scoring.Bm25TfIncreasing | cli/inverted_index.py:138 | the BM25 TF grows strictly with the raw count |
| Scoring.MeanIsZero | cli/inverted_index.py:44 | a mean of non-negative lengths is zero exactly when their total is |
| Scoring.NormOfMean | cli/inverted_index.py:46-47 | the length norm is at least `1 - b` for `b` in [0, 1] and is 1 for a document of exactly the mean length |
| KeywordIndex.SingleToken | cli/inverted_index.py:105-107 | a term is accepted exactly when it normalises to one token, which is then the value; otherwise the error is the ValueError |
| KeywordIndex.Least | cli/inverted_index.py:55 | the least id of a non-empty set |
| KeywordIndex.SortedIds | cli/inverted_index.py:55 | `sorted` of a set of ids is strictly increasing and holds exactly the set |
| KeywordIndex.GetDocuments | cli/inverted_index.py:54-55 | `get_documents` returns the postings of `term.lower()` in strictly ascending order, empty for an unknown term; the `docmap[x]["id"]` sort key is `x` under the invariant |
| KeywordIndex.GetTf | cli/inverted_index.py:104-109 | ValueError unless the term is one token; KeyError for a document without a counter; otherwise the document's count of the token, 0 through the `Counter` default when its counter lacks the token; under the consistency invariant the count is positive exactly when the document is in the token's postings |
| KeywordIndex.BuiltTf | cli/inverted_index.py:104-109 | after `build` from a fresh index with distinct ids, `get_tf` of a movie with at least one token is the number of occurrences of the term's token in the movie's normalised text |
| KeywordIndex.GetIdf | cli/inverted_index.py:111-119 | ValueError unless one token; KeyError for a token without postings; otherwise `log((N + 1) / (df + 1))` with N the number of movies and df the size of the postings |
| KeywordIndex.GetTfIdf | cli/inverted_index.py:121-124 | defined exactly when both TF and IDF are; TF's error comes first; zero for a document without the term |
| KeywordIndex.GetBm25Idf | cli/inverted_index.py:126-134 | ValueError unless one token; KeyError for a token without postings; otherwise `log((N - df + 0.5) / (df + 0.5) + 1)` |
| KeywordIndex.TotalLength | cli/inverted_index.py:44 | `sum(doc_lens.values())`, summed in ascending id order, equals the order-free sum of the lengths |
| KeywordIndex.AvgDocLen | cli/inverted_index.py:43-44 | the mean length: defined exactly for a non-empty `doc_lens`, where it times the number of documents is the total length; ZeroDivisionError otherwise |
| KeywordIndex.NormDocLen | cli/inverted_index.py:46-47 | KeyError for an unknown document; ZeroDivisionError exactly when every document is empty; at least `1 - b` for `b` in [0, 1]; 1 for a document of the mean length |
| KeywordIndex.GetBm25Tf | cli/inverted_index.py:136-138 | propagates `get_tf`'s error; KeyError for a document without a length; when defined, the value lies in [0, k1 + 1] for k1 > 0 and `b` in [0, 1], and below `k1 + 1` for `b` < 1 |
| KeywordIndex.Bm25Score | cli/inverted_index.py:49-52 | defined exactly when the BM25 TF and IDF are, TF's error first, and then their product |
| KeywordIndex.Bm25Scorer | cli/inverted_index.py:49-52 | `__bm25_score` on the current state as the scorer of `bm25_search`; `ScorableWhenStable` states when it cannot fail |
| KeywordIndex.CountBelowLength | cli/inverted_index.py:31-41 | under the length invariant, a document's count of a token is at most its length, which is at most the total length |
| KeywordIndex.PostedIsScorable | cli/inverted_index.py:49-52 | in a valid index, a document in the postings of a token that normalises to itself can be scored for it, for k1 > 0 and `b` in [0, 1] |
| KeywordIndex.ScorableWhenStable | cli/inverted_index.py:140-150 | for such a token every document of its postings can be scored, so `bm25_search` raises only for a query token without postings |
| KeywordIndex.InvertedIndex.constructor | cli/inverted_index.py:23-27 | a new index has four empty maps |
| KeywordIndex.InvertedIndex.AddDocument | cli/inverted_index.py:29-41 | `__add_document` leaves the state equal to `WithDocument` of the old state and the normalised text |
| KeywordIndex.InvertedIndex.AddTokens | cli/inverted_index.py:32-41 | the token loop turns the postings and counters into `AddPostings` and `AddTermCounts` of the old ones and changes nothing else |
| KeywordIndex.InvertedIndex.AddPosting | cli/inverted_index.py:33-35 | the document is added to the token's postings set, created when missing; nothing else changes |
| KeywordIndex.InvertedIndex.CountToken | cli/inverted_index.py:36-41 | the document's count of the token grows by one, the counter being created when missing; nothing else changes |
| KeywordIndex.InvertedIndex.Build | cli/inverted_index.py:57-63 | `build` leaves the state equal to `Built` of the old state and the movies |
| KeywordIndex.InvertedIndex.Bm25Search | cli/inverted_index.py:140-152 | raises exactly when a query token has no postings or a score fails; otherwise returns at most `limit` movies (for `limit` ≥ 0), each from `docmap` under its id, in non-increasing order of score, with the best totals over the query tokens, repeats included |
| Search.AddTokenScores | cli/inverted_index.py:146-150 | adding a token's scores keeps every accumulated document and adds the token's postings |
| Search.Totals | cli/inverted_index.py:144-150 | a document has a total exactly when it is in the postings of some query token |
| Search.AddTokenScoresStep | cli/inverted_index.py:147-150 | scoring one more document sets its total to the old total (0 when new) plus its score |
| Search.AddScoresFor | cli/inverted_index.py:146-150 | the inner loop adds the token's score of every document of its postings to `scores`, or fails with the error of some document's score |
| Search.TotalsStep | cli/inverted_index.py:145-150 | one more query token adds its scores to the totals |
| Search.AccumulateScores | cli/inverted_index.py:144-150 | the outer loop raises exactly when some query token has no postings or a score fails, and otherwise yields `Totals` |
| Search.ScoresOf | cli/inverted_index.py:152 | the (id, score) view of a result list keeps its length and order |
| Search.WithMovies | cli/inverted_index.py:152 | pairing the ranked ids with their movies keeps ids, scores and order |
| Search.PostedIsKnown | cli/inverted_index.py:152 | under the invariants, every document in some postings is in `docmap` under its own id, so `docmap[doc_id]` cannot fail |
| Search.TopResults | cli/inverted_index.py:151-152 | the sorted, sliced entries rank the scores and are paired with their movies |
| Search.RankedSearch | cli/inverted_index.py:143-152 | for any scorer: raises exactly when a token is not scorable; otherwise ranks the totals, keeps at most `limit` entries, takes movies from `docmap`, and returns only documents in some token's postings |
| Search.TotalsOfOne | cli/inverted_index.py:145-150 | a one-token query scores exactly the token's postings, each by its own score |
| Search.ScorableAppend | cli/inverted_index.py:144-146 | a query made of two scorable parts is scorable as a whole |
| Search.TotalsLast | cli/inverted_index.py:145-150 | a document's total after the last query token is its total over the earlier tokens plus the last token's score when it is in that token's postings |
| Search.TotalsAppend | cli/inverted_index.py:145-150 | the total of a document over two query parts is the sum of its totals over each, so every token, repeats included, contributes on its own |
| Ranking.Insert | cli/inverted_index.py:151 | inserting after every entry of equal or higher score keeps the order non-increasing and adds exactly the entry |
| Ranking.SortByScore | cli/inverted_index.py:151 | `sorted(..., key=score, reverse=True)` is non-increasing and a permutation of its input |
| Ranking.SliceLen | cli/inverted_index.py:151 | the length of `xs[:limit]`: at most `limit` for a non-negative limit, counting from the end for a negative one |
| Ranking.Entries | cli/inverted_index.py:151 | `scores.items()` lists each entry of `scores` exactly once |
| Ranking.PermutedListing | cli/inverted_index.py:151 | a permutation of a listing of the scores lists them too |
| Ranking.PrefixRanks | cli/inverted_index.py:151 | the `[:limit]` slice of a non-increasing listing ranks the scores: no entry left out scores more than one kept |
| Ranking.TopOfSorted | cli/inverted_index.py:151 | the sorted listing cut to the slice ranks the scores |

## Left out

- File I/O is not modelled:
  - reading `./data/movies.json`: the movies are a parameter of `Build`;
  - `save` and `load` with pickle;
  - reading `./data/stopwords.txt`: the stop words are a set parameter.
- The Porter stemmer of nltk is a foreign library. It is the parameter `stemmer: string -> string`.
- `math.log` is the parameter `ln`.
- Floating-point rounding is not modelled. All score arithmetic is on exact reals, so a division by a float that rounds to zero is not captured.
- `str.lower` and `str.translate` are modelled on ASCII only: upper-case `A`-`Z` and the 32 characters of `string.punctuation`.
- The order among documents of equal score is not fixed. Python's stable sort over dict insertion order decides it, while the model lists `scores.items()` in an unspecified order (`Ranking.Entries`). The sort itself is stable.
- KeywordIndex.InvertedIndex.Bm25Search: it is proved through `Search.RankedSearch`, which does not fix the tie order. Its contract therefore states the ranking property (`Ranking.Ranks`), not one exact list.
- KeywordIndex.InvertedIndex.Bm25Search: it requires the consistency invariant and that every indexed document is in `docmap` under its own id, since without them `self.docmap[doc_id]` (`cli/inverted_index.py:152`) can raise KeyError. Both hold after the constructor and any number of `build` calls (`IndexState.BuiltValid`).
- The default arguments `k1 = BM25_K1`, `b = BM25_B` and `limit = 5` are dropped: `k1`, `b` and `limit` are ordinary parameters. `cli/consts.py`, which holds the two constants, is not part of this model.
- KeywordIndex.GetDocuments: it requires the consistency invariant, since without it `docmap[x]` in the sort key can raise.
- The statistics are functions of the state value rather than methods of the class, because they change nothing.
- `build` closes its file with `f.close()` inside the `with` block; this has no effect on the maps.
- The command-line programs and the semantic-search wrapper are not part of this model.
