/**
 * The `InvertedIndex` class: its four maps and `__add_document` and `build`,
 * which fill them in place; the statistics it answers (`get_documents`,
 * `get_tf`, `get_idf`, `get_tfidf`, `get_bm25_idf`, `get_bm25_tf`,
 * `__bm25_score`), which read the maps and change nothing and so are
 * functions of the index's state; and the ranked search `bm25_search`.
 */
module KeywordIndex {
  import opened TokenUtils
  import opened IndexState
  import opened Ranking
  import opened Scoring
  import opened Search

  /** The one token a single-token accessor works on, or its ValueError. */
  function SingleToken(cfg: Normalizer, term: string): (r: Result<Token>)
    ensures r.Ok? <==> |Normalize(cfg, term)| == 1
    ensures r.Ok? ==> r.value == Normalize(cfg, term)[0]
    ensures r.Err? ==> r.error == NotSingleToken
  {
    var toks := Normalize(cfg, term);
    if |toks| != 1 then Err(NotSingleToken) else Ok(toks[0])
  }

  // ---------------------------------------------------------------------
  // Sorting the postings of `get_documents`

  /** `m` is the least element of `s`. */
  predicate IsLeast(m: DocId, s: set<DocId>) {
    m in s && forall x :: x in s ==> m <= x
  }

  lemma {:induction false} LeastExists(s: set<DocId>)
    requires s != {}
    ensures exists m :: IsLeast(m, s)
    decreases s
  {
    assert (forall x :: x !in s) ==> s == {};
    var y :| y in s;
    if s == {y} {
      assert IsLeast(y, s);
    } else {
      LeastExists(s - {y});
      var m :| IsLeast(m, s - {y});
      var least := if y < m then y else m;
      forall x | x in s ensures least <= x {
        if x != y {
          assert x in s - {y};
        }
      }
      assert IsLeast(least, s);
    }
  }

  /** The least id of a non-empty set. */
  function Least(s: set<DocId>): (m: DocId)
    requires s != {}
    ensures IsLeast(m, s)
  {
    LeastExists(s);
    var m :| IsLeast(m, s);
    m
  }

  /** `sorted(s)` for a set of ids. */
  function SortedIds(s: set<DocId>): (r: seq<DocId>)
    ensures forall i, j :: 0 <= i < j < |r| ==> r[i] < r[j]
    ensures forall d :: d in r <==> d in s
    decreases s
  {
    if s == {} then []
    else
      var m := Least(s);
      [m] + SortedIds(s - {m})
  }

  /** A second update of a key overrides the first. */
  lemma UpdateTwice<K, V>(m: map<K, V>, k: K, a: V, b: V)
    ensures m[k := a][k := b] == m[k := b]
  {
  }

  // ---------------------------------------------------------------------
  // The statistics, as functions of the index's state

  /** `get_documents(term)`: the ids in the postings of `term.lower()`, in
      ascending order. The source sorts by `docmap[x]["id"]`, which is `x`
      for every indexed document. */
  function GetDocuments(s: Snapshot, term: string): (r: seq<DocId>)
    requires Consistent(s) && DocsKnown(s)
    ensures forall i, j :: 0 <= i < j < |r| ==> r[i] < r[j]
    ensures forall d :: d in r <==> d in Postings(s.index, Lower(term))
    ensures Lower(term) !in s.index ==> r == []
  {
    var postings := Postings(s.index, Lower(term));
    assert forall x :: x in postings ==> x in s.docmap && s.docmap[x].id == x by {
      forall x | x in postings ensures x in s.docmap && s.docmap[x].id == x {
        assert Count(CounterOf(s.termFreq, x), Lower(term)) > 0;
      }
    }
    SortedIds(postings)
  }

  /** `get_tf(doc_id, term)` */
  function GetTf(s: Snapshot, docId: DocId, term: string, cfg: Normalizer): (r: Result<nat>)
    ensures r.Ok? <==> |Normalize(cfg, term)| == 1 && docId in s.termFreq
    ensures |Normalize(cfg, term)| != 1 ==> r == Err(NotSingleToken)
    ensures |Normalize(cfg, term)| == 1 && docId !in s.termFreq ==> r == Err(UnknownDocument(docId))
    // the count is positive exactly when the document is in the token's postings
    ensures r.Ok? && Consistent(s) ==>
      (r.value > 0 <==> docId in Postings(s.index, Normalize(cfg, term)[0]))
    // the count of the token in the document's counter, 0 when it has none
    ensures r.Ok? ==> r.value == Count(s.termFreq[docId], Normalize(cfg, term)[0])
  {
    match SingleToken(cfg, term)
    case Err(e) => Err(e)
    case Ok(t) =>
      if docId !in s.termFreq then Err(UnknownDocument(docId))
      else Ok(Count(CounterOf(s.termFreq, docId), t))
  }

  /** After `build` from a fresh index with distinct ids, `get_tf` of a movie
      with at least one token is the number of occurrences of the term's token
      in the movie's normalised text. */
  lemma BuiltTf(movies: seq<Movie>, cfg: Normalizer, i: nat, term: string)
    requires DistinctIds(movies) && i < |movies|
    requires |Normalize(cfg, term)| == 1
    requires Normalize(cfg, MovieText(movies[i])) != []
    ensures GetTf(Built(Empty, movies, cfg), movies[i].id, term, cfg) ==
            Ok(multiset(Normalize(cfg, MovieText(movies[i])))[Normalize(cfg, term)[0]])
  {
    var s := Built(Empty, movies, cfg);
    var toks := Normalize(cfg, MovieText(movies[i]));
    BuildFromEmpty(movies, cfg);
    assert HoldsMovie(s, movies[i], cfg);
    assert Count(CounterOf(s.termFreq, movies[i].id), toks[0]) == multiset(toks)[toks[0]] > 0;
  }

  /** `get_idf(term)` */
  function GetIdf(s: Snapshot, term: string, cfg: Normalizer, ln: real -> real): (r: Result<real>)
    ensures r.Ok? <==> |Normalize(cfg, term)| == 1 && Normalize(cfg, term)[0] in s.index
    ensures |Normalize(cfg, term)| != 1 ==> r == Err(NotSingleToken)
    ensures |Normalize(cfg, term)| == 1 && Normalize(cfg, term)[0] !in s.index ==>
      r == Err(UnknownTerm(Normalize(cfg, term)[0]))
    ensures r.Ok? ==> r.value == IdfValue(|s.docmap|, |s.index[Normalize(cfg, term)[0]]|, ln)
  {
    match SingleToken(cfg, term)
    case Err(e) => Err(e)
    case Ok(t) =>
      if t !in s.index then Err(UnknownTerm(t))
      else Ok(IdfValue(|s.docmap|, |s.index[t]|, ln))
  }

  /** `get_tfidf(doc_id, term)`: zero for a document without the term. */
  function GetTfIdf(s: Snapshot, docId: DocId, term: string, cfg: Normalizer, ln: real -> real): (r: Result<real>)
    ensures r.Ok? <==> GetTf(s, docId, term, cfg).Ok? && GetIdf(s, term, cfg, ln).Ok?
    ensures GetTf(s, docId, term, cfg).Err? ==> r == Err(GetTf(s, docId, term, cfg).error)
    ensures r.Ok? && Consistent(s) && docId !in Postings(s.index, Normalize(cfg, term)[0]) ==> r.value == 0.0
  {
    match GetTf(s, docId, term, cfg)
    case Err(e) => Err(e)
    case Ok(tf) =>
      match GetIdf(s, term, cfg, ln)
      case Err(e) => Err(e)
      case Ok(idf) => Ok(tf as real * idf)
  }

  /** `get_bm25_idf(term)` */
  function GetBm25Idf(s: Snapshot, term: string, cfg: Normalizer, ln: real -> real): (r: Result<real>)
    ensures r.Ok? <==> |Normalize(cfg, term)| == 1 && Normalize(cfg, term)[0] in s.index
    ensures |Normalize(cfg, term)| != 1 ==> r == Err(NotSingleToken)
    ensures |Normalize(cfg, term)| == 1 && Normalize(cfg, term)[0] !in s.index ==>
      r == Err(UnknownTerm(Normalize(cfg, term)[0]))
    ensures r.Ok? ==> r.value == Bm25IdfValue(|s.docmap|, |s.index[Normalize(cfg, term)[0]]|, ln)
  {
    match SingleToken(cfg, term)
    case Err(e) => Err(e)
    case Ok(t) =>
      if t !in s.index then Err(UnknownTerm(t))
      else Ok(Bm25IdfValue(|s.docmap|, |s.index[t]|, ln))
  }

  /** `sum(doc_lens.values())`, adding the lengths in ascending order of id. */
  function TotalLength(docLens: map<DocId, nat>): (r: nat)
    ensures r == SumValues(docLens)
    decreases |docLens|
  {
    if docLens == map[] then 0
    else
      assert (forall e :: e !in docLens) ==> docLens == map[];
      var d := Least(docLens.Keys);
      SumValuesRemove(docLens, d);
      docLens[d] + TotalLength(docLens - {d})
  }

  /** `__get_avg_doc_len()`: the mean document length, or a division by
      zero for an empty index. */
  function AvgDocLen(docLens: map<DocId, nat>): (r: Result<real>)
    ensures r.Ok? <==> docLens != map[]
    ensures r.Err? ==> r.error == DivisionByZero
    ensures r.Ok? ==> r.value * |docLens| as real == SumValues(docLens) as real
  {
    if |docLens| == 0 then Err(DivisionByZero)
    else
      QuotientTimes(TotalLength(docLens) as real, |docLens| as real);
      Ok(TotalLength(docLens) as real / |docLens| as real)
  }

  /** `__get_bm25_norm_doc_len(doc_id, b)`: a KeyError for an unknown
      document, a division by zero when every document is empty. */
  function NormDocLen(docLens: map<DocId, nat>, d: DocId, b: real): (r: Result<real>)
    ensures r.Ok? <==> d in docLens && SumValues(docLens) > 0
    ensures d !in docLens ==> r == Err(UnknownDocument(d))
    ensures d in docLens && SumValues(docLens) == 0 ==> r == Err(DivisionByZero)
    // with `b` in [0, 1] the norm is at least `1 - b`
    ensures r.Ok? && 0.0 <= b <= 1.0 ==> r.value >= 1.0 - b
    // a document of exactly the mean length has norm 1
    ensures r.Ok? && docLens[d] * |docLens| == SumValues(docLens) ==> r.value == 1.0
  {
    if d !in docLens then Err(UnknownDocument(d))
    else
      var mean := AvgDocLen(docLens);
      if mean.Err? then mean
      else
        var avg := mean.value;
        MeanIsZero(avg, |docLens| as real, SumValues(docLens) as real);
        if avg == 0.0 then Err(DivisionByZero)
        else
          NormOfMean(docLens[d], avg, |docLens| as real, SumValues(docLens) as real, b);
          Ok(LengthNorm(docLens[d], avg, b))
  }

  /** `get_bm25_tf(doc_id, term, k1, b)` */
  function GetBm25Tf(s: Snapshot, docId: DocId, term: string, cfg: Normalizer, k1: real, b: real): (r: Result<real>)
    ensures GetTf(s, docId, term, cfg).Err? ==> r == Err(GetTf(s, docId, term, cfg).error)
    ensures GetTf(s, docId, term, cfg).Ok? && docId !in s.docLens ==> r == Err(UnknownDocument(docId))
    ensures r.Ok? ==> GetTf(s, docId, term, cfg).Ok? && docId in s.docLens && SumValues(s.docLens) > 0
    ensures r.Ok? && k1 > 0.0 && 0.0 <= b <= 1.0 ==> 0.0 <= r.value <= k1 + 1.0
    ensures r.Ok? && k1 > 0.0 && 0.0 <= b < 1.0 ==> r.value < k1 + 1.0
  {
    match GetTf(s, docId, term, cfg)
    case Err(e) => Err(e)
    case Ok(tf) =>
      match NormDocLen(s.docLens, docId, b)
      case Err(e) => Err(e)
      case Ok(norm) =>
        var r := Bm25TfValue(tf, k1, norm);
        if r.Ok? && k1 > 0.0 && 0.0 <= b <= 1.0 then
          Bm25TfBounded(tf, k1, norm);
          r
        else r
  }

  /** `__bm25_score(doc_id, term, k1, b)`: BM25 term frequency times BM25
      IDF, both of which normalise `term` again. */
  function Bm25Score(s: Snapshot, docId: DocId, term: string, cfg: Normalizer, k1: real, b: real, ln: real -> real): (r: Result<real>)
    ensures r.Ok? <==> GetBm25Tf(s, docId, term, cfg, k1, b).Ok? && GetBm25Idf(s, term, cfg, ln).Ok?
    ensures GetBm25Tf(s, docId, term, cfg, k1, b).Err? ==> r == Err(GetBm25Tf(s, docId, term, cfg, k1, b).error)
    ensures r.Ok? ==> r.value == GetBm25Tf(s, docId, term, cfg, k1, b).value * GetBm25Idf(s, term, cfg, ln).value
  {
    var tf := GetBm25Tf(s, docId, term, cfg, k1, b);
    var idf := GetBm25Idf(s, term, cfg, ln);
    if tf.Err? then tf
    else if idf.Err? then idf
    else Ok(tf.value * idf.value)
  }

  /** A document's count of a token is at most its length, and its length at
      most the total length. */
  lemma CountBelowLength(s: Snapshot, d: DocId, t: Token)
    requires LengthsAgree(s) && d in s.docLens
    ensures Count(CounterOf(s.termFreq, d), t) <= s.docLens[d] <= SumValues(s.docLens)
  {
    var counter := CounterOf(s.termFreq, d);
    if t in counter {
      SumValuesRemove(counter, t);
    }
    SumValuesRemove(s.docLens, d);
  }

  /** `__bm25_score` on a fixed state, as a scorer. */
  function Bm25Scorer(s: Snapshot, cfg: Normalizer, k1: real, b: real, ln: real -> real): (score: Scorer) {
    (d: DocId, t: Token) => Bm25Score(s, d, t, cfg, k1, b, ln)
  }

  /** A document in the postings of a token that normalises to itself can
      be scored for it, with the standard ranges of `k1` and `b`. */
  lemma PostedIsScorable(s: Snapshot, t: Token, d: DocId, cfg: Normalizer, k1: real, b: real, ln: real -> real)
    requires Valid(s) && t in s.index && d in s.index[t] && Normalize(cfg, t) == [t]
    requires k1 > 0.0 && 0.0 <= b <= 1.0
    ensures Bm25Score(s, d, t, cfg, k1, b, ln).Ok?
  {
    var tf := Count(CounterOf(s.termFreq, d), t);
    assert tf > 0 && GetTf(s, d, t, cfg) == Ok(tf) by {
      assert d in Postings(s.index, t);
    }
    var norm := NormDocLen(s.docLens, d, b);
    assert norm.Ok? && norm.value >= 0.0 by {
      assert d in s.docLens;
      CountBelowLength(s, d, t);
    }
    assert GetBm25Tf(s, d, t, cfg, k1, b).Ok? by {
      NonNegativeProduct(k1, norm.value);
      assert Bm25TfValue(tf, k1, norm.value).Ok?;
    }
    assert GetBm25Idf(s, t, cfg, ln).Ok?;
  }

  /** Hence such a token is scorable: `bm25_search` then raises only for a
      query token without postings. */
  lemma ScorableWhenStable(s: Snapshot, t: Token, cfg: Normalizer, k1: real, b: real, ln: real -> real)
    requires Valid(s) && t in s.index && Normalize(cfg, t) == [t]
    requires k1 > 0.0 && 0.0 <= b <= 1.0
    ensures Scorable(s.index, Bm25Scorer(s, cfg, k1, b, ln), t)
  {
    forall d | d in s.index[t] ensures Bm25Score(s, d, t, cfg, k1, b, ln).Ok? {
      PostedIsScorable(s, t, d, cfg, k1, b, ln);
    }
  }

  class InvertedIndex {
    var index: map<Token, set<DocId>>
    var docmap: map<DocId, Movie>
    var termFreq: map<DocId, map<Token, nat>>
    var docLens: map<DocId, nat>

    /** The four structures, as a value. */
    function State(): (s: Snapshot)
      reads this
    {
      Snapshot(index, docmap, termFreq, docLens)
    }

    constructor ()
      ensures State() == Empty
    {
      index := map[];
      docmap := map[];
      termFreq := map[];
      docLens := map[];
    }
    /** `__add_document(doc_id, text)` */
    method AddDocument(docId: DocId, text: string, cfg: Normalizer)
      modifies this
      ensures State() == WithDocument(old(State()), docId, Normalize(cfg, text))
    {
      var toks := Normalize(cfg, text);
      docLens := docLens[docId := |toks|];
      AddTokens(docId, toks);
    }

    /** The loop of `__add_document` over the normalised tokens. */
    method AddTokens(docId: DocId, toks: seq<Token>)
      modifies this
      ensures docLens == old(docLens) && docmap == old(docmap)
      ensures index == AddPostings(old(index), toks, docId)
      ensures termFreq == AddTermCounts(old(termFreq), docId, toks)
    {
      for i := 0 to |toks|
        invariant docLens == old(docLens) && docmap == old(docmap)
        invariant index == AddPostings(old(index), toks[..i], docId)
        invariant termFreq == AddTermCounts(old(termFreq), docId, toks[..i])
      {
        AddPostingsStep(old(index), toks, docId, i);
        AddTermCountsStep(old(termFreq), docId, toks, i);
        AddPosting(toks[i], docId);
        CountToken(docId, toks[i]);
      }
      assert toks[..|toks|] == toks;
    }

    /** `self.index[token].add(doc_id)`, creating the set first. */
    method AddPosting(token: Token, docId: DocId)
      modifies this
      ensures index == old(index)[token := Postings(old(index), token) + {docId}]
      ensures termFreq == old(termFreq) && docLens == old(docLens) && docmap == old(docmap)
    {
      if token !in index {
        index := index[token := {}];
      }
      index := index[token := index[token] + {docId}];
    }

    /** One more occurrence of `token` in the counter of `docId`, creating
        the counter first. */
    method CountToken(docId: DocId, token: Token)
      modifies this
      ensures var c := CounterOf(old(termFreq), docId);
              termFreq == old(termFreq)[docId := c[token := Count(c, token) + 1]]
      ensures index == old(index) && docLens == old(docLens) && docmap == old(docmap)
    {
      if docId !in termFreq {
        termFreq := termFreq[docId := map[]];
      }
      var docCounter := termFreq[docId];
      if token !in docCounter {
        docCounter := docCounter[token := 1];
      } else {
        docCounter := docCounter[token := docCounter[token] + 1];
      }
      if docId !in old(termFreq) {
        UpdateTwice(old(termFreq), docId, map[], docCounter);
      }
      termFreq := termFreq[docId := docCounter];
    }

    /** `build()`, with the movies of `movies.json` passed in. */
    method Build(movies: seq<Movie>, cfg: Normalizer)
      modifies this
      ensures State() == Built(old(State()), movies, cfg)
    {
      for i := 0 to |movies|
        invariant State() == Built(old(State()), movies[..i], cfg)
      {
        var movie := movies[i];
        assert movies[..i + 1][..i] == movies[..i];
        AddDocument(movie.id, movie.title + " " + movie.description, cfg);
        docmap := docmap[movie.id := movie];
      }
      assert movies[..|movies|] == movies;
    }

    /** `bm25_search(query, k1, b, limit)` */
    method Bm25Search(query: string, cfg: Normalizer, k1: real, b: real, limit: int, ln: real -> real)
      returns (r: Result<seq<(Movie, real)>>)
      requires Consistent(State()) && DocsKnown(State())
      // it raises exactly when a query token has no postings or a score fails
      ensures r.Ok? <==> forall i :: 0 <= i < |Normalize(cfg, query)| ==>
        Scorable(index, Bm25Scorer(State(), cfg, k1, b, ln), Normalize(cfg, query)[i])
      // it returns the best `limit` totals, highest first
      ensures r.Ok? ==> Ranks(ScoresOf(r.value), Totals(index, Normalize(cfg, query), Bm25Scorer(State(), cfg, k1, b, ln)), limit)
      ensures r.Ok? && limit >= 0 ==> |r.value| <= limit
      ensures r.Ok? ==> forall i :: 0 <= i < |r.value| ==>
        r.value[i].0.id in docmap && r.value[i].0 == docmap[r.value[i].0.id]
    {
      r := RankedSearch(State(), Normalize(cfg, query), Bm25Scorer(State(), cfg, k1, b, ln), limit);
    }
  }
}
