/**
 * The four structures an `InvertedIndex` owns, as one value (`Snapshot`),
 * and what adding a document and building from a corpus do to them.
 *
 *   index     token -> ids of the documents holding it (the postings)
 *   docmap    id -> movie
 *   termFreq  id -> token -> occurrences of the token in that document
 *   docLens   id -> number of normalised tokens of that document
 *
 * The class in module KeywordIndex updates its fields in place; its methods
 * are proved to leave the fields equal to the functions defined here, and
 * the properties of the index are proved here, on values.
 */
module IndexState {
  import opened TokenUtils

  type DocId = int
  type Token = string

  datatype Snapshot = Snapshot(
    index: map<Token, set<DocId>>,
    docmap: map<DocId, Movie>,
    termFreq: map<DocId, map<Token, nat>>,
    docLens: map<DocId, nat>)

  /** The state after `__init__`. */
  const Empty: Snapshot := Snapshot(map[], map[], map[], map[])

  /** `index.get(t, set())` */
  function Postings(index: map<Token, set<DocId>>, t: Token): (docs: set<DocId>) {
    if t in index then index[t] else {}
  }

  /** A `Counter` lookup, which defaults to 0. */
  function Count(counter: map<Token, nat>, t: Token): (n: nat) {
    if t in counter then counter[t] else 0
  }

  /** The counter of a document, empty when it has none yet. */
  function CounterOf(termFreq: map<DocId, map<Token, nat>>, d: DocId): (counter: map<Token, nat>) {
    if d in termFreq then termFreq[d] else map[]
  }

  /** Adds `d` to the postings of every token of `toks`, in order. */
  function AddPostings(index: map<Token, set<DocId>>, toks: seq<Token>, d: DocId): (r: map<Token, set<DocId>>)
    decreases |toks|
  {
    if toks == [] then index
    else
      var prefix := toks[..|toks| - 1];
      var t := toks[|toks| - 1];
      assert toks == prefix + [t];
      var prev := AddPostings(index, prefix, d);
      prev[t := Postings(prev, t) + {d}]
  }

  /** The tokens of `toks` gain `d` in their postings, and only they. */
  lemma {:induction false} AddPostingsEffect(index: map<Token, set<DocId>>, toks: seq<Token>, d: DocId)
    ensures var r := AddPostings(index, toks, d);
      && (forall t :: t in r <==> t in index || t in toks)
      && (forall t :: Postings(r, t) == Postings(index, t) + (if t in toks then {d} else {}))
    decreases |toks|
  {
    if toks != [] {
      var prefix := toks[..|toks| - 1];
      assert toks == prefix + [toks[|toks| - 1]];
      AddPostingsEffect(index, prefix, d);
    }
  }

  /** One more token of `toks` added to the postings. */
  lemma AddPostingsStep(index: map<Token, set<DocId>>, toks: seq<Token>, d: DocId, i: nat)
    requires i < |toks|
    ensures AddPostings(index, toks[..i + 1], d) ==
            AddPostings(index, toks[..i], d)[toks[i] := Postings(AddPostings(index, toks[..i], d), toks[i]) + {d}]
  {
    assert toks[..i + 1][..i] == toks[..i];
  }

  /** Counts every token of `toks` once more for `d`, in order; the counter
      of `d` is created only when a token arrives. */
  function AddTermCounts(termFreq: map<DocId, map<Token, nat>>, d: DocId, toks: seq<Token>): (r: map<DocId, map<Token, nat>>)
    decreases |toks|
  {
    if toks == [] then termFreq
    else
      var prefix := toks[..|toks| - 1];
      var t := toks[|toks| - 1];
      assert toks == prefix + [t];
      var prev := AddTermCounts(termFreq, d, prefix);
      var c := CounterOf(prev, d);
      prev[d := c[t := Count(c, t) + 1]]
  }

  /** The counter of `d` grows by the occurrences of each token of `toks`;
      no other counter changes. */
  lemma {:induction false} AddTermCountsEffect(termFreq: map<DocId, map<Token, nat>>, d: DocId, toks: seq<Token>)
    ensures var r := AddTermCounts(termFreq, d, toks);
      && (toks != [] ==> d in r)
      && (forall e :: e != d ==> (e in r <==> e in termFreq) && CounterOf(r, e) == CounterOf(termFreq, e))
      && (forall t :: t in CounterOf(r, d) <==> t in CounterOf(termFreq, d) || t in toks)
      && (forall t :: Count(CounterOf(r, d), t) == Count(CounterOf(termFreq, d), t) + multiset(toks)[t])
    decreases |toks|
  {
    if toks != [] {
      var prefix := toks[..|toks| - 1];
      assert toks == prefix + [toks[|toks| - 1]];
      AddTermCountsEffect(termFreq, d, prefix);
    }
  }

  /** One more token of `toks` counted for `d`. */
  lemma AddTermCountsStep(termFreq: map<DocId, map<Token, nat>>, d: DocId, toks: seq<Token>, i: nat)
    requires i < |toks|
    ensures var prev := AddTermCounts(termFreq, d, toks[..i]);
            var c := CounterOf(prev, d);
            AddTermCounts(termFreq, d, toks[..i + 1]) == prev[d := c[toks[i] := Count(c, toks[i]) + 1]]
  {
    assert toks[..i + 1][..i] == toks[..i];
  }

  /** `__add_document(d, text)` once `text` has been normalised into `toks`:
      the length of `d` is overwritten, its counter (created only when a
      token arrives) and the postings of its tokens accumulate. */
  function WithDocument(s: Snapshot, d: DocId, toks: seq<Token>): (r: Snapshot)
    ensures r.docmap == s.docmap
    ensures r.docLens.Keys == s.docLens.Keys + {d} && r.docLens[d] == |toks|
  {
    Snapshot(
      AddPostings(s.index, toks, d),
      s.docmap,
      AddTermCounts(s.termFreq, d, toks),
      s.docLens[d := |toks|])
  }

  /** What adding a document changes: `d` joins the postings of its tokens
      and no others, its counts grow by the occurrences of its tokens, and
      no other document's counter or length changes. */
  lemma WithDocumentEffect(s: Snapshot, d: DocId, toks: seq<Token>)
    ensures var r := WithDocument(s, d, toks);
      && (forall t :: t in toks ==> d in Postings(r.index, t))
      && (forall t :: Postings(s.index, t) <= Postings(r.index, t))
      && (forall t :: t !in toks ==> (t in r.index <==> t in s.index) && Postings(r.index, t) == Postings(s.index, t))
      && (forall e :: e != d ==> (e in r.termFreq <==> e in s.termFreq) && CounterOf(r.termFreq, e) == CounterOf(s.termFreq, e))
      && (forall e :: e != d && e in s.docLens ==> r.docLens[e] == s.docLens[e])
      && (forall t :: Count(CounterOf(r.termFreq, d), t) == Count(CounterOf(s.termFreq, d), t) + multiset(toks)[t])
  {
    AddPostingsEffect(s.index, toks, d);
    AddTermCountsEffect(s.termFreq, d, toks);
  }

  /** The text `build` indexes for a movie. */
  function MovieText(m: Movie): (text: string) {
    m.title + " " + m.description
  }

  /** One iteration of `build`: index the movie's text under its id, then
      record the movie in `docmap`. */
  function WithMovie(s: Snapshot, m: Movie, cfg: Normalizer): (r: Snapshot)
    ensures r.docmap == s.docmap[m.id := m]
    ensures r.docLens.Keys == s.docLens.Keys + {m.id}
  {
    var r := WithDocument(s, m.id, Normalize(cfg, MovieText(m)));
    r.(docmap := r.docmap[m.id := m])
  }

  /** The ids of the movies. */
  function Ids(movies: seq<Movie>): (r: set<DocId>)
    ensures forall i :: 0 <= i < |movies| ==> movies[i].id in r
    ensures forall id :: id in r ==> exists i :: 0 <= i < |movies| && movies[i].id == id
    decreases |movies|
  {
    if movies == [] then {}
    else
      var prefix := movies[..|movies| - 1];
      assert forall i :: 0 <= i < |prefix| ==> prefix[i] == movies[i];
      Ids(prefix) + {movies[|movies| - 1].id}
  }

  /** `build` over the movies, in order. */
  function Built(s: Snapshot, movies: seq<Movie>, cfg: Normalizer): (r: Snapshot)
    decreases |movies|
  {
    if movies == [] then s
    else WithMovie(Built(s, movies[..|movies| - 1], cfg), movies[|movies| - 1], cfg)
  }

  /** Building records exactly the ids of the movies, in `docmap` and in
      `doc_lens`. */
  lemma {:induction false} BuiltKeys(s: Snapshot, movies: seq<Movie>, cfg: Normalizer)
    ensures Built(s, movies, cfg).docmap.Keys == s.docmap.Keys + Ids(movies)
    ensures Built(s, movies, cfg).docLens.Keys == s.docLens.Keys + Ids(movies)
    decreases |movies|
  {
    if movies != [] {
      var prefix := movies[..|movies| - 1];
      BuiltKeys(s, prefix, cfg);
      assert Ids(movies) == Ids(prefix) + {movies[|movies| - 1].id};
    }
  }

  // ---------------------------------------------------------------------
  // Invariants

  /** The sum of the values of a map. */
  ghost function SumValues<K>(m: map<K, nat>): (total: nat)
    decreases |m|
  {
    if m == map[] then 0
    else
      assert (forall k :: k !in m) ==> m == map[];
      var k :| k in m;
      m[k] + SumValues(m - {k})
  }

  /** A document is in the postings of a token exactly when the token has a
      positive count for it; every count is positive; every document with a
      counter has a length. */
  ghost predicate Consistent(s: Snapshot) {
    && s.termFreq.Keys <= s.docLens.Keys
    && (forall d, t :: d in s.termFreq && t in s.termFreq[d] ==> s.termFreq[d][t] > 0)
    && (forall t, d :: d in Postings(s.index, t) <==> Count(CounterOf(s.termFreq, d), t) > 0)
  }

  /** The counts of a document sum to its recorded length. */
  ghost predicate LengthsAgree(s: Snapshot) {
    forall d :: d in s.docLens ==> s.docLens[d] == SumValues(CounterOf(s.termFreq, d))
  }

  /** Every indexed document is in `docmap` under its own id. */
  ghost predicate DocsKnown(s: Snapshot) {
    && s.docLens.Keys == s.docmap.Keys
    && (forall id :: id in s.docmap ==> s.docmap[id].id == id)
  }

  ghost predicate Valid(s: Snapshot) {
    Consistent(s) && LengthsAgree(s) && DocsKnown(s)
  }

  predicate DistinctIds(movies: seq<Movie>) {
    forall i, j :: 0 <= i < j < |movies| ==> movies[i].id != movies[j].id
  }

  // ---------------------------------------------------------------------
  // Lemmas

  lemma {:induction false} SumValuesRemove<K>(m: map<K, nat>, k: K)
    requires k in m
    ensures SumValues(m) == m[k] + SumValues(m - {k})
    decreases |m|
  {
    assert m != map[];
    var j :| j in m && SumValues(m) == m[j] + SumValues(m - {j});
    if j != k {
      SumValuesRemove(m - {j}, k);
      SumValuesRemove(m - {k}, j);
      assert (m - {j}) - {k} == (m - {k}) - {j};
    }
  }

  lemma SumValuesUpdate<K>(m: map<K, nat>, k: K, v: nat)
    ensures SumValues(m[k := v]) == SumValues(m) - (if k in m then m[k] else 0) + v
  {
    var m' := m[k := v];
    SumValuesRemove(m', k);
    assert m' - {k} == m - {k};
    if k in m {
      SumValuesRemove(m, k);
    } else {
      assert m - {k} == m;
    }
  }

  /** Counting a token list for `d` adds its length to the sum of its counts. */
  lemma {:induction false} SumAddTermCounts(termFreq: map<DocId, map<Token, nat>>, d: DocId, toks: seq<Token>)
    ensures SumValues(CounterOf(AddTermCounts(termFreq, d, toks), d)) == SumValues(CounterOf(termFreq, d)) + |toks|
    decreases |toks|
  {
    if toks != [] {
      var prefix := toks[..|toks| - 1];
      var t := toks[|toks| - 1];
      SumAddTermCounts(termFreq, d, prefix);
      var c := CounterOf(AddTermCounts(termFreq, d, prefix), d);
      SumValuesUpdate(c, t, Count(c, t) + 1);
    }
  }

  /** Adding a document keeps postings and counts consistent. */
  lemma WithDocumentConsistent(s: Snapshot, d: DocId, toks: seq<Token>)
    requires Consistent(s)
    ensures Consistent(WithDocument(s, d, toks))
  {
    var r := WithDocument(s, d, toks);
    WithDocumentEffect(s, d, toks);
    AddPostingsEffect(s.index, toks, d);
    AddTermCountsEffect(s.termFreq, d, toks);
    assert r.termFreq.Keys <= r.docLens.Keys by {
      forall e | e in r.termFreq ensures e in r.docLens {
        if e != d {
          assert e in s.termFreq;
        }
      }
    }
    forall e, t | e in r.termFreq && t in r.termFreq[e] ensures r.termFreq[e][t] > 0 {
      if e == d {
        assert Count(CounterOf(r.termFreq, d), t) == Count(CounterOf(s.termFreq, d), t) + multiset(toks)[t];
        if t !in toks {
          assert t in CounterOf(s.termFreq, d);
        }
      } else {
        assert CounterOf(r.termFreq, e) == CounterOf(s.termFreq, e);
      }
    }
    forall t, e ensures e in Postings(r.index, t) <==> Count(CounterOf(r.termFreq, e), t) > 0 {
      if e == d {
        assert t in toks <==> multiset(toks)[t] > 0;
      } else {
        assert CounterOf(r.termFreq, e) == CounterOf(s.termFreq, e);
      }
    }
  }

  /** Adding a document under an id without a counter makes its counts the
      occurrences of its tokens, so they sum to its recorded length, and
      keeps every other document's lengths in agreement. */
  lemma WithFreshDocument(s: Snapshot, d: DocId, toks: seq<Token>)
    requires d !in s.termFreq
    ensures forall t :: Count(CounterOf(WithDocument(s, d, toks).termFreq, d), t) == multiset(toks)[t]
    ensures SumValues(CounterOf(WithDocument(s, d, toks).termFreq, d)) == WithDocument(s, d, toks).docLens[d]
    ensures LengthsAgree(s) ==> LengthsAgree(WithDocument(s, d, toks))
  {
    var r := WithDocument(s, d, toks);
    WithDocumentEffect(s, d, toks);
    var none: map<Token, nat> := map[];
    assert SumValues(none) == 0;
    if toks != [] {
      SumAddTermCounts(s.termFreq, d, toks);
    }
    if LengthsAgree(s) {
      forall e | e in r.docLens ensures r.docLens[e] == SumValues(CounterOf(r.termFreq, e)) {
        if e != d {
          assert CounterOf(r.termFreq, e) == CounterOf(s.termFreq, e);
        }
      }
    }
  }

  /** With a duplicate id the counts of both texts accumulate while the
      length is overwritten: the lengths no longer agree. */
  lemma WithDuplicateDocument(s: Snapshot, d: DocId, toks: seq<Token>)
    requires Consistent(s) && d in s.termFreq && s.termFreq[d] != map[] && toks != []
    ensures !LengthsAgree(WithDocument(s, d, toks))
  {
    var r := WithDocument(s, d, toks);
    var old_ := s.termFreq[d];
    assert (forall t :: t !in old_) ==> old_ == map[];
    var t :| t in old_;
    SumValuesRemove(old_, t);
    assert SumValues(old_) > 0;
    SumAddTermCounts(s.termFreq, d, toks);
  }

  /** One step of `build` keeps the index consistent and the movies known. */
  lemma WithMovieValid(s: Snapshot, m: Movie, cfg: Normalizer)
    requires Consistent(s) && DocsKnown(s)
    ensures Consistent(WithMovie(s, m, cfg)) && DocsKnown(WithMovie(s, m, cfg))
    ensures m.id !in s.termFreq && LengthsAgree(s) ==> LengthsAgree(WithMovie(s, m, cfg))
  {
    var toks := Normalize(cfg, MovieText(m));
    WithDocumentConsistent(s, m.id, toks);
    if m.id !in s.termFreq {
      WithFreshDocument(s, m.id, toks);
    }
  }

  /** Counters only exist for ids seen before or among the movies. */
  lemma {:induction false} BuiltCounters(s: Snapshot, movies: seq<Movie>, cfg: Normalizer, id: DocId)
    requires id !in s.termFreq
    requires forall i :: 0 <= i < |movies| ==> movies[i].id != id
    ensures id !in Built(s, movies, cfg).termFreq
    decreases |movies|
  {
    if movies != [] {
      var prefix := movies[..|movies| - 1];
      var m := movies[|movies| - 1];
      BuiltCounters(s, prefix, cfg, id);
      WithDocumentEffect(Built(s, prefix, cfg), m.id, Normalize(cfg, MovieText(m)));
    }
  }

  /** Building keeps the index consistent and the movies known; from a state
      whose lengths agree, with distinct ids that have no counter yet, the
      lengths still agree. */
  lemma {:induction false} BuiltValid(s: Snapshot, movies: seq<Movie>, cfg: Normalizer)
    requires Consistent(s) && DocsKnown(s)
    ensures Consistent(Built(s, movies, cfg)) && DocsKnown(Built(s, movies, cfg))
    ensures LengthsAgree(s) && DistinctIds(movies) && (forall i :: 0 <= i < |movies| ==> movies[i].id !in s.termFreq)
      ==> LengthsAgree(Built(s, movies, cfg))
    decreases |movies|
  {
    if movies != [] {
      var prefix := movies[..|movies| - 1];
      var m := movies[|movies| - 1];
      BuiltValid(s, prefix, cfg);
      var prev := Built(s, prefix, cfg);
      if LengthsAgree(s) && DistinctIds(movies) && (forall i :: 0 <= i < |movies| ==> movies[i].id !in s.termFreq) {
        BuiltCounters(s, prefix, cfg, m.id);
      }
      WithMovieValid(prev, m, cfg);
    }
  }

  /** `m` is held under its id, with its own text's length and counts. */
  ghost predicate HoldsMovie(r: Snapshot, m: Movie, cfg: Normalizer) {
    var toks := Normalize(cfg, MovieText(m));
    && m.id in r.docmap && r.docmap[m.id] == m
    && m.id in r.docLens && r.docLens[m.id] == |toks|
    && forall t :: Count(CounterOf(r.termFreq, m.id), t) == multiset(toks)[t]
  }

  /** Indexing another movie leaves a held movie alone. */
  lemma WithMovieKeepsOthers(s: Snapshot, m: Movie, cfg: Normalizer, other: Movie)
    requires HoldsMovie(s, other, cfg) && other.id != m.id
    ensures HoldsMovie(WithMovie(s, m, cfg), other, cfg)
  {
    WithDocumentEffect(s, m.id, Normalize(cfg, MovieText(m)));
  }

  /** Indexing a movie whose id has no counter yet holds it. */
  lemma WithFreshMovie(s: Snapshot, m: Movie, cfg: Normalizer)
    requires m.id !in s.termFreq
    ensures HoldsMovie(WithMovie(s, m, cfg), m, cfg)
  {
    WithFreshDocument(s, m.id, Normalize(cfg, MovieText(m)));
  }

  /** After building a fresh index from movies with distinct ids, each
      movie is held under its id, with the number of normalised tokens of its
      text as its length and each token counted as often as it occurs there. */
  lemma {:induction false} BuiltHoldsMovie(movies: seq<Movie>, cfg: Normalizer, i: nat)
    requires DistinctIds(movies) && i < |movies|
    ensures HoldsMovie(Built(Empty, movies, cfg), movies[i], cfg)
    decreases |movies|
  {
    var prefix := movies[..|movies| - 1];
    if i < |movies| - 1 {
      assert prefix[i] == movies[i];
      assert DistinctIds(prefix) by {
        assert forall k :: 0 <= k < |prefix| ==> prefix[k] == movies[k];
      }
      BuiltHoldsMovie(prefix, cfg, i);
      BuiltKeepsEarlier(movies, cfg, i);
    } else {
      BuiltHoldsLast(movies, cfg);
    }
  }

  lemma BuiltKeepsEarlier(movies: seq<Movie>, cfg: Normalizer, i: nat)
    requires DistinctIds(movies) && i < |movies| - 1
    requires HoldsMovie(Built(Empty, movies[..|movies| - 1], cfg), movies[i], cfg)
    ensures HoldsMovie(Built(Empty, movies, cfg), movies[i], cfg)
  {
    WithMovieKeepsOthers(Built(Empty, movies[..|movies| - 1], cfg), movies[|movies| - 1], cfg, movies[i]);
  }

  lemma BuiltHoldsLast(movies: seq<Movie>, cfg: Normalizer)
    requires DistinctIds(movies) && movies != []
    ensures HoldsMovie(Built(Empty, movies, cfg), movies[|movies| - 1], cfg)
  {
    var prefix := movies[..|movies| - 1];
    var m := movies[|movies| - 1];
    assert forall k :: 0 <= k < |prefix| ==> prefix[k].id != m.id by {
      assert forall k :: 0 <= k < |prefix| ==> prefix[k] == movies[k];
    }
    assert Empty.termFreq == map[];
    BuiltCounters(Empty, prefix, cfg, m.id);
    WithFreshMovie(Built(Empty, prefix, cfg), m, cfg);
  }

  /** A fresh index built from movies with distinct ids is valid and holds
      every movie. */
  lemma BuildFromEmpty(movies: seq<Movie>, cfg: Normalizer)
    requires DistinctIds(movies)
    ensures Valid(Built(Empty, movies, cfg))
    ensures forall i :: 0 <= i < |movies| ==> HoldsMovie(Built(Empty, movies, cfg), movies[i], cfg)
  {
    assert Empty.termFreq == map[];
    BuiltValid(Empty, movies, cfg);
    forall i | 0 <= i < |movies| ensures HoldsMovie(Built(Empty, movies, cfg), movies[i], cfg) {
      BuiltHoldsMovie(movies, cfg, i);
    }
  }

  /** After `build`, every movie's id is in the postings of every token of its
      text. */
  lemma {:induction false} BuiltIndexesEveryMovie(s: Snapshot, movies: seq<Movie>, cfg: Normalizer, i: nat, t: Token)
    requires i < |movies| && t in Normalize(cfg, MovieText(movies[i]))
    ensures movies[i].id in Postings(Built(s, movies, cfg).index, t)
    decreases |movies|
  {
    var prefix := movies[..|movies| - 1];
    var m := movies[|movies| - 1];
    WithDocumentEffect(Built(s, prefix, cfg), m.id, Normalize(cfg, MovieText(m)));
    if i < |movies| - 1 {
      assert prefix[i] == movies[i];
      BuiltIndexesEveryMovie(s, prefix, cfg, i, t);
    }
  }
}
