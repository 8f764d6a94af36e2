/**
 * `bm25_search` for any way of scoring a document for a query token: the
 * `scores` dictionary accumulated over the query tokens, then sorted and cut
 * to `limit`.
 */
module Search {
  import opened TokenUtils
  import opened IndexState
  import opened Ranking
  import opened Scoring

  /** The documents of a result list, by id, with their scores. */
  function ScoresOf(results: seq<(Movie, real)>): (r: seq<(DocId, real)>)
    ensures |r| == |results|
    ensures forall i :: 0 <= i < |r| ==> r[i] == (results[i].0.id, results[i].1)
  {
    seq(|results|, i requires 0 <= i < |results| => (results[i].0.id, results[i].1))
  }

  /** How a document is scored for one query token. */
  type Scorer = (DocId, Token) -> Result<real>

  /** `index[t]` exists and every document in it can be scored for `t`. */
  ghost predicate Scorable(index: map<Token, set<DocId>>, score: Scorer, t: Token) {
    t in index && forall d :: d in index[t] ==> score(d, t).Ok?
  }

  /** The scores after adding the score for `t` of each document of `docs`. */
  ghost function AddTokenScores(acc: map<DocId, real>, t: Token, docs: set<DocId>, score: Scorer): (r: map<DocId, real>)
    requires forall d :: d in docs ==> score(d, t).Ok?
    ensures r.Keys == acc.Keys + docs
  {
    map d | d in acc.Keys + docs ::
      ScoreOr0(acc, d) + (if d in docs then score(d, t).value else 0.0)
  }

  /** A score accumulated so far, 0 for a document not yet scored. */
  function ScoreOr0(scores: map<DocId, real>, d: DocId): (total: real) {
    if d in scores then scores[d] else 0.0
  }

  /** The `scores` dictionary after the query tokens `toks`: each document's
      total over the tokens, repeats included, in whose postings it is. */
  ghost function Totals(index: map<Token, set<DocId>>, toks: seq<Token>, score: Scorer): (r: map<DocId, real>)
    requires forall i :: 0 <= i < |toks| ==> Scorable(index, score, toks[i])
    ensures forall d :: d in r <==> exists i :: 0 <= i < |toks| && d in Postings(index, toks[i])
    decreases |toks|
  {
    if toks == [] then map[]
    else
      var prefix := toks[..|toks| - 1];
      var t := toks[|toks| - 1];
      assert forall i :: 0 <= i < |prefix| ==> prefix[i] == toks[i];
      assert Scorable(index, score, t);
      AddTokenScores(Totals(index, prefix, score), t, index[t], score)
  }

  /** Scoring one more document for `t`. */
  lemma AddTokenScoresStep(acc: map<DocId, real>, t: Token, done: set<DocId>, d: DocId, score: Scorer)
    requires d !in done && forall e :: e in done + {d} ==> score(e, t).Ok?
    ensures var m := AddTokenScores(acc, t, done, score);
            AddTokenScores(acc, t, done + {d}, score) == m[d := ScoreOr0(m, d) + score(d, t).value]
  {
    var m := AddTokenScores(acc, t, done, score);
    assert ScoreOr0(m, d) == ScoreOr0(acc, d);
  }

  /** The inner loop of `bm25_search`: adds the score for `token` of every
      document in its postings to `scores`, or stops at the first error. */
  method AddScoresFor(index: map<Token, set<DocId>>, scores: map<DocId, real>, token: Token, score: Scorer)
    returns (r: Result<map<DocId, real>>)
    requires token in index
    ensures r.Ok? <==> forall d :: d in index[token] ==> score(d, token).Ok?
    ensures r.Ok? ==> r.value == AddTokenScores(scores, token, index[token], score)
    ensures r.Err? ==> exists d :: d in index[token] && score(d, token) == Err(r.error)
  {
    var docs := index[token];
    var pending := docs;
    var acc := scores;
    while pending != {}
      invariant pending <= docs
      invariant forall d :: d in docs - pending ==> score(d, token).Ok?
      invariant acc == AddTokenScores(scores, token, docs - pending, score)
      decreases pending
    {
      assert (forall e :: e !in pending) ==> pending == {};
      var d :| d in pending;
      var s := score(d, token);
      if s.Err? {
        return Err(s.error);
      }
      AddTokenScoresStep(scores, token, docs - pending, d, score);
      assert (docs - pending) + {d} == docs - (pending - {d});
      acc := acc[d := ScoreOr0(acc, d) + s.value];
      pending := pending - {d};
    }
    assert docs - pending == docs;
    return Ok(acc);
  }

  /** The totals after one more query token. */
  lemma TotalsStep(index: map<Token, set<DocId>>, toks: seq<Token>, i: nat, score: Scorer)
    requires i < |toks| && forall k :: 0 <= k <= i ==> Scorable(index, score, toks[k])
    ensures Totals(index, toks[..i + 1], score) ==
            AddTokenScores(Totals(index, toks[..i], score), toks[i], index[toks[i]], score)
  {
    assert toks[..i + 1][..i] == toks[..i];
  }

  /** The outer loop of `bm25_search`: the `scores` dictionary over the
      query tokens, or the first error (a KeyError for a token without
      postings). */
  method AccumulateScores(index: map<Token, set<DocId>>, toks: seq<Token>, score: Scorer)
    returns (r: Result<map<DocId, real>>)
    ensures r.Ok? <==> forall i :: 0 <= i < |toks| ==> Scorable(index, score, toks[i])
    ensures r.Ok? ==> r.value == Totals(index, toks, score)
  {
    var scores: map<DocId, real> := map[];
    for i := 0 to |toks|
      invariant forall k :: 0 <= k < i ==> Scorable(index, score, toks[k])
      invariant scores == Totals(index, toks[..i], score)
    {
      var token := toks[i];
      if token !in index {
        return Err(UnknownTerm(token));
      }
      var next := AddScoresFor(index, scores, token, score);
      if next.Err? {
        return next;
      }
      TotalsStep(index, toks, i, score);
      scores := next.value;
    }
    assert toks[..|toks|] == toks;
    return Ok(scores);
  }

  /** `[(docmap[doc_id], score) for doc_id, score in top]` */
  function WithMovies(docmap: map<DocId, Movie>, top: seq<(DocId, real)>): (r: seq<(Movie, real)>)
    requires forall i :: 0 <= i < |top| ==> top[i].0 in docmap && docmap[top[i].0].id == top[i].0
    ensures ScoresOf(r) == top
    ensures forall i :: 0 <= i < |r| ==> r[i].0 == docmap[top[i].0]
  {
    var r := seq(|top|, i requires 0 <= i < |top| => (docmap[top[i].0], top[i].1));
    assert ScoresOf(r) == top;
    r
  }

  /** A document in some postings is in `docmap` under its own id. */
  lemma PostedIsKnown(s: Snapshot, t: Token, d: DocId)
    requires Consistent(s) && DocsKnown(s) && d in Postings(s.index, t)
    ensures d in s.docmap && s.docmap[d].id == d
  {
    assert Count(CounterOf(s.termFreq, d), t) > 0;
  }

  /** The body of `bm25_search` for a given scorer: the `scores` dictionary
      over the query tokens, its entries sorted by score, highest first, cut
      to `limit` and paired with their movies. */
  method RankedSearch(s: Snapshot, toks: seq<Token>, score: Scorer, limit: int)
    returns (r: Result<seq<(Movie, real)>>)
    requires Consistent(s) && DocsKnown(s)
    ensures r.Ok? <==> forall i :: 0 <= i < |toks| ==> Scorable(s.index, score, toks[i])
    ensures r.Ok? ==> Ranks(ScoresOf(r.value), Totals(s.index, toks, score), limit)
    ensures r.Ok? && limit >= 0 ==> |r.value| <= limit
    ensures r.Ok? ==> forall i :: 0 <= i < |r.value| ==>
      r.value[i].0.id in s.docmap && r.value[i].0 == s.docmap[r.value[i].0.id]
    ensures r.Ok? ==> forall i :: 0 <= i < |r.value| ==>
      exists k :: 0 <= k < |toks| && r.value[i].0.id in Postings(s.index, toks[k])
  {
    var acc := AccumulateScores(s.index, toks, score);
    if acc.Err? {
      return Err(acc.error);
    }
    var scores := acc.value;
    forall d | d in scores ensures d in s.docmap && s.docmap[d].id == d {
      var k :| 0 <= k < |toks| && d in Postings(s.index, toks[k]);
      PostedIsKnown(s, toks[k], d);
    }
    var top := TopResults(s.docmap, scores, limit);
    r := Ok(top);
  }

  /** `sorted(scores.items(), key=lambda x: x[1], reverse=True)[:limit]`,
      each id paired with its movie. */
  method TopResults(docmap: map<DocId, Movie>, scores: map<DocId, real>, limit: int)
    returns (r: seq<(Movie, real)>)
    requires forall d :: d in scores ==> d in docmap && docmap[d].id == d
    ensures Ranks(ScoresOf(r), scores, limit)
    ensures limit >= 0 ==> |r| <= limit
    ensures forall i :: 0 <= i < |r| ==> r[i].0.id in scores && r[i].0 == docmap[r[i].0.id]
  {
    var items := Entries(scores);
    var top := SortByScore(items)[..SliceLen(|items|, limit)];
    TopOfSorted(items, scores, limit);
    assert Ranks(top, scores, limit);
    forall i | 0 <= i < |top| ensures top[i].0 in docmap && docmap[top[i].0].id == top[i].0 {
      var d := top[i].0;
      assert d in scores;
      assert d in docmap;
      assert docmap[d].id == d;
    }
    r := WithMovies(docmap, top);
  }

  /** A one-token query scores each document of the token's postings by
      that token alone, and no other document. */
  lemma TotalsOfOne(index: map<Token, set<DocId>>, t: Token, score: Scorer, d: DocId)
    requires Scorable(index, score, t)
    ensures d in Totals(index, [t], score) <==> d in index[t]
    ensures d in index[t] ==> Totals(index, [t], score)[d] == score(d, t).value
  {
    assert [t][..0] == [];
  }

  /** Every token of `a + c` is scorable when those of `a` and `c` are. */
  lemma ScorableAppend(index: map<Token, set<DocId>>, a: seq<Token>, c: seq<Token>, score: Scorer)
    requires forall i :: 0 <= i < |a| ==> Scorable(index, score, a[i])
    requires forall i :: 0 <= i < |c| ==> Scorable(index, score, c[i])
    ensures forall i :: 0 <= i < |a + c| ==> Scorable(index, score, (a + c)[i])
  {
    forall i | 0 <= i < |a + c| ensures Scorable(index, score, (a + c)[i]) {
      if i >= |a| {
        assert (a + c)[i] == c[i - |a|];
      }
    }
  }

  /** The totals after one more query token `t`: those of the earlier
      tokens plus `t`'s scores. */
  lemma TotalsLast(index: map<Token, set<DocId>>, p: seq<Token>, t: Token, score: Scorer, d: DocId)
    requires forall i :: 0 <= i < |p| ==> Scorable(index, score, p[i])
    requires Scorable(index, score, t)
    ensures forall i :: 0 <= i < |p + [t]| ==> Scorable(index, score, (p + [t])[i])
    ensures ScoreOr0(Totals(index, p + [t], score), d) ==
            ScoreOr0(Totals(index, p, score), d) + (if d in index[t] then score(d, t).value else 0.0)
  {
    ScorableAppend(index, p, [t], score);
    assert (p + [t])[..|p|] == p;
  }

  /** The total of a document over two query parts is the sum of its totals
      over each part: every query token contributes on its own. */
  lemma {:induction false} TotalsAppend(index: map<Token, set<DocId>>, a: seq<Token>, c: seq<Token>, score: Scorer, d: DocId)
    requires forall i :: 0 <= i < |a| ==> Scorable(index, score, a[i])
    requires forall i :: 0 <= i < |c| ==> Scorable(index, score, c[i])
    ensures forall i :: 0 <= i < |a + c| ==> Scorable(index, score, (a + c)[i])
    ensures ScoreOr0(Totals(index, a + c, score), d) ==
            ScoreOr0(Totals(index, a, score), d) + ScoreOr0(Totals(index, c, score), d)
    decreases |c|
  {
    ScorableAppend(index, a, c, score);
    if c == [] {
      assert a + c == a;
    } else {
      var c', t := c[..|c| - 1], c[|c| - 1];
      assert c == c' + [t];
      assert forall i :: 0 <= i < |c'| ==> c'[i] == c[i];
      TotalsAppend(index, a, c', score, d);
      TotalsLast(index, c', t, score, d);
      TotalsLast(index, a + c', t, score, d);
      AppendAssoc(a, c', [t]);
    }
  }
}
