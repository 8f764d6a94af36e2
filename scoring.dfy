/**
 * The score formulas of the index: TF-IDF's IDF, and BM25's IDF, length
 * norm and saturated term frequency, on exact reals with `math.log` as the
 * parameter `ln`; and the exceptions the index raises, as `Err` results.
 */
module Scoring {
  import opened IndexState

  /** The exceptions the index raises. */
  datatype Error =
    | NotSingleToken            // ValueError: the term does not normalise to exactly one token
    | UnknownDocument(id: DocId) // KeyError on term_freq or doc_lens
    | UnknownTerm(token: Token)  // KeyError on index
    | DivisionByZero            // ZeroDivisionError in the BM25 term frequency

  datatype Result<T> = Ok(value: T) | Err(error: Error)

  // ---------------------------------------------------------------------
  // The score formulas

  /** `math.log((N + 1) / (df + 1))` */
  function IdfValue(n: nat, df: nat, ln: real -> real): (idf: real) {
    ln((n + 1) as real / (df + 1) as real)
  }

  /** `math.log((N - df + 0.5) / (df + 0.5) + 1)` */
  function Bm25IdfValue(n: nat, df: nat, ln: real -> real): (idf: real) {
    ln((n as real - df as real + 0.5) / (df as real + 0.5) + 1.0)
  }

  /** `1 - b + b * (doc_len / avg_doc_len)` */
  function LengthNorm(docLen: nat, avgDocLen: real, b: real): (norm: real)
    requires avgDocLen != 0.0
  {
    1.0 - b + b * (docLen as real / avgDocLen)
  }

  /** `(tf * (k1 + 1)) / (tf + k1 * norm)`, which divides by zero when the
      denominator is zero. */
  function Bm25TfValue(tf: nat, k1: real, norm: real): (r: Result<real>)
    ensures r.Err? <==> tf as real + k1 * norm == 0.0
    ensures r.Err? ==> r.error == DivisionByZero
  {
    var denominator := tf as real + k1 * norm;
    if denominator == 0.0 then Err(DivisionByZero)
    else Ok((tf as real * (k1 + 1.0)) / denominator)
  }

  ghost predicate StrictlyIncreasing(ln: real -> real) {
    forall x, y :: 0.0 < x < y ==> ln(x) < ln(y)
  }

  // Steps of real arithmetic the solver needs one at a time.

  lemma QuotientInUnit(a: real, d: real)
    requires 0.0 <= a <= d && d > 0.0
    ensures 0.0 <= a / d <= 1.0
  {
  }

  lemma QuotientBelowOne(a: real, d: real)
    requires 0.0 <= a < d
    ensures a / d < 1.0
  {
  }

  lemma ScaleInUnit(q: real, k: real)
    requires 0.0 <= q <= 1.0 && k > 0.0
    ensures 0.0 <= q * k <= k
    ensures q < 1.0 ==> q * k < k
  {
  }

  lemma CrossLess(a: real, b: real, x: real, y: real)
    requires b > 0.0 && y > 0.0 && a * y < x * b
    ensures a / b < x / y
  {
  }

  lemma PlusOneQuotient(a: real, b: real)
    requires b > 0.0
    ensures a / b + 1.0 == (a + b) / b
  {
    assert (a + b) / b == a / b + b / b;
  }

  lemma ScaleQuotient(t: real, k: real, d: real)
    requires d > 0.0
    ensures t * k / d == (t / d) * k
  {
  }

  /** The rarer the token, the larger its IDF. */
  lemma IdfDecreasing(n: nat, df1: nat, df2: nat, ln: real -> real)
    requires StrictlyIncreasing(ln) && df1 < df2
    ensures IdfValue(n, df1, ln) > IdfValue(n, df2, ln)
  {
    var a := (n + 1) as real;
    CrossLess(a, (df2 + 1) as real, a, (df1 + 1) as real);
    assert 0.0 < a / (df2 + 1) as real;
  }

  /** The rarer the token, the larger its BM25 IDF. */
  lemma Bm25IdfDecreasing(n: nat, df1: nat, df2: nat, ln: real -> real)
    requires StrictlyIncreasing(ln) && df1 < df2
    ensures Bm25IdfValue(n, df1, ln) > Bm25IdfValue(n, df2, ln)
  {
    var b1, b2 := df1 as real + 0.5, df2 as real + 0.5;
    var a := n as real + 1.0;
    PlusOneQuotient(n as real - df1 as real + 0.5, b1);
    PlusOneQuotient(n as real - df2 as real + 0.5, b2);
    assert n as real - df1 as real + 0.5 + b1 == a;
    assert n as real - df2 as real + 0.5 + b2 == a;
    CrossLess(a, b2, a, b1);
    assert 0.0 < a / b2;
  }

  /** With `b` between 0 and 1 the length norm is at least `1 - b`, so
      never negative. */
  lemma LengthNormAtLeast(docLen: nat, avgDocLen: real, b: real)
    requires avgDocLen > 0.0 && 0.0 <= b <= 1.0
    ensures LengthNorm(docLen, avgDocLen, b) >= 1.0 - b >= 0.0
  {
    var q := docLen as real / avgDocLen;
    assert q >= 0.0;
    assert b * q >= 0.0;
  }

  /** The BM25 term frequency is never negative and never above `k1 + 1`,
      and stays below it when the length norm is positive. */
  lemma Bm25TfBounded(tf: nat, k1: real, norm: real)
    requires k1 > 0.0 && norm >= 0.0 && Bm25TfValue(tf, k1, norm).Ok?
    ensures 0.0 <= Bm25TfValue(tf, k1, norm).value <= k1 + 1.0
    ensures norm > 0.0 ==> Bm25TfValue(tf, k1, norm).value < k1 + 1.0
  {
    var t := tf as real;
    var c := k1 * norm;
    assert c >= 0.0;
    var d := t + c;
    ScaleQuotient(t, k1 + 1.0, d);
    QuotientInUnit(t, d);
    if norm > 0.0 {
      assert c > 0.0;
      QuotientBelowOne(t, d);
    }
    ScaleInUnit(t / d, k1 + 1.0);
    assert Bm25TfValue(tf, k1, norm).value == (t / d) * (k1 + 1.0);
  }

  /** The BM25 term frequency grows with the raw count. */
  lemma Bm25TfIncreasing(tf1: nat, tf2: nat, k1: real, norm: real)
    requires k1 > 0.0 && norm > 0.0 && tf1 < tf2
    ensures Bm25TfValue(tf1, k1, norm).Ok? && Bm25TfValue(tf2, k1, norm).Ok?
    ensures Bm25TfValue(tf1, k1, norm).value < Bm25TfValue(tf2, k1, norm).value
  {
    var t1, t2 := tf1 as real, tf2 as real;
    var c := k1 * norm;
    assert c > 0.0;
    assert t1 * (t2 + c) < t2 * (t1 + c);
    CrossLess(t1, t1 + c, t2, t2 + c);
    ScaleQuotient(t1, k1 + 1.0, t1 + c);
    ScaleQuotient(t2, k1 + 1.0, t2 + c);
  }

  lemma QuotientTimes(a: real, n: real)
    requires n > 0.0
    ensures (a / n) * n == a
  {
  }

  lemma MeanRatio(len: real, avg: real, n: real, total: real)
    requires n > 0.0 && avg * n == total && len * n == total && avg != 0.0
    ensures len / avg == 1.0
  {
    assert (avg - len) * n == 0.0;
  }

  lemma NonNegativeFactor(a: real, n: real)
    requires n > 0.0 && a * n >= 0.0
    ensures a >= 0.0
  {
  }

  lemma NonNegativeProduct(a: real, c: real)
    requires a >= 0.0 && c >= 0.0
    ensures a * c >= 0.0
  {
  }

  /** A mean of non-negative lengths is zero exactly when their total is. */
  lemma MeanIsZero(avg: real, n: real, total: real)
    requires n > 0.0 && avg * n == total && total >= 0.0
    ensures avg == 0.0 <==> total == 0.0
  {
    if avg != 0.0 {
      NonNegativeFactor(avg, n);
      assert avg * n > 0.0;
    }
  }

  /** The length norm of a document against a mean `avg` of `n` lengths
      adding up to `total`. */
  lemma NormOfMean(len: nat, avg: real, n: real, total: real, b: real)
    requires n > 0.0 && avg * n == total && avg != 0.0 && total >= 0.0
    ensures 0.0 <= b <= 1.0 ==> LengthNorm(len, avg, b) >= 1.0 - b
    ensures len as real * n == total ==> LengthNorm(len, avg, b) == 1.0
  {
    NonNegativeFactor(avg, n);
    if 0.0 <= b <= 1.0 {
      LengthNormAtLeast(len, avg, b);
    }
    if len as real * n == total {
      MeanRatio(len as real, avg, n, total);
    }
  }
}
