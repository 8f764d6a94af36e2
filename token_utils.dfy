/**
 * Text normalisation of the keyword index: `tokenize` (strip ASCII
 * punctuation, lowercase, split on single spaces), `stop` (drop stop words)
 * and `stem` (map a stemmer over the tokens), plus the `Movie` record of the
 * corpus.
 *
 * The stop-word list, which the source reads from a file on every call, and
 * the Porter stemmer, a foreign library, are parameters (`Normalizer`).
 */
module TokenUtils {

  /** One document of the corpus. */
  datatype Movie = Movie(id: int, title: string, description: string)

  /** The collaborators of normalisation: the stop-word list and the stemmer. */
  datatype Normalizer = Normalizer(stopWords: set<string>, stemmer: string -> string)

  /** The 32 characters of Python's `string.punctuation`. */
  const Punctuation: string := "!\"#$%&'()*+,-./:;<=>?@[\\]^_`{|}~"

  predicate IsPunctuation(c: char) {
    c in Punctuation
  }

  predicate IsUpper(c: char) {
    'A' <= c <= 'Z'
  }

  /** ASCII lowercasing of one character. */
  function LowerChar(c: char): (r: char)
    ensures !IsUpper(r)
    ensures IsUpper(c) ==> r == (c as int + 32) as char
    ensures !IsUpper(c) ==> r == c
  {
    if IsUpper(c) then (c as int + 32) as char else c
  }

  /** `s.translate(str.maketrans("", "", string.punctuation))` */
  function StripPunctuation(s: string): (r: string)
    ensures forall c :: c in r <==> c in s && !IsPunctuation(c)
    ensures multiset(r)[' '] == multiset(s)[' ']
    ensures |r| <= |s|
  {
    if s == [] then []
    else
      assert s == [s[0]] + s[1..];
      (if IsPunctuation(s[0]) then [] else [s[0]]) + StripPunctuation(s[1..])
  }

  /** `s.lower()`, restricted to ASCII letters. */
  function Lower(s: string): (r: string)
    ensures |r| == |s|
    ensures forall i :: 0 <= i < |s| ==> r[i] == LowerChar(s[i])
  {
    seq(|s|, i requires 0 <= i < |s| => LowerChar(s[i]))
  }

  /** `s.split(" ")`: every single space separates two parts, so adjacent,
      leading and trailing spaces give empty parts. */
  function Split(s: string): (parts: seq<string>)
    ensures |parts| >= 1
    decreases |s|
  {
    if s == [] then [""]
    else
      var rest := Split(s[1..]);
      if s[0] == ' ' then [""] + rest
      else [[s[0]] + rest[0]] + rest[1..]
  }

  /** One part more than there are spaces; no part holds a space or a
      character that is not in the text. */
  lemma {:induction false} SplitParts(s: string)
    ensures |Split(s)| == multiset(s)[' '] + 1
    ensures forall i :: 0 <= i < |Split(s)| ==> ' ' !in Split(s)[i]
    ensures forall i, c :: 0 <= i < |Split(s)| && c in Split(s)[i] ==> c in s
    decreases |s|
  {
    if s != [] {
      assert s == [s[0]] + s[1..];
      var rest := Split(s[1..]);
      SplitParts(s[1..]);
      if s[0] != ' ' {
        var parts := Split(s);
        assert parts == [[s[0]] + rest[0]] + rest[1..];
        forall i | 0 <= i < |parts| ensures ' ' !in parts[i] && forall c :: c in parts[i] ==> c in s {
          if i > 0 {
            assert parts[i] == rest[i];
          }
        }
      }
    }
  }

  /** `" ".join(parts)`, the inverse of `Split`. */
  function Join(parts: seq<string>): (s: string)
  {
    if parts == [] then ""
    else if |parts| == 1 then parts[0]
    else parts[0] + " " + Join(parts[1..])
  }

  /** `tokenize(query)`: strip punctuation, lowercase, split on " ". */
  function Tokenize(s: string): (tokens: seq<string>)
  {
    Split(Lower(StripPunctuation(s)))
  }

  /** `stop(query)`: the tokens that are not stop words, in order. */
  function Stop(q: seq<string>, stopWords: set<string>): (r: seq<string>)
    ensures |r| <= |q|
    ensures forall i :: 0 <= i < |r| ==> r[i] !in stopWords
  {
    if q == [] then []
    else
      (if q[0] in stopWords then [] else [q[0]]) + Stop(q[1..], stopWords)
  }

  /** `stem(query)`: the stemmer applied to every token. */
  function Stem(q: seq<string>, stemmer: string -> string): (r: seq<string>)
    ensures |r| == |q|
    ensures forall i :: 0 <= i < |q| ==> r[i] == stemmer(q[i])
  {
    if q == [] then [] else [stemmer(q[0])] + Stem(q[1..], stemmer)
  }

  /** `stem(stop(tokenize(text)))`, the pipeline every caller applies. */
  function Normalize(cfg: Normalizer, text: string): (tokens: seq<string>)
  {
    Stem(Stop(Tokenize(text), cfg.stopWords), cfg.stemmer)
  }

  /** `a` is `b` with some elements left out. */
  predicate IsSubsequence<T(==)>(a: seq<T>, b: seq<T>)
    decreases |b|
  {
    a == [] || (b != [] && ((a[0] == b[0] && IsSubsequence(a[1..], b[1..])) || IsSubsequence(a, b[1..])))
  }

  // ---------------------------------------------------------------------
  // Tokenize

  lemma AppendAssoc<T>(a: seq<T>, b: seq<T>, d: seq<T>)
    ensures (a + b) + d == a + (b + d)
  {
  }

  /** Prefixing a character to the first part prefixes it to the join. */
  lemma JoinGlue(c: char, parts: seq<string>)
    requires |parts| >= 1
    ensures Join([[c] + parts[0]] + parts[1..]) == [c] + Join(parts)
  {
    var glued := [[c] + parts[0]] + parts[1..];
    if |parts| > 1 {
      assert glued[0] == [c] + parts[0] && glued[1..] == parts[1..];
      var tail := " " + Join(parts[1..]);
      assert Join(glued) == glued[0] + " " + Join(glued[1..]);
      assert Join(parts) == parts[0] + " " + Join(parts[1..]);
      AppendAssoc([c], parts[0], tail);
      AppendAssoc(parts[0], " ", Join(parts[1..]));
      AppendAssoc([c] + parts[0], " ", Join(parts[1..]));
    }
  }

  lemma {:induction false} SplitJoin(s: string)
    ensures Join(Split(s)) == s
    decreases |s|
  {
    if s != [] {
      var rest := Split(s[1..]);
      SplitJoin(s[1..]);
      assert s == [s[0]] + s[1..];
      if s[0] == ' ' {
        assert Join(Split(s)) == s by {
          var parts := [""] + rest;
          assert Split(s) == parts && parts[1..] == rest;
        }
      } else {
        assert Join(Split(s)) == s by {
          assert Split(s) == [[s[0]] + rest[0]] + rest[1..];
          JoinGlue(s[0], rest);
        }
      }
    }
  }

  /** Splitting a word without spaces followed by more text glues the word
      onto the first part of the rest. */
  lemma {:induction false} SplitPrefix(w: string, rest: string)
    requires ' ' !in w
    ensures Split(w + rest) == [w + Split(rest)[0]] + Split(rest)[1..]
    decreases |w|
  {
    if w != [] {
      var s := w + rest;
      assert s[0] == w[0] && s[1..] == w[1..] + rest;
      SplitPrefix(w[1..], rest);
      assert [w[0]] + (w[1..] + Split(rest)[0]) == w + Split(rest)[0];
    } else {
      assert w + rest == rest;
      var parts := Split(rest);
      assert parts == [parts[0]] + parts[1..];
      assert w + parts[0] == parts[0];
    }
  }

  /** A leading space splits off an empty first part. */
  lemma SplitSpaced(tail: string)
    ensures Split(" " + tail) == [""] + Split(tail)
  {
    var spaced := " " + tail;
    assert spaced[0] == ' ' && spaced[1..] == tail;
  }

  lemma {:induction false} JoinSplit(parts: seq<string>)
    requires |parts| >= 1
    requires forall i :: 0 <= i < |parts| ==> ' ' !in parts[i]
    ensures Split(Join(parts)) == parts
    decreases |parts|
  {
    if |parts| == 1 {
      SplitPrefix(parts[0], "");
      assert parts[0] + "" == parts[0];
    } else {
      var tail := Join(parts[1..]);
      JoinSplit(parts[1..]);
      SplitSpaced(tail);
      SplitPrefix(parts[0], " " + tail);
      assert Join(parts) == parts[0] + (" " + tail);
      assert parts[0] + "" == parts[0];
      assert parts == [parts[0]] + parts[1..];
    }
  }

  lemma LetterNotPunctuation(c: char)
    requires 'a' <= c <= 'z'
    ensures !IsPunctuation(c)
  {
    assert forall i :: 0 <= i < |Punctuation| ==> Punctuation[i] < 'a' || 'z' < Punctuation[i];
  }

  /** Stripping keeps the characters that are not punctuation, in order. */
  lemma {:induction false} StripSubsequence(s: string)
    ensures IsSubsequence(StripPunctuation(s), s)
    decreases |s|
  {
    if s != [] {
      StripSubsequence(s[1..]);
      var r := StripPunctuation(s);
      if !IsPunctuation(s[0]) {
        assert r == [s[0]] + StripPunctuation(s[1..]);
        assert r[1..] == StripPunctuation(s[1..]);
      } else {
        assert r == StripPunctuation(s[1..]);
      }
    }
  }

  /** Stripping drops every punctuation character and keeps every other
      character as often as it occurs. */
  lemma {:induction false} StripCounts(s: string)
    ensures forall c :: multiset(StripPunctuation(s))[c] == if IsPunctuation(c) then 0 else multiset(s)[c]
    decreases |s|
  {
    if s != [] {
      StripCounts(s[1..]);
      assert s == [s[0]] + s[1..];
      assert StripPunctuation(s) == (if IsPunctuation(s[0]) then [] else [s[0]]) + StripPunctuation(s[1..]);
    }
  }

  /** Lowercasing text without punctuation leaves neither punctuation nor
      upper-case letters. */
  lemma LowerClean(s: string)
    requires forall c :: c in s ==> !IsPunctuation(c)
    ensures forall c :: c in Lower(s) ==> !IsPunctuation(c) && !IsUpper(c)
  {
    forall c | c in Lower(s) ensures !IsPunctuation(c) && !IsUpper(c) {
      var k :| 0 <= k < |s| && Lower(s)[k] == c;
      assert s[k] in s;
      if IsUpper(s[k]) {
        LetterNotPunctuation(c);
      }
    }
  }

  /** Every token is free of punctuation, spaces and upper-case letters. */
  lemma TokenizeClean(s: string)
    ensures forall i, c :: 0 <= i < |Tokenize(s)| && c in Tokenize(s)[i] ==>
      !IsPunctuation(c) && c != ' ' && !IsUpper(c)
  {
    LowerClean(StripPunctuation(s));
    SplitParts(Lower(StripPunctuation(s)));
  }

  /** Joining the tokens with single spaces gives back the stripped,
      lowercased text. */
  lemma TokenizeJoin(s: string)
    ensures Join(Tokenize(s)) == Lower(StripPunctuation(s))
  {
    SplitJoin(Lower(StripPunctuation(s)));
  }

  /** Lowercasing turns no character into a space and no space into
      anything else. */
  lemma LowerCharSpace(c: char)
    ensures LowerChar(c) == ' ' <==> c == ' '
  {
  }

  /** Two sequences of one length that hold `x` and `y` at the same
      positions hold them equally often. */
  lemma {:induction false} SameCount<T, U>(a: seq<T>, b: seq<U>, x: T, y: U)
    requires |a| == |b|
    requires forall i :: 0 <= i < |a| ==> (a[i] == x <==> b[i] == y)
    ensures multiset(a)[x] == multiset(b)[y]
    decreases |a|
  {
    if a != [] {
      SameCount(a[1..], b[1..], x, y);
      assert a == [a[0]] + a[1..];
      assert b == [b[0]] + b[1..];
    }
  }

  /** Lowercasing keeps the number of spaces. */
  lemma LowerSpaces(s: string)
    ensures multiset(Lower(s))[' '] == multiset(s)[' ']
  {
    forall i | 0 <= i < |s| ensures s[i] == ' ' <==> Lower(s)[i] == ' ' {
      LowerCharSpace(s[i]);
    }
    SameCount(s, Lower(s), ' ', ' ');
  }

  /** There is one token more than there are spaces in the text, so the
      token list is never empty. */
  lemma TokenizeLength(s: string)
    ensures |Tokenize(s)| == multiset(s)[' '] + 1
  {
    LowerSpaces(StripPunctuation(s));
    SplitParts(Lower(StripPunctuation(s)));
  }

  predicate EndsWithSpace(s: string) {
    s != [] && s[|s| - 1] == ' '
  }

  predicate HasAdjacentSpaces(s: string) {
    exists i :: 0 <= i < |s| - 1 && s[i] == ' ' && s[i + 1] == ' '
  }

  /** Two adjacent spaces are either at the front or further on. */
  lemma AdjacentSpacesShift(t: string)
    requires t != []
    ensures HasAdjacentSpaces(t) <==>
      (|t| >= 2 && t[0] == ' ' && t[1] == ' ') || HasAdjacentSpaces(t[1..])
  {
    var u := t[1..];
    if HasAdjacentSpaces(t) {
      var i :| 0 <= i < |t| - 1 && t[i] == ' ' && t[i + 1] == ' ';
      if i >= 1 { assert u[i - 1] == ' ' && u[i] == ' '; }
    }
    if HasAdjacentSpaces(u) {
      var i :| 0 <= i < |u| - 1 && u[i] == ' ' && u[i + 1] == ' ';
      assert t[i + 1] == ' ' && t[i + 2] == ' ';
    }
  }

  /** A part after the first is empty exactly when a space is followed by
      another space or ends the text. */
  lemma {:induction false} SplitTailEmpty(t: string)
    ensures "" in Split(t)[1..] <==> EndsWithSpace(t) || HasAdjacentSpaces(t)
    decreases |t|
  {
    if t != [] {
      var u := t[1..];
      var rest := Split(u);
      SplitTailEmpty(u);
      AdjacentSpacesShift(t);
      assert u != [] ==> u[|u| - 1] == t[|t| - 1];
      if t[0] == ' ' {
        assert Split(t)[1..] == rest;
        assert rest == [rest[0]] + rest[1..];
        assert rest[0] == "" <==> u == [] || u[0] == ' ';
      } else {
        assert Split(t)[1..] == rest[1..];
      }
    }
  }

  /** `Split` yields an empty part exactly when the text is empty, starts or
      ends with a space, or holds two adjacent spaces. */
  lemma SplitEmptyPart(s: string)
    ensures "" in Split(s) <==>
      s == [] || s[0] == ' ' || EndsWithSpace(s) || HasAdjacentSpaces(s)
  {
    var parts := Split(s);
    SplitTailEmpty(s);
    assert parts == [parts[0]] + parts[1..];
    if s != [] && s[0] != ' ' {
      assert parts[0] == [s[0]] + Split(s[1..])[0];
    }
  }

  /** Leading, trailing and doubled spaces give empty tokens. */
  lemma TokenizeEmptyToken(s: string)
    ensures var text := Lower(StripPunctuation(s));
      "" in Tokenize(s) <==>
        text == [] || text[0] == ' ' || EndsWithSpace(text) || HasAdjacentSpaces(text)
  {
    SplitEmptyPart(Lower(StripPunctuation(s)));
  }

  // ---------------------------------------------------------------------
  // Stop

  lemma {:induction false} StopSubsequence(q: seq<string>, stopWords: set<string>)
    ensures IsSubsequence(Stop(q, stopWords), q)
    decreases |q|
  {
    if q != [] {
      StopSubsequence(q[1..], stopWords);
      var r := Stop(q, stopWords);
      if q[0] !in stopWords {
        assert r == [q[0]] + Stop(q[1..], stopWords);
        assert r[1..] == Stop(q[1..], stopWords);
      } else {
        assert r == Stop(q[1..], stopWords);
      }
    }
  }

  /** Each stop word is dropped and every other token kept as often as it
      occurs. */
  lemma {:induction false} StopCounts(q: seq<string>, stopWords: set<string>)
    ensures forall t :: multiset(Stop(q, stopWords))[t] == if t in stopWords then 0 else multiset(q)[t]
    decreases |q|
  {
    if q != [] {
      StopCounts(q[1..], stopWords);
      assert q == [q[0]] + q[1..];
      assert Stop(q, stopWords) == (if q[0] in stopWords then [] else [q[0]]) + Stop(q[1..], stopWords);
    }
  }

  lemma {:induction false} StopIdempotent(q: seq<string>, stopWords: set<string>)
    ensures Stop(Stop(q, stopWords), stopWords) == Stop(q, stopWords)
    decreases |q|
  {
    if q != [] {
      StopIdempotent(q[1..], stopWords);
      var r := Stop(q, stopWords);
      if q[0] !in stopWords {
        assert r == [q[0]] + Stop(q[1..], stopWords);
        assert r[1..] == Stop(q[1..], stopWords);
        assert Stop(r, stopWords) == [q[0]] + Stop(r[1..], stopWords);
      } else {
        assert r == Stop(q[1..], stopWords);
      }
    }
  }

  lemma {:induction false} SubsequenceMultiset<T>(a: seq<T>, b: seq<T>)
    requires IsSubsequence(a, b)
    ensures multiset(a) <= multiset(b)
    decreases |b|
  {
    if a != [] {
      assert b == [b[0]] + b[1..];
      if a[0] == b[0] && IsSubsequence(a[1..], b[1..]) {
        SubsequenceMultiset(a[1..], b[1..]);
        assert a == [a[0]] + a[1..];
      } else {
        SubsequenceMultiset(a, b[1..]);
      }
    }
  }

  /** `Stop(q)` is the only subsequence of `q` that holds no stop word and
      keeps every other token as often as `q` does. */
  lemma {:induction false} StopIsTheFilter(q: seq<string>, stopWords: set<string>, r: seq<string>)
    requires IsSubsequence(r, q)
    requires forall i :: 0 <= i < |r| ==> r[i] !in stopWords
    requires forall t :: t !in stopWords ==> multiset(r)[t] == multiset(q)[t]
    ensures r == Stop(q, stopWords)
    decreases |q|
  {
    if q == [] {
      assert r == [];
    } else {
      assert q == [q[0]] + q[1..];
      if q[0] in stopWords {
        if r != [] {
          assert r[0] != q[0];
          assert IsSubsequence(r, q[1..]);
        }
        StopIsTheFilter(q[1..], stopWords, r);
      } else {
        assert multiset(r)[q[0]] == multiset(q)[q[0]] > 0;
        assert r != [];
        if r[0] == q[0] && IsSubsequence(r[1..], q[1..]) {
          assert r == [r[0]] + r[1..];
          StopIsTheFilter(q[1..], stopWords, r[1..]);
        } else {
          assert IsSubsequence(r, q[1..]);
          SubsequenceMultiset(r, q[1..]);
          assert false;
        }
      }
    }
  }

  // ---------------------------------------------------------------------
  // Stem

  lemma {:induction false} StemAppend(a: seq<string>, b: seq<string>, stemmer: string -> string)
    ensures Stem(a + b, stemmer) == Stem(a, stemmer) + Stem(b, stemmer)
  {
    var l := Stem(a + b, stemmer);
    var r := Stem(a, stemmer) + Stem(b, stemmer);
    assert |l| == |r|;
    forall i | 0 <= i < |l| ensures l[i] == r[i] {
      if i < |a| { assert (a + b)[i] == a[i]; } else { assert (a + b)[i] == b[i - |a|]; }
    }
  }

  /** A normalised text has at most one token more than it has spaces. */
  lemma NormalizeLength(cfg: Normalizer, text: string)
    ensures |Normalize(cfg, text)| <= multiset(text)[' '] + 1
  {
    TokenizeLength(text);
  }
}
