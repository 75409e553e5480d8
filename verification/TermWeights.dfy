/** What a weight of the matrix is: the formula of `internal/cluster/tfidf.go` over the tokens
  themselves, and what its comments say of common terms. */
module TermWeights {
  import opened Roots
  import opened Vectors
  import opened Tfidf

  /** Where the term stands in the document. */
  ghost function Occurrences(doc: seq<string>, term: string): set<nat> {
    set k: nat | k < |doc| && doc[k] == term
  }

  /** The documents that have the term. */
  ghost function DocumentsWith(docs: seq<seq<string>>, term: string): set<nat> {
    set i: nat | i < |docs| && Occurrences(docs[i], term) != {}
  }

  lemma {:induction false} CountIsOccurrences(doc: seq<string>, term: string)
    ensures Count(doc, term) == |Occurrences(doc, term)|
  {
    if |doc| > 0 {
      var last := |doc| - 1;
      CountIsOccurrences(doc[..last], term);
      var before := Occurrences(doc[..last], term);
      assert last !in before;
      assert Occurrences(doc, term) == if doc[last] == term then before + {last} else before;
    } else {
      assert Occurrences(doc, term) == {};
    }
  }

  lemma OccursIn(doc: seq<string>, term: string)
    ensures Occurrences(doc, term) != {} <==> term in doc
  {
    if term in doc {
      var k :| 0 <= k < |doc| && doc[k] == term;
      assert k in Occurrences(doc, term);
    }
  }

  lemma OneMoreDocument(docs: seq<seq<string>>, rest: seq<seq<string>>, last: nat, term: string)
    requires |docs| == last + 1 && rest == docs[..last]
    ensures DocumentsWith(docs, term) == DocumentsWith(rest, term) + (if term in docs[last] then {last} else {})
    ensures last !in DocumentsWith(rest, term)
  {
    OccursIn(docs[last], term);
    forall i: nat ensures i in DocumentsWith(docs, term) <==> i in DocumentsWith(rest, term) || (i == last && term in docs[last]) {
      if i < last {
        assert rest[i] == docs[i];
      }
    }
  }

  lemma {:induction false} FrequencyIsDocuments(docs: seq<seq<string>>, term: string)
    ensures DocumentFrequency(docs, term) == |DocumentsWith(docs, term)| <= |docs|
  {
    if |docs| > 0 {
      var last := |docs| - 1;
      FrequencyIsDocuments(docs[..last], term);
      OneMoreDocument(docs, docs[..last], last, term);
    } else {
      assert DocumentsWith(docs, term) == {};
    }
  }

  ghost predicate IsLog(log: real -> real) {
    log(1.0) == 0.0 && forall x, y :: 0.0 < x < y ==> log(x) < log(y)
  }

  lemma RatioAgainstOne(n: nat, m: nat)
    requires m > 0
    ensures n as real / m as real == 1.0 <==> n == m
    ensures n as real / m as real < 1.0 <==> n < m
    ensures n > 0 ==> n as real / m as real > 0.0
  {
    var q := n as real / m as real;
    assert q * m as real == n as real;
    SignOfProduct(q - 1.0, m as real);
    assert (q - 1.0) * m as real == n as real - m as real;
    SignOfProduct(q, m as real);
  }

  /** A term that every document but one has weighs nothing, one that all have weighs less, and
      any rarer one weighs more. */
  lemma CommonTermsWeighNothing(docs: seq<seq<string>>, term: string, log: real -> real)
    requires IsLog(log) && |docs| > 0
    ensures |DocumentsWith(docs, term)| == |docs| - 1 ==> Idf(docs, term, log) == 0.0
    ensures |DocumentsWith(docs, term)| == |docs| ==> Idf(docs, term, log) < 0.0
    ensures |DocumentsWith(docs, term)| < |docs| - 1 ==> Idf(docs, term, log) > 0.0
  {
    FrequencyIsDocuments(docs, term);
    var df := DocumentFrequency(docs, term);
    RatioAgainstOne(|docs|, 1 + df);
  }

  /** The number of occurrences in `doc` times log(N / (1 + df)). */
  ghost function WeightOf(docs: seq<seq<string>>, doc: seq<string>, term: string, log: real -> real): real {
    |Occurrences(doc, term)| as real * log(|docs| as real / (1 + |DocumentsWith(docs, term)|) as real)
  }

  lemma WeightsAre(docs: seq<seq<string>>, doc: seq<string>, terms: seq<string>, log: real -> real, w: seq<real>)
    requires w == Weights(docs, doc, terms, log)
    ensures forall c :: 0 <= c < |terms| ==> w[c] == WeightOf(docs, doc, terms[c], log)
  {
    forall c | 0 <= c < |terms| ensures w[c] == WeightOf(docs, doc, terms[c], log) {
      WeightIs(docs, doc, terms[c], log);
    }
  }

  lemma WeightIs(docs: seq<seq<string>>, doc: seq<string>, term: string, log: real -> real)
    ensures Count(doc, term) as real * Idf(docs, term, log) == WeightOf(docs, doc, term, log)
  {
    CountIsOccurrences(doc, term);
    FrequencyIsDocuments(docs, term);
  }

  lemma DirectionTimesLength(w: seq<real>, sqrt: real -> real) returns (length: real)
    requires IsSqrt(sqrt) && (SquaredLength(w) != 0.0 ==> sqrt(SquaredLength(w)) != 0.0)
    ensures length > 0.0 && forall c :: 0 <= c < |w| ==> Direction(w, sqrt)[c] * length == w[c]
  {
    SquaredLengthNonNegative(w, |w|);
    if SquaredLength(w) == 0.0 {
      length := 1.0;
    } else {
      length := sqrt(SquaredLength(w));
      RootOfPositive(sqrt, SquaredLength(w));
      forall c | 0 <= c < |w| ensures Direction(w, sqrt)[c] * length == w[c] {
        assert Direction(w, sqrt)[c] == w[c] / length;
      }
    }
  }

  /** The entry of a term in a document's row is, up to the row's length, the number of its
      occurrences times log(N / (1 + df)). */
  lemma EntryMeans(m: Matrix, docs: seq<seq<string>>, log: real -> real, sqrt: real -> real, i: nat) returns (length: real)
    requires IsSqrt(sqrt) && IsTfidf(m, docs, log, sqrt) && i < |docs|
    ensures length > 0.0 && |m.rows[i]| == |m.terms|
    ensures forall c :: 0 <= c < |m.terms| ==> m.rows[i][c] * length == WeightOf(docs, docs[i], m.terms[c], log)
  {
    var w := RowIsDirection(m, docs, log, sqrt, i);
    length := DirectionTimesLength(w, sqrt);
    WeightsAre(docs, docs[i], m.terms, log, w);
  }

  lemma RowIsDirection(m: Matrix, docs: seq<seq<string>>, log: real -> real, sqrt: real -> real, i: nat) returns (w: seq<real>)
    requires IsSqrt(sqrt) && IsTfidf(m, docs, log, sqrt) && i < |docs|
    ensures w == Weights(docs, docs[i], m.terms, log) && |w| == |m.terms|
    ensures SquaredLength(w) != 0.0 ==> sqrt(SquaredLength(w)) != 0.0
    ensures m.rows[i] == Direction(w, sqrt)
  {
    w := Weights(docs, docs[i], m.terms, log);
    DirectionDefined(w, sqrt);
  }

  /** The columns are the terms that occur in some document, each once and ascending. */
  lemma ColumnsAreTerms(m: Matrix, docs: seq<seq<string>>, log: real -> real, sqrt: real -> real, term: string)
    requires IsSqrt(sqrt) && IsTfidf(m, docs, log, sqrt)
    ensures term in m.terms <==> |DocumentsWith(docs, term)| > 0
  {
    if i :| 0 <= i < |docs| && term in docs[i] {
      OccursIn(docs[i], term);
      assert i in DocumentsWith(docs, term);
    }
    if |DocumentsWith(docs, term)| > 0 {
      var i :| i in DocumentsWith(docs, term);
      OccursIn(docs[i], term);
      assert InCorpus(docs, term);
    }
  }
}
