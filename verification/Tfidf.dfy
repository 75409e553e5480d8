/** TF-IDF rows over tokenised documents: `internal/cluster/tfidf.go`.

  `log` and `sqrt` stand for `math.Log` and `math.Sqrt` over the reals. Nothing is
  known of `log`; of `sqrt` only that it is a non-negative root. */
module Tfidf {
  import opened Roots
  import opened Vectors
  import opened Ordering

  datatype Matrix = Matrix(rows: seq<seq<real>>, terms: seq<string>)

  // ---------------------------------------------------------------- what the matrix should be

  function Count(tokens: seq<string>, term: string): nat {
    if |tokens| == 0 then 0
    else Count(tokens[..|tokens| - 1], term) + (if tokens[|tokens| - 1] == term then 1 else 0)
  }

  function DocumentFrequency(docs: seq<seq<string>>, term: string): nat {
    if |docs| == 0 then 0
    else DocumentFrequency(docs[..|docs| - 1], term) + (if term in docs[|docs| - 1] then 1 else 0)
  }

  ghost predicate InCorpus(docs: seq<seq<string>>, term: string) {
    exists i :: 0 <= i < |docs| && term in docs[i]
  }

  /** The columns: every term of the corpus once, in string order. */
  ghost predicate IsVocabulary(terms: seq<string>, docs: seq<seq<string>>) {
    && Sorted(StringLess, terms) && Distinct(terms)
    && (forall t :: t in terms <==> InCorpus(docs, t))
  }

  function Idf(docs: seq<seq<string>>, term: string, log: real -> real): real {
    log(|docs| as real / (1 + DocumentFrequency(docs, term)) as real)
  }

  /** The weights of one document over the full width of the vocabulary. */
  function Weights(docs: seq<seq<string>>, doc: seq<string>, terms: seq<string>, log: real -> real): (w: seq<real>)
    ensures |w| == |terms|
  {
    seq(|terms|, c requires 0 <= c < |terms| => Count(doc, terms[c]) as real * Idf(docs, terms[c], log))
  }

  /** One weight per column applied to one document's counts. */
  function Weighted(counts: seq<real>, idf: seq<real>): (w: seq<real>)
    requires |counts| == |idf|
    ensures |w| == |counts|
  {
    seq(|counts|, c requires 0 <= c < |counts| => counts[c] * idf[c])
  }

  function SquaredLength(v: seq<real>): real { Dot(v, v) }

  function DividedBy(v: seq<real>, length: real): (w: seq<real>)
    requires length != 0.0
    ensures |w| == |v|
  {
    seq(|v|, c requires 0 <= c < |v| => v[c] / length)
  }

  /** The direction of `v`: the zero vector has none and stays. */
  function Direction(v: seq<real>, sqrt: real -> real): (w: seq<real>)
    requires SquaredLength(v) != 0.0 ==> sqrt(SquaredLength(v)) != 0.0
    ensures |w| == |v|
  {
    if SquaredLength(v) == 0.0 then v else DividedBy(v, sqrt(SquaredLength(v)))
  }

  /** The matrix the package documents: sorted vocabulary, one normalised row per document
      in input order. */
  ghost predicate IsTfidf(m: Matrix, docs: seq<seq<string>>, log: real -> real, sqrt: real -> real)
    requires IsSqrt(sqrt)
  {
    && IsVocabulary(m.terms, docs)
    && |m.rows| == |docs|
    && forall i :: 0 <= i < |docs| ==> m.rows[i] == UnitRow(docs, docs[i], m.terms, log, sqrt)
  }

  function UnitRow(docs: seq<seq<string>>, doc: seq<string>, terms: seq<string>, log: real -> real, sqrt: real -> real): (w: seq<real>)
    requires IsSqrt(sqrt)
    ensures |w| == |terms|
  {
    DirectionDefined(Weights(docs, doc, terms, log), sqrt);
    Direction(Weights(docs, doc, terms, log), sqrt)
  }

  /** Rows of one matrix have one width, and each is zero or of unit length. It is zero
      exactly when every term of its document has weight zero. */
  lemma RowsAreNormalised(m: Matrix, docs: seq<seq<string>>, log: real -> real, sqrt: real -> real)
    requires IsSqrt(sqrt) && IsTfidf(m, docs, log, sqrt)
    ensures Rectangular(m.rows)
    ensures forall i :: 0 <= i < |docs| ==> Normalised(m.rows[i])
    ensures forall i :: 0 <= i < |docs| ==>
      (ZeroVector(m.rows[i]) <==> forall t :: t in docs[i] ==> Idf(docs, t, log) == 0.0)
  {
    forall i | 0 <= i < |docs|
      ensures Normalised(m.rows[i])
      ensures ZeroVector(m.rows[i]) <==> forall t :: t in docs[i] ==> Idf(docs, t, log) == 0.0
    {
      var w := Weights(docs, docs[i], m.terms, log);
      DirectionIsNormalised(w, sqrt);
      ZeroWeights(docs, i, m.terms, log);
    }
  }

  /** An entry is the column's weight, which all rows share, scaled by what is not negative. */
  lemma RowEntry(docs: seq<seq<string>>, doc: seq<string>, terms: seq<string>, log: real -> real, sqrt: real -> real, c: nat)
    returns (scale: real)
    requires IsSqrt(sqrt) && c < |terms|
    ensures scale >= 0.0 && UnitRow(docs, doc, terms, log, sqrt)[c] == scale * Idf(docs, terms[c], log)
  {
    var w, n, idf := Weights(docs, doc, terms, log), Count(doc, terms[c]) as real, Idf(docs, terms[c], log);
    if SquaredLength(w) == 0.0 {
      scale := n;
    } else {
      SquaredLengthNonNegative(w, |w|);
      RootOfPositive(sqrt, SquaredLength(w));
      scale := n / sqrt(SquaredLength(w));
      ScaledQuotient(n, idf, sqrt(SquaredLength(w)));
    }
  }

  lemma ScaledQuotient(n: real, x: real, length: real)
    requires n >= 0.0 && length > 0.0
    ensures n / length >= 0.0 && n * x / length == n / length * x
  {
    assert n / length * length == n;
    SignOfProduct(n / length, length);
    assert n / length * x * length == n * x;
  }

  lemma SameSigns(x: real, k: real, l: real)
    requires k >= 0.0 && l >= 0.0
    ensures (k * x) * (l * x) >= 0.0
  {
    assert (k * x) * (l * x) == (k * l) * (x * x);
    assert x * x >= 0.0 && k * l >= 0.0;
  }

  /** No two rows of one matrix point away from each other, since a column has one weight for
      all of them and counts are not negative. */
  lemma RowsPointTogether(m: Matrix, docs: seq<seq<string>>, log: real -> real, sqrt: real -> real, i: nat, j: nat)
    requires IsSqrt(sqrt) && IsTfidf(m, docs, log, sqrt) && i < |m.rows| && j < |m.rows|
    ensures |m.rows[i]| == |m.rows[j]| && Dot(m.rows[i], m.rows[j]) >= 0.0
  {
    var a, b := UnitRow(docs, docs[i], m.terms, log, sqrt), UnitRow(docs, docs[j], m.terms, log, sqrt);
    forall c | 0 <= c < |m.terms| ensures a[c] * b[c] >= 0.0 {
      EntriesAgree(docs, docs[i], docs[j], m.terms, log, sqrt, c);
    }
    DotOfSameSigns(a, b, |m.terms|);
  }

  lemma EntriesAgree(docs: seq<seq<string>>, d: seq<string>, e: seq<string>, terms: seq<string>, log: real -> real, sqrt: real -> real, c: nat)
    requires IsSqrt(sqrt) && c < |terms|
    ensures UnitRow(docs, d, terms, log, sqrt)[c] * UnitRow(docs, e, terms, log, sqrt)[c] >= 0.0
  {
    var k := RowEntry(docs, d, terms, log, sqrt, c);
    var l := RowEntry(docs, e, terms, log, sqrt, c);
    SameSigns(Idf(docs, terms[c], log), k, l);
  }

  lemma ZeroWeights(docs: seq<seq<string>>, i: nat, terms: seq<string>, log: real -> real)
    requires i < |docs| && IsVocabulary(terms, docs)
    ensures ZeroVector(Weights(docs, docs[i], terms, log)) <==>
            forall t :: t in docs[i] ==> Idf(docs, t, log) == 0.0
  {
    var w := Weights(docs, docs[i], terms, log);
    if ZeroVector(w) {
      forall t | t in docs[i] ensures Idf(docs, t, log) == 0.0 {
        assert InCorpus(docs, t);
        var c :| 0 <= c < |terms| && terms[c] == t;
        CountPositive(docs[i], t);
        ZeroProduct(Count(docs[i], t) as real, Idf(docs, t, log));
        assert w[c] == 0.0;
      }
    }
    if forall t :: t in docs[i] ==> Idf(docs, t, log) == 0.0 {
      forall c | 0 <= c < |terms| ensures w[c] == 0.0 {
        CountPositive(docs[i], terms[c]);
      }
    }
  }

  lemma {:induction false} CountPositive(tokens: seq<string>, term: string)
    ensures Count(tokens, term) > 0 <==> term in tokens
  {
    if |tokens| > 0 {
      CountPositive(tokens[..|tokens| - 1], term);
      assert tokens == tokens[..|tokens| - 1] + [tokens[|tokens| - 1]];
    }
  }

  /** Reproducible: map iteration order leaves no trace in the matrix. */
  lemma MatrixIsDetermined(m1: Matrix, m2: Matrix, docs: seq<seq<string>>, log: real -> real, sqrt: real -> real)
    requires IsSqrt(sqrt) && IsTfidf(m1, docs, log, sqrt) && IsTfidf(m2, docs, log, sqrt)
    ensures m1 == m2
  {
    DistinctElements(m1.terms, m2.terms);
    StringOrder();
    SortedUnique(StringLess, m1.terms, m2.terms);
  }

  // ---------------------------------------------------------------- lengths

  lemma {:induction false} SquaredLengthNonNegative(v: seq<real>, n: nat)
    requires n <= |v|
    ensures DotTo(v, v, n) >= 0.0
    ensures DotTo(v, v, n) == 0.0 ==> forall c :: 0 <= c < n ==> v[c] == 0.0
  {
    if n > 0 {
      SquaredLengthNonNegative(v, n - 1);
      SquarePositive(v[n - 1]);
    }
  }

  lemma SquarePositive(x: real)
    ensures x * x >= 0.0
    ensures x * x == 0.0 ==> x == 0.0
  {
    if x != 0.0 {
      assert (x * x) / x == x;
    }
  }

  lemma {:induction false} DotOfDivided(v: seq<real>, length: real, n: nat)
    requires n <= |v| && length != 0.0
    ensures DotTo(DividedBy(v, length), DividedBy(v, length), n) * (length * length) == DotTo(v, v, n)
  {
    if n > 0 {
      DotOfDivided(v, length, n - 1);
      var w := DividedBy(v, length);
      SquareOfProduct(w[n - 1], length, v[n - 1]);
      Distribute(DotTo(w, w, n - 1), w[n - 1] * w[n - 1], length * length);
    }
  }

  lemma SquareOfProduct(q: real, length: real, x: real)
    requires q * length == x
    ensures (q * q) * (length * length) == x * x
  {
  }

  lemma Distribute(x: real, y: real, d: real)
    ensures (x + y) * d == x * d + y * d
  {
  }

  lemma CancelSquare(x: real, square: real, s: real)
    requires x * square == s && square == s && s != 0.0
    ensures x == 1.0
  {
    assert (x * square) / square == x;
    assert s / square == 1.0;
  }

  lemma DirectionDefined(v: seq<real>, sqrt: real -> real)
    requires IsSqrt(sqrt)
    ensures SquaredLength(v) != 0.0 ==> sqrt(SquaredLength(v)) > 0.0
  {
    SquaredLengthNonNegative(v, |v|);
    if SquaredLength(v) > 0.0 {
      RootOfPositive(sqrt, SquaredLength(v));
    }
  }

  /** A normalised row is all zero or of unit length, never anything between. */
  lemma DirectionIsNormalised(v: seq<real>, sqrt: real -> real)
    requires IsSqrt(sqrt)
    ensures SquaredLength(v) != 0.0 ==> sqrt(SquaredLength(v)) != 0.0
    ensures Normalised(Direction(v, sqrt))
    ensures ZeroVector(Direction(v, sqrt)) <==> ZeroVector(v)
  {
    DirectionDefined(v, sqrt);
    SquaredLengthNonNegative(v, |v|);
    if SquaredLength(v) != 0.0 {
      var length := sqrt(SquaredLength(v));
      DotOfDivided(v, length, |v|);
      assert length * length == SquaredLength(v);
      CancelSquare(SquaredLength(DividedBy(v, length)), length * length, SquaredLength(v));
      if ZeroVector(v) {
        DotSkipsZeros(v, v, 0, |v|);
      }
      if ZeroVector(DividedBy(v, length)) {
        DotSkipsZeros(DividedBy(v, length), DividedBy(v, length), 0, |v|);
      }
    }
  }

  // ---------------------------------------------------------------- sums over the present columns

  ghost predicate Columns(present: seq<int>, width: nat) {
    Distinct(present) && forall k :: 0 <= k < |present| ==> 0 <= present[k] < width
  }

  /** The squared length summed over `present` only, in that order. */
  function SquaresAt(v: seq<real>, present: seq<int>): real
    requires forall k :: 0 <= k < |present| ==> 0 <= present[k] < |v|
  {
    if |present| == 0 then 0.0
    else SquaresAt(v, present[..|present| - 1]) + v[present[|present| - 1]] * v[present[|present| - 1]]
  }

  lemma {:induction false} SquaresElsewhere(v: seq<real>, w: seq<real>, present: seq<int>)
    requires |v| == |w| && forall k :: 0 <= k < |present| ==> 0 <= present[k] < |v|
    requires forall k :: 0 <= k < |present| ==> v[present[k]] == w[present[k]]
    ensures SquaresAt(v, present) == SquaresAt(w, present)
  {
    if |present| > 0 {
      SquaresElsewhere(v, w, present[..|present| - 1]);
    }
  }

  lemma {:induction false} LengthWithout(v: seq<real>, c: nat, n: nat)
    requires c < |v| && n <= |v|
    ensures DotTo(v, v, n) == DotTo(v[c := 0.0], v[c := 0.0], n) + (if c < n then v[c] * v[c] else 0.0)
  {
    if n > 0 {
      LengthWithout(v, c, n - 1);
    }
  }

  /** Skipping the columns that are zero does not change the length, whatever the order in
      which the others are visited. */
  lemma {:induction false} PresentColumnsSuffice(v: seq<real>, present: seq<int>)
    requires Columns(present, |v|)
    requires forall c :: 0 <= c < |v| && v[c] != 0.0 ==> c in present
    ensures SquaresAt(v, present) == SquaredLength(v)
    decreases |present|
  {
    if |present| == 0 {
      DotSkipsZeros(v, v, 0, |v|);
    } else {
      var rest, c := present[..|present| - 1], present[|present| - 1];
      var w := v[c := 0.0];
      forall d | 0 <= d < |w| && w[d] != 0.0 ensures d in rest {
        assert d in present;
      }
      PresentColumnsSuffice(w, rest);
      SquaresElsewhere(v, w, rest);
      LengthWithout(v, c, |v|);
    }
  }

  // ---------------------------------------------------------------- the code

  /** Applies the weights at `present` and scales the row to unit length in place. */
  method NormaliseAt(row: array<real>, present: seq<int>, idf: seq<real>, sqrt: real -> real)
    requires IsSqrt(sqrt) && |idf| == row.Length && Columns(present, row.Length)
    requires forall c :: 0 <= c < row.Length && row[c] != 0.0 ==> c in present
    modifies row
    ensures var weighted := Weighted(old(row[..]), idf);
      && (SquaredLength(weighted) != 0.0 ==> sqrt(SquaredLength(weighted)) != 0.0)
      && row[..] == Direction(weighted, sqrt)
  {
    ghost var weighted := Weighted(row[..], idf);
    var sumOfSquares := WeightAt(row, present, idf);
    PresentColumnsSuffice(weighted, present);
    DirectionDefined(weighted, sqrt);
    if sumOfSquares == 0.0 {
      return;
    }
    DivideAt(row, present, sqrt(sumOfSquares));
  }

  method WeightAt(row: array<real>, present: seq<int>, idf: seq<real>) returns (sumOfSquares: real)
    requires |idf| == row.Length && Columns(present, row.Length)
    requires forall c :: 0 <= c < row.Length && row[c] != 0.0 ==> c in present
    modifies row
    ensures row[..] == Weighted(old(row[..]), idf)
    ensures sumOfSquares == SquaresAt(row[..], present)
    ensures forall c :: 0 <= c < row.Length && row[c] != 0.0 ==> c in present
  {
    ghost var counts := row[..];
    ghost var weighted := Weighted(counts, idf);
    sumOfSquares := 0.0;
    for k := 0 to |present|
      invariant forall l :: 0 <= l < k ==> row[present[l]] == weighted[present[l]]
      invariant forall l :: k <= l < |present| ==> row[present[l]] == counts[present[l]]
      invariant forall c :: 0 <= c < row.Length && c !in present ==> row[c] == 0.0 == counts[c]
      invariant sumOfSquares == SquaresAt(weighted, present[..k])
    {
      var column := present[k];
      row[column] := row[column] * idf[column];
      sumOfSquares := sumOfSquares + row[column] * row[column];
      assert present[..k + 1][..k] == present[..k];
    }
    assert present[..|present|] == present;
    assert row[..] == weighted;
  }

  method DivideAt(row: array<real>, present: seq<int>, length: real)
    requires Columns(present, row.Length) && length != 0.0
    requires forall c :: 0 <= c < row.Length && row[c] != 0.0 ==> c in present
    modifies row
    ensures row[..] == DividedBy(old(row[..]), length)
  {
    ghost var before := row[..];
    for k := 0 to |present|
      invariant forall l :: 0 <= l < k ==> row[present[l]] == before[present[l]] / length
      invariant forall l :: k <= l < |present| ==> row[present[l]] == before[present[l]]
      invariant forall c :: 0 <= c < row.Length && c !in present ==> row[c] == 0.0 == before[c]
    {
      row[present[k]] := row[present[k]] / length;
    }
    assert row[..] == DividedBy(before, length);
  }

  lemma {:induction false} AbsentFrequency(docs: seq<seq<string>>, term: string)
    requires !InCorpus(docs, term)
    ensures DocumentFrequency(docs, term) == 0
  {
    if |docs| > 0 {
      assert docs[..|docs| - 1 + 1] == docs;
      CorpusGrows(docs, |docs| - 1, term);
      AbsentFrequency(docs[..|docs| - 1], term);
    }
  }

  lemma CorpusGrows(docs: seq<seq<string>>, i: nat, term: string)
    requires i < |docs|
    ensures InCorpus(docs[..i + 1], term) <==> InCorpus(docs[..i], term) || term in docs[i]
    ensures DocumentFrequency(docs[..i + 1], term) ==
      DocumentFrequency(docs[..i], term) + (if term in docs[i] then 1 else 0)
  {
    assert docs[..i + 1][..i] == docs[..i];
    if k :| 0 <= k < i && term in docs[..i][k] {
      assert term in docs[..i + 1][k];
    }
    if term in docs[i] {
      assert term in docs[..i + 1][i];
    }
  }

  /** In how many documents each term occurs, with one scratch set per document. */
  method DocumentFrequencies(docs: seq<seq<string>>) returns (frequency: map<string, nat>)
    ensures forall t :: t in frequency <==> InCorpus(docs, t)
    ensures forall t :: t in frequency ==> frequency[t] == DocumentFrequency(docs, t)
  {
    frequency := map[];
    for i := 0 to |docs|
      invariant forall t :: t in frequency <==> InCorpus(docs[..i], t)
      invariant forall t :: t in frequency ==> frequency[t] == DocumentFrequency(docs[..i], t)
    {
      ghost var before := frequency;
      var seen: set<string> := {};
      for k := 0 to |docs[i]|
        invariant seen == set t | t in docs[i][..k]
        invariant frequency.Keys == before.Keys + seen
        invariant forall t :: t in frequency ==>
          frequency[t] == (if t in before then before[t] else 0) + (if t in seen then 1 else 0)
      {
        var term := docs[i][k];
        assert docs[i][..k + 1] == docs[i][..k] + [term];
        if term !in seen {
          seen := seen + {term};
          frequency := frequency[term := (if term in frequency then frequency[term] else 0) + 1];
        }
      }
      assert docs[i][..|docs[i]|] == docs[i];
      forall t ensures t in frequency <==> InCorpus(docs[..i + 1], t) {
        CorpusGrows(docs, i, t);
      }
      forall t | t in frequency ensures frequency[t] == DocumentFrequency(docs[..i + 1], t) {
        CorpusGrows(docs, i, t);
        if t !in before {
          AbsentFrequency(docs[..i], t);
        }
      }
    }
    assert docs[..|docs|] == docs;
  }

  /** Collects the keys in whatever order the map yields them, and sorts. */
  method SortedKeys(frequency: map<string, nat>) returns (terms: seq<string>)
    ensures Sorted(StringLess, terms) && Distinct(terms)
    ensures forall t :: t in terms <==> t in frequency
  {
    var keys: seq<string> := [];
    var rest := frequency.Keys;
    while rest != {}
      invariant rest <= frequency.Keys
      invariant Distinct(keys)
      invariant forall t :: t in keys <==> t in frequency && t !in rest
      decreases |rest|
    {
      var t :| t in rest;
      rest := rest - {t};
      keys := keys + [t];
    }
    terms := Sort(StringLess, keys);
    StringOrder();
    SortSorted(StringLess, keys);
    SortElements(StringLess, keys);
    SameElements(keys, terms);
    PermutationDistinct(keys, terms);
  }

  ghost predicate ColumnIndex(columnOf: map<string, nat>, terms: seq<string>) {
    && (forall t :: t in columnOf <==> t in terms)
    && (forall t :: t in columnOf ==> columnOf[t] < |terms| && terms[columnOf[t]] == t)
  }

  /** How often each term occurs in the document. */
  function Counts(tokens: seq<string>, terms: seq<string>): (counts: seq<real>)
    ensures |counts| == |terms|
  {
    seq(|terms|, c requires 0 <= c < |terms| => Count(tokens, terms[c]) as real)
  }

  /** Fills one document's row, touching only the columns the document has. */
  method BuildRow(tokens: seq<string>, terms: seq<string>, columnOf: map<string, nat>, idf: seq<real>, sqrt: real -> real)
    returns (row: array<real>)
    requires IsSqrt(sqrt) && |idf| == |terms| && Distinct(terms) && ColumnIndex(columnOf, terms)
    requires forall t :: t in tokens ==> t in columnOf
    ensures fresh(row) && row.Length == |terms|
    ensures var weighted := Weighted(Counts(tokens, terms), idf);
      && (SquaredLength(weighted) != 0.0 ==> sqrt(SquaredLength(weighted)) != 0.0)
      && row[..] == Direction(weighted, sqrt)
  {
    row := new real[|terms|](_ => 0.0);
    var present: seq<int> := [];
    for k := 0 to |tokens|
      invariant forall c :: 0 <= c < |terms| ==> row[c] == Count(tokens[..k], terms[c]) as real
      invariant Columns(present, |terms|)
      invariant forall c :: 0 <= c < |terms| ==> (c in present <==> row[c] != 0.0)
    {
      var column := columnOf[tokens[k]];
      assert tokens[..k + 1][..k] == tokens[..k];
      if row[column] == 0.0 {
        present := present + [column];
      }
      row[column] := row[column] + 1.0;
    }
    assert tokens[..|tokens|] == tokens;
    assert row[..] == Counts(tokens, terms);
    NormaliseAt(row, present, idf, sqrt);
  }

  method TFIDF(docs: seq<seq<string>>, log: real -> real, sqrt: real -> real) returns (m: Matrix)
    requires IsSqrt(sqrt)
    ensures IsTfidf(m, docs, log, sqrt)
  {
    var frequency := DocumentFrequencies(docs);
    var terms := SortedKeys(frequency);
    var columnOf, idf := IndexTerms(docs, terms, frequency, log);
    var rows: seq<seq<real>> := [];
    for i := 0 to |docs|
      invariant |rows| == i
      invariant forall k :: 0 <= k < i ==> rows[k] == UnitRow(docs, docs[k], terms, log, sqrt)
    {
      var row := WeighDocument(docs, i, terms, columnOf, idf, log, sqrt);
      rows := rows + [row];
    }
    m := Matrix(rows, terms);
  }

  method WeighDocument(docs: seq<seq<string>>, i: nat, terms: seq<string>, columnOf: map<string, nat>, idf: seq<real>,
                       ghost log: real -> real, sqrt: real -> real) returns (row: seq<real>)
    requires IsSqrt(sqrt) && i < |docs| && IsVocabulary(terms, docs) && ColumnIndex(columnOf, terms)
    requires |idf| == |terms| && forall c :: 0 <= c < |terms| ==> idf[c] == Idf(docs, terms[c], log)
    ensures row == UnitRow(docs, docs[i], terms, log, sqrt)
  {
    forall t | t in docs[i] ensures t in columnOf {
      assert InCorpus(docs, t);
    }
    var built := BuildRow(docs[i], terms, columnOf, idf, sqrt);
    WeightsAgree(docs, docs[i], terms, idf, log);
    row := built[..];
  }

  lemma WeightsAgree(docs: seq<seq<string>>, doc: seq<string>, terms: seq<string>, idf: seq<real>, log: real -> real)
    requires |idf| == |terms| && forall c :: 0 <= c < |terms| ==> idf[c] == Idf(docs, terms[c], log)
    ensures Weighted(Counts(doc, terms), idf) == Weights(docs, doc, terms, log)
  {
    var v, w := Weighted(Counts(doc, terms), idf), Weights(docs, doc, terms, log);
    forall c | 0 <= c < |terms| ensures v[c] == w[c] {
      assert Counts(doc, terms)[c] == Count(doc, terms[c]) as real;
    }
  }

  method IndexTerms(docs: seq<seq<string>>, terms: seq<string>, frequency: map<string, nat>, log: real -> real)
    returns (columnOf: map<string, nat>, idf: seq<real>)
    requires Distinct(terms)
    requires forall t :: t in terms ==> t in frequency && frequency[t] == DocumentFrequency(docs, t)
    ensures ColumnIndex(columnOf, terms)
    ensures |idf| == |terms| && forall c :: 0 <= c < |terms| ==> idf[c] == Idf(docs, terms[c], log)
  {
    columnOf := map[];
    idf := [];
    for c := 0 to |terms|
      invariant ColumnIndex(columnOf, terms[..c])
      invariant |idf| == c && forall d :: 0 <= d < c ==> idf[d] == Idf(docs, terms[d], log)
    {
      assert terms[..c + 1] == terms[..c] + [terms[c]];
      columnOf := columnOf[terms[c] := c];
      idf := idf + [log(|docs| as real / (1 + frequency[terms[c]]) as real)];
    }
    assert terms[..|terms|] == terms;
  }
}
