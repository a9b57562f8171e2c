/**
 * similarity/similarity_engine.py: nearest neighbours of one row of the feature
 * matrix. The engine knows only rows and scores. `cosine_similarity` is a library
 * call (it needs square roots), so the engine is given the similarity of two rows
 * as a function when it is built; everything around that call is modelled.
 */
module Similarity {
  import opened Wrappers
  import opened Ranking
  import opened Text

  /** The pairs `(i, row[i])` of `enumerate(row)`. */
  function Enumerate(row: seq<real>): seq<Scored>
  {
    seq(|row|, i requires 0 <= i < |row| => Scored(i, row[i]))
  }

  /** `[(i, s) for i, s in xs if i != q]`. */
  function Without(xs: seq<Scored>, q: int): (r: seq<Scored>)
    ensures |r| <= |xs|
  {
    if xs == [] then []
    else
      var init := xs[..|xs| - 1];
      var last := xs[|xs| - 1];
      Without(init, q) + (if last.key != q then [last] else [])
  }

  /** Filtering keeps exactly the pairs whose index is not `q`, and keeps increasing indices increasing. */
  lemma {:induction false} WithoutProps(xs: seq<Scored>, q: int)
    ensures forall p :: p in Without(xs, q) <==> p in xs && p.key != q
    ensures KeysIncreasing(xs) ==> KeysIncreasing(Without(xs, q))
  {
    if xs != [] {
      var init := xs[..|xs| - 1];
      var last := xs[|xs| - 1];
      assert xs == init + [last];
      assert forall p :: p in xs <==> p in init || p == last;
      assert KeysIncreasing(xs) ==> KeysIncreasing(init);
      WithoutProps(init, q);
    }
  }

  /** The list that is sorted: every index with its score, the query's own dropped on request. */
  function Candidates(row: seq<real>, q: int, excludeSelf: bool): (r: seq<Scored>)
    ensures KeysIncreasing(r)
  {
    if excludeSelf then WithoutProps(Enumerate(row), q); Without(Enumerate(row), q) else Enumerate(row)
  }

  /** The candidates are the enumerated pairs, less the query's own when it is excluded. */
  lemma CandidatesAre(row: seq<real>, q: int, excludeSelf: bool)
    ensures forall p :: p in Candidates(row, q, excludeSelf) <==> p in Enumerate(row) && (excludeSelf ==> p.key != q)
  {
    WithoutProps(Enumerate(row), q);
  }

  /** What `find_similar_items` returns for a valid query whose similarity row is `row`. */
  function SimilarItems(row: seq<real>, q: int, topK: int, excludeSelf: bool): seq<Scored>
  {
    PyPrefix(SortByScore(Candidates(row, q, excludeSelf)), topK)
  }

  /** Every returned pair is some `(i, row[i])` of the query's own similarity row. */
  lemma SimilarItemsFromRow(row: seq<real>, q: int, topK: int, excludeSelf: bool, p: Scored)
    requires p in SimilarItems(row, q, topK, excludeSelf)
    ensures 0 <= p.key < |row| && p.score == row[p.key]
    ensures excludeSelf ==> p.key != q
  {
    var sorted := SortByScore(Candidates(row, q, excludeSelf));
    assert p in sorted;
    assert p in multiset(Candidates(row, q, excludeSelf));
    CandidatesAre(row, q, excludeSelf);
  }

  /** With `exclude_self`, the query index never comes back. */
  lemma SimilarItemsExcludeSelf(row: seq<real>, q: int, topK: int)
    ensures forall p :: p in SimilarItems(row, q, topK, true) ==> p.key != q
  {
    forall p | p in SimilarItems(row, q, topK, true)
      ensures p.key != q
    {
      SimilarItemsFromRow(row, q, topK, true, p);
    }
  }

  /** Scores do not increase along the result, and equal scores come in ascending index order. */
  lemma SimilarItemsOrdered(row: seq<real>, q: int, topK: int, excludeSelf: bool)
    ensures SortedDescThenKey(SimilarItems(row, q, topK, excludeSelf))
  {
    var sorted := SortByScore(Candidates(row, q, excludeSelf));
    SortByScoreThenKey(Candidates(row, q, excludeSelf));
    var r := SimilarItems(row, q, topK, excludeSelf);
    assert forall i :: 0 <= i < |r| ==> r[i] == sorted[i];
  }

  /** The returned indices are valid row indices and pairwise distinct. */
  lemma SimilarItemsDistinct(row: seq<real>, q: int, topK: int, excludeSelf: bool)
    ensures forall i :: 0 <= i < |SimilarItems(row, q, topK, excludeSelf)| ==>
              0 <= SimilarItems(row, q, topK, excludeSelf)[i].key < |row|
    ensures forall i, j :: 0 <= i < j < |SimilarItems(row, q, topK, excludeSelf)| ==>
              SimilarItems(row, q, topK, excludeSelf)[i].key != SimilarItems(row, q, topK, excludeSelf)[j].key
  {
    var r := SimilarItems(row, q, topK, excludeSelf);
    SimilarItemsOrdered(row, q, topK, excludeSelf);
    forall i | 0 <= i < |r|
      ensures 0 <= r[i].key < |row| && r[i].score == row[r[i].key]
    {
      SimilarItemsFromRow(row, q, topK, excludeSelf, r[i]);
    }
  }

  lemma {:induction false} WithoutEnumerateLength(row: seq<real>, q: int, n: nat)
    requires n <= |row|
    ensures |Without(Enumerate(row)[..n], q)| == if 0 <= q < n then n - 1 else n
  {
    if n > 0 {
      var xs := Enumerate(row)[..n];
      assert xs[..n - 1] == Enumerate(row)[..n - 1];
      WithoutEnumerateLength(row, q, n - 1);
    }
  }

  /** For `top_k >= 0` the result holds min(top_k, n - 1) pairs with `exclude_self`, min(top_k, n) without. */
  lemma SimilarItemsLength(row: seq<real>, q: int, topK: int, excludeSelf: bool)
    requires 0 <= q < |row| && topK >= 0
    ensures var available := if excludeSelf then |row| - 1 else |row|;
            |SimilarItems(row, q, topK, excludeSelf)| == if topK <= available then topK else available
  {
    WithoutEnumerateLength(row, q, |row|);
    assert Enumerate(row)[..|row|] == Enumerate(row);
  }

  /**
   * The behaviour the three-row test expects: when row 1 is more similar to row 0
   * than row 2 is, the two nearest neighbours of row 0 start with row 1.
   */
  lemma ThreeRowExample(row: seq<real>)
    requires |row| == 3 && row[1] > row[2]
    ensures |SimilarItems(row, 0, 2, true)| == 2
    ensures SimilarItems(row, 0, 2, true)[0].key == 1
  {
    SimilarItemsLength(row, 0, 2, true);
    var r := SimilarItems(row, 0, 2, true);
    SimilarItemsOrdered(row, 0, 2, true);
    SimilarItemsDistinct(row, 0, 2, true);
    SimilarItemsFromRow(row, 0, 2, true, r[0]);
    SimilarItemsFromRow(row, 0, 2, true, r[1]);
  }

  /** `[(idx, score) for idx, score in enumerate(row)]`. */
  method EnumerateScores(row: seq<real>) returns (scoredItems: seq<Scored>)
    ensures scoredItems == Enumerate(row)
  {
    scoredItems := [];
    for idx := 0 to |row|
      invariant scoredItems == Enumerate(row)[..idx]
    {
      scoredItems := scoredItems + [Scored(idx, row[idx])];
    }
  }

  /** `[(idx, score) for idx, score in scoredItems if idx != q]`. */
  method ExcludeIndex(scoredItems: seq<Scored>, q: int) returns (kept: seq<Scored>)
    ensures kept == Without(scoredItems, q)
  {
    kept := [];
    for i := 0 to |scoredItems|
      invariant kept == Without(scoredItems[..i], q)
    {
      assert scoredItems[..i + 1][..i] == scoredItems[..i];
      if scoredItems[i].key != q {
        kept := kept + [scoredItems[i]];
      }
    }
    assert scoredItems[..|scoredItems|] == scoredItems;
  }

  /** A row index as numpy reads it: negative indices count from the end. */
  function NumpyIndex(i: int, n: nat): (r: Option<nat>)
    ensures r.Some? <==> -(n as int) <= i < n
    ensures r.Some? ==> r.value < n && (r.value == i || r.value == i + n)
  {
    if 0 <= i < n then Some(i) else if -(n as int) <= i < 0 then Some(i + n) else None
  }

  /**
   * `text_weight * text_sim + genre_weight * genre_sim`, element by element. With
   * non-negative weights summing to one, each combined score lies between its two inputs.
   */
  function WeightedSimilarity(textSim: seq<real>, genreSim: seq<real>, textWeight: real, genreWeight: real): (r: seq<real>)
    requires |textSim| == |genreSim|
    ensures |r| == |textSim|
    ensures textWeight >= 0.0 && genreWeight >= 0.0 && textWeight + genreWeight == 1.0 ==>
      forall i :: 0 <= i < |r| ==> Between(r[i], textSim[i], genreSim[i])
  {
    var r := seq(|textSim|, i requires 0 <= i < |textSim| => textWeight * textSim[i] + genreWeight * genreSim[i]);
    assert textWeight >= 0.0 && genreWeight >= 0.0 && textWeight + genreWeight == 1.0 ==>
      forall i :: 0 <= i < |r| ==> Between(r[i], textSim[i], genreSim[i]) by {
      if textWeight >= 0.0 && genreWeight >= 0.0 && textWeight + genreWeight == 1.0 {
        forall i | 0 <= i < |r| ensures Between(r[i], textSim[i], genreSim[i]) {
          ConvexBetween(textSim[i], genreSim[i], textWeight, genreWeight);
        }
      }
    }
    r
  }

  /** `x` lies between `a` and `b`, whichever is smaller. */
  predicate Between(x: real, a: real, b: real) {
    if a <= b then a <= x <= b else b <= x <= a
  }

  /** A convex combination of two numbers lies between them. */
  lemma ConvexBetween(t: real, g: real, textWeight: real, genreWeight: real)
    requires textWeight >= 0.0 && genreWeight >= 0.0 && textWeight + genreWeight == 1.0
    ensures Between(textWeight * t + genreWeight * g, t, g)
  {
    if t <= g {
      ProductNonneg(textWeight, g - t);
      ProductNonneg(genreWeight, g - t);
      assert (textWeight * t + genreWeight * g) - t == genreWeight * (g - t) >= 0.0;
      assert g - (textWeight * t + genreWeight * g) == textWeight * (g - t) >= 0.0;
    } else {
      ProductNonneg(textWeight, t - g);
      ProductNonneg(genreWeight, t - g);
      assert (textWeight * t + genreWeight * g) - g == textWeight * (t - g) >= 0.0;
      assert t - (textWeight * t + genreWeight * g) == genreWeight * (t - g) >= 0.0;
    }
  }

  /** A column slice `start:stop` of the feature matrix; a missing bound is `None`. */
  datatype ColumnSlice = ColumnSlice(start: Option<int>, stop: Option<int>)

  /**
   * Where a slice bound falls in a row of `len` columns: a missing bound takes its
   * default, a negative one counts from the end, and the result is clamped to [0, len].
   */
  function SliceBound(b: Option<int>, len: nat, default: nat): (r: nat)
    requires default <= len
    ensures r <= len
    ensures b.None? ==> r == default
    ensures b.Some? && 0 <= b.value <= len ==> r == b.value
    ensures b.Some? && -(len as int) <= b.value < 0 ==> r == b.value + len
    ensures b.Some? && (b.value > len || b.value < -(len as int)) ==> r == if b.value > 0 then len else 0
  {
    match b
    case None => default
    case Some(i) =>
      if i < 0 then (if i + len < 0 then 0 else i + len)
      else if i > len then len
      else i
  }

  /** `row[s]` for a slice with step 1: the columns from the start bound up to the stop bound. */
  function Columns(row: seq<real>, s: ColumnSlice): (r: seq<real>)
    ensures var lo, hi := SliceBound(s.start, |row|, 0), SliceBound(s.stop, |row|, |row|);
            (r == [] <==> hi <= lo) && (lo < hi ==> r == row[lo..hi])
  {
    var lo, hi := SliceBound(s.start, |row|, 0), SliceBound(s.stop, |row|, |row|);
    if lo < hi then row[lo..hi] else []
  }

  /** `row[:k]` is the prefix `Ranking.PyPrefix` computes, and `row[:]` is the whole row. */
  lemma ColumnsPrefix(row: seq<real>, k: int)
    ensures Columns(row, ColumnSlice(None, Some(k))) == PyPrefix(row, k)
    ensures Columns(row, ColumnSlice(None, None)) == row
  {
    var hi := SliceBound(Some(k), |row|, |row|);
    assert |PyPrefix(row, k)| == hi;
    assert row[0..hi] == row[..hi];
    assert row[0..|row|] == row;
  }

  /** The message of the `ValueError` for a query index outside [0, n_items). */
  function OutOfBounds(queryIndex: int, nItems: nat): string {
    "Query index " + IntText(queryIndex) + " out of bounds [0, " + IntText(nItems) + ")"
  }

  /** `qs[i]` is the first query index outside [0, n). */
  predicate FirstOutOfBounds(qs: seq<int>, n: nat, i: int) {
    0 <= i < |qs| && !(0 <= qs[i] < n) && forall j :: 0 <= j < i ==> 0 <= qs[j] < n
  }

  class SimilarityEngine {
    const featureMatrix: seq<seq<real>>
    const nItems: nat
    /** `cosine_similarity` of two rows. */
    const cosine: (seq<real>, seq<real>) -> real

    ghost predicate Valid() {
      nItems == |featureMatrix|
    }

    constructor(featureMatrix: seq<seq<real>>, cosine: (seq<real>, seq<real>) -> real)
      ensures Valid()
      ensures this.featureMatrix == featureMatrix && this.cosine == cosine
    {
      this.featureMatrix := featureMatrix;
      this.nItems := |featureMatrix|;
      this.cosine := cosine;
    }

    /** `cosine_similarity(query_vector, feature_matrix)[0]`. */
    function Similarities(q: nat): (r: seq<real>)
      requires Valid() && q < nItems
      ensures |r| == nItems
    {
      seq(nItems, j requires 0 <= j < nItems => cosine(featureMatrix[q], featureMatrix[j]))
    }

    /** What `find_similar_items(q, top_k, exclude_self)` returns for a valid `q`. */
    function Query(q: nat, topK: int, excludeSelf: bool): seq<Scored>
      requires Valid() && q < nItems
    {
      SimilarItems(Similarities(q), q, topK, excludeSelf)
    }

    method FindSimilarItems(queryIndex: int, topK: int, excludeSelf: bool) returns (r: Result<seq<Scored>>)
      requires Valid()
      ensures r.Ok? <==> 0 <= queryIndex < nItems
      ensures r.Err? ==> r.error == ValueError(OutOfBounds(queryIndex, nItems))
      ensures r.Ok? ==> r.value == Query(queryIndex, topK, excludeSelf)
    {
      if queryIndex < 0 || queryIndex >= nItems {
        return Err(ValueError(OutOfBounds(queryIndex, nItems)));
      }
      var similarities := Similarities(queryIndex);
      var scoredItems := EnumerateScores(similarities);
      if excludeSelf {
        scoredItems := ExcludeIndex(scoredItems, queryIndex);
      }
      scoredItems := SortByScore(scoredItems);
      assert PyPrefix(scoredItems, topK) == SimilarItems(similarities, queryIndex, topK, excludeSelf);
      return Ok(PyPrefix(scoredItems, topK));
    }

    /** One result per query, each as `find_similar_items(q, top_k)`; the first bad index raises. */
    method BatchFindSimilarItems(queryIndices: seq<int>, topK: int) returns (r: Result<seq<seq<Scored>>>)
      requires Valid()
      ensures r.Ok? <==> forall i :: 0 <= i < |queryIndices| ==> 0 <= queryIndices[i] < nItems
      ensures r.Err? ==> exists i :: FirstOutOfBounds(queryIndices, nItems, i) &&
                                     r.error == ValueError(OutOfBounds(queryIndices[i], nItems))
      ensures r.Ok? ==> |r.value| == |queryIndices|
      ensures r.Ok? ==> forall i :: 0 <= i < |queryIndices| ==> r.value[i] == Query(queryIndices[i], topK, true)
    {
      var results: seq<seq<Scored>> := [];
      for n := 0 to |queryIndices|
        invariant |results| == n && AnsweredPrefix(queryIndices, topK, results)
      {
        var similarItems := FindSimilarItems(queryIndices[n], topK, true);
        if similarItems.Err? {
          assert FirstOutOfBounds(queryIndices, nItems, n);
          return Err(similarItems.error);
        }
        AnsweredSnoc(queryIndices, topK, results, similarItems.value);
        results := results + [similarItems.value];
      }
      return Ok(results);
    }

    /** `results` answers the first |results| queries, all of which are in bounds. */
    ghost predicate AnsweredPrefix(qs: seq<int>, topK: int, results: seq<seq<Scored>>)
      requires Valid()
    {
      && |results| <= |qs|
      && forall i :: 0 <= i < |results| ==> 0 <= qs[i] < nItems && results[i] == Query(qs[i], topK, true)
    }

    /** Answering the next query extends the answered prefix. */
    lemma AnsweredSnoc(qs: seq<int>, topK: int, results: seq<seq<Scored>>, found: seq<Scored>)
      requires Valid() && AnsweredPrefix(qs, topK, results) && |results| < |qs|
      requires 0 <= qs[|results|] < nItems && found == Query(qs[|results|], topK, true)
      ensures AnsweredPrefix(qs, topK, results + [found])
    {
      var r := results + [found];
      forall i | 0 <= i < |r|
        ensures 0 <= qs[i] < nItems && r[i] == Query(qs[i], topK, true)
      {
        if i < |results| {
          assert r[i] == results[i];
        }
      }
    }

    /** The similarity of two rows, each index read as numpy reads it. */
    function GetSimilarityScore(indexA: int, indexB: int): (r: Result<real>)
      requires Valid()
      ensures r.Ok? <==> -(nItems as int) <= indexA < nItems && -(nItems as int) <= indexB < nItems
      ensures !(-(nItems as int) <= indexA < nItems) ==> r == Err(IndexError(indexA))
      ensures -(nItems as int) <= indexA < nItems && !(-(nItems as int) <= indexB < nItems) ==> r == Err(IndexError(indexB))
      ensures r.Ok? ==> r.value == cosine(featureMatrix[if indexA < 0 then indexA + nItems else indexA],
                                          featureMatrix[if indexB < 0 then indexB + nItems else indexB])
    {
      match (NumpyIndex(indexA, nItems), NumpyIndex(indexB, nItems))
      case (None, _) => Err(IndexError(indexA))
      case (_, None) => Err(IndexError(indexB))
      case (Some(a), Some(b)) => Ok(cosine(featureMatrix[a], featureMatrix[b]))
    }

    /** Every score `find_similar_items` reports is the pair's `get_similarity_score`. */
    lemma FoundScoresAgree(queryIndex: nat, topK: int, excludeSelf: bool, p: Scored)
      requires Valid() && queryIndex < nItems
      requires p in SimilarItems(Similarities(queryIndex), queryIndex, topK, excludeSelf)
      ensures GetSimilarityScore(queryIndex, p.key) == Ok(p.score)
    {
      SimilarItemsFromRow(Similarities(queryIndex), queryIndex, topK, excludeSelf, p);
    }
  }

  /** The subclass that adds feature weights and the weighted two-block similarity. */
  class HybridSimilarityEngine {
    const featureMatrix: seq<seq<real>>
    const nItems: nat
    const cosine: (seq<real>, seq<real>) -> real
    const featureWeights: map<string, real>

    ghost predicate Valid() {
      nItems == |featureMatrix|
    }

    /** A missing weight table becomes the empty one. */
    constructor(featureMatrix: seq<seq<real>>, cosine: (seq<real>, seq<real>) -> real,
                featureWeights: Option<map<string, real>>)
      ensures Valid()
      ensures this.featureMatrix == featureMatrix && this.cosine == cosine
      ensures featureWeights.None? ==> this.featureWeights == map[]
      ensures featureWeights.Some? ==> this.featureWeights == featureWeights.value
    {
      this.featureMatrix := featureMatrix;
      this.nItems := |featureMatrix|;
      this.cosine := cosine;
      this.featureWeights := if featureWeights.Some? then featureWeights.value else map[];
    }

    /** The similarity of row `q` to every row, on the columns of one slice. */
    function BlockSimilarities(q: nat, s: ColumnSlice): (r: seq<real>)
      requires Valid() && q < nItems
      ensures |r| == nItems
      ensures forall j :: 0 <= j < nItems ==> r[j] == cosine(Columns(featureMatrix[q], s), Columns(featureMatrix[j], s))
    {
      seq(nItems, j requires 0 <= j < nItems => cosine(Columns(featureMatrix[q], s), Columns(featureMatrix[j], s)))
    }

    /** One combined score per row; an index numpy cannot read raises. */
    function ComputeWeightedSimilarity(queryIndex: int, textSlice: ColumnSlice, genreSlice: ColumnSlice,
                                       textWeight: real, genreWeight: real): (r: Result<seq<real>>)
      requires Valid()
      ensures r.Ok? <==> -(nItems as int) <= queryIndex < nItems
      ensures r.Err? ==> r.error == IndexError(queryIndex)
      ensures r.Ok? ==> |r.value| == nItems
      ensures r.Ok? ==> var q := if queryIndex < 0 then queryIndex + nItems else queryIndex;
        forall j :: 0 <= j < nItems ==>
          r.value[j] == textWeight * BlockSimilarities(q, textSlice)[j] + genreWeight * BlockSimilarities(q, genreSlice)[j]
    {
      match NumpyIndex(queryIndex, nItems)
      case None => Err(IndexError(queryIndex))
      case Some(q) =>
        Ok(WeightedSimilarity(BlockSimilarities(q, textSlice), BlockSimilarities(q, genreSlice), textWeight, genreWeight))
    }
  }
}
