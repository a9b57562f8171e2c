/**
 * features/feature_builder.py: the bookkeeping around the feature matrix. The
 * TF-IDF and one-hot blocks are produced by fitted library encoders, so they
 * enter as blocks of a given width; the id/row maps, the rating column and the
 * concatenation of the blocks are modelled.
 */
module Features {
  import opened Wrappers
  import opened Text
  import opened Movies

  /** The message of the `KeyError` that `get_movie_index` raises for an id it does not know. */
  function NotInIndex(movieId: int): string {
    "Movie ID " + IntText(movieId) + " not found in index"
  }

  /** A dense matrix: one row per movie, `width` columns in each. */
  datatype Block = Block(width: nat, rows: seq<seq<real>>)

  predicate Shaped(b: Block, n: nat) {
    |b.rows| == n && forall i :: 0 <= i < n ==> |b.rows[i]| == b.width
  }

  /**
   * `_build_rating_features`: one column holding each rating divided by 10, so the
   * ratings that `Movie` has normalised to [0, 10] become features in [0, 1].
   */
  function RatingFeatures(movies: seq<Movie>): (b: Block)
    ensures Shaped(b, |movies|) && b.width == 1
    ensures forall i :: 0 <= i < |movies| && Normalized(movies[i]) ==> 0.0 <= b.rows[i][0] <= 1.0
  {
    Block(1, seq(|movies|, i requires 0 <= i < |movies| => [movies[i].rating / 10.0]))
  }

  predicate AllShaped(blocks: seq<Block>, n: nat) {
    forall k :: 0 <= k < |blocks| ==> Shaped(blocks[k], n)
  }

  function SumWidths(blocks: seq<Block>): nat {
    if blocks == [] then 0 else blocks[0].width + SumWidths(blocks[1..])
  }

  /** Row `i` of every block, side by side. */
  function RowConcat(blocks: seq<Block>, n: nat, i: nat): (r: seq<real>)
    requires AllShaped(blocks, n) && i < n
    ensures |r| == SumWidths(blocks)
  {
    if blocks == [] then []
    else
      assert Shaped(blocks[0], n);
      assert AllShaped(blocks[1..], n) by {
        forall k | 0 <= k < |blocks[1..]| ensures Shaped(blocks[1..][k], n) {
          assert blocks[1..][k] == blocks[k + 1];
        }
      }
      blocks[0].rows[i] + RowConcat(blocks[1..], n, i)
  }

  /** `np.hstack`: the row count is kept and the widths add up. */
  function HStack(blocks: seq<Block>, n: nat): (r: Block)
    requires AllShaped(blocks, n)
    ensures Shaped(r, n) && r.width == SumWidths(blocks)
    ensures forall i :: 0 <= i < n ==> r.rows[i] == RowConcat(blocks, n, i)
  {
    Block(SumWidths(blocks), seq(n, i requires 0 <= i < n => RowConcat(blocks, n, i)))
  }

  /** `{movie.movie_id: idx for idx, movie in enumerate(movies)}`: a later position overwrites an earlier one. */
  function IdToIndex(movies: seq<Movie>): (m: map<int, nat>)
    ensures forall id :: id in m <==> exists i :: 0 <= i < |movies| && movies[i].movieId == id
    ensures forall id :: id in m ==> m[id] < |movies| && movies[m[id]].movieId == id
  {
    if movies == [] then map[]
    else
      var init := movies[..|movies| - 1];
      assert forall i :: 0 <= i < |init| ==> init[i] == movies[i];
      IdToIndex(init)[movies[|movies| - 1].movieId := |movies| - 1]
  }

  /** The position an id maps to is the last one that carries it. */
  lemma {:induction false} IdToIndexLast(movies: seq<Movie>, i: nat)
    requires i < |movies|
    requires forall j :: i < j < |movies| ==> movies[j].movieId != movies[i].movieId
    ensures IdToIndex(movies)[movies[i].movieId] == i
  {
    var init := movies[..|movies| - 1];
    if i < |movies| - 1 {
      assert forall j :: i < j < |init| ==> init[j] == movies[j];
      IdToIndexLast(init, i);
    }
  }

  /** `{idx: movie.movie_id for idx, movie in enumerate(movies)}`. */
  function IndexToId(movies: seq<Movie>): map<int, int>
  {
    map i | 0 <= i < |movies| :: movies[i].movieId
  }

  predicate DistinctIds(movies: seq<Movie>) {
    forall i, j :: 0 <= i < j < |movies| ==> movies[i].movieId != movies[j].movieId
  }

  /** id -> row -> id gives the id back, duplicates or not. */
  lemma IdRoundTrip(movies: seq<Movie>, id: int)
    requires id in IdToIndex(movies)
    ensures IdToIndex(movies)[id] in IndexToId(movies)
    ensures IndexToId(movies)[IdToIndex(movies)[id]] == id
  {
  }

  /** row -> id -> row gives the row back when the ids are distinct. */
  lemma IndexRoundTrip(movies: seq<Movie>, i: nat)
    requires DistinctIds(movies) && i < |movies|
    ensures IndexToId(movies)[i] in IdToIndex(movies)
    ensures IdToIndex(movies)[IndexToId(movies)[i]] == i
  {
    IdToIndexLast(movies, i);
  }

  /** With duplicate ids, the earlier rows cannot be reached from their id. */
  lemma DuplicateIdShadowsEarlierRow(movies: seq<Movie>, i: nat, j: nat)
    requires i < j < |movies| && movies[i].movieId == movies[j].movieId
    ensures IdToIndex(movies)[movies[i].movieId] != i
  {
    var id := movies[i].movieId;
    var k := IdToIndex(movies)[id];
    if k == i {
      LastIndexAtLeast(movies, j);
    }
  }

  lemma {:induction false} LastIndexAtLeast(movies: seq<Movie>, j: nat)
    requires j < |movies|
    ensures IdToIndex(movies)[movies[j].movieId] >= j
  {
    var init := movies[..|movies| - 1];
    if j < |movies| - 1 && movies[|movies| - 1].movieId != movies[j].movieId {
      assert init[j] == movies[j];
      LastIndexAtLeast(init, j);
    }
  }

  class FeatureBuilder {
    const maxFeatures: int
    const ngramRange: (int, int)
    const minDf: int
    /** Width of the fitted TF-IDF vocabulary; None before the first build. */
    var textVocabulary: Option<nat>
    /** Number of genre classes of the fitted one-hot encoder; None before it is fitted. */
    var genreClasses: Option<nat>
    var movieIdToIndex: map<int, nat>
    var indexToMovieId: map<int, int>

    constructor(maxFeatures: int, ngramRange: (int, int), minDf: int)
      ensures this.maxFeatures == maxFeatures && this.ngramRange == ngramRange && this.minDf == minDf
      ensures textVocabulary == None && genreClasses == None
      ensures movieIdToIndex == map[] && indexToMovieId == map[]
    {
      this.maxFeatures := maxFeatures;
      this.ngramRange := ngramRange;
      this.minDf := minDf;
      textVocabulary := None;
      genreClasses := None;
      movieIdToIndex := map[];
      indexToMovieId := map[];
    }

    /** `_create_index_mappings`: both maps are rebuilt from scratch. */
    method CreateIndexMappings(movies: seq<Movie>)
      modifies this
      ensures movieIdToIndex == IdToIndex(movies) && indexToMovieId == IndexToId(movies)
      ensures textVocabulary == old(textVocabulary) && genreClasses == old(genreClasses)
    {
      var idToIndex: map<int, nat> := map[];
      var indexToId: map<int, int> := map[];
      for idx := 0 to |movies|
        invariant idToIndex == IdToIndex(movies[..idx])
        invariant indexToId == IndexToId(movies[..idx])
      {
        assert movies[..idx + 1][..idx] == movies[..idx];
        idToIndex := idToIndex[movies[idx].movieId := idx];
        indexToId := indexToId[idx := movies[idx].movieId];
      }
      assert movies[..|movies|] == movies;
      movieIdToIndex := idToIndex;
      indexToMovieId := indexToId;
    }

    /**
     * `build_features`: `textFeatures` and `genreFeatures` stand for what the TF-IDF
     * vectoriser and the genre binariser produce for these movies.
     */
    method BuildFeatures(movies: seq<Movie>, includeGenres: bool, includeRatings: bool,
                         textFeatures: Block, genreFeatures: Block) returns (featureMatrix: Block)
      requires Shaped(textFeatures, |movies|) && Shaped(genreFeatures, |movies|)
      modifies this
      ensures movieIdToIndex == IdToIndex(movies) && indexToMovieId == IndexToId(movies)
      ensures textVocabulary == Some(textFeatures.width)
      ensures genreClasses == if includeGenres then Some(genreFeatures.width) else old(genreClasses)
      ensures Shaped(featureMatrix, |movies|)
      ensures featureMatrix.width == textFeatures.width + (if includeGenres then genreFeatures.width else 0)
                                     + (if includeRatings then 1 else 0)
      ensures forall i :: 0 <= i < |movies| ==>
        featureMatrix.rows[i] == textFeatures.rows[i] + (if includeGenres then genreFeatures.rows[i] else [])
                                 + (if includeRatings then [movies[i].rating / 10.0] else [])
    {
      CreateIndexMappings(movies);
      textVocabulary := Some(textFeatures.width);
      var featureComponents := [textFeatures];
      if includeGenres {
        genreClasses := Some(genreFeatures.width);
        featureComponents := featureComponents + [genreFeatures];
      }
      if includeRatings {
        var ratingFeatures := RatingFeatures(movies);
        featureComponents := featureComponents + [ratingFeatures];
      }
      assert featureComponents == Components(movies, includeGenres, includeRatings, textFeatures, genreFeatures);
      StackedComponents(movies, includeGenres, includeRatings, textFeatures, genreFeatures);
      featureMatrix := HStack(featureComponents, |movies|);
    }

    /** `get_movie_index`: a KeyError with the `NotInIndex` message for an id that was not built. */
    function GetMovieIndex(movieId: int): (r: Result<nat>)
      reads this
      ensures r.Ok? <==> movieId in movieIdToIndex
      ensures r.Ok? ==> r.value == movieIdToIndex[movieId]
      ensures r.Err? ==> r.error == KeyErrorMessage(NotInIndex(movieId))
    {
      if movieId !in movieIdToIndex then Err(KeyErrorMessage(NotInIndex(movieId))) else Ok(movieIdToIndex[movieId])
    }

    /** `get_movie_id`: the dictionary lookup fails with KeyError outside the built rows. */
    function GetMovieId(index: int): (r: Result<int>)
      reads this
      ensures r.Ok? <==> index in indexToMovieId
      ensures r.Ok? ==> r.value == indexToMovieId[index]
      ensures r.Err? ==> r.error == KeyError(index)
    {
      if index in indexToMovieId then Ok(indexToMovieId[index]) else Err(KeyError(index))
    }
  }

  /** `feature_components`: the text block, then the genre block and the rating column when included. */
  function Components(movies: seq<Movie>, includeGenres: bool, includeRatings: bool,
                      textFeatures: Block, genreFeatures: Block): seq<Block>
  {
    [textFeatures] + (if includeGenres then [genreFeatures] else [])
                   + (if includeRatings then [RatingFeatures(movies)] else [])
  }

  /**
   * Stacking the components gives one row per movie, the widths added up in the order
   * text, genres, rating, and each row the movie's rows of the blocks side by side.
   */
  lemma StackedComponents(movies: seq<Movie>, includeGenres: bool, includeRatings: bool,
                          textFeatures: Block, genreFeatures: Block)
    requires Shaped(textFeatures, |movies|) && Shaped(genreFeatures, |movies|)
    ensures AllShaped(Components(movies, includeGenres, includeRatings, textFeatures, genreFeatures), |movies|)
    ensures var m := HStack(Components(movies, includeGenres, includeRatings, textFeatures, genreFeatures), |movies|);
            m.width == textFeatures.width + (if includeGenres then genreFeatures.width else 0)
                       + (if includeRatings then 1 else 0) &&
            forall i :: 0 <= i < |movies| ==>
              m.rows[i] == textFeatures.rows[i] + (if includeGenres then genreFeatures.rows[i] else [])
                           + (if includeRatings then [movies[i].rating / 10.0] else [])
  {
    var n := |movies|;
    var g: seq<Block> := if includeGenres then [genreFeatures] else [];
    var r: seq<Block> := if includeRatings then [RatingFeatures(movies)] else [];
    var blocks := Components(movies, includeGenres, includeRatings, textFeatures, genreFeatures);
    assert blocks == [textFeatures] + g + r;
    assert AllShaped(blocks, n);
    WidthOfComponents(textFeatures, g, r);
    forall i | 0 <= i < n
      ensures RowConcat(blocks, n, i) == textFeatures.rows[i] + (if includeGenres then genreFeatures.rows[i] else [])
                                         + (if includeRatings then [movies[i].rating / 10.0] else [])
    {
      RowConcatAppend([textFeatures] + g, r, n, i);
      RowConcatAppend([textFeatures], g, n, i);
      RowConcatSingle(textFeatures, n, i);
      if includeGenres {
        RowConcatSingle(genreFeatures, n, i);
      } else {
        assert RowConcat(g, n, i) == [];
      }
      if includeRatings {
        RowConcatSingle(RatingFeatures(movies), n, i);
      } else {
        assert RowConcat(r, n, i) == [];
      }
    }
  }

  lemma AllShapedSplit(a: seq<Block>, b: seq<Block>, n: nat)
    requires AllShaped(a + b, n)
    ensures AllShaped(a, n) && AllShaped(b, n)
  {
    assert forall k :: 0 <= k < |a| ==> a[k] == (a + b)[k];
    assert forall k :: 0 <= k < |b| ==> b[k] == (a + b)[|a| + k];
  }

  /** Stacking two groups of blocks is stacking their concatenation. */
  lemma {:induction false} RowConcatAppend(a: seq<Block>, b: seq<Block>, n: nat, i: nat)
    requires AllShaped(a + b, n) && i < n
    ensures AllShaped(a, n) && AllShaped(b, n)
    ensures RowConcat(a + b, n, i) == RowConcat(a, n, i) + RowConcat(b, n, i)
    ensures SumWidths(a + b) == SumWidths(a) + SumWidths(b)
  {
    AllShapedSplit(a, b, n);
    if a == [] {
      assert a + b == b;
    } else {
      assert (a + b)[1..] == a[1..] + b;
      assert (a + b)[0] == a[0];
      RowConcatAppend(a[1..], b, n, i);
    }
  }

  lemma WidthOfComponents(t: Block, g: seq<Block>, r: seq<Block>)
    requires |g| <= 1 && |r| <= 1
    ensures SumWidths([t] + g + r) == t.width + (if g == [] then 0 else g[0].width) + (if r == [] then 0 else r[0].width)
  {
    if r != [] {
      assert r[1..] == [];
    }
    assert SumWidths(r) == if r == [] then 0 else r[0].width;
    if g != [] {
      assert (g + r)[1..] == r;
    } else {
      assert g + r == r;
    }
    assert SumWidths(g + r) == (if g == [] then 0 else g[0].width) + SumWidths(r);
    assert ([t] + g + r)[1..] == g + r;
  }

  lemma RowConcatSingle(b: Block, n: nat, i: nat)
    requires Shaped(b, n) && i < n
    ensures AllShaped([b], n)
    ensures RowConcat([b], n, i) == b.rows[i] && SumWidths([b]) == b.width
  {
    assert [b][1..] == [];
  }

  /**
   * The index-mapping test: whatever the movies, when the first has id 1 and the ids
   * are distinct, id 1 is row 0 and row 0 is id 1.
   */
  lemma FirstMovieIsRowZero(movies: seq<Movie>)
    requires |movies| > 0 && movies[0].movieId == 1 && DistinctIds(movies)
    ensures 1 in IdToIndex(movies) && IdToIndex(movies)[1] == 0
    ensures 0 in IndexToId(movies) && IndexToId(movies)[0] == 1
  {
    IndexRoundTrip(movies, 0);
  }
}
