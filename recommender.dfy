/**
 * main.py: the orchestrator that wires the feature builder, the similarity engine and
 * the preference engine together over the loaded movies, and answers title lookups,
 * recommendation requests and the genre and language listings.
 */
module Recommender {
  import opened Wrappers
  import opened Text
  import opened Movies
  import opened Ranking
  import Similarity
  import Preferences
  import Features

  /** A lowercased title either equals the lowercased query or, for a fuzzy match, contains it. */
  predicate TitleMatches(m: Movie, query: string, exact: bool) {
    if exact then Lower(m.title) == query else Contains(Lower(m.title), query)
  }

  /** The position of the first movie at or after `start` that satisfies `p`. */
  function FirstWhere(movies: seq<Movie>, p: Movie -> bool, start: nat): (r: Option<nat>)
    requires start <= |movies|
    ensures r.Some? ==> start <= r.value < |movies| && p(movies[r.value])
    ensures r.Some? ==> forall j :: start <= j < r.value ==> !p(movies[j])
    ensures r.None? ==> forall j :: start <= j < |movies| ==> !p(movies[j])
    decreases |movies| - start
  {
    if start == |movies| then None
    else if p(movies[start]) then Some(start)
    else FirstWhere(movies, p, start + 1)
  }

  /** The position of the first movie whose title matches. */
  function FirstMatch(movies: seq<Movie>, query: string, exact: bool): (r: Option<nat>)
    ensures r.Some? ==> r.value < |movies| && TitleMatches(movies[r.value], query, exact)
    ensures r.Some? ==> forall j :: 0 <= j < r.value ==> !TitleMatches(movies[j], query, exact)
    ensures r.None? ==> forall j :: 0 <= j < |movies| ==> !TitleMatches(movies[j], query, exact)
  {
    FirstWhere(movies, m => TitleMatches(m, query, exact), 0)
  }

  /**
   * What `find_movie_by_title` returns: the first exact (case-insensitive) title match;
   * only when there is none and `fuzzy` is set, the first title containing the query.
   */
  function FindByTitle(movies: seq<Movie>, title: string, fuzzy: bool): (r: Option<Movie>)
    ensures FirstMatch(movies, Lower(title), true).Some? ==>
      r == Some(movies[FirstMatch(movies, Lower(title), true).value])
    ensures FirstMatch(movies, Lower(title), true).None? && fuzzy && FirstMatch(movies, Lower(title), false).Some? ==>
      r == Some(movies[FirstMatch(movies, Lower(title), false).value])
    ensures r.None? <==>
      FirstMatch(movies, Lower(title), true).None? && (!fuzzy || FirstMatch(movies, Lower(title), false).None?)
  {
    match FirstMatch(movies, Lower(title), true)
    case Some(i) => Some(movies[i])
    case None =>
      if !fuzzy then None
      else
        match FirstMatch(movies, Lower(title), false)
        case Some(i) => Some(movies[i])
        case None => None
  }

  /** An exact match wins over any earlier movie whose title only contains the query. */
  lemma ExactMatchWins(movies: seq<Movie>, title: string, fuzzy: bool, i: nat)
    requires i < |movies| && Lower(movies[i].title) == Lower(title)
    requires forall j :: 0 <= j < i ==> Lower(movies[j].title) != Lower(title)
    ensures FindByTitle(movies, title, fuzzy) == Some(movies[i])
  {
    var k := FirstMatch(movies, Lower(title), true);
    assert TitleMatches(movies[i], Lower(title), true);
    assert k.Some? && k.value == i;
  }

  /** Every title contains itself, so a fuzzy search for a stored title always finds a movie. */
  lemma StoredTitleIsFound(movies: seq<Movie>, i: nat, fuzzy: bool)
    requires i < |movies|
    ensures FindByTitle(movies, movies[i].title, fuzzy).Some?
  {
    assert TitleMatches(movies[i], Lower(movies[i].title), true);
  }

  /** `next((m for m in movies if m.movie_id == movie_id), None)`. */
  function FindById(movies: seq<Movie>, id: int): (r: Option<Movie>)
    ensures r.Some? ==> r.value.movieId == id && r.value in movies
    ensures r.Some? ==> exists i :: (0 <= i < |movies| && movies[i] == r.value &&
                                     forall j :: 0 <= j < i ==> movies[j].movieId != id)
    ensures r.None? <==> forall i :: 0 <= i < |movies| ==> movies[i].movieId != id
  {
    if movies == [] then None
    else if movies[0].movieId == id then Some(movies[0])
    else
      assert forall j :: 1 <= j < |movies| ==> movies[j] == movies[1..][j - 1];
      var r := FindById(movies[1..], id);
      if r.Some? then
        var i :| 0 <= i < |movies[1..]| && movies[1..][i] == r.value && forall j :: 0 <= j < i ==> movies[1..][j].movieId != id;
        assert movies[i + 1] == r.value;
        r
      else r
  }

  /** The genres that occur in some movie. */
  function GenreSet(movies: seq<Movie>): (s: set<string>)
    ensures forall g :: g in s <==> exists i :: 0 <= i < |movies| && g in movies[i].genres
  {
    if movies == [] then {}
    else
      var init := movies[..|movies| - 1];
      assert forall i :: 0 <= i < |init| ==> init[i] == movies[i];
      var last := movies[|movies| - 1].genres;
      GenreSet(init) + set g | g in last
  }

  /** `list(s)`: the elements of a set, in some order. */
  method ListOfSet(s: set<string>) returns (xs: seq<string>)
    ensures forall x :: x in xs <==> x in s
  {
    xs := [];
    var rest := s;
    while rest != {}
      invariant forall x :: x in s <==> x in rest || x in xs
      decreases rest
    {
      var x :| x in rest;
      xs := xs + [x];
      rest := rest - {x};
    }
  }

  /** Row indices to movie ids through the index map of the feature builder. */
  function ToMovieIds(similar: seq<Scored>, indexToId: map<int, int>): (r: seq<Scored>)
    requires forall i :: 0 <= i < |similar| ==> similar[i].key in indexToId
    ensures |r| == |similar|
    ensures forall i :: 0 <= i < |r| ==> r[i] == Scored(indexToId[similar[i].key], similar[i].score)
  {
    seq(|similar|, i requires 0 <= i < |similar| => Scored(indexToId[similar[i].key], similar[i].score))
  }

  /** Each similar row replaced by the id of the movie in that row. */
  function MovieIdsOf(similar: seq<Scored>, movies: seq<Movie>): (r: seq<Scored>)
    requires forall i :: 0 <= i < |similar| ==> 0 <= similar[i].key < |movies|
    ensures |r| == |similar|
    ensures forall i :: 0 <= i < |r| ==> r[i] == Scored(movies[similar[i].key].movieId, similar[i].score)
  {
    seq(|similar|, i requires 0 <= i < |similar| => Scored(movies[similar[i].key].movieId, similar[i].score))
  }

  /** `get_movie_id` through the builder's map names the movie of each row. */
  lemma ToMovieIdsAgree(similar: seq<Scored>, movies: seq<Movie>)
    requires forall i :: 0 <= i < |similar| ==> 0 <= similar[i].key < |movies|
    ensures forall i :: 0 <= i < |similar| ==> similar[i].key in Features.IndexToId(movies)
    ensures ToMovieIds(similar, Features.IndexToId(movies)) == MovieIdsOf(similar, movies)
  {
  }

  /** A matching movie with no match before it is the first match. */
  lemma FirstMatchAt(movies: seq<Movie>, query: string, exact: bool, i: nat)
    requires i < |movies| && TitleMatches(movies[i], query, exact)
    requires forall j :: 0 <= j < i ==> !TitleMatches(movies[j], query, exact)
    ensures FirstMatch(movies, query, exact) == Some(i)
  {
    var r := FirstMatch(movies, query, exact);
    assert r.Some?;
    assert !(r.value < i) && !(r.value > i);
  }

  /** The movie fields a recommendation carries, without the score. */
  function MovieOf(r: Preferences.Recommendation): Movie {
    Movie(r.movieId, r.title, r.genres, r.overview, r.language, r.rating, r.metadata)
  }

  /** The no-preference results: each candidate as the first movie with its id, and its raw score. */
  function PlainList(movies: seq<Movie>, top: seq<Scored>): (r: seq<Preferences.Recommendation>)
    requires forall i :: 0 <= i < |top| ==> FindById(movies, top[i].key).Some?
    ensures |r| == |top|
    ensures forall i :: 0 <= i < |r| ==>
      r[i].movieId == top[i].key && r[i].score == top[i].score && FindById(movies, top[i].key) == Some(MovieOf(r[i]))
  {
    seq(|top|, i requires 0 <= i < |top| => Preferences.Enrich(FindById(movies, top[i].key).value, top[i].score))
  }

  /** The first `top_k` of the preference ranking: at most `top_k` of them, best first, all known ids. */
  lemma RankedTop(byId: map<int, Movie>, candidates: seq<Scored>, prefs: Preferences.UserPreferences, topK: int)
    requires topK >= 0
    ensures var top := PyPrefix(Preferences.Ranked(byId, candidates, prefs, true), topK);
            |top| <= topK && SortedDesc(top) && forall i :: 0 <= i < |top| ==> top[i].key in byId
  {
    var ranked := Preferences.Ranked(byId, candidates, prefs, true);
    Preferences.RankedOrder(byId, candidates, prefs, true);
    Preferences.RankedKeysKnown(byId, candidates, prefs, true);
    PrefixKeepsOrder(ranked, topK);
  }

  /** Enriching a ranking keeps its order, and each entry carries the fields of the movie its key names. */
  lemma RankedListFacts(byId: map<int, Movie>, top: seq<Scored>)
    requires SortedDesc(top) && forall i :: 0 <= i < |top| ==> top[i].key in byId
    requires forall id :: id in byId ==> byId[id].movieId == id
    ensures var r := Preferences.EnrichedList(byId, top);
            (forall i, j :: 0 <= i < j < |r| ==> r[i].score >= r[j].score) &&
            forall i :: 0 <= i < |r| ==> (r[i].movieId == top[i].key && byId[top[i].key] == MovieOf(r[i]))
  {
    var r := Preferences.EnrichedList(byId, top);
    forall i | 0 <= i < |r|
      ensures r[i].score == top[i].score && byId[top[i].key] == MovieOf(r[i])
    {
      var m := byId[top[i].key];
      assert r[i] == Preferences.Enrich(m, top[i].score);
      assert MovieOf(r[i]) == Movie(m.movieId, m.title, m.genres, m.overview, m.language, m.rating, m.metadata);
    }
  }

  function Min(a: int, b: int): int {
    if a <= b then a else b
  }

  class MovieRecommender {
    const movies: seq<Movie>
    const featureBuilder: Features.FeatureBuilder
    const similarityEngine: Similarity.SimilarityEngine
    const preferenceEngine: Preferences.PreferenceEngine

    /** The components were built from `movies`, as `_initialize` builds them. */
    ghost predicate Valid()
      reads featureBuilder
    {
      && featureBuilder.movieIdToIndex == Features.IdToIndex(movies)
      && featureBuilder.indexToMovieId == Features.IndexToId(movies)
      && similarityEngine.Valid()
      && similarityEngine.nItems == |movies|
      && preferenceEngine.moviesById == Preferences.ById(movies)
    }

    /**
     * `__init__` and `_initialize` without the cache: the loaded movies, the TF-IDF and
     * genre blocks the encoders produce for them, and the row similarity.
     */
    constructor(movies: seq<Movie>, textFeatures: Features.Block, genreFeatures: Features.Block,
                cosine: (seq<real>, seq<real>) -> real)
      requires Features.Shaped(textFeatures, |movies|) && Features.Shaped(genreFeatures, |movies|)
      ensures Valid() && this.movies == movies && fresh(featureBuilder)
      ensures similarityEngine.cosine == cosine
      ensures forall i :: 0 <= i < |movies| ==>
        similarityEngine.featureMatrix[i] == textFeatures.rows[i] + genreFeatures.rows[i] + [movies[i].rating / 10.0]
    {
      this.movies := movies;
      var builder := new Features.FeatureBuilder(5000, (1, 2), 1);
      var featureMatrix := builder.BuildFeatures(movies, true, true, textFeatures, genreFeatures);
      featureBuilder := builder;
      similarityEngine := new Similarity.SimilarityEngine(featureMatrix.rows, cosine);
      preferenceEngine := new Preferences.PreferenceEngine(movies);
    }

    /**
     * `find_movie_by_title`: a linear search for an exact match, then, when `fuzzy` is set,
     * a second linear search for a title containing the query.
     */
    method FindMovieByTitle(title: string, fuzzy: bool) returns (r: Option<Movie>)
      ensures r == FindByTitle(movies, title, fuzzy)
    {
      var titleLower := Lower(title);
      var exact := SearchTitles(titleLower, true);
      if exact.Some? {
        return Some(movies[exact.value]);
      }
      if fuzzy {
        var partial := SearchTitles(titleLower, false);
        if partial.Some? {
          return Some(movies[partial.value]);
        }
      }
      return None;
    }

    /** One of the two loops of `find_movie_by_title`: it returns at the first matching title. */
    method SearchTitles(titleLower: string, exact: bool) returns (r: Option<nat>)
      ensures r == FirstMatch(movies, titleLower, exact)
    {
      for i := 0 to |movies|
        invariant forall j :: 0 <= j < i ==> !TitleMatches(movies[j], titleLower, exact)
      {
        var title := Lower(movies[i].title);
        if (if exact then title == titleLower else Contains(title, titleLower)) {
          FirstMatchAt(movies, titleLower, exact, i);
          return Some(i);
        }
      }
      return None;
    }

    /** `find_similar_items(query_idx, top_k=top_k * 2)`: row indices with their similarity. */
    function SimilarRows(idx: nat, topK: int): (r: seq<Scored>)
      reads featureBuilder
      requires Valid() && idx < |movies|
      ensures forall i :: 0 <= i < |r| ==> 0 <= r[i].key < |movies| && r[i].key != idx
    {
      var row := similarityEngine.Similarities(idx);
      Similarity.SimilarItemsDistinct(row, idx, topK * 2, true);
      Similarity.SimilarItemsExcludeSelf(row, idx, topK * 2);
      var r := Similarity.SimilarItems(row, idx, topK * 2, true);
      assert forall i :: 0 <= i < |r| ==> r[i] in r;
      r
    }

    /** The candidate list: each similar row replaced by the id of its movie. */
    function CandidatesFor(idx: nat, topK: int): seq<Scored>
      reads featureBuilder
      requires Valid() && idx < |movies|
    {
      MovieIdsOf(SimilarRows(idx, topK), movies)
    }

    /**
     * Each candidate names the movie of some row other than the query's, and carries that
     * row's `get_similarity_score` with the query row.
     */
    lemma CandidateFromRow(idx: nat, topK: int, i: nat)
      requires Valid() && idx < |movies| && i < |CandidatesFor(idx, topK)|
      ensures exists k :: 0 <= k < |movies| && k != idx && CandidatesFor(idx, topK)[i].key == movies[k].movieId &&
                          similarityEngine.GetSimilarityScore(idx, k) == Ok(CandidatesFor(idx, topK)[i].score)
    {
      var similar := SimilarRows(idx, topK);
      var s := similar[i];
      assert s in Similarity.SimilarItems(similarityEngine.Similarities(idx), idx, topK * 2, true);
      similarityEngine.FoundScoresAgree(idx, topK * 2, true, s);
      assert CandidatesFor(idx, topK)[i] == Scored(movies[s.key].movieId, s.score);
    }

    /**
     * What `get_recommendations` returns: [] for an unknown title or an id missing from
     * the feature index; otherwise the query row's candidates, re-ranked by the preferences
     * when there are any, else the first `top_k` of them with their raw similarity.
     */
    ghost function Recommendations(title: string, prefs: Option<Preferences.UserPreferences>, topK: int): seq<Preferences.Recommendation>
      reads featureBuilder
      requires Valid()
    {
      match FindByTitle(movies, title, true)
      case None => []
      case Some(query) =>
        match featureBuilder.GetMovieIndex(query.movieId)
        case Err(_) => []
        case Ok(idx) => RowRecommendations(idx, prefs, topK)
    }

    /** The recommendations for the movie in row `idx`, once the title and the row are resolved. */
    ghost function RowRecommendations(idx: nat, prefs: Option<Preferences.UserPreferences>, topK: int): seq<Preferences.Recommendation>
      reads featureBuilder
      requires Valid() && idx < |movies|
    {
      var candidates := CandidatesFor(idx, topK);
      match prefs
      case None =>
        CandidatesKnown(idx, topK);
        PlainList(movies, PyPrefix(candidates, topK))
      case Some(p) =>
        var ranked := Preferences.Ranked(Preferences.ById(movies), candidates, p, true);
        Preferences.RankedKeysKnown(Preferences.ById(movies), candidates, p, true);
        Preferences.EnrichedList(Preferences.ById(movies), PyPrefix(ranked, topK))
    }

    /** `get_recommendations`. */
    method GetRecommendations(movieTitle: string, prefs: Option<Preferences.UserPreferences>, topK: int)
      returns (r: seq<Preferences.Recommendation>)
      requires Valid()
      ensures r == Recommendations(movieTitle, prefs, topK)
    {
      var queryMovie := FindMovieByTitle(movieTitle, true);
      if queryMovie.None? {
        return [];
      }
      var queryIdx := featureBuilder.GetMovieIndex(queryMovie.value.movieId);
      if queryIdx.Err? {
        return [];
      }
      r := RecommendFromRow(queryIdx.value, prefs, topK);
    }

    /** The part of `get_recommendations` after the query row is known. */
    method RecommendFromRow(idx: nat, prefs: Option<Preferences.UserPreferences>, topK: int)
      returns (r: seq<Preferences.Recommendation>)
      requires Valid() && idx < |movies|
      ensures r == RowRecommendations(idx, prefs, topK)
    {
      var similarIndices := similarityEngine.FindSimilarItems(idx, topK * 2, true);
      var similar := similarIndices.value;
      assert similar == SimilarRows(idx, topK);
      ToMovieIdsAgree(similar, movies);
      var candidates := ToMovieIds(similar, featureBuilder.indexToMovieId);
      if prefs.Some? {
        r := preferenceEngine.FilterAndRank(candidates, prefs.value, topK);
      } else {
        CandidatesKnown(idx, topK);
        r := EnrichCandidates(PyPrefix(candidates, topK));
      }
    }

    /** The no-preference loop: every candidate id is looked up among the movies. */
    method EnrichCandidates(top: seq<Scored>) returns (r: seq<Preferences.Recommendation>)
      requires forall i :: 0 <= i < |top| ==> FindById(movies, top[i].key).Some?
      ensures r == PlainList(movies, top)
    {
      r := [];
      for n := 0 to |top|
        invariant r == PlainList(movies, top[..n])
      {
        var movie := FindById(movies, top[n].key);
        r := r + [Preferences.Enrich(movie.value, top[n].score)];
      }
      assert top[..|top|] == top;
    }

    /** Every candidate id belongs to a movie. */
    lemma CandidatesKnown(idx: nat, topK: int)
      requires Valid() && idx < |movies|
      ensures forall i :: 0 <= i < |PyPrefix(CandidatesFor(idx, topK), topK)| ==>
        FindById(movies, PyPrefix(CandidatesFor(idx, topK), topK)[i].key).Some?
    {
      var similar := SimilarRows(idx, topK);
      var c := CandidatesFor(idx, topK);
      var top := PyPrefix(c, topK);
      forall i | 0 <= i < |top|
        ensures FindById(movies, top[i].key).Some?
      {
        assert top[i] == c[i];
        assert movies[similar[i].key].movieId == top[i].key;
      }
    }

    /** `get_recommendations_by_id`: [] for an unknown id, else the request by that movie's title. */
    method GetRecommendationsById(movieId: int, prefs: Option<Preferences.UserPreferences>, topK: int)
      returns (r: seq<Preferences.Recommendation>)
      requires Valid()
      ensures FindById(movies, movieId).None? ==> r == []
      ensures FindById(movies, movieId).Some? ==> r == Recommendations(FindById(movies, movieId).value.title, prefs, topK)
    {
      var movie := FindById(movies, movieId);
      if movie.None? {
        return [];
      }
      r := GetRecommendations(movie.value.title, prefs, topK);
    }

    /**
     * The id request goes through the title: the query movie is the first one whose
     * title matches the title of the first movie with that id, which may be an earlier
     * movie carrying the same title.
     */
    lemma ByIdQueriesFirstSameTitle(movieId: int)
      requires FindById(movies, movieId).Some?
      ensures var m := FindById(movies, movieId).value;
              exists i :: (0 <= i < |movies| && FindByTitle(movies, m.title, true) == Some(movies[i]) &&
                           Lower(movies[i].title) == Lower(m.title) &&
                           forall j :: 0 <= j < i ==> Lower(movies[j].title) != Lower(m.title))
    {
      var m := FindById(movies, movieId).value;
      var k :| 0 <= k < |movies| && movies[k] == m;
      StoredTitleIsFound(movies, k, true);
      assert TitleMatches(movies[k], Lower(m.title), true);
      var i := FirstMatch(movies, Lower(m.title), true).value;
      assert FindByTitle(movies, m.title, true) == Some(movies[i]);
    }

    /** An unknown title, or a movie missing from the feature index, gives no recommendations. */
    lemma EmptyFallbacks(title: string, prefs: Option<Preferences.UserPreferences>, topK: int)
      requires Valid()
      ensures FindByTitle(movies, title, true).None? ==> Recommendations(title, prefs, topK) == []
      ensures FindByTitle(movies, title, true).Some? &&
              FindByTitle(movies, title, true).value.movieId !in featureBuilder.movieIdToIndex ==>
              Recommendations(title, prefs, topK) == []
    {
    }

    /** For `top_k >= 0` there are min(2 * top_k, n - 1) candidates, best first, none of them the query row. */
    lemma CandidateCount(idx: nat, topK: int)
      requires Valid() && idx < |movies| && topK >= 0
      ensures |CandidatesFor(idx, topK)| == Min(2 * topK, |movies| - 1)
      ensures SortedDesc(CandidatesFor(idx, topK))
    {
      var row := similarityEngine.Similarities(idx);
      Similarity.SimilarItemsLength(row, idx, topK * 2, true);
      Similarity.SimilarItemsOrdered(row, idx, topK * 2, true);
      var c := CandidatesFor(idx, topK);
      assert forall i :: 0 <= i < |c| ==> c[i].score == SimilarRows(idx, topK)[i].score;
    }

    /** The query row of a title that is found. */
    lemma QueryRow(title: string, prefs: Option<Preferences.UserPreferences>, topK: int) returns (idx: nat)
      requires Valid() && FindByTitle(movies, title, true).Some?
      ensures idx < |movies| && movies[idx].movieId == FindByTitle(movies, title, true).value.movieId
      ensures featureBuilder.GetMovieIndex(FindByTitle(movies, title, true).value.movieId) == Ok(idx)
      ensures Recommendations(title, prefs, topK) == RowRecommendations(idx, prefs, topK)
    {
      var query := FindByTitle(movies, title, true).value;
      assert query in movies;
      idx := featureBuilder.movieIdToIndex[query.movieId];
    }

    /**
     * Without preferences: min(top_k, n - 1) results, best similarity first, each the
     * first movie with its candidate's id and the raw similarity; with distinct ids the
     * query movie is never among them.
     */
    lemma PlainRecommendations(title: string, topK: int)
      requires Valid() && topK >= 0
      requires FindByTitle(movies, title, true).Some?
      ensures var r := Recommendations(title, None, topK);
              |r| == Min(topK, |movies| - 1) &&
              (forall i, j :: 0 <= i < j < |r| ==> r[i].score >= r[j].score) &&
              forall i :: 0 <= i < |r| ==> FindById(movies, r[i].movieId) == Some(MovieOf(r[i]))
      ensures Features.DistinctIds(movies) ==>
        var r := Recommendations(title, None, topK);
        forall i :: 0 <= i < |r| ==> r[i].movieId != FindByTitle(movies, title, true).value.movieId
    {
      var idx := QueryRow(title, None, topK);
      PlainRowRecommendations(idx, topK);
    }

    /** `PlainRecommendations` for the query row `idx`. */
    lemma PlainRowRecommendations(idx: nat, topK: int)
      requires Valid() && topK >= 0 && idx < |movies|
      ensures var r := RowRecommendations(idx, None, topK);
              |r| == Min(topK, |movies| - 1) &&
              (forall i, j :: 0 <= i < j < |r| ==> r[i].score >= r[j].score) &&
              forall i :: 0 <= i < |r| ==> FindById(movies, r[i].movieId) == Some(MovieOf(r[i]))
      ensures Features.DistinctIds(movies) ==>
        var r := RowRecommendations(idx, None, topK);
        forall i :: 0 <= i < |r| ==> r[i].movieId != movies[idx].movieId
    {
      CandidateCount(idx, topK);
      var c := CandidatesFor(idx, topK);
      var top := PyPrefix(c, topK);
      CandidatesKnown(idx, topK);
      var r := RowRecommendations(idx, None, topK);
      assert r == PlainList(movies, top);
      assert forall i :: 0 <= i < |r| ==> r[i].score == top[i].score == c[i].score;
      if Features.DistinctIds(movies) {
        forall i | 0 <= i < |r|
          ensures r[i].movieId != movies[idx].movieId
        {
          var k := SimilarRows(idx, topK)[i].key;
          assert r[i].movieId == top[i].key == c[i].key == movies[k].movieId;
        }
      }
    }

    /** A preference result list: non-increasing in score, each entry carrying the fields of a known movie. */
    ghost predicate RankedResults(r: seq<Preferences.Recommendation>) {
      && (forall i, j :: 0 <= i < j < |r| ==> r[i].score >= r[j].score)
      && forall i :: 0 <= i < |r| ==> (r[i].movieId in Preferences.ById(movies) &&
                                       Preferences.ById(movies)[r[i].movieId] == MovieOf(r[i]))
    }

    /** With preferences: at most `top_k` results, in non-increasing score, each a known movie. */
    lemma PreferenceRecommendations(title: string, prefs: Preferences.UserPreferences, topK: int)
      requires Valid() && topK >= 0
      ensures |Recommendations(title, Some(prefs), topK)| <= topK
      ensures RankedResults(Recommendations(title, Some(prefs), topK))
    {
      if FindByTitle(movies, title, true).Some? {
        var idx := QueryRow(title, Some(prefs), topK);
        PreferenceRowRecommendations(idx, prefs, topK);
      }
    }

    /** `PreferenceRecommendations` for the query row `idx`. */
    lemma PreferenceRowRecommendations(idx: nat, prefs: Preferences.UserPreferences, topK: int)
      requires Valid() && topK >= 0 && idx < |movies|
      ensures |RowRecommendations(idx, Some(prefs), topK)| <= topK
      ensures RankedResults(RowRecommendations(idx, Some(prefs), topK))
    {
      var byId := Preferences.ById(movies);
      var candidates := CandidatesFor(idx, topK);
      var top := PyPrefix(Preferences.Ranked(byId, candidates, prefs, true), topK);
      RankedTop(byId, candidates, prefs, topK);
      assert RowRecommendations(idx, Some(prefs), topK) == Preferences.EnrichedList(byId, top);
      RankedListFacts(byId, top);
    }

    /** `get_available_genres`: the set of genres is gathered movie by movie, then sorted. */
    method GetAvailableGenres() returns (r: seq<string>)
      ensures StrictlySorted(r)
      ensures forall g :: g in r <==> g in GenreSet(movies)
    {
      var allGenres: set<string> := {};
      for i := 0 to |movies|
        invariant allGenres == GenreSet(movies[..i])
      {
        assert movies[..i + 1][..i] == movies[..i];
        var genres := movies[i].genres;
        allGenres := allGenres + set g | g in genres;
      }
      assert movies[..|movies|] == movies;
      var listed := ListOfSet(allGenres);
      r := SortedDistinct(listed);
    }

    /** `get_available_languages`: the distinct languages, sorted. */
    function GetAvailableLanguages(): (r: seq<string>)
      ensures StrictlySorted(r)
      ensures forall l :: l in r <==> exists i :: 0 <= i < |movies| && movies[i].language == l
    {
      var languages := seq(|movies|, i requires 0 <= i < |movies| => movies[i].language);
      forall i | 0 <= i < |movies|
        ensures movies[i].language in languages
      {
        assert languages[i] == movies[i].language;
      }
      SortedDistinct(languages)
    }
  }
}
