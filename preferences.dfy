/**
 * preferences/preference_engine.py: re-ranking of similarity candidates by a
 * user's preferences. Genre overlap and language add to a candidate's score,
 * a rating below the user's minimum scales it down (never below half), the
 * list is sorted by the adjusted score and optionally divided by its maximum.
 */
module Preferences {
  import opened Wrappers
  import opened Ranking
  import opened Movies

  datatype UserPreferences = UserPreferences(
    preferredGenres: set<string>,
    preferredLanguages: set<string>,
    genreWeight: real,
    languageWeight: real,
    minRating: real)

  const DefaultGenreWeight: real := 0.3
  const DefaultLanguageWeight: real := 0.2
  const DefaultMinRating: real := 0.0

  function AsSet(xs: Option<seq<string>>): (r: set<string>)
    ensures forall x :: x in r <==> xs.Some? && x in xs.value
  {
    if xs.Some? then set x | x in xs.value else {}
  }

  /** `UserPreferences(...)`: a missing (None) or empty list of genres or languages is the empty set. */
  function NewUserPreferences(
    preferredGenres: Option<seq<string>>, preferredLanguages: Option<seq<string>>,
    genreWeight: real, languageWeight: real, minRating: real): (p: UserPreferences)
    ensures forall g :: g in p.preferredGenres <==> preferredGenres.Some? && g in preferredGenres.value
    ensures forall l :: l in p.preferredLanguages <==> preferredLanguages.Some? && l in preferredLanguages.value
    ensures p.genreWeight == genreWeight && p.languageWeight == languageWeight && p.minRating == minRating
  {
    UserPreferences(AsSet(preferredGenres), AsSet(preferredLanguages), genreWeight, languageWeight, minRating)
  }

  /** The preferred genres the movie has. */
  function Overlap(movie: Movie, prefs: UserPreferences): (r: set<string>)
    ensures r <= prefs.preferredGenres
    ensures forall g :: g in r <==> g in movie.genres && g in prefs.preferredGenres
  {
    (set g | g in movie.genres) * prefs.preferredGenres
  }

  /** `_compute_genre_boost`. */
  function GenreBoost(movie: Movie, prefs: UserPreferences): (b: real)
    ensures prefs.preferredGenres == {} ==> b == 0.0
    ensures prefs.preferredGenres != {} ==>
      b == (|Overlap(movie, prefs)| as real / |prefs.preferredGenres| as real) * prefs.genreWeight
  {
    if prefs.preferredGenres == {} then 0.0
    else
      var overlap := |Overlap(movie, prefs)|;
      var maxPossible := |prefs.preferredGenres|;
      var genreMatchScore := if maxPossible > 0 then overlap as real / maxPossible as real else 0.0;
      genreMatchScore * prefs.genreWeight
  }

  /**
   * With a non-negative weight the genre boost lies in [0, weight]; with a positive
   * weight it is 0 exactly when no preferred genre matches and the whole weight
   * exactly when every preferred genre matches.
   */
  lemma GenreBoostRange(movie: Movie, prefs: UserPreferences)
    requires prefs.genreWeight >= 0.0
    ensures 0.0 <= GenreBoost(movie, prefs) <= prefs.genreWeight
    ensures prefs.genreWeight > 0.0 ==>
      (GenreBoost(movie, prefs) == 0.0 <==> Overlap(movie, prefs) == {})
    ensures prefs.genreWeight > 0.0 && prefs.preferredGenres != {} ==>
      (GenreBoost(movie, prefs) == prefs.genreWeight <==> prefs.preferredGenres <= set g | g in movie.genres)
  {
    var o := Overlap(movie, prefs);
    if prefs.preferredGenres != {} {
      var n := |prefs.preferredGenres|;
      SubsetCard(o, prefs.preferredGenres);
      var ratio := |o| as real / n as real;
      assert GenreBoost(movie, prefs) == ratio * prefs.genreWeight;
      RatioBounds(|o|, n);
      ScaleBounds(ratio, prefs.genreWeight);
      if prefs.genreWeight > 0.0 {
        if |o| == n {
          SubsetSameCard(o, prefs.preferredGenres);
        }
        if prefs.preferredGenres <= set g | g in movie.genres {
          assert o == prefs.preferredGenres;
        }
      }
    }
  }

  /** The share `k / n` of a part of size `k` in a whole of size `n`. */
  lemma RatioBounds(k: nat, n: nat)
    requires k <= n && n > 0
    ensures 0.0 <= k as real / n as real <= 1.0
    ensures k as real / n as real == 0.0 <==> k == 0
    ensures k as real / n as real == 1.0 <==> k == n
  {
    var r := k as real / n as real;
    assert r * n as real == k as real;
  }

  /** A weight scaled by a share in [0, 1]. */
  lemma ScaleBounds(ratio: real, w: real)
    requires 0.0 <= ratio <= 1.0 && w >= 0.0
    ensures 0.0 <= ratio * w <= w
    ensures w > 0.0 ==> (ratio * w == 0.0 <==> ratio == 0.0)
    ensures w > 0.0 ==> (ratio * w == w <==> ratio == 1.0)
  {
    assert w - ratio * w == (1.0 - ratio) * w;
    ProductNonneg(1.0 - ratio, w);
    ProductNonneg(ratio, w);
    if w > 0.0 && ratio * w == w {
      assert (1.0 - ratio) * w == 0.0;
    }
  }

  lemma SubsetCard(a: set<string>, b: set<string>)
    requires a <= b
    ensures |a| <= |b|
  {
    assert b == a + (b - a);
  }

  lemma SubsetSameCard(a: set<string>, b: set<string>)
    requires a <= b && |a| == |b|
    ensures a == b
  {
    assert b == a + (b - a);
    assert |b - a| == 0;
  }

  /** `_compute_language_boost`: the language weight exactly when the language is preferred. */
  function LanguageBoost(movie: Movie, prefs: UserPreferences): (b: real)
    ensures movie.language in prefs.preferredLanguages ==> b == prefs.languageWeight
    ensures movie.language !in prefs.preferredLanguages ==> b == 0.0
  {
    if prefs.preferredLanguages == {} then 0.0
    else if movie.language in prefs.preferredLanguages then prefs.languageWeight
    else 0.0
  }

  function Max(a: real, b: real): real {
    if a >= b then a else b
  }

  /** `_compute_rating_penalty`: a factor in [0.5, 1], 1 at or above the minimum rating. */
  function RatingPenalty(movie: Movie, prefs: UserPreferences): (p: real)
    ensures 0.5 <= p <= 1.0
    ensures movie.rating >= prefs.minRating ==> p == 1.0
    ensures movie.rating < prefs.minRating && prefs.minRating > 0.0 ==>
      p == Max(0.5, movie.rating / prefs.minRating)
    ensures movie.rating < prefs.minRating && prefs.minRating <= 0.0 ==> p == 1.0
  {
    if movie.rating >= prefs.minRating then 1.0
    else
      var ratio := if prefs.minRating > 0.0 then movie.rating / prefs.minRating else 1.0;
      assert prefs.minRating > 0.0 ==> ratio < 1.0 by {
        if prefs.minRating > 0.0 {
          assert movie.rating < prefs.minRating;
        }
      }
      Max(0.5, ratio)
  }

  /** `(base_score + genre_boost + language_boost) * rating_penalty`. */
  function AdjustedScore(baseScore: real, movie: Movie, prefs: UserPreferences): real
  {
    (baseScore + GenreBoost(movie, prefs) + LanguageBoost(movie, prefs)) * RatingPenalty(movie, prefs)
  }

  /**
   * The soft filter: a penalised movie keeps at least half of its boosted score
   * (when that is non-negative) and never gains from the penalty.
   */
  lemma AdjustedScoreSoft(baseScore: real, movie: Movie, prefs: UserPreferences)
    ensures var sum := baseScore + GenreBoost(movie, prefs) + LanguageBoost(movie, prefs);
            sum >= 0.0 ==> sum / 2.0 <= AdjustedScore(baseScore, movie, prefs) <= sum
    ensures movie.rating >= prefs.minRating ==>
      AdjustedScore(baseScore, movie, prefs) == baseScore + GenreBoost(movie, prefs) + LanguageBoost(movie, prefs)
  {
    var sum := baseScore + GenreBoost(movie, prefs) + LanguageBoost(movie, prefs);
    var p := RatingPenalty(movie, prefs);
    assert AdjustedScore(baseScore, movie, prefs) == sum * p;
    if sum >= 0.0 {
      assert sum * p - sum / 2.0 == sum * (p - 0.5);
      ProductNonneg(sum, p - 0.5);
      assert sum - sum * p == sum * (1.0 - p);
      ProductNonneg(sum, 1.0 - p);
    }
  }

  /** `{movie.movie_id: movie for movie in movies}`: a later movie with the same id wins. */
  function ById(movies: seq<Movie>): (m: map<int, Movie>)
    ensures forall id :: id in m <==> exists i :: 0 <= i < |movies| && movies[i].movieId == id
    ensures forall id :: id in m ==> m[id].movieId == id
  {
    if movies == [] then map[]
    else
      var init := movies[..|movies| - 1];
      var last := movies[|movies| - 1];
      assert forall i :: 0 <= i < |init| ==> init[i] == movies[i];
      ById(init)[last.movieId := last]
  }

  /** Each id maps to the last movie in the list that carries it. */
  lemma {:induction false} ByIdLastWins(movies: seq<Movie>, i: nat)
    requires i < |movies|
    requires forall j :: i < j < |movies| ==> movies[j].movieId != movies[i].movieId
    ensures ById(movies)[movies[i].movieId] == movies[i]
  {
    var init := movies[..|movies| - 1];
    if i < |movies| - 1 {
      assert forall j :: i < j < |init| ==> init[j] == movies[j];
      ByIdLastWins(init, i);
    }
  }

  /** The known candidates with their adjusted scores, in candidate order (the loop of `apply_preferences`). */
  function Adjusted(byId: map<int, Movie>, candidates: seq<Scored>, prefs: UserPreferences): (r: seq<Scored>)
    ensures |r| <= |candidates|
    ensures forall i :: 0 <= i < |r| ==> r[i].key in byId
  {
    if candidates == [] then []
    else
      var init := candidates[..|candidates| - 1];
      var last := candidates[|candidates| - 1];
      Adjusted(byId, init, prefs) +
        (if last.key in byId then [Scored(last.key, AdjustedScore(last.score, byId[last.key], prefs))] else [])
  }

  /** The candidate ids the engine knows, in candidate order. */
  function KnownKeys(byId: map<int, Movie>, candidates: seq<Scored>): (r: seq<int>)
    ensures forall i :: 0 <= i < |r| ==> r[i] in byId
  {
    if candidates == [] then []
    else
      var init := candidates[..|candidates| - 1];
      var last := candidates[|candidates| - 1];
      KnownKeys(byId, init) + (if last.key in byId then [last.key] else [])
  }

  /** One entry per known candidate, in order, each with that candidate's adjusted score. */
  lemma {:induction false} AdjustedIsKnownCandidates(byId: map<int, Movie>, candidates: seq<Scored>, prefs: UserPreferences)
    ensures Keys(Adjusted(byId, candidates, prefs)) == KnownKeys(byId, candidates)
  {
    if candidates != [] {
      var init := candidates[..|candidates| - 1];
      AdjustedIsKnownCandidates(byId, init, prefs);
      var a := Adjusted(byId, init, prefs);
      var last := candidates[|candidates| - 1];
      var tail: seq<Scored> := if last.key in byId then [Scored(last.key, AdjustedScore(last.score, byId[last.key], prefs))] else [];
      KeysAppend(a, tail);
    }
  }

  lemma KeysAppend(a: seq<Scored>, b: seq<Scored>)
    ensures Keys(a + b) == Keys(a) + Keys(b)
  {
  }

  /** `max(score for _, score in xs)`. */
  function MaxScore(xs: seq<Scored>): (m: real)
    requires xs != []
    ensures forall i :: 0 <= i < |xs| ==> xs[i].score <= m
    ensures exists i :: 0 <= i < |xs| && xs[i].score == m
  {
    if |xs| == 1 then xs[0].score
    else
      var rest := MaxScore(xs[1..]);
      assert forall i :: 1 <= i < |xs| ==> xs[i] == xs[1..][i - 1];
      if xs[0].score >= rest then xs[0].score else rest
  }

  /** `[(mid, score / m) for mid, score in xs]`. */
  function DivideScores(xs: seq<Scored>, m: real): (r: seq<Scored>)
    requires m != 0.0
    ensures |r| == |xs|
  {
    seq(|xs|, i requires 0 <= i < |xs| => Scored(xs[i].key, xs[i].score / m))
  }

  /** The list `apply_preferences` returns. */
  function Ranked(byId: map<int, Movie>, candidates: seq<Scored>, prefs: UserPreferences, normalize: bool): (r: seq<Scored>)
  {
    var sorted := SortByScore(Adjusted(byId, candidates, prefs));
    if normalize && sorted != [] && MaxScore(sorted) > 0.0 then DivideScores(sorted, MaxScore(sorted))
    else sorted
  }

  /** The entries of the ranking are those of the adjusted list, keys and all, only reordered. */
  lemma RankedIsPermutation(byId: map<int, Movie>, candidates: seq<Scored>, prefs: UserPreferences)
    ensures multiset(Ranked(byId, candidates, prefs, false)) == multiset(Adjusted(byId, candidates, prefs))
    ensures multiset(Keys(Ranked(byId, candidates, prefs, true))) == multiset(KnownKeys(byId, candidates))
  {
    var adjusted := Adjusted(byId, candidates, prefs);
    var sorted := SortByScore(adjusted);
    AdjustedIsKnownCandidates(byId, candidates, prefs);
    SortByScoreKeys(adjusted);
    var r := Ranked(byId, candidates, prefs, true);
    assert Keys(r) == Keys(sorted);
  }

  /** Every id in the ranking is one the engine knows. */
  lemma RankedKeysKnown(byId: map<int, Movie>, candidates: seq<Scored>, prefs: UserPreferences, normalize: bool)
    ensures forall i :: 0 <= i < |Ranked(byId, candidates, prefs, normalize)| ==>
              Ranked(byId, candidates, prefs, normalize)[i].key in byId
  {
    var adjusted := Adjusted(byId, candidates, prefs);
    var sorted := SortByScore(adjusted);
    forall i | 0 <= i < |sorted|
      ensures sorted[i].key in byId
    {
      assert sorted[i] in multiset(adjusted);
    }
  }

  /**
   * The ranking is non-increasing in score. With normalisation and a positive
   * maximum the order is that of the unnormalised ranking, every score is divided
   * by the maximum, and the first score is exactly 1.0; otherwise nothing is divided.
   */
  lemma RankedOrder(byId: map<int, Movie>, candidates: seq<Scored>, prefs: UserPreferences, normalize: bool)
    ensures SortedDesc(Ranked(byId, candidates, prefs, normalize))
    ensures var raw := Ranked(byId, candidates, prefs, false);
            var r := Ranked(byId, candidates, prefs, normalize);
            |r| == |raw| && Keys(r) == Keys(raw) &&
            (normalize && raw != [] && raw[0].score > 0.0 ==>
               r[0].score == 1.0 && forall i :: 0 <= i < |r| ==> r[i].score == raw[i].score / raw[0].score) &&
            (!(normalize && raw != [] && raw[0].score > 0.0) ==> r == raw)
  {
    var raw := Ranked(byId, candidates, prefs, false);
    var r := Ranked(byId, candidates, prefs, normalize);
    assert raw == SortByScore(Adjusted(byId, candidates, prefs));
    if raw != [] {
      SortedMaxIsFirst(raw);
      if normalize && raw[0].score > 0.0 {
        assert r == DivideScores(raw, raw[0].score);
        DivideKeepsOrder(raw, raw[0].score);
      } else {
        assert r == raw;
      }
    }
  }

  /** Dividing a ranking by its positive first score keeps its order and makes that score 1.0. */
  lemma DivideKeepsOrder(raw: seq<Scored>, m: real)
    requires SortedDesc(raw) && raw != [] && m == raw[0].score && m > 0.0
    ensures var r := DivideScores(raw, m);
            SortedDesc(r) && Keys(r) == Keys(raw) && r[0].score == 1.0
  {
    var r := DivideScores(raw, m);
    assert r[0].score == m / m == 1.0;
    forall i, j | 0 <= i < j < |r|
      ensures r[i].score >= r[j].score
    {
      assert raw[i].score >= raw[j].score;
      DivideMonotone(raw[j].score, raw[i].score, m);
    }
  }

  lemma DivideMonotone(a: real, b: real, m: real)
    requires m > 0.0 && a <= b
    ensures a / m <= b / m
  {
    assert b / m - a / m == (b - a) / m;
  }

  lemma SortedMaxIsFirst(xs: seq<Scored>)
    requires xs != [] && SortedDesc(xs)
    ensures MaxScore(xs) == xs[0].score
  {
  }

  /** Stability: without normalisation, equal adjusted scores keep their candidate order. */
  lemma RankedStable(byId: map<int, Movie>, candidates: seq<Scored>, prefs: UserPreferences, s: real)
    ensures WithScore(Ranked(byId, candidates, prefs, false), s) == WithScore(Adjusted(byId, candidates, prefs), s)
  {
    SortByScoreStable(Adjusted(byId, candidates, prefs), s);
  }

  /** What the scores of the sorted list are divided by: the maximum, or 1 when nothing is divided. */
  function Normalizer(byId: map<int, Movie>, candidates: seq<Scored>, prefs: UserPreferences, normalize: bool): (m: real)
    ensures m > 0.0
  {
    var sorted := SortByScore(Adjusted(byId, candidates, prefs));
    if normalize && sorted != [] && MaxScore(sorted) > 0.0 then MaxScore(sorted) else 1.0
  }

  lemma {:induction false} AdjustedEntries(byId: map<int, Movie>, candidates: seq<Scored>, prefs: UserPreferences, a: Scored)
    requires a in Adjusted(byId, candidates, prefs)
    ensures a.key in byId
    ensures exists c :: c in candidates && c.key == a.key && a.score == AdjustedScore(c.score, byId[a.key], prefs)
  {
    var init := candidates[..|candidates| - 1];
    var last := candidates[|candidates| - 1];
    if a in Adjusted(byId, init, prefs) {
      AdjustedEntries(byId, init, prefs, a);
      var c :| c in init && c.key == a.key && a.score == AdjustedScore(c.score, byId[a.key], prefs);
      assert c in candidates;
    } else {
      assert last in candidates;
    }
  }

  /**
   * Each ranked entry is a known candidate whose score is its adjusted score,
   * divided by the maximum when the list is normalised.
   */
  lemma RankedEntries(byId: map<int, Movie>, candidates: seq<Scored>, prefs: UserPreferences, normalize: bool, i: nat)
    requires i < |Ranked(byId, candidates, prefs, normalize)|
    ensures var e := Ranked(byId, candidates, prefs, normalize)[i];
            e.key in byId &&
            exists c :: c in candidates && c.key == e.key &&
              e.score == AdjustedScore(c.score, byId[e.key], prefs) / Normalizer(byId, candidates, prefs, normalize)
  {
    var adjusted := Adjusted(byId, candidates, prefs);
    var sorted := SortByScore(adjusted);
    assert sorted[i] in multiset(adjusted);
    AdjustedEntries(byId, candidates, prefs, sorted[i]);
  }

  /**
   * A full genre match outranks no match: when every candidate has the same base
   * score, no language is preferred and no known movie is below the minimum rating,
   * an entry whose movie has all preferred genres scores above one whose movie has none.
   */
  lemma GenreMatchOutranks(byId: map<int, Movie>, candidates: seq<Scored>, prefs: UserPreferences, normalize: bool,
                           base: real, i: nat, j: nat)
    requires forall c :: c in candidates ==> c.score == base
    requires prefs.preferredLanguages == {} && prefs.genreWeight > 0.0 && prefs.preferredGenres != {}
    requires forall id :: id in byId ==> byId[id].rating >= prefs.minRating
    requires i < |Ranked(byId, candidates, prefs, normalize)| && j < |Ranked(byId, candidates, prefs, normalize)|
    requires var r := Ranked(byId, candidates, prefs, normalize);
             r[i].key in byId && r[j].key in byId &&
             Overlap(byId[r[i].key], prefs) == prefs.preferredGenres && Overlap(byId[r[j].key], prefs) == {}
    ensures Ranked(byId, candidates, prefs, normalize)[i].score > Ranked(byId, candidates, prefs, normalize)[j].score
  {
    var r := Ranked(byId, candidates, prefs, normalize);
    var m := Normalizer(byId, candidates, prefs, normalize);
    RankedEntries(byId, candidates, prefs, normalize, i);
    RankedEntries(byId, candidates, prefs, normalize, j);
    var mi, mj := byId[r[i].key], byId[r[j].key];
    var ci :| ci in candidates && ci.key == r[i].key && r[i].score == AdjustedScore(ci.score, mi, prefs) / m;
    var cj :| cj in candidates && cj.key == r[j].key && r[j].score == AdjustedScore(cj.score, mj, prefs) / m;
    MatchGap(mi, mj, prefs, base, m);
  }

  lemma MatchGap(mi: Movie, mj: Movie, prefs: UserPreferences, base: real, m: real)
    requires prefs.preferredLanguages == {} && prefs.genreWeight > 0.0 && prefs.preferredGenres != {}
    requires mi.rating >= prefs.minRating && mj.rating >= prefs.minRating && m > 0.0
    requires Overlap(mi, prefs) == prefs.preferredGenres && Overlap(mj, prefs) == {}
    ensures AdjustedScore(base, mi, prefs) / m > AdjustedScore(base, mj, prefs) / m
  {
    FullMatchBoost(mi, prefs);
    NoMatchBoost(mj, prefs);
    AdjustedScoreSoft(base, mi, prefs);
    AdjustedScoreSoft(base, mj, prefs);
    DivideStrict(base, base + prefs.genreWeight, m);
  }

  lemma NoMatchBoost(movie: Movie, prefs: UserPreferences)
    requires Overlap(movie, prefs) == {}
    ensures GenreBoost(movie, prefs) == 0.0
  {
  }

  lemma DivideStrict(a: real, b: real, m: real)
    requires m > 0.0 && a < b
    ensures a / m < b / m
  {
    assert b / m - a / m == (b - a) / m;
  }

  lemma FullMatchBoost(movie: Movie, prefs: UserPreferences)
    requires prefs.preferredGenres != {} && Overlap(movie, prefs) == prefs.preferredGenres
    ensures GenreBoost(movie, prefs) == prefs.genreWeight
  {
    var n := |prefs.preferredGenres| as real;
    assert |Overlap(movie, prefs)| as real / n == 1.0;
  }

  // The fixture of the genre-boost test: two Action movies and a Drama one, all in English.
  const ExampleMovies: seq<Movie> := [
    NewMovie(1, "Action Movie", GenreList(["Action"]), "Overview", "en", 8.0, map[]),
    NewMovie(2, "Drama Movie", GenreList(["Drama"]), "Overview", "en", 7.0, map[]),
    NewMovie(3, "Action Drama", GenreList(["Action", "Drama"]), "Overview", "en", 9.0, map[])]
  const ExampleCandidates: seq<Scored> := [Scored(1, 1.0), Scored(2, 1.0), Scored(3, 1.0)]
  const ExamplePreferences: UserPreferences :=
    NewUserPreferences(Some(["Action"]), None, DefaultGenreWeight, DefaultLanguageWeight, DefaultMinRating)

  /** The test's preferences: "Action" only, no language. */
  lemma ExamplePreferencesFixture()
    ensures ExamplePreferences.preferredGenres == {"Action"} && ExamplePreferences.preferredLanguages == {}
  {
  }

  /** The test's three movies, looked up by id. */
  lemma ExampleMoviesFixture()
    ensures ById(ExampleMovies) == map[1 := ExampleMovies[0], 2 := ExampleMovies[1], 3 := ExampleMovies[2]]
    ensures ExampleMovies[0].rating >= 0.0 && ExampleMovies[1].rating >= 0.0 && ExampleMovies[2].rating >= 0.0
  {
    var ms := ExampleMovies;
    assert ms[0].movieId == 1 && ms[1].movieId == 2 && ms[2].movieId == 3;
    assert ms[..2][..1] == [ms[0]] && ms[..3][..2] == ms[..2] && ms[..3] == ms;
    assert ById([ms[0]][..0]) == map[];
    assert ById([ms[0]]) == map[1 := ms[0]];
    assert ById(ms[..2]) == map[1 := ms[0], 2 := ms[1]];
    assert ById(ms) == map[1 := ms[0], 2 := ms[1], 3 := ms[2]];
  }

  lemma ExampleFixture()
    ensures ExamplePreferences.preferredGenres == {"Action"} && ExamplePreferences.preferredLanguages == {}
    ensures forall id :: id in ById(ExampleMovies) ==> ById(ExampleMovies)[id].rating >= 0.0
    ensures forall id :: id in ById(ExampleMovies) ==> id == 1 || id == 2 || id == 3
    ensures 1 in ById(ExampleMovies) && 2 in ById(ExampleMovies) && 3 in ById(ExampleMovies)
    ensures ById(ExampleMovies)[1] == ExampleMovies[0] && ById(ExampleMovies)[2] == ExampleMovies[1]
         && ById(ExampleMovies)[3] == ExampleMovies[2]
  {
    ExamplePreferencesFixture();
    ExampleMoviesFixture();
  }

  /** With "Action" preferred and equal base scores, both Action movies outscore the Drama one. */
  lemma GenrePreferenceExample(i: nat, j: nat)
    requires i < |Ranked(ById(ExampleMovies), ExampleCandidates, ExamplePreferences, true)|
    requires j < |Ranked(ById(ExampleMovies), ExampleCandidates, ExamplePreferences, true)|
    requires var r := Ranked(ById(ExampleMovies), ExampleCandidates, ExamplePreferences, true);
             (r[i].key == 1 || r[i].key == 3) && r[j].key == 2
    ensures Ranked(ById(ExampleMovies), ExampleCandidates, ExamplePreferences, true)[i].score
          > Ranked(ById(ExampleMovies), ExampleCandidates, ExamplePreferences, true)[j].score
  {
    var byId := ById(ExampleMovies);
    ExampleFixture();
    RankedKeysKnown(byId, ExampleCandidates, ExamplePreferences, true);
    var r := Ranked(byId, ExampleCandidates, ExamplePreferences, true);
    assert Overlap(byId[r[i].key], ExamplePreferences) == {"Action"};
    assert Overlap(byId[r[j].key], ExamplePreferences) == {};
    GenreMatchOutranks(byId, ExampleCandidates, ExamplePreferences, true, 1.0, i, j);
  }

  /** One entry of `filter_and_rank`'s result. */
  datatype Recommendation = Recommendation(
    movieId: int,
    title: string,
    genres: seq<string>,
    language: string,
    rating: real,
    overview: string,
    score: real,
    metadata: map<string, MetaValue>)

  function Enrich(movie: Movie, score: real): (r: Recommendation)
    ensures r.movieId == movie.movieId && r.title == movie.title && r.genres == movie.genres
    ensures r.language == movie.language && r.rating == movie.rating && r.overview == movie.overview
    ensures r.score == score && r.metadata == movie.metadata
  {
    Recommendation(movie.movieId, movie.title, movie.genres, movie.language, movie.rating,
                   movie.overview, score, movie.metadata)
  }

  /** Each ranked entry enriched with the fields of the movie its id names. */
  function EnrichedList(byId: map<int, Movie>, top: seq<Scored>): (r: seq<Recommendation>)
    requires forall i :: 0 <= i < |top| ==> top[i].key in byId
    ensures |r| == |top|
  {
    seq(|top|, i requires 0 <= i < |top| => Enrich(byId[top[i].key], top[i].score))
  }

  class PreferenceEngine {
    const moviesById: map<int, Movie>

    constructor(movies: seq<Movie>)
      ensures moviesById == ById(movies)
    {
      moviesById := ById(movies);
    }

    /** `apply_preferences`. */
    method ApplyPreferences(candidates: seq<Scored>, prefs: UserPreferences, normalize: bool) returns (r: seq<Scored>)
      ensures r == Ranked(moviesById, candidates, prefs, normalize)
    {
      var adjustedCandidates: seq<Scored> := [];
      for n := 0 to |candidates|
        invariant adjustedCandidates == Adjusted(moviesById, candidates[..n], prefs)
      {
        ghost var seen := candidates[..n + 1];
        assert seen[..|seen| - 1] == candidates[..n] && seen[|seen| - 1] == candidates[n];
        var movieId, baseScore := candidates[n].key, candidates[n].score;
        if movieId !in moviesById {
          continue;
        }
        var movie := moviesById[movieId];
        var genreBoost := GenreBoost(movie, prefs);
        var languageBoost := LanguageBoost(movie, prefs);
        var ratingPenalty := RatingPenalty(movie, prefs);
        var adjustedScore := (baseScore + genreBoost + languageBoost) * ratingPenalty;
        assert adjustedScore == AdjustedScore(baseScore, movie, prefs);
        adjustedCandidates := adjustedCandidates + [Scored(movieId, adjustedScore)];
      }
      assert candidates[..|candidates|] == candidates;
      adjustedCandidates := SortByScore(adjustedCandidates);
      if normalize && adjustedCandidates != [] {
        var maxScore := MaxScore(adjustedCandidates);
        if maxScore > 0.0 {
          adjustedCandidates := DivideScores(adjustedCandidates, maxScore);
        }
      }
      return adjustedCandidates;
    }

    /** `filter_and_rank`: the first `top_k` of the normalised ranking, each with its movie's fields. */
    method FilterAndRank(candidates: seq<Scored>, prefs: UserPreferences, topK: int) returns (r: seq<Recommendation>)
      ensures forall i :: 0 <= i < |PyPrefix(Ranked(moviesById, candidates, prefs, true), topK)| ==>
                PyPrefix(Ranked(moviesById, candidates, prefs, true), topK)[i].key in moviesById
      ensures r == EnrichedList(moviesById, PyPrefix(Ranked(moviesById, candidates, prefs, true), topK))
    {
      var ranked := ApplyPreferences(candidates, prefs, true);
      var topResults := PyPrefix(ranked, topK);
      RankedKeysKnown(moviesById, candidates, prefs, true);
      assert forall i :: 0 <= i < |topResults| ==> topResults[i] == ranked[i];
      r := EnrichResults(topResults);
    }

    /** The loop of `filter_and_rank`: each ranked entry with the fields of its movie. */
    method EnrichResults(topResults: seq<Scored>) returns (r: seq<Recommendation>)
      requires forall i :: 0 <= i < |topResults| ==> topResults[i].key in moviesById
      ensures r == EnrichedList(moviesById, topResults)
    {
      var enrichedResults: seq<Recommendation> := [];
      for n := 0 to |topResults|
        invariant |enrichedResults| == n
        invariant forall i :: 0 <= i < n ==>
          enrichedResults[i] == Enrich(moviesById[topResults[i].key], topResults[i].score)
      {
        var movieId, score := topResults[n].key, topResults[n].score;
        var movie := moviesById[movieId];
        enrichedResults := enrichedResults + [Enrich(movie, score)];
      }
      return enrichedResults;
    }
  }
}
