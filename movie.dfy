/**
 * The canonical movie record (models/movie.py): a dataclass whose `__post_init__`
 * normalises the genres, the language and the rating before any other code sees it.
 * The record is never changed afterwards, so it is a datatype here and the
 * dataclass constructor together with `__post_init__` is the function `NewMovie`.
 */
module Movies {
  import opened Wrappers
  import opened Text

  /** The auxiliary values the loader stores in `metadata`. */
  datatype MetaValue =
    | MetaText(text: string)   // a non-null extra column, as read
    | MetaYear(year: int)      // `release_year` parsed from `release_date`
    | MetaNoYear               // `release_year` of a date that parsed as "not a time" (NaN)

  datatype Movie = Movie(
    movieId: int,
    title: string,
    genres: seq<string>,
    overview: string,
    language: string,
    rating: real,
    metadata: map<string, MetaValue>)

  /** The `genres` argument, which callers pass either as a list or as one string. */
  datatype GenresArg = GenreList(items: seq<string>) | GenreText(text: string)

  const UnknownLanguage: string := "unknown"

  /** A string argument is split on ',' into stripped non-empty names; a list is kept. */
  function NormalizeGenres(g: GenresArg): (r: seq<string>)
    ensures g.GenreList? ==> r == g.items
    ensures g.GenreText? ==> forall i :: 0 <= i < |r| ==> r[i] != [] && IsStripped(r[i]) && ',' !in r[i]
    ensures g.GenreText? ==> |r| <= |Split(g.text, ',')|
  {
    match g
    case GenreList(items) => items
    case GenreText(text) => Fields(text, ',')
  }

  /** A language is lowercased; an empty one becomes "unknown". */
  function NormalizeLanguage(language: string): (r: string)
    ensures r != []
    ensures forall i :: 0 <= i < |r| ==> !IsUpper(r[i])
    ensures language == [] ==> r == UnknownLanguage
    ensures language != [] ==> |r| == |language| && r == Lower(language)
  {
    if language != [] then Lower(language) else UnknownLanguage
  }

  /** A rating outside [0, 10] is replaced by 0.0 (not clamped); one inside is kept. */
  function NormalizeRating(rating: real): (r: real)
    ensures 0.0 <= r <= 10.0
    ensures 0.0 <= rating <= 10.0 ==> r == rating
    ensures !(0.0 <= rating <= 10.0) ==> r == 0.0
  {
    if rating < 0.0 || rating > 10.0 then 0.0 else rating
  }

  /** What `__post_init__` guarantees of every movie. */
  predicate Normalized(m: Movie) {
    && 0.0 <= m.rating <= 10.0
    && m.language != []
    && forall i :: 0 <= i < |m.language| ==> !IsUpper(m.language[i])
  }

  /** `Movie(...)`: the dataclass constructor followed by `__post_init__`. */
  function NewMovie(
    movieId: int, title: string, genres: GenresArg, overview: string,
    language: string, rating: real, metadata: map<string, MetaValue>): (m: Movie)
    ensures Normalized(m)
    ensures m.movieId == movieId && m.title == title && m.overview == overview && m.metadata == metadata
    ensures m.genres == NormalizeGenres(genres)
    ensures m.language == NormalizeLanguage(language) && m.rating == NormalizeRating(rating)
  {
    Movie(movieId, title, NormalizeGenres(genres), overview,
          NormalizeLanguage(language), NormalizeRating(rating), metadata)
  }

  /** Re-running the constructor on a normalised movie's own fields changes nothing. */
  lemma NewMovieIdempotent(m: Movie)
    requires Normalized(m)
    ensures NewMovie(m.movieId, m.title, GenreList(m.genres), m.overview, m.language, m.rating, m.metadata) == m
  {
    LowerOfLower(m.language);
  }

  /** The value of one entry of `to_dict()`. */
  datatype FieldValue =
    | IntField(i: int)
    | TextField(s: string)
    | ListField(items: seq<string>)
    | RealField(x: real)
    | MetadataField(meta: map<string, MetaValue>)

  const FieldNames: set<string> := {"movie_id", "title", "genres", "overview", "language", "rating", "metadata"}

  /** `to_dict()`: the seven fields under their attribute names. */
  function ToDict(m: Movie): (d: map<string, FieldValue>)
    ensures d.Keys == FieldNames
  {
    map[
      "movie_id" := IntField(m.movieId),
      "title" := TextField(m.title),
      "genres" := ListField(m.genres),
      "overview" := TextField(m.overview),
      "language" := TextField(m.language),
      "rating" := RealField(m.rating),
      "metadata" := MetadataField(m.metadata)]
  }

  /** `Movie(**d)`: None where Python would raise a TypeError for a missing field. */
  function FromDict(d: map<string, FieldValue>): (r: Option<Movie>)
    ensures r.Some? ==> FieldNames <= d.Keys && Normalized(r.value)
  {
    if && "movie_id" in d && d["movie_id"].IntField?
       && "title" in d && d["title"].TextField?
       && "genres" in d && d["genres"].ListField?
       && "overview" in d && d["overview"].TextField?
       && "language" in d && d["language"].TextField?
       && "rating" in d && d["rating"].RealField?
       && "metadata" in d && d["metadata"].MetadataField?
    then Some(NewMovie(d["movie_id"].i, d["title"].s, GenreList(d["genres"].items), d["overview"].s,
                       d["language"].s, d["rating"].x, d["metadata"].meta))
    else None
  }

  /** `Movie(**m.to_dict())` rebuilds the same movie. */
  lemma ToDictRoundTrip(m: Movie)
    requires Normalized(m)
    ensures FromDict(ToDict(m)) == Some(m)
  {
    NewMovieIdempotent(m);
  }

  /** A rating of 15.0 is out of range and becomes 0.0. */
  lemma OutOfRangeRatingExample()
    ensures NewMovie(1, "Test", GenreList(["Drama"]), "Test", "en", 15.0, map[]).rating == 0.0
  {
  }

  /** "Action, Drama, Sci-Fi" yields the three genres, "Action" among them. */
  lemma GenreStringExample()
    ensures NewMovie(1, "Test", GenreText("Action, Drama, Sci-Fi"), "Test", "en", 7.0, map[]).genres
            == ["Action", "Drama", "Sci-Fi"]
  {
    var names := ExampleNames;
    JoinExample();
    ExampleNamesUsable();
    FieldsOfJoin(names, ',');
    StripAction();
    StripDrama();
    StripSciFi();
    assert NonEmptyStripped(names[3..]) == [];
    assert NonEmptyStripped(names[2..]) == ["Sci-Fi"] by { assert names[2..][1..] == names[3..]; }
    assert NonEmptyStripped(names[1..]) == ["Drama", "Sci-Fi"] by { assert names[1..][1..] == names[2..]; }
    assert NonEmptyStripped(names) == ["Action", "Drama", "Sci-Fi"];
  }

  /** "Action, Drama,": the blank piece after the trailing comma is dropped. */
  lemma TrailingCommaExample()
    ensures NewMovie(1, "Test", GenreText("Action, Drama,"), "Test", "en", 7.0, map[]).genres == ["Action", "Drama"]
  {
    var names := ["Action", " Drama", ""];
    assert Join(names, ',') == "Action, Drama," by {
      assert Join(names[2..], ',') == "";
      assert Join(names[1..], ',') == " Drama,";
    }
    FieldsOfJoin(names, ',');
    StripAction();
    StripDrama();
    assert NonEmptyStripped(names[2..]) == [] by { assert AllSpace(""); }
    assert NonEmptyStripped(names[1..]) == ["Drama"];
    assert NonEmptyStripped(names) == ["Action", "Drama"];
  }

  const ExampleNames: seq<string> := ["Action", " Drama", " Sci-Fi"]

  lemma ExampleNamesUsable()
    ensures forall i :: 0 <= i < |ExampleNames| ==> ',' !in ExampleNames[i] && Strip(ExampleNames[i]) != []
  {
    StripAction();
    StripDrama();
    StripSciFi();
  }

  lemma JoinExample() ensures Join(ExampleNames, ',') == "Action, Drama, Sci-Fi" { }
  lemma StripAction() ensures Strip("Action") == "Action" { }
  lemma StripDrama() ensures Strip(" Drama") == "Drama" { }
  lemma StripSciFi() ensures Strip(" Sci-Fi") == "Sci-Fi" { }
}
