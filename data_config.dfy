/**
 * ingestion/data_config.py: how the columns of an arbitrary dataset are mapped onto
 * the six standard columns, the genre parsers and the rating normaliser a
 * configuration offers, the three preset profiles and the auto-detection of a
 * profile from a frame's column names.
 */
module DatasetConfig {
  import opened Wrappers
  import opened Text
  import opened Frames
  import Loader

  /** Which `_default_genre_parser` a configuration's class provides. */
  datatype GenreFormat = CommaSeparated | PipeSeparated

  /** A `DataConfig`: the six required dataset columns, the optional ones, the genre format. */
  datatype DataConfig = DataConfig(
    movieIdCol: string,
    titleCol: string,
    genresCol: string,
    overviewCol: string,
    languageCol: string,
    ratingCol: string,
    releaseDateCol: Option<string>,
    popularityCol: Option<string>,
    voteCountCol: Option<string>,
    runtimeCol: Option<string>,
    genreFormat: GenreFormat)

  /** `self.column_mapping`: standard name to dataset column, in the standard order. */
  function ColumnMapping(c: DataConfig): (m: seq<(string, string)>)
    ensures |m| == 6
    ensures forall i :: 0 <= i < 6 ==> m[i].0 == Loader.RequiredColumns[i]
  {
    [("movie_id", c.movieIdCol), ("title", c.titleCol), ("genres", c.genresCol),
     ("overview", c.overviewCol), ("language", c.languageCol), ("rating", c.ratingCol)]
  }

  const OptionalNames: seq<string> := ["release_date", "popularity", "vote_count", "runtime"]

  /** `self.optional_mapping`. */
  function OptionalMapping(c: DataConfig): (m: seq<(string, Option<string>)>)
    ensures |m| == 4
    ensures forall i :: 0 <= i < 4 ==> m[i].0 == OptionalNames[i]
  {
    [("release_date", c.releaseDateCol), ("popularity", c.popularityCol),
     ("vote_count", c.voteCountCol), ("runtime", c.runtimeCol)]
  }

  /** `get_required_columns`: the six configured columns, in the order of the standard names. */
  function GetRequiredColumns(c: DataConfig): (r: seq<string>)
    ensures r == [c.movieIdCol, c.titleCol, c.genresCol, c.overviewCol, c.languageCol, c.ratingCol]
    ensures forall i :: 0 <= i < 6 ==> (Loader.RequiredColumns[i], r[i]) == ColumnMapping(c)[i]
  {
    var m := ColumnMapping(c);
    [m[0].1, m[1].1, m[2].1, m[3].1, m[4].1, m[5].1]
  }

  /** `DataConfig(...)` given the six required columns, every other argument defaulted. */
  function WithColumns(id: string, title: string, genres: string, overview: string,
                       language: string, rating: string): (c: DataConfig)
    ensures GetRequiredColumns(c) == [id, title, genres, overview, language, rating]
    ensures OptionalMapping(c) == [("release_date", Some("release_date")), ("popularity", None),
                                   ("vote_count", None), ("runtime", None)]
    ensures c.genreFormat == CommaSeparated
  {
    DataConfig(id, title, genres, overview, language, rating, Some("release_date"), None, None, None, CommaSeparated)
  }

  /** `DataConfig()`: the loader's own column names. */
  const DefaultConfig: DataConfig := WithColumns("movie_id", "title", "genres", "overview", "language", "rating")

  const TMDBConfig: DataConfig := DataConfig(
    "id", "title", "genres", "overview", "original_language", "vote_average",
    Some("release_date"), Some("popularity"), Some("vote_count"), Some("runtime"), CommaSeparated)

  const IMDBConfig: DataConfig := DataConfig(
    "imdb_id", "title", "genres", "plot", "language", "imdb_rating",
    Some("year"), None, None, None, CommaSeparated)

  const MovieLensConfig: DataConfig := DataConfig(
    "movieId", "title", "genres", "description", "language", "rating",
    Some("release_date"), None, None, None, PipeSeparated)

  /** The default configuration maps every standard column onto itself. */
  lemma DefaultConfigIsIdentity()
    ensures forall i :: 0 <= i < 6 ==> ColumnMapping(DefaultConfig)[i] == (Loader.RequiredColumns[i], Loader.RequiredColumns[i])
  {
  }

  // ---------------------------------------------------------------- genre parsers

  const UnknownGenre: string := "Unknown"

  /**
   * The JSON branch of `_default_genre_parser` is taken: the value starts with '[' and
   * `parseJson`, which stands for the whole branch (decoding, the list and object checks
   * and the extraction of the non-empty names), yields a list (None stands for every way
   * the branch falls through: a decoding error, an empty list, a first element that is
   * not an object, a later element that raises).
   */
  predicate JsonBranch(cell: Cell, parseJson: string -> Option<seq<string>>) {
    cell.Text? && cell.text != "" && cell.text[0] == '[' && parseJson(cell.text).Some?
  }

  /**
   * `DataConfig._default_genre_parser`: ["Unknown"] for a missing or empty value, the
   * decoded names on the JSON branch, and otherwise the stripped non-empty comma fields,
   * falling back to ["Unknown"] when none remains.
   */
  function DefaultGenreParser(cell: Cell, parseJson: string -> Option<seq<string>>): (r: seq<string>)
    ensures cell == Null || cell == Text("") ==> r == [UnknownGenre]
    ensures JsonBranch(cell, parseJson) ==> r == parseJson(cell.text).value
    ensures !JsonBranch(cell, parseJson) ==>
      r != [] && forall i :: 0 <= i < |r| ==> r[i] != [] && IsStripped(r[i]) && ',' !in r[i]
  {
    match cell
    case Null => [UnknownGenre]
    case Text(s) =>
      if s == "" then [UnknownGenre]
      else if s[0] == '[' && parseJson(s).Some? then parseJson(s).value
      else
        var genres := Fields(s, ',');
        if genres != [] then genres else [UnknownGenre]
  }

  /**
   * On a plain comma list the configuration's parser and the loader's `_parse_genres`
   * agree, except that the configuration's parser never returns an empty list.
   */
  lemma DefaultParserVersusLoader(s: string, parseJson: string -> Option<seq<string>>)
    requires !JsonBranch(Text(s), parseJson)
    ensures Loader.ParseGenres(Text(s)) != [] ==> DefaultGenreParser(Text(s), parseJson) == Loader.ParseGenres(Text(s))
    ensures Loader.ParseGenres(Text(s)) == [] ==> DefaultGenreParser(Text(s), parseJson) == [UnknownGenre]
  {
  }

  /** A value of blanks and commas yields the fallback, unlike in the loader. */
  lemma DefaultParserFallback(s: string, parseJson: string -> Option<seq<string>>)
    requires s != "" && s[0] != '['
    requires forall k :: 0 <= k < |s| ==> IsSpace(s[k]) || s[k] == ','
    ensures DefaultGenreParser(Text(s), parseJson) == [UnknownGenre]
    ensures Loader.ParseGenres(Text(s)) == []
  {
    FieldsOfBlank(s, ',');
  }

  /**
   * `MovieLensConfig._default_genre_parser`: ["Unknown"] for a missing or empty value,
   * otherwise the stripped non-empty fields between '|', with no fallback.
   */
  function PipeGenreParser(cell: Cell): (r: seq<string>)
    ensures cell == Null || cell == Text("") ==> r == [UnknownGenre]
    ensures cell.Text? && cell.text != "" ==>
      forall i :: 0 <= i < |r| ==> r[i] != [] && IsStripped(r[i]) && '|' !in r[i]
  {
    match cell
    case Null => [UnknownGenre]
    case Text(s) => if s == "" then [UnknownGenre] else Fields(s, '|')
  }

  /** Genre names joined with '|' are read back: the non-blank ones, stripped, in order. */
  lemma PipeParserOfJoin(names: seq<string>)
    requires forall i :: 0 <= i < |names| ==> '|' !in names[i]
    ensures Join(names, '|') != "" ==> PipeGenreParser(Text(Join(names, '|'))) == NonEmptyStripped(names)
    ensures names != [] && (forall i :: 0 <= i < |names| ==> Strip(names[i]) != []) ==>
      PipeGenreParser(Text(Join(names, '|'))) == seq(|names|, i requires 0 <= i < |names| => Strip(names[i]))
  {
    FieldsOfJoin(names, '|');
    if names != [] && Strip(names[0]) != [] {
      assert names[0] != "";
      if |names| > 1 {
        assert Join(names, '|') == names[0] + ['|'] + Join(names[1..], '|');
      }
    }
  }


  /** A value of blanks and pipes yields no genres at all. */
  lemma PipeParserNoFallback(s: string)
    requires s != ""
    requires forall k :: 0 <= k < |s| ==> IsSpace(s[k]) || s[k] == '|'
    ensures PipeGenreParser(Text(s)) == []
  {
    FieldsOfBlank(s, '|');
  }

  /**
   * `config.genre_parser`: the parser of the configuration's class. Whatever the class,
   * a missing or empty value gives ['Unknown'].
   */
  function GenreParser(c: DataConfig, cell: Cell, parseJson: string -> Option<seq<string>>): (r: seq<string>)
    ensures cell == Null || cell == Text("") ==> r == [UnknownGenre]
  {
    match c.genreFormat
    case CommaSeparated => DefaultGenreParser(cell, parseJson)
    case PipeSeparated => PipeGenreParser(cell)
  }

  // ---------------------------------------------------------------- rating normaliser

  /** A Python float: a number or NaN. */
  datatype PyFloat = Num(x: real) | NaN

  /** `a < b`, which is false whenever one side is NaN. */
  predicate PyLess(a: PyFloat, b: PyFloat) {
    a.Num? && b.Num? && a.x < b.x
  }

  /** `min(a, b)`: `b` replaces `a` only when `b < a`. */
  function PyMin(a: PyFloat, b: PyFloat): PyFloat {
    if PyLess(b, a) then b else a
  }

  /** `max(a, b)`: `b` replaces `a` only when `b > a`. */
  function PyMax(a: PyFloat, b: PyFloat): PyFloat {
    if PyLess(a, b) then b else a
  }

  /** `float(value)`: a missing cell is NaN; a text that is not a number raises ValueError. */
  function ToFloat(cell: Cell): Result<PyFloat> {
    match cell
    case Null => Ok(NaN)
    case Text(s) =>
      match ParseNumber(s)
      case Some(x) => Ok(Num(x))
      case None => Err(ValueError("could not convert string to float"))
  }

  function Clamp(x: real): (r: real)
    ensures 0.0 <= r <= 10.0
    ensures 0.0 <= x <= 10.0 ==> r == x
    ensures x < 0.0 ==> r == 0.0
    ensures x > 10.0 ==> r == 10.0
  {
    if x < 0.0 then 0.0 else if x > 10.0 then 10.0 else x
  }

  /**
   * `_default_rating_normaliser` as written: `max(0.0, min(10.0, float(rating)))`, and
   * 0.0 when the conversion raises.
   */
  function DefaultRatingNormalizerAsWritten(cell: Cell): (r: PyFloat)
    ensures r.Num? && 0.0 <= r.x <= 10.0
    ensures ToFloat(cell).Ok? && ToFloat(cell).value.Num? ==> r == Num(Clamp(ToFloat(cell).value.x))
    ensures ToFloat(cell).Err? ==> r == Num(0.0)
  {
    match ToFloat(cell)
    case Ok(f) => PyMax(Num(0.0), PyMin(Num(10.0), f))
    case Err(_) => Num(0.0)
  }

  /** A missing rating (NaN) comes out as the highest rating, 10.0. */
  lemma MissingRatingBecomesTen()
    ensures DefaultRatingNormalizerAsWritten(Null) == Num(10.0)
  {
  }

  /**
   * The normaliser as evidently intended: a number is clamped to [0, 10] and a rating
   * that is missing or not a number becomes 0.0, as in the loader.
   */
  function DefaultRatingNormalizer(cell: Cell): (r: real)
    ensures 0.0 <= r <= 10.0
    ensures ToFloat(cell).Ok? && ToFloat(cell).value.Num? ==> r == Clamp(ToFloat(cell).value.x)
    ensures cell == Null || ToFloat(cell).Err? ==> r == 0.0
  {
    match ToFloat(cell)
    case Ok(Num(x)) => Clamp(x)
    case Ok(NaN) => 0.0
    case Err(_) => 0.0
  }

  /** The two normalisers differ on the missing rating only. */
  lemma NormalizersAgreeExceptOnMissing(cell: Cell)
    ensures cell != Null ==> DefaultRatingNormalizerAsWritten(cell) == Num(DefaultRatingNormalizer(cell))
    ensures cell == Null ==> DefaultRatingNormalizerAsWritten(cell) != Num(DefaultRatingNormalizer(cell))
  {
  }

  // ---------------------------------------------------------------- map_dataframe

  function ColumnSet(df: Frame): (s: set<string>)
    ensures forall c :: c in s <==> c in df.columns
  {
    set c | c in df.columns
  }

  predicate AllRequiredPresent(c: DataConfig, columns: set<string>) {
    forall i :: 0 <= i < 6 ==> GetRequiredColumns(c)[i] in columns
  }

  /** `mapped_df[standard] = df[column]`: a new column (or a replaced one) holding `df[column]`. */
  function AssignColumn(mapped: Frame, df: Frame, standard: string, column: string): (r: Frame)
    requires |mapped.rows| == |df.rows|
    ensures |r.rows| == |df.rows|
  {
    Frame(if standard in mapped.columns then mapped.columns else mapped.columns + [standard],
          seq(|df.rows|, i requires 0 <= i < |df.rows| => mapped.rows[i][standard := CellAt(df.rows[i], column)]))
  }

  /** The frame built by assigning the columns of `pairs` in order. */
  function Mapped(df: Frame, pairs: seq<(string, string)>): (r: Frame)
    ensures |r.rows| == |df.rows|
  {
    if pairs == [] then Frame([], seq(|df.rows|, i => map[]))
    else
      var last := pairs[|pairs| - 1];
      AssignColumn(Mapped(df, pairs[..|pairs| - 1]), df, last.0, last.1)
  }

  /** The optional columns that are configured (non-empty) and present. */
  function PresentOptional(optional: seq<(string, Option<string>)>, columns: set<string>): (r: seq<(string, string)>)
    ensures |r| <= |optional|
    ensures forall k :: 0 <= k < |r| ==> (r[k].0, Some(r[k].1)) in optional && r[k].1 != "" && r[k].1 in columns
    ensures forall j :: (0 <= j < |optional| && optional[j].1.Some? && optional[j].1.value != "" &&
                         optional[j].1.value in columns) ==> (optional[j].0, optional[j].1.value) in r
  {
    if optional == [] then []
    else
      var init := optional[..|optional| - 1];
      var last := optional[|optional| - 1];
      assert forall j :: 0 <= j < |init| ==> init[j] == optional[j];
      var prev := PresentOptional(init, columns);
      if last.1.Some? && last.1.value != "" && last.1.value in columns then prev + [(last.0, last.1.value)] else prev
  }

  /** Every column `map_dataframe` assigns, in order. */
  function MappedPairs(c: DataConfig, columns: set<string>): seq<(string, string)> {
    ColumnMapping(c) + PresentOptional(OptionalMapping(c), columns)
  }

  function RequiredMessage(column: string): string {
    "Required column '" + column + "' not found in dataset!"
  }

  /** The first required dataset column, in mapping order, that the frame lacks. */
  function FirstMissing(c: DataConfig, columns: set<string>): (r: Option<string>)
    ensures r.None? <==> AllRequiredPresent(c, columns)
    ensures r.Some? ==> r.value !in columns && r.value in GetRequiredColumns(c)
  {
    FirstAbsent(GetRequiredColumns(c), columns)
  }

  function FirstAbsent(candidates: seq<string>, columns: set<string>): (r: Option<string>)
    ensures r.None? <==> forall i :: 0 <= i < |candidates| ==> candidates[i] in columns
    ensures r.Some? ==> exists i :: (0 <= i < |candidates| && candidates[i] == r.value && r.value !in columns &&
                                     forall j :: 0 <= j < i ==> candidates[j] in columns)
  {
    if candidates == [] then None
    else if candidates[0] !in columns then Some(candidates[0])
    else
      var r := FirstAbsent(candidates[1..], columns);
      if r.Some? then
        var i :| 0 <= i < |candidates[1..]| && candidates[1..][i] == r.value && r.value !in columns &&
                 forall j :: 0 <= j < i ==> candidates[1..][j] in columns;
        assert candidates[i + 1] == r.value;
        r
      else
        assert forall i :: 1 <= i < |candidates| ==> candidates[i] == candidates[1..][i - 1];
        r
  }

  /**
   * `map_dataframe`: a ValueError naming the first missing required column; otherwise a
   * frame holding the required columns under their standard names and each optional
   * column that is configured and present.
   */
  method MapDataframe(c: DataConfig, df: Frame) returns (r: Result<Frame>)
    ensures r.Ok? <==> AllRequiredPresent(c, ColumnSet(df))
    ensures r.Err? ==> r.error == ValueError(RequiredMessage(FirstMissing(c, ColumnSet(df)).value))
    ensures r.Ok? ==> r.value == Mapped(df, MappedPairs(c, ColumnSet(df)))
  {
    var mapped := Mapped(df, []);
    var required := ColumnMapping(c);
    for k := 0 to |required|
      invariant mapped == Mapped(df, required[..k])
      invariant forall j :: 0 <= j < k ==> required[j].1 in df.columns
    {
      assert required[..k + 1][..k] == required[..k];
      var (standard, column) := required[k];
      if column !in df.columns {
        assert FirstAbsent(GetRequiredColumns(c), ColumnSet(df)) == Some(column) by {
          FirstAbsentAt(GetRequiredColumns(c), ColumnSet(df), k);
        }
        return Err(ValueError(RequiredMessage(column)));
      }
      mapped := AssignColumn(mapped, df, standard, column);
    }
    assert required[..|required|] == required;
    var optional := OptionalMapping(c);
    ghost var present: seq<(string, string)> := [];
    assert required + present == required;
    for k := 0 to |optional|
      invariant present == PresentOptional(optional[..k], ColumnSet(df))
      invariant mapped == Mapped(df, required + present)
    {
      assert optional[..k + 1][..k] == optional[..k];
      var (standard, column) := optional[k];
      if column.Some? && column.value != "" && column.value in df.columns {
        ghost var before := required + present;
        MappedSnoc(df, before, (standard, column.value));
        assert required + (present + [(standard, column.value)]) == before + [(standard, column.value)];
        mapped := AssignColumn(mapped, df, standard, column.value);
        present := present + [(standard, column.value)];
      }
    }
    assert optional[..|optional|] == optional;
    return Ok(mapped);
  }

  lemma MappedSnoc(df: Frame, pairs: seq<(string, string)>, p: (string, string))
    ensures Mapped(df, pairs + [p]) == AssignColumn(Mapped(df, pairs), df, p.0, p.1)
  {
    assert (pairs + [p])[..|pairs|] == pairs;
  }

  lemma FirstAbsentAt(candidates: seq<string>, columns: set<string>, k: nat)
    requires k < |candidates| && candidates[k] !in columns
    requires forall j :: 0 <= j < k ==> candidates[j] in columns
    ensures FirstAbsent(candidates, columns) == Some(candidates[k])
  {
    var r := FirstAbsent(candidates, columns);
    var i :| 0 <= i < |candidates| && candidates[i] == r.value && r.value !in columns &&
             forall j :: 0 <= j < i ==> candidates[j] in columns;
    assert i == k;
  }

  predicate LastWith(pairs: seq<(string, string)>, k: int) {
    0 <= k < |pairs| && forall j :: k < j < |pairs| ==> pairs[j].0 != pairs[k].0
  }

  /**
   * Every assigned name becomes a column, no other column appears, and a column holds
   * the dataset column that was assigned to it last.
   */
  lemma {:induction false} MappedProps(df: Frame, pairs: seq<(string, string)>)
    ensures forall k :: 0 <= k < |pairs| ==> pairs[k].0 in Mapped(df, pairs).columns
    ensures forall name :: name in Mapped(df, pairs).columns ==> exists k :: 0 <= k < |pairs| && pairs[k].0 == name
    ensures forall i, k :: 0 <= i < |df.rows| && LastWith(pairs, k) ==>
      pairs[k].0 in Mapped(df, pairs).rows[i] && Mapped(df, pairs).rows[i][pairs[k].0] == CellAt(df.rows[i], pairs[k].1)
  {
    if pairs != [] {
      var init := pairs[..|pairs| - 1];
      var last := pairs[|pairs| - 1];
      MappedProps(df, init);
      assert forall k :: 0 <= k < |init| ==> init[k] == pairs[k];
      var before := Mapped(df, init);
      forall i, k | 0 <= i < |df.rows| && LastWith(pairs, k)
        ensures pairs[k].0 in Mapped(df, pairs).rows[i] && Mapped(df, pairs).rows[i][pairs[k].0] == CellAt(df.rows[i], pairs[k].1)
      {
        assert Mapped(df, pairs).rows[i] == before.rows[i][last.0 := CellAt(df.rows[i], last.1)];
        if k < |init| {
          assert LastWith(init, k);
        }
      }
    }
  }

  /** The six required assignments come first; after them only optional names are assigned. */
  lemma MappedPairsShape(c: DataConfig, columns: set<string>)
    ensures |MappedPairs(c, columns)| >= 6
    ensures forall k :: 0 <= k < 6 ==> MappedPairs(c, columns)[k] == ColumnMapping(c)[k]
    ensures forall k :: 0 <= k < 6 ==> LastWith(MappedPairs(c, columns), k)
  {
    var pairs := MappedPairs(c, columns);
    var m := OptionalMapping(c);
    var present := PresentOptional(m, columns);
    forall j | 6 <= j < |pairs|
      ensures pairs[j].0 in OptionalNames
    {
      assert pairs[j] == present[j - 6];
      assert (present[j - 6].0, Some(present[j - 6].1)) in m;
    }
  }

  /** Each configured optional column that is present gets its standard name. */
  lemma MappedOptional(c: DataConfig, df: Frame, j: nat)
    requires j < 4
    requires OptionalMapping(c)[j].1.Some? && OptionalMapping(c)[j].1.value != "" && OptionalMapping(c)[j].1.value in df.columns
    ensures OptionalNames[j] in Mapped(df, MappedPairs(c, ColumnSet(df))).columns
  {
    var pairs := MappedPairs(c, ColumnSet(df));
    var m := OptionalMapping(c);
    var present := PresentOptional(m, ColumnSet(df));
    MappedProps(df, pairs);
    assert (m[j].0, m[j].1.value) in present;
    var t :| 0 <= t < |present| && present[t] == (m[j].0, m[j].1.value);
    assert pairs[6 + t] == present[t];
  }

  /**
   * A frame that `map_dataframe` accepts comes out with the loader's six columns, each
   * holding the configured dataset column, so it passes the loader's schema check; every
   * configured optional column that is present is carried over too.
   */
  lemma MapDataframeOutput(c: DataConfig, df: Frame)
    requires AllRequiredPresent(c, ColumnSet(df))
    ensures Loader.ValidateSchema(Mapped(df, MappedPairs(c, ColumnSet(df))).columns).Ok?
    ensures forall i, k :: 0 <= i < |df.rows| && 0 <= k < 6 ==>
      Loader.RequiredColumns[k] in Mapped(df, MappedPairs(c, ColumnSet(df))).rows[i] &&
      Mapped(df, MappedPairs(c, ColumnSet(df))).rows[i][Loader.RequiredColumns[k]] ==
        CellAt(df.rows[i], GetRequiredColumns(c)[k])
    ensures forall j :: (0 <= j < 4 && OptionalMapping(c)[j].1.Some? && OptionalMapping(c)[j].1.value != "" &&
                         OptionalMapping(c)[j].1.value in df.columns) ==>
      OptionalNames[j] in Mapped(df, MappedPairs(c, ColumnSet(df))).columns
  {
    var pairs := MappedPairs(c, ColumnSet(df));
    MappedProps(df, pairs);
    MappedPairsShape(c, ColumnSet(df));
    forall c0 | c0 in Loader.RequiredColumns
      ensures c0 in Mapped(df, pairs).columns
    {
      var k :| 0 <= k < 6 && Loader.RequiredColumns[k] == c0;
      assert pairs[k].0 == c0;
    }
    forall j | (0 <= j < 4 && OptionalMapping(c)[j].1.Some? && OptionalMapping(c)[j].1.value != "" &&
                OptionalMapping(c)[j].1.value in df.columns)
      ensures OptionalNames[j] in Mapped(df, pairs).columns
    {
      MappedOptional(c, df, j);
    }
  }

  // ---------------------------------------------------------------- auto-detection

  const TMDBSignature: set<string> := {"id", "title", "genres", "overview", "vote_average"}
  const IMDBSignature: set<string> := {"imdb_id", "title", "plot", "imdb_rating"}
  const MovieLensSignature: set<string> := {"movieId", "title", "genres"}

  /** The candidate dataset columns for each standard column, in the order they are tried. */
  const Candidates: seq<seq<string>> := [
    ["id", "movie_id", "movieId", "imdb_id", "tmdb_id"],
    ["title", "movie_title", "name"],
    ["genres", "genre", "categories"],
    ["overview", "description", "plot", "summary", "synopsis"],
    ["language", "original_language", "lang", "spoken_languages"],
    ["rating", "vote_average", "imdb_rating", "score", "user_rating"]
  ]

  /** The first candidate that is a column of the frame. */
  function FirstPresent(candidates: seq<string>, columns: set<string>): (r: Option<string>)
    ensures r.None? <==> forall i :: 0 <= i < |candidates| ==> candidates[i] !in columns
    ensures r.Some? ==> r.value in columns
    ensures r.Some? ==> exists i :: (0 <= i < |candidates| && candidates[i] == r.value && r.value in columns &&
                                     forall j :: 0 <= j < i ==> candidates[j] !in columns)
  {
    if candidates == [] then None
    else if candidates[0] in columns then Some(candidates[0])
    else
      var r := FirstPresent(candidates[1..], columns);
      if r.Some? then
        var i :| 0 <= i < |candidates[1..]| && candidates[1..][i] == r.value && r.value in columns &&
                 forall j :: 0 <= j < i ==> candidates[1..][j] !in columns;
        assert candidates[i + 1] == r.value;
        r
      else
        assert forall i :: 1 <= i < |candidates| ==> candidates[i] == candidates[1..][i - 1];
        r
  }

  const InferenceError: Error := ValueError("Could not auto-detect all required columns")

  /** The inference step: one column per standard name, or a ValueError when one has none. */
  function Inferred(columns: set<string>): (r: Result<DataConfig>)
    ensures r.Ok? <==> forall f :: 0 <= f < 6 ==> FirstPresent(Candidates[f], columns).Some?
    ensures r.Ok? ==> r.value.genreFormat == CommaSeparated && r.value.releaseDateCol == Some("release_date")
    ensures r.Ok? ==> forall f :: 0 <= f < 6 ==> GetRequiredColumns(r.value)[f] == FirstPresent(Candidates[f], columns).value
    ensures r.Ok? ==> AllRequiredPresent(r.value, columns)
    ensures r.Err? ==> r.error == InferenceError
  {
    if forall f :: 0 <= f < 6 ==> FirstPresent(Candidates[f], columns).Some? then
      var cols := seq(6, f requires 0 <= f < 6 => FirstPresent(Candidates[f], columns).value);
      var c := WithColumns(cols[0], cols[1], cols[2], cols[3], cols[4], cols[5]);
      assert GetRequiredColumns(c) == cols;
      Ok(c)
    else
      Err(InferenceError)
  }

  /** What `auto_detect_config` returns for a frame with these columns. */
  function Detected(columns: set<string>): Result<DataConfig> {
    if TMDBSignature <= columns then Ok(TMDBConfig)
    else if IMDBSignature <= columns then Ok(IMDBConfig)
    else if MovieLensSignature <= columns then Ok(MovieLensConfig)
    else Inferred(columns)
  }

  /**
   * A preset is chosen exactly when its signature columns are present and no earlier
   * preset's are (TMDB, then IMDB, then MovieLens); otherwise the columns are inferred.
   */
  lemma DetectionPriority(columns: set<string>)
    ensures Detected(columns) == Ok(TMDBConfig) <==> TMDBSignature <= columns
    ensures Detected(columns) == Ok(IMDBConfig) <==> !(TMDBSignature <= columns) && IMDBSignature <= columns
    ensures Detected(columns) == Ok(MovieLensConfig) <==>
      !(TMDBSignature <= columns) && !(IMDBSignature <= columns) && MovieLensSignature <= columns
    ensures !(TMDBSignature <= columns) && !(IMDBSignature <= columns) && !(MovieLensSignature <= columns) ==>
      Detected(columns) == Inferred(columns)
  {
  }

  /** An inferred configuration names only columns the frame has, so it can be mapped. */
  lemma InferredConfigMaps(columns: set<string>)
    requires !(TMDBSignature <= columns) && !(IMDBSignature <= columns) && !(MovieLensSignature <= columns)
    requires Detected(columns).Ok?
    ensures AllRequiredPresent(Detected(columns).value, columns)
  {
  }

  /** `for col in candidates: if col in columns: ...; break`. */
  method InferColumn(candidates: seq<string>, columns: set<string>) returns (found: Option<string>)
    ensures found == FirstPresent(candidates, columns)
  {
    found := None;
    var i := 0;
    while i < |candidates|
      invariant 0 <= i <= |candidates|
      invariant forall j :: 0 <= j < i ==> candidates[j] !in columns
      decreases |candidates| - i
    {
      if candidates[i] in columns {
        found := Some(candidates[i]);
        FirstPresentAt(candidates, columns, i);
        return;
      }
      i := i + 1;
    }
  }

  lemma FirstPresentAt(candidates: seq<string>, columns: set<string>, i: nat)
    requires i < |candidates| && candidates[i] in columns
    requires forall j :: 0 <= j < i ==> candidates[j] !in columns
    ensures FirstPresent(candidates, columns) == Some(candidates[i])
  {
    var r := FirstPresent(candidates, columns);
    var k :| 0 <= k < |candidates| && candidates[k] == r.value && r.value in columns &&
             forall j :: 0 <= j < k ==> candidates[j] !in columns;
    assert k == i;
  }

  /** `auto_detect_config`. */
  method AutoDetectConfig(df: Frame) returns (r: Result<DataConfig>)
    ensures r == Detected(ColumnSet(df))
  {
    var columns := ColumnSet(df);
    if TMDBSignature <= columns {
      return Ok(TMDBConfig);
    }
    if IMDBSignature <= columns {
      return Ok(IMDBConfig);
    }
    if MovieLensSignature <= columns {
      return Ok(MovieLensConfig);
    }
    var found: seq<Option<string>> := [];
    for f := 0 to 6
      invariant |found| == f
      invariant forall g :: 0 <= g < f ==> found[g] == FirstPresent(Candidates[g], columns)
    {
      var col := InferColumn(Candidates[f], columns);
      found := found + [col];
    }
    if exists g :: 0 <= g < 6 && found[g].None? {
      return Err(InferenceError);
    }
    return Ok(WithColumns(found[0].value, found[1].value, found[2].value, found[3].value, found[4].value, found[5].value));
  }

  /**
   * The MovieLens signature only asks for `movieId`, `title` and `genres`, so a frame with
   * exactly those columns is detected as MovieLens although the MovieLens profile requires
   * `description`, `language` and `rating` as well: mapping that frame always fails.
   */
  lemma MovieLensDetectedButUnmappable()
    ensures Detected({"movieId", "title", "genres"}) == Ok(MovieLensConfig)
    ensures !AllRequiredPresent(MovieLensConfig, {"movieId", "title", "genres"})
  {
    var columns: set<string> := {"movieId", "title", "genres"};
    assert "id" !in columns;
    assert "imdb_id" !in columns;
    assert GetRequiredColumns(MovieLensConfig)[3] == "description" && "description" !in columns;
  }

  /**
   * Auto-detection that accepts a preset only when the frame has every column the preset
   * requires: whatever it returns can be mapped.
   */
  function DetectedMappable(columns: set<string>): (r: Result<DataConfig>)
    ensures r.Ok? ==> AllRequiredPresent(r.value, columns)
    ensures r.Err? ==> r.error == InferenceError
  {
    if TMDBSignature <= columns && AllRequiredPresent(TMDBConfig, columns) then Ok(TMDBConfig)
    else if IMDBSignature <= columns && AllRequiredPresent(IMDBConfig, columns) then Ok(IMDBConfig)
    else if MovieLensSignature <= columns && AllRequiredPresent(MovieLensConfig, columns) then Ok(MovieLensConfig)
    else Inferred(columns)
  }

  /** Wherever the detection as written returns a configuration that can be mapped, the two agree. */
  lemma DetectedMappableAgrees(columns: set<string>)
    requires Detected(columns).Ok? && AllRequiredPresent(Detected(columns).value, columns)
    ensures DetectedMappable(columns) == Detected(columns)
  {
  }
}
