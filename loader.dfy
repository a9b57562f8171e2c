/**
 * ingestion/loader.py: the schema check, the deterministic clean-up of the raw frame
 * (defaults for missing cells, numeric coercion, first row per id, positive ids only),
 * the genre parser, the metadata of a movie and the row loop of `load`.
 * Reading the CSV file is left to the caller, who passes the frame; `pd.to_datetime`
 * is a parameter `parseDate`.
 */
module Loader {
  import opened Wrappers
  import opened Text
  import opened Movies
  import opened Frames

  const RequiredColumns: seq<string> := ["movie_id", "title", "genres", "overview", "language", "rating"]

  // ---------------------------------------------------------------- schema

  /** `_validate_schema`: a ValueError exactly when a required column is absent. */
  function ValidateSchema(columns: seq<string>): (r: Result<()>)
    ensures r.Ok? <==> forall c :: c in RequiredColumns ==> c in columns
    ensures r.Err? ==> r.error.ValueError?
  {
    var missing := set c | c in RequiredColumns && c !in columns;
    assert missing == {} <==> forall c :: c in RequiredColumns ==> c in columns by {
      if c :| c in RequiredColumns && c !in columns {
        assert c in missing;
      }
    }
    if missing != {} then Err(ValueError("Missing required columns")) else Ok(())
  }

  /** A frame holding only `movie_id` and `title` is rejected. */
  lemma TwoColumnsRejected()
    ensures ValidateSchema(["movie_id", "title"]) == Err(ValueError("Missing required columns"))
  {
    assert "genres" in RequiredColumns && "genres" !in ["movie_id", "title"];
  }

  // ---------------------------------------------------------------- cleaning

  const NoDescription: string := "No description available"
  const UnknownTitle: string := "Unknown Title"
  const UnknownGenres: string := "Unknown"

  /** `.fillna(default)` on a text column. */
  function FillText(c: Cell, default: string): string {
    match c
    case Null => default
    case Text(s) => s
  }

  /** `pd.to_numeric(..., errors='coerce')`: None is the NaN of a missing or non-numeric cell. */
  function ToNumeric(c: Cell): Option<real> {
    match c
    case Null => None
    case Text(s) => ParseNumber(s)
  }

  /** `.astype(int)` on a float: truncation toward zero. */
  function Truncate(x: real): (r: int)
    ensures 0.0 <= x ==> r as real <= x < r as real + 1.0
    ensures x < 0.0 ==> r as real - 1.0 < x <= r as real
  {
    if x >= 0.0 then x.Floor else -((-x).Floor)
  }

  /** A row after the column-wise clean-up; `cells` keeps the raw cells of the other columns. */
  datatype CleanRow = CleanRow(
    movieId: int,
    title: string,
    genres: string,
    overview: string,
    language: string,
    rating: real,
    cells: Row)

  /** The fills and coercions of `_preprocess_dataframe`, applied to one row. */
  function CleanRowOf(row: Row): (r: CleanRow)
    ensures CellAt(row, "overview") == Null ==> r.overview == NoDescription
    ensures CellAt(row, "title") == Null ==> r.title == UnknownTitle
    ensures CellAt(row, "genres") == Null ==> r.genres == UnknownGenres
    ensures CellAt(row, "language") == Null ==> r.language == UnknownLanguage
    ensures forall c :: c in ["overview", "title", "genres", "language"] && CellAt(row, c).Text? ==>
      CellAt(row, c).text == (if c == "overview" then r.overview else if c == "title" then r.title
                              else if c == "genres" then r.genres else r.language)
    ensures ToNumeric(CellAt(row, "rating")).None? ==> r.rating == 0.0
    ensures ToNumeric(CellAt(row, "rating")).Some? ==> r.rating == ToNumeric(CellAt(row, "rating")).value
    ensures ToNumeric(CellAt(row, "movie_id")).None? ==> r.movieId == 0
    ensures ToNumeric(CellAt(row, "movie_id")).Some? ==> r.movieId == Truncate(ToNumeric(CellAt(row, "movie_id")).value)
    ensures r.cells == row
  {
    var rating := ToNumeric(CellAt(row, "rating"));
    var id := ToNumeric(CellAt(row, "movie_id"));
    CleanRow(
      if id.Some? then Truncate(id.value) else 0,
      FillText(CellAt(row, "title"), UnknownTitle),
      FillText(CellAt(row, "genres"), UnknownGenres),
      FillText(CellAt(row, "overview"), NoDescription),
      FillText(CellAt(row, "language"), UnknownLanguage),
      if rating.Some? then rating.value else 0.0,
      row)
  }

  function CleanRows(rows: seq<Row>): seq<CleanRow>
  {
    seq(|rows|, i requires 0 <= i < |rows| => CleanRowOf(rows[i]))
  }

  /** The ids that occur in `rows`. */
  function IdSet(rows: seq<CleanRow>): (r: set<int>)
    ensures forall id :: id in r <==> exists j :: 0 <= j < |rows| && rows[j].movieId == id
  {
    if rows == [] then {}
    else
      var init := rows[..|rows| - 1];
      assert forall j :: 0 <= j < |init| ==> init[j] == rows[j];
      IdSet(init) + {rows[|rows| - 1].movieId}
  }

  /** The position of the first row carrying `id`. */
  function FirstIndex(rows: seq<CleanRow>, id: int): (r: nat)
    requires id in IdSet(rows)
    ensures r < |rows| && rows[r].movieId == id
    ensures forall j :: 0 <= j < r ==> rows[j].movieId != id
  {
    var init := rows[..|rows| - 1];
    assert forall j :: 0 <= j < |init| ==> init[j] == rows[j];
    if id in IdSet(init) then FirstIndex(init, id) else |rows| - 1
  }

  /** `drop_duplicates(subset=['movie_id'], keep='first')`. */
  function KeepFirst(rows: seq<CleanRow>): (r: seq<CleanRow>)
    ensures |r| <= |rows|
  {
    if rows == [] then []
    else
      var init := rows[..|rows| - 1];
      var last := rows[|rows| - 1];
      if last.movieId in IdSet(init) then KeepFirst(init) else KeepFirst(init) + [last]
  }

  /** `df[df['movie_id'] > 0]`. */
  function FilterPositive(rows: seq<CleanRow>): (r: seq<CleanRow>)
    ensures |r| <= |rows|
    ensures forall x :: x in r <==> x in rows && x.movieId > 0
  {
    if rows == [] then []
    else
      var init := rows[..|rows| - 1];
      var last := rows[|rows| - 1];
      assert rows == init + [last];
      if last.movieId > 0 then FilterPositive(init) + [last] else FilterPositive(init)
  }

  /** What `_preprocess_dataframe` returns for the rows of a frame. */
  function Preprocessed(rows: seq<Row>): seq<CleanRow> {
    FilterPositive(KeepFirst(CleanRows(rows)))
  }

  /**
   * Every row of `kept` is the first row of `rows` with its id, and the kept rows stand
   * in the order in which those first rows appear.
   */
  predicate FirstOccurrences(kept: seq<CleanRow>, rows: seq<CleanRow>) {
    && (forall k :: 0 <= k < |kept| ==>
          kept[k].movieId in IdSet(rows) && kept[k] == rows[FirstIndex(rows, kept[k].movieId)])
    && (forall k, l :: 0 <= k < l < |kept| ==>
          kept[k].movieId in IdSet(rows) && kept[l].movieId in IdSet(rows) &&
          FirstIndex(rows, kept[k].movieId) < FirstIndex(rows, kept[l].movieId))
  }

  lemma FirstOccurrencesDistinct(kept: seq<CleanRow>, rows: seq<CleanRow>)
    requires FirstOccurrences(kept, rows)
    ensures forall k, l :: 0 <= k < l < |kept| ==> kept[k].movieId != kept[l].movieId
  {
  }

  lemma IdSetSnoc(init: seq<CleanRow>, last: CleanRow)
    ensures IdSet(init + [last]) == IdSet(init) + {last.movieId}
  {
    assert (init + [last])[..|init|] == init;
  }

  /** Appending a row does not move the first row of an id already present. */
  lemma FirstIndexSnoc(init: seq<CleanRow>, last: CleanRow, id: int)
    requires id in IdSet(init)
    ensures id in IdSet(init + [last]) && FirstIndex(init + [last], id) == FirstIndex(init, id)
  {
    IdSetSnoc(init, last);
    assert (init + [last])[..|init|] == init;
  }

  lemma FirstOccurrencesSnoc(kept: seq<CleanRow>, init: seq<CleanRow>, last: CleanRow)
    requires FirstOccurrences(kept, init)
    ensures FirstOccurrences(kept, init + [last])
  {
    var rows := init + [last];
    forall k | 0 <= k < |kept|
      ensures kept[k].movieId in IdSet(rows) && FirstIndex(rows, kept[k].movieId) == FirstIndex(init, kept[k].movieId)
    {
      FirstIndexSnoc(init, last, kept[k].movieId);
    }
    assert forall j :: 0 <= j < |init| ==> rows[j] == init[j];
  }

  lemma FirstOccurrencesAppendNew(kept: seq<CleanRow>, init: seq<CleanRow>, last: CleanRow)
    requires FirstOccurrences(kept, init) && last.movieId !in IdSet(init)
    ensures FirstOccurrences(kept + [last], init + [last])
  {
    var rows := init + [last];
    var r := kept + [last];
    IdSetSnoc(init, last);
    assert FirstIndex(rows, last.movieId) == |init|;
    forall k | 0 <= k < |r|
      ensures r[k].movieId in IdSet(rows) && r[k] == rows[FirstIndex(rows, r[k].movieId)]
      ensures k < |kept| ==> FirstIndex(rows, r[k].movieId) == FirstIndex(init, kept[k].movieId) < |init|
    {
      if k < |kept| {
        assert r[k] == kept[k];
        FirstIndexSnoc(init, last, kept[k].movieId);
        assert rows[FirstIndex(init, kept[k].movieId)] == init[FirstIndex(init, kept[k].movieId)];
      }
    }
    forall k, l | 0 <= k < l < |r|
      ensures FirstIndex(rows, r[k].movieId) < FirstIndex(rows, r[l].movieId)
    {
      if l < |kept| {
        assert FirstIndex(init, kept[k].movieId) < FirstIndex(init, kept[l].movieId);
      }
    }
  }

  /** Deduplication keeps the first row of every id, in order, and loses no id. */
  lemma {:induction false} KeepFirstProps(rows: seq<CleanRow>)
    ensures FirstOccurrences(KeepFirst(rows), rows)
    ensures IdSet(KeepFirst(rows)) == IdSet(rows)
  {
    if rows != [] {
      var init := rows[..|rows| - 1];
      var last := rows[|rows| - 1];
      assert rows == init + [last];
      var prev := KeepFirst(init);
      KeepFirstProps(init);
      IdSetSnoc(init, last);
      if last.movieId in IdSet(init) {
        FirstOccurrencesSnoc(prev, init, last);
      } else {
        FirstOccurrencesAppendNew(prev, init, last);
        IdSetSnoc(prev, last);
      }
    }
  }

  lemma FirstOccurrencesInit(xs: seq<CleanRow>, rows: seq<CleanRow>)
    requires FirstOccurrences(xs, rows) && xs != []
    ensures FirstOccurrences(xs[..|xs| - 1], rows)
    ensures forall k :: 0 <= k < |xs| - 1 ==>
      FirstIndex(rows, xs[k].movieId) < FirstIndex(rows, xs[|xs| - 1].movieId)
  {
    assert forall j :: 0 <= j < |xs| - 1 ==> xs[..|xs| - 1][j] == xs[j];
  }

  lemma FirstOccurrencesAppend(kept: seq<CleanRow>, x: CleanRow, rows: seq<CleanRow>)
    requires FirstOccurrences(kept, rows)
    requires x.movieId in IdSet(rows) && x == rows[FirstIndex(rows, x.movieId)]
    requires forall k :: 0 <= k < |kept| ==> FirstIndex(rows, kept[k].movieId) < FirstIndex(rows, x.movieId)
    ensures FirstOccurrences(kept + [x], rows)
  {
    assert forall k :: 0 <= k < |kept| ==> (kept + [x])[k] == kept[k];
  }

  /** Dropping the non-positive ids keeps the remaining rows in their order. */
  lemma {:induction false} FilterPositiveProps(xs: seq<CleanRow>, rows: seq<CleanRow>)
    requires FirstOccurrences(xs, rows)
    ensures FirstOccurrences(FilterPositive(xs), rows)
  {
    if xs != [] {
      var init := xs[..|xs| - 1];
      var last := xs[|xs| - 1];
      FirstOccurrencesInit(xs, rows);
      FilterPositiveProps(init, rows);
      var prev := FilterPositive(init);
      if last.movieId > 0 {
        forall k | 0 <= k < |prev|
          ensures FirstIndex(rows, prev[k].movieId) < FirstIndex(rows, last.movieId)
        {
          assert prev[k] in init;
          var j :| 0 <= j < |init| && init[j] == prev[k];
        }
        FirstOccurrencesAppend(prev, last, rows);
      }
    }
  }

  /**
   * `_preprocess_dataframe`: the ids are positive and distinct, every row is the first
   * one with its id, the rows keep their original relative order, and every positive
   * id of the cleaned frame is still there.
   */
  lemma PreprocessedProps(rows: seq<Row>)
    ensures forall k :: 0 <= k < |Preprocessed(rows)| ==> Preprocessed(rows)[k].movieId > 0
    ensures FirstOccurrences(Preprocessed(rows), CleanRows(rows))
    ensures forall k, l :: 0 <= k < l < |Preprocessed(rows)| ==>
      Preprocessed(rows)[k].movieId != Preprocessed(rows)[l].movieId
    ensures forall id :: id > 0 && id in IdSet(CleanRows(rows)) ==> id in IdSet(Preprocessed(rows))
  {
    var c := CleanRows(rows);
    var u := KeepFirst(c);
    KeepFirstProps(c);
    FilterPositiveProps(u, c);
    FirstOccurrencesDistinct(Preprocessed(rows), c);
    forall id | id > 0 && id in IdSet(c)
      ensures id in IdSet(Preprocessed(rows))
    {
      var k :| 0 <= k < |u| && u[k].movieId == id;
      assert u[k] in FilterPositive(u);
    }
  }

  /** Rows whose ids are already distinct all survive deduplication. */
  lemma {:induction false} KeepFirstDistinct(rows: seq<CleanRow>)
    requires forall k, l :: 0 <= k < l < |rows| ==> rows[k].movieId != rows[l].movieId
    ensures KeepFirst(rows) == rows
  {
    if rows != [] {
      var init := rows[..|rows| - 1];
      assert forall j :: 0 <= j < |init| ==> init[j] == rows[j];
      KeepFirstDistinct(init);
      assert init + [rows[|rows| - 1]] == rows;
    }
  }

  lemma {:induction false} FilterPositiveAll(rows: seq<CleanRow>)
    requires forall k :: 0 <= k < |rows| ==> rows[k].movieId > 0
    ensures FilterPositive(rows) == rows
  {
    if rows != [] {
      var init := rows[..|rows| - 1];
      FilterPositiveAll(init);
      assert init + [rows[|rows| - 1]] == rows;
    }
  }

  /** Rows with distinct positive ids are all kept, in order. */
  lemma PreprocessedKeepsAll(rows: seq<Row>)
    requires forall k :: 0 <= k < |rows| ==> CleanRowOf(rows[k]).movieId > 0
    requires forall k, l :: 0 <= k < l < |rows| ==> CleanRowOf(rows[k]).movieId != CleanRowOf(rows[l]).movieId
    ensures Preprocessed(rows) == CleanRows(rows)
  {
    KeepFirstDistinct(CleanRows(rows));
    FilterPositiveAll(CleanRows(rows));
  }

  /** `_preprocess_dataframe`, column fills, then deduplication, then the id filter. */
  method PreprocessDataframe(frame: Frame) returns (df: seq<CleanRow>)
    requires ValidateSchema(frame.columns).Ok?
    ensures df == Preprocessed(frame.rows)
  {
    var cleaned := FillColumns(frame.rows);
    var unique := DropDuplicateIds(cleaned);
    df := DropNonPositiveIds(unique);
  }

  /** The column fills and conversions, row by row. */
  method FillColumns(rows: seq<Row>) returns (cleaned: seq<CleanRow>)
    ensures cleaned == CleanRows(rows)
  {
    cleaned := [];
    for i := 0 to |rows|
      invariant |cleaned| == i
      invariant forall k :: 0 <= k < i ==> cleaned[k] == CleanRowOf(rows[k])
    {
      cleaned := cleaned + [CleanRowOf(rows[i])];
    }
  }

  /** `drop_duplicates(subset=['movie_id'], keep='first')`. */
  method DropDuplicateIds(cleaned: seq<CleanRow>) returns (unique: seq<CleanRow>)
    ensures unique == KeepFirst(cleaned)
  {
    var seen: set<int> := {};
    unique := [];
    for i := 0 to |cleaned|
      invariant unique == KeepFirst(cleaned[..i])
      invariant seen == IdSet(cleaned[..i])
    {
      ghost var prefix := cleaned[..i + 1];
      assert prefix[..|prefix| - 1] == cleaned[..i] && prefix[|prefix| - 1] == cleaned[i];
      if cleaned[i].movieId !in seen {
        unique := unique + [cleaned[i]];
      }
      seen := seen + {cleaned[i].movieId};
    }
    assert cleaned[..|cleaned|] == cleaned;
  }

  /** `df[df['movie_id'] > 0]`. */
  method DropNonPositiveIds(unique: seq<CleanRow>) returns (df: seq<CleanRow>)
    ensures df == FilterPositive(unique)
  {
    df := [];
    for i := 0 to |unique|
      invariant df == FilterPositive(unique[..i])
    {
      ghost var prefix := unique[..i + 1];
      assert prefix[..|prefix| - 1] == unique[..i] && prefix[|prefix| - 1] == unique[i];
      if unique[i].movieId > 0 {
        df := df + [unique[i]];
      }
    }
    assert unique[..|unique|] == unique;
  }

  // ---------------------------------------------------------------- genres

  /**
   * `_parse_genres`: ["Unknown"] for a missing or empty value; otherwise the stripped,
   * non-empty comma fields, with no fallback when none remains.
   */
  function ParseGenres(cell: Cell): (r: seq<string>)
    ensures cell == Null || cell == Text("") ==> r == [UnknownGenres]
    ensures cell.Text? && cell.text != "" ==>
      forall i :: 0 <= i < |r| ==> r[i] != [] && IsStripped(r[i]) && ',' !in r[i]
  {
    match cell
    case Null => [UnknownGenres]
    case Text(s) => if s == "" then [UnknownGenres] else Fields(s, ',')
  }

  /** A value made of blanks and commas only yields no genres at all. */
  lemma ParseGenresNoFallback(s: string)
    requires s != ""
    requires forall k :: 0 <= k < |s| ==> IsSpace(s[k]) || s[k] == ','
    ensures ParseGenres(Text(s)) == []
  {
    FieldsOfBlank(s, ',');
  }

  /** Genre names joined with commas are read back: the non-blank ones, stripped, in order. */
  lemma ParseGenresOfJoin(names: seq<string>)
    requires forall i :: 0 <= i < |names| ==> ',' !in names[i]
    ensures Join(names, ',') != "" ==> ParseGenres(Text(Join(names, ','))) == NonEmptyStripped(names)
    ensures names != [] && (forall i :: 0 <= i < |names| ==> Strip(names[i]) != []) ==>
      ParseGenres(Text(Join(names, ','))) == seq(|names|, i requires 0 <= i < |names| => Strip(names[i]))
  {
    FieldsOfJoin(names, ',');
    if names != [] && Strip(names[0]) != [] {
      assert names[0] != "";
      if |names| > 1 {
        assert Join(names, ',') == names[0] + [','] + Join(names[1..], ',');
      }
    }
  }


  // ---------------------------------------------------------------- metadata

  /** What `pd.to_datetime(value).year` gives: a year, NaN for "not a time", or an exception. */
  datatype DateOutcome = Year(year: int) | NotATime | Unparseable

  /** A missing date converts to "not a time"; a text goes through the date parser. */
  function ReleaseYear(cell: Cell, parseDate: string -> DateOutcome): DateOutcome {
    match cell
    case Null => NotATime
    case Text(s) => parseDate(s)
  }

  /** The metadata before the extra columns are copied: at most `release_year`. */
  function DateMetadata(columns: seq<string>, row: Row, parseDate: string -> DateOutcome): (m: map<string, MetaValue>)
    ensures m.Keys <= {"release_year"}
  {
    if "release_date" in columns then
      match ReleaseYear(CellAt(row, "release_date"), parseDate)
      case Year(y) => map["release_year" := MetaYear(y)]
      case NotATime => map["release_year" := MetaNoYear]
      case Unparseable => map[]
    else map[]
  }

  predicate IsExtra(row: Row, col: string) {
    col !in RequiredColumns && CellAt(row, col).Text?
  }

  /** The loop over `row.index`: each non-required, non-null column is copied. */
  function ExtraMetadata(start: map<string, MetaValue>, columns: seq<string>, row: Row): map<string, MetaValue> {
    if columns == [] then start
    else
      var m := ExtraMetadata(start, columns[..|columns| - 1], row);
      var col := columns[|columns| - 1];
      if IsExtra(row, col) then m[col := MetaText(CellAt(row, col).text)] else m
  }

  lemma {:induction false} ExtraMetadataProps(start: map<string, MetaValue>, columns: seq<string>, row: Row)
    ensures forall k :: k in ExtraMetadata(start, columns, row) <==> k in start || (k in columns && IsExtra(row, k))
    ensures forall k :: k in columns && IsExtra(row, k) ==>
      ExtraMetadata(start, columns, row)[k] == MetaText(CellAt(row, k).text)
    ensures forall k :: k in start && !(k in columns && IsExtra(row, k)) ==>
      ExtraMetadata(start, columns, row)[k] == start[k]
  {
    if columns != [] {
      var init := columns[..|columns| - 1];
      ExtraMetadataProps(start, init, row);
      assert columns == init + [columns[|columns| - 1]];
    }
  }

  function Metadata(columns: seq<string>, row: Row, parseDate: string -> DateOutcome): map<string, MetaValue> {
    ExtraMetadata(DateMetadata(columns, row, parseDate), columns, row)
  }

  /**
   * The metadata holds every non-required column with a non-null value, as read, and
   * `release_year` when there is a `release_date` column whose value the date parser
   * does not reject (NaN for a missing date); an extra column named `release_year`
   * overrides the parsed year.
   */
  lemma MetadataProps(columns: seq<string>, row: Row, parseDate: string -> DateOutcome)
    ensures forall k :: k in Metadata(columns, row, parseDate) <==>
      (k in columns && IsExtra(row, k)) ||
      (k == "release_year" && "release_date" in columns &&
       ReleaseYear(CellAt(row, "release_date"), parseDate) != Unparseable)
    ensures forall k :: k in columns && IsExtra(row, k) ==>
      Metadata(columns, row, parseDate)[k] == MetaText(CellAt(row, k).text)
    ensures "release_date" in columns && !("release_year" in columns && IsExtra(row, "release_year")) ==>
      match ReleaseYear(CellAt(row, "release_date"), parseDate)
      case Year(y) => Metadata(columns, row, parseDate)["release_year"] == MetaYear(y)
      case NotATime => Metadata(columns, row, parseDate)["release_year"] == MetaNoYear
      case Unparseable => "release_year" !in Metadata(columns, row, parseDate)
  {
    ExtraMetadataProps(DateMetadata(columns, row, parseDate), columns, row);
  }

  // ---------------------------------------------------------------- movies

  /** `_create_movie_object` as a value. */
  function CreateMovie(columns: seq<string>, row: CleanRow, parseDate: string -> DateOutcome): (m: Movie)
    ensures Normalized(m)
    ensures m.movieId == row.movieId && m.title == row.title && m.overview == row.overview
    ensures m.genres == ParseGenres(Text(row.genres))
    ensures m.metadata == Metadata(columns, row.cells, parseDate)
    ensures m.language == NormalizeLanguage(row.language) && m.rating == NormalizeRating(row.rating)
  {
    NewMovie(row.movieId, row.title, GenreList(ParseGenres(Text(row.genres))), row.overview,
             row.language, row.rating, Metadata(columns, row.cells, parseDate))
  }

  /** `_create_movie_object`: the metadata dictionary is filled step by step. */
  method CreateMovieObject(columns: seq<string>, row: CleanRow, parseDate: string -> DateOutcome) returns (movie: Movie)
    ensures movie == CreateMovie(columns, row, parseDate)
  {
    var metadata: map<string, MetaValue> := map[];
    if "release_date" in columns {
      match ReleaseYear(CellAt(row.cells, "release_date"), parseDate)
      case Year(y) => metadata := metadata["release_year" := MetaYear(y)];
      case NotATime => metadata := metadata["release_year" := MetaNoYear];
      case Unparseable =>
    }
    ghost var start := metadata;
    assert start == DateMetadata(columns, row.cells, parseDate);
    for i := 0 to |columns|
      invariant metadata == ExtraMetadata(start, columns[..i], row.cells)
    {
      assert columns[..i + 1][..i] == columns[..i];
      var col := columns[i];
      if col !in RequiredColumns && CellAt(row.cells, col).Text? {
        metadata := metadata[col := MetaText(CellAt(row.cells, col).text)];
      }
    }
    assert columns[..|columns|] == columns;
    movie := NewMovie(row.movieId, row.title, GenreList(ParseGenres(Text(row.genres))), row.overview,
                      row.language, row.rating, metadata);
  }

  /** One movie per cleaned row, in row order. */
  function MoviesOf(columns: seq<string>, rows: seq<CleanRow>, parseDate: string -> DateOutcome): seq<Movie>
  {
    seq(|rows|, i requires 0 <= i < |rows| => CreateMovie(columns, rows[i], parseDate))
  }

  /** The movies `load` returns for a frame that passed the schema check. */
  function LoadedMovies(frame: Frame, parseDate: string -> DateOutcome): seq<Movie>
  {
    MoviesOf(frame.columns, Preprocessed(frame.rows), parseDate)
  }

  /**
   * `load`: the schema check, the clean-up and one movie per remaining row. No conversion
   * of a cleaned row can fail here, so the `except` branch that skips a row is never taken.
   */
  method Load(frame: Frame, parseDate: string -> DateOutcome) returns (r: Result<seq<Movie>>)
    ensures r.Ok? <==> ValidateSchema(frame.columns).Ok?
    ensures r.Err? ==> r.error == ValueError("Missing required columns")
    ensures r.Ok? ==> r.value == LoadedMovies(frame, parseDate)
  {
    var valid := ValidateSchema(frame.columns);
    if valid.Err? {
      return Err(valid.error);
    }
    var df := PreprocessDataframe(frame);
    var movies := CreateMovies(frame.columns, df, parseDate);
    return Ok(movies);
  }

  /** The row loop of `load`: every cleaned row becomes a movie. */
  method CreateMovies(columns: seq<string>, df: seq<CleanRow>, parseDate: string -> DateOutcome) returns (movies: seq<Movie>)
    ensures movies == MoviesOf(columns, df, parseDate)
  {
    movies := [];
    for i := 0 to |df|
      invariant |movies| == i
      invariant forall k :: 0 <= k < i ==> movies[k] == CreateMovie(columns, df[k], parseDate)
    {
      var movie := CreateMovieObject(columns, df[i], parseDate);
      movies := movies + [movie];
    }
  }

  /**
   * The loaded movies have distinct positive ids, each taken from the first row with
   * that id, in the order of those rows.
   */
  lemma LoadedMoviesIds(frame: Frame, parseDate: string -> DateOutcome)
    ensures forall i :: 0 <= i < |LoadedMovies(frame, parseDate)| ==> LoadedMovies(frame, parseDate)[i].movieId > 0
    ensures forall i, j :: 0 <= i < j < |LoadedMovies(frame, parseDate)| ==>
      LoadedMovies(frame, parseDate)[i].movieId != LoadedMovies(frame, parseDate)[j].movieId
    ensures forall i :: 0 <= i < |LoadedMovies(frame, parseDate)| ==>
      LoadedMovies(frame, parseDate)[i].movieId == Preprocessed(frame.rows)[i].movieId
  {
    PreprocessedProps(frame.rows);
  }

  /** Every row of a frame with distinct positive ids becomes a movie, in order. */
  lemma LoadKeepsEveryRow(frame: Frame, parseDate: string -> DateOutcome)
    requires forall k :: 0 <= k < |frame.rows| ==> CleanRowOf(frame.rows[k]).movieId > 0
    requires forall k, l :: 0 <= k < l < |frame.rows| ==>
      CleanRowOf(frame.rows[k]).movieId != CleanRowOf(frame.rows[l]).movieId
    ensures |LoadedMovies(frame, parseDate)| == |frame.rows|
    ensures forall i :: 0 <= i < |frame.rows| ==>
      LoadedMovies(frame, parseDate)[i] == CreateMovie(frame.columns, CleanRowOf(frame.rows[i]), parseDate)
  {
    PreprocessedKeepsAll(frame.rows);
  }

  /** The two-row file of the loader test: ids "1" and "2" give two movies. */
  lemma TwoRowFrame(a: Row, b: Row, parseDate: string -> DateOutcome)
    requires CellAt(a, "movie_id") == Text("1") && CellAt(b, "movie_id") == Text("2")
    ensures |LoadedMovies(Frame(RequiredColumns, [a, b]), parseDate)| == 2
  {
    ParseNatText(1);
    ParseNatText(2);
    assert NatText(1) == "1" && NatText(2) == "2";
    LoadKeepsEveryRow(Frame(RequiredColumns, [a, b]), parseDate);
  }
}
