# CineSense in Dafny

CineSense is a content-based movie recommender. This project models the part between "rows of movie
records" and "a ranked list of recommendations", and proves what that part promises:

- the `Movie` record and its normalisation (`models/movie.py`);
- ingestion: the loader's schema check, cleaning, de-duplication, genre parsing and metadata
  extraction (`ingestion/loader.py`), and the dataset profiles, column mapping and format
  auto-detection (`ingestion/data_config.py`);
- the feature builder's id/row maps, the rating column and the block concatenation
  (`features/feature_builder.py`);
- the similarity engine's top-k search over a similarity row, its batch form and the hybrid
  weighted combination (`similarity/similarity_engine.py`);
- the preference engine's genre boost, language boost, rating penalty, stable re-ranking,
  normalisation and top-k enrichment (`preferences/preference_engine.py`);
- the orchestrator's title search, recommendation paths and genre/language listings (`main.py`).

Modules follow the source files:

- `Wrappers` holds Option, Result and the Python exceptions as values.
- `Text` holds the string operations: `str.lower`, `str.strip`, `str.split`, `in` on strings,
  string order, and the decimal parsing of `pd.to_numeric`/`float`.
- `Ranking` holds the `(key, score)` pairs, `list.sort(key=score, reverse=True)` as a stable
  sort, and Python's `xs[:k]`.
- `Movies`, `Frames` (a raw CSV frame), `Loader`, `DatasetConfig`, `Features`, `Similarity`,
  `Preferences` and `Recommender` follow the source files.

Objects whose fields the source updates (`FeatureBuilder`) are classes with `modifies` clauses.
Engines whose fields are set once in `__init__` are classes with `const` fields.
Loops in the source are `method`s with loop invariants, each proved equal to a function that
specifies it. Floats are `real`. Where NaN matters (the rating normaliser) it is modelled explicitly.

## Model

| member | source | states |
|---|---|---|
| Movies.NormalizeGenres | models/movie.py:26-28 | a list is kept as given; a string is split on ',' and the pieces are stripped with empties dropped, so every genre is non-empty, stripped and comma-free and there are no more genres than pieces |
| Movies.NormalizeLanguage | models/movie.py:30-31 | a non-empty language becomes its lowercase form (same length, no upper-case letter left); an empty one becomes 'unknown'; the result is never empty |
| Movies.NormalizeRating | models/movie.py:33-35 | a rating outside [0, 10] is replaced by 0.0 (not clamped); an in-range rating is unchanged; the result lies in [0, 10] |
| Movies.NewMovie | models/movie.py:9-35 | the dataclass constructor with `__post_init__`: id, title, overview and metadata are as given; genres, language and rating are the normalised ones, so the result is normalised |
| Movies.NewMovieIdempotent | models/movie.py:24-35 | building a movie from an already normalised movie gives the same movie back |
| Movies.ToDict | models/movie.py:40-50 | the dictionary has exactly the seven field names |
| Movies.ToDictRoundTrip | models/movie.py:40-50 | reading the dictionary of a normalised movie back gives the same movie: every field is carried with its current value |
| Movies.OutOfRangeRatingExample | tests/test_recommender.py:53-64 | rating 15.0 becomes 0.0 |
| Movies.GenreStringExample | tests/test_recommender.py:39-51 | "Action, Drama, Sci-Fi" yields ["Action", "Drama", "Sci-Fi"] |
| Text.Lower | main.py:115 | `str.lower` keeps the length and maps each character through the lower-case map |
| Text.LowerIdempotent | main.py:115 | lowercasing twice is lowercasing once |
| Text.Strip | ingestion/loader.py:107 | `str.strip` removes every leading and trailing character for which `str.isspace` holds, ASCII and Unicode alike, and returns the middle; it is empty exactly for an all-space string |
| Text.StripIdempotent | ingestion/loader.py:107 | stripping twice is stripping once |
| Text.Split | ingestion/loader.py:107 | `str.split(sep)` gives at least one piece and no piece contains the separator |
| Text.JoinSplit | ingestion/loader.py:107 | joining the pieces of a split with the separator gives the string back |
| Text.SplitJoin | ingestion/loader.py:107 | splitting a join of separator-free parts gives the parts back |
| Text.Fields | ingestion/loader.py:107-108 | split, strip, drop empties: every field is non-empty, stripped and separator-free, and there are no more fields than pieces |
| Text.FieldsOfJoin | ingestion/loader.py:107-108 | for any separator-free names, the fields of their join are the names that are not blank, stripped, in order; when none is blank, every name stripped |
| Movies.TrailingCommaExample | models/movie.py:26-28 | "Action, Drama," yields ["Action", "Drama"]: the blank piece after the trailing comma is dropped |
| Text.FieldsOfBlank | ingestion/loader.py:107-108 | a string of only spaces and separators has no fields |
| Text.Contains | main.py:125 | `needle in hay` holds exactly when the needle is a prefix of some suffix of hay |
| Text.ContainsSelf | main.py:125 | every string contains itself |
| Text.LessTotal | main.py:233 | the string order `sorted` uses is total |
| Text.LessTransitive | main.py:233 | the string order is transitive |
| Text.SortedDistinct | main.py:233 | `sorted(set(xs))` is strictly increasing and holds exactly the elements of xs |
| Text.StrictlySortedUnique | main.py:233 | two strictly sorted lists with the same elements are equal, so the sorted listing is unique |
| Text.ParseNumber | ingestion/loader.py:79 | an unsigned decimal text parses to a non-negative number |
| Text.ParseNatText | ingestion/loader.py:82 | the decimal text of a natural number parses back to that number |
| Text.ParseIntText | similarity/similarity_engine.py:67 | the decimal text of an integer, with a minus sign when negative, parses back to that integer |
| Ranking.SortByScore | preferences/preference_engine.py:184 | `list.sort(key=score, reverse=True)` returns a permutation that is non-increasing in score |
| Ranking.SortByScoreKeys | similarity/similarity_engine.py:83 | sorting only reorders the keys |
| Ranking.SortByScoreStable | preferences/preference_engine.py:184 | stability: for every score, the entries with that score keep their input order |
| Ranking.SortByScoreThenKey | similarity/similarity_engine.py:76-83 | when keys ascend in the input (an enumerated row), the sorted list is by score descending, then key ascending |
| Ranking.InsertThenKey | similarity/similarity_engine.py:83 | inserting an entry whose key is below every key of a list ordered by score, then key, keeps that order |
| Ranking.InsertMembers | similarity/similarity_engine.py:83 | one insertion step of the stable sort adds only the inserted entry |
| Ranking.ConsThenKey | similarity/similarity_engine.py:83 | an entry ahead of every entry of an ordered list, by score then key, keeps the list ordered when put in front |
| Ranking.PyPrefix | similarity/similarity_engine.py:86 | `xs[:k]` is a prefix of xs of length min(k, len) for k >= 0 and max(len + k, 0) for k < 0 |
| Ranking.PrefixKeepsOrder | preferences/preference_engine.py:215 | a prefix of a descending list is descending |
| Similarity.Without | similarity/similarity_engine.py:79-80 | the filter never lengthens the list |
| Similarity.WithoutProps | similarity/similarity_engine.py:79-80 | the filter keeps exactly the entries whose index is not the query, and keeps ascending indices ascending |
| Similarity.Candidates | similarity/similarity_engine.py:76-80 | the candidate list has ascending indices |
| Similarity.CandidatesAre | similarity/similarity_engine.py:76-80 | the candidates are exactly the enumerated entries, minus the query's own when self is excluded |
| Similarity.SimilarItemsFromRow | similarity/similarity_engine.py:73-86 | every returned pair is a valid row index with its own similarity, and not the query when self is excluded |
| Similarity.SimilarItemsExcludeSelf | similarity/similarity_engine.py:79-80 | with exclude_self the query index never appears |
| Similarity.SimilarItemsOrdered | similarity/similarity_engine.py:76-86 | the result is non-increasing in score, and ties come in ascending index order |
| Similarity.SimilarItemsDistinct | similarity/similarity_engine.py:76-86 | returned indices are valid rows and pairwise distinct |
| Similarity.SimilarItemsLength | similarity/similarity_engine.py:76-86 | for top_k >= 0 the length is min(top_k, n - 1) with exclude_self and min(top_k, n) without |
| Similarity.ThreeRowExample | tests/test_recommender.py:132-146 | with three rows where row 1 is more similar to row 0 than row 2, top_k = 2 returns 2 items with index 1 first |
| Similarity.EnumerateScores | similarity/similarity_engine.py:76 | the list-building loop produces the enumerated row |
| Similarity.ExcludeIndex | similarity/similarity_engine.py:79-80 | the filtering loop produces the row without the query index |
| Similarity.NumpyIndex | similarity/similarity_engine.py:120-121 | a numpy row index is valid exactly in [-n, n) and a negative one counts from the end |
| Similarity.WeightedSimilarity | similarity/similarity_engine.py:179-182 | one score per row; with non-negative weights summing to 1, each combined score lies between its text and genre scores |
| Similarity.ConvexBetween | similarity/similarity_engine.py:180 | a convex combination of two scores lies between them |
| Similarity.SliceBound | similarity/similarity_engine.py:169-170 | a slice bound lies in [0, width]: a missing one takes its default, a negative one counts from the end, and one out of range is clamped |
| Similarity.Columns | similarity/similarity_engine.py:169-170 | `row[start:stop]` is the columns between the two bounds, and empty exactly when the stop bound is not after the start bound |
| Similarity.ColumnsPrefix | similarity/similarity_engine.py:169-170 | `row[:k]` is the Python prefix `xs[:k]`, also for negative k, and `row[:]` is the whole row |
| Similarity.SimilarityEngine.constructor | similarity/similarity_engine.py:25-34 | stores the feature matrix; n_items is its row count |
| Similarity.SimilarityEngine.FindSimilarItems | similarity/similarity_engine.py:49-86 | a ValueError exactly when the index is outside [0, n_items), with the message "Query index {i} out of bounds [0, {n})"; otherwise the top-k similar items of the query row |
| Similarity.SimilarityEngine.BatchFindSimilarItems | similarity/similarity_engine.py:88-107 | fails exactly when some query is out of bounds, with the error of the first such query; otherwise one result per query, the i-th equal to the single search for query i |
| Similarity.SimilarityEngine.GetSimilarityScore | similarity/similarity_engine.py:109-123 | an IndexError naming the first index outside [-n, n) (index_a before index_b); otherwise the cosine of the two rows, a negative index counting from the end |
| Similarity.SimilarityEngine.FoundScoresAgree | similarity/similarity_engine.py:73-86 | every score the search returns equals the pairwise similarity score of the two rows |
| Similarity.HybridSimilarityEngine.constructor | similarity/similarity_engine.py:132-145 | stores the matrix and the block weights, an empty map when none are given |
| Similarity.HybridSimilarityEngine.ComputeWeightedSimilarity | similarity/similarity_engine.py:147-182 | an IndexError for a query outside [-n, n); otherwise, for the row the query names (a negative index counting from the end), one combined score per row from the similarities on the text and genre column slices |
| Preferences.NewUserPreferences | preferences/preference_engine.py:24-46 | preferred genres and languages become sets (empty when None), the weights and minimum rating are kept |
| Preferences.Overlap | preferences/preference_engine.py:90-91 | the movie's genres that are preferred |
| Preferences.GenreBoost | preferences/preference_engine.py:71-97 | 0 without preferred genres, otherwise overlap size / preferred size times genre_weight |
| Preferences.RatioBounds | preferences/preference_engine.py:95 | the overlap share lies in [0, 1], is 0 exactly for no overlap and 1 exactly for a full one |
| Preferences.ScaleBounds | preferences/preference_engine.py:95-97 | a share in [0, 1] times a non-negative weight lies in [0, weight]; for a positive weight it is 0 or the weight exactly when the share is 0 or 1 |
| Preferences.GenreBoostRange | preferences/preference_engine.py:86-97 | for a non-negative weight the boost lies in [0, genre_weight]; it is 0 exactly without overlap and the full weight exactly when all preferred genres match |
| Preferences.LanguageBoost | preferences/preference_engine.py:99-120 | language_weight exactly when the movie's language is preferred, 0 otherwise (also for no preferred languages) |
| Preferences.RatingPenalty | preferences/preference_engine.py:122-143 | 1.0 at or above min_rating or when min_rating <= 0, otherwise max(0.5, rating / min_rating); always in [0.5, 1] |
| Preferences.AdjustedScoreSoft | preferences/preference_engine.py:179 | a non-negative unpenalised sum is at least halved and never increased; at or above min_rating it is unchanged |
| Preferences.ById | preferences/preference_engine.py:61-69 | the id map holds exactly the movies' ids, each mapped to a movie with that id |
| Preferences.ByIdLastWins | preferences/preference_engine.py:69 | with duplicate ids, the last movie with an id is the one stored |
| Preferences.AdjustedIsKnownCandidates | preferences/preference_engine.py:166-181 | the adjusted list is exactly the known candidates, in candidate order: unknown ids are dropped silently |
| Preferences.AdjustedEntries | preferences/preference_engine.py:166-181 | every adjusted entry comes from a candidate with the same id and carries its adjusted score |
| Preferences.MaxScore | preferences/preference_engine.py:188 | the maximum bounds every score and is attained |
| Preferences.RankedIsPermutation | preferences/preference_engine.py:184 | the ranking is a permutation of the adjusted list, and its ids are the known candidates' ids |
| Preferences.RankedKeysKnown | preferences/preference_engine.py:166-171 | every ranked id is a known movie |
| Preferences.DivideKeepsOrder | preferences/preference_engine.py:188-192 | dividing a descending ranking by its positive first score keeps its order and ids and makes the first score 1.0 |
| Preferences.RankedOrder | preferences/preference_engine.py:184-192 | the ranking is non-increasing; normalising with a positive maximum makes the first score exactly 1.0, divides all scores by it and keeps the order; otherwise the scores are untouched |
| Preferences.RankedStable | preferences/preference_engine.py:184 | candidates with equal adjusted scores keep their input order |
| Preferences.RankedEntries | preferences/preference_engine.py:166-192 | each ranked entry is a candidate's adjusted score divided by the normaliser |
| Preferences.GenreMatchOutranks | preferences/preference_engine.py:166-192 | with equal base scores and no rating penalty, a movie matching all preferred genres outscores one matching none |
| Preferences.GenrePreferenceExample | tests/test_recommender.py:160-172 | with preferred ["Action"] and equal base scores, the Action movies outscore the Drama one |
| Preferences.Enrich | preferences/preference_engine.py:222-233 | the result dict carries the movie's fields and the score |
| Preferences.PreferenceEngine.constructor | preferences/preference_engine.py:61-69 | the engine's map is the id map of the movies |
| Preferences.PreferenceEngine.ApplyPreferences | preferences/preference_engine.py:145-195 | the loop, sort and normalisation compute the ranking |
| Preferences.PreferenceEngine.FilterAndRank | preferences/preference_engine.py:197-235 | every ranked id is known, and the result is the first top_k ranked entries, each enriched with the fields of its movie |
| Preferences.PreferenceEngine.EnrichResults | preferences/preference_engine.py:221-233 | the loop builds the enriched list of the ranked entries |
| Features.RatingFeatures | features/feature_builder.py:110-125 | one column per movie; for a movie whose rating is normalised the feature lies in [0, 1] |
| Features.HStack | features/feature_builder.py:176-178 | the stacked matrix has n rows and the summed width, each row the concatenation of the block rows |
| Features.StackedComponents | features/feature_builder.py:165-178 | stacking the text block, the genre block when included and the rating column when included gives n rows of the summed width, each row the blocks' rows side by side in that order |
| Features.IdToIndex | features/feature_builder.py:134-136 | the id map holds exactly the movies' ids, each mapped to a position holding that id |
| Features.IdToIndexLast | features/feature_builder.py:134-136 | an id maps to its last position |
| Features.IdRoundTrip | features/feature_builder.py:134-139 | id to position to id gives the id back, with or without duplicates |
| Features.IndexRoundTrip | features/feature_builder.py:134-139 | with distinct ids, position to id to position gives the position back |
| Features.DuplicateIdShadowsEarlierRow | features/feature_builder.py:134-136 | with a duplicate id, the earlier position is no longer reachable from the id |
| Features.FeatureBuilder.constructor | features/feature_builder.py:30-54 | stores the vectoriser settings; no vocabulary, classes or mappings yet |
| Features.FeatureBuilder.CreateIndexMappings | features/feature_builder.py:127-140 | both maps are replaced wholesale by the maps of the new movies; nothing else changes |
| Features.FeatureBuilder.BuildFeatures | features/feature_builder.py:142-181 | the maps are rebuilt; the matrix has one row per movie, width text + genres (if included) + 1 (if ratings included), rows concatenated in that order |
| Features.FeatureBuilder.GetMovieIndex | features/feature_builder.py:183-198 | the position of a known id; for an unknown one a KeyError whose message is "Movie ID <id> not found in index", with the id in decimal |
| Features.FeatureBuilder.GetMovieId | features/feature_builder.py:200-210 | the id at a mapped position, KeyError for any other index |
| Features.FirstMovieIsRowZero | tests/test_recommender.py:120-126 | with distinct ids and movie 1 first, id 1 maps to row 0 and row 0 to id 1 |
| Loader.ValidateSchema | ingestion/loader.py:29-58 | ValueError exactly when one of the six required columns is absent |
| Loader.TwoColumnsRejected | tests/test_recommender.py:89-97 | a frame with only movie_id and title is rejected with "Missing required columns" |
| Loader.Truncate | ingestion/loader.py:82 | `astype(int)` truncates toward zero |
| Loader.CleanRowOf | ingestion/loader.py:72-82 | missing overview, title, genres and language get their defaults and present ones are kept; a missing or non-numeric rating becomes 0.0; a numeric id becomes its value truncated toward zero (`Truncate`); a missing or non-numeric id becomes 0 |
| Loader.IdSet | ingestion/loader.py:85 | exactly the ids that occur in the rows |
| Loader.FirstIndex | ingestion/loader.py:85 | the first row carrying an id |
| Loader.FilterPositive | ingestion/loader.py:88 | keeps exactly the rows with a positive id |
| Loader.KeepFirstProps | ingestion/loader.py:85 | `drop_duplicates(keep='first')` keeps each id's first row, in row order, and loses no id |
| Loader.FilterPositiveProps | ingestion/loader.py:88 | dropping non-positive ids keeps first occurrences in order |
| Loader.PreprocessedProps | ingestion/loader.py:61-91 | the preprocessed ids are positive and distinct, each row is its id's first cleaned row, rows keep their relative order, and every positive id survives |
| Loader.PreprocessedKeepsAll | ingestion/loader.py:61-91 | rows with distinct positive ids all survive unchanged apart from cleaning |
| Loader.PreprocessDataframe | ingestion/loader.py:61-91 | the column-by-column cleaning, de-duplication and filtering compute the preprocessed rows |
| Loader.FillColumns | ingestion/loader.py:72-82 | the column fills and conversions clean every row, in order |
| Loader.DropDuplicateIds | ingestion/loader.py:85 | the de-duplication loop keeps each id's first row, as `drop_duplicates(keep='first')` |
| Loader.DropNonPositiveIds | ingestion/loader.py:88 | the filter loop keeps exactly the rows with a positive id |
| Loader.ParseGenres | ingestion/loader.py:93-108 | ['Unknown'] for a missing or empty value; otherwise split on ',', stripped, empties dropped |
| Loader.ParseGenresNoFallback | ingestion/loader.py:107-108 | a non-empty string of only spaces and commas gives [] (no fallback) |
| Loader.ParseGenresOfJoin | ingestion/loader.py:107-108 | a non-empty comma join of names parses to the non-blank names, stripped, in order; with no blank name, to every name stripped |
| Loader.DateMetadata | ingestion/loader.py:121-127 | the date step adds at most release_year |
| Loader.MetadataProps | ingestion/loader.py:120-132 | metadata holds every non-required non-null column with its value, plus release_year when the date parses (with its year, or NaT's missing year) |
| Loader.CreateMovie | ingestion/loader.py:110-142 | the movie carries the cleaned row's id, title and overview, the parsed genres and the metadata, with the row's language lowercased and its rating normalised |
| Loader.CreateMovieObject | ingestion/loader.py:110-142 | the metadata loop computes the same movie |
| Loader.Load | ingestion/loader.py:144-174 | ValueError exactly when the schema check fails; otherwise the movies of the preprocessed rows |
| Loader.CreateMovies | ingestion/loader.py:163-171 | the row loop turns every cleaned row into its movie |
| Loader.LoadedMoviesIds | ingestion/loader.py:163-171 | loaded ids are positive, distinct and those of the preprocessed rows |
| Loader.LoadKeepsEveryRow | ingestion/loader.py:163-171 | rows with distinct positive ids each give one movie, in order |
| Loader.TwoRowFrame | tests/test_recommender.py:81-87 | a two-row frame with ids 1 and 2 loads two movies |
| DatasetConfig.ColumnMapping | ingestion/data_config.py:61-68 | six pairs, keyed by the standard names in order |
| DatasetConfig.GetRequiredColumns | ingestion/data_config.py:118-120 | the six configured dataset columns in the order movie_id, title, genres, overview, language, rating |
| DatasetConfig.WithColumns | ingestion/data_config.py:26-76 | the constructor's defaults: release_date configured, the other optionals not, comma genres |
| DatasetConfig.DefaultConfigIsIdentity | ingestion/data_config.py:26-68 | the default configuration maps every standard column to itself |
| DatasetConfig.DefaultGenreParser | ingestion/data_config.py:82-103 | ['Unknown'] for a missing or empty value; the JSON names when the JSON branch applies; otherwise a non-empty list of stripped, non-empty, comma-free genres |
| DatasetConfig.DefaultParserVersusLoader | ingestion/data_config.py:101-103 | outside the JSON branch it agrees with the loader's parser except that [] becomes ['Unknown'] |
| DatasetConfig.DefaultParserFallback | ingestion/data_config.py:101-103 | a string of only spaces and commas gives ['Unknown'], where the loader gives [] |
| DatasetConfig.PipeGenreParser | ingestion/data_config.py:199-203 | ['Unknown'] for a missing or empty value; otherwise stripped, non-empty, pipe-free genres |
| DatasetConfig.PipeParserOfJoin | ingestion/data_config.py:199-203 | a non-empty pipe join of names parses to the non-blank names, stripped, in order; with no blank name, to every name stripped |
| DatasetConfig.PipeParserNoFallback | ingestion/data_config.py:203 | a string of only spaces and pipes gives [] |
| DatasetConfig.GenreParser | ingestion/data_config.py:199-203 | whatever the profile's parser, a missing or empty value gives ['Unknown'] |
| DatasetConfig.Clamp | ingestion/data_config.py:114 | the result is in [0, 10], equal to x inside, 0 below and 10 above |
| DatasetConfig.DefaultRatingNormalizerAsWritten | ingestion/data_config.py:105-116 | a number is clamped to [0, 10]; a failed conversion gives 0.0 |
| DatasetConfig.MissingRatingBecomesTen | ingestion/data_config.py:111-116 | a missing rating (NaN) comes out as 10.0 |
| DatasetConfig.DefaultRatingNormalizer | ingestion/data_config.py:105-116 | corrected: a number is clamped to [0, 10], a missing or non-numeric rating gives 0.0 |
| DatasetConfig.NormalizersAgreeExceptOnMissing | ingestion/data_config.py:111-116 | the two normalisers differ exactly on the missing rating |
| DatasetConfig.FirstMissing | ingestion/data_config.py:136-138 | the first configured required column absent from the frame, none exactly when all are present |
| DatasetConfig.MapDataframe | ingestion/data_config.py:122-146 | ValueError naming the first missing column exactly when a required column is absent; otherwise the six standard columns plus the configured optional columns that are present |
| DatasetConfig.MappedProps | ingestion/data_config.py:133-146 | the mapped frame has exactly the assigned names, each holding the column assigned last under that name |
| DatasetConfig.MapDataframeOutput | ingestion/data_config.py:136-146 | the mapped frame passes the loader's schema check, each standard column holds the configured dataset column, and present optional columns are kept |
| DatasetConfig.FirstPresent | ingestion/data_config.py:242-276 | the first listed candidate that is a column, none exactly when no candidate is |
| DatasetConfig.Inferred | ingestion/data_config.py:240-285 | ValueError exactly when some field has no candidate column; otherwise each field is its first present candidate, with the constructor's defaults, and every required column is present |
| DatasetConfig.DetectionPriority | ingestion/data_config.py:220-235 | TMDB exactly when its signature is present, IMDB exactly when TMDB's is not and IMDB's is, MovieLens exactly when neither is and its own is, inference otherwise |
| DatasetConfig.InferredConfigMaps | ingestion/data_config.py:237-285 | an inferred configuration can always be mapped |
| DatasetConfig.InferColumn | ingestion/data_config.py:243-246 | the loop with `break` finds the first present candidate |
| DatasetConfig.AutoDetectConfig | ingestion/data_config.py:210-285 | the detection computes the specified configuration |
| DatasetConfig.MovieLensDetectedButUnmappable | ingestion/data_config.py:233-235 | columns {movieId, title, genres} are detected as MovieLens, whose mapping then fails |
| DatasetConfig.DetectedMappable | ingestion/data_config.py:210-285 | corrected: a configuration returned can always be mapped |
| DatasetConfig.DetectedMappableAgrees | ingestion/data_config.py:210-285 | where the detection as written returns a mappable configuration, the corrected one returns the same |
| Recommender.FirstMatch | main.py:118-126 | the first movie whose title matches, none exactly when no title does |
| Recommender.FindByTitle | main.py:104-128 | the first exact case-insensitive match; only when there is none and fuzzy is set, the first title containing the query; otherwise None |
| Recommender.ExactMatchWins | main.py:117-126 | an exact match is returned even when an earlier title only contains the query |
| Recommender.StoredTitleIsFound | main.py:115-120 | searching for a stored title always finds a movie |
| Recommender.FindById | main.py:217 | the first movie with the id, None exactly when no movie has it |
| Recommender.GenreSet | main.py:230-232 | exactly the genres of some movie |
| Recommender.ListOfSet | main.py:233 | the listed set has the set's elements |
| Recommender.MovieRecommender.constructor | main.py:60-102 | the builder is created with its defaults, features are built with genres and ratings, and both engines are built over the movies; the similarity engine uses the given similarity function |
| Recommender.MovieRecommender.FindMovieByTitle | main.py:104-128 | the two linear searches compute the title lookup |
| Recommender.MovieRecommender.SimilarRows | main.py:163-166 | the top_k * 2 similar rows are valid rows other than the query row |
| Recommender.ToMovieIdsAgree | main.py:169-172 | `get_movie_id` through the builder's index map is defined for every similar row and names the movie in that row |
| Recommender.MovieRecommender.CandidateFromRow | main.py:163-172 | each candidate names the movie of a row other than the query row and carries that row's `get_similarity_score` with the query row |
| Recommender.MovieRecommender.GetRecommendations | main.py:130-198 | [] for an unknown title or an id missing from the index; with preferences, the re-ranked top_k; without, the first top_k candidates with their movie fields and raw scores |
| Recommender.MovieRecommender.EmptyFallbacks | main.py:148-161 | an unknown title, or a found movie whose id is not in the feature index, gives [] |
| Recommender.MovieRecommender.RecommendFromRow | main.py:163-196 | once the query row is known, the similar-row search, the id mapping and the preference or plain path compute the recommendations of that row |
| Recommender.MovieRecommender.QueryRow | main.py:148-161 | a found title has a row in the index, holding the found movie's id, and its recommendations are those of that row |
| Recommender.MovieRecommender.EnrichCandidates | main.py:184-196 | each candidate becomes the dict of the first movie with its id, with the raw score |
| Recommender.MovieRecommender.GetRecommendationsById | main.py:200-222 | [] for an unknown id; otherwise the request by the title of the first movie with that id |
| Recommender.MovieRecommender.ByIdQueriesFirstSameTitle | main.py:217-222 | the id request queries the first movie whose title matches that movie's title exactly, which may be another movie with the same title |
| Recommender.MovieRecommender.CandidateCount | main.py:163-172 | for top_k >= 0 there are min(2 * top_k, n - 1) candidates, non-increasing in score |
| Recommender.MovieRecommender.PlainRecommendations | main.py:182-196 | without preferences, min(top_k, n - 1) results in non-increasing score; with distinct ids the query movie never appears |
| Recommender.MovieRecommender.PlainRowRecommendations | main.py:163-196 | for one query row without preferences: min(top_k, n - 1) results, non-increasing in score, each carrying its movie's fields; with distinct ids never the query movie |
| Recommender.MovieRecommender.PreferenceRecommendations | main.py:175-181 | with preferences, at most top_k results in non-increasing score, each carrying the fields of the known movie with its id |
| Recommender.MovieRecommender.PreferenceRowRecommendations | main.py:175-181 | the same for one query row |
| Recommender.RankedTop | main.py:175-181 | the first top_k of the preference ranking are at most top_k entries, non-increasing, all with known ids |
| Recommender.RankedListFacts | preferences/preference_engine.py:221-233 | enriching a descending ranking keeps its order and each result carries the fields of the movie its id names |
| Recommender.MovieRecommender.GetAvailableGenres | main.py:228-233 | a strictly sorted list of exactly the genres that occur |
| Recommender.MovieRecommender.GetAvailableLanguages | main.py:235-237 | a strictly sorted list of exactly the languages that occur |

## Left out

- The cosine similarity is a function-valued parameter of the engines, because it is a library call that needs square roots. `compute_similarity_matrix` is a single call to it and is not modelled apart from the query row.
- The TF-IDF and genre one-hot blocks are inputs of given width, because they are library fitting. `_build_text_features` and `_build_genre_features` are left out. `BuildFeatures` records only the vocabulary and class counts.
- Pickle save and load, the cache directory of `MovieRecommender`, CSV reading, `create_sample_dataset`, logging, printing, the command line and the Streamlit UI are left out. They are I/O.
- Recommender.MovieRecommender.constructor: takes the loaded movies, the two feature blocks and the similarity function, because loading is file I/O and the blocks come from library fitting.
- `pd.to_datetime` is a function parameter that may fail, because it is a foreign parser.
- DatasetConfig.DefaultGenreParser: the whole JSON branch (ingestion/data_config.py:91-99) is the parameter `parseJson`, not only `json.loads`. The list and first-element-is-a-dict checks, the fall-through when a later element raises, and the extraction of the non-empty `name` values are inside that parameter, so nothing is promised about the names it returns beyond their being returned unchanged.
- Custom `genre_parser` and `rating_normalizer` callables of `DataConfig` are not modelled; only the defaults are. A callable stored in a record would need the frame model to carry arbitrary values.
- Text.Lower: lowercases ASCII letters only. Unicode case mapping is not modelled.
- Text.ParseNumber: accepts an optional sign, digits and one decimal point. Exponents, "nan"/"inf" texts and surrounding whitespace are not modelled.
- Loader.ValidateSchema: the error message is the fixed prefix "Missing required columns". The source's message also lists the missing and available columns.
- Loader.Load: the skipped-row branch of the loop (ingestion/loader.py:169-171) cannot happen in the model, because no conversion in `_create_movie_object` can fail on a cleaned row. So every preprocessed row gives a movie.
- Loader.PreprocessDataframe: requires a valid schema, because `load` always checks the schema first. Called directly on a frame without the columns, the source raises a KeyError, which is not modelled.
- Float rounding is not modelled; all scores and ratings are `real`.
- NaN appears only in the rating normaliser. Elsewhere missing numbers are cleaned before any arithmetic.
- `list.sort` is modelled as a stable insertion sort written as a function. It is not the in-place Timsort.
- `HybridSimilarityEngine` inherits the search methods of `SimilarityEngine`. They are modelled once, on the base class.
- `get_all_movies` returns the movie list. It holds no logic.
- DatasetConfig.Inferred: the ValueError carries the fixed text "Could not auto-detect all required columns". The source's message also prints the partial column dictionary and a hint, which would need Python's dict formatting.
- Loader.Truncate: `astype(int)` is modelled on unbounded integers, and so are the ids `CleanRowOf` produces with it. The int64 width of the column, and what numpy does with an id beyond it, are not modelled.
- Similarity.Columns: only slices with step 1 are modelled. A stepped slice of the feature columns is not.

## Findings

| source | as written | input that shows it | evidently intended | confidence | as-written member | corrected member |
|---|---|---|---|---|---|---|
| ingestion/data_config.py:111-116 | `min(10.0, nan)` is 10.0 because `nan < 10.0` is false, so `max(0.0, min(10.0, float(rating)))` turns NaN into 10.0 | a missing rating (NaN) | a missing rating becomes 0.0, as the loader fills it | not executed | DatasetConfig.MissingRatingBecomesTen | DatasetConfig.DefaultRatingNormalizer |
| ingestion/data_config.py:233-235 | the MovieLens signature checks only movieId, title and genres, but the profile requires description, language and rating | columns {movieId, title, genres} | detect a preset only when its required columns are present | not executed | DatasetConfig.MovieLensDetectedButUnmappable | DatasetConfig.DetectedMappable |
