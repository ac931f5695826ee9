/** Movie input validation (internal/data/movies.go). */
module Movies {
  import opened Prelude
  import opened Validator

  /** The fields of `Movie` that `ValidateMovie` reads; a nil genre slice is
      `None`. */
  datatype Movie = Movie(title: string, year: int32, runtime: int32, genres: Option<seq<string>>)

  /** The genres as Go sees them: a nil slice has length 0 and no duplicates. */
  function GenreList(genres: Option<seq<string>>): seq<string>
  {
    if genres.Some? then genres.value else []
  }

  /** The checks of `ValidateMovie`, in source order. */
  function MovieRules(movie: Movie): seq<Rule>
  {
    var genres := GenreList(movie.genres);
    [ Rule(movie.title != "", "title", "must be provided"),
      Rule(|movie.title| < 500, "title", "must not be more than 500 long"),
      Rule(movie.year != 0, "year", "must be provided"),
      Rule(movie.year > 1888, "year", "must not be more than 1888 long"),
      Rule(movie.runtime != 0, "runtime", "must be provided"),
      Rule(movie.runtime > 0, "runtime", "must not be more than 0 long"),
      Rule(movie.genres.Some?, "genres", "must be provided"),
      Rule(|genres| >= 1, "genres", "must contain at least 1 genre"),
      Rule(|genres| <= 5, "genres", "must not contain more than 5 genres"),
      Rule(Unique(genres), "genres", "must not contain duplicate values") ]
  }

  /** `ValidateMovie`: the ten checks, run against `v` in order. */
  method ValidateMovie(v: Validator, movie: Movie)
    modifies v
    ensures v.errors == RunRules(old(v.errors), MovieRules(movie))
  {
    ghost var start := v.errors;
    var rules := MovieRules(movie);
    v.Check(rules[0].ok, rules[0].key, rules[0].message);
    assert v.errors == RunPrefix(start, rules, 1);
    v.Check(rules[1].ok, rules[1].key, rules[1].message);
    assert v.errors == RunPrefix(start, rules, 2);
    v.Check(rules[2].ok, rules[2].key, rules[2].message);
    assert v.errors == RunPrefix(start, rules, 3);
    v.Check(rules[3].ok, rules[3].key, rules[3].message);
    assert v.errors == RunPrefix(start, rules, 4);
    v.Check(rules[4].ok, rules[4].key, rules[4].message);
    assert v.errors == RunPrefix(start, rules, 5);
    v.Check(rules[5].ok, rules[5].key, rules[5].message);
    assert v.errors == RunPrefix(start, rules, 6);
    v.Check(rules[6].ok, rules[6].key, rules[6].message);
    assert v.errors == RunPrefix(start, rules, 7);
    v.Check(rules[7].ok, rules[7].key, rules[7].message);
    assert v.errors == RunPrefix(start, rules, 8);
    v.Check(rules[8].ok, rules[8].key, rules[8].message);
    assert v.errors == RunPrefix(start, rules, 9);
    v.Check(rules[9].ok, rules[9].key, rules[9].message);
  }

  /** A movie that passes every check, stated without the redundant
      "must be provided" checks. */
  predicate WellFormed(movie: Movie)
  {
    movie.title != "" && |movie.title| < 500 &&
    movie.year > 1888 &&
    movie.runtime > 0 &&
    movie.genres.Some? && 1 <= |movie.genres.value| <= 5 && Unique(movie.genres.value)
  }

  /** A fresh validator stays empty after `ValidateMovie` iff the movie is
      well formed. */
  lemma MovieValidIff(movie: Movie)
    ensures RunRules(map[], MovieRules(movie)) == map[] <==> WellFormed(movie)
  {
    var rules := MovieRules(movie);
    RunRulesValid(rules);
    if movie.title == "" { assert !rules[0].ok; }
    else if |movie.title| >= 500 { assert !rules[1].ok; }
    else if movie.year <= 1888 { assert !rules[3].ok; }
    else if movie.runtime <= 0 { assert !rules[5].ok; }
    else if movie.genres.None? { assert !rules[6].ok; }
    else if |movie.genres.value| < 1 { assert !rules[7].ok; }
    else if |movie.genres.value| > 5 { assert !rules[8].ok; }
    else if !Unique(movie.genres.value) { assert !rules[9].ok; }
  }

  /** `ValidateMovie` records errors only under title, year, runtime and genres. */
  lemma MovieErrorKeys(errors: Errors, movie: Movie)
    ensures RunRules(errors, MovieRules(movie)).Keys <= errors.Keys + {"title", "year", "runtime", "genres"}
  {
    RunRulesKeysWithin(errors, MovieRules(movie), {"title", "year", "runtime", "genres"});
  }

  /** Title: empty records "must be provided"; otherwise error-free iff
      shorter than 500 bytes. */
  lemma MovieTitleRule(errors: Errors, movie: Movie)
    requires "title" !in errors
    ensures var r := RunRules(errors, MovieRules(movie));
            (movie.title == "" ==> "title" in r && r["title"] == "must be provided") &&
            (movie.title != "" ==> ("title" !in r <==> |movie.title| < 500))
  {
    var rules := MovieRules(movie);
    if movie.title == "" {
      RunRulesFirstFailure(errors, rules, "title", 0);
    } else if |movie.title| >= 500 {
      RunRulesFirstFailure(errors, rules, "title", 1);
    } else {
      RunRulesNoFailure(errors, rules, "title");
    }
  }

  /** Year: 0 records "must be provided"; otherwise an error iff the year is
      1888 or earlier. */
  lemma MovieYearRule(errors: Errors, movie: Movie)
    requires "year" !in errors
    ensures var r := RunRules(errors, MovieRules(movie));
            (movie.year == 0 ==> "year" in r && r["year"] == "must be provided") &&
            (movie.year != 0 ==> ("year" in r <==> movie.year <= 1888))
  {
    var rules := MovieRules(movie);
    if movie.year == 0 {
      RunRulesFirstFailure(errors, rules, "year", 2);
    } else if movie.year <= 1888 {
      RunRulesFirstFailure(errors, rules, "year", 3);
    } else {
      RunRulesNoFailure(errors, rules, "year");
    }
  }

  /** Runtime: 0 records "must be provided"; otherwise an error iff negative. */
  lemma MovieRuntimeRule(errors: Errors, movie: Movie)
    requires "runtime" !in errors
    ensures var r := RunRules(errors, MovieRules(movie));
            (movie.runtime == 0 ==> "runtime" in r && r["runtime"] == "must be provided") &&
            (movie.runtime != 0 ==> ("runtime" in r <==> movie.runtime < 0))
  {
    var rules := MovieRules(movie);
    if movie.runtime == 0 {
      RunRulesFirstFailure(errors, rules, "runtime", 4);
    } else if movie.runtime < 0 {
      RunRulesFirstFailure(errors, rules, "runtime", 5);
    } else {
      RunRulesNoFailure(errors, rules, "runtime");
    }
  }

  /** Genres: nil records "must be provided"; otherwise error-free iff one to
      five genres without duplicates. */
  lemma MovieGenresRule(errors: Errors, movie: Movie)
    requires "genres" !in errors
    ensures var r := RunRules(errors, MovieRules(movie));
            (movie.genres.None? ==> "genres" in r && r["genres"] == "must be provided") &&
            (movie.genres.Some? ==>
               ("genres" !in r <==> 1 <= |movie.genres.value| <= 5 && Unique(movie.genres.value)))
  {
    var rules := MovieRules(movie);
    var genres := GenreList(movie.genres);
    if movie.genres.None? {
      RunRulesFirstFailure(errors, rules, "genres", 6);
    } else if |genres| < 1 {
      RunRulesFirstFailure(errors, rules, "genres", 7);
    } else if |genres| > 5 {
      RunRulesFirstFailure(errors, rules, "genres", 8);
    } else if !Unique(genres) {
      RunRulesFirstFailure(errors, rules, "genres", 9);
    } else {
      RunRulesNoFailure(errors, rules, "genres");
    }
  }
}
