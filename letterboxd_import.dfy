/** `run_letterboxd_import` of `services/letterboxd_import.py` as it runs: the closures
    share four counters and write through the ORM one save at a time, and the whole run
    sits in `transaction.atomic()`. Each method is proved to do what the matching
    function of `ImportSpec` says. */
module LetterboxdImport {
  import opened Wrappers
  import opened Builtins
  import opened Dates
  import opened Models
  import opened Store
  import opened ImportSpec

  /** The closures' shared environment: the user, the database and the four
      `nonlocal` counters. */
  class ImportRun {
    const cfg: Config
    const db: Database
    var moviesCreated: nat
    var moviesMatched: nat
    var relCreated: nat
    var relUpdated: nat

    function Counts(): Counters
      reads this
    {
      Counters(moviesCreated, moviesMatched, relCreated, relUpdated)
    }

    function Snapshot(): State
      reads this, db
    {
      State(db.Tables(), Counts())
    }

    constructor (cfg: Config, db: Database)
      ensures this.cfg == cfg && this.db == db && Counts() == ZERO
    {
      this.cfg := cfg;
      this.db := db;
      moviesCreated, moviesMatched, relCreated, relUpdated := 0, 0, 0, 0;
    }

    /** `upsert_movie(name, year, uri)` */
    method UpsertMovie(name: Option<string>, year: Option<string>, uri: Option<string>) returns (id: Option<MovieId>)
      modifies this, db
      ensures (Snapshot(), id) == UpsertMovieSpec(cfg, old(Snapshot()), name, year, uri)
    {
      var key := Canonical(cfg.rev, uri);
      id := UpsertNormalized(name, year, key);
    }

    /** `upsert_movie` after `normalize_letterboxd_uri`. */
    method UpsertNormalized(name: Option<string>, year: Option<string>, key: Option<string>) returns (id: Option<MovieId>)
      modifies this, db
      ensures (Snapshot(), id) == UpsertKey(old(Snapshot()), name, year, key)
    {
      if key.None? {
        return None;
      }
      var found := FindByUri(db.movies, key.value);
      if found.Some? {
        MatchExisting(found.value, name);
        return found;
      }
      var created := CreateNew(Movie(NewTitle(name), YearToDate(year), key));
      return Some(created);
    }

    /** The matched branch of `upsert_movie`: count it, and give a blank title the name. */
    method MatchExisting(id: MovieId, name: Option<string>)
      requires id < |db.movies|
      modifies this, db
      ensures Snapshot() == MatchMovie(old(Snapshot()), id, name)
    {
      ghost var before := Snapshot();
      moviesMatched := moviesMatched + 1;
      var movie := db.movies[id];
      if movie.title == "" && Truthy(name) {
        db.SaveTitle(id, Trim255(Strip(OrEmpty(name))));
      }
      assert Snapshot().tables == MatchMovie(before, id, name).tables;
    }

    /** The created branch of `upsert_movie`: `Movie.objects.create(...)`, then count it. */
    method CreateNew(movie: Movie) returns (id: MovieId)
      modifies this, db
      ensures id == |old(db.movies)|
      ensures Snapshot() == AddMovie(old(Snapshot()), movie)
    {
      id := db.CreateMovie(movie);
      moviesCreated := moviesCreated + 1;
    }

    /** `get_or_create_mu(movie)` */
    method GetOrCreateMu(id: MovieId) returns (mu: MovieUser)
      modifies this, db
      ensures Snapshot() == GetOrCreateSpec(cfg.user, old(Snapshot()), id)
      ensures mu == db.relations[(cfg.user, id)]
    {
      var key := (cfg.user, id);
      if key !in db.relations {
        db.CreateRelation(key);
        relCreated := relCreated + 1;
      }
      mu := db.relations[key];
    }

    /** `apply_update(mu, updates)`: assign each differing value, then save and count
        once if any differed. */
    method ApplyUpdate(key: RelationKey, mu: MovieUser, updates: seq<Update>)
      requires key in db.relations && db.relations[key] == mu
      modifies this, db
      ensures Snapshot() == ApplyUpdateSpec(old(Snapshot()), key, updates)
    {
      var current := mu;
      var changed := false;
      var i := 0;
      while i < |updates|
        invariant 0 <= i <= |updates|
        invariant Diff(current, changed, updates[i..]) == Diff(mu, false, updates)
      {
        assert updates[i..][1..] == updates[i + 1..];
        if !Holds(current, updates[i]) {
          current := Assign(current, updates[i]);
          changed := true;
        }
        i := i + 1;
      }
      assert updates[i..] == [];
      if changed {
        db.SaveRelation(key, current);
        relUpdated := relUpdated + 1;
      }
    }

    /** The body of the loop of `import_reviews_csv`, for a row whose cells are `c`;
        `Some` is the exception raised. */
    method ReviewsRow(row: Row, ghost c: Cells) returns (raised: Option<ImportError>)
      requires c.key == RowKey(cfg, row) && c.name == Get(row, NameColumn) && c.year == Get(row, YearColumn)
      requires c.malformed <==> ParseIsoDate(Get(row, WatchedDateColumn)).Failure?
      requires !c.malformed ==> Success(c.watched) == ParseIsoDate(Get(row, WatchedDateColumn))
      requires c.rating == ParseFloat(cfg.floatOf, Get(row, RatingColumn)) && c.review == Strip(OrEmpty(Get(row, ReviewColumn)))
      modifies this, db
      ensures StepSpec(cfg.user, Reviews, old(Snapshot()), c) == if raised.Some? then Failure(raised.value) else Success(Snapshot())
    {
      ghost var s0 := Snapshot();
      var movie := UpsertMovie(Get(row, NameColumn), Get(row, YearColumn), Get(row, UriColumn));
      assert (Snapshot(), movie) == UpsertKey(s0, c.name, c.year, c.key);
      if movie.None? {
        return None;
      }
      ghost var s1 := Snapshot();
      var mu := GetOrCreateMu(movie.value);
      raised := ReviewsCells(row, c, (cfg.user, movie.value), mu);
      assert c.malformed || Snapshot() == RecordStep(Reviews, GetOrCreateSpec(cfg.user, s1, movie.value), (cfg.user, movie.value), c);
    }

    /** The rest of a reviews row once its record is found: the watched date (raising
        when it is malformed), the rating and the review, applied to the record. */
    method ReviewsCells(row: Row, ghost c: Cells, key: RelationKey, mu: MovieUser) returns (raised: Option<ImportError>)
      requires c.key == RowKey(cfg, row) && c.name == Get(row, NameColumn) && c.year == Get(row, YearColumn)
      requires c.malformed <==> ParseIsoDate(Get(row, WatchedDateColumn)).Failure?
      requires !c.malformed ==> Success(c.watched) == ParseIsoDate(Get(row, WatchedDateColumn))
      requires c.rating == ParseFloat(cfg.floatOf, Get(row, RatingColumn)) && c.review == Strip(OrEmpty(Get(row, ReviewColumn)))
      requires key in db.relations && db.relations[key] == mu
      modifies this, db
      ensures raised.Some? <==> c.malformed
      ensures raised.Some? ==> raised.value == MalformedWatchedDate
      ensures raised.None? ==> Snapshot() == RecordStep(Reviews, old(Snapshot()), key, c)
    {
      var watched := ParseIsoDate(Get(row, WatchedDateColumn));
      if watched.Failure? {
        return Some(MalformedWatchedDate);
      }
      var rating := ParseFloat(cfg.floatOf, Get(row, RatingColumn));
      var review := Strip(OrEmpty(Get(row, ReviewColumn)));
      assert c.watched == watched.value && c.rating == rating && c.review == review;
      ReviewsRecord(key, mu, watched.value, rating, review);
      return None;
    }

    /** The end of a reviews row: the dict of what the row supplies, applied to the
        record. */
    method ReviewsRecord(key: RelationKey, mu: MovieUser, watched: Option<Date>, rating: Option<real>, review: string)
      requires key in db.relations && db.relations[key] == mu
      modifies this, db
      ensures Snapshot() == ApplyUpdateSpec(old(Snapshot()), key, ReviewUpdates(watched, rating, review))
    {
      var updates := [SetWatchStatus(Watched)];
      if watched.Some? {
        updates := updates + [SetWatchedDate(watched.value)];
      }
      if rating.Some? {
        updates := updates + [SetRating(rating.value)];
      }
      if review != "" {
        updates := updates + [SetReview(review)];
      }
      assert updates == ReviewUpdates(watched, rating, review);
      ApplyUpdate(key, mu, updates);
    }

    /** The body of the loop of `import_watchlist_csv`. */
    method WatchlistRow(row: Row, ghost c: Cells)
      requires ReadsAs(cfg, Watchlist, row, c)
      modifies this, db
      ensures StepSpec(cfg.user, Watchlist, old(Snapshot()), c) == Success(Snapshot())
    {
      ghost var s0 := Snapshot();
      var movie := UpsertMovie(Get(row, NameColumn), Get(row, YearColumn), Get(row, UriColumn));
      assert (Snapshot(), movie) == UpsertKey(s0, c.name, c.year, c.key);
      if movie.None? {
        return;
      }
      ghost var s1 := Snapshot();
      var mu := GetOrCreateMu(movie.value);
      var updates := [SetInWatchlist(true)];
      // an entry already watched keeps its status
      if mu.watchedDate.None? && mu.watchStatus != Watched {
        updates := updates + [SetWatchStatus(WantToWatch)];
      }
      assert updates == RowUpdates(Watchlist, mu, c);
      ApplyUpdate((cfg.user, movie.value), mu, updates);
      assert Snapshot() == RecordStep(Watchlist, GetOrCreateSpec(cfg.user, s1, movie.value), (cfg.user, movie.value), c);
    }

    /** The body of the loop of `import_films_likes_csv`. */
    method LikesRow(row: Row, ghost c: Cells)
      requires ReadsAs(cfg, Likes, row, c)
      modifies this, db
      ensures StepSpec(cfg.user, Likes, old(Snapshot()), c) == Success(Snapshot())
    {
      var movie := UpsertMovie(Get(row, NameColumn), Get(row, YearColumn), Get(row, UriColumn));
      if movie.None? {
        return;
      }
      ghost var s1 := Snapshot();
      var mu := GetOrCreateMu(movie.value);
      ApplyUpdate((cfg.user, movie.value), mu, [SetLiked(true)]);
      assert Snapshot() == RecordStep(Likes, GetOrCreateSpec(cfg.user, s1, movie.value), (cfg.user, movie.value), c);
    }

    /** `import_reviews_csv(file)`: the rows in order, stopping at the first exception. */
    method ImportReviewsCsv(rows: seq<Row>, ghost cells: seq<Cells>) returns (raised: Option<ImportError>)
      modifies this, db
      requires AllReadAs(cfg, Reviews, rows, cells)
      ensures FoldCells(cfg.user, Reviews, old(Snapshot()), cells) == if raised.Some? then Failure(raised.value) else Success(Snapshot())
    {
      ghost var start := Snapshot();
      var i := 0;
      while i < |rows|
        invariant 0 <= i <= |rows|
        invariant FoldCells(cfg.user, Reviews, start, cells) == FoldCells(cfg.user, Reviews, Snapshot(), cells[i..])
      {
        assert cells[i..][0] == cells[i] && cells[i..][1..] == cells[i + 1..];
        ghost var before := Snapshot();
        raised := ReviewsRow(rows[i], cells[i]);
        FoldCellsCons(cfg.user, Reviews, before, cells[i..]);
        if raised.Some? {
          return;
        }
        i := i + 1;
      }
      assert cells[i..] == [];
      return None;
    }

    /** `import_watchlist_csv(file)` */
    method ImportWatchlistCsv(rows: seq<Row>, ghost cells: seq<Cells>)
      modifies this, db
      requires AllReadAs(cfg, Watchlist, rows, cells)
      ensures FoldCells(cfg.user, Watchlist, old(Snapshot()), cells) == Success(Snapshot())
    {
      ghost var start := Snapshot();
      var i := 0;
      while i < |rows|
        invariant 0 <= i <= |rows|
        invariant FoldCells(cfg.user, Watchlist, start, cells) == FoldCells(cfg.user, Watchlist, Snapshot(), cells[i..])
      {
        assert cells[i..][0] == cells[i] && cells[i..][1..] == cells[i + 1..];
        WatchlistRow(rows[i], cells[i]);
        i := i + 1;
      }
      assert cells[i..] == [];
    }

    /** `import_films_likes_csv(file)` */
    method ImportFilmsLikesCsv(rows: seq<Row>, ghost cells: seq<Cells>)
      modifies this, db
      requires AllReadAs(cfg, Likes, rows, cells)
      ensures FoldCells(cfg.user, Likes, old(Snapshot()), cells) == Success(Snapshot())
    {
      ghost var start := Snapshot();
      var i := 0;
      while i < |rows|
        invariant 0 <= i <= |rows|
        invariant FoldCells(cfg.user, Likes, start, cells) == FoldCells(cfg.user, Likes, Snapshot(), cells[i..])
      {
        assert cells[i..][0] == cells[i] && cells[i..][1..] == cells[i + 1..];
        LikesRow(rows[i], cells[i]);
        i := i + 1;
      }
      assert cells[i..] == [];
    }
  }

  /** `run_letterboxd_import(user=..., reviews_file=..., watchlist_file=...,
      films_file=...)`: the counters of a run that completed, or the exception, with
      every write rolled back. */
  method RunLetterboxdImport(cfg: Config, db: Database, reviews: Option<seq<Row>>, watchlist: Option<seq<Row>>, films: Option<seq<Row>>)
    returns (r: Result<Counters, ImportError>)
    modifies db
    ensures match RunSpec(cfg, old(db.Tables()), reviews, watchlist, films)
      case Success(s) => r == Success(s.counters) && db.Tables() == s.tables
      case Failure(e) => r == Failure(e) && db.Tables() == old(db.Tables())
  {
    var savepoint := db.Tables();
    var run := new ImportRun(cfg, db);
    ghost var reviewCells, watchlistCells, likeCells := Digests(cfg, Reviews, Rows(reviews)), Digests(cfg, Watchlist, Rows(watchlist)), Digests(cfg, Likes, Rows(films));
    DigestsReadAs(cfg, Reviews, Rows(reviews));
    DigestsReadAs(cfg, Watchlist, Rows(watchlist));
    DigestsReadAs(cfg, Likes, Rows(films));
    var raised: Option<ImportError> := None;
    if reviews.Some? {
      raised := run.ImportReviewsCsv(reviews.value, reviewCells);
    }
    if raised.None? && watchlist.Some? {
      run.ImportWatchlistCsv(watchlist.value, watchlistCells);
    }
    if raised.None? && films.Some? {
      run.ImportFilmsLikesCsv(films.value, likeCells);
    }
    if raised.Some? {
      db.Restore(savepoint);
      return Failure(raised.value);
    }
    return Success(run.Counts());
  }
}
