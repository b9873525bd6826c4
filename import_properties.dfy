/** What the Letterboxd CSV import promises, row by row and for a whole run: skipped
    rows, the four counters, the constraints on the tables, what each file's row does
    to the user's record, and that importing the same files again changes nothing. */
module ImportProperties {
  import opened Wrappers
  import opened Builtins
  import opened Dates
  import opened Models
  import opened ImportSpec

  // ---------------------------------------------------------------------------
  // One row, from its cells

  /** A row whose URI gives no key is skipped and changes nothing. */
  lemma StepSkips(user: UserId, src: Source, s: State, c: Cells)
    requires c.key.None?
    ensures StepSpec(user, src, s, c) == Success(s)
  {
  }

  /** The pieces of a keyed row that succeeded. */
  lemma KeyedStep(user: UserId, src: Source, s: State, c: Cells, s': State)
    requires c.key.Some? && StepSpec(user, src, s, c) == Success(s')
    ensures !c.malformed && UpsertKey(s, c.name, c.year, c.key).1.Some?
    ensures var u := UpsertKey(s, c.name, c.year, c.key);
      s' == RecordStep(src, GetOrCreateSpec(user, u.0, u.1.value), (user, u.1.value), c)
  {
  }

  lemma UpsertCounters(s: State, name: Option<string>, year: Option<string>, key: Option<string>)
    ensures var r := UpsertKey(s, name, year, key).0;
      && (r.counters.moviesCreated == s.counters.moviesCreated + 1
          <==> key.Some? && FindByUri(s.tables.movies, key.value).None?)
      && r.counters.moviesCreated <= s.counters.moviesCreated + 1
      && |r.tables.movies| == |s.tables.movies| + (if r.counters.moviesCreated == s.counters.moviesCreated then 0 else 1)
  {
  }

  /** A row with a key counts exactly one of created and matched, and it creates a
      movie exactly when no movie held the key. */
  lemma StepMovieCounters(user: UserId, src: Source, s: State, c: Cells, s': State)
    requires StepSpec(user, src, s, c) == Success(s')
    ensures s'.counters.moviesCreated + s'.counters.moviesMatched
         == s.counters.moviesCreated + s.counters.moviesMatched + (if c.key.Some? then 1 else 0)
    ensures s'.counters.moviesCreated == s.counters.moviesCreated + 1
        <==> c.key.Some? && FindByUri(s.tables.movies, c.key.value).None?
    ensures |s'.tables.movies| == |s.tables.movies| + (if s'.counters.moviesCreated == s.counters.moviesCreated then 0 else 1)
  {
    if c.key.Some? {
      KeyedStep(user, src, s, c, s');
      var u := UpsertKey(s, c.name, c.year, c.key);
      RecordStepFrame(src, GetOrCreateSpec(user, u.0, u.1.value), (user, u.1.value), c);
      UpsertCounters(s, c.name, c.year, c.key);
    }
  }

  /** A row creates a record exactly when the user had none for its movie, and counts
      at most one update. */
  lemma StepRelationCounters(user: UserId, src: Source, s: State, c: Cells, s': State)
    requires StepSpec(user, src, s, c) == Success(s')
    ensures s'.counters.relationshipsCreated
         == s.counters.relationshipsCreated
            + (if c.key.Some? && (user, UpsertKey(s, c.name, c.year, c.key).1.value) !in s.tables.relations then 1 else 0)
    ensures s.counters.relationshipsUpdated <= s'.counters.relationshipsUpdated <= s.counters.relationshipsUpdated + 1
  {
    if c.key.Some? {
      KeyedStep(user, src, s, c, s');
      var u := UpsertKey(s, c.name, c.year, c.key);
      RecordStepFrame(src, GetOrCreateSpec(user, u.0, u.1.value), (user, u.1.value), c);
    }
  }

  lemma MatchPreservesValid(s: State, id: MovieId, name: Option<string>)
    requires ValidTables(s.tables) && id < |s.tables.movies|
    ensures ValidTables(MatchMovie(s, id, name).tables)
  {
    var m := s.tables.movies[id];
    if m.title == "" && Truthy(name) {
      RetitlePreservesValid(s.tables, id, Trim255(Strip(OrEmpty(name))));
    }
  }

  /** Giving a movie a title of at most 255 characters keeps the tables valid. */
  lemma RetitlePreservesValid(t: Tables, id: MovieId, title: string)
    requires ValidTables(t) && id < |t.movies| && |title| <= TITLE_MAX_LENGTH
    ensures ValidTables(t.(movies := t.movies[id := t.movies[id].(title := title)]))
  {
    var ms' := t.movies[id := t.movies[id].(title := title)];
    assert forall i :: 0 <= i < |ms'| ==> ms'[i].letterboxdUri == t.movies[i].letterboxdUri;
  }

  lemma CreatePreservesValid(s: State, key: string, name: Option<string>, year: Option<string>)
    requires ValidTables(s.tables) && FindByUri(s.tables.movies, key).None?
    ensures ValidTables(CreateMovie(s, key, name, year).tables)
  {
    AddPreservesValid(s.tables, Movie(NewTitle(name), YearToDate(year), Some(key)));
  }

  /** Adding a movie with a title of at most 255 characters and a URI no movie holds
      keeps the tables valid. */
  lemma AddPreservesValid(t: Tables, m: Movie)
    requires ValidTables(t) && |m.title| <= TITLE_MAX_LENGTH
    requires m.letterboxdUri.Some? && FindByUri(t.movies, m.letterboxdUri.value).None?
    ensures ValidTables(t.(movies := t.movies + [m]))
  {
    var ms' := t.movies + [m];
    forall i, j | 0 <= i < j < |ms'| && ms'[i].letterboxdUri.Some?
      ensures ms'[i].letterboxdUri != ms'[j].letterboxdUri
    {
      if j == |t.movies| {
        assert ms'[i] == t.movies[i];
      }
    }
  }

  lemma UpsertPreservesValid(s: State, name: Option<string>, year: Option<string>, key: Option<string>)
    requires ValidTables(s.tables)
    ensures ValidTables(UpsertKey(s, name, year, key).0.tables)
  {
    match key
    case None =>
    case Some(k) =>
      match FindByUri(s.tables.movies, k)
      case Some(id) => MatchPreservesValid(s, id, name);
      case None => CreatePreservesValid(s, k, name, year);
  }

  /** A row keeps the tables valid: URIs stay unique (a movie is created only for a key
      no movie holds), titles stay within 255 characters, and every record points at a
      movie. */
  lemma StepPreservesValid(user: UserId, src: Source, s: State, c: Cells, s': State)
    requires ValidTables(s.tables) && StepSpec(user, src, s, c) == Success(s')
    ensures ValidTables(s'.tables)
  {
    UpsertPreservesValid(s, c.name, c.year, c.key);
    if c.key.Some? {
      KeyedStep(user, src, s, c, s');
      var u := UpsertKey(s, c.name, c.year, c.key);
      var s2 := GetOrCreateSpec(user, u.0, u.1.value);
      assert ValidTables(s2.tables);
      RecordStepFrame(src, s2, (user, u.1.value), c);
    }
  }

  /** A reviews row with a malformed watched date raises. */
  lemma MalformedDateRaises(user: UserId, s: State, c: Cells)
    requires c.key.Some? && c.malformed
    ensures StepSpec(user, Reviews, s, c) == Failure(MalformedWatchedDate)
  {
  }

  /** The record a row finds: the existing one, or a new one. */
  function Before(user: UserId, s: State, id: MovieId): MovieUser {
    var key := (user, id);
    if key in s.tables.relations then s.tables.relations[key] else NEW_MOVIE_USER
  }

  /** After upsert, the key finds the movie upsert returned. */
  lemma FindAfterUpsert(s: State, name: Option<string>, year: Option<string>, key: Option<string>)
    requires key.Some?
    ensures FindByUri(UpsertKey(s, name, year, key).0.tables.movies, key.value) == UpsertKey(s, name, year, key).1
  {
    var k := key.value;
    match FindByUri(s.tables.movies, k)
    case Some(i) =>
      var m := s.tables.movies[i];
      if m.title == "" && Truthy(name) {
        FindByUriRetitle(s.tables.movies, i, Trim255(Strip(OrEmpty(name))), k);
      }
    case None =>
      var ms := CreateMovie(s, k, name, year).tables.movies;
      assert ms[..|ms| - 1] == s.tables.movies;
  }

  /** After a keyed row, the key finds the row's movie, and the user's record for it is
      the record before (or a new one), changed as the row's dict says. */
  lemma StepLeaves(user: UserId, src: Source, s: State, c: Cells, s': State)
    requires c.key.Some? && StepSpec(user, src, s, c) == Success(s')
    ensures var id := FindByUri(s'.tables.movies, c.key.value);
      && id.Some? && (user, id.value) in s'.tables.relations
      && s'.tables.relations[(user, id.value)] == RecordAfter(src, Before(user, s, id.value), c)
  {
    KeyedStep(user, src, s, c, s');
    var u := UpsertKey(s, c.name, c.year, c.key);
    FindAfterUpsert(s, c.name, c.year, c.key);
    var s2 := GetOrCreateSpec(user, u.0, u.1.value);
    assert s2.tables.relations[(user, u.1.value)] == Before(user, s, u.1.value);
    RecordStepFrame(src, s2, (user, u.1.value), c);
  }

  // ---------------------------------------------------------------------------
  // One row of each file

  /** A reviews row leaves the record "Watched", with the watched date, rating and
      review it supplies and every other field as it was (a new record's defaults for a
      row that created it). */
  lemma ReviewsRowRecord(cfg: Config, s: State, row: Row, s': State)
    requires RowKey(cfg, row).Some? && RowSpec(cfg, Reviews, s, row) == Success(s')
    ensures ParseIsoDate(Get(row, WatchedDateColumn)).Success?
    ensures var id := FindByUri(s'.tables.movies, RowKey(cfg, row).value);
      && id.Some? && (cfg.user, id.value) in s'.tables.relations
      && s'.tables.relations[(cfg.user, id.value)]
         == ReviewsRecord(Before(cfg.user, s, id.value), ParseIsoDate(Get(row, WatchedDateColumn)).value,
                          ParseFloat(cfg.floatOf, Get(row, RatingColumn)), Strip(OrEmpty(Get(row, ReviewColumn))))
  {
    var c := Digest(cfg, Reviews, row);
    KeyedStep(cfg.user, Reviews, s, c, s');
    StepLeaves(cfg.user, Reviews, s, c, s');
  }

  /** A watchlist row puts the movie on the watchlist and sets "Want to Watch" only for
      a record with no watched date that is not "Watched": it never downgrades a watched
      film, and it changes nothing else. */
  lemma WatchlistRowRecord(cfg: Config, s: State, row: Row, s': State)
    requires RowKey(cfg, row).Some? && RowSpec(cfg, Watchlist, s, row) == Success(s')
    ensures var id := FindByUri(s'.tables.movies, RowKey(cfg, row).value);
      && id.Some? && (cfg.user, id.value) in s'.tables.relations
      && var before := Before(cfg.user, s, id.value);
         var after := s'.tables.relations[(cfg.user, id.value)];
         && after.inWatchlist
         && (after.watchStatus == WantToWatch <==> before.watchStatus == WantToWatch || (before.watchedDate.None? && before.watchStatus != Watched))
         && (before.watchStatus == Watched ==> after.watchStatus == Watched)
         && (before.watchedDate.Some? ==> after.watchStatus == before.watchStatus)
         && after == before.(inWatchlist := true, watchStatus := after.watchStatus)
  {
    StepLeaves(cfg.user, Watchlist, s, Digest(cfg, Watchlist, row), s');
  }

  /** A likes row sets `liked` and changes nothing else in the record. */
  lemma LikesRowRecord(cfg: Config, s: State, row: Row, s': State)
    requires RowKey(cfg, row).Some? && RowSpec(cfg, Likes, s, row) == Success(s')
    ensures var id := FindByUri(s'.tables.movies, RowKey(cfg, row).value);
      && id.Some? && (cfg.user, id.value) in s'.tables.relations
      && s'.tables.relations[(cfg.user, id.value)] == Before(cfg.user, s, id.value).(liked := true)
  {
    StepLeaves(cfg.user, Likes, s, Digest(cfg, Likes, row), s');
  }

  /** A reviews row whose watched date does not parse raises, whatever the state. */
  lemma MalformedRowRaises(cfg: Config, s: State, row: Row)
    requires RowKey(cfg, row).Some? && ParseIsoDate(Get(row, WatchedDateColumn)).Failure?
    ensures RowSpec(cfg, Reviews, s, row) == Failure(MalformedWatchedDate)
  {
    MalformedDateRaises(cfg.user, s, Digest(cfg, Reviews, row));
  }

  // ---------------------------------------------------------------------------
  // Importing the same files again

  /** A title that a row's name would not change: a blank title is filled only from a
      truthy name whose stripped, trimmed text is not empty. */
  predicate TitleSettled(title: string, name: Option<string>) {
    title != "" || !Truthy(name) || Trim255(Strip(OrEmpty(name))) == ""
  }

  /** Importing the row again would change nothing but the matched count: its movie
      exists with a settled title, and its record exists and is settled. */
  predicate Stable(user: UserId, src: Source, t: Tables, c: Cells) {
    c.key.Some? ==>
      var id := FindByUri(t.movies, c.key.value);
      && id.Some?
      && TitleSettled(t.movies[id.value].title, c.name)
      && (user, id.value) in t.relations
      && !c.malformed
      && Settled(src, t.relations[(user, id.value)], c)
  }

  /** Upsert of a key whose movie has a settled title only counts a match. */
  lemma UpsertSettled(s: State, name: Option<string>, year: Option<string>, key: Option<string>, id: MovieId)
    requires key.Some? && FindByUri(s.tables.movies, key.value) == Some(id)
    requires TitleSettled(s.tables.movies[id].title, name)
    ensures UpsertKey(s, name, year, key) == (State(s.tables, s.counters.(moviesMatched := s.counters.moviesMatched + 1)), Some(id))
  {
    var m := s.tables.movies[id];
    if m.title == "" && Truthy(name) {
      assert m.(title := Trim255(Strip(OrEmpty(name)))) == m;
      assert s.tables.movies[id := m] == s.tables.movies;
    }
  }

  /** A stable row changes nothing but the matched count. */
  lemma StableNoChange(user: UserId, src: Source, s: State, c: Cells)
    requires Stable(user, src, s.tables, c)
    ensures StepSpec(user, src, s, c)
         == Success(State(s.tables, s.counters.(moviesMatched := s.counters.moviesMatched + (if c.key.Some? then 1 else 0))))
  {
    if c.key.Some? {
      var id := FindByUri(s.tables.movies, c.key.value).value;
      UpsertSettled(s, c.name, c.year, c.key, id);
      var s1 := State(s.tables, s.counters.(moviesMatched := s.counters.moviesMatched + 1));
      assert GetOrCreateSpec(user, s1, id) == s1;
      RecordStepEffect(src, s1, (user, id), c);
    }
  }

  /** A row that succeeded is stable afterwards. */
  lemma StableAfterStep(user: UserId, src: Source, s: State, c: Cells, s': State)
    requires StepSpec(user, src, s, c) == Success(s')
    ensures Stable(user, src, s'.tables, c)
  {
    if c.key.Some? {
      KeyedStep(user, src, s, c, s');
      var u := UpsertKey(s, c.name, c.year, c.key);
      FindAfterUpsert(s, c.name, c.year, c.key);
      var s2 := GetOrCreateSpec(user, u.0, u.1.value);
      RecordStepFrame(src, s2, (user, u.1.value), c);
      RowUpdatesFacts(src, s2.tables.relations[(user, u.1.value)], c);
    }
  }

  /** Upsert of any key keeps another row's movie found and its title settled, and
      returns that movie only for that row's key. */
  lemma UpsertKeepsFound(s: State, name: Option<string>, year: Option<string>, key: Option<string>, k: string, id: MovieId, otherName: Option<string>)
    requires key.Some? && FindByUri(s.tables.movies, k) == Some(id)
    requires TitleSettled(s.tables.movies[id].title, otherName)
    ensures var r := UpsertKey(s, name, year, key);
      && FindByUri(r.0.tables.movies, k) == Some(id)
      && TitleSettled(r.0.tables.movies[id].title, otherName)
      && (r.1.value == id ==> key.value == k)
  {
    var k2 := key.value;
    match FindByUri(s.tables.movies, k2)
    case Some(i) =>
      var m := s.tables.movies[i];
      if m.title == "" && Truthy(name) {
        FindByUriRetitle(s.tables.movies, i, Trim255(Strip(OrEmpty(name))), k);
      }
    case None =>
      FindByUriAppend(s.tables.movies, Movie(NewTitle(name), YearToDate(year), Some(k2)), k);
  }

  /** A later file's dict keeps an earlier file's values in place: a reviewed record is
      "Watched", which the watchlist leaves alone, and `liked` is no other file's field. */
  lemma LaterKeepsSettled(src: Source, mu: MovieUser, c: Cells, src2: Source, c2: Cells)
    requires Later(src, src2) && Settled(src, mu, c)
    ensures Settled(src, RecordAfter(src2, mu, c2), c)
  {
  }

  /** A row keeps another keyed row stable when their keys differ, or when the other
      row's file was read earlier. */
  lemma StepKeepsStable(user: UserId, src: Source, c: Cells, src2: Source, s: State, c2: Cells, s': State)
    requires c.key.Some? && Stable(user, src, s.tables, c)
    requires StepSpec(user, src2, s, c2) == Success(s')
    requires c2.key != c.key || Later(src, src2)
    ensures Stable(user, src, s'.tables, c)
  {
    if c2.key.Some? {
      var k := c.key.value;
      var id := FindByUri(s.tables.movies, k).value;
      var key := (user, id);
      KeyedStep(user, src2, s, c2, s');
      var u := UpsertKey(s, c2.name, c2.year, c2.key);
      UpsertKeepsFound(s, c2.name, c2.year, c2.key, k, id, c.name);
      var s2 := GetOrCreateSpec(user, u.0, u.1.value);
      assert key in s2.tables.relations && s2.tables.relations[key] == s.tables.relations[key];
      var key2 := (user, u.1.value);
      RecordStepFrame(src2, s2, key2, c2);
      if key2 == key {
        LaterKeepsSettled(src, s2.tables.relations[key], c, src2, c2);
      }
    }
  }

  /** The number of rows that have a key. */
  function CountKeyed(cs: seq<Cells>): nat
    decreases |cs|
  {
    if cs == [] then 0 else (if cs[0].key.Some? then 1 else 0) + CountKeyed(cs[1..])
  }

  predicate AllStable(user: UserId, src: Source, t: Tables, cs: seq<Cells>) {
    forall i :: 0 <= i < |cs| ==> Stable(user, src, t, cs[i])
  }

  /** No two rows name the same film. */
  predicate DistinctKeys(cs: seq<Cells>) {
    forall i, j :: 0 <= i < j < |cs| && cs[i].key.Some? ==> cs[i].key != cs[j].key
  }

  /** A file whose rows are all stable changes nothing but the matched count, which
      grows by the number of keyed rows. */
  lemma {:induction false} FoldNoChange(user: UserId, src: Source, t: Tables, c: Counters, cs: seq<Cells>)
    requires AllStable(user, src, t, cs)
    ensures FoldCells(user, src, State(t, c), cs) == Success(State(t, c.(moviesMatched := c.moviesMatched + CountKeyed(cs))))
    decreases |cs|
  {
    if cs != [] {
      StableNoChange(user, src, State(t, c), cs[0]);
      var c1 := c.(moviesMatched := c.moviesMatched + (if cs[0].key.Some? then 1 else 0));
      assert AllStable(user, src, t, cs[1..]) by {
        forall i | 0 <= i < |cs[1..]| ensures Stable(user, src, t, cs[1..][i]) {
          assert cs[1..][i] == cs[i + 1];
        }
      }
      FoldNoChange(user, src, t, c1, cs[1..]);
    }
  }

  /** Over a file, created plus matched grows by exactly the number of keyed rows. */
  lemma {:induction false} FoldMovieCounters(user: UserId, src: Source, s: State, cs: seq<Cells>, s': State)
    requires FoldCells(user, src, s, cs) == Success(s')
    ensures s'.counters.moviesCreated + s'.counters.moviesMatched
         == s.counters.moviesCreated + s.counters.moviesMatched + CountKeyed(cs)
    decreases |cs|
  {
    if cs != [] {
      var s1 := StepSpec(user, src, s, cs[0]).value;
      StepMovieCounters(user, src, s, cs[0], s1);
      FoldMovieCounters(user, src, s1, cs[1..], s');
    }
  }

  /** Over a file, the tables stay valid. */
  lemma {:induction false} FoldPreservesValid(user: UserId, src: Source, s: State, cs: seq<Cells>, s': State)
    requires ValidTables(s.tables) && FoldCells(user, src, s, cs) == Success(s')
    ensures ValidTables(s'.tables)
    decreases |cs|
  {
    if cs != [] {
      var s1 := StepSpec(user, src, s, cs[0]).value;
      StepPreservesValid(user, src, s, cs[0], s1);
      FoldPreservesValid(user, src, s1, cs[1..], s');
    }
  }

  /** A file keeps a stable row stable when none of its rows shares the row's key, or
      when it is read after the row's file. */
  lemma {:induction false} FoldKeepsStable(user: UserId, src: Source, c: Cells, src2: Source, s: State, cs: seq<Cells>, s': State)
    requires c.key.Some? && Stable(user, src, s.tables, c)
    requires FoldCells(user, src2, s, cs) == Success(s')
    requires forall i :: 0 <= i < |cs| ==> cs[i].key != c.key || Later(src, src2)
    ensures Stable(user, src, s'.tables, c)
    decreases |cs|
  {
    if cs != [] {
      var s1 := StepSpec(user, src2, s, cs[0]).value;
      StepKeepsStable(user, src, c, src2, s, cs[0], s1);
      forall i | 0 <= i < |cs[1..]| ensures cs[1..][i].key != c.key || Later(src, src2) {
        assert cs[1..][i] == cs[i + 1];
      }
      FoldKeepsStable(user, src, c, src2, s1, cs[1..], s');
    }
  }

  /** A later file keeps every row of an earlier file stable. */
  lemma FoldKeepsAllStable(user: UserId, src: Source, earlier: seq<Cells>, src2: Source, s: State, cs: seq<Cells>, s': State)
    requires Later(src, src2) && AllStable(user, src, s.tables, earlier)
    requires FoldCells(user, src2, s, cs) == Success(s')
    ensures AllStable(user, src, s'.tables, earlier)
  {
    forall i | 0 <= i < |earlier| ensures Stable(user, src, s'.tables, earlier[i]) {
      if earlier[i].key.Some? {
        FoldKeepsStable(user, src, earlier[i], src2, s, cs, s');
      }
    }
  }

  /** After a file whose rows name distinct films, every one of its rows is stable. */
  lemma {:induction false} FoldEstablishes(user: UserId, src: Source, s: State, cs: seq<Cells>, s': State)
    requires DistinctKeys(cs) && FoldCells(user, src, s, cs) == Success(s')
    ensures AllStable(user, src, s'.tables, cs)
    decreases |cs|
  {
    if cs != [] {
      var s1 := StepSpec(user, src, s, cs[0]).value;
      var rest := cs[1..];
      assert DistinctKeys(rest) by {
        forall i, j | 0 <= i < j < |rest| && rest[i].key.Some? ensures rest[i].key != rest[j].key {
          assert rest[i] == cs[i + 1] && rest[j] == cs[j + 1];
        }
      }
      FoldEstablishes(user, src, s1, rest, s');
      if cs[0].key.Some? {
        StableAfterStep(user, src, s, cs[0], s1);
        forall i | 0 <= i < |rest| ensures rest[i].key != cs[0].key || Later(src, src) {
          assert rest[i] == cs[i + 1];
        }
        FoldKeepsStable(user, src, cs[0], src, s1, rest, s');
      }
      forall i | 0 <= i < |cs| ensures Stable(user, src, s'.tables, cs[i]) {
        if i > 0 {
          assert cs[i] == rest[i - 1];
        }
      }
    }
  }

  // ---------------------------------------------------------------------------
  // A whole run

  /** No two rows of the file name the same film. */
  predicate DistinctRowKeys(cfg: Config, rows: seq<Row>) {
    forall i, j :: 0 <= i < j < |rows| && RowKey(cfg, rows[i]).Some? ==> RowKey(cfg, rows[i]) != RowKey(cfg, rows[j])
  }

  lemma DistinctDigests(cfg: Config, src: Source, rows: seq<Row>)
    requires DistinctRowKeys(cfg, rows)
    ensures DistinctKeys(Digests(cfg, src, rows))
  {
  }

  /** An import keeps the tables valid. */
  lemma RunPreservesValid(cfg: Config, t: Tables, reviews: Option<seq<Row>>, watchlist: Option<seq<Row>>, likes: Option<seq<Row>>, s': State)
    requires ValidTables(t) && RunSpec(cfg, t, reviews, watchlist, likes) == Success(s')
    ensures ValidTables(s'.tables)
  {
    RunCellsPreservesValid(cfg.user, t, Digests(cfg, Reviews, Rows(reviews)), Digests(cfg, Watchlist, Rows(watchlist)), Digests(cfg, Likes, Rows(likes)), s');
  }

  lemma RunCellsPreservesValid(user: UserId, t: Tables, R: seq<Cells>, W: seq<Cells>, L: seq<Cells>, s': State)
    requires ValidTables(t) && RunCells(user, t, R, W, L) == Success(s')
    ensures ValidTables(s'.tables)
  {
    var a := FoldCells(user, Reviews, State(t, ZERO), R).value;
    FoldPreservesValid(user, Reviews, State(t, ZERO), R, a);
    var b := FoldCells(user, Watchlist, a, W).value;
    FoldPreservesValid(user, Watchlist, a, W, b);
    FoldPreservesValid(user, Likes, b, L, s');
  }

  /** Importing the same files a second time, into the tables the first import left,
      creates nothing and updates nothing, and every keyed row counts as matched, when
      no file names a film twice. */
  lemma RunIdempotent(cfg: Config, t: Tables, reviews: Option<seq<Row>>, watchlist: Option<seq<Row>>, likes: Option<seq<Row>>, s': State)
    requires RunSpec(cfg, t, reviews, watchlist, likes) == Success(s')
    requires DistinctRowKeys(cfg, Rows(reviews)) && DistinctRowKeys(cfg, Rows(watchlist)) && DistinctRowKeys(cfg, Rows(likes))
    ensures RunSpec(cfg, s'.tables, reviews, watchlist, likes)
         == Success(State(s'.tables, Counters(0, s'.counters.moviesCreated + s'.counters.moviesMatched, 0, 0)))
  {
    DistinctDigests(cfg, Reviews, Rows(reviews));
    DistinctDigests(cfg, Watchlist, Rows(watchlist));
    DistinctDigests(cfg, Likes, Rows(likes));
    RunCellsIdempotent(cfg.user, t, Digests(cfg, Reviews, Rows(reviews)), Digests(cfg, Watchlist, Rows(watchlist)), Digests(cfg, Likes, Rows(likes)), s');
  }

  lemma RunCellsIdempotent(user: UserId, t: Tables, R: seq<Cells>, W: seq<Cells>, L: seq<Cells>, s': State)
    requires RunCells(user, t, R, W, L) == Success(s')
    requires DistinctKeys(R) && DistinctKeys(W) && DistinctKeys(L)
    ensures RunCells(user, s'.tables, R, W, L)
         == Success(State(s'.tables, Counters(0, s'.counters.moviesCreated + s'.counters.moviesMatched, 0, 0)))
  {
    var t1 := s'.tables;
    var a := FoldCells(user, Reviews, State(t, ZERO), R).value;
    var b := FoldCells(user, Watchlist, a, W).value;
    assert FoldCells(user, Likes, b, L) == Success(s');
    FoldEstablishes(user, Reviews, State(t, ZERO), R, a);
    FoldKeepsAllStable(user, Reviews, R, Watchlist, a, W, b);
    FoldKeepsAllStable(user, Reviews, R, Likes, b, L, s');
    FoldEstablishes(user, Watchlist, a, W, b);
    FoldKeepsAllStable(user, Watchlist, W, Likes, b, L, s');
    FoldEstablishes(user, Likes, b, L, s');
    FoldMovieCounters(user, Reviews, State(t, ZERO), R, a);
    FoldMovieCounters(user, Watchlist, a, W, b);
    FoldMovieCounters(user, Likes, b, L, s');
    var c1 := ZERO.(moviesMatched := CountKeyed(R));
    var c2 := c1.(moviesMatched := c1.moviesMatched + CountKeyed(W));
    FoldNoChange(user, Reviews, t1, ZERO, R);
    FoldNoChange(user, Watchlist, t1, c1, W);
    FoldNoChange(user, Likes, t1, c2, L);
  }
}
