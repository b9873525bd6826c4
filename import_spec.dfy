/** What one run of the Letterboxd CSV import does to the two tables and the four
    counters of `services/letterboxd_import.py` (and of the identical closure in the
    earlier `views.py`), stated as functions over values. The imperative model in
    `LetterboxdImport` is proved equal to these functions; the lemmas here and in
    `ImportProperties` state what the import promises. */
module ImportSpec {
  import opened Wrappers
  import opened Builtins
  import opened Dates
  import opened Models
  import opened LetterboxdUri
  import opened LegacyHelpers

  /** The columns of the Letterboxd export that the import reads; the others are
      ignored. */
  datatype Column = NameColumn | YearColumn | UriColumn | WatchedDateColumn | RatingColumn | ReviewColumn

  /** The header text of each column. */
  function Header(c: Column): (h: string)
    ensures h != ""
  {
    match c
    case NameColumn => "Name"
    case YearColumn => "Year"
    case UriColumn => "Letterboxd URI"
    case WatchedDateColumn => "Watched Date"
    case RatingColumn => "Rating"
    case ReviewColumn => "Review"
  }

  /** The six columns are read under six different headers, so no column stands in for
      another. */
  lemma HeadersDistinct(a: Column, b: Column)
    ensures Header(a) == Header(b) <==> a == b
  {
  }

  /** A CSV row as `csv.DictReader` gives it, restricted to the columns read: a column
      the file lacks, or a short row, is absent from the map. */
  type Row = map<Column, string>

  /** `row.get(Header(column))` */
  function Get(row: Row, column: Column): Option<string> {
    if column in row then Some(row[column]) else None
  }

  /** Which copy of the import closure runs: the service module, or the earlier
      `views.py`, whose only difference is the URI normaliser it calls. */
  datatype Revision = Service | Legacy

  /** The importing user, the revision, and `float()` on a stripped, non-empty rating
      (floating-point parsing is not modelled; `None` stands for the exception). */
  datatype Config = Config(user: UserId, rev: Revision, floatOf: string -> Option<real>)

  datatype Counters = Counters(moviesCreated: nat, moviesMatched: nat, relationshipsCreated: nat, relationshipsUpdated: nat)

  const ZERO: Counters := Counters(0, 0, 0, 0)

  datatype State = State(tables: Tables, counters: Counters)

  /** The only exception a row can raise: `parse_iso_date` on a malformed `Watched Date`. */
  datatype ImportError = MalformedWatchedDate

  /** The three CSV files, in the order the import reads them. */
  datatype Source = Reviews | Watchlist | Likes

  /** `second` is read after `first`. */
  predicate Later(first: Source, second: Source) {
    (first == Reviews && second != Reviews) || (first == Watchlist && second == Likes)
  }

  // ---------------------------------------------------------------------------
  // The closures' pure helpers

  /** `upsert_movie`'s key: the normalised URI, or `None` when it is falsy. */
  function Canonical(rev: Revision, uri: Option<string>): (r: Option<string>)
    ensures r.Some? ==> r.value != ""
  {
    match rev
    case Service =>
      var r := NormalizeLetterboxdUri(uri);
      assert r.Some? ==> |r.value| > 0 by {
        if r.Some? {
          var slug :| IsSlug(slug) && r.value == CanonicalUri(slug);
        }
      }
      r
    case Legacy =>
      var u := LegacyNormalize(uri);
      if u == "" then None else Some(u)
  }

  function RowKey(cfg: Config, row: Row): Option<string> {
    Canonical(cfg.rev, Get(row, UriColumn))
  }

  /** `s[:255]` */
  function Trim255(s: string): (r: string)
    ensures |r| <= |s| && |r| <= TITLE_MAX_LENGTH && r == s[..|r|]
    ensures |s| <= TITLE_MAX_LENGTH ==> r == s
  {
    if |s| <= TITLE_MAX_LENGTH then s else s[..TITLE_MAX_LENGTH]
  }

  /** The title of a movie the import creates: `(name or "").strip()[:255] or "Unknown"`. */
  function NewTitle(name: Option<string>): (t: string)
    ensures 0 < |t| <= TITLE_MAX_LENGTH
    ensures Strip(OrEmpty(name)) == "" ==> t == "Unknown"
    ensures Strip(OrEmpty(name)) != "" ==> t == Trim255(Strip(OrEmpty(name)))
  {
    var t := Trim255(Strip(OrEmpty(name)));
    if t == "" then "Unknown" else t
  }

  /** `year_to_date`: 1 January of the year when the cell is an integer in 1..9999, and
      `None` otherwise (an empty cell, a non-integer, 0, and any year `date` rejects). */
  function YearToDate(year: Option<string>): (r: Option<Date>)
    ensures r.Some? <==> Truthy(year) && ParseInt(year.value).Some? && 1 <= ParseInt(year.value).value <= 9999
    ensures r.Some? ==> r.value == Date(ParseInt(year.value).value, 1, 1) && ValidDate(r.value)
  {
    if !Truthy(year) then None
    else
      match ParseInt(year.value)
      case None => None
      case Some(y) => if y == 0 then None else if 1 <= y <= 9999 then Some(Date(y, 1, 1)) else None
  }

  /** `int()` reads decimal digits of every script, so a year in Arabic-Indic digits is a year. */
  lemma OtherScriptYearToDate(s: string)
    requires s == "\U{0661}\U{0669}\U{0669}\U{0669}"
    ensures YearToDate(Some(s)) == Some(Date(1999, 1, 1))
  {
    OtherScriptInt(s);
  }

  /** `parse_float`: blank is `None`; otherwise `float()` of the stripped text. */
  function ParseFloat(floatOf: string -> Option<real>, s: Option<string>): (r: Option<real>)
    ensures Strip(OrEmpty(s)) == "" ==> r.None?
  {
    var t := Strip(OrEmpty(s));
    if t == "" then None else floatOf(t)
  }

  // ---------------------------------------------------------------------------
  // upsert_movie and get_or_create_mu

  /** `upsert_movie(name, year, uri)`: skip a row without a key; otherwise match the
      first movie holding the key (filling a blank title from the name), or create one. */
  function UpsertMovieSpec(cfg: Config, s: State, name: Option<string>, year: Option<string>, uri: Option<string>): (r: (State, Option<MovieId>))
    ensures r.1.None? <==> Canonical(cfg.rev, uri).None?
    ensures r.1.Some? ==> r.1.value < |r.0.tables.movies| && r.0.tables.movies[r.1.value].letterboxdUri == Canonical(cfg.rev, uri)
  {
    UpsertKey(s, name, year, Canonical(cfg.rev, uri))
  }

  /** `upsert_movie` once the URI is normalised. */
  function UpsertKey(s: State, name: Option<string>, year: Option<string>, key: Option<string>): (r: (State, Option<MovieId>))
    ensures r.1.None? <==> key.None?
    ensures r.1.None? ==> r.0 == s
    ensures r.1.Some? ==> r.1.value < |r.0.tables.movies| && r.0.tables.movies[r.1.value].letterboxdUri == key
    ensures r.1.Some? ==> r.0.counters.moviesCreated + r.0.counters.moviesMatched == s.counters.moviesCreated + s.counters.moviesMatched + 1
    ensures r.0.counters.relationshipsCreated == s.counters.relationshipsCreated
    ensures r.0.counters.relationshipsUpdated == s.counters.relationshipsUpdated
    ensures r.0.tables.relations == s.tables.relations
  {
    match key
    case None => (s, None)
    case Some(k) =>
      match FindByUri(s.tables.movies, k)
      case Some(id) => (MatchMovie(s, id, name), Some(id))
      case None => (CreateMovie(s, k, name, year), Some(|s.tables.movies|))
  }

  /** The matched branch: a blank title takes the row's name when the name is truthy. */
  function MatchMovie(s: State, id: MovieId, name: Option<string>): (r: State)
    requires id < |s.tables.movies|
    ensures |r.tables.movies| == |s.tables.movies| && r.tables.relations == s.tables.relations
    ensures forall j :: 0 <= j < |s.tables.movies| && j != id ==> r.tables.movies[j] == s.tables.movies[j]
    ensures r.tables.movies[id].letterboxdUri == s.tables.movies[id].letterboxdUri
    ensures s.tables.movies[id].title == "" && Truthy(name) ==>
      r.tables.movies[id] == s.tables.movies[id].(title := Trim255(Strip(OrEmpty(name))))
    ensures s.tables.movies[id].title != "" || !Truthy(name) ==> r.tables.movies[id] == s.tables.movies[id]
    ensures r.counters == s.counters.(moviesMatched := s.counters.moviesMatched + 1)
  {
    var m := s.tables.movies[id];
    var movies := if m.title == "" && Truthy(name) then s.tables.movies[id := m.(title := Trim255(Strip(OrEmpty(name))))] else s.tables.movies;
    State(s.tables.(movies := movies), s.counters.(moviesMatched := s.counters.moviesMatched + 1))
  }

  /** The created branch: a new movie with the trimmed name (or "Unknown"), the year's
      1 January and the key. */
  function CreateMovie(s: State, key: string, name: Option<string>, year: Option<string>): (r: State)
    ensures r.tables.movies == s.tables.movies + [Movie(NewTitle(name), YearToDate(year), Some(key))]
    ensures r.tables.relations == s.tables.relations
    ensures r.counters == s.counters.(moviesCreated := s.counters.moviesCreated + 1)
  {
    AddMovie(s, Movie(NewTitle(name), YearToDate(year), Some(key)))
  }

  /** `Movie.objects.create(...)` of a given movie, counted as created. */
  function AddMovie(s: State, m: Movie): (r: State)
    ensures r.tables.movies == s.tables.movies + [m] && r.tables.relations == s.tables.relations
    ensures r.counters == s.counters.(moviesCreated := s.counters.moviesCreated + 1)
  {
    State(s.tables.(movies := s.tables.movies + [m]), s.counters.(moviesCreated := s.counters.moviesCreated + 1))
  }

  /** `MovieUser.objects.get_or_create(user=user, movie=movie)` */
  function GetOrCreateSpec(user: UserId, s: State, id: MovieId): (r: State)
    ensures (user, id) in r.tables.relations
    ensures r.tables.movies == s.tables.movies
    ensures r.counters.relationshipsCreated == s.counters.relationshipsCreated + (if (user, id) in s.tables.relations then 0 else 1)
  {
    var key := (user, id);
    if key in s.tables.relations then s
    else State(s.tables.(relations := s.tables.relations[key := NEW_MOVIE_USER]),
               s.counters.(relationshipsCreated := s.counters.relationshipsCreated + 1))
  }

  // ---------------------------------------------------------------------------
  // apply_update

  /** One entry of the `updates` dict: a MovieUser field and the value proposed for it. */
  datatype Update =
    | SetWatchStatus(status: WatchStatus)
    | SetWatchedDate(date: Date)
    | SetRating(rating: real)
    | SetReview(review: string)
    | SetInWatchlist(inWatchlist: bool)
    | SetLiked(liked: bool)

  datatype Field = WatchStatusField | WatchedDateField | RatingField | ReviewField | InWatchlistField | LikedField

  function FieldOf(u: Update): Field {
    match u
    case SetWatchStatus(_) => WatchStatusField
    case SetWatchedDate(_) => WatchedDateField
    case SetRating(_) => RatingField
    case SetReview(_) => ReviewField
    case SetInWatchlist(_) => InWatchlistField
    case SetLiked(_) => LikedField
  }

  /** `getattr(mu, k) == v` */
  predicate Holds(mu: MovieUser, u: Update) {
    match u
    case SetWatchStatus(x) => mu.watchStatus == x
    case SetWatchedDate(x) => mu.watchedDate == Some(x)
    case SetRating(x) => mu.rating == Some(x)
    case SetReview(x) => mu.review == Some(x)
    case SetInWatchlist(x) => mu.inWatchlist == x
    case SetLiked(x) => mu.liked == x
  }

  /** `setattr(mu, k, v)` */
  function Assign(mu: MovieUser, u: Update): (r: MovieUser)
    ensures Holds(r, u)
  {
    match u
    case SetWatchStatus(x) => mu.(watchStatus := x)
    case SetWatchedDate(x) => mu.(watchedDate := Some(x))
    case SetRating(x) => mu.(rating := Some(x))
    case SetReview(x) => mu.(review := Some(x))
    case SetInWatchlist(x) => mu.(inWatchlist := x)
    case SetLiked(x) => mu.(liked := x)
  }

  predicate AllHold(mu: MovieUser, us: seq<Update>) {
    forall i :: 0 <= i < |us| ==> Holds(mu, us[i])
  }

  /** The keys of a dict are distinct. */
  predicate DistinctFields(us: seq<Update>) {
    forall i, j :: 0 <= i < j < |us| ==> FieldOf(us[i]) != FieldOf(us[j])
  }

  /** Every update assigned in order. */
  function AssignAll(mu: MovieUser, us: seq<Update>): MovieUser
    decreases |us|
  {
    if us == [] then mu else AssignAll(Assign(mu, us[0]), us[1..])
  }

  /** The loop of `apply_update` from some point on: each entry whose value differs is
      assigned and marks the record changed. */
  function Diff(mu: MovieUser, changed: bool, us: seq<Update>): (MovieUser, bool)
    decreases |us|
  {
    if us == [] then (mu, changed)
    else if Holds(mu, us[0]) then Diff(mu, changed, us[1..])
    else Diff(Assign(mu, us[0]), true, us[1..])
  }

  /** `apply_update(mu, updates)`: the record is saved, and counted once, only when some
      value differed. */
  function ApplyUpdateSpec(s: State, key: RelationKey, us: seq<Update>): State
    requires key in s.tables.relations
  {
    var (mu, changed) := Diff(s.tables.relations[key], false, us);
    if changed then
      State(s.tables.(relations := s.tables.relations[key := mu]),
            s.counters.(relationshipsUpdated := s.counters.relationshipsUpdated + 1))
    else s
  }

  lemma AssignHeld(mu: MovieUser, u: Update)
    requires Holds(mu, u)
    ensures Assign(mu, u) == mu
  {
  }

  lemma HoldsAssignOther(mu: MovieUser, u: Update, v: Update)
    requires FieldOf(u) != FieldOf(v)
    ensures Holds(Assign(mu, v), u) == Holds(mu, u)
  {
  }

  /** The record the loop leaves is every update assigned in turn, and the loop marks a
      change exactly when some proposed value differed from the record it started with. */
  lemma {:induction false} DiffResult(mu: MovieUser, changed: bool, us: seq<Update>)
    ensures Diff(mu, changed, us).0 == AssignAll(mu, us)
    ensures Diff(mu, changed, us).1 == (changed || !AllHold(mu, us))
    decreases |us|
  {
    if us != [] {
      if Holds(mu, us[0]) {
        AssignHeld(mu, us[0]);
        DiffResult(mu, changed, us[1..]);
        assert AllHold(mu, us) <==> AllHold(mu, us[1..]) by {
          assert forall i :: 1 <= i < |us| ==> us[i] == us[1..][i - 1];
        }
      } else {
        DiffResult(Assign(mu, us[0]), true, us[1..]);
      }
    }
  }

  /** An update whose field no later update touches stays true. */
  lemma {:induction false} AssignAllKeeps(mu: MovieUser, us: seq<Update>, u: Update)
    requires forall i :: 0 <= i < |us| ==> FieldOf(us[i]) != FieldOf(u)
    requires Holds(mu, u)
    ensures Holds(AssignAll(mu, us), u)
    decreases |us|
  {
    if us != [] {
      HoldsAssignOther(mu, u, us[0]);
      AssignAllKeeps(Assign(mu, us[0]), us[1..], u);
    }
  }

  /** After assigning a dict's updates, every one of them holds. */
  lemma {:induction false} AssignAllEstablishes(mu: MovieUser, us: seq<Update>)
    requires DistinctFields(us)
    ensures AllHold(AssignAll(mu, us), us)
    decreases |us|
  {
    if us != [] {
      var rest := us[1..];
      assert DistinctFields(rest) by {
        forall i, j | 0 <= i < j < |rest| ensures FieldOf(rest[i]) != FieldOf(rest[j]) {
          assert rest[i] == us[i + 1] && rest[j] == us[j + 1];
        }
      }
      AssignAllEstablishes(Assign(mu, us[0]), rest);
      forall i | 0 <= i < |rest| ensures FieldOf(rest[i]) != FieldOf(us[0]) {
        assert rest[i] == us[i + 1];
      }
      AssignAllKeeps(Assign(mu, us[0]), rest, us[0]);
      forall i | 0 <= i < |us| ensures Holds(AssignAll(mu, us), us[i]) {
        if i > 0 {
          assert us[i] == rest[i - 1];
        }
      }
    }
  }

  lemma {:induction false} AssignAllAppend(mu: MovieUser, a: seq<Update>, b: seq<Update>)
    ensures AssignAll(mu, a + b) == AssignAll(AssignAll(mu, a), b)
    decreases |a|
  {
    if a == [] {
      assert a + b == b;
    } else {
      assert (a + b)[1..] == a[1..] + b;
      AssignAllAppend(Assign(mu, a[0]), a[1..], b);
    }
  }

  /** What `apply_update` leaves: the record with every update assigned, saved and
      counted once when some value differed, and the state untouched when none did. */
  lemma ApplyUpdateEffect(s: State, key: RelationKey, us: seq<Update>)
    requires key in s.tables.relations
    ensures var mu := s.tables.relations[key];
      ApplyUpdateSpec(s, key, us)
      == if AllHold(mu, us) then s
         else State(s.tables.(relations := s.tables.relations[key := AssignAll(mu, us)]),
                    s.counters.(relationshipsUpdated := s.counters.relationshipsUpdated + 1))
  {
    DiffResult(s.tables.relations[key], false, us);
  }

  /** Applying the same dict twice changes nothing the second time: no save, no count. */
  lemma ApplyUpdateIdempotent(s: State, key: RelationKey, us: seq<Update>)
    requires key in s.tables.relations && DistinctFields(us)
    ensures key in ApplyUpdateSpec(s, key, us).tables.relations
    ensures ApplyUpdateSpec(ApplyUpdateSpec(s, key, us), key, us) == ApplyUpdateSpec(s, key, us)
  {
    var mu := s.tables.relations[key];
    ApplyUpdateEffect(s, key, us);
    var s1 := ApplyUpdateSpec(s, key, us);
    if !AllHold(mu, us) {
      AssignAllEstablishes(mu, us);
      ApplyUpdateEffect(s1, key, us);
    } else {
      ApplyUpdateEffect(s, key, us);
    }
  }

  // ---------------------------------------------------------------------------
  // The per-CSV row handlers

  /** What a row's cells come to once read: the normalised key, the raw name and year,
      and, for a reviews row, whether the watched date is malformed, the date, the
      rating and the stripped review. */
  datatype Cells = Cells(key: Option<string>, name: Option<string>, year: Option<string>,
                         malformed: bool, watched: Option<Date>, rating: Option<real>, review: string)

  /** What the handler of `src` reads from a row, cell by cell: every handler reads the
      key, the name and the year; only the reviews handler reads the watched date (and
      raises on a malformed one), the rating and the review. */
  predicate ReadsAs(cfg: Config, src: Source, row: Row, c: Cells) {
    && c.key == RowKey(cfg, row) && c.name == Get(row, NameColumn) && c.year == Get(row, YearColumn)
    && (src != Reviews ==> !c.malformed && c.watched.None? && c.rating.None? && c.review == "")
    && (src == Reviews ==> (c.malformed <==> ParseIsoDate(Get(row, WatchedDateColumn)).Failure?))
    && (src == Reviews && !c.malformed ==> Success(c.watched) == ParseIsoDate(Get(row, WatchedDateColumn)))
    && (src == Reviews ==> c.rating == ParseFloat(cfg.floatOf, Get(row, RatingColumn)) && c.review == Strip(OrEmpty(Get(row, ReviewColumn))))
  }

  /** The cells of a row as the handler of `src` reads them. */
  function Digest(cfg: Config, src: Source, row: Row): (c: Cells)
    ensures c.key == RowKey(cfg, row) && c.name == Get(row, NameColumn) && c.year == Get(row, YearColumn)
    ensures src != Reviews ==> !c.malformed && c.watched.None? && c.rating.None? && c.review == ""
    ensures src == Reviews ==> (c.malformed <==> ParseIsoDate(Get(row, WatchedDateColumn)).Failure?)
    ensures src == Reviews && !c.malformed ==> Success(c.watched) == ParseIsoDate(Get(row, WatchedDateColumn))
    ensures src == Reviews ==> c.rating == ParseFloat(cfg.floatOf, Get(row, RatingColumn)) && c.review == Strip(OrEmpty(Get(row, ReviewColumn)))
    ensures ReadsAs(cfg, src, row, c)
  {
    if src != Reviews then Cells(RowKey(cfg, row), Get(row, NameColumn), Get(row, YearColumn), false, None, None, "")
    else
      var watched := ParseIsoDate(Get(row, WatchedDateColumn));
      Cells(RowKey(cfg, row), Get(row, NameColumn), Get(row, YearColumn),
            watched.Failure?, if watched.Success? then watched.value else None,
            ParseFloat(cfg.floatOf, Get(row, RatingColumn)), Strip(OrEmpty(Get(row, ReviewColumn))))
  }

  /** The dict a reviews row proposes: always "Watched", then the watched date, the
      rating and the review when the row supplies them. */
  function ReviewUpdates(watched: Option<Date>, rating: Option<real>, review: string): seq<Update> {
    [SetWatchStatus(Watched)]
    + (if watched.Some? then [SetWatchedDate(watched.value)] else [])
    + (if rating.Some? then [SetRating(rating.value)] else [])
    + (if review != "" then [SetReview(review)] else [])
  }

  /** The dict a watchlist row proposes: on the watchlist, and "Want to Watch" only for a
      record with no watched date that is not "Watched". */
  function WatchlistUpdates(mu: MovieUser): seq<Update> {
    [SetInWatchlist(true)] + (if mu.watchedDate.None? && mu.watchStatus != Watched then [SetWatchStatus(WantToWatch)] else [])
  }

  const LIKES_UPDATES: seq<Update> := [SetLiked(true)]

  /** The dict a row proposes for the record it finds. */
  function RowUpdates(src: Source, mu: MovieUser, c: Cells): seq<Update> {
    match src
    case Reviews => ReviewUpdates(c.watched, c.rating, c.review)
    case Watchlist => WatchlistUpdates(mu)
    case Likes => LIKES_UPDATES
  }

  /** `apply_update(mu, updates)` with the dict of the row's file. */
  function RecordStep(src: Source, s: State, key: RelationKey, c: Cells): State
    requires key in s.tables.relations
  {
    ApplyUpdateSpec(s, key, RowUpdates(src, s.tables.relations[key], c))
  }

  /** One row of one CSV file, from its cells: upsert the movie, find or create the
      record, and apply the file's dict to it. A malformed watched date raises; the
      import then rolls back, so what the row had already written does not matter. */
  function StepSpec(user: UserId, src: Source, s: State, c: Cells): Result<State, ImportError> {
    var u := UpsertKey(s, c.name, c.year, c.key);
    if u.1.None? then Success(u.0)
    else if c.malformed then Failure(MalformedWatchedDate)
    else Success(RecordStep(src, GetOrCreateSpec(user, u.0, u.1.value), (user, u.1.value), c))
  }

  /** One row of one CSV file. */
  function RowSpec(cfg: Config, src: Source, s: State, row: Row): Result<State, ImportError> {
    StepSpec(cfg.user, src, s, Digest(cfg, src, row))
  }

  /** The rows of one CSV file in order, from their cells; the first exception ends the
      import. */
  function FoldCells(user: UserId, src: Source, s: State, cs: seq<Cells>): Result<State, ImportError>
    decreases |cs|
  {
    if cs == [] then Success(s)
    else
      match StepSpec(user, src, s, cs[0])
      case Failure(e) => Failure(e)
      case Success(s1) => FoldCells(user, src, s1, cs[1..])
  }

  /** One step of the fold: the first row, then the rest from where it left the state. */
  lemma FoldCellsCons(user: UserId, src: Source, s: State, cs: seq<Cells>)
    requires cs != []
    ensures StepSpec(user, src, s, cs[0]).Failure? ==> FoldCells(user, src, s, cs) == StepSpec(user, src, s, cs[0])
    ensures StepSpec(user, src, s, cs[0]).Success? ==> FoldCells(user, src, s, cs) == FoldCells(user, src, StepSpec(user, src, s, cs[0]).value, cs[1..])
  {
  }

  /** The cells of each row of a file, in order. */
  function Digests(cfg: Config, src: Source, rows: seq<Row>): (cs: seq<Cells>)
    ensures |cs| == |rows| && forall i :: 0 <= i < |rows| ==> cs[i] == Digest(cfg, src, rows[i])
  {
    seq(|rows|, i requires 0 <= i < |rows| => Digest(cfg, src, rows[i]))
  }

  /** Each row of a file reads as its cells. */
  predicate AllReadAs(cfg: Config, src: Source, rows: seq<Row>, cs: seq<Cells>) {
    |cs| == |rows| && forall i :: 0 <= i < |rows| ==> ReadsAs(cfg, src, rows[i], cs[i])
  }

  lemma DigestsReadAs(cfg: Config, src: Source, rows: seq<Row>)
    ensures AllReadAs(cfg, src, rows, Digests(cfg, src, rows))
  {
  }

  /** The rows of one CSV file in order. */
  function Fold(cfg: Config, src: Source, s: State, rows: seq<Row>): Result<State, ImportError> {
    FoldCells(cfg.user, src, s, Digests(cfg, src, rows))
  }

  /** The rows of a file, or none when it was not uploaded (`if file:`). */
  function Rows(file: Option<seq<Row>>): seq<Row> {
    if file.Some? then file.value else []
  }

  /** `run_letterboxd_import`: reviews, then watchlist, then likes, from zero counters;
      the tables and counters it ends with, or the exception that rolls it back. */
  function RunSpec(cfg: Config, t: Tables, reviews: Option<seq<Row>>, watchlist: Option<seq<Row>>, likes: Option<seq<Row>>): Result<State, ImportError> {
    RunCells(cfg.user, t, Digests(cfg, Reviews, Rows(reviews)), Digests(cfg, Watchlist, Rows(watchlist)), Digests(cfg, Likes, Rows(likes)))
  }

  /** The run over the three files' cells. */
  function RunCells(user: UserId, t: Tables, reviews: seq<Cells>, watchlist: seq<Cells>, likes: seq<Cells>): Result<State, ImportError> {
    match FoldCells(user, Reviews, State(t, ZERO), reviews)
    case Failure(e) => Failure(e)
    case Success(s1) =>
      match FoldCells(user, Watchlist, s1, watchlist)
      case Failure(e) => Failure(e)
      case Success(s2) => FoldCells(user, Likes, s2, likes)
  }

  // ---------------------------------------------------------------------------
  // What a row's dict does

  /** The record a row's dict leaves, in closed form. */
  function ReviewsRecord(mu: MovieUser, watched: Option<Date>, rating: Option<real>, review: string): MovieUser {
    mu.(watchStatus := Watched,
        watchedDate := if watched.Some? then watched else mu.watchedDate,
        rating := if rating.Some? then rating else mu.rating,
        review := if review != "" then Some(review) else mu.review)
  }

  function WatchlistRecord(mu: MovieUser): MovieUser {
    mu.(inWatchlist := true,
        watchStatus := if mu.watchedDate.None? && mu.watchStatus != Watched then WantToWatch else mu.watchStatus)
  }

  function RecordAfter(src: Source, mu: MovieUser, c: Cells): MovieUser {
    match src
    case Reviews => ReviewsRecord(mu, c.watched, c.rating, c.review)
    case Watchlist => WatchlistRecord(mu)
    case Likes => mu.(liked := true)
  }

  /** A record the reviews dict leaves unchanged. */
  predicate ReviewSettled(mu: MovieUser, watched: Option<Date>, rating: Option<real>, review: string) {
    && mu.watchStatus == Watched
    && (watched.Some? ==> mu.watchedDate == watched)
    && (rating.Some? ==> mu.rating == rating)
    && (review != "" ==> mu.review == Some(review))
  }

  /** A record the watchlist dict leaves unchanged. */
  predicate WatchlistSettled(mu: MovieUser) {
    mu.inWatchlist && (mu.watchedDate.Some? || mu.watchStatus == Watched || mu.watchStatus == WantToWatch)
  }

  /** A record a row's dict leaves unchanged. */
  predicate Settled(src: Source, mu: MovieUser, c: Cells) {
    match src
    case Reviews => ReviewSettled(mu, c.watched, c.rating, c.review)
    case Watchlist => WatchlistSettled(mu)
    case Likes => mu.liked
  }

  lemma ReviewUpdatesAssign(mu: MovieUser, watched: Option<Date>, rating: Option<real>, review: string)
    ensures AssignAll(mu, ReviewUpdates(watched, rating, review)) == ReviewsRecord(mu, watched, rating, review)
    ensures DistinctFields(ReviewUpdates(watched, rating, review))
  {
    var a: seq<Update> := [SetWatchStatus(Watched)];
    var b: seq<Update> := if watched.Some? then [SetWatchedDate(watched.value)] else [];
    var c: seq<Update> := if rating.Some? then [SetRating(rating.value)] else [];
    var d: seq<Update> := if review != "" then [SetReview(review)] else [];
    AssignAllAppend(mu, a + b + c, d);
    AssignAllAppend(mu, a + b, c);
    AssignAllAppend(mu, a, b);
  }

  lemma ReviewSettledIff(mu: MovieUser, watched: Option<Date>, rating: Option<real>, review: string)
    ensures AllHold(mu, ReviewUpdates(watched, rating, review)) <==> ReviewSettled(mu, watched, rating, review)
  {
    var us := ReviewUpdates(watched, rating, review);
    assert us[0] == SetWatchStatus(Watched);
    if watched.Some? {
      assert SetWatchedDate(watched.value) in us;
    }
    if rating.Some? {
      assert SetRating(rating.value) in us;
    }
    if review != "" {
      assert SetReview(review) in us;
    }
  }

  lemma ReviewsSettledFixed(mu: MovieUser, watched: Option<Date>, rating: Option<real>, review: string)
    requires ReviewSettled(mu, watched, rating, review)
    ensures ReviewsRecord(mu, watched, rating, review) == mu
  {
  }

  lemma WatchlistUpdatesAssign(mu: MovieUser)
    ensures AssignAll(mu, WatchlistUpdates(mu)) == WatchlistRecord(mu)
  {
    var a: seq<Update> := [SetInWatchlist(true)];
    var b: seq<Update> := if mu.watchedDate.None? && mu.watchStatus != Watched then [SetWatchStatus(WantToWatch)] else [];
    AssignAllAppend(mu, a, b);
    assert AssignAll(mu, a) == mu.(inWatchlist := true);
  }

  lemma ReviewsRowFacts(mu: MovieUser, watched: Option<Date>, rating: Option<real>, review: string)
    ensures AssignAll(mu, ReviewUpdates(watched, rating, review)) == ReviewsRecord(mu, watched, rating, review)
    ensures AllHold(mu, ReviewUpdates(watched, rating, review)) <==> ReviewSettled(mu, watched, rating, review)
    ensures ReviewSettled(ReviewsRecord(mu, watched, rating, review), watched, rating, review)
    ensures ReviewSettled(mu, watched, rating, review) ==> ReviewsRecord(mu, watched, rating, review) == mu
  {
    ReviewUpdatesAssign(mu, watched, rating, review);
    ReviewSettledIff(mu, watched, rating, review);
    if ReviewSettled(mu, watched, rating, review) {
      ReviewsSettledFixed(mu, watched, rating, review);
    }
  }

  lemma WatchlistRowFacts(mu: MovieUser)
    ensures AssignAll(mu, WatchlistUpdates(mu)) == WatchlistRecord(mu)
    ensures AllHold(mu, WatchlistUpdates(mu)) <==> WatchlistSettled(mu)
    ensures WatchlistSettled(WatchlistRecord(mu))
    ensures WatchlistSettled(mu) ==> WatchlistRecord(mu) == mu
  {
    WatchlistUpdatesAssign(mu);
    assert WatchlistUpdates(mu)[0] == SetInWatchlist(true);
  }

  lemma LikesRowFacts(mu: MovieUser)
    ensures AssignAll(mu, LIKES_UPDATES) == mu.(liked := true)
    ensures AllHold(mu, LIKES_UPDATES) <==> mu.liked
  {
    assert LIKES_UPDATES[0] == SetLiked(true);
  }

  /** The dict of a row, assigned, is the closed form; it leaves a record unchanged
      exactly when the record is settled; and it leaves every record settled. */
  lemma RowUpdatesFacts(src: Source, mu: MovieUser, c: Cells)
    ensures AssignAll(mu, RowUpdates(src, mu, c)) == RecordAfter(src, mu, c)
    ensures AllHold(mu, RowUpdates(src, mu, c)) <==> Settled(src, mu, c)
    ensures Settled(src, RecordAfter(src, mu, c), c)
    ensures Settled(src, mu, c) ==> RecordAfter(src, mu, c) == mu
  {
    match src
    case Reviews => ReviewsRowFacts(mu, c.watched, c.rating, c.review);
    case Watchlist => WatchlistRowFacts(mu);
    case Likes => LikesRowFacts(mu);
  }

  /** What `apply_update` does with a row's dict, in closed form: nothing when the record
      is settled, and otherwise the record after the dict, saved and counted once. */
  lemma RecordStepEffect(src: Source, s: State, key: RelationKey, c: Cells)
    requires key in s.tables.relations
    ensures var mu := s.tables.relations[key];
      RecordStep(src, s, key, c)
      == if Settled(src, mu, c) then s
         else State(s.tables.(relations := s.tables.relations[key := RecordAfter(src, mu, c)]),
                    s.counters.(relationshipsUpdated := s.counters.relationshipsUpdated + 1))
  {
    var mu := s.tables.relations[key];
    RowUpdatesFacts(src, mu, c);
    ApplyUpdateEffect(s, key, RowUpdates(src, mu, c));
  }

  /** `apply_update` touches only the one record, keeps every key, and counts at most
      one update. */
  lemma RecordStepFrame(src: Source, s: State, key: RelationKey, c: Cells)
    requires key in s.tables.relations
    ensures var r := RecordStep(src, s, key, c);
      && r.tables.movies == s.tables.movies
      && r.tables.relations.Keys == s.tables.relations.Keys
      && (forall k :: k in s.tables.relations && k != key ==> r.tables.relations[k] == s.tables.relations[k])
      && r.tables.relations[key] == RecordAfter(src, s.tables.relations[key], c)
      && r.counters.moviesCreated == s.counters.moviesCreated
      && r.counters.moviesMatched == s.counters.moviesMatched
      && r.counters.relationshipsCreated == s.counters.relationshipsCreated
      && s.counters.relationshipsUpdated <= r.counters.relationshipsUpdated <= s.counters.relationshipsUpdated + 1
  {
    RecordStepEffect(src, s, key, c);
    RowUpdatesFacts(src, s.tables.relations[key], c);
  }
}
