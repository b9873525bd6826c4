/** The `Movie` and `MovieUser` records of `models.py` and the constraints the
    database keeps on them. A table of movies is a sequence in primary-key order
    (the key of `movies[i]` is `i`); the MovieUser table is a map keyed by the
    (user, movie) pair that its unique constraint makes a key. */
module Models {
  import opened Wrappers
  import opened Dates

  /** `watch_status` declares three choices and no default; a CharField without a
      default is stored as the empty string, which is `Blank` here. */
  datatype WatchStatus = Blank | Watched | WantToWatch | NotInterested

  const TITLE_MAX_LENGTH: nat := 255

  type UserId = nat
  type MovieId = nat
  type RelationKey = (UserId, MovieId)

  datatype Movie = Movie(title: string, releaseDate: Option<Date>, letterboxdUri: Option<string>)

  datatype MovieUser = MovieUser(
    rating: Option<real>,
    review: Option<string>,
    watchStatus: WatchStatus,
    watchedDate: Option<Date>,
    liked: bool,
    inWatchlist: bool,
    rewatch: bool)

  /** A MovieUser row as `get_or_create` makes it: optional fields empty, flags false,
      and the status the empty string. */
  const NEW_MOVIE_USER: MovieUser := MovieUser(None, None, Blank, None, false, false, false)

  datatype Tables = Tables(movies: seq<Movie>, relations: map<RelationKey, MovieUser>)

  /** `letterboxd_uri` is nullable and unique among the non-null values. */
  predicate UniqueUris(movies: seq<Movie>) {
    forall i, j :: 0 <= i < j < |movies| && movies[i].letterboxdUri.Some? ==> movies[i].letterboxdUri != movies[j].letterboxdUri
  }

  /** The constraints the import keeps: unique URIs, titles within 255 characters, and
      every MovieUser row pointing at an existing movie (the pair is unique by being
      the map's key). */
  predicate ValidTables(t: Tables) {
    && UniqueUris(t.movies)
    && (forall i :: 0 <= i < |t.movies| ==> |t.movies[i].title| <= TITLE_MAX_LENGTH)
    && (forall k :: k in t.relations ==> k.1 < |t.movies|)
  }

  /** `Movie.objects.filter(letterboxd_uri=uri).first()`: the movie with the lowest key
      holding `uri`, if any. */
  function FindByUri(movies: seq<Movie>, uri: string): (r: Option<MovieId>)
    ensures r.Some? ==> r.value < |movies| && movies[r.value].letterboxdUri == Some(uri)
    ensures r.Some? ==> forall j :: 0 <= j < r.value ==> movies[j].letterboxdUri != Some(uri)
    ensures r.None? ==> forall j :: 0 <= j < |movies| ==> movies[j].letterboxdUri != Some(uri)
  {
    if |movies| == 0 then None
    else
      match FindByUri(movies[..|movies| - 1], uri)
      case Some(i) => Some(i)
      case None => if movies[|movies| - 1].letterboxdUri == Some(uri) then Some(|movies| - 1) else None
  }

  /** Adding a movie with another URI does not change which movie a URI finds. */
  lemma {:induction false} FindByUriAppend(movies: seq<Movie>, m: Movie, uri: string)
    requires m.letterboxdUri != Some(uri) || FindByUri(movies, uri).Some?
    ensures FindByUri(movies + [m], uri) == FindByUri(movies, uri)
  {
    assert (movies + [m])[..|movies|] == movies;
  }

  /** Changing a movie's title does not change which movie a URI finds. */
  lemma {:induction false} FindByUriRetitle(movies: seq<Movie>, id: nat, title: string, uri: string)
    requires id < |movies|
    ensures FindByUri(movies[id := movies[id].(title := title)], uri) == FindByUri(movies, uri)
    decreases |movies|
  {
    var ms := movies[id := movies[id].(title := title)];
    if id < |movies| - 1 {
      assert ms[..|ms| - 1] == movies[..|movies| - 1][id := movies[id].(title := title)];
      FindByUriRetitle(movies[..|movies| - 1], id, title, uri);
    } else {
      assert ms[..|ms| - 1] == movies[..|movies| - 1];
    }
  }

  /** With unique URIs the movie found is the only one holding the URI. */
  lemma FindByUriUnique(movies: seq<Movie>, uri: string, j: nat)
    requires UniqueUris(movies) && j < |movies| && movies[j].letterboxdUri == Some(uri)
    ensures FindByUri(movies, uri) == Some(j)
  {
  }
}
