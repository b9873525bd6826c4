/** The two Letterboxd endpoints of `views/letterboxd_views.py`: the CSV upload, which
    checks that some file was sent and hands the files to the import, and the RSS sync,
    which reconciles the entries of a user's public feed with the two tables.

    Two defects of that file shape the model. Its import at lines 7-10 names
    `_build_letterboxd_rss_url` and `_parse_published_date`, which
    `services/letterboxd_import.py` does not define, so loading the module raises
    `ImportError`; the RSS sync here uses the builder of `views.py` with its misspelt
    call corrected (`LegacyHelpers.BuildRssUrl`), and takes each entry's publication
    day as given. And its `return` sits inside the entry loop (line 103), so the sync
    handles the first entry that has a link and no other; that is modelled as written. */
module LetterboxdViews {
  import opened Wrappers
  import opened Builtins
  import opened Dates
  import opened Models
  import opened Store
  import opened ImportSpec
  import opened LetterboxdImport
  import opened LegacyHelpers
  import ImportProperties

  // ---------------------------------------------------------------------------
  // letterboxd_import: the CSV upload endpoint

  /** The files of the multipart request, by form field; an absent field is `None`. */
  datatype Upload = Upload(reviews: Option<seq<Row>>, watchlist: Option<seq<Row>>, films: Option<seq<Row>>, likes: Option<seq<Row>>)

  /** `request.FILES.get("films") or request.FILES.get("likes")`: the likes export is
      accepted under either name, and "films" wins when both are sent. */
  function FilmsFile(u: Upload): (f: Option<seq<Row>>)
    ensures f.Some? <==> u.films.Some? || u.likes.Some?
    ensures u.films.Some? ==> f == u.films
    ensures u.films.None? ==> f == u.likes
  {
    if u.films.Some? then u.films else u.likes
  }

  predicate AnyFile(u: Upload) {
    u.reviews.Some? || u.watchlist.Some? || FilmsFile(u).Some?
  }

  /** What the endpoint answers: 400 with "No files provided", 200 with the four
      counters, or the import's exception (a 500). */
  datatype ImportResponse = NoFilesProvided | ImportOk(counters: Counters) | ImportRaised(error: ImportError)

  /** `letterboxd_import(request)`: reject a request without any file before any import
      work; otherwise run the import (in the revision `cfg.rev`) on the files sent. */
  method LetterboxdImportView(cfg: Config, db: Database, u: Upload) returns (resp: ImportResponse)
    modifies db
    ensures resp == NoFilesProvided <==> !AnyFile(u)
    ensures !AnyFile(u) ==> db.Tables() == old(db.Tables())
    ensures AnyFile(u) ==> match RunSpec(cfg, old(db.Tables()), u.reviews, u.watchlist, FilmsFile(u))
      case Success(s) => resp == ImportOk(s.counters) && db.Tables() == s.tables
      case Failure(e) => resp == ImportRaised(e) && db.Tables() == old(db.Tables())
  {
    var reviewsFile := u.reviews;
    var watchlistFile := u.watchlist;
    var filmsFile := FilmsFile(u);
    if reviewsFile.None? && watchlistFile.None? && filmsFile.None? {
      return NoFilesProvided;
    }
    var counters := RunLetterboxdImport(cfg, db, reviewsFile, watchlistFile, filmsFile);
    match counters
    case Success(c) => resp := ImportOk(c);
    case Failure(e) => resp := ImportRaised(e);
  }

  /** A likes export sent as "likes" alone is imported as the films file, and when both
      fields are sent the "likes" one is ignored. */
  lemma LikesFieldTolerated(u: Upload)
    ensures u.films.None? && u.likes.Some? ==> AnyFile(u) && FilmsFile(u) == u.likes
    ensures u.films.Some? ==> FilmsFile(u) == u.films && FilmsFile(u.(likes := None)) == FilmsFile(u)
  {
  }

  // ---------------------------------------------------------------------------
  // letterboxd_rss: the RSS sync endpoint

  /** A feed entry: `link` and `title` may be missing, and `published` is the
      publication day `_parse_published_date` yields, if any. */
  datatype Entry = Entry(link: Option<string>, title: Option<string>, published: Option<Date>)

  /** What `feedparser.parse` returns: the `bozo` flag and the entries. */
  datatype Feed = Feed(bozo: bool, entries: seq<Entry>)

  datatype RssCounts = RssCounts(entriesProcessed: nat, moviesCreated: nat, movieUserCreated: nat, movieUserUpdated: nat)

  /** What the endpoint answers: 400 for input the builder rejects, 400 for a feed that
      does not parse, 200 with the counters; `None` when no entry has a link (the view
      then returns no response, which the framework turns into a 500); the
      `IntegrityError` of creating a movie without a title; and, in the earlier
      `views.py`, the exception its builder raises. */
  datatype RssResponse =
    | InvalidRssInput
    | UnreadableFeed
    | RssOk(rssUrl: string, counts: RssCounts)
    | NoResponse
    | RaisedIntegrityError
    | BuilderRaised(error: BuildError)

  /** An entry as the loop reads it: `(getattr(entry, "link", "") or "").strip()`, the
      same for the title, and the publication day. */
  datatype Item = Item(link: string, title: string, published: Option<Date>)

  function ReadEntry(e: Entry): Item {
    Item(Strip(OrEmpty(e.link)), Strip(OrEmpty(e.title)), e.published)
  }

  function ReadEntries(entries: seq<Entry>): seq<Item> {
    seq(|entries|, i requires 0 <= i < |entries| => ReadEntry(entries[i]))
  }

  /** The index of the first entry with a non-blank link, or `|items|` when none has
      one. */
  function FirstLinked(items: seq<Item>): (i: nat)
    ensures i <= |items|
    ensures forall j :: 0 <= j < i ==> items[j].link == ""
    ensures i < |items| ==> items[i].link != ""
  {
    if |items| == 0 then 0
    else if items[0].link != "" then 0
    else 1 + FirstLinked(items[1..])
  }

  /** The relation after the sync marks it: "Watched", and the publication day as the
      watched date when the entry has one. The record differs from the old one exactly
      when the status was not "Watched" or the entry has a day other than the stored
      one, which is when the view saves it. */
  function MarkWatched(mu: MovieUser, published: Option<Date>): (r: MovieUser)
    ensures r.watchStatus == Watched
    ensures r.watchedDate == if published.Some? then published else mu.watchedDate
    ensures r.(watchStatus := mu.watchStatus, watchedDate := mu.watchedDate) == mu
    ensures r != mu <==> mu.watchStatus != Watched || (published.Some? && mu.watchedDate != published)
  {
    mu.(watchStatus := Watched, watchedDate := if published.Some? then published else mu.watchedDate)
  }

  /** The movie an entry creates: its title cut to 255 characters, no release date, and
      the link as its key. */
  function LinkedMovie(link: string, title: string): Movie {
    Movie(Trim255(title), None, Some(link))
  }

  /** `Movie.objects.get_or_create(letterboxd_uri=link, defaults={"title": ...})`: the
      movie holding the link, or a new one at the next key; the new row needs a title
      (the column is NOT NULL), so with a blank title the create fails, which is `None`.
      The flag says whether the movie was created. */
  function GetOrCreateMovie(movies: seq<Movie>, link: string, title: string): (r: Option<(seq<Movie>, MovieId, bool)>)
    ensures r.None? <==> FindByUri(movies, link).None? && title == ""
    ensures r.Some? ==> r.value.1 < |r.value.0| && FindByUri(r.value.0, link) == Some(r.value.1)
    ensures r.Some? ==> (r.value.2 <==> FindByUri(movies, link).None?)
    ensures r.Some? && !r.value.2 ==> r.value.0 == movies
    ensures r.Some? && r.value.2 ==> r.value.0 == movies + [LinkedMovie(link, title)]
  {
    match FindByUri(movies, link)
    case Some(id) => Some((movies, id, false))
    case None =>
      if title == "" then None
      else
        FindByUriAppended(movies, LinkedMovie(link, title), link);
        Some((movies + [LinkedMovie(link, title)], |movies|, true))
  }

  /** One entry with a link, from zero counters: the movie keyed by the link verbatim,
      `MovieUser.objects.get_or_create`, then the record is marked watched and saved if
      that changed it. `None` is the `IntegrityError` of the movie's creation. */
  function SyncEntrySpec(user: UserId, t: Tables, link: string, title: string, published: Option<Date>): (r: Option<(Tables, RssCounts)>)
    ensures r.None? <==> FindByUri(t.movies, link).None? && title == ""
  {
    match GetOrCreateMovie(t.movies, link, title)
    case None => None
    case Some((movies, id, movieCreated)) =>
      var key := (user, id);
      var linkCreated := key !in t.relations;
      var mu := if linkCreated then NEW_MOVIE_USER else t.relations[key];
      var marked := MarkWatched(mu, published);
      Some((Tables(movies, t.relations[key := marked]),
            RssCounts(1, if movieCreated then 1 else 0, if linkCreated then 1 else 0, if !linkCreated && marked != mu then 1 else 0)))
  }

  /** The entry loop: skip entries without a link, and answer after the first one that
      has a link. */
  function FeedSpec(user: UserId, t: Tables, rssUrl: string, items: seq<Item>): (r: (Tables, RssResponse))
  {
    var i := FirstLinked(items);
    if i == |items| then (t, NoResponse)
    else
      match SyncEntrySpec(user, t, items[i].link, items[i].title, items[i].published)
      case None => (t, RaisedIntegrityError)
      case Some(p) => (p.0, RssOk(rssUrl, p.1))
  }

  /** `letterboxd_rss(request)`; `fetch` stands for `feedparser.parse`. */
  function RssSpec(user: UserId, t: Tables, raw: Option<string>, fetch: string -> Feed): (r: (Tables, RssResponse))
    ensures Strip(OrEmpty(raw)) == "" ==> r == (t, InvalidRssInput)
  {
    var rssUrl := BuildRssUrl(Some(Strip(OrEmpty(raw))));
    if rssUrl == "" then (t, InvalidRssInput)
    else
      var feed := fetch(rssUrl);
      if feed.bozo then (t, UnreadableFeed)
      else FeedSpec(user, t, rssUrl, ReadEntries(feed.entries))
  }

  /** `Movie.objects.get_or_create` by the link: the movie's key and whether it was
      created, or `None` when the create fails. */
  method GetOrCreateLinked(db: Database, link: string, title: string) returns (r: Option<(MovieId, bool)>)
    modifies db
    ensures db.relations == old(db.relations)
    ensures match GetOrCreateMovie(old(db.movies), link, title)
      case None => r.None? && db.movies == old(db.movies)
      case Some(m) => r == Some((m.1, m.2)) && db.movies == m.0
  {
    var found := FindByUri(db.movies, link);
    if found.Some? {
      return Some((found.value, false));
    }
    if title == "" {
      return None;
    }
    var id := db.CreateMovie(LinkedMovie(link, title));
    return Some((id, true));
  }

  /** `MovieUser.objects.get_or_create(user=user, movie=movie)`, then "Watched" and the
      publication day, saved only if either changed the record. */
  method MarkLink(db: Database, key: RelationKey, published: Option<Date>) returns (created: bool, changed: bool)
    modifies db
    ensures db.movies == old(db.movies)
    ensures created <==> key !in old(db.relations)
    ensures var mu := if created then NEW_MOVIE_USER else old(db.relations)[key];
      && db.relations == old(db.relations)[key := MarkWatched(mu, published)]
      && (changed <==> MarkWatched(mu, published) != mu)
  {
    created := key !in db.relations;
    if created {
      db.CreateRelation(key);
    }
    ghost var before := db.relations[key];
    var mu := db.relations[key];
    changed := false;
    if mu.watchStatus != Watched {
      mu := mu.(watchStatus := Watched);
      changed := true;
    }
    if published.Some? && mu.watchedDate != published {
      mu := mu.(watchedDate := published);
      changed := true;
    }
    assert mu == MarkWatched(before, published);
    if changed {
      db.SaveRelation(key, mu);
    } else {
      assert db.relations[key := mu] == db.relations;
    }
  }

  /** The body of the loop for an entry with a link, with the view's counters starting
      from zero. */
  method SyncEntry(user: UserId, db: Database, link: string, title: string, published: Option<Date>) returns (r: Option<RssCounts>)
    modifies db
    ensures match SyncEntrySpec(user, old(db.Tables()), link, title, published)
      case None => r.None? && db.Tables() == old(db.Tables())
      case Some(p) => r == Some(p.1) && db.Tables() == p.0
  {
    var synced, createdMovies, createdLinks, updatedLinks := 0, 0, 0, 0;
    var movie := GetOrCreateLinked(db, link, title);
    if movie.None? {
      return None;
    }
    var (id, movieCreated) := movie.value;
    if movieCreated {
      createdMovies := createdMovies + 1;
    }
    var created, changed := MarkLink(db, (user, id), published);
    if created {
      createdLinks := createdLinks + 1;
    }
    if changed && !created {
      updatedLinks := updatedLinks + 1;
    }
    synced := synced + 1;
    r := Some(RssCounts(synced, createdMovies, createdLinks, updatedLinks));
  }

  /** `for entry in feed.entries`, with the `return` inside the loop. */
  method SyncFeed(user: UserId, db: Database, rssUrl: string, entries: seq<Entry>) returns (resp: RssResponse)
    modifies db
    ensures (db.Tables(), resp) == FeedSpec(user, old(db.Tables()), rssUrl, ReadEntries(entries))
  {
    ghost var items := ReadEntries(entries);
    var i := 0;
    while i < |entries|
      invariant 0 <= i <= |entries|
      invariant FirstLinked(items) == i + FirstLinked(items[i..])
      invariant db.Tables() == old(db.Tables())
    {
      var entry := entries[i];
      var link := Strip(OrEmpty(entry.link));
      var title := Strip(OrEmpty(entry.title));
      assert items[i] == Item(link, title, entry.published);
      assert items[i..][1..] == items[i + 1..];
      if link == "" {
        i := i + 1;
        continue;
      }
      var counts := SyncEntry(user, db, link, title, entry.published);
      if counts.None? {
        return RaisedIntegrityError;
      }
      return RssOk(rssUrl, counts.value);
    }
    return NoResponse;
  }

  /** `letterboxd_rss(request)` */
  method LetterboxdRss(user: UserId, db: Database, raw: Option<string>, fetch: string -> Feed) returns (resp: RssResponse)
    modifies db
    ensures (db.Tables(), resp) == RssSpec(user, old(db.Tables()), raw, fetch)
  {
    var rssInput := Strip(OrEmpty(raw));
    var rssUrl := BuildRssUrl(Some(rssInput));
    if rssUrl == "" {
      return InvalidRssInput;
    }
    var feed := fetch(rssUrl);
    if feed.bozo {
      return UnreadableFeed;
    }
    resp := SyncFeed(user, db, rssUrl, feed.entries);
  }

  // ---------------------------------------------------------------------------
  // What the RSS sync promises

  /** Input the builder rejects is answered with 400 before the feed is fetched: the
      answer and the tables do not depend on what the feed would hold. */
  lemma RejectedBeforeFetch(user: UserId, t: Tables, raw: Option<string>, fetch1: string -> Feed, fetch2: string -> Feed)
    requires BuildRssUrl(Some(Strip(OrEmpty(raw)))) == ""
    ensures RssSpec(user, t, raw, fetch1) == RssSpec(user, t, raw, fetch2) == (t, InvalidRssInput)
  {
  }

  /** Entries without a link are skipped: a run of them before the rest only shifts the
      index of the entry handled. */
  lemma {:induction false} BlankLinksSkipped(blank: seq<Item>, rest: seq<Item>)
    requires forall j :: 0 <= j < |blank| ==> blank[j].link == ""
    ensures FirstLinked(blank + rest) == |blank| + FirstLinked(rest)
    decreases |blank|
  {
    if blank != [] {
      assert (blank + rest)[1..] == blank[1..] + rest;
      BlankLinksSkipped(blank[1..], rest);
    } else {
      assert blank + rest == rest;
    }
  }

  /** The entry handled is the first with a link, so whatever follows it is never
      looked at. */
  lemma {:induction false} LaterEntriesIgnored(items: seq<Item>, more: seq<Item>)
    requires FirstLinked(items) < |items|
    ensures FirstLinked(items + more) == FirstLinked(items)
    decreases |items|
  {
    if items[0].link == "" {
      assert (items + more)[1..] == items[1..] + more;
      LaterEntriesIgnored(items[1..], more);
    }
  }

  /** At most one entry is processed: a 200 reports `entries_processed` = 1, and a feed
      that only adds entries after the first one with a link gives the same answer. */
  lemma AtMostOneEntry(user: UserId, t: Tables, rssUrl: string, items: seq<Item>, more: seq<Item>)
    ensures FeedSpec(user, t, rssUrl, items).1.RssOk? ==> FeedSpec(user, t, rssUrl, items).1.counts.entriesProcessed == 1
    ensures FirstLinked(items) < |items| ==> FeedSpec(user, t, rssUrl, items + more) == FeedSpec(user, t, rssUrl, items)
  {
    if FirstLinked(items) < |items| {
      var i := FirstLinked(items);
      LaterEntriesIgnored(items, more);
      assert (items + more)[i] == items[i];
    }
  }

  lemma FindByUriAppended(movies: seq<Movie>, m: Movie, uri: string)
    requires FindByUri(movies, uri).None? && m.letterboxdUri == Some(uri)
    ensures FindByUri(movies + [m], uri) == Some(|movies|)
  {
    assert (movies + [m])[..|movies|] == movies;
  }

  /** What an entry does to the tables: the movie keyed by the link verbatim exists
      afterwards, created (with the entry's title) only when no movie held the link and
      otherwise left exactly as it was; the user's relation to it is "Watched" with the
      entry's day (or the old date when it has none), its other fields as they were;
      every other relation is untouched. */
  lemma SyncEntryEffect(user: UserId, t: Tables, link: string, title: string, published: Option<Date>)
    requires SyncEntrySpec(user, t, link, title, published).Some?
    ensures var t' := SyncEntrySpec(user, t, link, title, published).value.0;
      && FindByUri(t'.movies, link).Some?
      && (FindByUri(t.movies, link).Some? ==> t'.movies == t.movies)
      && (FindByUri(t.movies, link).None? ==> t'.movies == t.movies + [LinkedMovie(link, title)])
      && var key := (user, FindByUri(t'.movies, link).value);
         && t'.relations == t.relations[key := MarkWatched(if key in t.relations then t.relations[key] else NEW_MOVIE_USER, published)]
         && t'.relations[key].watchStatus == Watched
         && t'.relations[key].watchedDate == (if published.Some? then published else if key in t.relations then t.relations[key].watchedDate else None)
  {
  }

  /** The counters of an entry: one entry processed; a movie counted as created exactly
      when none held the link; a relation counted as created exactly when the user had
      none for the movie; and `movieuser_updated` only for a relation that existed and
      that the entry changed. */
  lemma SyncEntryCounts(user: UserId, t: Tables, link: string, title: string, published: Option<Date>)
    requires SyncEntrySpec(user, t, link, title, published).Some?
    ensures var (t', c) := SyncEntrySpec(user, t, link, title, published).value;
      var key := (user, FindByUri(t'.movies, link).value);
      && c.entriesProcessed == 1
      && (c.moviesCreated == 1 <==> FindByUri(t.movies, link).None?) && c.moviesCreated <= 1
      && (c.movieUserCreated == 1 <==> key !in t.relations) && c.movieUserCreated <= 1
      && (c.movieUserUpdated == 1 <==> key in t.relations && t'.relations[key] != t.relations[key]) && c.movieUserUpdated <= 1
  {
  }

  /** Syncing the same entry again creates nothing and changes nothing, whatever its
      title. */
  lemma SyncEntryIdempotent(user: UserId, t: Tables, link: string, title: string, title2: string, published: Option<Date>)
    requires SyncEntrySpec(user, t, link, title, published).Some?
    ensures var t' := SyncEntrySpec(user, t, link, title, published).value.0;
      SyncEntrySpec(user, t', link, title2, published) == Some((t', RssCounts(1, 0, 0, 0)))
  {
    SyncEntryEffect(user, t, link, title, published);
    var t' := SyncEntrySpec(user, t, link, title, published).value.0;
    var key := (user, FindByUri(t'.movies, link).value);
    assert MarkWatched(t'.relations[key], published) == t'.relations[key];
    assert t'.relations[key := t'.relations[key]] == t'.relations;
  }

  /** The sync keeps the tables valid: the movie it creates has a title of at most 255
      characters and a link no movie held. */
  lemma SyncEntryPreservesValid(user: UserId, t: Tables, link: string, title: string, published: Option<Date>)
    requires ValidTables(t) && SyncEntrySpec(user, t, link, title, published).Some?
    ensures ValidTables(SyncEntrySpec(user, t, link, title, published).value.0)
  {
    SyncEntryEffect(user, t, link, title, published);
    if FindByUri(t.movies, link).None? {
      ImportProperties.AddPreservesValid(t, LinkedMovie(link, title));
    }
  }
}
