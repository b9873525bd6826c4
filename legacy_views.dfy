/** The endpoints of the earlier, unrouted `views.py` that differ from the `views/`
    package: the decade histogram labels the years before 1960 "Pre-60s", the CSV import
    closure keys movies with the one-slash normaliser, and the RSS endpoint calls the
    builder whose misspelled `startsqwith` raises on every non-blank input. Its seven-day
    histogram and its RSS entry loop are the same code as in the package
    (`Stats.CalculatePerDay`, `LetterboxdViews.SyncFeed`). */
module LegacyViews {
  import opened Wrappers
  import opened Builtins
  import opened Models
  import opened Store
  import opened ImportSpec
  import opened LegacyHelpers
  import opened LetterboxdViews
  import opened Stats

  // ---------------------------------------------------------------------------
  // getDecadeLabel and byDecadePayload with the "Pre-60s" label

  /** The label of every year before 1960 in this revision. */
  const LEGACY_PRE: string := "Pre-60s"

  /** The legacy `DECADE_ORDER`. */
  lemma LegacyDecadeOrder()
    ensures DecadeOrder(LEGACY_PRE) == ["Pre-60s", "60s", "70s", "80s", "90s", "00s", "10s", "20s"]
    ensures forall k :: 1 <= k < 8 ==> DecadeOrder(LEGACY_PRE)[k] == DecadeOrder(PRE_1960S)[k]
  {
  }

  /** The legacy `getDecadeLabel`: "Pre-60s" before 1960, and from 1960 on the same label
      as the package's. */
  lemma LegacyDecadeLabel(year: int)
    ensures year < 1960 ==> DecadeLabel(LEGACY_PRE, year) == "Pre-60s"
    ensures year >= 1960 ==> DecadeLabel(LEGACY_PRE, year) == DecadeLabel(PRE_1960S, year)
  {
  }

  /** The legacy `byDecadePayload` counts every bucket as the package's does; only the
      first bucket's name differs. */
  lemma RevisionsCountAlike(years: seq<Option<int>>)
    ensures forall k :: 0 <= k < 8 ==>
      DecadePayload(LEGACY_PRE, years)[k].count == DecadePayload(PRE_1960S, years)[k].count
    ensures DecadePayload(LEGACY_PRE, years)[0].lab == "Pre-60s"
    ensures forall k :: 1 <= k < 8 ==>
      DecadePayload(LEGACY_PRE, years)[k].lab == DecadePayload(PRE_1960S, years)[k].lab
  {
    forall k | 0 <= k < 8
      ensures DecadePayload(LEGACY_PRE, years)[k].count == DecadePayload(PRE_1960S, years)[k].count
    {
      BucketCountsSlot(LEGACY_PRE, years, k);
      BucketCountsSlot(PRE_1960S, years, k);
    }
  }

  /** The legacy buckets add up to the known years less those from 2030 to 2059. */
  lemma LegacyDecadeTotal(years: seq<Option<int>>)
    ensures Total(DecadePayload(LEGACY_PRE, years)) + Unlisted(years) == Known(years)
  {
    DecadeTotal(LEGACY_PRE, years);
  }

  // ---------------------------------------------------------------------------
  // The letterboxd_import closure keyed by the one-slash normaliser

  /** A URI keys a movie in this revision unless it strips to "" or "/": any other text,
      a film URL or not, creates or matches a movie and counts one of the two. */
  lemma LegacyKeysAccepted(cfg: Config, s: State, name: Option<string>, year: Option<string>, uri: Option<string>)
    requires cfg.rev == Legacy
    ensures var r := UpsertMovieSpec(cfg, s, name, year, uri);
      && (r.1.Some? <==> Strip(OrEmpty(uri)) != "" && Strip(OrEmpty(uri)) != "/")
      && (r.1.Some? ==> r.0.counters.moviesCreated + r.0.counters.moviesMatched
                        == s.counters.moviesCreated + s.counters.moviesMatched + 1)
      && (r.1.None? ==> r.0 == s)
  {
    LegacyNormalizeEmpty(uri);
  }

  /** The legacy CSV endpoint: the same presence check and the same all-or-nothing run,
      with the legacy normaliser keying the movies. */
  method LegacyImportView(user: UserId, floatOf: string -> Option<real>, db: Database, u: Upload) returns (resp: ImportResponse)
    modifies db
    ensures resp == NoFilesProvided <==> !AnyFile(u)
    ensures !AnyFile(u) ==> db.Tables() == old(db.Tables())
    ensures AnyFile(u) ==> match RunSpec(Config(user, Legacy, floatOf), old(db.Tables()), u.reviews, u.watchlist, FilmsFile(u))
      case Success(s) => resp == ImportOk(s.counters) && db.Tables() == s.tables
      case Failure(e) => resp == ImportRaised(e) && db.Tables() == old(db.Tables())
  {
    resp := LetterboxdImportView(Config(user, Legacy, floatOf), db, u);
  }

  // ---------------------------------------------------------------------------
  // letterboxd_rss with the builder as written

  /** The legacy RSS endpoint up to the builder's answer: "Invalid RSS input" when the
      builder returns "", the builder's exception otherwise. */
  function LegacyRssSpec(raw: Option<string>): RssResponse {
    match BuildRssUrlAsWritten(Some(Strip(OrEmpty(raw))))
    case Failure(e) => BuilderRaised(e)
    case Success(_) => InvalidRssInput
  }

  /** The legacy RSS endpoint. The builder answers before the feed is fetched, so the
      tables are not touched: it returns "" only for blank input, which is answered
      "Invalid RSS input", and raises on every other input, so the entry loop after it
      (the same loop as `LetterboxdViews.SyncFeed`) is never reached. */
  method LegacyRss(raw: Option<string>) returns (resp: RssResponse)
    ensures resp == LegacyRssSpec(raw)
  {
    var rssInput := Strip(OrEmpty(raw));
    var built := BuildRssUrlAsWritten(Some(rssInput));
    if built.Failure? {
      resp := BuilderRaised(built.error);
    } else {
      resp := InvalidRssInput;
    }
  }

  /** Blank input is answered "Invalid RSS input", and every other input raises
      `AttributeError`: no input reaches the feed. */
  lemma LegacyRssOutcome(raw: Option<string>)
    ensures LegacyRssSpec(raw) == InvalidRssInput <==> Strip(OrEmpty(raw)) == ""
    ensures LegacyRssSpec(raw) != InvalidRssInput ==> LegacyRssSpec(raw) == BuilderRaised(AttributeError)
  {
    AsWrittenOnStripped(OrEmpty(raw));
  }
}
