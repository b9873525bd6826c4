# Letterboxd import and reconcile, in Dafny

This project models the Letterboxd side of the Film-Recommendation-App server: the
film-URI canonicaliser, the CSV import that upserts movies and per-user records, the
two HTTP endpoints around it (CSV upload and RSS sync), the date and week-window
helpers, the weekly statistics helpers, and the earlier, unrouted `api/views.py`,
which carries its own copies of most of these with different behaviour.

The database is two tables (`Models.Tables`):

- movies, a sequence indexed by primary key;
- `MovieUser` records, a map keyed by (user, movie).

A `Store.Database` class holds them and is updated in place by the imperative code.

- **CSV import.** The closures of `run_letterboxd_import` are the methods of
  `LetterboxdImport.ImportRun`. Each method is proved equal to a function of
  `ImportSpec`. The properties of those functions are proved in `ImportSpec` and
  `ImportProperties`, among them:
  - the counter accounting;
  - "no save when nothing changed";
  - "a watchlist row never downgrades Watched";
  - unique URIs and titles of at most 255 characters;
  - a second import of the same files changes nothing.

  `transaction.atomic` is modelled as all-or-nothing. A malformed `Watched Date`
  raises, and the run ends with the original tables restored.
- **RSS sync.** The sync follows the code: the `return` sits inside the entry loop,
  so at most one entry is handled.
- **`views/letterboxd_views.py`.** Its import at lines 7-10 names two helpers that
  `services/letterboxd_import.py` does not define. The model uses the RSS-URL builder
  of `views.py` with its defects corrected (see Findings). It also takes each entry's
  publication day as an input.
- **Dates.** Dates are calendar dates (`Dates.Date`). Instants are whole seconds in
  local time, and statistics work on day numbers.
- **Python's library.** `str.strip`, `int()`, `datetime.strptime` and
  `urllib.parse.urlparse` are modelled as CPython 3.12 implements them, with the
  Unicode 15.0 tables. `int()` and the year of `strptime` accept decimal digits of every
  script, but its month accepts ASCII digits only. `urlparse` raises on an unmatched
  bracket, on a bracketed host that is neither an IPv6 address nor an IPvFuture
  literal, and on a netloc that NFKC normalisation would give a '/', '?', '#', '@' or
  ':'.

## Model

| member | source | states |
|---|---|---|
| Builtins.Strip | server/filmrec/api/utils/letterboxd.py:15 | `str.strip()`: no whitespace is left at either end, and the result is a slice of the input where everything cut off before and after it is whitespace |
| Builtins.DecimalZero | server/filmrec/api/services/letterboxd_import.py:28 | the digits `int()` accepts are the runs of ten Unicode decimal digits; the ASCII run is the one starting at '0' |
| Builtins.DigitValue | server/filmrec/api/services/letterboxd_import.py:28 | a decimal digit of any script has a value in 0..9, and an ASCII digit its usual one |
| Builtins.ParseDigits | server/filmrec/api/services/letterboxd_import.py:28 | `int()` of a string of decimal digits of any script is their value |
| Builtins.OtherScriptInt | server/filmrec/api/services/letterboxd_import.py:28 | `int()` of "١٩٩٩" (Arabic-Indic digits) is 1999 |
| Builtins.StripTwiceBlank | server/filmrec/api/views.py:507-508 | stripping the already stripped RSS input blanks it exactly when the first strip did |
| UrllibParse.UrlParse | server/filmrec/api/utils/letterboxd.py:25-27 | the path `urlparse` returns never holds '?' or '#' |
| UrllibParse.AbsoluteUrlPath | server/filmrec/api/utils/letterboxd.py:25-27 | `urlparse("scheme://host/path<tail>")` succeeds and its path is exactly `/path` |
| UrllibParse.NetlocError | server/filmrec/api/utils/letterboxd.py:25-29 | the netloc checks of `urlsplit`: an unmatched bracket is "Invalid IPv6 URL", a character NFKC turns into a delimiter is always an error, and a netloc passes exactly when it has neither and, if it holds both brackets, its bracketed host passes |
| UrllibParse.BracketedHostError | server/filmrec/api/utils/letterboxd.py:25-29 | a bracketed host passes exactly when it is an IPvFuture literal (if it starts with 'v') or an IPv6 address that is not an IPv4 one |
| UrllibParse.RejectedHostRaises | server/filmrec/api/utils/letterboxd.py:25-29 | a URL whose host fails the netloc checks makes `urlparse` raise exactly that error |
| UrllibParse.NfkcHostRejected | server/filmrec/api/utils/letterboxd.py:25-29 | the host "a℀" (NFKC gives "aa/c") is rejected |
| UrllibParse.NonAddressRejected | server/filmrec/api/utils/letterboxd.py:25-29 | the bracketed host "[abc]" is rejected: it is no address |
| UrllibParse.BracketedIPv4Rejected | server/filmrec/api/utils/letterboxd.py:25-29 | the bracketed host "[1.2.3.4]" is rejected: an IPv4 address cannot be bracketed |
| UrllibParse.TextBeforeBracketRejected | server/filmrec/api/utils/letterboxd.py:25-29 | the host "x[::1]" is "Invalid IPv6 URL" |
| UrllibParse.BracketedIPv6Accepted | server/filmrec/api/utils/letterboxd.py:25-27 | "[::1]" and "[::1]:80" pass the netloc checks |
| UrllibParse.BracketedIPvFutureAccepted | server/filmrec/api/utils/letterboxd.py:25-27 | "[v1.x]" passes the netloc checks |
| LetterboxdUri.NormalizeLetterboxdUri | server/filmrec/api/utils/letterboxd.py:4-40 | blank or missing input gives `None`; every other result is `https://letterboxd.com/film/<slug>/` for a non-empty slug without '/' |
| LetterboxdUri.FilmSlug | server/filmrec/api/utils/letterboxd.py:32-38 | the slug found is a non-empty path segment |
| LetterboxdUri.PathRule | server/filmrec/api/utils/letterboxd.py:32-40 | fewer than two non-empty segments, or a first segment other than "film", gives `None`; otherwise the result is the canonical URI of the second segment |
| LetterboxdUri.RootedInput | server/filmrec/api/utils/letterboxd.py:20-21 | for an input starting with '/', only the path decides the result |
| LetterboxdUri.FourForms | server/filmrec/api/utils/letterboxd.py:5-12 | `/film/s/`, `film/s`, `https://letterboxd.com/film/s` and `https://letterboxd.com/film/s/` all give the canonical URI of `s` |
| LetterboxdUri.RootedForm | server/filmrec/api/utils/letterboxd.py:20-21 | `/film/s/` gives the canonical URI of `s` |
| LetterboxdUri.RelativeForm | server/filmrec/api/utils/letterboxd.py:22-23 | `film/s` is read as the path `/film/s` and gives the canonical URI of `s` |
| LetterboxdUri.AbsoluteBare | server/filmrec/api/utils/letterboxd.py:24-27 | `https://letterboxd.com/film/s` gives the canonical URI of `s` |
| LetterboxdUri.AbsoluteIgnoresHost | server/filmrec/api/utils/letterboxd.py:24-27 | for an input with "://", the scheme, host, query and fragment are discarded: the result is that of the path alone |
| LetterboxdUri.NormalizeVia | server/filmrec/api/utils/letterboxd.py:19-40 | a non-blank input whose path is known names the film of that path |
| LetterboxdUri.SuffixIgnored | server/filmrec/api/utils/letterboxd.py:31-36 | segments after the slug are ignored: `/film/s/reviews/` names `s` |
| LetterboxdUri.CanonicalOfSlug | server/filmrec/api/utils/letterboxd.py:36-40 | the canonical URI of a slug free of '?', '#', tab, CR and LF canonicalises to itself |
| LetterboxdUri.Idempotent | server/filmrec/api/utils/letterboxd.py:20-40 | re-canonicalising a result without '?', '#', tab, CR or LF returns it unchanged |
| LetterboxdUri.QueryInSlugTruncates | server/filmrec/api/utils/letterboxd.py:20-27 | a '?' in a slug survives the path forms, but `urlparse` cuts it when the result is canonicalised again, so idempotence needs the '?'-free condition |
| LetterboxdUri.UnparsableUrlRejected | server/filmrec/api/utils/letterboxd.py:25-29 | a URL whose host `urlparse` rejects (unmatched bracket, bad bracketed host, NFKC delimiter) gives `None`, not an exception |
| LetterboxdUri.NfkcHostGivesNoFilm | server/filmrec/api/utils/letterboxd.py:25-29 | `https://a℀/film/s` gives `None` |
| LetterboxdUri.FilmPageOnAnyHost | server/filmrec/api/utils/letterboxd.py:24-40 | `scheme://host/film/s` on any host `urlparse` accepts gives the canonical URI of `s` |
| LetterboxdUri.BracketedHostNamesFilm | server/filmrec/api/utils/letterboxd.py:24-40 | the film page on an accepted bracketed host (an IPv6 address or IPvFuture literal) gives the canonical URI of `s` |
| Dates.StrptimeYmd | server/filmrec/api/utils/dates.py:9 | `strptime(s, "%Y-%m-%d")` only returns valid calendar dates |
| Dates.OtherScriptYear | server/filmrec/api/utils/dates.py:9 | `%Y` takes decimal digits of any script: "٢٠٢٣-01-15" is 15 January 2023 |
| Dates.OtherScriptMonthRaises | server/filmrec/api/utils/dates.py:9 | `%m` takes ASCII digits only: "٢٠٢٣-٠١-١٥" raises |
| Dates.ParseIsoDate | server/filmrec/api/utils/dates.py:4-9 | `None`, empty or whitespace-only input gives `None`, and nothing else does; a parsed date is valid |
| Dates.ParseFormatted | server/filmrec/api/utils/dates.py:8-9 | every valid date (years 1..9999) written as `YYYY-MM-DD`, zero-padded, parses back to itself |
| Dates.NonexistentDateRaises | server/filmrec/api/utils/dates.py:9 | "2023-02-30" raises rather than giving `None` |
| Dates.GarbageRaises | server/filmrec/api/utils/dates.py:9 | "abc" raises rather than giving `None` |
| Dates.Weekday | server/filmrec/api/utils/dates.py:24 | Python's `weekday()` is in 0..6 |
| Dates.DaysSinceSunday | server/filmrec/api/utils/dates.py:24-26 | `days_since_sunday` is in 0..6 and is 0 exactly on a Sunday |
| Dates.WeekWindowSundayAnchor | server/filmrec/api/utils/dates.py:12-41 | the current week starts at a Sunday midnight; `now` lies in it; both weeks are 7 days, half-open, and back to back |
| Dates.WindowStartsOnMostRecentSunday | server/filmrec/api/utils/dates.py:27-34 | no Sunday midnight at or before `now` is later than `curr_start` |
| Models.FindByUri | server/filmrec/api/services/letterboxd_import.py:49 | `filter(letterboxd_uri=uri).first()`: the first movie with that URI, or `None` exactly when no movie has it |
| Models.FindByUriAppend | server/filmrec/api/models.py:31 | appending a movie leaves every lookup unchanged when its URI differs from the one looked up, or when that URI was already found |
| Models.FindByUriRetitle | server/filmrec/api/services/letterboxd_import.py:52-54 | retitling a movie leaves every lookup unchanged |
| Models.FindByUriUnique | server/filmrec/api/models.py:31 | with unique URIs, a lookup finds the one movie holding the URI |
| Store.Database.constructor | server/filmrec/api/models.py:14-85 | the database holds the given tables |
| Store.Database.CreateMovie | server/filmrec/api/services/letterboxd_import.py:57-61 | `Movie.objects.create` appends the movie under the next key and touches no record |
| Store.Database.SaveTitle | server/filmrec/api/services/letterboxd_import.py:53-54 | `movie.save(update_fields=["title"])` changes that movie's title and nothing else |
| Store.Database.CreateRelation | server/filmrec/api/models.py:67-85 | a new record for (user, movie) has the field defaults: no rating, review or date, blank status, `liked`, `in_watchlist` and `rewatch` false |
| Store.Database.SaveRelation | server/filmrec/api/services/letterboxd_import.py:80 | `mu.save()` writes that record and nothing else |
| Store.Database.Restore | server/filmrec/api/services/letterboxd_import.py:144 | a rolled-back transaction leaves the given tables |
| ImportSpec.Header | server/filmrec/api/services/letterboxd_import.py:86-98 | each column the import reads has a non-empty header |
| ImportSpec.HeadersDistinct | server/filmrec/api/services/letterboxd_import.py:86-98 | two columns share a header only when they are the same column |
| ImportSpec.Canonical | server/filmrec/api/services/letterboxd_import.py:45-47 | the key `normalize_letterboxd_uri` gives a row is never the empty string |
| ImportSpec.Trim255 | server/filmrec/api/services/letterboxd_import.py:53 | `s[:255]` is a prefix of at most 255 characters, and is `s` itself when `s` is short enough |
| ImportSpec.NewTitle | server/filmrec/api/services/letterboxd_import.py:58 | the title of a created movie is the trimmed name cut to 255 characters, or "Unknown" when that is blank; it is never empty |
| ImportSpec.YearToDate | server/filmrec/api/services/letterboxd_import.py:26-31 | 1 January of the year exactly when the cell is truthy and parses to an int in 1..9999; otherwise `None` |
| ImportSpec.OtherScriptYearToDate | server/filmrec/api/services/letterboxd_import.py:26-31 | a year in Arabic-Indic digits, "١٩٩٩", gives 1 January 1999 |
| ImportSpec.ParseFloat | server/filmrec/api/services/letterboxd_import.py:33-40 | a blank rating gives `None` |
| ImportSpec.UpsertMovieSpec | server/filmrec/api/services/letterboxd_import.py:42-63 | a row is skipped exactly when its URI normalises to `None`; otherwise the returned movie holds the normalised URI |
| ImportSpec.UpsertKey | server/filmrec/api/services/letterboxd_import.py:49-63 | a skipped row changes nothing; a keyed row adds one to created plus matched and touches no record or relation counter |
| ImportSpec.MatchMovie | server/filmrec/api/services/letterboxd_import.py:50-55 | a match counts one match and changes no other movie and no record; a blank title with a truthy name becomes the stripped name cut to 255 characters, and otherwise the movie is unchanged |
| ImportSpec.CreateMovie | server/filmrec/api/services/letterboxd_import.py:57-62 | a create appends the movie with `NewTitle`, `YearToDate` and the key, and counts one creation |
| ImportSpec.AddMovie | server/filmrec/api/services/letterboxd_import.py:57-62 | adding a movie appends it and counts one creation |
| ImportSpec.GetOrCreateSpec | server/filmrec/api/services/letterboxd_import.py:65-70 | afterwards the user has a record for the movie; `relationships_created` grows exactly when there was none |
| ImportSpec.Assign | server/filmrec/api/services/letterboxd_import.py:77 | after `setattr(mu, k, v)`, `getattr(mu, k) == v` |
| ImportSpec.AssignHeld | server/filmrec/api/services/letterboxd_import.py:76-77 | assigning a value a field already holds changes nothing |
| ImportSpec.HoldsAssignOther | server/filmrec/api/services/letterboxd_import.py:75-78 | assigning one field leaves whether another field holds its value unchanged |
| ImportSpec.DiffResult | server/filmrec/api/services/letterboxd_import.py:74-78 | the loop leaves the record with every update assigned, and the `changed` flag ends set exactly when it started set or some update did not already hold |
| ImportSpec.AssignAllKeeps | server/filmrec/api/services/letterboxd_import.py:75-78 | a value a field already holds survives a dict none of whose updates touches that field |
| ImportSpec.AssignAllEstablishes | server/filmrec/api/services/letterboxd_import.py:75-78 | after a dict with distinct keys is applied, every one of its updates holds |
| ImportSpec.AssignAllAppend | server/filmrec/api/services/letterboxd_import.py:75-78 | applying `a + b` is applying `a` and then `b` |
| ImportSpec.ApplyUpdateEffect | server/filmrec/api/services/letterboxd_import.py:72-81 | `apply_update` saves and counts once when some proposed value differs, and otherwise changes nothing |
| ImportSpec.ApplyUpdateIdempotent | server/filmrec/api/services/letterboxd_import.py:72-81 | applying the same dict twice changes nothing the second time: no save, no count |
| ImportSpec.Digest | server/filmrec/api/services/letterboxd_import.py:86-98 | how each handler reads a row: the key, name and year for every file; the watched date, rating and stripped review for reviews only; a watched date that does not parse marks the row malformed |
| ImportSpec.FoldCellsCons | server/filmrec/api/services/letterboxd_import.py:85-108 | a file is its first row, then the rest from where that row left the state; the first exception ends the file |
| ImportSpec.Digests | server/filmrec/api/services/letterboxd_import.py:85-88 | one set of cells per row, in order |
| ImportSpec.DigestsReadAs | server/filmrec/api/services/letterboxd_import.py:85-88 | every row reads as its cells |
| ImportSpec.ReviewUpdatesAssign | server/filmrec/api/services/letterboxd_import.py:100-106 | applying the reviews dict gives the closed-form reviews record: "Watched", and the date, rating and review each replaced only when the row supplies one; its keys are distinct |
| ImportSpec.ReviewSettledIff | server/filmrec/api/services/letterboxd_import.py:100-108 | every value of the reviews dict already holds exactly when the record is settled for it, in both directions |
| ImportSpec.ReviewsSettledFixed | server/filmrec/api/services/letterboxd_import.py:100-108 | a settled record is left as it is |
| ImportSpec.WatchlistUpdatesAssign | server/filmrec/api/services/letterboxd_import.py:122-126 | applying the watchlist dict gives the closed-form watchlist record: `in_watchlist` set, and "Want to Watch" only for a record with no watched date that is not "Watched" |
| ImportSpec.ReviewsRowFacts | server/filmrec/api/services/letterboxd_import.py:96-108 | the reviews record in closed form: the dict holds exactly when the record is settled; the record it leaves is settled; a settled record is unchanged |
| ImportSpec.WatchlistRowFacts | server/filmrec/api/services/letterboxd_import.py:122-128 | the same facts for the watchlist dict |
| ImportSpec.LikesRowFacts | server/filmrec/api/services/letterboxd_import.py:141 | applying the likes dict sets `liked` and nothing else; the dict already holds exactly when `liked` is set |
| ImportSpec.RowUpdatesFacts | server/filmrec/api/services/letterboxd_import.py:84-141 | for each of the three files: the closed form, the settled test in both directions, and that a settled record is a fixed point |
| ImportSpec.RecordStepEffect | server/filmrec/api/services/letterboxd_import.py:108 | `apply_update` with a row's dict leaves the closed-form record; it saves and counts once exactly when the record was not settled |
| ImportSpec.RecordStepFrame | server/filmrec/api/services/letterboxd_import.py:72-81 | `apply_update` touches only the one record, keeps every key, and adds at most one to `relationships_updated` |
| ImportProperties.StepSkips | server/filmrec/api/services/letterboxd_import.py:90-92 | a row whose URI gives no key changes no table and no counter |
| ImportProperties.KeyedStep | server/filmrec/api/services/letterboxd_import.py:90-108 | a keyed row that succeeded was not malformed: its movie was upserted, its record found or created, and its dict applied |
| ImportProperties.UpsertCounters | server/filmrec/api/services/letterboxd_import.py:49-62 | `movies_created` grows exactly when the key finds no movie, and then the movie table grows by one |
| ImportProperties.StepMovieCounters | server/filmrec/api/services/letterboxd_import.py:49-63 | a keyed row counts exactly one of created and matched, and creates a movie exactly when no movie held the key |
| ImportProperties.StepRelationCounters | server/filmrec/api/services/letterboxd_import.py:65-81 | a row counts a created record exactly when the user had none for the movie, and adds at most one to `relationships_updated` |
| ImportProperties.MatchPreservesValid | server/filmrec/api/services/letterboxd_import.py:50-55 | a match keeps URIs unique and titles within 255 characters |
| ImportProperties.RetitlePreservesValid | server/filmrec/api/models.py:15 | a title of at most 255 characters keeps the tables valid |
| ImportProperties.CreatePreservesValid | server/filmrec/api/services/letterboxd_import.py:57-61 | creating a movie for a key no movie holds keeps the tables valid |
| ImportProperties.AddPreservesValid | server/filmrec/api/models.py:15-31 | adding a movie with a short title and an unused URI keeps the tables valid |
| ImportProperties.UpsertPreservesValid | server/filmrec/api/services/letterboxd_import.py:42-63 | an upsert keeps the tables valid: a create happens only after the lookup by the key misses |
| ImportProperties.StepPreservesValid | server/filmrec/api/models.py:31 | a row keeps URIs unique, titles within 255 characters and every record naming an existing movie |
| ImportProperties.MalformedDateRaises | server/filmrec/api/services/letterboxd_import.py:96 | a keyed reviews row with a malformed watched date raises |
| ImportProperties.FindAfterUpsert | server/filmrec/api/services/letterboxd_import.py:49-63 | after an upsert, the key finds the movie the upsert returned |
| ImportProperties.StepLeaves | server/filmrec/api/services/letterboxd_import.py:90-108 | after a keyed row, the key finds the row's movie and the user's record for it is the closed-form record |
| ImportProperties.ReviewsRowRecord | server/filmrec/api/services/letterboxd_import.py:96-108 | after a keyed reviews row succeeds, its watched date parsed, and the user's record for the film is "Watched", with the date, rating and review replaced only when the row supplies a date, a rating that parses or non-empty text |
| ImportProperties.WatchlistRowRecord | server/filmrec/api/services/letterboxd_import.py:122-128 | a watchlist row sets `in_watchlist`, and sets "Want to Watch" only for a record with no watched date that is not "Watched" |
| ImportProperties.LikesRowRecord | server/filmrec/api/services/letterboxd_import.py:141 | a likes row sets `liked` and changes nothing else in the record |
| ImportProperties.MalformedRowRaises | server/filmrec/api/services/letterboxd_import.py:96 | a keyed reviews row whose watched date does not parse raises, whatever the state |
| ImportProperties.UpsertSettled | server/filmrec/api/services/letterboxd_import.py:50-55 | an upsert of a key whose movie's title already agrees with the row returns that movie and only counts a match |
| ImportProperties.StableNoChange | server/filmrec/api/services/letterboxd_import.py:90-108 | a row whose movie and record are already settled changes nothing but the matched count |
| ImportProperties.StableAfterStep | server/filmrec/api/services/letterboxd_import.py:90-108 | after a row succeeds, the row is settled |
| ImportProperties.UpsertKeepsFound | server/filmrec/api/services/letterboxd_import.py:49-62 | an upsert of any key keeps another key's movie found, with its title settled |
| ImportProperties.LaterKeepsSettled | server/filmrec/api/services/letterboxd_import.py:144-150 | a later file's dict keeps an earlier file's values in place: a watchlist row never downgrades a "Watched" record |
| ImportProperties.StepKeepsStable | server/filmrec/api/services/letterboxd_import.py:144-150 | a row keeps another row settled when their keys differ, or when its file comes later |
| ImportProperties.FoldNoChange | server/filmrec/api/services/letterboxd_import.py:84-141 | a file whose rows are all settled changes nothing but the matched count, which grows by the keyed rows |
| ImportProperties.FoldMovieCounters | server/filmrec/api/services/letterboxd_import.py:84-141 | over a file, created plus matched grows by exactly the number of keyed rows |
| ImportProperties.FoldPreservesValid | server/filmrec/api/services/letterboxd_import.py:84-141 | over a file, the tables stay valid |
| ImportProperties.FoldKeepsStable | server/filmrec/api/services/letterboxd_import.py:144-150 | a file keeps a settled row settled when none of its rows shares the key, or when it comes later |
| ImportProperties.FoldKeepsAllStable | server/filmrec/api/services/letterboxd_import.py:144-150 | a later file keeps every row of an earlier file settled |
| ImportProperties.FoldEstablishes | server/filmrec/api/services/letterboxd_import.py:84-141 | after a file whose rows name distinct films, every one of its rows is settled |
| ImportProperties.DistinctDigests | server/filmrec/api/services/letterboxd_import.py:86-90 | rows with distinct keys give cells with distinct keys |
| ImportProperties.RunPreservesValid | server/filmrec/api/services/letterboxd_import.py:144-150 | a successful import keeps the tables valid: unique URIs, titles within 255 characters, and every record naming an existing movie |
| ImportProperties.RunCellsPreservesValid | server/filmrec/api/services/letterboxd_import.py:144-150 | the same over the three files' cells |
| ImportProperties.RunIdempotent | server/filmrec/api/services/letterboxd_import.py:144-157 | importing the same files again into the tables the first import left changes no table; every row is counted as matched, and nothing as created or updated |
| ImportProperties.RunCellsIdempotent | server/filmrec/api/services/letterboxd_import.py:144-157 | the same over the three files' cells |
| LetterboxdImport.ImportRun.constructor | server/filmrec/api/services/letterboxd_import.py:17-20 | the four counters start at zero |
| LetterboxdImport.ImportRun.UpsertMovie | server/filmrec/api/services/letterboxd_import.py:42-63 | `upsert_movie` leaves the state and returns the id that `ImportSpec.UpsertMovieSpec` gives |
| LetterboxdImport.ImportRun.UpsertNormalized | server/filmrec/api/services/letterboxd_import.py:46-63 | the upsert once the URI is normalised, equal to `ImportSpec.UpsertKey` |
| LetterboxdImport.ImportRun.MatchExisting | server/filmrec/api/services/letterboxd_import.py:50-55 | the matched branch, equal to `ImportSpec.MatchMovie` |
| LetterboxdImport.ImportRun.CreateNew | server/filmrec/api/services/letterboxd_import.py:57-62 | the created branch: the next id, equal to `ImportSpec.AddMovie` |
| LetterboxdImport.ImportRun.GetOrCreateMu | server/filmrec/api/services/letterboxd_import.py:65-70 | `get_or_create_mu`, equal to `ImportSpec.GetOrCreateSpec`, and returns the stored record |
| LetterboxdImport.ImportRun.ApplyUpdate | server/filmrec/api/services/letterboxd_import.py:72-81 | the `for k, v in updates.items()` loop and the single save, equal to `ImportSpec.ApplyUpdateSpec` |
| LetterboxdImport.ImportRun.ReviewsRow | server/filmrec/api/services/letterboxd_import.py:85-108 | one reviews row, equal to the step function, raising exactly when the step fails |
| LetterboxdImport.ImportRun.ReviewsCells | server/filmrec/api/services/letterboxd_import.py:94-108 | raises exactly on a malformed watched date; otherwise applies the reviews dict |
| LetterboxdImport.ImportRun.ReviewsRecord | server/filmrec/api/services/letterboxd_import.py:100-108 | builds the reviews dict and applies it |
| LetterboxdImport.ImportRun.WatchlistRow | server/filmrec/api/services/letterboxd_import.py:111-128 | one watchlist row, equal to the step function; it never raises |
| LetterboxdImport.ImportRun.LikesRow | server/filmrec/api/services/letterboxd_import.py:131-141 | one likes row, equal to the step function; it never raises |
| LetterboxdImport.ImportRun.ImportReviewsCsv | server/filmrec/api/services/letterboxd_import.py:84-108 | the reviews loop, equal to the fold over its rows; the first exception ends it |
| LetterboxdImport.ImportRun.ImportWatchlistCsv | server/filmrec/api/services/letterboxd_import.py:110-128 | the watchlist loop, equal to the fold over its rows |
| LetterboxdImport.ImportRun.ImportFilmsLikesCsv | server/filmrec/api/services/letterboxd_import.py:130-141 | the likes loop, equal to the fold over its rows |
| LetterboxdImport.RunLetterboxdImport | server/filmrec/api/services/letterboxd_import.py:11-157 | the whole import, equal to `ImportSpec.RunSpec`: the final tables and the four counters, or an exception with the original tables restored |
| LetterboxdViews.FilmsFile | server/filmrec/api/views/letterboxd_views.py:20 | the films file is present exactly when "films" or "likes" is sent, and "films" wins when both are |
| LetterboxdViews.LetterboxdImportView | server/filmrec/api/views/letterboxd_views.py:17-35 | answers "No files provided" exactly when none of reviews, watchlist, films or likes is sent, before any import work and with the tables unchanged; otherwise the result of the import |
| LetterboxdViews.LikesFieldTolerated | server/filmrec/api/views/letterboxd_views.py:20-22 | a likes export sent as "likes" alone is imported as the films file |
| LetterboxdViews.FirstLinked | server/filmrec/api/views/letterboxd_views.py:62-66 | the index of the first entry with a non-blank link: every entry before it has a blank link |
| LetterboxdViews.MarkWatched | server/filmrec/api/views/letterboxd_views.py:84-94 | the record becomes "Watched"; the watched date changes only when the entry has a publication day different from the stored one; nothing else changes; the record differs exactly when one of those two changed |
| LetterboxdViews.GetOrCreateMovie | server/filmrec/api/views/letterboxd_views.py:68-73 | the movie keyed by the link verbatim, found by the link afterwards; created, with the title cut to 255 characters, exactly when no movie holds the link; a creation with an empty title raises |
| LetterboxdViews.SyncEntrySpec | server/filmrec/api/views/letterboxd_views.py:68-101 | one entry with a link: it fails exactly when no movie holds the link and the title is empty, so the creation raises |
| LetterboxdViews.RssSpec | server/filmrec/api/views/letterboxd_views.py:40-110 | blank input is answered "Invalid RSS input" and leaves the tables unchanged |
| LetterboxdViews.GetOrCreateLinked | server/filmrec/api/views/letterboxd_views.py:68-73 | `Movie.objects.get_or_create` by the link, equal to `GetOrCreateMovie`; no record changes |
| LetterboxdViews.MarkLink | server/filmrec/api/views/letterboxd_views.py:76-99 | creates the record exactly when the user had none; stores `MarkWatched` of it; reports a change exactly when the marked record differs |
| LetterboxdViews.SyncEntry | server/filmrec/api/views/letterboxd_views.py:62-101 | the loop body for an entry with a link, equal to `SyncEntrySpec` |
| LetterboxdViews.SyncFeed | server/filmrec/api/views/letterboxd_views.py:60-110 | the entry loop with its `return` inside, equal to `FeedSpec` of the entries as read |
| LetterboxdViews.LetterboxdRss | server/filmrec/api/views/letterboxd_views.py:40-110 | the endpoint, equal to `RssSpec`: rejected input, an unreadable feed, or the sync of the feed's entries |
| LetterboxdViews.RejectedBeforeFetch | server/filmrec/api/views/letterboxd_views.py:45-51 | input the builder turns into "" is answered "Invalid RSS input" before the feed is fetched: the answer does not depend on the feed and the tables are unchanged |
| LetterboxdViews.BlankLinksSkipped | server/filmrec/api/views/letterboxd_views.py:63-66 | entries with a blank link are skipped and change no counter: a run of them before the rest changes nothing |
| LetterboxdViews.LaterEntriesIgnored | server/filmrec/api/views/letterboxd_views.py:101-110 | entries after the first one with a link never affect the answer or the tables |
| LetterboxdViews.AtMostOneEntry | server/filmrec/api/views/letterboxd_views.py:101-110 | a 200 always reports `entries_processed` = 1, and entries after the first one with a link never change the answer or the tables |
| LetterboxdViews.FindByUriAppended | server/filmrec/api/views/letterboxd_views.py:68-71 | after appending a movie for a link no movie held, the link finds it |
| LetterboxdViews.SyncEntryEffect | server/filmrec/api/views/letterboxd_views.py:68-97 | after an entry, the link finds a movie, and the user's record for it is `MarkWatched` of the old record or of a new one |
| LetterboxdViews.SyncEntryCounts | server/filmrec/api/views/letterboxd_views.py:72-101 | one entry processed; a movie counted as created exactly when none held the link; a record counted as created exactly when the user had none; `movieuser_updated` counts only an existing record that changed |
| LetterboxdViews.SyncEntryIdempotent | server/filmrec/api/views/letterboxd_views.py:84-99 | syncing the same entry again, with any title, creates nothing and changes nothing |
| LetterboxdViews.SyncEntryPreservesValid | server/filmrec/api/views/letterboxd_views.py:68-81 | the sync keeps URIs unique, titles within 255 characters and every record naming an existing movie |
| LegacyHelpers.LegacyNormalize | server/filmrec/api/views.py:37-40 | the stripped URI, or the stripped URI less one trailing '/' |
| LegacyHelpers.LegacyNormalizeDropsOneSlash | server/filmrec/api/views.py:37-40 | exactly one trailing '/' is removed when present; otherwise the string is unchanged |
| LegacyHelpers.LegacyNormalizeEmpty | server/filmrec/api/views.py:37-40 | the result is empty exactly when the stripped input is "" or "/" |
| LegacyHelpers.LegacyNormalizeNotIdempotent | server/filmrec/api/views.py:40 | only one slash is trimmed, so the normaliser is not idempotent: `a//` gives `a/`, which gives `a` |
| LegacyHelpers.BuildRssUrlAsWritten | server/filmrec/api/views.py:43-69 | returns "" exactly for blank input; every other input raises `AttributeError` at line 53 |
| LegacyHelpers.AsWrittenOnStripped | server/filmrec/api/views.py:507-508 | on the input the view already stripped, the builder gives "" when it is blank and raises otherwise |
| LegacyHelpers.AsWrittenRaisesOnUsername | server/filmrec/api/views.py:53 | a plain username raises instead of becoming a feed URL |
| LegacyHelpers.BuildRssUrlPast53 | server/filmrec/api/views.py:43-69 | the builder with only line 53 corrected returns "" for blank input |
| LegacyHelpers.RssBranchDead | server/filmrec/api/views.py:55 | after `rstrip("/")` no string ends with "/rss/", so that branch is dead |
| LegacyHelpers.ProfileUrlRaisesPast53 | server/filmrec/api/views.py:58-60 | with line 53 corrected, a profile URL raises `IndexError` at `m.group(2)` |
| LegacyHelpers.RssUrlRejectedPast53 | server/filmrec/api/views.py:55-63 | with line 53 corrected, a feed URL is rejected as an unknown format |
| LegacyHelpers.BuildRssUrl | server/filmrec/api/views.py:43-69 | the corrected builder: blank input gives ""; its behaviour on each accepted form is stated by the scenario lemmas |
| LegacyHelpers.BuildUrlForm | server/filmrec/api/views.py:53-63 | for an `https://` URL, the corrected builder keeps a feed URL, turns a profile URL into its feed URL, and rejects any other URL |
| LegacyHelpers.BuilderScenarios | server/filmrec/api/views.py:48-69 | the corrected builder turns a username, `letterboxd.com/<u>`, a profile URL and the feed URL itself into the same feed URL |
| LegacyHelpers.ProfileScenario | server/filmrec/api/views.py:57-61 | a profile URL becomes `https://letterboxd.com/<u>/rss/` |
| LegacyHelpers.FeedScenario | server/filmrec/api/views.py:54-56 | a feed URL is kept |
| LegacyHelpers.HostFormScenario | server/filmrec/api/views.py:48-50 | `letterboxd.com/<u>` is given a scheme and becomes the feed URL |
| Stats.LoadWeekly | server/filmrec/api/views/stats_views.py:16-23 | exactly the user's "Watched" records that have a watched date in `[start, end)`, in both directions |
| Stats.WeeksSplitFortnight | server/filmrec/api/views/stats_views.py:64-67 | the two weeks compared are 7 days each and back to back: no record is in both, and together they are the fortnight |
| Stats.CalcPercentChange | server/filmrec/api/views/stats_views.py:26-29 | `None` exactly when the old count is 0; otherwise positive exactly when the count grew, zero exactly when it did not change, and times the old count it is 100 times the change |
| Stats.CalculatePerDay | server/filmrec/api/views/stats_views.py:32-38 | seven slots; slot `d` counts the entries watched `d` days after the start; entries outside the seven days are ignored |
| Stats.PerDay | server/filmrec/api/views/stats_views.py:33 | the histogram has seven slots |
| Stats.SumBump | server/filmrec/api/views/stats_views.py:37 | adding one to a slot adds one to the sum |
| Stats.SumOfSeven | server/filmrec/api/views/stats_views.py:33 | the sum of seven slots, written out |
| Stats.PerDayCountsWeek | server/filmrec/api/views/stats_views.py:32-38 | the seven slots add up to exactly the entries of the week: none is counted twice and none in the week is lost |
| Stats.DecadeOrder | server/filmrec/api/views/stats_views.py:13 | eight labels, the first being the label of the years before 1960 |
| Stats.DecadeDigit | server/filmrec/api/views/stats_views.py:44-45 | the tens digit of a year is in 0..9 |
| Stats.DecadeLabel | server/filmrec/api/views/stats_views.py:41-46 | "Pre-1960s" below 1960; otherwise the decade's two digits, zero-padded, and "s" |
| Stats.TwoDigitsOfDecade | server/filmrec/api/views/stats_views.py:44-46 | `((year // 10) * 10) % 100` has the tens digit of the year as its first digit and 0 as its second |
| Stats.DecadeLabelExamples | server/filmrec/api/views/stats_views.py:41-46 | 1985 gives "80s", 2003 gives "00s", 1959 gives "Pre-1960s" |
| Stats.DecadeLabelCentury | server/filmrec/api/views/stats_views.py:44-46 | from 1960 on, a year a century later has the same label |
| Stats.DecadeSlot | server/filmrec/api/views/stats_views.py:13 | the position of a year's label in `DECADE_ORDER`, or 8 when it is not listed |
| Stats.LabelAtSlot | server/filmrec/api/views/stats_views.py:13 | a year's label equals entry `k` of the order exactly when its slot is `k` |
| Stats.ListedYears | server/filmrec/api/views/stats_views.py:13 | every year before 2030 has a bucket; the years 2030 to 2059 have none |
| Stats.DecadePayload | server/filmrec/api/views/stats_views.py:58 | eight buckets, named by `DECADE_ORDER` in that order |
| Stats.ByDecadePayload | server/filmrec/api/views/stats_views.py:49-58 | the `Counter` loop: bucket `k` is named by label `k` of the order and counts the known years with that label; `None` years are skipped |
| Stats.PayloadStep | server/filmrec/api/views/stats_views.py:53-56 | one more known year adds one to its own bucket and to no other |
| Stats.TotalOfEight | server/filmrec/api/views/stats_views.py:58 | the total of eight buckets, written out |
| Stats.BucketCountsSlot | server/filmrec/api/views/stats_views.py:52-58 | bucket `k` counts exactly the known years whose slot is `k` |
| Stats.DecadeTotal | server/filmrec/api/views/stats_views.py:49-58 | the buckets add up to the known years less those whose label is not listed, so the total is at most the number of known years |
| Stats.NoneUnlisted | server/filmrec/api/views/stats_views.py:13 | when every known year is before 2030, no year is dropped |
| LegacyViews.LegacyDecadeOrder | server/filmrec/api/views.py:96 | the legacy `DECADE_ORDER` starts with "Pre-60s" and then agrees with the package's |
| LegacyViews.LegacyDecadeLabel | server/filmrec/api/views.py:168-173 | "Pre-60s" below 1960, and from 1960 on the package's label |
| LegacyViews.RevisionsCountAlike | server/filmrec/api/views.py:175-186 | the legacy `byDecadePayload` counts every bucket as the package's does; only the first bucket's name differs |
| LegacyViews.LegacyDecadeTotal | server/filmrec/api/views.py:175-186 | the legacy buckets add up to the known years less those from 2030 to 2059 |
| LegacyViews.LegacyKeysAccepted | server/filmrec/api/views.py:344-366 | with the legacy normaliser, a URI creates or matches a movie exactly when it does not strip to "" or "/", and then counts one of the two |
| LegacyViews.LegacyImportView | server/filmrec/api/views.py:304-496 | the legacy CSV endpoint: the same presence check and the same all-or-nothing run, keyed by the legacy normaliser |
| LegacyViews.LegacyRss | server/filmrec/api/views.py:502-513 | the legacy RSS endpoint up to the builder: a builder exception becomes the answer, and a blank result is "Invalid RSS input" |
| LegacyViews.LegacyRssOutcome | server/filmrec/api/views.py:507-513 | blank input gets "Invalid RSS input" and every other input raises `AttributeError`, so the feed is never fetched |

## Left out

- File I/O: `csv.DictReader`, `io.TextIOWrapper` and `feedparser.parse`. Rows and feed
  entries are input sequences; the feed fetch is the `fetch` parameter.
- The CSV columns are an enumeration of the six headers the import reads. Other columns,
  and a header spelled differently, are not modelled.
- `float()` on a rating: floating point is not modelled. It is the `floatOf`
  parameter, and ratings are compared only for equality, so a NaN rating (which never
  equals itself) is not captured.
- `_parse_published_date` (views.py:71-87): the entry's publication day is an input.
  The comparison of a stored date with a `datetime` is modelled as a comparison of days.
- The missing `_build_letterboxd_rss_url` and `_parse_published_date` in
  `services/letterboxd_import.py`, named by the import at letterboxd_views.py:7-10.
  Loading that module raises `ImportError`, but the model runs the RSS endpoint with the
  corrected builder.
- The order in which a dict's updates are applied in `apply_update`. The model applies
  them in insertion order, and the keys are distinct.
- `Models.Movie` does not bound `letterboxd_uri` at 500 characters (models.py:31).
  Neither the import nor the sync checks that bound.
- Aliasing between the `mu` a closure holds and the stored record. The model reads the
  record back from the store.
- ImportProperties.RunIdempotent: proved only for files in which no two rows name the
  same film. With such duplicates a second import can still rewrite a record.
- The ORM top-5 director, actor and genre queries, and the assembly of the
  `stats_payload` response (stats_views.py:61-114). The window and count helpers it
  calls are modelled.
- Timezones, DST and `make_aware` in `week_window_sunday_anchor`. Instants are whole
  seconds of local time, and days are whole.
- `calculatePerDay` calls `.date()` on a `DateField` value, and the legacy copy
  subtracts a `datetime` from a `date`. Both are type mismatches; the model uses day
  numbers instead.
- Stats.CalcPercentChange: exact rational arithmetic stands for floating-point division.
- The legacy `stats_payload` (views.py:221-299) is not part of this model. Its data
  check answers 409 exactly when the user already has imported data. Its
  `week_window_sunday_anchor` calls `localtime` on `datetime.timezone`, which raises.
- Concurrency: create-create races between imports, and database isolation levels. The
  model is single-threaded, with the transaction as all-or-nothing.
- Authentication, routing, serializers and the React client.
- NFKC normalisation itself. `urlsplit` only asks whether normalising the netloc
  yields one of five delimiters. That happens exactly when the netloc holds one of the
  19 characters `UrllibParse.NfkcDelimiter` lists, so only that list is modelled.
- Python releases other than 3.12. Earlier releases make fewer netloc checks in
  `urlsplit`, and other Unicode versions have other digit and NFKC tables.
- The `return` inside the RSS entry loop (letterboxd_views.py:103, views.py:565) is
  modelled as written. A loop that syncs every entry is not modelled.

## Findings

| source | as written | input that shows it | evidently intended | confidence | as-written member | corrected member |
|---|---|---|---|---|---|---|
| server/filmrec/api/views.py:53 | `s.startsqwith("http://")` is not a `str` method, so every non-blank input raises `AttributeError` | `"alice"` | `startswith`, so a username becomes `https://letterboxd.com/alice/rss/` | high (not executed) | LegacyHelpers.AsWrittenRaisesOnUsername | LegacyHelpers.BuilderScenarios |
| server/filmrec/api/views.py:55 | `s.rstrip("/").endswith("/rss/")` can never hold, so a feed URL falls through to "unknown URL format" and is rejected | `"https://letterboxd.com/alice/rss/"` | test `endswith("/rss")` and keep the feed URL | high (not executed) | LegacyHelpers.RssUrlRejectedPast53 | LegacyHelpers.FeedScenario |
| server/filmrec/api/views.py:60 | `m.group(2)` on a pattern with one group raises `IndexError` | `"https://letterboxd.com/alice"` | `m.group(1)`, giving `https://letterboxd.com/alice/rss/` | high (not executed) | LegacyHelpers.ProfileUrlRaisesPast53 | LegacyHelpers.ProfileScenario |
