/** The canonical film URI of `utils/letterboxd.py`: every way of naming a
    Letterboxd film (absolute URL, rooted path, relative path) is mapped to
    `https://letterboxd.com/film/<slug>/`, or to nothing when no slug can be found. */
module LetterboxdUri {
  import opened Wrappers
  import opened Builtins
  import opened UrllibParse

  const FILM_PREFIX: string := "https://letterboxd.com/film/"

  /** The canonical URI of a film slug. */
  function CanonicalUri(slug: string): string {
    FILM_PREFIX + slug + "/"
  }

  /** What a slug taken from a path looks like: a non-empty path segment. */
  predicate IsSlug(slug: string) {
    slug != [] && '/' !in slug
  }

  /** The path the canonicaliser reads from a stripped, non-blank input: a rooted path
      as it is, a relative path rooted, and for anything holding "://" the path that
      `urlparse` finds (nothing when `urlparse` raises). */
  function PathOf(u: string): Option<string> {
    if |u| > 0 && u[0] == '/' then Some(u)
    else if !Contains(u, "://") then Some("/" + u)
    else
      match UrlParse(u)
      case Failure(_) => None
      case Success(p) => Some(p.path)
  }

  /** The slug of a path `/film/<slug>/...`: the second non-empty segment, when the
      first one is exactly "film". */
  function FilmSlug(path: string): (r: Option<string>)
    ensures r.Some? ==> IsSlug(r.value)
  {
    var parts := NonEmpty(Split(path, '/'));
    if |parts| < 2 || parts[0] != "film" then None
    else
      assert IsSlug(parts[1]) by {
        NonEmptyKept(Split(path, '/'));
        SplitPartsFree(path, '/');
        assert parts[1] in parts;
      }
      Some(parts[1])
  }

  /** `normalize_letterboxd_uri(uri)`, with Python's `None` as `None` on both sides. */
  function NormalizeLetterboxdUri(uri: Option<string>): (r: Option<string>)
    ensures Strip(OrEmpty(uri)) == "" ==> r == None
    ensures r.Some? ==> exists slug :: IsSlug(slug) && r.value == CanonicalUri(slug)
  {
    var u := Strip(OrEmpty(uri));
    if u == "" then None
    else
      match PathOf(u)
      case None => None
      case Some(path) => UriOfPath(path)
  }

  /** The canonical URI named by a path, if it names a film. */
  function UriOfPath(path: string): Option<string> {
    match FilmSlug(path)
    case None => None
    case Some(slug) => Some(CanonicalUri(slug))
  }

  // ---------------------------------------------------------------------------
  // Facts about the pieces

  lemma {:induction false} ContainsInside(a: string, sub: string, b: string)
    ensures Contains(a + sub + b, sub)
    decreases |a|
  {
    if |a| == 0 {
      assert a + sub + b == sub + b;
      assert (sub + b)[..|sub|] == sub;
    } else {
      assert (a + sub + b)[1..] == a[1..] + sub + b;
      ContainsInside(a[1..], sub, b);
    }
  }

  /** A relative path "film/<slug>" holds no "://". */
  lemma RelativeHasNoScheme(slug: string)
    requires '/' !in slug
    ensures !Contains("film/" + slug, "://")
  {
    var s := "film/" + slug;
    forall i | 0 <= i < |s| - 1 ensures !(s[i] == '/' && s[i + 1] == '/') {
      if i >= 4 {
        assert s[i + 1] == slug[i - 4];
      }
    }
    NoDoubleSlashNoScheme(s);
  }

  /** The segments of `/film/<slug>/<rest>`. */
  lemma FilmPathParts(slug: string, rest: string)
    requires IsSlug(slug)
    ensures NonEmpty(Split("/film/" + slug + "/" + rest, '/')) == ["film", slug] + NonEmpty(Split(rest, '/'))
  {
    var tail := Split(rest, '/');
    FilmPathSplit(slug, rest);
    NonEmptyAppend([""], ["film"] + ([slug] + tail));
    NonEmptyAppend(["film"], [slug] + tail);
    NonEmptyAppend([slug], tail);
  }

  lemma FilmPathSplit(slug: string, rest: string)
    requires IsSlug(slug)
    ensures Split("/film/" + slug + "/" + rest, '/') == [""] + (["film"] + ([slug] + Split(rest, '/')))
  {
    FilmPathSpelled(slug, rest);
    SplitAtSeparator("", '/', "film" + ['/'] + (slug + ['/'] + rest));
    SplitAtSeparator("film", '/', slug + ['/'] + rest);
    SplitAtSeparator(slug, '/', rest);
  }

  lemma FilmPathSpelled(slug: string, rest: string)
    ensures "/film/" + slug + "/" + rest == "" + ['/'] + ("film" + ['/'] + (slug + ['/'] + rest))
  {
  }

  /** The segments of `/film/<slug>`. */
  lemma FilmPathPartsBare(slug: string)
    requires IsSlug(slug)
    ensures NonEmpty(Split("/film/" + slug, '/')) == ["film", slug]
  {
    assert "/film/" + slug == "" + ['/'] + ("film" + ['/'] + slug);
    SplitAtSeparator("", '/', "film" + ['/'] + slug);
    SplitAtSeparator("film", '/', slug);
    SplitNoSeparator(slug, '/');
    var film: string := "film";
    assert [""] + ([film] + [slug]) == [""] + [film, slug];
    NonEmptyAppend([""], ["film", slug]);
    NonEmptyAppend(["film"], [slug]);
  }

  /** Only the path decides the result of a rooted input. */
  lemma RootedInput(path: string)
    requires |path| > 0 && path[0] == '/' && !IsSpace(path[|path| - 1])
    ensures NormalizeLetterboxdUri(Some(path)) == UriOfPath(path)
  {
    StripUnchanged(path);
  }

  // ---------------------------------------------------------------------------
  // Properties of the canonicaliser

  /** A path with fewer than two non-empty segments, or whose first segment is not
      exactly "film", is rejected; otherwise the second segment is the slug. */
  lemma PathRule(uri: string)
    requires Strip(uri) != "" && PathOf(Strip(uri)).Some?
    ensures var parts := NonEmpty(Split(PathOf(Strip(uri)).value, '/'));
            NormalizeLetterboxdUri(Some(uri)) == if |parts| < 2 || parts[0] != "film" then None else Some(CanonicalUri(parts[1]))
  {
  }

  /** A slug the four accepted spellings agree on: no separator and no character that
      `urlparse` would cut at or delete, and no trailing whitespace. */
  predicate PlainSlug(slug: string) {
    IsSlug(slug) && '?' !in slug && '#' !in slug && ';' !in slug && NoUnsafe(slug) && !IsSpace(slug[|slug| - 1])
  }

  /** `/film/s/`, `film/s`, `https://letterboxd.com/film/s` and `https://letterboxd.com/film/s/`
      all canonicalise to `https://letterboxd.com/film/s/`. */
  lemma FourForms(slug: string)
    requires PlainSlug(slug)
    ensures NormalizeLetterboxdUri(Some("/film/" + slug + "/")) == Some(CanonicalUri(slug))
    ensures NormalizeLetterboxdUri(Some("film/" + slug)) == Some(CanonicalUri(slug))
    ensures NormalizeLetterboxdUri(Some(FILM_PREFIX + slug)) == Some(CanonicalUri(slug))
    ensures NormalizeLetterboxdUri(Some(FILM_PREFIX + slug + "/")) == Some(CanonicalUri(slug))
  {
    RootedForm(slug);
    RelativeForm(slug);
    CanonicalOfSlug(slug);
    AbsoluteBare(slug);
  }

  lemma RootedForm(slug: string)
    requires IsSlug(slug)
    ensures NormalizeLetterboxdUri(Some("/film/" + slug + "/")) == Some(CanonicalUri(slug))
  {
    FilmPathParts(slug, "");
    assert "/film/" + slug + "/" + "" == "/film/" + slug + "/";
    RootedInput("/film/" + slug + "/");
  }

  lemma RelativeForm(slug: string)
    requires PlainSlug(slug)
    ensures NormalizeLetterboxdUri(Some("film/" + slug)) == Some(CanonicalUri(slug))
  {
    var rel := "film/" + slug;
    assert rel[0] == 'f' && rel[|rel| - 1] == slug[|slug| - 1];
    StripUnchanged(rel);
    RelativeHasNoScheme(slug);
    assert "/" + rel == "/film/" + slug;
    assert PathOf(rel) == Some("/film/" + slug);
    FilmPathPartsBare(slug);
    assert UriOfPath("/film/" + slug) == Some(CanonicalUri(slug));
    NormalizeVia(rel, "/film/" + slug);
  }

  lemma AbsoluteBare(slug: string)
    requires PlainSlug(slug)
    ensures NormalizeLetterboxdUri(Some(FILM_PREFIX + slug)) == Some(CanonicalUri(slug))
  {
    var path := "/film/" + slug;
    BareSpelled(slug);
    FilmPathBareClean(slug);
    AbsoluteIgnoresHost("https", "letterboxd.com", path, "");
    AbsoluteBareRooted(slug);
  }

  /** Stripping `scheme://host/path<tail>` only trims the tail, which stays a tail. */
  lemma AbsoluteStrip(scheme: string, host: string, path: string, tail: string)
    requires IsScheme(scheme) && IsUrlTail(tail) && |path| > 0 && !IsSpace(path[|path| - 1])
    ensures Strip(scheme + "://" + host + path + tail) == scheme + "://" + host + path + RStrip(tail)
    ensures IsUrlTail(RStrip(tail))
  {
    var head := scheme + "://" + host + path;
    assert head[0] == scheme[0];
    assert head[|head| - 1] == path[|path| - 1];
    StripAppend(head, tail);
    if tail != [] {
      assert tail[0] == (tail[..1] + tail[1..])[0];
    }
  }

  /** The path read from `scheme://host/path<tail>` is the one `urlparse` finds. */
  lemma AbsolutePathOf(scheme: string, host: string, path: string, tail: string)
    requires IsScheme(scheme) && AcceptedHost(host) && NoUnsafe(host) && IsUrlTail(tail)
    requires |path| > 0 && path[0] == '/' && '?' !in path && '#' !in path && NoUnsafe(path)
    requires ';' !in path || path[|path| - 1] == '/'
    ensures PathOf(scheme + "://" + host + path + tail) == Some(path)
  {
    var u := scheme + "://" + host + path + tail;
    assert u == scheme + "://" + (host + path + tail);
    ContainsInside(scheme, "://", host + path + tail);
    assert u[0] == scheme[0];
    AbsoluteUrlPath(scheme, host, path, tail);
  }

  /** A non-blank input whose path is known names the film of that path. */
  lemma NormalizeVia(uri: string, path: string)
    requires Strip(uri) != "" && PathOf(Strip(uri)) == Some(path)
    ensures NormalizeLetterboxdUri(Some(uri)) == UriOfPath(path)
  {
  }

  /** For an input holding "://", only the parsed path matters: the scheme, the host,
      the query and the fragment are discarded. */
  lemma AbsoluteIgnoresHost(scheme: string, host: string, path: string, tail: string)
    requires IsScheme(scheme) && AcceptedHost(host) && NoUnsafe(host) && IsUrlTail(tail)
    requires |path| > 0 && path[0] == '/' && '?' !in path && '#' !in path && NoUnsafe(path)
    requires ';' !in path || path[|path| - 1] == '/'
    requires !IsSpace(path[|path| - 1])
    ensures NormalizeLetterboxdUri(Some(scheme + "://" + host + path + tail)) == NormalizeLetterboxdUri(Some(path))
  {
    AbsoluteStrip(scheme, host, path, tail);
    AbsolutePathOf(scheme, host, path, RStrip(tail));
    NormalizeVia(scheme + "://" + host + path + tail, path);
    RootedInput(path);
  }

  /** The canonical URI of a slug free of '?', '#', '\t', '\r' and '\n' canonicalises
      to itself. */
  lemma CanonicalOfSlug(slug: string)
    requires IsSlug(slug) && '?' !in slug && '#' !in slug && NoUnsafe(slug)
    ensures NormalizeLetterboxdUri(Some(CanonicalUri(slug))) == Some(CanonicalUri(slug))
  {
    var path := "/film/" + slug + "/";
    CanonicalSpelled(slug);
    FilmPathClean(slug);
    AbsoluteIgnoresHost("https", "letterboxd.com", path, "");
    RootedForm(slug);
  }

  lemma CanonicalSpelled(slug: string)
    ensures CanonicalUri(slug) == "https" + "://" + "letterboxd.com" + ("/film/" + slug + "/") + ""
  {
  }

  lemma FilmPathClean(slug: string)
    requires '?' !in slug && '#' !in slug && NoUnsafe(slug)
    ensures var path := "/film/" + slug + "/"; NoUnsafe(path) && '?' !in path && '#' !in path
  {
  }

  /** Idempotence: a result whose slug has no '?', '#', '\t', '\r' or '\n' is a fixed point. */
  lemma Idempotent(uri: Option<string>)
    requires NormalizeLetterboxdUri(uri).Some?
    requires var v := NormalizeLetterboxdUri(uri).value; '?' !in v && '#' !in v && NoUnsafe(v)
    ensures NormalizeLetterboxdUri(NormalizeLetterboxdUri(uri)) == NormalizeLetterboxdUri(uri)
  {
    var v := NormalizeLetterboxdUri(uri).value;
    var slug :| IsSlug(slug) && v == CanonicalUri(slug);
    CleanSlugOfCanonical(slug);
    CanonicalOfSlug(slug);
  }

  /** Every character of the slug is a character of its canonical URI. */
  lemma CleanSlugOfCanonical(slug: string)
    requires var v := CanonicalUri(slug); '?' !in v && '#' !in v && NoUnsafe(v)
    ensures '?' !in slug && '#' !in slug && NoUnsafe(slug)
  {
    var v := CanonicalUri(slug);
    assert forall i :: 0 <= i < |slug| ==> slug[i] == v[|FILM_PREFIX| + i];
  }

  /** Everything after the slug is ignored: `/film/s/reviews/` names the film `s`. */
  lemma SuffixIgnored(slug: string, rest: string)
    requires IsSlug(slug)
    ensures NormalizeLetterboxdUri(Some("/film/" + slug + "/" + rest)) == Some(CanonicalUri(slug))
  {
    var head := "/film/" + slug + "/";
    StripAppend(head, rest);
    var path := head + RStrip(rest);
    assert path[0] == '/';
    assert path == "/film/" + slug + "/" + RStrip(rest);
    FilmPathParts(slug, RStrip(rest));
    assert UriOfPath(path) == Some(CanonicalUri(slug));
    NormalizeVia(head + rest, path);
  }

  /** A '?' in a slug is kept by the path forms but cut by `urlparse`: canonicalising
      the canonical URI of `a?b` again names the film `a`, so idempotence needs its
      precondition. */
  lemma QueryInSlugTruncates(a: string, b: string)
    requires PlainSlug(a) && '/' !in b
    ensures NormalizeLetterboxdUri(Some("/film/" + (a + "?" + b) + "/")) == Some(CanonicalUri(a + "?" + b))
    ensures NormalizeLetterboxdUri(Some(CanonicalUri(a + "?" + b))) == Some(CanonicalUri(a))
  {
    assert IsSlug(a + "?" + b);
    RootedForm(a + "?" + b);
    QueryCut(a, b);
  }

  lemma QueryCut(a: string, b: string)
    requires PlainSlug(a)
    ensures NormalizeLetterboxdUri(Some(CanonicalUri(a + "?" + b))) == Some(CanonicalUri(a))
  {
    var path := "/film/" + a;
    QuerySpelled(a, b);
    FilmPathBareClean(a);
    AbsoluteIgnoresHost("https", "letterboxd.com", path, "?" + b + "/");
    AbsoluteBareRooted(a);
  }

  lemma BareSpelled(slug: string)
    ensures FILM_PREFIX + slug == "https" + "://" + "letterboxd.com" + ("/film/" + slug) + ""
  {
  }

  lemma QuerySpelled(a: string, b: string)
    ensures CanonicalUri(a + "?" + b) == "https" + "://" + "letterboxd.com" + ("/film/" + a) + ("?" + b + "/")
  {
  }

  lemma FilmPathBareClean(slug: string)
    requires PlainSlug(slug)
    ensures var path := "/film/" + slug;
      NoUnsafe(path) && '?' !in path && '#' !in path && ';' !in path && !IsSpace(path[|path| - 1])
  {
    var path := "/film/" + slug;
    assert path[|path| - 1] == slug[|slug| - 1];
  }

  lemma AbsoluteBareRooted(slug: string)
    requires PlainSlug(slug)
    ensures NormalizeLetterboxdUri(Some("/film/" + slug)) == Some(CanonicalUri(slug))
  {
    FilmPathBareClean(slug);
    FilmPathPartsBare(slug);
    RootedInput("/film/" + slug);
  }

  /** A URL whose host `urlparse` rejects (an unmatched bracket, a bracketed host that is
      not an IPv6 address, a host NFKC would give a delimiter) makes it raise, and the
      input is rejected instead of the exception escaping. */
  lemma UnparsableUrlRejected(scheme: string, host: string, path: string)
    requires IsScheme(scheme) && NoUnsafe(host) && '/' !in host && '?' !in host && '#' !in host
    requires NetlocError(host).Some?
    requires |path| > 0 && path[0] == '/' && NoUnsafe(path) && !IsSpace(path[|path| - 1])
    ensures NormalizeLetterboxdUri(Some(scheme + "://" + host + path)) == None
  {
    var u := scheme + "://" + host + path;
    AbsoluteUnstripped(scheme, host, path);
    AbsoluteHasScheme(scheme, host, path);
    RejectedHostRaises(scheme, host, path);
    assert PathOf(u) == None;
  }

  /** The film page on a host holding the account-of sign, which NFKC reads as "a/c",
      names no film. */
  lemma NfkcHostGivesNoFilm(scheme: string, host: string, path: string)
    requires scheme == "https" && host == "a\U{2100}" && path == "/film/s"
    ensures NormalizeLetterboxdUri(Some(scheme + "://" + host + path)) == None
  {
    NfkcHostRejected();
    UnparsableUrlRejected(scheme, host, path);
  }

  /** The film page on any host `urlparse` accepts names the film. */
  lemma FilmPageOnAnyHost(scheme: string, host: string, slug: string)
    requires IsScheme(scheme) && AcceptedHost(host) && NoUnsafe(host) && PlainSlug(slug)
    ensures NormalizeLetterboxdUri(Some(scheme + "://" + host + "/film/" + slug)) == Some(CanonicalUri(slug))
  {
    var path := "/film/" + slug;
    assert scheme + "://" + host + path + "" == scheme + "://" + host + "/film/" + slug;
    FilmPathBareClean(slug);
    AbsoluteIgnoresHost(scheme, host, path, "");
    AbsoluteBareRooted(slug);
  }

  /** The film page on a bracketed host that `urlparse` accepts (an IPv6 address or an
      IPvFuture literal) names the film like any other. */
  lemma BracketedHostNamesFilm(scheme: string, h: string, host: string, slug: string)
    requires IsScheme(scheme) && PlainSlug(slug) && host == "[" + h + "]"
    requires '@' !in h && '[' !in h && ']' !in h && '/' !in h && '?' !in h && '#' !in h
    requires NoUnsafe(h) && !NfkcUnsafe(h) && BracketedHostError(h) == None
    ensures NormalizeLetterboxdUri(Some(scheme + "://" + host + "/film/" + slug)) == Some(CanonicalUri(slug))
  {
    BracketedHostAccepted(h);
    FilmPageOnAnyHost(scheme, host, slug);
  }

  lemma BracketedHostAccepted(h: string)
    requires '@' !in h && '[' !in h && ']' !in h && '/' !in h && '?' !in h && '#' !in h
    requires NoUnsafe(h) && !NfkcUnsafe(h) && BracketedHostError(h) == None
    ensures AcceptedHost("[" + h + "]") && NoUnsafe("[" + h + "]")
  {
    var host := "[" + h + "]";
    AsciiNfkcSafe("");
    BracketedNetlocCheck(h, "");
    assert host + "" == host;
    BracketedChars(h);
  }

  lemma BracketedChars(h: string)
    requires '/' !in h && '?' !in h && '#' !in h && NoUnsafe(h)
    ensures var host := "[" + h + "]"; '/' !in host && '?' !in host && '#' !in host && NoUnsafe(host)
  {
    var host := "[" + h + "]";
    assert host == ['['] + h + [']'];
    forall i | 0 <= i < |host| ensures !IsUnsafe(host[i]) && host[i] != '/' && host[i] != '?' && host[i] != '#' {
      if 0 < i < |host| - 1 {
        assert host[i] == h[i - 1];
      }
    }
  }

  /** `scheme://host/path` has no surrounding whitespace. */
  lemma AbsoluteUnstripped(scheme: string, host: string, path: string)
    requires IsScheme(scheme) && |path| > 0 && !IsSpace(path[|path| - 1])
    ensures var u := scheme + "://" + host + path; Strip(u) == u && u != [] && u[0] != '/'
  {
    var u := scheme + "://" + host + path;
    assert u[0] == scheme[0];
    assert u[|u| - 1] == path[|path| - 1];
    StripUnchanged(u);
  }

  lemma AbsoluteHasScheme(scheme: string, host: string, path: string)
    ensures Contains(scheme + "://" + host + path, "://")
  {
    assert scheme + "://" + host + path == scheme + "://" + (host + path);
    ContainsInside(scheme, "://", host + path);
  }
}
