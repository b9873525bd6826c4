/** The pure helpers of the earlier, unrouted `api/views.py`: its film-URI
    normaliser, which only trims one trailing '/', and its RSS-URL builder, both as
    written and as evidently intended. (Its `parse_iso_date` is the one in
    `utils/dates.py`, modelled by `Dates.ParseIsoDate`.) */
module LegacyHelpers {
  import opened Wrappers
  import opened Builtins

  // ---------------------------------------------------------------------------
  // normalize_letterboxd_uri (views.py)

  /** The legacy `normalize_letterboxd_uri`: strip whitespace, then drop one trailing '/'. */
  function LegacyNormalize(uri: Option<string>): (r: string)
    ensures var t := Strip(OrEmpty(uri)); r == t || t == r + "/"
  {
    var t := Strip(OrEmpty(uri));
    if |t| > 0 && t[|t| - 1] == '/' then t[..|t| - 1] else t
  }

  /** Exactly one trailing '/' is removed, and nothing else changes; a string without a
      trailing '/' is returned as it is. */
  lemma LegacyNormalizeDropsOneSlash(uri: Option<string>)
    ensures var t := Strip(OrEmpty(uri));
      if |t| > 0 && t[|t| - 1] == '/' then LegacyNormalize(uri) + "/" == t else LegacyNormalize(uri) == t
  {
    var t := Strip(OrEmpty(uri));
    if |t| > 0 && t[|t| - 1] == '/' {
      assert t[..|t| - 1] + "/" == t;
    }
  }

  /** Nothing is rejected except the blank input and a lone "/": every other URI gives
      a non-empty key. */
  lemma LegacyNormalizeEmpty(uri: Option<string>)
    ensures LegacyNormalize(uri) == "" <==> Strip(OrEmpty(uri)) in {"", "/"}
  {
    var t := Strip(OrEmpty(uri));
    if |t| == 1 && t[0] == '/' {
      assert t == "/";
    }
  }

  /** Only one slash is trimmed, so the normaliser is not idempotent: `a//` gives `a/`,
      which gives `a`. */
  lemma LegacyNormalizeNotIdempotent(a: string)
    requires a != [] && !IsSpace(a[0]) && a[|a| - 1] != '/'
    ensures LegacyNormalize(Some(a + "//")) == a + "/"
    ensures LegacyNormalize(Some(a + "/")) == a
  {
    var b := a + "/";
    assert b[0] == a[0];
    StripUnchanged(b);
    assert b[..|b| - 1] == a;
    var c := a + "//";
    assert c[0] == a[0];
    StripUnchanged(c);
    assert c[..|c| - 1] == b;
  }

  // ---------------------------------------------------------------------------
  // String helpers used by the RSS-URL builder

  predicate StartsWith(s: string, p: string) {
    |p| <= |s| && s[..|p|] == p
  }

  predicate EndsWith(s: string, p: string) {
    |p| <= |s| && s[|s| - |p|..] == p
  }

  /** `s.rstrip(c)` for one character. */
  function RStripChar(s: string, c: char): (r: string)
    ensures |r| <= |s| && r == s[..|r|]
    ensures r == [] || r[|r| - 1] != c
    ensures forall i :: |r| <= i < |s| ==> s[i] == c
  {
    if |s| > 0 && s[|s| - 1] == c then RStripChar(s[..|s| - 1], c) else s
  }

  /** `s.lstrip(c)` for one character. */
  function LStripChar(s: string, c: char): (r: string)
    ensures |r| <= |s| && r == s[|s| - |r|..]
    ensures r == [] || r[0] != c
  {
    if |s| > 0 && s[0] == c then LStripChar(s[1..], c) else s
  }

  // ---------------------------------------------------------------------------
  // _build_letterboxd_rss_url (views.py)

  const LETTERBOXD_ROOT: string := "https://letterboxd.com/"

  /** The feed URL of a Letterboxd user. */
  function RssUrlOf(username: string): string {
    LETTERBOXD_ROOT + username + "/rss/"
  }

  /** The exceptions the builder raises as written. */
  datatype BuildError = AttributeError | IndexError

  /** The builder as written: `s.startsqwith(...)` is not a method of `str`, so every
      non-blank input raises `AttributeError` at that call, and the branches after it
      are never reached. */
  function BuildRssUrlAsWritten(raw: Option<string>): (r: Result<string, BuildError>)
    ensures r.Success? <==> Strip(OrEmpty(raw)) == ""
    ensures r.Success? ==> r.value == ""
    ensures r.Failure? ==> r.error == AttributeError
  {
    var s := Strip(OrEmpty(raw));
    if s == "" then Success("")
    else
      var s' := if StartsWith(s, "letterboxd.com/") then "https://" + s else s;
      Failure(AttributeError)
  }

  /** The view strips its input before the builder strips it again; the answer is the
      same as for the input stripped once. */
  lemma AsWrittenOnStripped(s: string)
    ensures BuildRssUrlAsWritten(Some(Strip(s))) == if Strip(s) == "" then Success("") else Failure(AttributeError)
  {
    var r := Strip(s);
    StripTwiceBlank(s);
    assert OrEmpty(Some(r)) == r;
  }

  /** A plain username is rejected by raising, not with "Invalid RSS input". */
  lemma AsWrittenRaisesOnUsername()
    ensures BuildRssUrlAsWritten(Some("alice")) == Failure(AttributeError)
  {
    StripUnchanged("alice");
  }

  /** The text after `https://letterboxd.com/` or `http://letterboxd.com/`, if `t` starts
      with one of them. */
  function AfterLetterboxdHost(t: string): Option<string> {
    if StartsWith(t, "https://letterboxd.com/") then Some(t[23..])
    else if StartsWith(t, "http://letterboxd.com/") then Some(t[22..])
    else None
  }

  /** What `([^/]+)/?$` captures in what follows the host: `$` matches at the end and
      also before a final newline, and the group is greedy. */
  function ProfileGroup(rest: string): (r: Option<string>)
    ensures r.Some? ==> r.value != [] && '/' !in r.value
  {
    if rest != [] && '/' !in rest then Some(rest)
    else if |rest| >= 2 && rest[|rest| - 1] == '/' && '/' !in rest[..|rest| - 1] then Some(rest[..|rest| - 1])
    else if |rest| >= 3 && rest[|rest| - 2] == '/' && rest[|rest| - 1] == '\n' && '/' !in rest[..|rest| - 2] then Some(rest[..|rest| - 2])
    else None
  }

  /** `re.match(r"^https?://letterboxd\.com/([^/]+)/?$", t)`, giving group 1. */
  function ProfileMatch(t: string): Option<string> {
    match AfterLetterboxdHost(t)
    case None => None
    case Some(rest) => ProfileGroup(rest)
  }

  /** The builder with only line 53 spelt `startswith`: the remaining lines as written. */
  function BuildRssUrlPast53(raw: Option<string>): (r: Result<string, BuildError>)
    ensures Strip(OrEmpty(raw)) == "" ==> r == Success("")
  {
    var s := Strip(OrEmpty(raw));
    if s == "" then Success("")
    else
      var s := if StartsWith(s, "letterboxd.com/") then "https://" + s else s;
      if StartsWith(s, "http://") || StartsWith(s, "https://") then
        var t := RStripChar(s, '/');
        if EndsWith(t, "/rss/") then Success(t + "/")
        else if ProfileMatch(t).Some? then Failure(IndexError)
        else Success("")
      else
        var username := Without(RStripChar(LStripChar(s, '/'), '/'), ' ');
        if username == "" then Success("") else Success(RssUrlOf(username))
  }

  /** After `rstrip("/")` a string never ends with "/rss/", so the RSS-URL branch is dead. */
  lemma RssBranchDead(s: string)
    ensures !EndsWith(RStripChar(s, '/'), "/rss/")
  {
  }

  /** With line 53 fixed, a profile URL reaches `m.group(2)` on a pattern with one group
      and raises `IndexError`. */
  lemma ProfileUrlRaisesPast53(u: string)
    requires IsUsername(u)
    ensures BuildRssUrlPast53(Some(LETTERBOXD_ROOT + u)) == Failure(IndexError)
  {
    ProfileUrlShape(u);
  }

  /** With line 53 fixed, an RSS URL is not kept but rejected as an unknown format. */
  lemma RssUrlRejectedPast53(u: string)
    requires IsUsername(u)
    ensures BuildRssUrlPast53(Some(RssUrlOf(u))) == Success("")
  {
    RssUrlShape(u);
  }

  /** The builder as evidently intended: an RSS URL is kept (with one trailing '/'), a
      profile URL (with or without scheme) becomes its feed URL, any other URL is
      rejected with "", and anything else is taken as a username. */
  function BuildRssUrl(raw: Option<string>): (r: string)
    ensures Strip(OrEmpty(raw)) == "" ==> r == ""
  {
    var s := Strip(OrEmpty(raw));
    if s == "" then ""
    else
      var s := if StartsWith(s, "letterboxd.com/") then "https://" + s else s;
      if StartsWith(s, "http://") || StartsWith(s, "https://") then
        var t := RStripChar(s, '/');
        if EndsWith(t, "/rss") then t + "/"
        else if ProfileMatch(t).Some? then RssUrlOf(ProfileMatch(t).value)
        else ""
      else
        var username := Without(RStripChar(LStripChar(s, '/'), '/'), ' ');
        if username == "" then "" else RssUrlOf(username)
  }

  /** A Letterboxd username as the builder's scenarios use one: non-empty, no '/', no
      space, no surrounding whitespace, not starting "http", and not "rss" (which the
      builder would take for the last segment of a feed URL). */
  predicate IsUsername(u: string) {
    && u != [] && '/' !in u && ' ' !in u && !IsSpace(u[0]) && !IsSpace(u[|u| - 1])
    && u != "rss" && !StartsWith(u, "http") && !StartsWith(u, "letterboxd.com")
  }

  lemma ProfileUrlShape(u: string)
    requires IsUsername(u)
    ensures Strip(LETTERBOXD_ROOT + u) == LETTERBOXD_ROOT + u
    ensures RStripChar(LETTERBOXD_ROOT + u, '/') == LETTERBOXD_ROOT + u
    ensures !StartsWith(LETTERBOXD_ROOT + u, "letterboxd.com/") && StartsWith(LETTERBOXD_ROOT + u, "https://")
    ensures !EndsWith(LETTERBOXD_ROOT + u, "/rss") && !EndsWith(LETTERBOXD_ROOT + u, "/rss/")
    ensures ProfileMatch(LETTERBOXD_ROOT + u) == Some(u)
  {
    ProfileUrlStrip(u);
    ProfileUrlPrefix(u);
    ProfileUrlNotFeed(u);
    ProfileUrlMatch(u);
  }

  lemma ProfileUrlStrip(u: string)
    requires IsUsername(u)
    ensures Strip(LETTERBOXD_ROOT + u) == LETTERBOXD_ROOT + u
    ensures RStripChar(LETTERBOXD_ROOT + u, '/') == LETTERBOXD_ROOT + u
  {
    var p := LETTERBOXD_ROOT + u;
    assert p[|p| - 1] == u[|u| - 1];
    StripUnchanged(p);
  }

  lemma ProfileUrlPrefix(u: string)
    ensures !StartsWith(LETTERBOXD_ROOT + u, "letterboxd.com/") && StartsWith(LETTERBOXD_ROOT + u, "https://")
  {
    var p := LETTERBOXD_ROOT + u;
    assert p[..8] == "https://";
    assert p[0] == 'h';
  }

  lemma ProfileUrlNotFeed(u: string)
    requires IsUsername(u)
    ensures !EndsWith(LETTERBOXD_ROOT + u, "/rss") && !EndsWith(LETTERBOXD_ROOT + u, "/rss/")
  {
    var p := LETTERBOXD_ROOT + u;
    assert p[|p| - 1] == u[|u| - 1];
    if |u| >= 4 {
      assert u[|u| - 4] == p[|p| - 4];
    } else if |u| == 3 {
      assert p[|p| - 3..] == u;
    } else {
      assert p[|p| - 4] == LETTERBOXD_ROOT[19 + |u|];
    }
  }

  lemma ProfileUrlMatch(u: string)
    requires IsUsername(u)
    ensures ProfileMatch(LETTERBOXD_ROOT + u) == Some(u)
  {
    var p := LETTERBOXD_ROOT + u;
    assert p[..23] == LETTERBOXD_ROOT;
    assert p[23..] == u;
  }

  lemma RssUrlShape(u: string)
    requires IsUsername(u)
    ensures Strip(RssUrlOf(u)) == RssUrlOf(u)
    ensures RStripChar(RssUrlOf(u), '/') == LETTERBOXD_ROOT + u + "/rss"
    ensures !StartsWith(RssUrlOf(u), "letterboxd.com/") && StartsWith(RssUrlOf(u), "https://")
    ensures EndsWith(LETTERBOXD_ROOT + u + "/rss", "/rss")
    ensures ProfileMatch(LETTERBOXD_ROOT + u + "/rss") == None
  {
    RssUrlStrip(u);
    RssUrlPrefix(u);
    RssTailNoProfile(u);
  }

  lemma RssUrlStrip(u: string)
    requires IsUsername(u)
    ensures Strip(RssUrlOf(u)) == RssUrlOf(u)
    ensures RStripChar(RssUrlOf(u), '/') == LETTERBOXD_ROOT + u + "/rss"
  {
    var r := RssUrlOf(u);
    var t := LETTERBOXD_ROOT + u + "/rss";
    assert r == t + "/";
    StripUnchanged(r);
    assert r[..|r| - 1] == t;
  }

  lemma RssUrlPrefix(u: string)
    ensures !StartsWith(RssUrlOf(u), "letterboxd.com/") && StartsWith(RssUrlOf(u), "https://")
  {
    var r := RssUrlOf(u);
    assert r[..8] == "https://";
    assert r[0] == 'h';
  }

  lemma RssTailNoProfile(u: string)
    requires IsUsername(u)
    ensures EndsWith(LETTERBOXD_ROOT + u + "/rss", "/rss")
    ensures ProfileMatch(LETTERBOXD_ROOT + u + "/rss") == None
  {
    var t := LETTERBOXD_ROOT + u + "/rss";
    assert t[..23] == LETTERBOXD_ROOT;
    var rest := t[23..];
    assert rest == u + "/rss";
    assert rest[|u|] == '/';
    assert rest[|rest| - 1] == 's';
  }

  lemma UsernameShape(u: string)
    requires IsUsername(u)
    ensures Strip(u) == u && !StartsWith(u, "letterboxd.com/") && !StartsWith(u, "http://") && !StartsWith(u, "https://")
    ensures Without(RStripChar(LStripChar(u, '/'), '/'), ' ') == u
  {
    StripUnchanged(u);
    UsernameNoUrlPrefix(u);
    WithoutAbsent(u, ' ');
  }

  lemma UsernameNoUrlPrefix(u: string)
    requires IsUsername(u)
    ensures !StartsWith(u, "letterboxd.com/") && !StartsWith(u, "http://") && !StartsWith(u, "https://")
  {
    assert |u| >= 15 ==> u[..15][..14] == u[..14];
    assert |u| >= 7 ==> u[..7][..4] == u[..4];
    assert |u| >= 8 ==> u[..8][..4] == u[..4];
  }

  lemma HostFormShape(u: string)
    requires IsUsername(u)
    ensures Strip("letterboxd.com/" + u) == "letterboxd.com/" + u
    ensures StartsWith("letterboxd.com/" + u, "letterboxd.com/")
    ensures "https://" + ("letterboxd.com/" + u) == LETTERBOXD_ROOT + u
  {
    HostFormStrip(u);
    HostFormPrefix(u);
  }

  lemma HostFormStrip(u: string)
    requires IsUsername(u)
    ensures Strip("letterboxd.com/" + u) == "letterboxd.com/" + u
  {
    var h := "letterboxd.com/" + u;
    assert h[|h| - 1] == u[|u| - 1];
    StripUnchanged(h);
  }

  lemma HostFormPrefix(u: string)
    ensures StartsWith("letterboxd.com/" + u, "letterboxd.com/")
  {
    var h := "letterboxd.com/" + u;
    assert h[..15] == "letterboxd.com/";
  }

  /** How the intended builder treats a stripped `https://` URL. */
  lemma BuildUrlForm(s: string)
    requires Strip(s) == s && s != "" && !StartsWith(s, "letterboxd.com/") && StartsWith(s, "https://")
    ensures var t := RStripChar(s, '/');
      BuildRssUrl(Some(s)) == if EndsWith(t, "/rss") then t + "/" else if ProfileMatch(t).Some? then RssUrlOf(ProfileMatch(t).value) else ""
  {
  }

  /** The intended builder turns a username, `letterboxd.com/<u>`, a profile URL and
      the feed URL itself into the same feed URL. */
  lemma BuilderScenarios(u: string)
    requires IsUsername(u)
    ensures BuildRssUrl(Some(u)) == RssUrlOf(u)
    ensures BuildRssUrl(Some("letterboxd.com/" + u)) == RssUrlOf(u)
    ensures BuildRssUrl(Some(LETTERBOXD_ROOT + u)) == RssUrlOf(u)
    ensures BuildRssUrl(Some(RssUrlOf(u))) == RssUrlOf(u)
  {
    UsernameShape(u);
    HostFormScenario(u);
    ProfileScenario(u);
    FeedScenario(u);
  }

  lemma ProfileScenario(u: string)
    requires IsUsername(u)
    ensures BuildRssUrl(Some(LETTERBOXD_ROOT + u)) == RssUrlOf(u)
  {
    ProfileUrlShape(u);
    BuildUrlForm(LETTERBOXD_ROOT + u);
  }

  lemma FeedScenario(u: string)
    requires IsUsername(u)
    ensures BuildRssUrl(Some(RssUrlOf(u))) == RssUrlOf(u)
  {
    RssUrlShape(u);
    BuildUrlForm(RssUrlOf(u));
    assert LETTERBOXD_ROOT + u + "/rss" + "/" == RssUrlOf(u);
  }

  lemma HostFormScenario(u: string)
    requires IsUsername(u)
    ensures BuildRssUrl(Some("letterboxd.com/" + u)) == RssUrlOf(u)
  {
    HostFormShape(u);
    ProfileUrlShape(u);
  }
}
