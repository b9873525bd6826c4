/** The part of Python's `urllib.parse.urlparse` that the film-URI
    canonicaliser depends on, as CPython 3.12 implements it: how the path
    component is cut out of an absolute URL, and when parsing raises
    `ValueError` (an unmatched bracket, a bracketed host that is neither an
    IPv6 address nor an IPvFuture literal, and a netloc that NFKC
    normalisation would give a '/', '?', '#', '@' or ':'). */
module UrllibParse {
  import opened Wrappers
  import opened Builtins

  /** Characters allowed in a scheme name (`scheme_chars`). */
  predicate SchemeChar(c: char) {
    ('a' <= c <= 'z') || ('A' <= c <= 'Z') || ('0' <= c <= '9') || c == '+' || c == '-' || c == '.'
  }

  predicate IsAsciiAlpha(c: char) {
    ('a' <= c <= 'z') || ('A' <= c <= 'Z')
  }

  /** Schemes whose last path segment may carry `;params` (`uses_params`). */
  const USES_PARAMS: set<string> := {"", "ftp", "hdl", "prospero", "http", "imap", "https", "shttp",
                                     "rtsp", "rtsps", "rtspu", "sip", "sips", "mms", "sftp", "tel"}

  /** `s.lstrip(_WHATWG_C0_CONTROL_OR_SPACE)`: drops leading characters up to and including space. */
  function LStripC0(s: string): (r: string)
    ensures |r| <= |s| && r == s[|s| - |r|..]
    ensures r == [] || r[0] > ' '
  {
    if |s| > 0 && s[0] <= ' ' then LStripC0(s[1..]) else s
  }

  /** The characters in `_UNSAFE_URL_BYTES_TO_REMOVE`. */
  predicate IsUnsafe(c: char) {
    c == '\t' || c == '\r' || c == '\n'
  }

  predicate NoUnsafe(s: string) {
    forall i :: 0 <= i < |s| ==> !IsUnsafe(s[i])
  }

  /** `urlsplit` deletes every '\t', '\r' and '\n' (one `replace` per character). */
  function RemoveUnsafe(s: string): (r: string)
    ensures NoUnsafe(r)
  {
    if |s| == 0 then []
    else
      var rest := RemoveUnsafe(s[1..]);
      if IsUnsafe(s[0]) then rest else [s[0]] + rest
  }

  lemma {:induction false} RemoveUnsafeAppend(a: string, b: string)
    requires NoUnsafe(a)
    ensures RemoveUnsafe(a + b) == a + RemoveUnsafe(b)
  {
    if |a| > 0 {
      assert (a + b)[1..] == a[1..] + b;
      RemoveUnsafeAppend(a[1..], b);
      assert [a[0]] + a[1..] == a;
    } else {
      assert a + b == b;
    }
  }

  lemma NoUnsafeAppend(a: string, b: string)
    requires NoUnsafe(a) && NoUnsafe(b)
    ensures NoUnsafe(a + b)
  {
  }

  lemma RemoveUnsafeNoop(s: string)
    requires NoUnsafe(s)
    ensures RemoveUnsafe(s) == s
  {
    RemoveUnsafeAppend(s, "");
    assert s + "" == s;
  }

  function AsciiLower(s: string): (r: string)
    ensures |r| == |s|
  {
    if |s| == 0 then []
    else [if 'A' <= s[0] <= 'Z' then (s[0] as int + 32) as char else s[0]] + AsciiLower(s[1..])
  }

  datatype SplitResult = SplitResult(scheme: string, netloc: string, path: string, query: string, fragment: string)
  datatype ParseResult = ParseResult(scheme: string, netloc: string, path: string, params: string, query: string, fragment: string)
  /** The three `ValueError`s `urlsplit` raises: "Invalid IPv6 URL", the rejection of a
      bracketed host, and "contains invalid characters under NFKC normalization". */
  datatype UrlError = InvalidIPv6Url | InvalidBracketedHost | InvalidUnderNfkc

  /** The end of `urlsplit`: the fragment is cut at the first '#', then the query at the first '?'. */
  function SplitTail(scheme: string, netloc: string, rest: string): (r: SplitResult)
    ensures '#' !in r.path && '?' !in r.path
  {
    var h := Find(rest, '#');
    var beforeHash := if h >= 0 then rest[..h] else rest;
    var fragment := if h >= 0 then rest[h + 1..] else "";
    var q := Find(beforeHash, '?');
    var path := if q >= 0 then beforeHash[..q] else beforeHash;
    var query := if q >= 0 then beforeHash[q + 1..] else "";
    SplitResult(scheme, netloc, path, query, fragment)
  }

  /** The scheme test of `urlsplit`: the text before the first ':' is a scheme when it is
      non-empty, starts with an ASCII letter and holds only scheme characters. */
  function SplitScheme(u: string): (r: (string, string))
  {
    var i := Find(u, ':');
    if i > 0 && IsAsciiAlpha(u[0]) && forall k :: 0 <= k < i ==> SchemeChar(u[k]) then (AsciiLower(u[..i]), u[i + 1..])
    else ("", u)
  }

  /** `_splitnetloc(url, 2)`: the netloc runs from after "//" to the first '/', '?' or '#'. */
  function SplitNetloc(rest: string): (r: (string, string))
    requires |rest| >= 2
    ensures r.0 + r.1 == rest[2..]
  {
    var d := FirstOf(rest, 2, {'/', '?', '#'});
    assert rest[2..d] + rest[d..] == rest[2..];
    (rest[2..d], rest[d..])
  }

  predicate UnmatchedBracket(netloc: string) {
    ('[' in netloc && ']' !in netloc) || (']' in netloc && '[' !in netloc)
  }

  // ---------------------------------------------------------------------------
  // `ipaddress.ip_address` on a bracketed host

  /** `_HEX_DIGITS` */
  predicate IsHexDigit(c: char) {
    IsAsciiDigit(c) || ('a' <= c <= 'f') || ('A' <= c <= 'F')
  }

  /** `_parse_octet` accepts `p`: one to three ASCII digits, no leading zero unless the
      octet is "0", and a value of at most 255. */
  predicate IsOctet(p: string) {
    && 1 <= |p| <= 3
    && (forall i :: 0 <= i < |p| ==> IsAsciiDigit(p[i]))
    && (p == "0" || p[0] != '0')
    && DigitsValue(p) <= 255
  }

  /** `IPv4Address(s)` succeeds: no '/', and exactly four '.'-separated octets. */
  predicate IsIPv4(s: string) {
    && '/' !in s
    && var octets := Split(s, '.');
    && |octets| == 4
    && forall i :: 0 <= i < 4 ==> IsOctet(octets[i])
  }

  /** `_parse_hextet` accepts `p`: one to four ASCII hexadecimal digits. */
  predicate IsHextet(p: string) {
    1 <= |p| <= 4 && forall i :: 0 <= i < |p| ==> IsHexDigit(p[i])
  }

  /** The indices `i` from `i` on, short of the last part, whose part is empty. */
  function EmptyParts(parts: seq<string>, i: nat): (r: seq<nat>)
    ensures forall k :: 0 <= k < |r| ==> i <= r[k] < |parts| - 1 && parts[r[k]] == ""
    decreases |parts| - i
  {
    if i + 1 >= |parts| then []
    else (if parts[i] == "" then [i] else []) + EmptyParts(parts, i + 1)
  }

  /** `_BaseV6._ip_int_from_string` accepts `a`: at most 45 characters, at least three
      ':'-separated parts, an IPv4 address in the last part standing for two hextets,
      at most nine parts, at most one interior empty part (the "::"), and then either
      eight hextets, or hextets before and after the "::" that leave it at least one
      to stand for; a leading or trailing empty part only belongs to the "::".
      (`split` stops after nine colons there; with more, both splits raise.) */
  predicate IPv6Text(a: string) {
    && a != [] && |a| <= 45
    && var split := Split(a, ':');
    && |split| >= 3
    && var last := split[|split| - 1];
    && ('.' in last ==> IsIPv4(last))
    && var parts := if '.' in last then split[..|split| - 1] + ["0", "0"] else split;
    && |parts| <= 9
    && var skips := EmptyParts(parts, 1);
    && |skips| <= 1
    && if |skips| == 0 then
         |parts| == 8 && forall i :: 0 <= i < 8 ==> IsHextet(parts[i])
       else
         var k := skips[0];
         var hi := if parts[0] == "" then k - 1 else k;
         var lo := if parts[|parts| - 1] == "" then |parts| - k - 2 else |parts| - k - 1;
         && (parts[0] == "" ==> hi == 0)
         && (parts[|parts| - 1] == "" ==> lo == 0)
         && hi + lo <= 7
         && (forall i :: 0 <= i < hi ==> IsHextet(parts[i]))
         && (forall i :: |parts| - lo <= i < |parts| ==> IsHextet(parts[i]))
  }

  /** `IPv6Address(h)` succeeds: no '/', a scope after '%' that is non-empty and holds no
      second '%', and a valid address before it. */
  predicate IsIPv6(h: string) {
    && '/' !in h
    && var p := Find(h, '%');
    && (p >= 0 ==> h[p + 1..] != [] && '%' !in h[p + 1..])
    && IPv6Text(if p >= 0 then h[..p] else h)
  }

  /** The end of the run of ASCII hexadecimal digits that starts at `i`. */
  function HexRunEnd(s: string, i: nat): (j: nat)
    requires i <= |s|
    ensures i <= j <= |s| && (j < |s| ==> !IsHexDigit(s[j]))
    ensures forall k :: i <= k < j ==> IsHexDigit(s[k])
    decreases |s| - i
  {
    if i < |s| && IsHexDigit(s[i]) then HexRunEnd(s, i + 1) else i
  }

  /** `re.match(r"\Av[a-fA-F0-9]+\..+\Z", h)`: 'v', hexadecimal digits, '.', and at least
      one more character, none of them a newline. */
  predicate IsIPvFuture(h: string) {
    && |h| > 0 && h[0] == 'v'
    && var j := HexRunEnd(h, 1);
    && j >= 2 && j + 1 < |h| && h[j] == '.' && '\n' !in h[j + 1..]
  }

  /** `_check_bracketed_host(h)`: an IPvFuture literal when `h` starts with 'v', and
      otherwise an IPv6 address that is not an IPv4 one. */
  function BracketedHostError(h: string): (r: Option<UrlError>)
    ensures r.None? <==> (if |h| > 0 && h[0] == 'v' then IsIPvFuture(h) else !IsIPv4(h) && IsIPv6(h))
    ensures r.Some? ==> r.value == InvalidBracketedHost
  {
    if |h| > 0 && h[0] == 'v' then (if IsIPvFuture(h) then None else Some(InvalidBracketedHost))
    else if IsIPv4(h) || !IsIPv6(h) then Some(InvalidBracketedHost)
    else None
  }

  /** `s.partition(c)`: the text before the first `c`, whether there is one, and the text
      after it. */
  function Partition(s: string, c: char): (r: (string, bool, string))
    ensures r.1 <==> c in s
    ensures r.1 ==> s == r.0 + [c] + r.2 && c !in r.0
    ensures !r.1 ==> r.0 == s && r.2 == []
  {
    var i := Find(s, c);
    if i < 0 then (s, false, [])
    else
      assert s == s[..i] + [c] + s[i + 1..];
      (s[..i], true, s[i + 1..])
  }

  lemma PartitionAt(a: string, c: char, b: string)
    requires c !in a
    ensures Partition(a + [c] + b, c) == (a, true, b)
  {
    var s := a + [c] + b;
    assert s == a + ([c] + b);
    FindAfter(a, [c] + b, c);
    assert s[..|a|] == a;
    assert s[|a| + 1..] == b;
  }

  /** `netloc.rpartition('@')[2]`: the text after the last '@', or all of it. */
  function AfterLastAt(netloc: string): (r: string)
    ensures '@' !in netloc ==> r == netloc
  {
    netloc[RFind(netloc, '@') + 1..]
  }

  /** `_check_bracketed_netloc(netloc)`: after the last '@', nothing may come before '[',
      and only a ':' may follow ']'; the text between them is the host. Without a '['
      the host is the text before the first ':'. */
  function BracketedNetlocError(netloc: string): Option<UrlError> {
    var (before, open, bracketed) := Partition(AfterLastAt(netloc), '[');
    if open then
      if before != [] then Some(InvalidIPv6Url)
      else
        var (hostname, _, port) := Partition(bracketed, ']');
        if port != [] && port[0] != ':' then Some(InvalidIPv6Url)
        else BracketedHostError(hostname)
    else
      BracketedHostError(Partition(before, ':').0)
  }

  // ---------------------------------------------------------------------------
  // `_checknetloc`

  /** The characters whose NFKC normalisation holds '/', '?', '#', '@' or ':' (Unicode 15.0:
      the question and exclamation ligatures, the account-of and care-of signs, the
      double-colon-equals sign, and the small, vertical and fullwidth forms of those
      delimiters). None is ASCII. */
  predicate NfkcDelimiter(c: char) {
    || c == '\U{2047}' || c == '\U{2048}' || c == '\U{2049}'
    || c == '\U{2100}' || c == '\U{2101}' || c == '\U{2105}' || c == '\U{2106}'
    || c == '\U{2A74}'
    || c == '\U{FE13}' || c == '\U{FE16}' || c == '\U{FE55}' || c == '\U{FE56}' || c == '\U{FE5F}' || c == '\U{FE6B}'
    || c == '\U{FF03}' || c == '\U{FF0F}' || c == '\U{FF1A}' || c == '\U{FF1F}' || c == '\U{FF20}'
  }

  /** `_checknetloc(netloc)` raises: the netloc, with '@', ':', '#' and '?' removed and
      normalised to NFKC, gains one of those delimiters or a '/'. Normalisation never
      composes one of these ASCII delimiters away, so this happens exactly when some
      character of the netloc normalises to text holding one. */
  predicate NfkcUnsafe(netloc: string) {
    exists i :: 0 <= i < |netloc| && NfkcDelimiter(netloc[i])
  }

  /** The checks `urlsplit` makes of the netloc, in its order: an unmatched bracket, then
      a bracketed host when both brackets occur, then NFKC normalisation. */
  function NetlocError(netloc: string): (r: Option<UrlError>)
    ensures UnmatchedBracket(netloc) ==> r == Some(InvalidIPv6Url)
    ensures NfkcUnsafe(netloc) ==> r.Some?
    ensures r.None? <==> !UnmatchedBracket(netloc) && !NfkcUnsafe(netloc)
                         && ('[' in netloc && ']' in netloc ==> BracketedNetlocError(netloc).None?)
  {
    if UnmatchedBracket(netloc) then Some(InvalidIPv6Url)
    else if '[' in netloc && ']' in netloc && BracketedNetlocError(netloc).Some? then BracketedNetlocError(netloc)
    else if NfkcUnsafe(netloc) then Some(InvalidUnderNfkc)
    else None
  }

  /** `urlsplit(url)`: scheme, then `//netloc`, then fragment and query; a netloc that
      fails `NetlocError` raises `ValueError`. */
  function UrlSplit(url: string): (r: Result<SplitResult, UrlError>)
    ensures r.Success? ==> '#' !in r.value.path && '?' !in r.value.path
  {
    SplitCleaned(RemoveUnsafe(LStripC0(url)))
  }

  /** `urlsplit` once leading controls and unsafe characters are gone. */
  function SplitCleaned(u: string): (r: Result<SplitResult, UrlError>)
    ensures r.Success? ==> '#' !in r.value.path && '?' !in r.value.path
  {
    var (scheme, rest) := SplitScheme(u);
    if |rest| >= 2 && rest[..2] == "//" then
      var (netloc, after) := SplitNetloc(rest);
      match NetlocError(netloc)
      case Some(e) => Failure(e)
      case None => Success(SplitTail(scheme, netloc, after))
    else
      Success(SplitTail(scheme, "", rest))
  }

  /** `url.find(c, start)` */
  function FindFrom(s: string, c: char, start: nat): (i: int)
    requires start <= |s|
    ensures i == -1 || (start <= i < |s| && s[i] == c)
    ensures i == -1 <==> c !in s[start..]
  {
    var j := Find(s[start..], c);
    if j < 0 then -1 else start + j
  }

  /** `_splitparams(url)`: `;params` are cut from the last path segment only. */
  function SplitParams(url: string): (r: (string, string))
    requires ';' in url
    ensures |r.0| <= |url| && r.0 == url[..|r.0|]
  {
    if '/' in url then
      var i := FindFrom(url, ';', RFind(url, '/'));
      if i < 0 then (url, "") else (url[..i], url[i + 1..])
    else
      var i := Find(url, ';');
      (url[..i], url[i + 1..])
  }

  /** `urlparse(url)` */
  function UrlParse(url: string): (r: Result<ParseResult, UrlError>)
    ensures r.Success? ==> '#' !in r.value.path && '?' !in r.value.path
  {
    match UrlSplit(url)
    case Failure(e) => Failure(e)
    case Success(sp) =>
      var (path, params) := if sp.scheme in USES_PARAMS && ';' in sp.path then SplitParams(sp.path) else (sp.path, "");
      assert '#' !in path && '?' !in path by {
        assert forall c :: c in sp.path[..|path|] ==> c in sp.path;
      }
      Success(ParseResult(sp.scheme, sp.netloc, path, params, sp.query, sp.fragment))
  }

  /** A scheme Python recognises: an ASCII letter followed by scheme characters. */
  predicate IsScheme(scheme: string) {
    |scheme| > 0 && IsAsciiAlpha(scheme[0]) && forall k :: 0 <= k < |scheme| ==> SchemeChar(scheme[k])
  }

  /** A host that ends at the first '/' and that `urlsplit` accepts. */
  predicate AcceptedHost(host: string) {
    '/' !in host && '?' !in host && '#' !in host && NetlocError(host).None?
  }

  /** Everything after the path: nothing, or a query or fragment part. */
  predicate IsUrlTail(tail: string) {
    tail == [] || tail[0] == '?' || tail[0] == '#'
  }

  lemma UrlTailKept(tail: string)
    requires IsUrlTail(tail)
    ensures IsUrlTail(RemoveUnsafe(tail))
  {
    if |tail| > 0 {
      assert tail[1..] == (tail[0..1] + tail[1..])[1..];
    }
  }

  lemma SchemeNoUnsafe(scheme: string)
    requires IsScheme(scheme)
    ensures NoUnsafe(scheme + "://")
  {
    assert forall k :: 0 <= k < |scheme| ==> SchemeChar(scheme[k]);
  }

  lemma SplitSchemeOf(scheme: string, rest: string)
    requires IsScheme(scheme)
    ensures SplitScheme(scheme + ":" + rest) == (AsciiLower(scheme), rest)
  {
    var u := scheme + ":" + rest;
    assert forall k :: 0 <= k < |scheme| ==> ':' != scheme[k];
    assert u == scheme + (":" + rest);
    FindAfter(scheme, ":" + rest, ':');
    assert u[..|scheme|] == scheme;
  }

  lemma SplitNetlocOf(host: string, after: string)
    requires '/' !in host && '?' !in host && '#' !in host
    requires |after| > 0 && after[0] == '/'
    ensures SplitNetloc("//" + host + after) == (host, after)
  {
    var rest := "//" + host + after;
    assert rest[2 + |host|] == '/';
    assert forall j :: 2 <= j < 2 + |host| ==> rest[j] == host[j - 2];
    assert rest[2..2 + |host|] == host;
  }

  lemma SplitTailOf(scheme: string, netloc: string, path: string, tail: string)
    requires '?' !in path && '#' !in path && IsUrlTail(tail)
    ensures SplitTail(scheme, netloc, path + tail).path == path
  {
    var rest := path + tail;
    FindAfter(path, tail, '#');
    var k := if '#' in tail then Find(tail, '#') else |tail|;
    var beforeHash := path + tail[..k];
    assert beforeHash == if Find(rest, '#') >= 0 then rest[..Find(rest, '#')] else rest;
    if |tail| > 0 && tail[0] == '?' {
      FindAfter(path, tail[..k], '?');
      assert beforeHash[..|path|] == path;
    } else {
      assert beforeHash == path;
    }
  }

  /** `;params` are only looked for after the last '/', so a path ending in '/' keeps them. */
  lemma ParamsKept(path: string)
    requires ';' in path && |path| > 0 && path[|path| - 1] == '/'
    ensures SplitParams(path).0 == path
  {
    var slash := RFind(path, '/');
    assert slash == |path| - 1;
    assert path[slash..] == [path[|path| - 1]];
  }

  lemma SplitCleanedAbsolute(scheme: string, host: string, after: string)
    requires IsScheme(scheme) && AcceptedHost(host)
    requires |after| > 0 && after[0] == '/'
    ensures SplitCleaned(scheme + "://" + host + after) == Success(SplitTail(AsciiLower(scheme), host, after))
  {
    var rest := "//" + host + after;
    SchemeSpelled(scheme, host, after);
    SplitSchemeOf(scheme, rest);
    DoubleSlashSpelled(host, after);
    SplitNetlocOf(host, after);
    SplitCleanedNetloc(scheme + "://" + host + after, rest, host, after);
  }

  /** A netloc `urlsplit` accepts: it goes on to the path, query and fragment. */
  lemma SplitCleanedNetloc(u: string, rest: string, netloc: string, after: string)
    requires SplitScheme(u).1 == rest && |rest| >= 2 && rest[..2] == "//"
    requires SplitNetloc(rest) == (netloc, after) && NetlocError(netloc).None?
    ensures SplitCleaned(u) == Success(SplitTail(SplitScheme(u).0, netloc, after))
  {
  }

  /** Cleaning a URL whose head already has no leading control and no unsafe character
      only touches its tail. */
  lemma CleanHead(head: string, tail: string)
    requires |head| > 0 && head[0] > ' ' && NoUnsafe(head)
    ensures RemoveUnsafe(LStripC0(head + tail)) == head + RemoveUnsafe(tail)
  {
    assert (head + tail)[0] == head[0];
    RemoveUnsafeAppend(head, tail);
  }

  /** `scheme://host/path` has no leading control and no unsafe character. */
  lemma CleanAbsoluteHead(scheme: string, host: string, path: string)
    requires IsScheme(scheme) && NoUnsafe(host) && NoUnsafe(path)
    ensures var head := scheme + "://" + host + path; |head| > 0 && head[0] > ' ' && NoUnsafe(head)
  {
    SchemeNoUnsafe(scheme);
    NoUnsafeAppend(scheme + "://", host);
    NoUnsafeAppend(scheme + "://" + host, path);
    assert (scheme + "://" + host + path)[0] == scheme[0];
  }

  lemma ParseOfSplit(url: string, sp: SplitResult)
    requires UrlSplit(url) == Success(sp)
    requires ';' !in sp.path || sp.scheme !in USES_PARAMS || SplitParams(sp.path).0 == sp.path
    ensures UrlParse(url).Success? && UrlParse(url).value.path == sp.path
  {
  }

  /** How `urlsplit` cuts `scheme://host/path` followed by a query or fragment. */
  lemma SplitAbsolute(scheme: string, host: string, path: string, tail: string)
    requires IsScheme(scheme) && AcceptedHost(host) && NoUnsafe(host) && IsUrlTail(tail)
    requires |path| > 0 && path[0] == '/' && NoUnsafe(path)
    ensures IsUrlTail(RemoveUnsafe(tail))
    ensures UrlSplit(scheme + "://" + host + path + tail)
            == Success(SplitTail(AsciiLower(scheme), host, path + RemoveUnsafe(tail)))
  {
    var head := scheme + "://" + host + path;
    CleanAbsoluteHead(scheme, host, path);
    CleanHead(head, tail);
    UrlTailKept(tail);
    AbsoluteRegrouped(scheme, host, path, RemoveUnsafe(tail));
    SplitCleanedAbsolute(scheme, host, path + RemoveUnsafe(tail));
  }

  lemma AbsoluteRegrouped(scheme: string, host: string, path: string, tail: string)
    ensures scheme + "://" + host + path + tail == scheme + "://" + host + (path + tail)
  {
  }

  /** The path of `scheme://host/path?query#fragment` is `/path`, whatever the scheme,
      the host, the query and the fragment are. */
  lemma AbsoluteUrlPath(scheme: string, host: string, path: string, tail: string)
    requires IsScheme(scheme) && AcceptedHost(host) && NoUnsafe(host) && IsUrlTail(tail)
    requires |path| > 0 && path[0] == '/' && '?' !in path && '#' !in path && NoUnsafe(path)
    requires ';' !in path || path[|path| - 1] == '/'
    ensures UrlParse(scheme + "://" + host + path + tail).Success?
    ensures UrlParse(scheme + "://" + host + path + tail).value.path == path
  {
    var url := scheme + "://" + host + path + tail;
    SplitAbsolute(scheme, host, path, tail);
    var sp := SplitTail(AsciiLower(scheme), host, path + RemoveUnsafe(tail));
    SplitTailOf(AsciiLower(scheme), host, path, RemoveUnsafe(tail));
    if ';' in path {
      ParamsKept(path);
    }
    ParseOfSplit(url, sp);
  }

  /** A host `urlsplit` rejects makes `urlparse` raise, with the error `NetlocError` names. */
  lemma RejectedHostRaises(scheme: string, host: string, path: string)
    requires IsScheme(scheme) && NoUnsafe(host) && '/' !in host && '?' !in host && '#' !in host
    requires NetlocError(host).Some?
    requires |path| > 0 && path[0] == '/' && NoUnsafe(path)
    ensures UrlParse(scheme + "://" + host + path) == Failure(NetlocError(host).value)
  {
    CleanAbsolute(scheme, host, path);
    RejectedHostSplitFails(scheme, host, path);
  }

  /** Cleaning `scheme://host/path` changes nothing. */
  lemma CleanAbsolute(scheme: string, host: string, path: string)
    requires IsScheme(scheme) && NoUnsafe(host) && NoUnsafe(path)
    ensures UrlSplit(scheme + "://" + host + path) == SplitCleaned(scheme + "://" + host + path)
  {
    var url := scheme + "://" + host + path;
    CleanAbsoluteHead(scheme, host, path);
    CleanHead(url, "");
    assert url + "" == url;
  }

  lemma RejectedHostSplitFails(scheme: string, host: string, path: string)
    requires IsScheme(scheme) && '/' !in host && '?' !in host && '#' !in host
    requires NetlocError(host).Some?
    requires |path| > 0 && path[0] == '/'
    ensures SplitCleaned(scheme + "://" + host + path) == Failure(NetlocError(host).value)
  {
    var rest := "//" + host + path;
    SchemeSpelled(scheme, host, path);
    SplitSchemeOf(scheme, rest);
    DoubleSlashSpelled(host, path);
    SplitNetlocOf(host, path);
    SplitCleanedRejected(scheme + "://" + host + path, rest, host, path);
  }

  lemma SchemeSpelled(scheme: string, host: string, path: string)
    ensures scheme + "://" + host + path == scheme + ":" + ("//" + host + path)
  {
  }

  lemma DoubleSlashSpelled(host: string, path: string)
    ensures |"//" + host + path| >= 2 && ("//" + host + path)[..2] == "//"
  {
  }

  /** A netloc `NetlocError` rejects makes `urlsplit` raise that error. */
  lemma SplitCleanedRejected(u: string, rest: string, netloc: string, after: string)
    requires SplitScheme(u).1 == rest && |rest| >= 2 && rest[..2] == "//"
    requires SplitNetloc(rest) == (netloc, after) && NetlocError(netloc).Some?
    ensures SplitCleaned(u) == Failure(NetlocError(netloc).value)
  {
  }

  /** `urlsplit` rejects a host that NFKC normalisation gives a '/': "a\u2100" ("a" and the
      account-of sign) would read as "aa/c". */
  lemma NfkcHostRejected()
    ensures NetlocError("a\U{2100}") == Some(InvalidUnderNfkc)
  {
    assert NfkcDelimiter("a\U{2100}"[1]);
  }

  /** Only the host between the brackets is checked, whatever port follows. */
  lemma BracketedNetlocHost(h: string, port: string)
    requires '@' !in h && '@' !in port && '[' !in h && ']' !in h
    requires port == [] || port[0] == ':'
    ensures BracketedNetlocError("[" + h + "]" + port) == BracketedHostError(h)
  {
    var netloc := "[" + h + "]" + port;
    assert '@' !in netloc;
    assert netloc == [] + ['['] + (h + [']'] + port);
    PartitionAt([], '[', h + [']'] + port);
    PartitionAt(h, ']', port);
  }

  /** Text with no ':' is not an IPv6 address: there are too few parts. */
  lemma NoColonNotIPv6(h: string)
    requires ':' !in h
    ensures !IsIPv6(h)
  {
    var p := Find(h, '%');
    var a := if p >= 0 then h[..p] else h;
    assert ':' !in a by { assert forall c :: c in a ==> c in h; }
    SplitNoSeparator(a, ':');
  }

  /** Text with no '.' is not an IPv4 address. */
  lemma NoDotNotIPv4(h: string)
    requires '.' !in h
    ensures !IsIPv4(h)
  {
    SplitNoSeparator(h, '.');
  }

  lemma LoopbackIsIPv6(h: string)
    requires h == "::1"
    ensures IsIPv6(h) && !IsIPv4(h)
  {
    NoDotNotIPv4(h);
    assert '%' !in h;
    assert h == [] + [':'] + ([] + [':'] + "1");
    SplitAtSeparator([], ':', [] + [':'] + "1");
    SplitAtSeparator([], ':', "1");
    SplitNoSeparator("1", ':');
    var parts := ["", "", "1"];
    assert Split(h, ':') == parts;
    assert EmptyParts(parts, 2) == [];
    assert EmptyParts(parts, 1) == [1];
    assert IsHextet(parts[2]) by { assert IsHexDigit("1"[0]); }
    assert IPv6Text(h);
  }

  lemma DottedQuadIsIPv4(h: string)
    requires h == "1.2.3.4"
    ensures IsIPv4(h)
  {
    assert h == "1" + ['.'] + ("2" + ['.'] + ("3" + ['.'] + "4"));
    SplitAtSeparator("1", '.', "2" + ['.'] + ("3" + ['.'] + "4"));
    SplitAtSeparator("2", '.', "3" + ['.'] + "4");
    SplitAtSeparator("3", '.', "4");
    SplitNoSeparator("4", '.');
    assert Split(h, '.') == ["1", "2", "3", "4"];
    assert DigitsValue("1") == 1 && DigitsValue("2") == 2 && DigitsValue("3") == 3 && DigitsValue("4") == 4;
  }

  /** An ASCII netloc is never rejected for its NFKC normalisation. */
  lemma AsciiNfkcSafe(netloc: string)
    requires forall i :: 0 <= i < |netloc| ==> netloc[i] < '\U{80}'
    ensures !NfkcUnsafe(netloc)
  {
  }

  lemma NfkcSafeAppend(a: string, b: string)
    requires !NfkcUnsafe(a) && !NfkcUnsafe(b)
    ensures !NfkcUnsafe(a + b)
  {
    forall i | 0 <= i < |a + b| ensures !NfkcDelimiter((a + b)[i]) {
      if i < |a| {
        assert (a + b)[i] == a[i];
      } else {
        assert (a + b)[i] == b[i - |a|];
      }
    }
  }

  /** A bracketed netloc with no NFKC delimiter is judged by its host alone. */
  lemma BracketedNetlocCheck(h: string, port: string)
    requires '@' !in h && '@' !in port && '[' !in h && ']' !in h
    requires port == [] || port[0] == ':'
    requires !NfkcUnsafe(h) && !NfkcUnsafe(port)
    ensures NetlocError("[" + h + "]" + port) == BracketedHostError(h)
  {
    var netloc := "[" + h + "]" + port;
    BracketedNetlocHost(h, port);
    assert netloc[0] == '[' && netloc[|h| + 1] == ']';
    assert !UnmatchedBracket(netloc);
    AsciiNfkcSafe("[");
    AsciiNfkcSafe("]");
    NfkcSafeAppend("[", h);
    NfkcSafeAppend("[" + h, "]");
    NfkcSafeAppend("[" + h + "]", port);
  }

  /** Text that is no address at all cannot be bracketed. */
  lemma NonAddressRejected(h: string)
    requires h == "abc"
    ensures NetlocError("[" + h + "]") == Some(InvalidBracketedHost)
  {
    AsciiNfkcSafe(h);
    AsciiNfkcSafe("");
    BracketedNetlocCheck(h, "");
    assert "[" + h + "]" + "" == "[" + h + "]";
    NoDotNotIPv4(h);
    NoColonNotIPv6(h);
  }

  /** An IPv4 address cannot be bracketed. */
  lemma BracketedIPv4Rejected(h: string)
    requires h == "1.2.3.4"
    ensures NetlocError("[" + h + "]") == Some(InvalidBracketedHost)
  {
    AsciiNfkcSafe(h);
    AsciiNfkcSafe("");
    BracketedNetlocCheck(h, "");
    assert "[" + h + "]" + "" == "[" + h + "]";
    DottedQuadIsIPv4(h);
  }

  /** Nothing may come before the '['. */
  lemma TextBeforeBracketRejected()
    ensures NetlocError("x[::1]") == Some(InvalidIPv6Url)
  {
    var netloc := "x[::1]";
    assert '@' !in netloc;
    assert netloc == "x" + ['['] + "::1]";
    PartitionAt("x", '[', "::1]");
  }

  /** A bracketed IPv6 address, with or without a port, passes. */
  lemma BracketedIPv6Accepted(h: string, port: string)
    requires h == "::1" && (port == "" || port == ":80")
    ensures NetlocError("[" + h + "]" + port) == None
  {
    AsciiNfkcSafe(h);
    AsciiNfkcSafe(port);
    LoopbackIsIPv6(h);
    BracketedNetlocCheck(h, port);
  }

  lemma FutureLiteral(h: string)
    requires h == "v1.x"
    ensures BracketedHostError(h) == None
  {
    assert !IsHexDigit(h[2]) && HexRunEnd(h, 2) == 2;
    assert IsHexDigit(h[1]) && HexRunEnd(h, 1) == 2;
    assert h[3..] == "x";
    assert IsIPvFuture(h);
  }

  /** An IPvFuture literal passes. */
  lemma BracketedIPvFutureAccepted(h: string)
    requires h == "v1.x"
    ensures NetlocError("[" + h + "]") == None
  {
    AsciiNfkcSafe(h);
    AsciiNfkcSafe("");
    FutureLiteral(h);
    BracketedNetlocCheck(h, "");
    assert "[" + h + "]" + "" == "[" + h + "]";
  }
}
