/** The CSRF token search of browser_csrf.py: the case-insensitive pattern
    `\"CSRF_TOKEN\":\"` followed by 36 characters of `[0-9a-f\\-]` and `\"`,
    searched for leftmost in a page, and `extract_csrf`'s order of attempts.
    The page fetchers (a headless browser, then a plain HTTP GET) are inputs. */
module BrowserCsrf {
  import opened Wrappers
  import opened Text

  /** The literal text before the token: backslash, quote, CSRF_TOKEN,
      backslash, quote, colon, backslash, quote. */
  const Marker: string := "\\\"CSRF_TOKEN\\\":\\\""
  /** The literal text after the token: backslash, quote. */
  const Closing: string := "\\\""
  const TokenLength := 36

  /** One pattern character against one text character under Python's
      Unicode IGNORECASE: ASCII letters match either case, and `S` and `K`
      also match LATIN SMALL LETTER LONG S and KELVIN SIGN. */
  predicate CharMatches(p: char, c: char)
  {
    if 'A' <= p <= 'Z' then
      LowerChar(c) == LowerChar(p) || (p == 'S' && c == '\U{17F}') || (p == 'K' && c == '\U{212A}')
    else c == p
  }

  /** A character the class `[0-9a-f\\-]` admits under IGNORECASE. */
  predicate TokenChar(c: char)
  {
    IsDigit(c) || ('a' <= c <= 'f') || ('A' <= c <= 'F') || c == '\\' || c == '-'
  }

  predicate ValidToken(t: string)
  {
    |t| == TokenLength && forall i :: 0 <= i < |t| ==> TokenChar(t[i])
  }

  /** The marker occurs at `i`, ignoring case. */
  predicate MarkerAt(s: string, i: nat)
  {
    i + |Marker| <= |s| && forall k :: 0 <= k < |Marker| ==> CharMatches(Marker[k], s[i + k])
  }

  /** The whole pattern matches at `i`. */
  predicate MatchAt(s: string, i: nat)
  {
    i + |Marker| + TokenLength + |Closing| <= |s| && MarkerAt(s, i) &&
    ValidToken(s[i + |Marker|..i + |Marker| + TokenLength]) &&
    s[i + |Marker| + TokenLength..i + |Marker| + TokenLength + |Closing|] == Closing
  }

  /** The captured group of a match at `i`. */
  function TokenAt(s: string, i: nat): string
    requires MatchAt(s, i)
  {
    s[i + |Marker|..i + |Marker| + TokenLength]
  }

  /** `CSRF_REGEX.search(s)` from position `from`, giving group 1. */
  function Search(s: string, from: nat): Option<string>
    decreases |s| - from
  {
    if from + |Marker| + TokenLength + |Closing| > |s| then None
    else if MatchAt(s, from) then Some(TokenAt(s, from))
    else Search(s, from + 1)
  }

  /** No match starts where too little of the text is left. */
  lemma NoMatchNearEnd(s: string, from: nat)
    requires from + |Marker| + TokenLength + |Closing| > |s|
    ensures forall i :: from <= i ==> !MatchAt(s, i)
  {
  }

  /** A search that gives a token found it at the leftmost match at or after
      `from`. */
  lemma {:induction false} SearchFound(s: string, from: nat)
    requires Search(s, from).Some?
    ensures exists i :: from <= i && MatchAt(s, i) && TokenAt(s, i) == Search(s, from).value &&
                        forall j :: from <= j < i ==> !MatchAt(s, j)
    decreases |s| - from
  {
    if !MatchAt(s, from) {
      SearchFound(s, from + 1);
      var t := Search(s, from + 1).value;
      var i :| from + 1 <= i && MatchAt(s, i) && TokenAt(s, i) == t &&
               forall j :: from + 1 <= j < i ==> !MatchAt(s, j);
      assert forall j :: from <= j < i ==> !MatchAt(s, j);
    }
  }

  /** A search that gives nothing saw no match at or after `from`. */
  lemma {:induction false} SearchNone(s: string, from: nat)
    requires Search(s, from).None?
    ensures forall i :: from <= i ==> !MatchAt(s, i)
    decreases |s| - from
  {
    if from + |Marker| + TokenLength + |Closing| > |s| {
      NoMatchNearEnd(s, from);
    } else {
      SearchNone(s, from + 1);
    }
  }

  /** The token found in a page, if any. */
  function Scan(html: string): (r: Option<string>)
    ensures r.Some? ==> ValidToken(r.value)
    ensures r.Some? ==> exists i: nat :: MatchAt(html, i) && TokenAt(html, i) == r.value &&
                          forall j: nat :: j < i ==> !MatchAt(html, j)
    ensures r.None? <==> forall i: nat :: !MatchAt(html, i)
  {
    if Search(html, 0).Some? then
      SearchFound(html, 0);
      Search(html, 0)
    else
      SearchNone(html, 0);
      None
  }

  /** A token written into a page exactly as the pattern expects is found,
      after any text free of matches. */
  lemma ScanFindsEmbedded(prefix: string, t: string, suffix: string)
    requires ValidToken(t)
    requires forall i: nat :: i < |prefix| ==> !MatchAt(prefix + Marker + t + Closing + suffix, i)
    ensures Scan(prefix + Marker + t + Closing + suffix) == Some(t)
  {
    var s := prefix + Marker + t + Closing + suffix;
    var p := |prefix|;
    assert s[p..p + |Marker|] == Marker;
    assert forall k :: 0 <= k < |Marker| ==> s[p + k] == Marker[k];
    assert forall k :: 0 <= k < |Marker| ==> CharMatches(Marker[k], s[p + k]);
    assert s[p + |Marker|..p + |Marker| + TokenLength] == t;
    assert s[p + |Marker| + TokenLength..p + |Marker| + TokenLength + |Closing|] == Closing;
    assert MatchAt(s, p);
    SearchSkips(s, 0, p);
  }

  /** With no match before `i`, the search from `from` is the search from `i`. */
  lemma {:induction false} SearchSkips(s: string, from: nat, i: nat)
    requires from <= i && MatchAt(s, i)
    requires forall j :: from <= j < i ==> !MatchAt(s, j)
    ensures Search(s, from) == Some(TokenAt(s, i))
    decreases i - from
  {
    if from < i {
      SearchSkips(s, from + 1, i);
    }
  }

  /** The marker is matched case-insensitively: the lower-case spelling found
      in a page is as good as the upper-case one. */
  lemma LowerMarkerMatches(s: string, i: nat)
    requires i + |Marker| <= |s| && s[i..i + |Marker|] == Lower(Marker)
    ensures MarkerAt(s, i)
  {
    forall k | 0 <= k < |Marker| ensures CharMatches(Marker[k], s[i + k]) {
      assert s[i + k] == s[i..i + |Marker|][k];
    }
  }

  // ---------------------------------------------------------------------------
  // extract_csrf

  /** What the headless-browser fetcher does: it is not installed, it raises,
      or it renders the page whose source is given. */
  datatype BrowserFetch = BrowserUnavailable | BrowserCrashed | Rendered(html: string)

  /** What the plain HTTP fetch of the new-item page does: it raises (network
      error), or it is answered with a status and a body text. */
  datatype HttpFetch = NetworkError | Answered(status: int, text: string)

  /** `_fetch_csrf_via_requests`: any failure, an HTTP error status among
      them, gives None. */
  function FetchViaRequests(http: HttpFetch): (r: Option<string>)
    ensures r.Some? ==> http.Answered? && !(400 <= http.status < 600) && r == Scan(http.text)
    ensures http.Answered? && !(400 <= http.status < 600) ==> r == Scan(http.text)
    ensures http.NetworkError? || (http.Answered? && 400 <= http.status < 600) ==> r.None?
  {
    match http
    case NetworkError => None
    case Answered(status, text) => if 400 <= status < 600 then None else Scan(text)
  }

  /** `fetch_csrf_with_browser` as `extract_csrf` sees it: a crash is
      swallowed as None. */
  function FetchWithBrowser(browser: BrowserFetch): Option<string>
  {
    match browser
    case Rendered(html) => Scan(html)
    case _ => None
  }

  /** `extract_csrf`: the browser's token when it finds one, otherwise the
      plain HTTP attempt's result; no failure propagates. */
  function ExtractCsrf(browser: BrowserFetch, http: HttpFetch): (r: Option<string>)
    ensures r.Some? ==> ValidToken(r.value)
    ensures FetchWithBrowser(browser).Some? ==> r == FetchWithBrowser(browser)
    ensures FetchWithBrowser(browser).None? ==> r == FetchViaRequests(http)
  {
    var token := FetchWithBrowser(browser);
    if token.Some? && token.value != "" then token else FetchViaRequests(http)
  }
}
