/** `parse_curl`: a curl command copied from a browser's network tab becomes a
    URL, a header map, a cookie map and a user-agent. The regular expressions of
    the original are written out as scanners that follow the regex engine's
    leftmost, greedy matching; the loops that fill the two dicts are kept as loops. */
module CurlParser {
  import opened Wrappers
  import opened Text
  import opened Dicts

  datatype Curl = Curl(url: string, headers: Dict<string>, cookies: Dict<string>, userAgent: string)

  // ---------------------------------------------------------------------------
  // Line continuations

  /** Where a match of `\\\s*\\\n\s*` (backslash, blanks, backslash, newline,
      blanks) that starts at `i` ends, if one does. */
  function EscapedBreakEnd(s: string, i: nat): (e: Option<nat>)
    requires i <= |s|
    ensures e.Some? ==> i < e.value <= |s| && s[i] == '\\'
  {
    if i < |s| && s[i] == '\\' then
      var j := SpaceRunEnd(s, i + 1);
      if j + 1 < |s| && s[j] == '\\' && s[j + 1] == '\n' then Some(SpaceRunEnd(s, j + 2)) else None
    else None
  }

  /** `re.sub(r"\\\s*\\\n\s*", " ", s[i:])`: leftmost, non-overlapping replacement;
      a text without backslashes is left alone. */
  function CollapseEscapedBreaks(s: string, i: nat): (r: string)
    requires i <= |s|
    ensures '\\' !in s[i..] ==> r == s[i..]
    decreases |s| - i
  {
    if i == |s| then []
    else
      assert s[i..] == [s[i]] + s[i + 1..];
      match EscapedBreakEnd(s, i)
      case Some(e) => " " + CollapseEscapedBreaks(s, e)
      case None => [s[i]] + CollapseEscapedBreaks(s, i + 1)
  }

  /** Where a match of `\s+\\\n` (blanks, backslash, newline) that starts at `i`
      ends, if one does. */
  function ContinuationEnd(s: string, i: nat): (e: Option<nat>)
    requires i <= |s|
    ensures e.Some? ==> i < e.value <= |s| && '\\' in s[i..]
  {
    if i < |s| && IsSpace(s[i]) then
      var j := SpaceRunEnd(s, i);
      if j + 1 < |s| && s[j] == '\\' && s[j + 1] == '\n' then
        assert s[j] == s[i..][j - i];
        Some(j + 2)
      else None
    else None
  }

  /** `re.sub(r"\s+\\\n", " ", s[i:])`; a text without backslashes is left alone. */
  function CollapseContinuations(s: string, i: nat): (r: string)
    requires i <= |s|
    ensures '\\' !in s[i..] ==> r == s[i..]
    decreases |s| - i
  {
    if i == |s| then []
    else
      assert s[i..] == [s[i]] + s[i + 1..];
      match ContinuationEnd(s, i)
      case Some(e) => " " + CollapseContinuations(s, e)
      case None => [s[i]] + CollapseContinuations(s, i + 1)
  }

  /** The text the regular expressions below are run on (curl_parser.py:16-17). */
  function Normalize(curlText: string): string
  {
    var t := Strip(curlText);
    CollapseContinuations(CollapseEscapedBreaks(t, 0), 0)
  }

  /** Without a backslash in the input, normalising only strips it. */
  lemma NormalizeWithoutBackslash(curlText: string)
    requires '\\' !in curlText
    ensures Normalize(curlText) == Strip(curlText)
  {
    var t := Strip(curlText);
    var a, b :| 0 <= a <= b <= |curlText| && t == curlText[a..b];
    assert '\\' !in t by {
      forall k | 0 <= k < |t| ensures t[k] != '\\' {
        assert t[k] == curlText[a + k];
      }
    }
    assert t[0..] == t;
  }

  // ---------------------------------------------------------------------------
  // URL: curl\s+'([^']+)'|curl\s+"([^"]+)"|curl\s+([^\s]+)

  /** `q([^q]+)q` at `j`: the non-empty text between a quote at `j` and the next one. */
  function QuotedAt(s: string, j: nat, q: char): (r: Option<string>)
    requires j <= |s|
    ensures r.Some? ==> |r.value| > 0 && q !in r.value
    ensures r.Some? ==> j < |s| && s[j] == q
  {
    if j < |s| && s[j] == q then
      var e := IndexOf(s, j + 1, q);
      if j + 1 < e < |s| then Some(s[j + 1..e]) else None
    else None
  }

  /** The URL captured by a match of the URL pattern that starts at `i`, trying
      the single-quoted, the double-quoted and the bare alternative in that order. */
  function UrlAt(s: string, i: nat): (r: Option<string>)
    requires i <= |s|
    ensures r.Some? ==> |r.value| > 0 && HasAt(s, i, "curl") && i + 4 < |s| && IsSpace(s[i + 4])
  {
    if !HasAt(s, i, "curl") then None
    else
      var j := SpaceRunEnd(s, i + 4);
      if j == i + 4 then None
      else if QuotedAt(s, j, '\'').Some? then QuotedAt(s, j, '\'')
      else if QuotedAt(s, j, '"').Some? then QuotedAt(s, j, '"')
      else
        var e := NonSpaceRunEnd(s, j);
        if e > j then Some(s[j..e]) else None
  }

  /** `re.search` of the URL pattern in `s[i:]`: the leftmost match wins. */
  function FindUrl(s: string, i: nat): Option<string>
    requires i <= |s|
    decreases |s| - i
  {
    if i == |s| then None
    else if UrlAt(s, i).Some? then UrlAt(s, i)
    else FindUrl(s, i + 1)
  }

  /** A URL found is the leftmost match at or after `i`. */
  lemma {:induction false} FindUrlFound(s: string, i: nat)
    requires i <= |s| && FindUrl(s, i).Some?
    ensures exists k :: i <= k < |s| && UrlAt(s, k) == FindUrl(s, i) &&
                        forall k' :: i <= k' < k ==> UrlAt(s, k').None?
    decreases |s| - i
  {
    if UrlAt(s, i).None? {
      FindUrlFound(s, i + 1);
      var k :| i + 1 <= k < |s| && UrlAt(s, k) == FindUrl(s, i + 1) &&
               forall k' :: i + 1 <= k' < k ==> UrlAt(s, k').None?;
      assert forall k' :: i <= k' < k ==> UrlAt(s, k').None?;
    }
  }

  /** No URL is found exactly when no position at or after `i` starts one. */
  lemma {:induction false} FindUrlNone(s: string, i: nat)
    requires i <= |s|
    ensures FindUrl(s, i).None? <==> forall k :: i <= k <= |s| ==> UrlAt(s, k).None?
    decreases |s| - i
  {
    if i < |s| && UrlAt(s, i).None? {
      FindUrlNone(s, i + 1);
    }
  }

  // ---------------------------------------------------------------------------
  // Headers: -H\s+'([^:]+):\s*([^']*)'

  /** A match of the header pattern at `i`: the raw name, the raw value and where
      the match ends. The name runs to the first `:` (and may contain quotes), the
      value from the blanks after it to the next single quote. */
  function HeaderAt(s: string, i: nat): (r: Option<(string, string, nat)>)
    requires i <= |s|
    ensures r.Some? ==> i < r.value.2 <= |s|
    ensures r.Some? ==> r.value.0 != [] && ':' !in r.value.0 && '\'' !in r.value.1
    ensures r.Some? ==> '\'' in s[i..]
  {
    if !HasAt(s, i, "-H") then None
    else
      var j := SpaceRunEnd(s, i + 2);
      if j == i + 2 || j == |s| || s[j] != '\'' then None
      else
        var c := IndexOf(s, j + 1, ':');
        if c == j + 1 || c == |s| then None
        else
          var v := SpaceRunEnd(s, c + 1);
          var q := IndexOf(s, v, '\'');
          if q == |s| then None
          else
            assert s[j] == s[i..][j - i];
            Some((s[j + 1..c], s[v..q], q + 1))
  }

  /** `re.findall` of the header pattern in `s[i:]`: successive non-overlapping
      matches, left to right. Only single-quoted `-H` arguments are captured. */
  function FindHeaders(s: string, i: nat): (r: seq<(string, string)>)
    requires i <= |s|
    ensures forall m :: m in r ==> m.0 != [] && ':' !in m.0 && '\'' !in m.1
    ensures '\'' !in s[i..] ==> r == []
    decreases |s| - i
  {
    if i == |s| then []
    else
      assert s[i..] == [s[i]] + s[i + 1..];
      match HeaderAt(s, i)
      case Some((k, v, e)) => [(k, v)] + FindHeaders(s, e)
      case None => FindHeaders(s, i + 1)
  }

  /** A captured header as stored: stripped lower-case name, stripped value. */
  function HeaderEntry(m: (string, string)): (string, string)
  {
    (Lower(Strip(m.0)), Strip(m.1))
  }

  function HeaderEntries(ms: seq<(string, string)>): (r: Dict<string>)
    ensures |r| == |ms|
  {
    if ms == [] then [] else HeaderEntries(ms[..|ms| - 1]) + [HeaderEntry(ms[|ms| - 1])]
  }

  /** Every stored header name is lower case. */
  lemma {:induction false} HeaderEntriesLowered(ms: seq<(string, string)>)
    ensures forall k :: k in Keys(HeaderEntries(ms)) ==> Lower(k) == k
  {
    if ms != [] {
      var init := ms[..|ms| - 1];
      HeaderEntriesLowered(init);
      KeysSnoc(HeaderEntries(init), HeaderEntry(ms[|ms| - 1]));
      LowerIdempotent(Strip(ms[|ms| - 1].0));
    }
  }

  /** `headers` after the loop at curl_parser.py:28-29. */
  function HeaderMap(text: string): Dict<string>
  {
    PutAll([], HeaderEntries(FindHeaders(text, 0)))
  }

  // ---------------------------------------------------------------------------
  // Cookies: -b\s+'([^']+)'|-b\s+"([^"]+)", then the Cookie header

  /** The cookie-jar argument of a `-b` match at `i`. */
  function CookieArgAt(s: string, i: nat): (r: Option<string>)
    requires i <= |s|
    ensures r.Some? ==> HasAt(s, i, "-b") && |r.value| > 0
  {
    if !HasAt(s, i, "-b") then None
    else
      var j := SpaceRunEnd(s, i + 2);
      if j == i + 2 then None
      else if QuotedAt(s, j, '\'').Some? then QuotedAt(s, j, '\'')
      else QuotedAt(s, j, '"')
  }

  /** `re.search` of the `-b` pattern: only the leftmost `-b` argument is read. */
  function FindCookieArg(s: string, i: nat): Option<string>
    requires i <= |s|
    decreases |s| - i
  {
    if i == |s| then None
    else if CookieArgAt(s, i).Some? then CookieArgAt(s, i)
    else FindCookieArg(s, i + 1)
  }

  /** The argument read is that of the leftmost `-b` match at or after `i`. */
  lemma {:induction false} FindCookieArgFound(s: string, i: nat)
    requires i <= |s| && FindCookieArg(s, i).Some?
    ensures exists k :: i <= k < |s| && CookieArgAt(s, k) == FindCookieArg(s, i) &&
                        forall k' :: i <= k' < k ==> CookieArgAt(s, k').None?
    decreases |s| - i
  {
    if CookieArgAt(s, i).None? {
      FindCookieArgFound(s, i + 1);
      var k :| i + 1 <= k < |s| && CookieArgAt(s, k) == FindCookieArg(s, i + 1) &&
               forall k' :: i + 1 <= k' < k ==> CookieArgAt(s, k').None?;
      assert forall k' :: i <= k' < k ==> CookieArgAt(s, k').None?;
    }
  }

  /** No argument is read exactly when no position at or after `i` starts a `-b` match. */
  lemma {:induction false} FindCookieArgNone(s: string, i: nat)
    requires i <= |s|
    ensures FindCookieArg(s, i).None? <==> forall k :: i <= k <= |s| ==> CookieArgAt(s, k).None?
    decreases |s| - i
  {
    if i < |s| && CookieArgAt(s, i).None? {
      FindCookieArgNone(s, i + 1);
    }
  }

  /** The `name=value` pairs of `;`-separated fragments: a fragment without `=`
      is skipped, the others are split at their first `=` and both sides stripped. */
  function CookieEntries(parts: seq<string>): (r: Dict<string>)
    ensures |r| <= |parts|
  {
    if parts == [] then []
    else
      var init := CookieEntries(parts[..|parts| - 1]);
      match SplitFirst(parts[|parts| - 1], '=')
      case Some((name, val)) => init + [(Strip(name), Strip(val))]
      case None => init
  }

  /** One more fragment adds its entry exactly when it holds an `=`. */
  lemma CookieEntriesNext(parts: seq<string>, p: nat)
    requires p < |parts|
    ensures SplitFirst(parts[p], '=').None? ==> CookieEntries(parts[..p + 1]) == CookieEntries(parts[..p])
    ensures SplitFirst(parts[p], '=').Some? ==>
      var nv := SplitFirst(parts[p], '=').value;
      CookieEntries(parts[..p + 1]) == CookieEntries(parts[..p]) + [(Strip(nv.0), Strip(nv.1))]
  {
    assert parts[..p + 1][..p] == parts[..p];
  }

  /** The cookies given by `-b` (curl_parser.py:33-39). */
  function FlagCookies(text: string): Dict<string>
  {
    match FindCookieArg(text, 0)
    case Some(raw) => CookieEntries(Split(raw, ';'))
    case None => []
  }

  /** The cookies given by a non-empty Cookie header (curl_parser.py:42-51). */
  function HeaderCookies(headers: Dict<string>): Dict<string>
  {
    match Lookup(headers, "cookie")
    case Some(v) => if v != "" then CookieEntries(Split(v, ';')) else []
    case None => []
  }

  // ---------------------------------------------------------------------------
  // parse_curl

  /** What `parse_curl` returns or raises. `urlParses` stands for urllib's
      `urlparse` accepting the URL (it raises ValueError on a malformed one). */
  function ParsedCurl(curlText: string, urlParses: string -> bool): (r: Result<Curl>)
    ensures var text := Normalize(curlText);
      (r == Err(NoUrlInCurl) <==> forall k :: 0 <= k <= |text| ==> UrlAt(text, k).None?) &&
      (r.Ok? ==> exists k :: 0 <= k < |text| && UrlAt(text, k) == Some(r.value.url) &&
                   forall k' :: 0 <= k' < k ==> UrlAt(text, k').None?)
    ensures r.Ok? ==> forall k :: (Lookup(r.value.headers, k) ==
              LastValue(HeaderEntries(FindHeaders(Normalize(curlText), 0)), k))
    ensures r.Ok? ==> forall k :: k in Keys(r.value.headers) ==> Lower(k) == k
    ensures r.Ok? ==> (r.value.userAgent ==
              match Lookup(r.value.headers, "user-agent") case Some(v) => v case None => "")
  {
    var text := Normalize(curlText);
    FindUrlNone(text, 0);
    if FindUrl(text, 0).Some? then FindUrlFound(text, 0); ParsedFrom(text, urlParses)
    else Err(NoUrlInCurl)
  }

  /** `parse_curl` once the URL is found in the normalised text. */
  function ParsedFrom(text: string, urlParses: string -> bool): (r: Result<Curl>)
    requires FindUrl(text, 0).Some?
    ensures r.Ok? ==> r.value.url == FindUrl(text, 0).value
    ensures r.Ok? ==> forall k :: (Lookup(r.value.headers, k) == LastValue(HeaderEntries(FindHeaders(text, 0)), k))
    ensures r.Ok? ==> forall k :: k in Keys(r.value.headers) ==> Lower(k) == k
    ensures r.Ok? ==> (r.value.userAgent ==
              match Lookup(r.value.headers, "user-agent") case Some(v) => v case None => "")
  {
    var url := FindUrl(text, 0).value;
    if !urlParses(url) then Err(InvalidUrl)
    else
      var c := CurlOf(text, url);
      assert forall k :: Lookup(c.headers, k) == LastValue(HeaderEntries(FindHeaders(text, 0)), k) by {
        forall k ensures Lookup(c.headers, k) == LastValue(HeaderEntries(FindHeaders(text, 0)), k) {
          LookupPutAll([], HeaderEntries(FindHeaders(text, 0)), k);
        }
      }
      assert forall k :: k in Keys(c.headers) ==> Lower(k) == k by {
        KeysPutAll([], HeaderEntries(FindHeaders(text, 0)));
        HeaderEntriesLowered(FindHeaders(text, 0));
      }
      Ok(c)
  }

  /** The dicts `parse_curl` builds once the URL is known. */
  function CurlOf(text: string, url: string): Curl
  {
    var headers := PutAll([], HeaderEntries(FindHeaders(text, 0)));
    var cookies := SetDefaultAll(PutAll([], FlagCookies(text)), HeaderCookies(headers));
    var ua := match Lookup(headers, "user-agent") case Some(v) => v case None => "";
    Curl(url, headers, cookies, ua)
  }

  /** The cookie map is fixed by the two cookie sources: a name given by `-b`
      takes its last `-b` value, whatever the Cookie header says; any other name
      takes the value of its first occurrence in the Cookie header. */
  lemma CookiePrecedence(curlText: string, urlParses: string -> bool, name: string)
    requires ParsedCurl(curlText, urlParses).Ok?
    ensures var c := ParsedCurl(curlText, urlParses).value;
      var flag := FlagCookies(Normalize(curlText));
      Lookup(c.cookies, name) ==
        if LastValue(flag, name).Some? then LastValue(flag, name)
        else Lookup(HeaderCookies(c.headers), name)
  {
    var flag := FlagCookies(Normalize(curlText));
    var c := ParsedCurl(curlText, urlParses).value;
    LookupPutAll([], flag, name);
    LookupSetDefaultAll(PutAll([], flag), HeaderCookies(c.headers), name);
  }

  /** Once a URL is found and accepted, parsing succeeds whatever the header and
      cookie fragments look like. */
  lemma ParseSucceedsWithUrl(curlText: string, urlParses: string -> bool)
    requires FindUrl(Normalize(curlText), 0).Some?
    requires urlParses(FindUrl(Normalize(curlText), 0).value)
    ensures ParsedCurl(curlText, urlParses).Ok?
    ensures ParsedCurl(curlText, urlParses).value.url == FindUrl(Normalize(curlText), 0).value
  {
  }

  /** A text holding no single quote yields no header at all: double-quoted `-H`
      arguments are never captured. */
  lemma DoubleQuotedHeadersIgnored(curlText: string, urlParses: string -> bool)
    requires ParsedCurl(curlText, urlParses).Ok?
    requires '\'' !in Normalize(curlText)
    ensures ParsedCurl(curlText, urlParses).value.headers == []
    ensures ParsedCurl(curlText, urlParses).value.userAgent == ""
  {
    var text := Normalize(curlText);
    assert text[0..] == text;
  }

  // ---------------------------------------------------------------------------
  // The imperative original

  /** The loop at curl_parser.py:28-29: each captured header assigned in turn. */
  method CollectHeaders(matches: seq<(string, string)>) returns (headers: Dict<string>)
    ensures headers == PutAll([], HeaderEntries(matches))
  {
    headers := [];
    var i := 0;
    while i < |matches|
      invariant 0 <= i <= |matches|
      invariant headers == PutAll([], HeaderEntries(matches[..i]))
    {
      var m := matches[i];
      assert matches[..i + 1][..i] == matches[..i];
      ghost var entries := HeaderEntries(matches[..i]);
      assert HeaderEntries(matches[..i + 1]) == entries + [HeaderEntry(m)];
      assert (entries + [HeaderEntry(m)])[..|entries|] == entries;
      headers := Put(headers, Lower(Strip(m.0)), Strip(m.1));
      i := i + 1;
    }
    assert matches[..i] == matches;
  }

  /** The loop at curl_parser.py:36-39: `name=value` fragments of the `-b`
      argument assigned in turn, later ones overwriting. */
  method CollectFlagCookies(raw: string) returns (cookies: Dict<string>)
    ensures cookies == PutAll([], CookieEntries(Split(raw, ';')))
  {
    cookies := [];
    var parts := Split(raw, ';');
    var p := 0;
    while p < |parts|
      invariant 0 <= p <= |parts|
      invariant cookies == PutAll([], CookieEntries(parts[..p]))
    {
      cookies := AssignOne(parts, p, cookies);
      p := p + 1;
    }
    assert parts[..p] == parts;
  }

  /** One turn of the `-b` loop: a fragment with an `=` is assigned. */
  method AssignOne(parts: seq<string>, p: nat, cookies: Dict<string>) returns (next: Dict<string>)
    requires p < |parts|
    requires cookies == PutAll([], CookieEntries(parts[..p]))
    ensures next == PutAll([], CookieEntries(parts[..p + 1]))
  {
    CookieEntriesNext(parts, p);
    next := cookies;
    var nv := SplitFirst(parts[p], '=');
    if nv.Some? {
      var e := (Strip(nv.value.0), Strip(nv.value.1));
      PutAllSnoc([], CookieEntries(parts[..p]), e);
      next := Put(cookies, e.0, e.1);
    }
  }

  /** The loop at curl_parser.py:43-46: the value of the first header whose
      lower-cased name is `cookie`. */
  method FindCookieHeader(headers: Dict<string>) returns (value: Option<string>)
    requires forall k :: k in Keys(headers) ==> Lower(k) == k
    ensures value == Lookup(headers, "cookie")
  {
    value := None;
    var h := 0;
    while h < |headers|
      invariant 0 <= h <= |headers|
      invariant forall j :: 0 <= j < h ==> headers[j].0 != "cookie"
    {
      assert headers[h].0 in Keys(headers);
      if Lower(headers[h].0) == "cookie" {
        LookupFirst(headers, h, "cookie");
        return Some(headers[h].1);
      }
      h := h + 1;
    }
    assert "cookie" !in Keys(headers);
  }

  /** The loop at curl_parser.py:48-51: `setdefault` for each `name=value`
      fragment of the Cookie header. */
  method MergeHeaderCookies(cookies: Dict<string>, header: string) returns (merged: Dict<string>)
    ensures merged == SetDefaultAll(cookies, CookieEntries(Split(header, ';')))
  {
    merged := cookies;
    var parts := Split(header, ';');
    var p := 0;
    while p < |parts|
      invariant 0 <= p <= |parts|
      invariant merged == SetDefaultAll(cookies, CookieEntries(parts[..p]))
    {
      merged := MergeOne(cookies, parts, p, merged);
      p := p + 1;
    }
    assert parts[..p] == parts;
  }

  /** One turn of the Cookie-header loop: a fragment with an `=` is merged
      with `setdefault`. */
  method MergeOne(cookies: Dict<string>, parts: seq<string>, p: nat, merged: Dict<string>) returns (next: Dict<string>)
    requires p < |parts|
    requires merged == SetDefaultAll(cookies, CookieEntries(parts[..p]))
    ensures next == SetDefaultAll(cookies, CookieEntries(parts[..p + 1]))
  {
    CookieEntriesNext(parts, p);
    next := merged;
    var nv := SplitFirst(parts[p], '=');
    if nv.Some? {
      var e := (Strip(nv.value.0), Strip(nv.value.1));
      SetDefaultAllSnoc(cookies, CookieEntries(parts[..p]), e);
      next := SetDefault(merged, e.0, e.1);
    }
  }

  /** The cookie dict of `parse_curl` (curl_parser.py:31-51): the `-b`
      fragments assigned in turn, then `setdefault` for the Cookie header's. */
  method BuildCookies(text: string, headers: Dict<string>) returns (cookies: Dict<string>)
    requires forall k :: k in Keys(headers) ==> Lower(k) == k
    ensures cookies == SetDefaultAll(PutAll([], FlagCookies(text)), HeaderCookies(headers))
  {
    cookies := [];
    var flagArg := FindCookieArg(text, 0);
    if flagArg.Some? {
      cookies := CollectFlagCookies(flagArg.value);
      assert FlagCookies(text) == CookieEntries(Split(flagArg.value, ';'));
    } else {
      assert FlagCookies(text) == [];
    }
    var cookieHeader := FindCookieHeader(headers);
    if cookieHeader.Some? && cookieHeader.value != "" {
      cookies := MergeHeaderCookies(cookies, cookieHeader.value);
    }
  }

  /** The part of `parse_curl` after the URL check (curl_parser.py:26-55). */
  method BuildCurl(text: string, url: string) returns (c: Curl)
    ensures c == CurlOf(text, url)
  {
    var matches := FindHeaders(text, 0);
    var headers := CollectHeaders(matches);
    KeysPutAll([], HeaderEntries(matches));
    HeaderEntriesLowered(matches);
    var cookies := BuildCookies(text, headers);
    var ua := Lookup(headers, "user-agent");
    c := Curl(url, headers, cookies, if ua.Some? then ua.value else "");
  }

  /** `parse_curl` as written: the URL search and check, then the loops that
      fill the header and cookie dicts. */
  method ParseCurl(curlText: string, urlParses: string -> bool) returns (r: Result<Curl>)
    ensures r == ParsedCurl(curlText, urlParses)
  {
    var text := Normalize(curlText);
    var found := FindUrl(text, 0);
    if found.None? {
      return Err(NoUrlInCurl);
    }
    var url := found.value;
    if !urlParses(url) {
      return Err(InvalidUrl);
    }
    var c := BuildCurl(text, url);
    r := Ok(c);
  }
}
