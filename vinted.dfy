/** The Vinted API client (vinted.py): the session state a `VintedClient` builds
    from parsed curl headers and cookies, user-id resolution, wardrobe paging,
    and the requests its upload, draft, item and delete calls send. HTTP traffic
    is abstract: a call's answer is a `Response` given as input, and a call is
    described by the `Request` it would send. */
module Vinted {
  import opened Wrappers
  import opened Text
  import opened Dicts
  import opened Json

  // ---------------------------------------------------------------------------
  // Requests and responses

  /** An HTTP answer: the status code and the body when it parses as JSON. */
  datatype Response = Response(status: int, body: Option<Json>)

  datatype Body =
    | NoBody
    | JsonBody(payload: Json)
    | Multipart(fileName: string, mime: string, fields: Dict<string>)

  /** What one call of the client hands to the session (before the session's
      own headers and cookies are added). */
  datatype Request = Request(verb: string, url: string, params: Dict<Json>, headers: Dict<string>, body: Body)

  /** `raise_for_status()` followed by `json()`. */
  function ResponseJson(resp: Response): (r: Result<Json>)
    ensures r.Ok? <==> !(400 <= resp.status < 600) && resp.body.Some?
    ensures 400 <= resp.status < 600 ==> r == Err(HttpStatus(resp.status))
  {
    if 400 <= resp.status < 600 then Err(HttpStatus(resp.status))
    else match resp.body
      case None => Err(NotJson)
      case Some(j) => Ok(j)
  }

  // ---------------------------------------------------------------------------
  // The cookie jar

  const VintedDomain := ".vinted.fr"

  /** One cookie of the session's jar (the path is always `/` here). */
  datatype Cookie = Cookie(name: string, value: string, domain: string)

  /** The values of the cookies called `name`, in jar order. */
  function Named(jar: seq<Cookie>, name: string): (vs: seq<string>)
    ensures |vs| <= |jar|
  {
    if jar == [] then []
    else (if jar[0].name == name then [jar[0].value] else []) + Named(jar[1..], name)
  }

  /** `jar.set(name, value, domain=…)`: a cookie with the same name and domain
      is replaced where it stands, otherwise the cookie is appended. */
  function SetCookie(jar: seq<Cookie>, c: Cookie): (r: seq<Cookie>)
    ensures |r| == |jar| || |r| == |jar| + 1
  {
    if jar == [] then [c]
    else if jar[0].name == c.name && jar[0].domain == c.domain then [c] + jar[1..]
    else [jar[0]] + SetCookie(jar[1..], c)
  }

  /** The jar after `set(k, v, domain=".vinted.fr")` for every entry, in order. */
  function JarOf(cookies: Dict<string>): seq<Cookie>
  {
    if cookies == [] then []
    else
      var e := cookies[|cookies| - 1];
      SetCookie(JarOf(cookies[..|cookies| - 1]), Cookie(e.0, e.1, VintedDomain))
  }

  /** `jar.get(name)`: requests raises CookieConflictError when two cookies
      carry the name (whatever their domains), and answers None for a missing
      cookie and for an empty value. */
  function JarGet(jar: seq<Cookie>, name: string): (r: Result<Option<string>>)
    ensures r.Err? <==> |Named(jar, name)| >= 2
    ensures r.Ok? && r.value.Some? ==> Named(jar, name) == [r.value.value] && r.value.value != ""
    ensures r == Ok(None) ==> Named(jar, name) == [] || Named(jar, name) == [""]
  {
    var vs := Named(jar, name);
    if |vs| >= 2 then Err(CookieConflict(name))
    else if |vs| == 1 && vs[0] != "" then Ok(Some(vs[0]))
    else Ok(None)
  }

  /** Setting a cookie leaves the cookies of other names alone. */
  lemma {:induction false} NamedSetCookieOther(jar: seq<Cookie>, c: Cookie, name: string)
    requires name != c.name
    ensures Named(SetCookie(jar, c), name) == Named(jar, name)
  {
    if jar != [] {
      if jar[0].name == c.name && jar[0].domain == c.domain {
        assert SetCookie(jar, c)[1..] == jar[1..];
      } else {
        NamedSetCookieOther(jar[1..], c, name);
        assert SetCookie(jar, c)[1..] == SetCookie(jar[1..], c);
      }
    }
  }

  /** In a jar holding one domain, setting a cookie leaves exactly that value
      under its name. */
  lemma {:induction false} NamedSetCookieSame(jar: seq<Cookie>, c: Cookie)
    requires forall i :: 0 <= i < |jar| ==> jar[i].domain == c.domain
    requires |Named(jar, c.name)| <= 1
    ensures Named(SetCookie(jar, c), c.name) == [c.value]
  {
    if jar != [] {
      if jar[0].name == c.name {
        assert Named(jar[1..], c.name) == [];
        assert SetCookie(jar, c)[1..] == jar[1..];
      } else {
        NamedSetCookieSame(jar[1..], c);
        assert SetCookie(jar, c)[1..] == SetCookie(jar[1..], c);
      }
    }
  }

  lemma {:induction false} SetCookieDomains(jar: seq<Cookie>, c: Cookie, d: string)
    requires c.domain == d
    requires forall i :: 0 <= i < |jar| ==> jar[i].domain == d
    ensures forall i :: 0 <= i < |SetCookie(jar, c)| ==> SetCookie(jar, c)[i].domain == d
  {
    if jar != [] && !(jar[0].name == c.name && jar[0].domain == c.domain) {
      SetCookieDomains(jar[1..], c, d);
    }
  }

  /** The jar the constructor builds holds one cookie per name, with the value
      last given for it, all on the Vinted domain: looking a cookie up in it
      never conflicts. */
  lemma {:induction false} JarOfNamed(cookies: Dict<string>, name: string)
    ensures Named(JarOf(cookies), name) ==
      match LastValue(cookies, name) case Some(v) => [v] case None => []
    ensures forall i :: 0 <= i < |JarOf(cookies)| ==> JarOf(cookies)[i].domain == VintedDomain
    decreases |cookies|
  {
    if cookies != [] {
      var init := cookies[..|cookies| - 1];
      var e := cookies[|cookies| - 1];
      var c := Cookie(e.0, e.1, VintedDomain);
      JarOfNamed(init, name);
      JarOfNamed(init, e.0);
      SetCookieDomains(JarOf(init), c, VintedDomain);
      if e.0 == name {
        NamedSetCookieSame(JarOf(init), c);
      } else {
        NamedSetCookieOther(JarOf(init), c, name);
      }
    }
  }

  /** A cookie lookup in the constructed jar answers the last value given for
      the name, None for an empty or absent one, and never conflicts. */
  lemma JarOfGet(cookies: Dict<string>, name: string)
    ensures JarGet(JarOf(cookies), name) ==
      match LastValue(cookies, name)
      case Some(v) => if v != "" then Ok(Some(v)) else Ok(None)
      case None => Ok(None)
  {
    JarOfNamed(cookies, name);
  }

  /** The value of the last `anon_id` cookie of any domain, when non-empty
      (vinted.py:144-147 and 219-222). "Last" is in jar order here, while the
      cookie jar iterates by domain, path and name; the two agree on the
      single-domain jar the constructor builds. */
  function AnonId(jar: seq<Cookie>): (r: Option<string>)
    ensures r.Some? <==> |Named(jar, "anon_id")| > 0 && Named(jar, "anon_id")[|Named(jar, "anon_id")| - 1] != ""
    ensures r.Some? ==> r.value == Named(jar, "anon_id")[|Named(jar, "anon_id")| - 1]
  {
    var vs := Named(jar, "anon_id");
    if |vs| > 0 && vs[|vs| - 1] != "" then Some(vs[|vs| - 1]) else None
  }

  // ---------------------------------------------------------------------------
  // Session headers

  const AcceptAll := "application/json, text/plain, */*"

  /** The supplied headers never forwarded to the session. */
  predicate Excluded(name: string)
  {
    name in {"content-length", "host", "authority", "cookie", "cookies"}
  }

  /** The supplied headers that are forwarded, in order, keyed by their
      lower-cased names (the session's header dict ignores case). */
  function SafeHeaders(headers: Dict<string>): (r: Dict<string>)
    ensures forall k :: k in Keys(r) ==> !Excluded(k) && Lower(k) == k
    ensures forall k :: k in Keys(headers) && !Excluded(Lower(k)) ==> Lower(k) in Keys(r)
  {
    if headers == [] then []
    else
      var init := headers[..|headers| - 1];
      var e := headers[|headers| - 1];
      var r0 := SafeHeaders(init);
      KeysSnoc(init, e);
      LowerIdempotent(e.0);
      if Excluded(Lower(e.0)) then r0
      else
        KeysSnoc(r0, (Lower(e.0), e.1));
        r0 + [(Lower(e.0), e.1)]
  }

  /** The session's headers after construction: the JSON `accept` default,
      then every supplied header whose name is not excluded. */
  function SessionHeaders(headers: Dict<string>): Dict<string>
  {
    PutAll([("accept", AcceptAll)], SafeHeaders(headers))
  }

  /** The excluded names never reach the session; any other supplied header
      does, with the value given last under that name (ignoring case). */
  lemma SessionHeadersFilter(headers: Dict<string>, name: string)
    ensures Excluded(name) ==> Lookup(SessionHeaders(headers), name) == None
    ensures !Excluded(name) && Lower(name) == name ==>
      (Lookup(SessionHeaders(headers), name).Some? <==>
        name == "accept" || exists k :: k in Keys(headers) && Lower(k) == name)
    ensures Lookup(SessionHeaders(headers), name) ==
      if LastValue(SafeHeaders(headers), name).Some? then LastValue(SafeHeaders(headers), name)
      else if name == "accept" then Some(AcceptAll) else None
  {
    KeysPutAll([("accept", AcceptAll)], SafeHeaders(headers));
    KeysCons(("accept", AcceptAll), []);
    LookupPutAll([("accept", AcceptAll)], SafeHeaders(headers), name);
    if !Excluded(name) && Lower(name) == name && name != "accept" &&
       Lookup(SessionHeaders(headers), name).Some? {
      SafeHeadersFrom(headers, name);
    }
  }

  /** Every forwarded name comes from a supplied header. */
  lemma {:induction false} SafeHeadersFrom(headers: Dict<string>, name: string)
    requires name in Keys(SafeHeaders(headers))
    ensures exists k :: k in Keys(headers) && Lower(k) == name
    decreases |headers|
  {
    var init := headers[..|headers| - 1];
    var e := headers[|headers| - 1];
    KeysSnoc(init, e);
    KeysSnoc(SafeHeaders(init), (Lower(e.0), e.1));
    if name in Keys(SafeHeaders(init)) {
      SafeHeadersFrom(init, name);
    } else {
      assert Lower(e.0) == name;
    }
  }

  // ---------------------------------------------------------------------------
  // Wardrobe pages

  /** One wardrobe page as `wardrobe_items_page` returns it. */
  datatype Page = Page(items: Json, pagination: Json)

  /** `wardrobe_items_page` on the answer it got (vinted.py:62-67). */
  function PageOf(resp: Response): Result<Page>
  {
    match ResponseJson(resp)
    case Err(f) => Err(f)
    case Ok(data) =>
      if !data.Obj? then Err(WrongType)
      else
        var d := data.fields;
        Ok(Page(Or(Or(Get(d, "items"), Get(d, "catalog_items")), Arr([])),
                Or(Get(d, "pagination"), Obj([]))))
  }

  /** A page's items are `items` when truthy, else `catalog_items` when
      truthy, else `[]`; its pagination is truthy or `{}`. An answer that is
      not a JSON dict has no `get`. */
  lemma PageOfShape(resp: Response)
    ensures PageOf(resp).Ok? <==> ResponseJson(resp).Ok? && ResponseJson(resp).value.Obj?
    ensures PageOf(resp).Ok? ==> var d := ResponseJson(resp).value.fields;
      PageOf(resp).value.items == (if Truthy(Get(d, "items")) then Get(d, "items")
                                   else if Truthy(Get(d, "catalog_items")) then Get(d, "catalog_items")
                                   else Arr([])) &&
      PageOf(resp).value.pagination == (if Truthy(Get(d, "pagination")) then Get(d, "pagination") else Obj([]))
  {
  }

  /** The loop's exit test after a page (vinted.py:77-87), given the number of
      items the page contributed. `total_pages` and `current_page` come from a
      dict pagination; a page's own number stands for the current page
      otherwise. A dict that has `total_pages` but lacks `current_page` makes
      the comparison `None >= int`, a TypeError. */
  function StopAfter(page: int, p: Page, count: nat, perPage: int, maxPages: Option<int>): Result<bool>
  {
    var total := if p.pagination.Obj? then Get(p.pagination.fields, "total_pages") else Null;
    var current := if p.pagination.Obj? then Get(p.pagination.fields, "current_page") else Int(page);
    if maxPages.Some? && page >= maxPages.value then Ok(true)
    else if total.Null? then Ok(!Truthy(p.items) || count < perPage)
    else PyGe(current, total)
  }

  /** The exit test's decision table: `max_pages` first; without
      `total_pages`, an empty or short page; with it, `current_page >=
      total_pages`, which fails when either side is not comparable. */
  lemma StopAfterRule(page: int, p: Page, count: nat, perPage: int, maxPages: Option<int>)
    ensures var stop := StopAfter(page, p, count, perPage, maxPages);
      var capped := maxPages.Some? && page >= maxPages.value;
      var total := if p.pagination.Obj? then Get(p.pagination.fields, "total_pages") else Null;
      var current := if p.pagination.Obj? then Get(p.pagination.fields, "current_page") else Int(page);
      (capped ==> stop == Ok(true)) &&
      (!capped && total.Null? ==> stop == Ok(!Truthy(p.items) || count < perPage)) &&
      (!capped && IsNumber(total) && IsNumber(current) ==>
         stop == Ok(NumValue(current) >= NumValue(total))) &&
      (stop.Err? <==> !capped && !total.Null? && PyGe(current, total).Err?) &&
      (!capped && !total.Null? && p.pagination.Obj? && "current_page" !in Keys(p.pagination.fields) ==>
         stop.Err?)
  {
  }

  /** Python compares lists too: equal list counters, such as
      `{"total_pages": [2], "current_page": [2]}`, end the loop. */
  lemma ListCountersStop(page: int, p: Page, count: nat, perPage: int, maxPages: Option<int>, xs: seq<Json>)
    requires p.pagination == Obj([("total_pages", Arr(xs)), ("current_page", Arr(xs))])
    requires forall i :: 0 <= i < |xs| ==> DistinctKeys(xs[i])
    ensures StopAfter(page, p, count, perPage, maxPages) == Ok(true)
  {
    var f := p.pagination.fields;
    assert "current_page" != "total_pages" by { assert "current_page"[0] != "total_pages"[0]; }
    LookupFirst(f, 0, "total_pages");
    LookupFirst(f, 1, "current_page");
    assert "total_pages" in Keys(f) && "current_page" in Keys(f) by { assert f[0].0 == "total_pages" && f[1].0 == "current_page"; }
    ListGeRefl(xs);
  }

  /** The items a page's answer contributes (`items_all.extend(items)`). */
  function PageElements(resp: Response): Result<seq<Json>>
  {
    match PageOf(resp)
    case Err(f) => Err(f)
    case Ok(p) => Elements(p.items)
  }

  /** One iteration of `wardrobe_items_all`: the page's items and whether the
      loop stops after it. */
  function PageStep(resp: Response, page: int, perPage: int, maxPages: Option<int>): (r: Result<(seq<Json>, bool)>)
    ensures r.Ok? ==> PageElements(resp) == Ok(r.value.0)
    ensures PageElements(resp).Err? ==> r.Err?
  {
    match PageOf(resp)
    case Err(f) => Err(f)
    case Ok(p) =>
      match Elements(p.items)
      case Err(f) => Err(f)
      case Ok(elems) =>
        match StopAfter(page, p, |elems|, perPage, maxPages)
        case Err(f) => Err(f)
        case Ok(stop) => Ok((elems, stop))
  }

  /** The outcome of the paging loop entered at `page` with `acc` collected:
      the result, and how many pages it requests from there on. The server
      answers page `p` with `server[p - 1]`; a page past its end cannot be
      answered. */
  datatype Walked = Walked(result: Result<seq<Json>>, pages: nat)

  function Walk(server: seq<Response>, perPage: int, maxPages: Option<int>, page: nat, acc: seq<Json>): (w: Walked)
    requires page >= 1
    ensures w.pages >= 1
    decreases |server| + 1 - page
  {
    if page > |server| then Walked(Err(ServerExhausted), 1)
    else
      match PageStep(server[page - 1], page, perPage, maxPages)
      case Err(f) => Walked(Err(f), 1)
      case Ok((elems, stop)) =>
        if stop then Walked(Ok(acc + elems), 1)
        else
          var rest := Walk(server, perPage, maxPages, page + 1, acc + elems);
          Walked(rest.result, rest.pages + 1)
  }

  /** The items of `count` consecutive answers starting at index `from`,
      concatenated in order: the reference the loop's result is measured by. */
  function Collected(server: seq<Response>, from: nat, count: nat): Result<seq<Json>>
    requires from + count <= |server|
    decreases count
  {
    if count == 0 then Ok([])
    else
      match PageElements(server[from])
      case Err(f) => Err(f)
      case Ok(e) =>
        match Collected(server, from + 1, count - 1)
        case Err(f) => Err(f)
        case Ok(rest) => Ok(e + rest)
  }

  /** One step of the walk: a page past the server's end, a failing page and
      a stopping page end it after one request; any other page hands on to
      the next one. */
  lemma WalkStep(server: seq<Response>, perPage: int, maxPages: Option<int>, page: nat, acc: seq<Json>)
    requires page >= 1
    ensures page > |server| ==> Walk(server, perPage, maxPages, page, acc) == Walked(Err(ServerExhausted), 1)
    ensures page <= |server| ==>
      var step := PageStep(server[page - 1], page, perPage, maxPages);
      var w := Walk(server, perPage, maxPages, page, acc);
      (step.Err? ==> w == Walked(Err(step.fault), 1)) &&
      (step.Ok? && step.value.1 ==> w == Walked(Ok(acc + step.value.0), 1)) &&
      (step.Ok? && !step.value.1 ==>
         var rest := Walk(server, perPage, maxPages, page + 1, acc + step.value.0);
         w == Walked(rest.result, rest.pages + 1))
  {
  }

  /** A page's items followed by those of the pages after it are the items of
      the run of pages that starts with it. */
  lemma CollectedPrepend(server: seq<Response>, from: nat, count: nat, acc: seq<Json>, elems: seq<Json>)
    requires from + count + 1 <= |server|
    requires PageElements(server[from]).Ok? && PageElements(server[from]).value == elems
    requires Collected(server, from + 1, count).Ok?
    ensures Collected(server, from, count + 1).Ok?
    ensures (acc + elems) + Collected(server, from + 1, count).value == acc + Collected(server, from, count + 1).value
  {
    var c := Collected(server, from + 1, count).value;
    assert Collected(server, from, count + 1).value == elems + c;
    ConcatAssoc(acc, elems, c);
  }

  /** A walk that succeeds returned what was already collected followed by
      the items of the `w.pages` answers from index `from` on. */
  ghost predicate CollectsPages(server: seq<Response>, from: nat, w: Walked, acc: seq<Json>)
  {
    w.result.Ok? ==> (from + w.pages <= |server| &&
                      Collected(server, from, w.pages).Ok? &&
                      w.result.value == acc + Collected(server, from, w.pages).value)
  }

  /** A successful walk returns exactly the items of every page it requested,
      in page order, after what was already collected. */
  lemma {:induction false} WalkConcatenates(server: seq<Response>, perPage: int, maxPages: Option<int>, page: nat, acc: seq<Json>)
    requires page >= 1
    ensures CollectsPages(server, page - 1, Walk(server, perPage, maxPages, page, acc), acc)
    decreases |server| + 1 - page, 1
  {
    if page <= |server| {
      var step := PageStep(server[page - 1], page, perPage, maxPages);
      if step.Ok? && !step.value.1 {
        WalkConcatenatesOn(server, perPage, maxPages, page, acc);
      } else if step.Ok? {
        assert Collected(server, page - 1, 1) == Ok(step.value.0 + []);
      }
    }
  }

  /** The case of `WalkConcatenates` where the page does not stop the walk. */
  lemma {:induction false} WalkConcatenatesOn(server: seq<Response>, perPage: int, maxPages: Option<int>, page: nat, acc: seq<Json>)
    requires 1 <= page <= |server|
    requires var step := PageStep(server[page - 1], page, perPage, maxPages); step.Ok? && !step.value.1
    ensures CollectsPages(server, page - 1, Walk(server, perPage, maxPages, page, acc), acc)
    decreases |server| + 1 - page, 0
  {
    var elems := PageStep(server[page - 1], page, perPage, maxPages).value.0;
    var next := page + 1;
    WalkConcatenates(server, perPage, maxPages, next, acc + elems);
    assert next - 1 == page;
    assert CollectsPages(server, page, Walk(server, perPage, maxPages, next, acc + elems), acc + elems);
    WalkHandsOn(server, perPage, maxPages, page, acc);
  }

  /** A page that neither fails nor stops hands the walk on to the next page,
      which costs one request more and puts the page's items in front of
      the rest's. */
  lemma WalkHandsOn(server: seq<Response>, perPage: int, maxPages: Option<int>, page: nat, acc: seq<Json>)
    requires 1 <= page <= |server|
    requires var step := PageStep(server[page - 1], page, perPage, maxPages); step.Ok? && !step.value.1
    ensures var step := PageStep(server[page - 1], page, perPage, maxPages);
      var rest := Walk(server, perPage, maxPages, page + 1, acc + step.value.0);
      Walk(server, perPage, maxPages, page, acc) == Walked(rest.result, rest.pages + 1) &&
      (CollectsPages(server, page, rest, acc + step.value.0) ==>
         CollectsPages(server, page - 1, Walk(server, perPage, maxPages, page, acc), acc))
  {
    var elems := PageStep(server[page - 1], page, perPage, maxPages).value.0;
    var rest := Walk(server, perPage, maxPages, page + 1, acc + elems);
    if CollectsPages(server, page, rest, acc + elems) {
      WalkGlue(server, page, acc, elems, Walk(server, perPage, maxPages, page, acc), rest);
    }
  }

  /** The inductive step of `WalkConcatenates`, on the walks' results alone:
      a page that hands on adds its items in front of the rest's. */
  lemma WalkGlue(server: seq<Response>, page: nat, acc: seq<Json>, elems: seq<Json>, w: Walked, rest: Walked)
    requires 1 <= page <= |server|
    requires PageElements(server[page - 1]) == Ok(elems)
    requires w.pages == rest.pages + 1 && w.result == rest.result
    requires CollectsPages(server, page, rest, acc + elems)
    ensures CollectsPages(server, page - 1, w, acc)
  {
    if rest.result.Ok? {
      CollectedPrepend(server, page - 1, rest.pages, acc, elems);
    }
  }

  /** With `max_pages = m` the loop never requests a page beyond `max(m, 1)`:
      entered at `page`, it requests at most `max(m - page + 1, 1)` pages. */
  lemma {:induction false} WalkWithinMaxPages(server: seq<Response>, perPage: int, m: int, page: nat, acc: seq<Json>)
    requires page >= 1
    ensures Walk(server, perPage, Some(m), page, acc).pages <= if m - page + 1 >= 1 then m - page + 1 else 1
    decreases |server| + 1 - page
  {
    if page <= |server| {
      var step := PageStep(server[page - 1], page, perPage, Some(m));
      if step.Ok? && !step.value.1 {
        WalkWithinMaxPages(server, perPage, m, page + 1, acc + step.value.0);
      }
    }
  }

  /** A first page whose pagination dict has `total_pages` but no
      `current_page` makes the walk fail with a TypeError, unless `max_pages`
      stops it first. */
  lemma MissingCurrentPageFails(server: seq<Response>, perPage: int, maxPages: Option<int>)
    requires |server| >= 1 && PageOf(server[0]).Ok?
    requires Elements(PageOf(server[0]).value.items).Ok?
    requires PageOf(server[0]).value.pagination.Obj?
    requires IsNumber(Get(PageOf(server[0]).value.pagination.fields, "total_pages"))
    requires "current_page" !in Keys(PageOf(server[0]).value.pagination.fields)
    requires !(maxPages.Some? && 1 >= maxPages.value)
    ensures Walk(server, perPage, maxPages, 1, []) == Walked(Err(WrongType), 1)
  {
  }

  // ---------------------------------------------------------------------------
  // The client

  /** `jwt.decode(token)` with signature checks off: the payload, or None when
      decoding fails (or no JWT library is installed). */
  type JwtDecoder = string -> Option<Json>

  /** The text of `str(x)` when it can be a digit string at all: that of a
      non-negative integer or of a string (`str` of None, a bool, a float, a
      list or a dict always holds a non-digit). */
  function DigitText(j: Json): (r: Option<string>)
    ensures r.Some? && IsDigits(r.value) ==> j.Str? || (j.Int? && j.i >= 0 && DigitsValue(r.value) == j.i)
  {
    match j
    case Int(i) => if i >= 0 then Some(NatToString(i)) else None
    case Str(s) => Some(s)
    case _ => None
  }

  /** The user id a decoded token's `sub` gives: the int value of a truthy
      `sub` whose text is all digits; a payload that is not a dict is an
      AttributeError the caller swallows. */
  function SubUserId(payload: Option<Json>): (r: Option<nat>)
    ensures r.Some? ==> payload.Some? && payload.value.Obj?
  {
    match payload
    case None => None
    case Some(p) =>
      if !p.Obj? then None
      else
        var sub := Get(p.fields, "sub");
        var t := DigitText(sub);
        if Truthy(sub) && t.Some? && IsDigits(t.value) then Some(DigitsValue(t.value)) else None
  }

  /** `sub and str(sub).isdigit()` case by case: a non-empty digit string and a
      positive int give their value; zero, a negative int, a bool, a float, a
      list, a dict, the empty string, a missing `sub`, a payload that is not a
      dict and a failed decode give None. */
  lemma SubUserIdCases(payload: Option<Json>)
    ensures payload.None? ==> SubUserId(payload).None?
    ensures payload.Some? && !payload.value.Obj? ==> SubUserId(payload).None?
    ensures payload.Some? && payload.value.Obj? ==>
      var sub := Get(payload.value.fields, "sub");
      (sub.Str? ==> SubUserId(payload) == if sub.s != [] && IsDigits(sub.s) then Some(DigitsValue(sub.s)) else None) &&
      (sub.Int? ==> SubUserId(payload) == if sub.i > 0 then Some(sub.i) else None) &&
      (!sub.Str? && !sub.Int? ==> SubUserId(payload).None?)
  {
  }

  class VintedClient {
    var baseUrl: string
    /** The session's default headers, keyed by lower-cased name. */
    var headers: Dict<string>
    var jar: seq<Cookie>

    /** `VintedClient(base_url, headers, cookies)`; an absent argument is an
        empty dict. */
    constructor (baseUrl: string, headers: Dict<string>, cookies: Dict<string>)
      ensures this.baseUrl == RStripChar(baseUrl, '/')
      ensures this.headers == SessionHeaders(headers)
      ensures this.jar == JarOf(cookies)
    {
      var session := [("accept", AcceptAll)];
      var i := 0;
      while i < |headers|
        invariant 0 <= i <= |headers|
        invariant session == PutAll([("accept", AcceptAll)], SafeHeaders(headers[..i]))
      {
        assert headers[..i + 1][..i] == headers[..i];
        var (k, v) := headers[i];
        if !Excluded(Lower(k)) {
          session := Put(session, Lower(k), v);
        }
        i := i + 1;
      }
      assert headers[..i] == headers;
      var jar := [];
      var j := 0;
      while j < |cookies|
        invariant 0 <= j <= |cookies|
        invariant jar == JarOf(cookies[..j])
      {
        assert cookies[..j + 1][..j] == cookies[..j];
        jar := SetCookie(jar, Cookie(cookies[j].0, cookies[j].1, VintedDomain));
        j := j + 1;
      }
      assert cookies[..j] == cookies;
      this.baseUrl := RStripChar(baseUrl, '/');
      this.headers := session;
      this.jar := jar;
    }

    /** `get_user_id`: a non-empty all-digit `v_uid` cookie wins; otherwise the
        `sub` of the `access_token_web` JWT; otherwise None. A duplicated
        cookie name makes the lookup raise. */
    function GetUserId(decode: JwtDecoder): (r: Result<Option<int>>)
      reads this
      ensures JarGet(jar, "v_uid").Err? ==> r.Err?
      ensures (JarGet(jar, "v_uid").Ok? && JarGet(jar, "v_uid").value.Some? &&
               IsDigits(JarGet(jar, "v_uid").value.value)) ==>
        r == Ok(Some(DigitsValue(JarGet(jar, "v_uid").value.value)))
      ensures r.Ok? && r.value.Some? ==> r.value.value >= 0
      ensures JarGet(jar, "v_uid").Ok? &&
              !(JarGet(jar, "v_uid").value.Some? && IsDigits(JarGet(jar, "v_uid").value.value)) &&
              JarGet(jar, "access_token_web") == Ok(None) ==>
        r == Ok(None)
      ensures r.Err? <==> JarGet(jar, "v_uid").Err? ||
                          (!(JarGet(jar, "v_uid").value.Some? && IsDigits(JarGet(jar, "v_uid").value.value)) &&
                           JarGet(jar, "access_token_web").Err?)
      ensures r.Err? ==> |Named(jar, "v_uid")| >= 2 || |Named(jar, "access_token_web")| >= 2
      ensures JarGet(jar, "v_uid").Ok? &&
              !(JarGet(jar, "v_uid").value.Some? && IsDigits(JarGet(jar, "v_uid").value.value)) &&
              JarGet(jar, "access_token_web").Ok? && JarGet(jar, "access_token_web").value.Some? ==>
        var sub := SubUserId(decode(JarGet(jar, "access_token_web").value.value));
        r.Ok? && (r.value.Some? <==> sub.Some?) && (r.value.Some? ==> r.value.value == sub.value)
    {
      var vUid := JarGet(jar, "v_uid");
      if vUid.Err? then Err(vUid.fault)
      else if vUid.value.Some? && IsDigits(vUid.value.value) then Ok(Some(DigitsValue(vUid.value.value)))
      else
        var token := JarGet(jar, "access_token_web");
        if token.Err? then Err(token.fault)
        else if token.value.None? then Ok(None)
        else
          var sub := SubUserId(decode(token.value.value));
          if sub.Some? then Ok(Some(sub.value)) else Ok(None)
    }

    /** The request for one wardrobe page (vinted.py:60-62). */
    function PageRequest(userId: int, page: int, perPage: int, order: string): Request
      reads this
    {
      Request("GET", baseUrl + "/api/v2/wardrobe/" + IntToString(userId) + "/items",
              [("page", Int(page)), ("per_page", Int(perPage)), ("order", Str(order))], [], NoBody)
    }

    /** The requests for pages 1 to `n`, in order. */
    function PageRequests(userId: int, n: nat, perPage: int, order: string): (r: seq<Request>)
      reads this
      ensures |r| == n
      ensures forall i :: 0 <= i < n ==> r[i] == PageRequest(userId, i + 1, perPage, order)
    {
      if n == 0 then [] else PageRequests(userId, n - 1, perPage, order) + [PageRequest(userId, n, perPage, order)]
    }

    /** `wardrobe_items_all`: pages 1, 2, … are requested in order, each
        page's items appended, until the exit test holds. `sent` is the
        requests made. */
    method WardrobeItemsAll(userId: int, perPage: int, order: string, maxPages: Option<int>, server: seq<Response>)
      returns (r: Result<seq<Json>>, sent: seq<Request>)
      ensures r == Walk(server, perPage, maxPages, 1, []).result
      ensures sent == PageRequests(userId, Walk(server, perPage, maxPages, 1, []).pages, perPage, order)
    {
      var all: seq<Json> := [];
      var page: nat := 1;
      sent := [];
      ghost var w := Walk(server, perPage, maxPages, 1, []);
      while true
        invariant 1 <= page <= |server| + 1
        invariant sent == PageRequests(userId, page - 1, perPage, order)
        invariant w.result == Walk(server, perPage, maxPages, page, all).result
        invariant w.pages == Walk(server, perPage, maxPages, page, all).pages + page - 1
        decreases |server| + 1 - page
      {
        sent := sent + [PageRequest(userId, page, perPage, order)];
        assert sent == PageRequests(userId, page, perPage, order);
        WalkStep(server, perPage, maxPages, page, all);
        if page > |server| {
          assert w.pages == page;
          return Err(ServerExhausted), sent;
        }
        var step := PageStep(server[page - 1], page, perPage, maxPages);
        if step.Err? {
          assert w.pages == page;
          return Err(step.fault), sent;
        }
        all := all + step.value.0;
        if step.value.1 {
          assert w.pages == page;
          return Ok(all), sent;
        }
        page := page + 1;
      }
    }

    /** `get_item`: the `item` of the answer, or `{}` when it is falsy. */
    function GetItem(itemId: int, resp: Response): (r: (Request, Result<Json>))
      reads this
      ensures r.0.url == baseUrl + "/api/v2/items/" + IntToString(itemId) && r.0.verb == "GET"
      ensures r.1.Ok? <==> ResponseJson(resp).Ok? && ResponseJson(resp).value.Obj?
      ensures r.1.Ok? ==> Truthy(r.1.value) || r.1.value == Obj([])
      ensures r.1.Ok? && Truthy(Get(ResponseJson(resp).value.fields, "item")) ==>
        r.1.value == Get(ResponseJson(resp).value.fields, "item")
      ensures r.1.Ok? && !Truthy(Get(ResponseJson(resp).value.fields, "item")) ==> r.1.value == Obj([])
    {
      var req := Request("GET", baseUrl + "/api/v2/items/" + IntToString(itemId), [], [], NoBody);
      match ResponseJson(resp)
      case Err(f) => (req, Err(f))
      case Ok(data) =>
        if !data.Obj? then (req, Err(WrongType)) else (req, Ok(Or(Get(data.fields, "item"), Obj([]))))
    }

    /** The request of `get_item_upload_details`: the CSRF header only for a
        truthy token. */
    function UploadDetailsRequest(itemId: int, csrf: Option<string>): (r: Request)
      reads this
      ensures Lookup(r.headers, "x-csrf-token") == if csrf.Some? && csrf.value != "" then csrf else None
      ensures Lookup(r.headers, "x-enable-multiple-size-groups") == Some("true")
      ensures Lookup(r.headers, "referer") == Some(baseUrl + "/items/" + IntToString(itemId) + "/edit")
    {
      var h := [("x-enable-multiple-size-groups", "true"),
                ("referer", baseUrl + "/items/" + IntToString(itemId) + "/edit")];
      assert forall i :: 0 <= i < |h| ==> h[i].0 != "x-csrf-token";
      LookupFirst(h, 0, "x-enable-multiple-size-groups");
      LookupFirst(h, 1, "referer");
      var url := baseUrl + "/api/v2/item_upload/items/" + IntToString(itemId);
      if csrf.Some? && csrf.value != "" then
        var e := ("x-csrf-token", csrf.value);
        LookupSnoc(h, e, "x-csrf-token");
        LookupSnoc(h, e, "x-enable-multiple-size-groups");
        LookupSnoc(h, e, "referer");
        Request("GET", url, [], h + [e], NoBody)
      else
        Request("GET", url, [], h, NoBody)
    }

    /** The request of `create_draft`. */
    function CreateDraftRequest(csrf: string, payload: Json): (r: Request)
      reads this
      ensures r.verb == "POST" && r.body == JsonBody(payload)
      ensures Lookup(r.headers, "x-csrf-token") == Some(csrf)
      ensures Lookup(r.headers, "content-type") == Some("application/json")
      ensures Lookup(r.headers, "referer") == Some(baseUrl + "/items/new")
    {
      var h := [("content-type", "application/json"), ("x-csrf-token", csrf),
                ("x-enable-multiple-size-groups", "true"), ("origin", baseUrl),
                ("referer", baseUrl + "/items/new")];
      LookupFirst(h, 0, "content-type");
      LookupFirst(h, 1, "x-csrf-token");
      LookupFirst(h, 4, "referer");
      Request("POST", baseUrl + "/api/v2/item_upload/drafts", [], h, JsonBody(payload))
    }

    /** The request of `publish_draft`. */
    function PublishDraftRequest(csrf: string, draftId: int, payload: Json): (r: Request)
      reads this
      ensures r.verb == "POST" && r.body == JsonBody(payload)
      ensures r.url == baseUrl + "/api/v2/item_upload/drafts/" + IntToString(draftId) + "/completion"
      ensures Lookup(r.headers, "x-csrf-token") == Some(csrf)
      ensures Lookup(r.headers, "referer") == Some(baseUrl + "/items/" + IntToString(draftId) + "/edit")
    {
      var h := [("content-type", "application/json"), ("x-csrf-token", csrf),
                ("x-enable-multiple-size-groups", "true"), ("origin", baseUrl),
                ("referer", baseUrl + "/items/" + IntToString(draftId) + "/edit")];
      LookupFirst(h, 1, "x-csrf-token");
      LookupFirst(h, 4, "referer");
      Request("POST", baseUrl + "/api/v2/item_upload/drafts/" + IntToString(draftId) + "/completion", [],
              h, JsonBody(payload))
    }

    /** The request of `upload_photo`: a multipart form named after the last
        path segment, with the guessed MIME type or `application/octet-stream`,
        and `x-anon-id` only when the last `anon_id` cookie has a value. */
    function UploadPhotoRequest(csrf: string, filePath: string, tempUuid: string, photoType: string,
                                guessMime: string -> Option<string>): (r: Request)
      reads this
      ensures r.body.Multipart?
      ensures r.body.fileName == BaseName(filePath)
      ensures r.body.fields == [("photo[type]", photoType), ("photo[temp_uuid]", tempUuid)]
      ensures r.body.mime != ""
      ensures Lookup(r.headers, "x-csrf-token") == Some(csrf)
      ensures Lookup(r.headers, "x-anon-id") == AnonId(jar)
    {
      var guessed := guessMime(filePath);
      var mime := if guessed.Some? && guessed.value != "" then guessed.value else "application/octet-stream";
      var h := [("accept", AcceptAll), ("origin", baseUrl),
                ("referer", baseUrl + "/items/new"), ("x-csrf-token", csrf)];
      assert forall i :: 0 <= i < |h| ==> h[i].0 != "x-anon-id";
      LookupFirst(h, 3, "x-csrf-token");
      var h' := WithAnonId(h, AnonId(jar));
      Request("POST", baseUrl + "/api/v2/photos", [], h',
              Multipart(BaseName(filePath), mime, [("photo[type]", photoType), ("photo[temp_uuid]", tempUuid)]))
    }

    /** The request of `create_item`, with `x-anon-id` as for photo uploads. */
    function CreateItemRequest(csrf: string, payload: Json): (r: Request)
      reads this
      ensures r.verb == "POST" && r.body == JsonBody(payload)
      ensures Lookup(r.headers, "x-csrf-token") == Some(csrf)
      ensures Lookup(r.headers, "x-upload-form") == Some("true")
      ensures Lookup(r.headers, "x-anon-id") == AnonId(jar)
    {
      var h := [("content-type", "application/json"), ("x-csrf-token", csrf),
                ("x-enable-multiple-size-groups", "true"), ("x-upload-form", "true"),
                ("origin", baseUrl), ("referer", baseUrl + "/items/new")];
      assert forall i :: 0 <= i < |h| ==> h[i].0 != "x-anon-id";
      LookupFirst(h, 1, "x-csrf-token");
      LookupFirst(h, 3, "x-upload-form");
      Request("POST", baseUrl + "/api/v2/item_upload/items", [], WithAnonId(h, AnonId(jar)), JsonBody(payload))
    }

    /** The request of `delete_item`: an empty POST carrying the CSRF token. */
    function DeleteItemRequest(csrf: string, itemId: int): (r: Request)
      reads this
      ensures r.verb == "POST" && r.body == NoBody
      ensures r.url == baseUrl + "/api/v2/items/" + IntToString(itemId) + "/delete"
      ensures Lookup(r.headers, "x-csrf-token") == Some(csrf)
    {
      var h := [("x-csrf-token", csrf), ("origin", baseUrl),
                ("referer", baseUrl + "/items/" + IntToString(itemId))];
      LookupFirst(h, 0, "x-csrf-token");
      Request("POST", baseUrl + "/api/v2/items/" + IntToString(itemId) + "/delete", [], h, NoBody)
    }
  }

  /** `headers['x-anon-id'] = anon` when the anon id is truthy: the other
      headers keep their values. */
  function WithAnonId(h: Dict<string>, anon: Option<string>): (r: Dict<string>)
    requires "x-anon-id" !in Keys(h)
    ensures Lookup(r, "x-anon-id") == anon
    ensures forall k :: k != "x-anon-id" ==> Lookup(r, k) == Lookup(h, k)
  {
    match anon
    case Some(a) => Put(h, "x-anon-id", a)
    case None => h
  }

  /** What `delete_item` returns: the JSON answer, or `{"ok": True}` when a
      successful answer is not JSON; only an HTTP error status fails. */
  function DeleteResult(resp: Response): (r: Result<Json>)
    ensures r.Err? <==> 400 <= resp.status < 600
    ensures r.Err? ==> r.fault == HttpStatus(resp.status)
    ensures r.Ok? && resp.body.None? ==> r.value == Obj([("ok", Bool(true))])
    ensures r.Ok? && resp.body.Some? ==> r.value == resp.body.value
  {
    match ResponseJson(resp)
    case Ok(j) => Ok(j)
    case Err(f) => if f == NotJson then Ok(Obj([("ok", Bool(true))])) else Err(f)
  }

  /** `file_path.split('/')[-1]`: the part of the path after its last `/`. */
  function BaseName(path: string): (name: string)
    ensures |name| <= |path| && path[|path| - |name|..] == name
    ensures '/' !in name
    ensures '/' !in path ==> name == path
  {
    var parts := Split(path, '/');
    JoinEndsWithLast(parts, '/');
    parts[|parts| - 1]
  }

  /** The last piece of `split` is a suffix of the joined text. */
  lemma {:induction false} JoinEndsWithLast(parts: seq<string>, sep: char)
    requires |parts| >= 1
    ensures |parts[|parts| - 1]| <= |Join(parts, sep)|
    ensures Join(parts, sep)[|Join(parts, sep)| - |parts[|parts| - 1]|..] == parts[|parts| - 1]
  {
    if |parts| > 1 {
      JoinEndsWithLast(parts[1..], sep);
      assert parts[1..][|parts[1..]| - 1] == parts[|parts| - 1];
    }
  }
}
