# vintedreposter — a verified model of its data handling

vintedreposter reposts a listing on Vinted. It starts from a curl command copied
from the browser and builds a session from it. It lists the user's wardrobe
oldest first and reads a CSRF token from the new-item page. Then it re-uploads
the chosen listing's photos and creates a fresh item from the old one's fields,
offering to delete the original.

This project models the string and data handling of that flow in Dafny and
proves what the code promises about it. Each Python module has a Dafny
counterpart:

- `curl_parser.dfy` (module `CurlParser`): `parse_curl`.
  - The regular expressions become hand-written scanners over strings.
  - The header and cookie loops are methods, proved equal to fold functions over
    the matches.
- `vinted.dfy` (module `Vinted`): `VintedClient`, as a class with the session's
  base URL, headers and cookie jar as fields.
  - Its constructor runs the header filter and the cookie loop.
  - `wardrobe_items_all` is a loop over an abstract page source, proved against
    the recursive `Walk`.
  - The request-building operations are functions on the client's state.
- `browser_csrf.dfy` (module `BrowserCsrf`):
  - the CSRF pattern as a leftmost literal-marker search;
  - `extract_csrf`'s order of attempts, with both page fetchers as inputs.
- `browser_reposter.dfy` (module `BrowserReposter`):
  - `_extract_photo_urls`, as a method with its inner format loop;
  - `collect_item_data`.
- `cli.dfy`, `cli_dates.dfy`, `cli_sort.dfy`, `cli_photos.dfy`, `cli_payload.dfy`
  (modules `Cli`, `CliDates`, `CliSort`, `CliPhotos`, `CliPayload`): the decision
  logic of `cli.py`, including the rules `main` applies inline:
  - price and currency;
  - the creation date and its age in days;
  - the oldest-first sort;
  - enrichment;
  - the source merge;
  - the photo list and upload assignment;
  - the payload, the prompts, the delete gate and the selection.
- Shared modules:
  - `Wrappers`: `Option` and `Result`, with `Fault` naming the exceptions the
    code raises.
  - `Json`: JSON values with Python's truthiness, `or`, `dict.get`, `int()` and
    `>=`.
  - `Dicts`: insertion-ordered dicts as association lists.
  - `Text`: `strip`, `lower`, `split`, `int(str)` and `str(int)`.

Library calls whose behaviour is outside the code are parameters of the model:

| Library call | Modelled as |
|---|---|
| `urlparse` validity | `urlParses` |
| `float(str)` | `parseFloat` |
| `jwt.decode` | a decoder giving the payload |
| `datetime.fromisoformat` | `parseIso` |
| `mimetypes.guess_type` | `guessMime` |
| `datetime.now` | `now` |
| `uuid4` | `uuid` |
| what the user types | `answer` |
| the photo download and upload | `upload` |
| HTTP responses | `Response` values |

Timestamps are rational seconds.

## Model

| member | source | states |
|---|---|---|
| CurlParser.CollapseEscapedBreaks | vintedreposter/curl_parser.py:16 | The first continuation rewrite leaves text without a backslash unchanged |
| CurlParser.CollapseContinuations | vintedreposter/curl_parser.py:17 | The second continuation rewrite leaves text without a backslash unchanged |
| CurlParser.NormalizeWithoutBackslash | vintedreposter/curl_parser.py:16-17 | A command with no backslash is only stripped by normalisation |
| CurlParser.QuotedAt | vintedreposter/curl_parser.py:20 | A quoted URL capture starts at the quote, is non-empty and contains no quote of its kind |
| CurlParser.UrlAt | vintedreposter/curl_parser.py:20-23 | A URL match at a position begins with `curl` followed by whitespace and yields a non-empty URL |
| CurlParser.FindUrlFound | vintedreposter/curl_parser.py:20-23 | A found URL is the capture of the leftmost position where the URL pattern matches |
| CurlParser.FindUrlNone | vintedreposter/curl_parser.py:20-22 | The URL search fails exactly when the pattern matches at no position |
| CurlParser.HeaderAt | vintedreposter/curl_parser.py:28 | A `-H` match yields a non-empty name without `:` and a value without a single quote |
| CurlParser.FindHeaders | vintedreposter/curl_parser.py:28 | Every header match has that shape, and text without a single quote has no header match |
| CurlParser.HeaderEntries | vintedreposter/curl_parser.py:28-29 | One header entry per match |
| CurlParser.HeaderEntriesLowered | vintedreposter/curl_parser.py:29 | Every header key is lower-case |
| CurlParser.CookieArgAt | vintedreposter/curl_parser.py:33 | A `-b` match begins with `-b` and yields a non-empty argument |
| CurlParser.FindCookieArgFound | vintedreposter/curl_parser.py:33-35 | Only the leftmost `-b` argument is read |
| CurlParser.FindCookieArgNone | vintedreposter/curl_parser.py:33-34 | There is no `-b` argument exactly when the pattern matches nowhere |
| CurlParser.CookieEntries | vintedreposter/curl_parser.py:36-39 | Skipping fragments without `=` yields at most one entry per fragment |
| CurlParser.CookieEntriesNext | vintedreposter/curl_parser.py:36-39 | A fragment without `=` adds nothing; any other fragment is split at its first `=` and adds its stripped name and value |
| CurlParser.CollectHeaders | vintedreposter/curl_parser.py:27-29 | The header loop leaves the dict built by assigning every match in order, so the last duplicate wins |
| CurlParser.CollectFlagCookies | vintedreposter/curl_parser.py:35-39 | The `-b` loop leaves the dict built by assigning each `name=value` fragment in order |
| CurlParser.AssignOne | vintedreposter/curl_parser.py:37-39 | One turn of the `-b` loop extends the fold by one fragment |
| CurlParser.FindCookieHeader | vintedreposter/curl_parser.py:42-46 | The first header whose lower-cased key is `cookie` gives the Cookie header, since keys are already lower-case |
| CurlParser.MergeHeaderCookies | vintedreposter/curl_parser.py:48-51 | The Cookie-header loop is `setdefault` of every fragment in order |
| CurlParser.MergeOne | vintedreposter/curl_parser.py:49-51 | One turn of the `setdefault` loop extends that fold by one fragment |
| CurlParser.BuildCookies | vintedreposter/curl_parser.py:32-51 | The cookies are the `-b` cookies with the Cookie-header cookies `setdefault` onto them; an empty Cookie header adds nothing |
| CurlParser.BuildCurl | vintedreposter/curl_parser.py:26-54 | Headers, cookies and user-agent are those the specification function gives for the normalised text |
| CurlParser.ParsedFrom | vintedreposter/curl_parser.py:23-54 | Once a URL is found, the headers agree with the last match per key, every key is lower-case, and the user-agent is the `user-agent` header or `""` |
| CurlParser.ParsedCurl | vintedreposter/curl_parser.py:9-54 | Parsing fails with the missing-URL error exactly when no position matches. The URL is the leftmost match's capture. Headers are last-wins and lower-cased. The user-agent is the `user-agent` header or `""` |
| CurlParser.ParseCurl | vintedreposter/curl_parser.py:9-54 | The imperative parser returns exactly the specification's result |
| CurlParser.CookiePrecedence | vintedreposter/curl_parser.py:33-51 | A cookie's value is its last `-b` value when it has one, else its first value in the Cookie header |
| CurlParser.ParseSucceedsWithUrl | vintedreposter/curl_parser.py:20-51 | Once a URL is found and accepted by `urlparse`, parsing succeeds however malformed the cookie fragments are |
| CurlParser.DoubleQuotedHeadersIgnored | vintedreposter/curl_parser.py:28-53 | With no single quote in the text, no header is captured and the user-agent is `""` |
| Vinted.ResponseJson | vintedreposter/vinted.py:62-64 | A response yields JSON exactly when its status is not 4xx/5xx and its body parses; a 4xx/5xx status raises the HTTP error |
| Vinted.Named | vintedreposter/vinted.py:144 | The values of the jar's cookies with a given name, at most one per cookie |
| Vinted.SetCookie | vintedreposter/vinted.py:30 | Setting a cookie replaces at most one cookie or appends one |
| Vinted.NamedSetCookieOther | vintedreposter/vinted.py:30 | Setting a cookie leaves the values of every other name unchanged |
| Vinted.NamedSetCookieSame | vintedreposter/vinted.py:30 | Within one domain, setting a cookie makes its value the only one for its name |
| Vinted.SetCookieDomains | vintedreposter/vinted.py:30 | Setting cookies of one domain keeps every cookie in that domain |
| Vinted.JarGet | vintedreposter/vinted.py:34-38 | `cookies.get` raises on two cookies of a name. It gives the value of the only one, and nothing (for the code, a falsy result) for none or an empty value |
| Vinted.JarOfNamed | vintedreposter/vinted.py:28-30 | After the constructor's loop, each name has exactly its last value in the supplied dict, all on `.vinted.fr` |
| Vinted.JarOfGet | vintedreposter/vinted.py:28-34 | Reading a cookie from the constructed jar never raises, and gives its last supplied value when non-empty |
| Vinted.AnonId | vintedreposter/vinted.py:144-147 | The anon id is the last `anon_id` cookie's value, absent when there is none or it is empty |
| Vinted.SafeHeaders | vintedreposter/vinted.py:22-27 | Forwarded headers never have an excluded name. Every supplied header with a non-excluded name is forwarded |
| Vinted.SessionHeadersFilter | vintedreposter/vinted.py:19-27 | The session has no excluded header. Of the headers the code sets, it has a non-excluded one exactly when that header was supplied or is `accept`. A supplied header overrides the default `accept` |
| Vinted.SafeHeadersFrom | vintedreposter/vinted.py:24-26 | Every forwarded header comes from a supplied one |
| Vinted.VintedClient.constructor | vintedreposter/vinted.py:16-30 | The base URL loses its trailing `/`. The headers the code sets are the filtered ones over the `accept` default. The jar holds the supplied cookies on `.vinted.fr` |
| Vinted.VintedClient.GetUserId | vintedreposter/vinted.py:32-47 | A digit-string `v_uid` cookie gives its value first. Otherwise, with an `access_token_web` cookie, the result is exactly `SubUserId` of the decoded token. Otherwise, with a non-digit or missing `v_uid` and no `access_token_web`, the result is None. It fails exactly when the `v_uid` lookup raises, or when the `access_token_web` lookup it goes on to raises |
| Vinted.DigitText | vintedreposter/vinted.py:43 | `str(sub)` is digits only for a string or a non-negative integer, whose value it keeps |
| Vinted.SubUserId | vintedreposter/vinted.py:41-44 | A user id comes only from a decoded payload that is a dict |
| Vinted.SubUserIdCases | vintedreposter/vinted.py:40-46 | A failed decode or a non-dict payload gives None. A string `sub` gives its value when it is non-empty digits. An integer `sub` gives itself when positive. Any other `sub` gives None |
| Vinted.PageOfShape | vintedreposter/vinted.py:58-67 | A page's items are `items` if truthy, else `catalog_items` if truthy, else `[]`. Its pagination is the truthy value or `{}`. It fails on an HTTP error or a body that is not a dict |
| Vinted.StopAfterRule | vintedreposter/vinted.py:77-87 | The loop stops at `max_pages`. Without `total_pages` it stops on an empty or short page. With both numbers it stops once `current_page >= total_pages`. A missing `current_page` beside `total_pages` raises |
| Vinted.ListCountersStop | vintedreposter/vinted.py:85-87 | Equal list counters, such as `[2]` and `[2]`, compare `>=` and end the loop |
| Vinted.PageStep | vintedreposter/vinted.py:75-76 | Each page contributes exactly what `extend` takes from its items, and a page whose items cannot be iterated fails |
| Vinted.WalkStep | vintedreposter/vinted.py:74-88 | One iteration: a failing page ends the walk with its error, a stop ends it with the page's items appended, and otherwise the walk continues at the next page |
| Vinted.WalkConcatenates | vintedreposter/vinted.py:71-89 | A successful walk returns the concatenation, in order, of the pages it fetched |
| Vinted.WalkConcatenatesOn | vintedreposter/vinted.py:74-88 | The continuing case of that concatenation |
| Vinted.WalkHandsOn | vintedreposter/vinted.py:74-88 | A page that neither fails nor stops costs one request more than the rest of the walk, and puts its items in front of the rest's |
| Vinted.WalkGlue | vintedreposter/vinted.py:76-88 | A page's items followed by a successful rest of the walk are the items of the run of pages from that page on |
| Vinted.CollectedPrepend | vintedreposter/vinted.py:76 | Concatenating one page in front of the following ones |
| Vinted.WalkWithinMaxPages | vintedreposter/vinted.py:79-80 | With `max_pages = m`, no page beyond `max(m, 1)` is requested |
| Vinted.MissingCurrentPageFails | vintedreposter/vinted.py:78-86 | A first page whose pagination has `total_pages` but no `current_page` makes the loop raise |
| Vinted.VintedClient.PageRequests | vintedreposter/vinted.py:58-62 | The requests for pages 1 to n, in order |
| Vinted.VintedClient.WardrobeItemsAll | vintedreposter/vinted.py:69-89 | The loop returns the walk's result and sends exactly the requests for pages 1, 2, … up to the number of pages walked |
| Vinted.VintedClient.GetItem | vintedreposter/vinted.py:91-95 | `GET /api/v2/items/{id}`. The result is the truthy `item`, else `{}`, and it fails on an HTTP error or a non-dict body |
| Vinted.VintedClient.UploadDetailsRequest | vintedreposter/vinted.py:103-110 | The editor-details request carries `x-csrf-token` only for a truthy token, plus the size-groups flag and the edit-page referer |
| Vinted.VintedClient.CreateDraftRequest | vintedreposter/vinted.py:114-123 | A JSON POST carrying the token, the content type and the new-item referer |
| Vinted.VintedClient.PublishDraftRequest | vintedreposter/vinted.py:165-179 | A JSON POST to the draft's completion URL with the token and the draft's edit referer |
| Vinted.VintedClient.UploadPhotoRequest | vintedreposter/vinted.py:127-161 | A multipart POST named by the path's base name, with the type and temp uuid fields and a non-empty MIME type. It carries the token, and `x-anon-id` when the jar has one |
| Vinted.VintedClient.CreateItemRequest | vintedreposter/vinted.py:202-226 | A JSON POST with the token, `x-upload-form`, and `x-anon-id` when the jar has one |
| Vinted.VintedClient.DeleteItemRequest | vintedreposter/vinted.py:183-195 | A body-less POST to `/api/v2/items/{id}/delete` with the token |
| Vinted.WithAnonId | vintedreposter/vinted.py:144-147 | Adding the anon id sets only `x-anon-id`, and only when there is one |
| Vinted.DeleteResult | vintedreposter/vinted.py:196-200 | Deletion fails exactly on a 4xx/5xx status. A successful body that is not JSON gives `{"ok": True}`, otherwise the body |
| Vinted.BaseName | vintedreposter/vinted.py:155 | The file name is the suffix of the path after its last `/`, the whole path when there is none |
| Vinted.JoinEndsWithLast | vintedreposter/vinted.py:155 | Joining parts ends with the last part |
| BrowserCsrf.NoMatchNearEnd | vintedreposter/browser_csrf.py:4 | No match starts where fewer characters remain than the pattern needs |
| BrowserCsrf.SearchFound | vintedreposter/browser_csrf.py:62-65 | A found token is the group of the leftmost match |
| BrowserCsrf.SearchNone | vintedreposter/browser_csrf.py:62-66 | No token is found only when there is no match at all |
| BrowserCsrf.Scan | vintedreposter/browser_csrf.py:4 | The token is 36 characters from hex digits of either case, `-` and `\`. It is the group of the leftmost match, and None exactly when nothing matches |
| BrowserCsrf.ScanFindsEmbedded | vintedreposter/browser_csrf.py:4 | A valid token between the marker and the closing quote is found, after any text free of matches |
| BrowserCsrf.SearchSkips | vintedreposter/browser_csrf.py:4 | The search passes over positions without a match |
| BrowserCsrf.LowerMarkerMatches | vintedreposter/browser_csrf.py:4 | The marker matches case-insensitively |
| BrowserCsrf.FetchViaRequests | vintedreposter/browser_csrf.py:27-47 | A page answered without a 4xx/5xx status gives its scan: the leftmost match's token, or None. A network error or an error status gives None |
| BrowserCsrf.ExtractCsrf | vintedreposter/browser_csrf.py:71-81 | The browser's token wins when there is one, otherwise the plain HTTP result. Every result is a valid token or None |
| BrowserReposter.FirstTruthy | vintedreposter/browser_reposter.py:141-143 | A chain of `or` gives the first truthy value, otherwise the last key's value |
| BrowserReposter.FormatUrlFirst | vintedreposter/browser_reposter.py:144-151 | The format loop takes the url of the first listed format that is a dict with a truthy url |
| BrowserReposter.PhotoUrl | vintedreposter/browser_reposter.py:141-151 | A photo gets a URL exactly when it is a dict (any other photo raises) |
| BrowserReposter.PhotoUrlPrefersOwnKeys | vintedreposter/browser_reposter.py:141-143 | The first truthy of the five URL keys wins |
| BrowserReposter.PhotoUrlFromFormats | vintedreposter/browser_reposter.py:144-151 | Without a truthy URL key, the first of xxl, xl, l, m, original that is a dict with a truthy url gives the URL |
| BrowserReposter.PhotoList | vintedreposter/browser_reposter.py:137 | The photos are `photos` if truthy, else `item_photos` if truthy, else `[]` |
| BrowserReposter.UrlsOf | vintedreposter/browser_reposter.py:138-154 | At most one URL per photo, and the extraction fails exactly when some photo is not a dict |
| BrowserReposter.UrlsOfAppend | vintedreposter/browser_reposter.py:152-153 | A photo adds its URL at the end exactly when it is a string |
| BrowserReposter.ExtractPhotoUrls | vintedreposter/browser_reposter.py:135-154 | The loop returns exactly the specification's URL list |
| BrowserReposter.NextUrls | vintedreposter/browser_reposter.py:139-153 | One turn of the photo loop extends the list for one more photo |
| BrowserReposter.PhotoUrlOf | vintedreposter/browser_reposter.py:141-151 | The inner loop over the formats picks the specification's URL |
| BrowserReposter.PrefixErr | vintedreposter/browser_reposter.py:139-142 | A failing photo makes the whole extraction fail |
| BrowserReposter.EmptyUrlIsKept | vintedreposter/browser_reposter.py:142-153 | An empty-string URL is still appended, since only its type is checked |
| BrowserReposter.MergedSourcePrefersDetailed | vintedreposter/browser_reposter.py:158 | Detailed-view keys override the listing's; other keys keep the listing's value |
| BrowserReposter.CollectItemData | vintedreposter/browser_reposter.py:157-188 | Building the record fails exactly when `int(id)` or the photo extraction fails. Otherwise the id and the URLs are those. The price is the normalised amount when it is numeric, else None, and the currency is the normalised one. The brand is `brand_title` or `brand`, and the brand, size, catalog and status ids are the source's. Title, description and color ids are the source's when truthy, else `""`, `""` and `[]` |
| BrowserReposter.PricePriority | vintedreposter/browser_reposter.py:160-173 | The amount is `price_numeric`, else the dict price's `amount` (currency falling back to `currency_code`), else a numeric price. A bare string price is never used, and a string amount is parsed with `,` read as `.` |
| BrowserReposter.DecimalCommaPrice | vintedreposter/browser_reposter.py:169-173 | A decimal-comma price parses as its decimal-point spelling |
| Cli.ExtractPriceCurrencyPriority | vintedreposter/cli.py:20-33 | The table's price prefers `price_numeric`, then the dict price's `amount` with the `currency_code` fallback, and passes a numeric or string price through |
| Cli.TableAgreesWithNormaliser | vintedreposter/cli.py:20-33 | Unless its amount is a string, the table's price and currency are the normaliser's |
| Cli.StringPriceDiffers | vintedreposter/cli.py:29-30 | A bare string price is shown by the table but dropped by the normaliser |
| Cli.CopyDetailsLookup | vintedreposter/cli.py:185-187 | Copying the details sets exactly the listed keys whose detail value is not None, and keeps every other key |
| Cli.CopyNonNull | vintedreposter/cli.py:185-187 | The copy loop gives that result |
| Cli.EnrichedChangesOnlyDetailKeys | vintedreposter/cli.py:176-202 | Enrichment changes only the six stat and date keys and drops none. A listing with stats and a date is left as it is |
| Cli.EnrichedDetailRules | vintedreposter/cli.py:182-202 | A key changed by the item endpoint took its non-None detail value. `created_at` changes afterwards only with a truthy token, when it was absent, to a truthy value. `created_at_ts` changes afterwards only to the editor payload's non-None value |
| Cli.EditorTimestampRule | vintedreposter/cli.py:191-202 | The editor step changes `created_at_ts` only with a truthy token, with no date key and an integer id, to the editor payload's non-None `created_at_ts` |
| Cli.DictListings | vintedreposter/cli.py:176-210 | A listing that is not a dict stops the command. Otherwise the dicts are the listings, in order |
| Cli.EnrichAll | vintedreposter/cli.py:176-202 | The enrichment loop enriches every listing in place and in order |
| Cli.MergeSource | vintedreposter/cli.py:266 | The merge succeeds exactly when the editor details are a dict whose `item` is a dict or falsy |
| Cli.MergeSourcePrecedence | vintedreposter/cli.py:266 | The nested `item` overrides the details, which override the listing |
| Cli.RepostPriceRules | vintedreposter/cli.py:269-282 | The repost price is `price_numeric` when not None. Otherwise a dict price gives `float` of its amount: None for a None amount, the parsed value or None for a string, the value for a number, None for anything else. A numeric non-dict price is kept, and any other price gives None. The currency keeps `price_currency` or `currency` when that is not None. When it is None it falls back to a dict price's `currency_code`, and otherwise stays None |
| Cli.CurrencyFallbacksDiffer | vintedreposter/cli.py:280-282 | With an empty `currency` beside a dict price, the repost keeps `""` while `collect_item_data` takes `currency_code`: `is None` against a falsy test |
| CliDates.MillisecondsAndSecondsAgree | vintedreposter/cli.py:42 | A time in milliseconds and the same time in seconds give the same instant |
| CliDates.ExampleTimestamps | vintedreposter/cli.py:42 | 1700000000 and 1700000000000 give the same instant |
| CliDates.IsoText | vintedreposter/cli.py:50-53 | Text without `Z` is only stripped before ISO parsing |
| CliDates.ZuluIsUtc | vintedreposter/cli.py:52-53 | A trailing `Z` becomes `+00:00` |
| CliDates.PhotoTimestamp | vintedreposter/cli.py:67-72 | A photo raises exactly when it is a dict whose truthy `high_resolution` is not a dict |
| CliDates.EarliestOkIff | vintedreposter/cli.py:67-74 | The earliest-photo loop succeeds exactly when no photo raises |
| CliDates.EarliestNoneIff | vintedreposter/cli.py:67-75 | The loop finds no time exactly when no photo has a numeric timestamp |
| CliDates.EarliestIsLeast | vintedreposter/cli.py:67-74 | The time found is some photo's timestamp and no larger than any other |
| CliDates.EarliestPhotoTimestamp | vintedreposter/cli.py:66-74 | The `best_ts` loop returns the specification's earliest time |
| CliDates.PrefixFails | vintedreposter/cli.py:67-72 | A raising photo makes the whole loop raise |
| CliDates.EarliestFault | vintedreposter/cli.py:70-71 | The loop can only raise the type error of a non-dict `high_resolution` |
| CliDates.ParseCreatedAt | vintedreposter/cli.py:36-80 | A creation date found is always within the range `fromtimestamp` accepts |
| CliDates.CreatedAtPriority | vintedreposter/cli.py:39-80 | A representable numeric `created_at_ts` wins. Then the ISO text, then the earliest photo. The date is unknown exactly when none of the three gives one and nothing raises. The lookup raises exactly when the timestamp is not usable and either the `created_at` lookup raises or, with no usable ISO text, a listed photo raises |
| CliDates.PhotoDateIsEarliest | vintedreposter/cli.py:64-78 | Without a timestamp or ISO text, the date is no later than any photo's |
| CliDates.WholeDays | vintedreposter/cli.py:88-90 | The whole days elapsed, rounded down, and 0 for less than a day or a future date |
| CliDates.DaysSinceCreated | vintedreposter/cli.py:83-91 | The age is `?` exactly for an unknown date, otherwise the decimal digits of the whole days elapsed. It raises only where the date lookup raises |
| CliSort.KeyLeTotalOrder | vintedreposter/cli.py:206-208 | The `(0, date)`/`(1, max)` keys are totally ordered |
| CliSort.Insert | vintedreposter/cli.py:210 | Inserting adds exactly the element |
| CliSort.SortByKey | vintedreposter/cli.py:210 | Sorting permutes its input |
| CliSort.InsertSorted | vintedreposter/cli.py:210 | Inserting into a sorted list keeps it sorted |
| CliSort.WithKeyInsert | vintedreposter/cli.py:210 | Insertion keeps the order among elements of one key |
| CliSort.SortByKeySpec | vintedreposter/cli.py:210 | The sort orders by key, permutes its input and is stable |
| CliSort.DateKey | vintedreposter/cli.py:206-208 | A listing's key is its date, or the unknown key exactly when the date is unknown. It fails where the date lookup raises |
| CliSort.AllKeys | vintedreposter/cli.py:210 | Every key is computed before anything moves, and any key that raises makes the sort raise |
| CliSort.SortOldestFirst | vintedreposter/cli.py:206-210 | The sort succeeds exactly when every date lookup does, and permutes the listings |
| CliSort.SortOldestFirstSpec | vintedreposter/cli.py:206-210 | Known dates ascend before every unknown one, and listings of equal key keep their order |
| CliPhotos.FirstFormatUrl | vintedreposter/cli.py:301 | The format URL is a truthy `url` of a dict format, or None |
| CliPhotos.FirstFormatUrlIsFirst | vintedreposter/cli.py:301 | It is that of the first usable format in dict order |
| CliPhotos.ExtractUrl | vintedreposter/cli.py:297-302 | A non-dict photo has no URL. Otherwise the first truthy of `full_size_url`, `url` and `image_url` wins. Failing those, a dict `formats` gives its first usable format's URL, and any other `formats` gives `False` |
| CliPhotos.ExtractUrlTruthy | vintedreposter/cli.py:297-311 | A photo is downloaded exactly when it is a dict with a truthy one of its three URL keys or a usable format |
| CliPhotos.UrlPickersDiffer | vintedreposter/cli.py:301 | With formats `m` then `xxl`, the command line picks `m` and the normaliser `xxl` |
| CliPhotos.PhotosToUpload | vintedreposter/cli.py:289-295 | The photo list lookup raises exactly when `details['item']` is present and not a dict. Otherwise it is the nested `item.photos` when that is a list, else the details' `photos`, else the source's `photos`, else `[]` |
| CliPhotos.AssignedPhoto | vintedreposter/cli.py:329-331 | An upload assigns a photo exactly when it answers a dict with a truthy id. The entry has exactly the keys `id` and `orientation`. It keeps that id, and its orientation is the answer's when truthy, else 0 |
| CliPhotos.AssignedPhotosNext | vintedreposter/cli.py:308-331 | Each photo of the loop appends its entry, if any |
| CliPhotos.AssignedPhotosSpec | vintedreposter/cli.py:305-331 | At most one entry per photo, each with a truthy id, and some entry exactly when some upload gives one |
| CliPhotos.UploadOne | vintedreposter/cli.py:308-331 | One turn of the upload loop gives the specification's entry |
| CliPhotos.AssignPhotos | vintedreposter/cli.py:305-333 | The upload loop gives the specification's assigned photos |
| CliPayload.DraftOf | vintedreposter/cli.py:336-361 | The draft's currency defaults to `EUR`, its price to 0, its status id to 1 and its package size to 1. The title and the package size are the source's when truthy, else `""` and 1. The brand, size and catalog ids are the source's. `temp_uuid` and the photos are the session's |
| CliPayload.Payload | vintedreposter/cli.py:336-366 | The payload carries the draft as `item`, and its `upload_session_id` equals the draft's `temp_uuid` |
| CliPayload.SetPromptField | vintedreposter/cli.py:380 | Setting a prompted id sets that field and no other |
| CliPayload.SetPromptFieldOnlyIds | vintedreposter/cli.py:380 | Only the four prompted ids can change |
| CliPayload.PromptOneField | vintedreposter/cli.py:376-382 | A prompt sets its field to the integer typed, only when the field is None or `""` and the stripped answer is an integer |
| CliPayload.PromptedFields | vintedreposter/cli.py:369-382 | After the prompts, each id is the integer typed when it was missing and the answer parsed, else unchanged; nothing else changes |
| CliPayload.PromptMissing | vintedreposter/cli.py:375-382 | The prompt loop gives the specification's draft |
| CliPayload.PromptedKeepsPhotos | vintedreposter/cli.py:375-382 | The prompts never change the assigned photos |
| CliPayload.TruthyNeedsNoPrompt | vintedreposter/cli.py:376 | A truthy value is never prompted for |
| CliPayload.StatusIdNeverPrompted | vintedreposter/cli.py:349-376 | The status prompt never changes the draft's status id |
| CliPayload.OfferedIffPhotos | vintedreposter/cli.py:385 | Deletion is offered exactly when the assigned photos are non-empty |
| CliPayload.DeleteGate | vintedreposter/cli.py:305-385 | Deletion is offered exactly when some photo with a truthy URL was uploaded with a truthy id |
| CliPayload.Select | vintedreposter/cli.py:214-224 | A blank line exits and a non-integer is invalid. A number outside 1..count is out of range, and otherwise listing `n - 1` is chosen |
| CliPayload.SelectEveryListing | vintedreposter/cli.py:214-226 | Typing a listing's number selects it |
| Dicts.Lookup | vintedreposter/curl_parser.py:53 | A lookup finds a key exactly when it is present, and gives one of its values |
| Dicts.LookupSnoc | vintedreposter/curl_parser.py:53 | An appended entry is seen only for a new key |
| Dicts.Put | vintedreposter/curl_parser.py:29 | `d[k] = v` gives `k` the value `v`, keeps every other key, and only grows for a new key |
| Dicts.PutUnique | vintedreposter/curl_parser.py:29 | Assignment keeps keys unique |
| Dicts.SetDefault | vintedreposter/curl_parser.py:51 | `setdefault` keeps a present key's value, adds a new key, and keeps every other key |
| Dicts.PutAllSnoc | vintedreposter/curl_parser.py:28-29 | Assigning one more entry extends the assignment fold |
| Dicts.SetDefaultAllSnoc | vintedreposter/curl_parser.py:48-51 | `setdefault` of one more entry extends that fold |
| Dicts.LookupPutAll | vintedreposter/curl_parser.py:28-29 | After assigning entries, a key has its last assigned value, else its old one |
| Dicts.KeysPutAll | vintedreposter/curl_parser.py:28-29 | Assigning entries adds exactly their keys and keeps keys unique |
| Dicts.LookupSetDefaultAll | vintedreposter/curl_parser.py:48-51 | After `setdefault` of entries, a present key keeps its value, else it has its first value among them |
| Dicts.LastValueUnique | vintedreposter/browser_reposter.py:158 | With unique keys the last value is the only one |
| Json.Get | vintedreposter/cli.py:269 | `d.get(k)` is None for an absent key, and the key's value otherwise |
| Json.GetIn | vintedreposter/cli.py:290 | `.get` succeeds only on a dict |
| Json.Trunc | vintedreposter/browser_reposter.py:176 | `int` of a float truncates toward zero |
| Json.ToInt | vintedreposter/browser_reposter.py:176 | `int(x)` keeps an integer and raises only on a non-number |
| Json.ToFloat | vintedreposter/cli.py:275 | `float(x)` keeps a number's value |
| Json.PyGe | vintedreposter/vinted.py:86 | `>=` compares numbers by value and strings lexicographically. It succeeds only on two numbers, two strings or two lists, so None against a number raises |
| Json.ListGeSpec | vintedreposter/vinted.py:86 | Lists compare at their first unequal pair of elements, by that pair's `>=`. When one list is a prefix of the other, the longer one is greater |
| Json.PyEqRefl | vintedreposter/vinted.py:86 | `==` is reflexive on parsed JSON, whose dicts have unique keys |
| Json.ListGeRefl | vintedreposter/vinted.py:86 | A list is `>=` itself |
| Json.ListGePrefix | vintedreposter/vinted.py:86 | A list is `>=` each of its proper prefixes, and a proper prefix is not `>=` the list |
| Json.Elements | vintedreposter/vinted.py:76 | `extend` takes a list's elements, a string's characters, a dict's keys, and raises on anything else |
| Text.LStrip | vintedreposter/curl_parser.py:16 | Removes exactly the leading whitespace |
| Text.RStrip | vintedreposter/curl_parser.py:16 | Removes exactly the trailing whitespace |
| Text.Strip | vintedreposter/curl_parser.py:29 | `strip` keeps a middle slice, drops only whitespace, and leaves no whitespace at either end |
| Text.StripNoEdgeSpace | vintedreposter/curl_parser.py:16 | Text without whitespace at its ends is unchanged by `strip` |
| Text.Lower | vintedreposter/curl_parser.py:29 | `lower` keeps the length |
| Text.LowerIdempotent | vintedreposter/curl_parser.py:29 | Lower-casing twice is lower-casing once |
| Text.NatToString | vintedreposter/vinted.py:92 | `str(n)` is decimal digits that read back as `n`, without a leading zero |
| Text.IntToString | vintedreposter/vinted.py:92 | `str(n)` is digits with a `-` for a negative number |
| Text.ParseInt | vintedreposter/cli.py:218 | `int` of a digit string is its value |
| Text.ParseIntToString | vintedreposter/cli.py:218 | `int(str(n)) == n` |
| Text.IndexOf | vintedreposter/curl_parser.py:20 | The first occurrence of a character at or after a position |
| Text.SpaceRunEnd | vintedreposter/curl_parser.py:20 | The end of a whitespace run |
| Text.NonSpaceRunEnd | vintedreposter/curl_parser.py:20 | The end of a non-whitespace run |
| Text.Split | vintedreposter/curl_parser.py:36 | `split` gives pieces free of the separator that join back to the text |
| Text.SplitFirst | vintedreposter/curl_parser.py:37-38 | `split('=', 1)` happens exactly when `=` is present, cutting at its first occurrence |
| Text.ReplaceAll | vintedreposter/browser_reposter.py:171 | Replacing leaves text without the character unchanged, and removes it when the replacement lacks it |
| Text.ReplaceAllAppend | vintedreposter/browser_reposter.py:171 | Replacement distributes over concatenation |
| Text.RStripChar | vintedreposter/vinted.py:17 | `rstrip('/')` removes exactly the trailing slashes |

## Left out

- Vinted.SessionHeaders: the default headers `requests.Session` adds by itself (`User-Agent`, `Accept-Encoding`, `Accept`, `Connection`) are not modelled. The session headers are the ones the code sets.
- HTTP traffic. Sessions, `requests` defaults (timeouts, redirects, retries) and multipart encoding are not modelled. A response is a status and an optional parsed body, and a request is the URL, verb, headers and body the code builds.
- `wardrobe_items` (the single-page variant at vinted.py:49-56) is not modelled: nothing in the flow calls it.
- Vinted.VintedClient.WardrobeItemsAll: the page source is a finite sequence of responses. Needing a page past its end yields `ServerExhausted`, where the code would keep requesting pages.
- Vinted.SetCookie: the cookie jar is a sequence replacing a cookie of the same name and domain. Paths and expiry are not modelled.
- Vinted.VintedClient.GetUserId: `jwt.decode` is a parameter, and a decoder that is not installed is a decoder that always fails. JWT validation is not modelled.
- Vinted.VintedClient.UploadPhotoRequest: `mimetypes.guess_type` is the parameter `guessMime`. Reading the file is not modelled; the request names the file only.
- `str.isdigit`, `str.lower` and `int(str)` are modelled on ASCII. Other Unicode digits and cases, and underscores inside `int` literals, are not modelled.
- `float(str)`, `urlparse`, `datetime.fromisoformat`, `datetime.now` and `uuid4` are parameters. Their own parsing is not modelled, and neither is whether `urlparse` raises.
- CliDates.ParseCreatedAt: `datetime.fromtimestamp` is modelled as a range check. Microsecond rounding, platform limits and time zones other than UTC are not modelled. Floats are exact rationals.
- The download of each photo, the temporary files and `upload_photo`'s result are one parameter, `upload`. Its failure modes are one error.
- `argparse`, `input`, `prompt_yes_no`, `sys.exit` and the rich table are not modelled. Typed answers are the parameter `answer`. Only the price column of `render_items_table` is modelled.
- Listing dicts that `main` mutates in place are modelled as values returned by the enrichment and prompt operations.
- Cli.DictListings: a listing that is not a dict stops the command, either at `k in it` in the enrichment loop or at the sort key's `.get`. Which of the two raises is not distinguished. The enrichment and the sort are stated over dict listings, which is what they receive when the command gets that far.
- Json.PyEq: dict equality counts entries and compares values key by key. That is Python's `==` for dicts with unique keys, which is all `json.loads` produces.
- The `user_id` gate and the error exits in `main` (cli.py:159-168, 255-258) are not modelled. Neither are the browser-login cookie merge (cli.py:141-155) and the browser repost path (cli.py:233-252).
- CliPayload.StatusIdNeverPrompted, CliPayload.DeleteGate and CliPayload.PromptMissing: stated over any list of prompted keys. The code's list is the four ids in `PromptKeys`.
- Browser driving (`_inject_cookies`, `_find_first`, `_type_value`, `_upload_files`, `_click_save_draft`, `_run_repost_flow`, `create_draft_via_browser`) and `_download_photos` are not modelled: they are foreign driver calls and network I/O. `browser_login.py` is not part of this model.
- BrowserCsrf.FetchWithBrowser: the headless-browser fetch is an input value (unavailable, crashed, or the rendered page). Cookie injection into the browser is not modelled.
