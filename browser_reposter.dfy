/** The item normaliser of browser_reposter.py: the photo URLs of a listing and
    the `RepostItemData` record built from a listing and its detailed view. */
module BrowserReposter {
  import opened Wrappers
  import opened Text
  import opened Dicts
  import opened Json

  /** The keys a photo's own URL is looked up under, in priority order. */
  const UrlKeys: seq<string> := ["full_size_url", "url", "image_url", "original_url", "original"]
  /** The formats tried, largest first, when a photo has no URL of its own. */
  const FormatKeys: seq<string> := ["xxl", "xl", "l", "m", "original"]

  /** `d.get(k1) or d.get(k2) or …`: the first truthy value, or the last
      key's value when none is truthy. */
  function FirstTruthy(d: Dict<Json>, keys: seq<string>): (r: Json)
    requires |keys| >= 1
    ensures Truthy(r) ==> exists i :: 0 <= i < |keys| && r == Get(d, keys[i]) &&
                            forall j :: 0 <= j < i ==> !Truthy(Get(d, keys[j]))
    ensures !Truthy(r) ==> r == Get(d, keys[|keys| - 1]) &&
                            forall j :: 0 <= j < |keys| ==> !Truthy(Get(d, keys[j]))
  {
    if |keys| == 1 || Truthy(Get(d, keys[0])) then Get(d, keys[0])
    else
      var r := FirstTruthy(d, keys[1..]);
      assert Truthy(r) ==> exists i :: 0 <= i < |keys| && r == Get(d, keys[i]) &&
                            forall j :: 0 <= j < i ==> !Truthy(Get(d, keys[j])) by {
        if Truthy(r) {
          var i :| 0 <= i < |keys[1..]| && r == Get(d, keys[1..][i]) &&
                   forall j :: 0 <= j < i ==> !Truthy(Get(d, keys[1..][j]));
          assert forall j :: 0 <= j < i + 1 ==> !Truthy(Get(d, keys[j])) by {
            forall j | 0 <= j < i + 1 ensures !Truthy(Get(d, keys[j])) {
              if j > 0 { assert keys[j] == keys[1..][j - 1]; }
            }
          }
        }
      }
      r
  }

  /** The format loop of `_extract_photo_urls` (browser_reposter.py:147-151):
      every dict format in `keys` order replaces `u` by its `url`, stopping at
      the first truthy one. */
  function FormatUrl(fmts: Dict<Json>, keys: seq<string>, u: Json): Json
  {
    if keys == [] then u
    else
      var f := Get(fmts, keys[0]);
      if f.Obj? then
        var v := Get(f.fields, "url");
        if Truthy(v) then v else FormatUrl(fmts, keys[1..], v)
      else FormatUrl(fmts, keys[1..], u)
  }

  /** The format loop takes the `url` of the first format, in order, that is a
      dict with a truthy `url`. */
  lemma {:induction false} FormatUrlFirst(fmts: Dict<Json>, keys: seq<string>, u: Json, i: nat)
    requires i < |keys| && Get(fmts, keys[i]).Obj? && Truthy(Get(Get(fmts, keys[i]).fields, "url"))
    requires forall j :: 0 <= j < i ==>
      !(Get(fmts, keys[j]).Obj? && Truthy(Get(Get(fmts, keys[j]).fields, "url")))
    ensures FormatUrl(fmts, keys, u) == Get(Get(fmts, keys[i]).fields, "url")
  {
    if i > 0 {
      var f := Get(fmts, keys[0]);
      var u' := if f.Obj? then Get(f.fields, "url") else u;
      FormatUrlFirst(fmts, keys[1..], u', i - 1);
    }
  }

  /** The URL value chosen for one photo (the `u` of browser_reposter.py:141-151);
      a photo that is not a dict has no `get`. */
  function PhotoUrl(p: Json): (r: Result<Json>)
    ensures r.Ok? <==> p.Obj?
  {
    if !p.Obj? then Err(WrongType)
    else
      var u := FirstTruthy(p.fields, UrlKeys);
      var formats := Get(p.fields, "formats");
      if !Truthy(u) && formats.Obj? then Ok(FormatUrl(formats.fields, FormatKeys, u)) else Ok(u)
  }

  /** A photo's own URL key wins over its formats: the first truthy of
      full_size_url, url, image_url, original_url, original. */
  lemma PhotoUrlPrefersOwnKeys(p: Json, i: nat)
    requires p.Obj? && i < |UrlKeys| && Truthy(Get(p.fields, UrlKeys[i]))
    requires forall j :: 0 <= j < i ==> !Truthy(Get(p.fields, UrlKeys[j]))
    ensures PhotoUrl(p) == Ok(Get(p.fields, UrlKeys[i]))
  {
    var u := FirstTruthy(p.fields, UrlKeys);
    var k :| 0 <= k < |UrlKeys| && u == Get(p.fields, UrlKeys[k]) &&
             forall j :: 0 <= j < k ==> !Truthy(Get(p.fields, UrlKeys[j]));
    assert k == i;
  }

  /** Without a truthy URL key, the first of xxl, xl, l, m, original that is a
      dict with a truthy `url` gives the photo's URL. */
  lemma PhotoUrlFromFormats(p: Json, i: nat)
    requires p.Obj? && forall j :: 0 <= j < |UrlKeys| ==> !Truthy(Get(p.fields, UrlKeys[j]))
    requires Get(p.fields, "formats").Obj?
    requires var fmts := Get(p.fields, "formats").fields;
      i < |FormatKeys| && Get(fmts, FormatKeys[i]).Obj? && Truthy(Get(Get(fmts, FormatKeys[i]).fields, "url")) &&
      forall j :: 0 <= j < i ==>
        !(Get(fmts, FormatKeys[j]).Obj? && Truthy(Get(Get(fmts, FormatKeys[j]).fields, "url")))
    ensures PhotoUrl(p) == Ok(Get(Get(Get(p.fields, "formats").fields, FormatKeys[i]).fields, "url"))
  {
    var u := FirstTruthy(p.fields, UrlKeys);
    FormatUrlFirst(Get(p.fields, "formats").fields, FormatKeys, u, i);
  }

  /** The list `_extract_photo_urls` iterates: `photos` when truthy, else
      `item_photos` when truthy, else `[]`. */
  function PhotoList(item: Dict<Json>): (r: Json)
    ensures Truthy(Get(item, "photos")) ==> r == Get(item, "photos")
    ensures !Truthy(Get(item, "photos")) && Truthy(Get(item, "item_photos")) ==> r == Get(item, "item_photos")
    ensures !Truthy(Get(item, "photos")) && !Truthy(Get(item, "item_photos")) ==> r == Arr([])
  {
    Or(Or(Get(item, "photos"), Get(item, "item_photos")), Arr([]))
  }

  /** The string URLs of `photos`, in photo order. */
  function UrlsOf(photos: seq<Json>): (r: Result<seq<string>>)
    ensures r.Ok? ==> |r.value| <= |photos|
    ensures r.Ok? <==> forall i :: 0 <= i < |photos| ==> photos[i].Obj?
    ensures r.Err? ==> r == Err(WrongType)
  {
    if photos == [] then Ok([])
    else
      match PhotoUrl(photos[|photos| - 1])
      case Err(f) =>
        Err(f)
      case Ok(u) =>
        var init := UrlsOf(photos[..|photos| - 1]);
        if init.Err? then init
        else Ok(init.value + if u.Str? then [u.s] else [])
  }

  /** `_extract_photo_urls`: the URLs of a listing's photos; a list element
      that is not a dict raises. */
  function PhotoUrls(item: Dict<Json>): Result<seq<string>>
  {
    var photos := PhotoList(item);
    if photos.Arr? then UrlsOf(photos.items) else Ok([])
  }

  /** Each photo contributes its URL exactly when that URL is a string, so
      the list follows photo order. */
  lemma {:induction false} UrlsOfAppend(photos: seq<Json>, p: Json)
    requires UrlsOf(photos).Ok? && PhotoUrl(p).Ok?
    ensures UrlsOf(photos + [p]).Ok?
    ensures UrlsOf(photos + [p]).value ==
      UrlsOf(photos).value + if PhotoUrl(p).value.Str? then [PhotoUrl(p).value.s] else []
  {
    assert (photos + [p])[..|photos|] == photos;
  }

  /** `_extract_photo_urls` as written: a loop over the photos with the inner
      loop over formats. */
  method ExtractPhotoUrls(item: Dict<Json>) returns (r: Result<seq<string>>)
    ensures r == PhotoUrls(item)
  {
    var urls: seq<string> := [];
    var photos := PhotoList(item);
    if !photos.Arr? {
      return Ok([]);
    }
    var i := 0;
    while i < |photos.items|
      invariant 0 <= i <= |photos.items|
      invariant UrlsOf(photos.items[..i]).Ok? && UrlsOf(photos.items[..i]).value == urls
    {
      var next := NextUrls(photos.items, i, urls);
      if next.Err? {
        PrefixErr(photos.items, i + 1);
        return Err(WrongType);
      }
      urls := next.value;
      i := i + 1;
    }
    assert photos.items[..i] == photos.items;
    r := Ok(urls);
  }

  /** One turn of the photo loop: photo `i` raises when it is not a dict, and
      otherwise adds its URL when that is a string. */
  method NextUrls(photos: seq<Json>, i: nat, urls: seq<string>) returns (next: Result<seq<string>>)
    requires i < |photos|
    requires UrlsOf(photos[..i]).Ok? && UrlsOf(photos[..i]).value == urls
    ensures next == UrlsOf(photos[..i + 1])
  {
    var p := photos[i];
    TakeSnoc(photos, i);
    if !p.Obj? {
      assert !photos[..i + 1][i].Obj?;
      assert UrlsOf(photos[..i + 1]).Err?;
      return Err(WrongType);
    }
    var u := PhotoUrlOf(p);
    UrlsOfAppend(photos[..i], p);
    var after := UrlsOf(photos[..i + 1]);
    assert after.Ok? && after.value == urls + if u.Str? then [u.s] else [];
    if u.Str? {
      next := Ok(urls + [u.s]);
    } else {
      assert urls + [] == urls;
      next := Ok(urls);
    }
  }

  /** The URL chosen for one dict photo, with the loop over its formats. */
  method PhotoUrlOf(p: Json) returns (u: Json)
    requires p.Obj?
    ensures PhotoUrl(p) == Ok(u)
  {
    u := FirstTruthy(p.fields, UrlKeys);
    var formats := Get(p.fields, "formats");
    if !Truthy(u) && formats.Obj? {
      var keys := FormatKeys;
      ghost var u0 := u;
      while keys != []
        invariant FormatUrl(formats.fields, FormatKeys, u0) == FormatUrl(formats.fields, keys, u)
        decreases |keys|
      {
        var f := Get(formats.fields, keys[0]);
        if f.Obj? {
          u := Get(f.fields, "url");
          if Truthy(u) {
            break;
          }
        }
        keys := keys[1..];
      }
    }
  }

  /** A failing prefix makes the whole list fail. */
  lemma PrefixErr(photos: seq<Json>, n: nat)
    requires n <= |photos| && UrlsOf(photos[..n]).Err?
    ensures UrlsOf(photos).Err?
  {
    var i :| 0 <= i < n && !photos[..n][i].Obj?;
    assert !photos[i].Obj?;
  }

  /** A photo whose only URL key holds an empty string contributes that empty
      string: only the type of the chosen value is checked. */
  lemma EmptyUrlIsKept()
    ensures PhotoUrls([("photos", Arr([Obj([("original", Str(""))])]))]) == Ok([""])
  {
    var p := Obj([("original", Str(""))]);
    var item := [("photos", Arr([p]))];
    assert Get(item, "photos") == Arr([p]);
    assert PhotoList(item) == Arr([p]);
    assert Get(p.fields, "formats") == Null;
    assert forall j :: 0 <= j < |UrlKeys| ==> !Truthy(Get(p.fields, UrlKeys[j]));
    assert Get(p.fields, UrlKeys[4]) == Str("");
    assert FirstTruthy(p.fields, UrlKeys) == Str("");
    assert PhotoUrl(p) == Ok(Str(""));
    assert [p][..0] == [];
    assert UrlsOf([p]) == Ok([] + [""]);
    assert [] + [""] == [""];
    assert PhotoUrls(item) == UrlsOf([p]);
  }

  // ---------------------------------------------------------------------------
  // collect_item_data

  /** `RepostItemData`. Fields other than the id and the photo URLs keep the
      JSON value they were read as (None is `Null`). */
  datatype RepostItemData = RepostItemData(
    itemId: int,
    title: Json,
    description: Json,
    price: Json,
    currency: Json,
    brand: Json,
    brandId: Json,
    sizeId: Json,
    catalogId: Json,
    statusId: Json,
    colorIds: Json,
    photoUrls: seq<string>)

  /** `{**base, **detailed}`: the detailed view's keys override the listing's. */
  function MergedSource(base: Dict<Json>, detailed: Dict<Json>): Dict<Json>
  {
    PutAll(base, detailed)
  }

  lemma MergedSourcePrefersDetailed(base: Dict<Json>, detailed: Dict<Json>, k: string)
    requires UniqueKeys(detailed)
    ensures k in Keys(detailed) ==> Get(MergedSource(base, detailed), k) == Get(detailed, k)
    ensures k !in Keys(detailed) ==> Get(MergedSource(base, detailed), k) == Get(base, k)
  {
    LookupPutAll(base, detailed, k);
    LastValueUnique(detailed, k);
  }

  /** The price and currency `collect_item_data` settles on before the final
      numeric check (browser_reposter.py:160-173). `parseFloat` is Python's
      `float` on a string, None for a ValueError. */
  function PriceAndCurrency(src: Dict<Json>, parseFloat: string -> Option<real>): (Json, Json)
  {
    var amount0 := Get(src, "price_numeric");
    var currency0 := Or(Get(src, "price_currency"), Get(src, "currency"));
    var p := Get(src, "price");
    var (amount1, currency1) :=
      if !amount0.Null? then (amount0, currency0)
      else if p.Obj? then (Get(p.fields, "amount"), Or(currency0, Get(p.fields, "currency_code")))
      else if IsNumber(p) then (p, currency0)
      else (amount0, currency0);
    var amount2 :=
      if amount1.Str? then
        match parseFloat(ReplaceAll(amount1.s, ',', ".")) case Some(x) => Float(x) case None => Null
      else amount1;
    (amount2, currency1)
  }

  /** `collect_item_data`: the merged source read into a `RepostItemData`.
      `int(src['id'])` raises on a missing or malformed id, and the photo
      extraction raises on a photo that is not a dict. */
  function CollectItemData(base: Dict<Json>, detailed: Dict<Json>, parseFloat: string -> Option<real>)
    : (r: Result<RepostItemData>)
    ensures var src := MergedSource(base, detailed);
      r.Ok? <==> ToInt(Get(src, "id")).Ok? && PhotoUrls(src).Ok?
    ensures r.Ok? ==> var src := MergedSource(base, detailed);
      r.value.itemId == ToInt(Get(src, "id")).value &&
      r.value.photoUrls == PhotoUrls(src).value &&
      (r.value.price.Null? || IsNumber(r.value.price)) &&
      r.value.title == Or(Get(src, "title"), Str("")) &&
      r.value.description == Or(Get(src, "description"), Str("")) &&
      r.value.colorIds == Or(Get(src, "color_ids"), Arr([]))
    ensures r.Ok? ==> var src := MergedSource(base, detailed);
      var pc := PriceAndCurrency(src, parseFloat);
      r.value.price == (if IsNumber(pc.0) then pc.0 else Null) &&
      r.value.currency == pc.1 &&
      r.value.brand == Or(Get(src, "brand_title"), Get(src, "brand")) &&
      r.value.brandId == Get(src, "brand_id") && r.value.sizeId == Get(src, "size_id") &&
      r.value.catalogId == Get(src, "catalog_id") && r.value.statusId == Get(src, "status_id")
  {
    var src := MergedSource(base, detailed);
    var (amount, currency) := PriceAndCurrency(src, parseFloat);
    match ToInt(Get(src, "id"))
    case Err(f) => Err(f)
    case Ok(id) =>
      match PhotoUrls(src)
      case Err(f) => Err(f)
      case Ok(urls) =>
        Ok(RepostItemData(
          itemId := id,
          title := Or(Get(src, "title"), Str("")),
          description := Or(Get(src, "description"), Str("")),
          price := if IsNumber(amount) then amount else Null,
          currency := currency,
          brand := Or(Get(src, "brand_title"), Get(src, "brand")),
          brandId := Get(src, "brand_id"),
          sizeId := Get(src, "size_id"),
          catalogId := Get(src, "catalog_id"),
          statusId := Get(src, "status_id"),
          colorIds := Or(Get(src, "color_ids"), Arr([])),
          photoUrls := urls))
  }

  /** The price priority: a non-None `price_numeric`, else the `amount` of a
      dict `price` (currency falling back to its `currency_code`), else a
      numeric `price`; a string amount is parsed with `,` read as `.`, and a
      bare string `price` is never used. */
  lemma PricePriority(src: Dict<Json>, parseFloat: string -> Option<real>)
    ensures var (amount, currency) := PriceAndCurrency(src, parseFloat);
      var numeric := Get(src, "price_numeric");
      var p := Get(src, "price");
      var currency0 := Or(Get(src, "price_currency"), Get(src, "currency"));
      (IsNumber(numeric) ==> amount == numeric && currency == currency0) &&
      (numeric.Null? && p.Obj? && IsNumber(Get(p.fields, "amount")) ==>
         amount == Get(p.fields, "amount") && currency == Or(currency0, Get(p.fields, "currency_code"))) &&
      (numeric.Null? && IsNumber(p) ==> amount == p) &&
      (numeric.Null? && p.Str? ==> amount.Null?) &&
      (numeric.Str? ==> amount == match parseFloat(ReplaceAll(numeric.s, ',', "."))
                                  case Some(x) => Float(x) case None => Null)
  {
  }

  /** A price with a decimal comma is parsed as with a decimal point. */
  lemma DecimalCommaPrice(src: Dict<Json>, parseFloat: string -> Option<real>, whole: string, frac: string)
    requires ',' !in whole && ',' !in frac
    requires Get(src, "price_numeric") == Str(whole + "," + frac)
    ensures PriceAndCurrency(src, parseFloat).0 ==
      match parseFloat(whole + "." + frac) case Some(x) => Float(x) case None => Null
  {
    assert whole + "," + frac == whole + ("," + frac);
    ReplaceAllAppend(whole, "," + frac, ',', ".");
    ReplaceAllAppend(",", frac, ',', ".");
    assert ReplaceAll(",", ',', ".") == "." + ReplaceAll("", ',', ".");
    assert whole + "." + frac == whole + ("." + frac);
  }
}
