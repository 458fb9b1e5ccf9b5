/** The data decisions of the command line (cli.py): the price shown for a
    listing, the enrichment of listings from the item and editor endpoints,
    and the source and price the repost is built from. The endpoints are the
    parameters `fetchItem` and `fetchEditor`: the parsed body of
    `get_item(id)` / `get_item_upload_details(id, csrf)`, or the exception. */
module Cli {
  import opened Wrappers
  import opened Dicts
  import opened Json
  import BrowserReposter

  /** `_extract_price_currency`: the amount and currency shown for a listing. */
  function ExtractPriceCurrency(item: Dict<Json>): (Json, Json)
  {
    var amount := Get(item, "price_numeric");
    var currency := Or(Get(item, "price_currency"), Get(item, "currency"));
    var p := Get(item, "price");
    if !amount.Null? then (amount, currency)
    else if p.Obj? then (Get(p.fields, "amount"), Or(currency, Get(p.fields, "currency_code")))
    else if IsNumber(p) || p.Str? then (p, currency)
    else (amount, currency)
  }

  /** `price_numeric` first; then the `amount` of a dict `price`, the currency
      falling back to its `currency_code`; then a numeric or string `price`
      unchanged; the currency is otherwise `price_currency` or `currency`. */
  lemma ExtractPriceCurrencyPriority(item: Dict<Json>)
    ensures var (amount, currency) := ExtractPriceCurrency(item);
      var numeric := Get(item, "price_numeric");
      var p := Get(item, "price");
      var currency0 := Or(Get(item, "price_currency"), Get(item, "currency"));
      (!numeric.Null? ==> amount == numeric && currency == currency0) &&
      (numeric.Null? && p.Obj? ==>
         amount == Get(p.fields, "amount") && currency == Or(currency0, Get(p.fields, "currency_code"))) &&
      (numeric.Null? && (IsNumber(p) || p.Str?) ==> amount == p && currency == currency0) &&
      (numeric.Null? && !p.Obj? && !IsNumber(p) && !p.Str? ==> amount.Null? && currency == currency0)
  {
  }

  /** The table and the item normaliser resolve price and currency alike,
      except that the table passes a string amount through unparsed. */
  lemma TableAgreesWithNormaliser(item: Dict<Json>, parseFloat: string -> Option<real>)
    requires !ExtractPriceCurrency(item).0.Str?
    ensures BrowserReposter.PriceAndCurrency(item, parseFloat) == ExtractPriceCurrency(item)
  {
  }

  /** A bare string price is shown as it is but never resolved by the normaliser. */
  lemma StringPriceDiffers(item: Dict<Json>, parseFloat: string -> Option<real>)
    requires Get(item, "price_numeric").Null? && Get(item, "price").Str?
    ensures ExtractPriceCurrency(item).0 == Get(item, "price")
    ensures BrowserReposter.PriceAndCurrency(item, parseFloat).0.Null?
  {
  }

  // ---------------------------------------------------------------------------
  // Enrichment (cli.py:177-203)

  const StatKeys: seq<string> := ["favorite_count", "favourite_count", "view_count", "views"]
  const DateKeys: seq<string> := ["created_at", "created_at_ts"]
  /** The keys copied from the item endpoint, in the order they are copied. */
  const DetailKeys: seq<string> := StatKeys + DateKeys

  /** `any(k in it for k in keys)`. */
  predicate HasAny(it: Dict<Json>, keys: seq<string>)
  {
    exists i :: 0 <= i < |keys| && keys[i] in Keys(it)
  }

  /** `it[k] = det[k]` for every key of `keys`, in order, whose detail value is
      not None. */
  function CopyDetails(it: Dict<Json>, det: Dict<Json>, keys: seq<string>): Dict<Json>
  {
    if keys == [] then it
    else
      var copied := CopyDetails(it, det, keys[..|keys| - 1]);
      var k := keys[|keys| - 1];
      if Get(det, k) != Null then Put(copied, k, Get(det, k)) else copied
  }

  /** After the copy a key holds the detail value when it is one of `keys` with
      a non-None detail value, and its old value otherwise. */
  lemma {:induction false} CopyDetailsLookup(it: Dict<Json>, det: Dict<Json>, keys: seq<string>, k: string)
    ensures Lookup(CopyDetails(it, det, keys), k) ==
      if k in keys && Get(det, k) != Null then Some(Get(det, k)) else Lookup(it, k)
    ensures Keys(it) <= Keys(CopyDetails(it, det, keys))
    decreases |keys|
  {
    if keys != [] {
      var init := keys[..|keys| - 1];
      CopyDetailsLookup(it, det, init, k);
      assert keys == init + [keys[|keys| - 1]];
    }
  }

  /** The copy loop of cli.py:185-187. */
  method CopyNonNull(it: Dict<Json>, det: Dict<Json>) returns (r: Dict<Json>)
    ensures r == CopyDetails(it, det, DetailKeys)
  {
    r := it;
    for i := 0 to |DetailKeys|
      invariant r == CopyDetails(it, det, DetailKeys[..i])
    {
      var k := DetailKeys[i];
      assert DetailKeys[..i + 1][..i] == DetailKeys[..i];
      if Get(det, k) != Null {
        r := Put(r, k, Get(det, k));
      }
    }
    assert DetailKeys[..|DetailKeys|] == DetailKeys;
  }

  /** cli.py:178-189: when the listing lacks every stat key or every date key,
      the item endpoint is asked; any exception (a bad id, an HTTP error, a
      body that is not JSON) leaves the listing as it was. */
  function WithItemDetails(it: Dict<Json>, fetchItem: int -> Result<Json>): Dict<Json>
  {
    if !HasAny(it, StatKeys) || !HasAny(it, DateKeys) then
      match ToInt(Get(it, "id"))
      case Err(_) => it
      case Ok(id) =>
        match fetchItem(id)
        case Ok(Obj(det)) => CopyDetails(it, det, DetailKeys)
        case _ => it
    else it
  }

  /** cli.py:191-202: with a CSRF token and still no date key, the editor
      payload supplies its nested `item.created_at` (only when the listing has
      no `created_at`) and its own non-None `created_at_ts`. */
  function WithEditorDates(it: Dict<Json>, csrfTruthy: bool, fetchEditor: int -> Result<Json>): Dict<Json>
  {
    if !HasAny(it, DateKeys) && csrfTruthy then
      match ToInt(Get(it, "id"))
      case Err(_) => it
      case Ok(id) =>
        match fetchEditor(id)
        case Ok(Obj(ed)) =>
          (match GetIn(Or(Get(ed, "item"), Obj([])), "created_at")
           case Err(_) => it
           case Ok(nested) =>
             var withCreated := if Truthy(nested) && "created_at" !in Keys(it) then Put(it, "created_at", nested) else it;
             if Get(ed, "created_at_ts") != Null then Put(withCreated, "created_at_ts", Get(ed, "created_at_ts"))
             else withCreated)
        case _ => it
    else it
  }

  /** One listing after both enrichment steps. */
  function Enriched(it: Dict<Json>, csrfTruthy: bool, fetchItem: int -> Result<Json>,
                    fetchEditor: int -> Result<Json>): Dict<Json>
  {
    WithEditorDates(WithItemDetails(it, fetchItem), csrfTruthy, fetchEditor)
  }

  /** What enrichment changes: only the six stat and date keys, never removing
      a key; a listing that has a stat key and a date key is left alone. */
  lemma EnrichedChangesOnlyDetailKeys(it: Dict<Json>, csrfTruthy: bool, fetchItem: int -> Result<Json>,
                                      fetchEditor: int -> Result<Json>, k: string)
    ensures k !in DetailKeys ==> Lookup(Enriched(it, csrfTruthy, fetchItem, fetchEditor), k) == Lookup(it, k)
    ensures Keys(it) <= Keys(Enriched(it, csrfTruthy, fetchItem, fetchEditor))
    ensures HasAny(it, StatKeys) && HasAny(it, DateKeys) ==> Enriched(it, csrfTruthy, fetchItem, fetchEditor) == it
  {
    var step := WithItemDetails(it, fetchItem);
    match ToInt(Get(it, "id"))
    case Err(_) =>
    case Ok(id) =>
      match fetchItem(id)
      case Ok(Obj(det)) => CopyDetailsLookup(it, det, DetailKeys, k);
      case _ =>
  }

  /** The item endpoint's value is taken for a detail key exactly when it is
      not None; the editor's nested `created_at` is taken only when the
      listing still has no `created_at`. */
  lemma EnrichedDetailRules(it: Dict<Json>, csrfTruthy: bool, fetchItem: int -> Result<Json>,
                            fetchEditor: int -> Result<Json>, k: string)
    requires k in DetailKeys
    ensures var step := WithItemDetails(it, fetchItem);
      (Lookup(step, k) != Lookup(it, k) ==>
         exists det :: fetchItem(ToInt(Get(it, "id")).value) == Ok(Obj(det)) &&
                       Get(det, k) != Null && Lookup(step, k) == Some(Get(det, k)))
    ensures var step := WithItemDetails(it, fetchItem);
      var r := Enriched(it, csrfTruthy, fetchItem, fetchEditor);
      Lookup(r, "created_at") != Lookup(step, "created_at") ==>
        csrfTruthy && "created_at" !in Keys(step) && Truthy(Get(r, "created_at"))
    ensures var step := WithItemDetails(it, fetchItem);
      var r := Enriched(it, csrfTruthy, fetchItem, fetchEditor);
      Lookup(r, "created_at_ts") != Lookup(step, "created_at_ts") ==>
        csrfTruthy && !HasAny(step, DateKeys) && ToInt(Get(step, "id")).Ok? &&
        exists ed :: fetchEditor(ToInt(Get(step, "id")).value) == Ok(Obj(ed)) &&
                     Get(ed, "created_at_ts") != Null && Lookup(r, "created_at_ts") == Some(Get(ed, "created_at_ts"))
  {
    match ToInt(Get(it, "id")) {
      case Err(_) =>
      case Ok(id) =>
        match fetchItem(id)
        case Ok(Obj(det)) => CopyDetailsLookup(it, det, DetailKeys, k);
        case _ =>
    }
    EditorTimestampRule(WithItemDetails(it, fetchItem), csrfTruthy, fetchEditor);
  }

  /** The editor step changes `created_at_ts` only with a token, on a listing
      with no date key and an integer id, to the editor payload's non-None
      `created_at_ts`. */
  lemma EditorTimestampRule(step: Dict<Json>, csrfTruthy: bool, fetchEditor: int -> Result<Json>)
    ensures var r := WithEditorDates(step, csrfTruthy, fetchEditor);
      Lookup(r, "created_at_ts") != Lookup(step, "created_at_ts") ==>
        csrfTruthy && !HasAny(step, DateKeys) && ToInt(Get(step, "id")).Ok? &&
        exists ed :: fetchEditor(ToInt(Get(step, "id")).value) == Ok(Obj(ed)) &&
                     Get(ed, "created_at_ts") != Null && Lookup(r, "created_at_ts") == Some(Get(ed, "created_at_ts"))
  {
    assert "created_at" != "created_at_ts" by { assert |"created_at"| != |"created_at_ts"|; }
    if !HasAny(step, DateKeys) && csrfTruthy {
      match ToInt(Get(step, "id"))
      case Err(_) =>
      case Ok(id) =>
        match fetchEditor(id)
        case Ok(Obj(ed)) =>
        case _ =>
    }
  }

  /** The listings as dicts, or the error that stops the command. A number,
      a boolean or None among the listings fails `k in it` (cli.py:178); a
      string or a list gets through the enrichment loop, whose `.get` calls
      sit inside `try`, but the sort key's `item.get` (cli.py:39) is outside
      any, and `list.sort` computes the key of every element. */
  function DictListings(items: seq<Json>): (r: Result<seq<Dict<Json>>>)
    ensures r.Ok? <==> forall i :: 0 <= i < |items| ==> items[i].Obj?
    ensures r.Ok? ==> |r.value| == |items| && forall i :: 0 <= i < |items| ==> r.value[i] == items[i].fields
  {
    if items == [] then Ok([])
    else if !items[0].Obj? then Err(WrongType)
    else
      match DictListings(items[1..])
      case Err(f) =>
        var j :| 0 <= j < |items[1..]| && !items[1..][j].Obj?;
        assert !items[j + 1].Obj?;
        Err(f)
      case Ok(rest) => Ok([items[0].fields] + rest)
  }

  /** The enrichment loop of cli.py:177-203, appending each listing. */
  method EnrichAll(items: seq<Dict<Json>>, csrfTruthy: bool, fetchItem: int -> Result<Json>,
                   fetchEditor: int -> Result<Json>) returns (enriched: seq<Dict<Json>>)
    ensures |enriched| == |items|
    ensures forall i :: 0 <= i < |items| ==> enriched[i] == Enriched(items[i], csrfTruthy, fetchItem, fetchEditor)
  {
    enriched := [];
    for n := 0 to |items|
      invariant |enriched| == n
      invariant forall i :: 0 <= i < n ==> enriched[i] == Enriched(items[i], csrfTruthy, fetchItem, fetchEditor)
    {
      var it := items[n];
      if !HasAny(it, StatKeys) || !HasAny(it, DateKeys) {
        var id := ToInt(Get(it, "id"));
        if id.Ok? {
          var det := fetchItem(id.value);
          if det.Ok? && det.value.Obj? {
            it := CopyNonNull(it, det.value.fields);
          }
        }
      }
      it := WithEditorDates(it, csrfTruthy, fetchEditor);
      enriched := enriched + [it];
    }
  }

  // ---------------------------------------------------------------------------
  // The repost source (cli.py:259-282)

  /** `{**item, **details, **(details.get('item') or {})}`: the editor payload
      overrides the listing and its nested `item` overrides both. Editor
      details that are not a dict raise (`**` on a truthy one, `.get` on any). */
  function MergeSource(item: Dict<Json>, details: Json): (r: Result<Dict<Json>>)
    ensures r.Ok? ==> details.Obj?
    ensures r.Ok? <==> details.Obj? && Or(Get(details.fields, "item"), Obj([])).Obj?
  {
    if !details.Obj? then Err(WrongType)
    else
      var inner := Or(Get(details.fields, "item"), Obj([]));
      if !inner.Obj? then Err(WrongType)
      else Ok(PutAll(PutAll(item, details.fields), inner.fields))
  }

  /** A key is read from the nested `item` first, then from the editor payload,
      then from the listing. */
  lemma MergeSourcePrecedence(item: Dict<Json>, details: Dict<Json>, inner: Dict<Json>, k: string)
    requires UniqueKeys(details) && UniqueKeys(inner)
    requires Or(Get(details, "item"), Obj([])) == Obj(inner)
    ensures MergeSource(item, Obj(details)) == Ok(PutAll(PutAll(item, details), inner))
    ensures var src := PutAll(PutAll(item, details), inner);
      Get(src, k) == if k in Keys(inner) then Get(inner, k)
                     else if k in Keys(details) then Get(details, k)
                     else Get(item, k)
  {
    LookupPutAll(PutAll(item, details), inner, k);
    LookupPutAll(item, details, k);
    LastValueUnique(details, k);
    LastValueUnique(inner, k);
  }

  /** The price and currency of the repost (cli.py:269-282): `price_numeric`
      when not None; else `float` of a dict price's non-None `amount` (None when
      that raises), or a numeric `price`. The currency falls back to the dict
      price's `currency_code` only when the first choice is None. */
  function RepostPrice(src: Dict<Json>, parseFloat: string -> Option<real>): (Json, Json)
  {
    var numeric := Get(src, "price_numeric");
    var p := Get(src, "price");
    var priceVal :=
      if !numeric.Null? then numeric
      else if p.Obj? then
        (var amount := Get(p.fields, "amount");
         if amount.Null? then Null
         else match ToFloat(amount, parseFloat) case Some(x) => Float(x) case None => Null)
      else if IsNumber(p) then p
      else Null;
    var currency0 := Or(Get(src, "price_currency"), Get(src, "currency"));
    var currency := if currency0.Null? && p.Obj? then Get(p.fields, "currency_code") else currency0;
    (priceVal, currency)
  }

  /** Unlike the listing table, the repost never takes a bare string `price`,
      and a dict price's amount is turned into a float. */
  lemma RepostPriceRules(src: Dict<Json>, parseFloat: string -> Option<real>)
    ensures var (priceVal, _) := RepostPrice(src, parseFloat);
      var numeric := Get(src, "price_numeric");
      var p := Get(src, "price");
      (!numeric.Null? ==> priceVal == numeric) &&
      (numeric.Null? && p.Str? ==> priceVal == Null) &&
      (numeric.Null? && p.Obj? && IsNumber(Get(p.fields, "amount")) ==>
         priceVal == Float(NumValue(Get(p.fields, "amount")))) &&
      (numeric.Null? ==> priceVal == Null || IsNumber(priceVal))
    ensures var (priceVal, _) := RepostPrice(src, parseFloat);
      var numeric := Get(src, "price_numeric");
      var p := Get(src, "price");
      (numeric.Null? && !p.Obj? && IsNumber(p) ==> priceVal == p) &&
      (numeric.Null? && !p.Obj? && !IsNumber(p) ==> priceVal == Null) &&
      (numeric.Null? && p.Obj? ==>
         var amount := Get(p.fields, "amount");
         (amount.Null? ==> priceVal == Null) &&
         (amount.Str? ==> priceVal == match parseFloat(amount.s) case Some(x) => Float(x) case None => Null) &&
         (!amount.Null? && !amount.Str? && !IsNumber(amount) ==> priceVal == Null))
    ensures var (_, currency) := RepostPrice(src, parseFloat);
      var currency0 := Or(Get(src, "price_currency"), Get(src, "currency"));
      var p := Get(src, "price");
      (!currency0.Null? ==> currency == currency0) &&
      (currency0.Null? && p.Obj? ==> currency == Get(p.fields, "currency_code")) &&
      (currency0.Null? && !p.Obj? ==> currency == Null)
  {
  }

  /** The repost falls back to `currency_code` only when the currency is None
      (cli.py:280-282), while `collect_item_data` falls back when it is falsy
      (browser_reposter.py:161-166): an empty `currency` beside a dict price
      separates them. */
  lemma CurrencyFallbacksDiffer(src: Dict<Json>, parseFloat: string -> Option<real>)
    requires Get(src, "price_numeric").Null? && Get(src, "price").Obj?
    requires !Truthy(Get(src, "price_currency")) && Get(src, "currency") == Str("")
    ensures RepostPrice(src, parseFloat).1 == Str("")
    ensures BrowserReposter.PriceAndCurrency(src, parseFloat).1 == Get(Get(src, "price").fields, "currency_code")
  {
  }
}
