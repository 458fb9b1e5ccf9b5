/** The repost request the command line builds (cli.py:336-385): the item
    payload with its defaults, the prompts for missing ids, and the gate on
    offering to delete the original; and the listing selection
    (cli.py:214-226). What the user types is the parameter `answer`. */
module CliPayload {
  import opened Wrappers
  import opened Text
  import opened Dicts
  import opened Json
  import CliPhotos

  /** The `item` part of the payload (cli.py:337-361) as a record. */
  datatype Draft = Draft(
    id: Json, currency: Json, tempUuid: Json, title: Json, description: Json,
    brandId: Json, brand: Json, sizeId: Json, catalogId: Json, isbn: Json,
    isUnisex: Json, statusId: Json, videoGameRatingId: Json, price: Json,
    packageSizeId: Json, shipmentPrices: Json, colorIds: Json, assignedPhotos: Json,
    measurementLength: Json, measurementWidth: Json, itemAttributes: Json,
    manufacturer: Json, manufacturerLabelling: Json)

  /** The record as the dict sent, in the source's key order. */
  function ItemDict(d: Draft): Dict<Json>
  {
    [("id", d.id), ("currency", d.currency), ("temp_uuid", d.tempUuid), ("title", d.title),
     ("description", d.description), ("brand_id", d.brandId), ("brand", d.brand),
     ("size_id", d.sizeId), ("catalog_id", d.catalogId), ("isbn", d.isbn),
     ("is_unisex", d.isUnisex), ("status_id", d.statusId),
     ("video_game_rating_id", d.videoGameRatingId), ("price", d.price),
     ("package_size_id", d.packageSizeId), ("shipment_prices", d.shipmentPrices),
     ("color_ids", d.colorIds), ("assigned_photos", d.assignedPhotos),
     ("measurement_length", d.measurementLength), ("measurement_width", d.measurementWidth),
     ("item_attributes", d.itemAttributes), ("manufacturer", d.manufacturer),
     ("manufacturer_labelling", d.manufacturerLabelling)]
  }

  /** The draft built from the merged source, the resolved currency and price,
      the fresh upload session id and the assigned photos. */
  function DraftOf(src: Dict<Json>, currency: Json, priceVal: Json, uuid: string, photos: seq<Json>): (d: Draft)
    ensures d.currency == (if Truthy(currency) then currency else Str("EUR"))
    ensures d.price == (if Truthy(priceVal) then priceVal else Int(0))
    ensures Truthy(d.statusId) && (Truthy(Get(src, "status_id")) ==> d.statusId == Get(src, "status_id"))
    ensures !Truthy(Get(src, "status_id")) ==> d.statusId == Int(1)
    ensures d.packageSizeId == (if Truthy(Get(src, "package_size_id")) then Get(src, "package_size_id") else Int(1))
    ensures Truthy(d.packageSizeId)
    ensures d.title == (if Truthy(Get(src, "title")) then Get(src, "title") else Str(""))
    ensures Truthy(d.title) || d.title == Str("")
    ensures d.brandId == Get(src, "brand_id") && d.sizeId == Get(src, "size_id") && d.catalogId == Get(src, "catalog_id")
    ensures d.tempUuid == Str(uuid) && d.assignedPhotos == Arr(photos)
  {
    Draft(
      id := Null,
      currency := Or(currency, Str("EUR")),
      tempUuid := Str(uuid),
      title := Or(Get(src, "title"), Str("")),
      description := Or(Get(src, "description"), Str("")),
      brandId := Get(src, "brand_id"),
      brand := Or(Get(src, "brand_title"), Get(src, "brand")),
      sizeId := Get(src, "size_id"),
      catalogId := Get(src, "catalog_id"),
      isbn := Null,
      isUnisex := Bool(Truthy(Get(src, "is_unisex"))),
      statusId := Or(Get(src, "status_id"), Int(1)),
      videoGameRatingId := Null,
      price := Or(priceVal, Int(0)),
      packageSizeId := Or(Get(src, "package_size_id"), Int(1)),
      shipmentPrices := Obj([("domestic", Null), ("international", Null)]),
      colorIds := Or(Get(src, "color_ids"), Arr([])),
      assignedPhotos := Arr(photos),
      measurementLength := Get(src, "measurement_length"),
      measurementWidth := Get(src, "measurement_width"),
      itemAttributes := Or(Get(src, "item_attributes"), Arr([])),
      manufacturer := Get(src, "manufacturer"),
      manufacturerLabelling := Get(src, "manufacturer_labelling"))
  }

  /** The whole payload: the item, fixed fields, and the upload session id,
      which is also the draft's `temp_uuid`. */
  function Payload(d: Draft, uuid: string): (r: Dict<Json>)
    requires d.tempUuid == Str(uuid)
    ensures Get(r, "item") == Obj(ItemDict(d))
    ensures Get(r, "upload_session_id") == d.tempUuid
  {
    var r := [("item", Obj(ItemDict(d))), ("feedback_id", Null), ("push_up", Bool(false)), ("parcel", Null),
              ("upload_session_id", Str(uuid))];
    LookupFirst(r, 0, "item");
    LookupFirst(r, 4, "upload_session_id");
    r
  }

  /** The ids the user is asked for when missing, in order. */
  const PromptKeys: seq<string> := ["brand_id", "size_id", "catalog_id", "status_id"]

  /** The prompt condition: the value is None or the empty string. */
  predicate NeedsPrompt(v: Json)
  {
    v == Null || v == Str("")
  }

  /** What the answer to the prompt for `key` sets: `int` of the stripped
      input, nothing when it is blank or not an integer. */
  function AnswerFor(key: string, answer: string -> string): Option<int>
  {
    var val := Strip(answer(key));
    if val == [] then None else ParseInt(val)
  }

  /** `item_payload["item"].get(key)` for a prompted key. */
  function PromptField(d: Draft, key: string): Json
  {
    if key == "brand_id" then d.brandId
    else if key == "size_id" then d.sizeId
    else if key == "catalog_id" then d.catalogId
    else if key == "status_id" then d.statusId
    else Null
  }

  /** `item_payload["item"][key] = v` for a prompted key. */
  function SetPromptField(d: Draft, key: string, v: Json): (r: Draft)
    ensures key in PromptKeys ==> PromptField(r, key) == v
    ensures forall k :: k != key ==> PromptField(r, k) == PromptField(d, k)
    ensures r.assignedPhotos == d.assignedPhotos
  {
    if key == "brand_id" then d.(brandId := v)
    else if key == "size_id" then d.(sizeId := v)
    else if key == "catalog_id" then d.(catalogId := v)
    else if key == "status_id" then d.(statusId := v)
    else d
  }

  /** The draft after the prompts for `keys`, in order. */
  function Prompted(d: Draft, keys: seq<string>, answer: string -> string): Draft
  {
    if keys == [] then d
    else
      PromptOne(Prompted(d, keys[..|keys| - 1], answer), keys[|keys| - 1], answer)
  }

  /** One prompt (cli.py:376-382): a missing id answered with an integer is set to it. */
  function PromptOne(d: Draft, key: string, answer: string -> string): Draft
  {
    if NeedsPrompt(PromptField(d, key)) && AnswerFor(key, answer).Some? then
      SetPromptField(d, key, Int(AnswerFor(key, answer).value))
    else d
  }

  /** Setting a prompted field leaves every other field of the draft as it was. */
  lemma SetPromptFieldOnlyIds(d: Draft, key: string, v: Json)
    ensures SetPromptField(d, key, v).(brandId := d.brandId, sizeId := d.sizeId, catalogId := d.catalogId,
                                       statusId := d.statusId) == d
  {
  }

  /** One prompt changes at most the prompted field, and only a missing one
      answered with an integer. */
  lemma PromptOneField(d: Draft, key: string, answer: string -> string, k: string)
    requires key in PromptKeys
    ensures PromptField(PromptOne(d, key, answer), k) ==
      if k == key && NeedsPrompt(PromptField(d, k)) && AnswerFor(k, answer).Some? then Int(AnswerFor(k, answer).value)
      else PromptField(d, k)
    ensures PromptOne(d, key, answer).(brandId := d.brandId, sizeId := d.sizeId, catalogId := d.catalogId,
                                       statusId := d.statusId) == d
  {
    var a := AnswerFor(key, answer);
    if NeedsPrompt(PromptField(d, key)) && a.Some? {
      var v := Int(a.value);
      assert PromptOne(d, key, answer) == SetPromptField(d, key, v);
      SetPromptFieldOnlyIds(d, key, v);
    } else {
      assert PromptOne(d, key, answer) == d;
    }
  }

  /** Only a missing id that is prompted for and answered with an integer
      changes, to that integer; every other field keeps its value. */
  lemma {:induction false} PromptedFields(d: Draft, keys: seq<string>, answer: string -> string, k: string)
    requires forall i :: 0 <= i < |keys| ==> keys[i] in PromptKeys
    ensures PromptField(Prompted(d, keys, answer), k) ==
      if k in keys && NeedsPrompt(PromptField(d, k)) && AnswerFor(k, answer).Some? then Int(AnswerFor(k, answer).value)
      else PromptField(d, k)
    ensures Prompted(d, keys, answer).(brandId := d.brandId, sizeId := d.sizeId, catalogId := d.catalogId,
                                       statusId := d.statusId) == d
    decreases |keys|
  {
    if keys != [] {
      var init := keys[..|keys| - 1];
      var key := keys[|keys| - 1];
      var before := Prompted(d, init, answer);
      PromptedFields(d, init, answer, k);
      assert Prompted(d, keys, answer) == PromptOne(before, key, answer);
      PromptOneField(before, key, answer, k);
      assert keys == init + [key];
      assert k in keys <==> k in init || k == key;
      var fires := NeedsPrompt(PromptField(d, k)) && AnswerFor(k, answer).Some?;
      if k in init && fires {
        assert PromptField(before, k) == Int(AnswerFor(k, answer).value);
      } else if k != key {
        assert PromptField(Prompted(d, keys, answer), k) == PromptField(before, k);
      }
    }
  }

  /** The prompt loop of cli.py:375-382 over `keys` (the source's are
      `PromptKeys`), overwriting the draft's ids. */
  method PromptMissing(d: Draft, keys: seq<string>, answer: string -> string) returns (r: Draft)
    ensures r == Prompted(d, keys, answer)
  {
    r := d;
    for i := 0 to |keys|
      invariant r == Prompted(d, keys[..i], answer)
    {
      assert keys[..i + 1][..i] == keys[..i];
      r := PromptOne(r, keys[i], answer);
    }
    assert keys[..|keys|] == keys;
  }

  /** The prompts never touch the assigned photos. */
  lemma {:induction false} PromptedKeepsPhotos(d: Draft, keys: seq<string>, answer: string -> string)
    ensures Prompted(d, keys, answer).assignedPhotos == d.assignedPhotos
    decreases |keys|
  {
    if keys != [] {
      var before := Prompted(d, keys[..|keys| - 1], answer);
      PromptedKeepsPhotos(d, keys[..|keys| - 1], answer);
      assert Prompted(d, keys, answer) == PromptOne(before, keys[|keys| - 1], answer);
    }
  }

  lemma TruthyNeedsNoPrompt(v: Json)
    requires Truthy(v)
    ensures !NeedsPrompt(v)
  {
  }

  /** The status prompt never fires: the draft's status_id defaults to 1. */
  lemma StatusIdNeverPrompted(src: Dict<Json>, currency: Json, priceVal: Json, uuid: string,
                              photos: seq<Json>, keys: seq<string>, answer: string -> string)
    requires forall i :: 0 <= i < |keys| ==> keys[i] in PromptKeys
    ensures var d := DraftOf(src, currency, priceVal, uuid, photos);
      Prompted(d, keys, answer).statusId == d.statusId
  {
    var d := DraftOf(src, currency, priceVal, uuid, photos);
    var p := Prompted(d, keys, answer);
    PromptedFields(d, keys, answer, "status_id");
    TruthyNeedsNoPrompt(d.statusId);
    assert PromptField(d, "status_id") == d.statusId;
    assert PromptField(p, "status_id") == p.statusId;
  }

  /** cli.py:385: deleting the original is offered when `assigned_photos` is truthy. */
  predicate DeleteOffered(d: Draft)
  {
    Truthy(d.assignedPhotos)
  }

  lemma OfferedIffPhotos(d: Draft, entries: seq<Json>)
    requires d.assignedPhotos == Arr(entries)
    ensures DeleteOffered(d) <==> entries != []
  {
  }

  /** Deletion is offered exactly when some photo, with a truthy URL, was
      uploaded with a truthy id, whatever ids were prompted for. */
  lemma DeleteGate(src: Dict<Json>, currency: Json, priceVal: Json, uuid: string,
                   photos: seq<Json>, upload: (nat, Json) -> Result<Json>, keys: seq<string>,
                   answer: string -> string)
    ensures var entries := CliPhotos.AssignedPhotos(photos, |photos|, upload);
      var d := Prompted(DraftOf(src, currency, priceVal, uuid, entries), keys, answer);
      DeleteOffered(d) <==> exists i :: 0 <= i < |photos| && CliPhotos.UploadOf(photos, i, upload).Some?
  {
    var entries := CliPhotos.AssignedPhotos(photos, |photos|, upload);
    var d0 := DraftOf(src, currency, priceVal, uuid, entries);
    var d := Prompted(d0, keys, answer);
    PromptedKeepsPhotos(d0, keys, answer);
    OfferedIffPhotos(d, entries);
    CliPhotos.AssignedPhotosSpec(photos, |photos|, upload);
  }

  // ---------------------------------------------------------------------------
  // Selection (cli.py:214-226)

  datatype Selection = NoSelection | InvalidSelection | OutOfRange | Selected(index: nat)

  /** The typed line against a listing of `count` items: blank exits, a
      non-integer is invalid, an integer outside 1..count is out of range,
      otherwise the zero-based index of the listing chosen. */
  function Select(raw: string, count: nat): (r: Selection)
    ensures r == NoSelection <==> Strip(raw) == []
    ensures r == InvalidSelection <==> Strip(raw) != [] && ParseInt(Strip(raw)).None?
    ensures r.Selected? ==> r.index < count && ParseInt(Strip(raw)).Some? && ParseInt(Strip(raw)).value == r.index + 1
    ensures r == OutOfRange ==> ParseInt(Strip(raw)).Some? && !(1 <= ParseInt(Strip(raw)).value <= count)
  {
    var s := Strip(raw);
    var n := ParseInt(s);
    if s == [] then NoSelection
    else if n.None? then InvalidSelection
    else if 1 <= n.value <= count then Selected(n.value - 1)
    else OutOfRange
  }

  /** Every listing can be chosen by typing its number. */
  lemma SelectEveryListing(i: nat, count: nat)
    requires i < count
    ensures Select(NatToString(i + 1), count) == Selected(i)
  {
    var s := NatToString(i + 1);
    assert !IsSpace(s[0]) && !IsSpace(s[|s| - 1]);
    StripNoEdgeSpace(s);
    var n := ParseInt(Strip(s));
    assert n.Some? && n.value == i + 1;
    assert s != [];
  }
}
