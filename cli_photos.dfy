/** The photos of a repost (cli.py:288-333): which list is re-uploaded, the
    URL the command line picks for each photo (its own `_extract_url`, which
    differs from the item normaliser's), and which uploads become assigned
    photos. The download and upload of one photo is the parameter `upload`. */
module CliPhotos {
  import opened Wrappers
  import opened Dicts
  import opened Json
  import BrowserReposter

  /** `next(v.get('url') for k, v in fmts.items() if isinstance(v, dict) and
      v.get('url'))`, None when there is none: formats in dict order. */
  function FirstFormatUrl(fmts: Dict<Json>): (r: Json)
    ensures r.Null? || exists i :: 0 <= i < |fmts| && fmts[i].1.Obj? && r == Get(fmts[i].1.fields, "url")
    ensures !r.Null? ==> Truthy(r)
  {
    if fmts == [] then Null
    else
      var v := fmts[0].1;
      if v.Obj? && Truthy(Get(v.fields, "url")) then Get(v.fields, "url")
      else
        var r := FirstFormatUrl(fmts[1..]);
        assert !r.Null? ==> exists i :: 0 <= i < |fmts| && fmts[i].1.Obj? && r == Get(fmts[i].1.fields, "url") by {
          if !r.Null? {
            var i :| 0 <= i < |fmts[1..]| && fmts[1..][i].1.Obj? && r == Get(fmts[1..][i].1.fields, "url");
            assert fmts[i + 1] == fmts[1..][i];
          }
        }
        r
  }

  /** The first format in dict order that is a dict with a truthy `url` gives it. */
  lemma {:induction false} FirstFormatUrlIsFirst(fmts: Dict<Json>, i: nat)
    requires i < |fmts| && fmts[i].1.Obj? && Truthy(Get(fmts[i].1.fields, "url"))
    requires forall j :: 0 <= j < i ==> !(fmts[j].1.Obj? && Truthy(Get(fmts[j].1.fields, "url")))
    ensures FirstFormatUrl(fmts) == Get(fmts[i].1.fields, "url")
  {
    if i > 0 {
      FirstFormatUrlIsFirst(fmts[1..], i - 1);
    }
  }

  /** cli.py `_extract_url`: None for a photo that is not a dict; the first
      truthy of full_size_url, url, image_url; else, when `formats` is a dict,
      its first usable format's url, and when it is not, `False`. */
  function ExtractUrl(p: Json): (r: Json)
    ensures !p.Obj? ==> r == Null
    ensures p.Obj? && Truthy(Get(p.fields, "full_size_url")) ==> r == Get(p.fields, "full_size_url")
    ensures p.Obj? && !Truthy(Get(p.fields, "full_size_url")) ==>
      var url, image, formats := Get(p.fields, "url"), Get(p.fields, "image_url"), Get(p.fields, "formats");
      (Truthy(url) ==> r == url) &&
      (!Truthy(url) && Truthy(image) ==> r == image) &&
      (!Truthy(url) && !Truthy(image) && formats.Obj? ==> r == FirstFormatUrl(formats.fields)) &&
      (!Truthy(url) && !Truthy(image) && !formats.Obj? ==> r == Bool(false))
  {
    if !p.Obj? then Null
    else
      var own := Or(Or(Get(p.fields, "full_size_url"), Get(p.fields, "url")), Get(p.fields, "image_url"));
      if Truthy(own) then own
      else
        var formats := Get(p.fields, "formats");
        if formats.Obj? then FirstFormatUrl(formats.fields) else Bool(false)
  }

  /** A photo is downloaded exactly when its URL is truthy: one of its own three
      keys, or a format url; `original_url` and `original` are not looked at. */
  lemma ExtractUrlTruthy(p: Json)
    ensures Truthy(ExtractUrl(p)) <==>
      p.Obj? &&
      (Truthy(Get(p.fields, "full_size_url")) || Truthy(Get(p.fields, "url")) || Truthy(Get(p.fields, "image_url")) ||
       (Get(p.fields, "formats").Obj? && !FirstFormatUrl(Get(p.fields, "formats").fields).Null?))
  {
  }

  /** The two URL pickers disagree: with formats `m` then `xxl`, the command
      line takes `m` (dict order) and the item normaliser `xxl` (size order). */
  lemma UrlPickersDiffer()
    ensures var p := Obj([("formats", Obj([("m", Obj([("url", Str("small"))])),
                                           ("xxl", Obj([("url", Str("large"))]))]))]);
      ExtractUrl(p) == Str("small") && BrowserReposter.PhotoUrl(p) == Ok(Str("large"))
  {
    var m := Obj([("url", Str("small"))]);
    var x := Obj([("url", Str("large"))]);
    var fmts := [("m", m), ("xxl", x)];
    var p := Obj([("formats", Obj(fmts))]);
    assert Get(p.fields, "formats") == Obj(fmts);
    assert Get(m.fields, "url") == Str("small");
    assert Get(x.fields, "url") == Str("large");
    assert forall j :: 0 <= j < |BrowserReposter.UrlKeys| ==> !Truthy(Get(p.fields, BrowserReposter.UrlKeys[j]));
    FirstFormatUrlIsFirst(fmts, 0);
    assert Get(fmts, "xxl") == x by { LookupFirst(fmts, 1, "xxl"); }
    BrowserReposter.PhotoUrlFromFormats(p, 0);
  }

  /** The list of photos to re-upload (cli.py:289-295): the editor's nested
      `item.photos`, else its `photos`, else the merged source's, when a list.
      `details.get('item', {})` that is present but not a dict raises. */
  function PhotosToUpload(details: Dict<Json>, src: Dict<Json>): (r: Result<seq<Json>>)
    ensures r.Err? <==> "item" in Keys(details) && !Get(details, "item").Obj?
    ensures r.Ok? ==>
      var nested := if "item" in Keys(details) then Get(details, "item").fields else [];
      var inner, outer, own := Get(nested, "photos"), Get(details, "photos"), Get(src, "photos");
      (inner.Arr? ==> r.value == inner.items) &&
      (!inner.Arr? && outer.Arr? ==> r.value == outer.items) &&
      (!inner.Arr? && !outer.Arr? && own.Arr? ==> r.value == own.items) &&
      (!inner.Arr? && !outer.Arr? && !own.Arr? ==> r.value == [])
  {
    var nested := if "item" in Keys(details) then Get(details, "item") else Obj([]);
    if !nested.Obj? then Err(WrongType)
    else if Get(nested.fields, "photos").Arr? then Ok(Get(nested.fields, "photos").items)
    else if Get(details, "photos").Arr? then Ok(Get(details, "photos").items)
    else if Get(src, "photos").Arr? then Ok(Get(src, "photos").items)
    else Ok([])
  }

  /** The assigned-photo entry for one upload response: only a dict response
      with a truthy `id` counts, its orientation defaulting to 0. */
  function AssignedPhoto(up: Result<Json>): (r: Option<Json>)
    ensures r.Some? <==> up.Ok? && up.value.Obj? && Truthy(Get(up.value.fields, "id"))
    ensures r.Some? ==> r.value.Obj? && Keys(r.value.fields) == {"id", "orientation"} && |r.value.fields| == 2 &&
                        Get(r.value.fields, "id") == Get(up.value.fields, "id") &&
                        Get(r.value.fields, "orientation") == Or(Get(up.value.fields, "orientation"), Int(0))
    ensures r.Some? && !Truthy(Get(up.value.fields, "orientation")) ==> Get(r.value.fields, "orientation") == Int(0)
  {
    match up
    case Ok(Obj(f)) =>
      if Truthy(Get(f, "id")) then
        var e := [("id", Get(f, "id")), ("orientation", Or(Get(f, "orientation"), Int(0)))];
        assert Get(e, "id") == Get(f, "id") by { LookupFirst(e, 0, "id"); }
        assert Get(e, "orientation") == Or(Get(f, "orientation"), Int(0)) by { LookupFirst(e, 1, "orientation"); }
        Some(Obj(e))
      else None
    case _ => None
  }

  /** The upload attempted for photo `i`: none for a falsy URL. */
  function UploadOf(photos: seq<Json>, i: nat, upload: (nat, Json) -> Result<Json>): Option<Json>
    requires i < |photos|
  {
    var u := ExtractUrl(photos[i]);
    if Truthy(u) then AssignedPhoto(upload(i, u)) else None
  }

  /** `assigned_photos` after the upload loop over the first `n` photos. */
  function AssignedPhotos(photos: seq<Json>, n: nat, upload: (nat, Json) -> Result<Json>): seq<Json>
    requires n <= |photos|
  {
    if n == 0 then []
    else
      var before := AssignedPhotos(photos, n - 1, upload);
      match UploadOf(photos, n - 1, upload)
      case Some(e) => before + [e]
      case None => before
  }

  /** One more turn of the loop appends the entry of photo `n`, if any. */
  lemma AssignedPhotosNext(photos: seq<Json>, n: nat, upload: (nat, Json) -> Result<Json>, e: Option<Json>)
    requires n < |photos| && e == UploadOf(photos, n, upload)
    ensures AssignedPhotos(photos, n + 1, upload) ==
      AssignedPhotos(photos, n, upload) + if e.Some? then [e.value] else []
  {
  }

  /** At most one entry per photo, each a dict with a truthy `id`, and at least
      one exactly when some upload produced one. */
  lemma {:induction false} AssignedPhotosSpec(photos: seq<Json>, n: nat, upload: (nat, Json) -> Result<Json>)
    requires n <= |photos|
    ensures var r := AssignedPhotos(photos, n, upload);
      |r| <= n &&
      (forall j :: 0 <= j < |r| ==> r[j].Obj? && Truthy(Get(r[j].fields, "id"))) &&
      (r != [] <==> exists i :: 0 <= i < n && UploadOf(photos, i, upload).Some?)
  {
    if n > 0 {
      AssignedPhotosSpec(photos, n - 1, upload);
      var before := AssignedPhotos(photos, n - 1, upload);
      var r := AssignedPhotos(photos, n, upload);
      var step := UploadOf(photos, n - 1, upload);
      if step.Some? {
        assert r == before + [step.value];
        forall j | 0 <= j < |r| ensures r[j].Obj? && Truthy(Get(r[j].fields, "id")) {
          if j < |before| { assert r[j] == before[j]; }
        }
      } else {
        assert r == before;
        if r != [] {
          var i :| 0 <= i < n - 1 && UploadOf(photos, i, upload).Some?;
        }
        if exists i :: 0 <= i < n && UploadOf(photos, i, upload).Some? {
          var i :| 0 <= i < n && UploadOf(photos, i, upload).Some?;
          assert i < n - 1;
        }
      }
    }
  }

  /** One turn of the upload loop (cli.py:306-331): download and upload photo
      `i` when its URL is truthy, and the entry it assigns, if any. */
  method UploadOne(photos: seq<Json>, i: nat, upload: (nat, Json) -> Result<Json>) returns (e: Option<Json>)
    requires i < |photos|
    ensures e == UploadOf(photos, i, upload)
  {
    e := None;
    var u := ExtractUrl(photos[i]);
    if Truthy(u) {
      var up := upload(i, u);
      if up.Ok? && up.value.Obj? {
        var pid := Get(up.value.fields, "id");
        if Truthy(pid) {
          e := Some(Obj([("id", pid), ("orientation", Or(Get(up.value.fields, "orientation"), Int(0)))]));
        }
      }
    }
  }

  /** The upload loop of cli.py:305-333, reduced to what it assigns. */
  method AssignPhotos(photos: seq<Json>, upload: (nat, Json) -> Result<Json>) returns (entries: seq<Json>)
    ensures entries == AssignedPhotos(photos, |photos|, upload)
  {
    entries := [];
    for i := 0 to |photos|
      invariant entries == AssignedPhotos(photos, i, upload)
    {
      var e := UploadOne(photos, i, upload);
      AssignedPhotosNext(photos, i, upload, e);
      if e.Some? {
        entries := entries + [e.value];
      }
    }
  }
}
