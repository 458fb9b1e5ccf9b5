/** How the command line dates a listing (cli.py `_parse_created_at` and
    `_days_since_created`). Instants are seconds since the Unix epoch, UTC, as
    rationals; `datetime.fromisoformat` is the parameter `parseIso`. */
module CliDates {
  import opened Wrappers
  import opened Text
  import opened Dicts
  import opened Json

  /** Above this a numeric `created_at_ts` is read as milliseconds. */
  const MsThreshold: int := 10_000_000_000
  /** 0001-01-01T00:00:00Z, the first instant a `datetime` can hold. */
  const MinInstant: real := -62135596800.0
  /** 10000-01-01T00:00:00Z, the first instant past `datetime.max`. */
  const MaxInstant: real := 253402300800.0
  const SecondsPerDay: real := 86400.0

  /** `datetime.fromtimestamp(t, tz=timezone.utc)` succeeds. */
  predicate Representable(t: real)
  {
    MinInstant <= t < MaxInstant
  }

  /** What `datetime.fromisoformat` reads: the wall-clock time, as seconds since
      the epoch as if it were UTC, and the UTC offset in seconds when one is
      written. */
  datatype IsoTime = IsoTime(wall: real, offset: Option<real>)

  /** The UTC instant of a parsed ISO time; a time without offset is UTC. */
  function IsoInstant(t: IsoTime): real
  {
    match t.offset
    case None => t.wall
    case Some(o) => t.wall - o
  }

  /** The seconds a numeric `created_at_ts` stands for: milliseconds above the
      threshold, seconds otherwise. */
  function TimestampSeconds(ts: Json): real
    requires IsNumber(ts)
  {
    var v := NumValue(ts);
    if v > MsThreshold as real then v / 1000.0 else v
  }

  /** A creation time in seconds and the same time in milliseconds date a
      listing alike, for every time from 1970-04-26 to 2286-11-20. */
  lemma MillisecondsAndSecondsAgree(v: int)
    requires MsThreshold / 1000 < v <= MsThreshold
    ensures TimestampSeconds(Int(v * 1000)) == TimestampSeconds(Int(v)) == v as real
  {
  }

  lemma ExampleTimestamps()
    ensures TimestampSeconds(Int(1700000000)) == TimestampSeconds(Int(1700000000000))
  {
    MillisecondsAndSecondsAgree(1700000000);
  }

  /** The text handed to `fromisoformat`: stripped, and when it ends in `Z`
      every `Z` in it becomes `+00:00`. */
  function IsoText(raw: string): (r: string)
    ensures 'Z' !in Strip(raw) ==> r == Strip(raw)
  {
    var s := Strip(raw);
    if |s| > 0 && s[|s| - 1] == 'Z' then ReplaceAll(s, 'Z', "+00:00") else s
  }

  /** A trailing `Z` is read as the offset `+00:00`. */
  lemma ZuluIsUtc(s: string)
    requires 'Z' !in s && (s == [] || !IsSpace(s[0]))
    ensures IsoText(s + "Z") == s + "+00:00"
  {
    var t := s + "Z";
    assert t[|t| - 1] == 'Z';
    StripNoEdgeSpace(t);
    ReplaceAllAppend(s, "Z", 'Z', "+00:00");
    assert ReplaceAll("Z", 'Z', "+00:00") == "+00:00" + ReplaceAll("", 'Z', "+00:00");
  }

  /** The creation time a photo records: `high_resolution.timestamp` when it is
      a number. A dict photo whose `high_resolution` is truthy but not a dict
      raises; anything else that is not a dict is skipped. */
  function PhotoTimestamp(p: Json): (r: Result<Option<real>>)
    ensures r.Err? <==> p.Obj? && Truthy(Get(p.fields, "high_resolution")) && !Get(p.fields, "high_resolution").Obj?
  {
    if !p.Obj? then Ok(None)
    else
      var hr := Or(Get(p.fields, "high_resolution"), Obj([]));
      match GetIn(hr, "timestamp")
      case Err(f) => Err(f)
      case Ok(pts) => Ok(if IsNumber(pts) then Some(NumValue(pts)) else None)
  }

  /** The earliest photo timestamp, the `best_ts` of cli.py:66-74, over the
      photos in list order. */
  function EarliestOf(photos: seq<Json>): Result<Option<real>>
  {
    if photos == [] then Ok(None)
    else
      match EarliestOf(photos[..|photos| - 1])
      case Err(f) => Err(f)
      case Ok(best) =>
        match PhotoTimestamp(photos[|photos| - 1])
        case Err(f) => Err(f)
        case Ok(pts) =>
          if pts.Some? && (best.None? || pts.value < best.value) then Ok(pts) else Ok(best)
  }

  /** The loop fails exactly when some photo raises. */
  lemma {:induction false} EarliestOkIff(photos: seq<Json>)
    ensures EarliestOf(photos).Ok? <==> forall i :: 0 <= i < |photos| ==> PhotoTimestamp(photos[i]).Ok?
    decreases |photos|
  {
    if photos != [] {
      var init := photos[..|photos| - 1];
      EarliestOkIff(init);
      assert forall i :: 0 <= i < |init| ==> photos[i] == init[i];
    }
  }

  /** The loop finds nothing exactly when no photo raises and none has a
      numeric timestamp. */
  lemma {:induction false} EarliestNoneIff(photos: seq<Json>)
    ensures EarliestOf(photos).Ok? && EarliestOf(photos).value.None? <==>
      forall i :: 0 <= i < |photos| ==> PhotoTimestamp(photos[i]).Ok? && PhotoTimestamp(photos[i]).value.None?
    decreases |photos|
  {
    if photos != [] {
      var init := photos[..|photos| - 1];
      EarliestNoneIff(init);
      assert forall i :: 0 <= i < |init| ==> photos[i] == init[i];
    }
  }

  /** A timestamp the loop finds is one of the photos', and none is earlier. */
  lemma {:induction false} EarliestIsLeast(photos: seq<Json>)
    ensures var r := EarliestOf(photos);
      r.Ok? && r.value.Some? ==>
        (exists i :: 0 <= i < |photos| && PhotoTimestamp(photos[i]).Ok? &&
           PhotoTimestamp(photos[i]).value.Some? && PhotoTimestamp(photos[i]).value.value == r.value.value) &&
        forall i :: 0 <= i < |photos| && PhotoTimestamp(photos[i]).Ok? && PhotoTimestamp(photos[i]).value.Some? ==>
          r.value.value <= PhotoTimestamp(photos[i]).value.value
    decreases |photos|
  {
    if photos != [] {
      var init := photos[..|photos| - 1];
      var n := |photos| - 1;
      EarliestIsLeast(init);
      assert forall i :: 0 <= i < |init| ==> photos[i] == init[i];
      var r := EarliestOf(photos);
      if r.Ok? && r.value.Some? {
        var best := EarliestOf(init).value;
        var pts := PhotoTimestamp(photos[n]).value;
        var m := r.value.value;
        if pts.Some? && (best.None? || pts.value < best.value) {
          assert r.value == pts;
          assert PhotoTimestamp(photos[n]).value.value == m;
          EarliestNoneIff(init);
        } else {
          assert r.value == best;
          var j :| 0 <= j < |init| && PhotoTimestamp(init[j]).Ok? && PhotoTimestamp(init[j]).value.Some? &&
                   PhotoTimestamp(init[j]).value.value == m;
          assert photos[j] == init[j];
        }
        forall i | 0 <= i < |photos| && PhotoTimestamp(photos[i]).Ok? && PhotoTimestamp(photos[i]).value.Some?
          ensures m <= PhotoTimestamp(photos[i]).value.value
        {
          if i < n {
            assert photos[i] == init[i];
          }
        }
      }
    }
  }

  /** The loop of cli.py:66-74. */
  method EarliestPhotoTimestamp(photos: seq<Json>) returns (r: Result<Option<real>>)
    ensures r == EarliestOf(photos)
  {
    var best: Option<real> := None;
    var i := 0;
    while i < |photos|
      invariant 0 <= i <= |photos|
      invariant EarliestOf(photos[..i]) == Ok(best)
    {
      var p := photos[i];
      assert photos[..i + 1][..i] == photos[..i] && photos[..i + 1][i] == p;
      if p.Obj? {
        var hr := Or(Get(p.fields, "high_resolution"), Obj([]));
        if !hr.Obj? {
          assert PhotoTimestamp(photos[..i + 1][i]).Err?;
          PrefixFails(photos, i + 1);
          return Err(WrongType);
        }
        var pts := Get(hr.fields, "timestamp");
        if IsNumber(pts) {
          if best.None? || NumValue(pts) < best.value {
            best := Some(NumValue(pts));
          }
        }
      }
      i := i + 1;
    }
    assert photos[..i] == photos;
    r := Ok(best);
  }

  /** A photo that raises makes the whole loop raise. */
  lemma PrefixFails(photos: seq<Json>, n: nat)
    requires n <= |photos| && exists i :: 0 <= i < n && PhotoTimestamp(photos[..n][i]).Err?
    ensures EarliestOf(photos) == Err(WrongType)
    decreases |photos|
  {
    var i :| 0 <= i < n && PhotoTimestamp(photos[..n][i]).Err?;
    assert photos[i] == photos[..n][i];
    EarliestOkIff(photos);
    EarliestFault(photos);
  }

  /** The only fault a photo can raise is a wrong type. */
  lemma {:induction false} EarliestFault(photos: seq<Json>)
    ensures EarliestOf(photos).Err? ==> EarliestOf(photos) == Err(WrongType)
    decreases |photos|
  {
    if photos != [] {
      EarliestFault(photos[..|photos| - 1]);
    }
  }

  /** `(item.get('item') or {}).get('created_at')`, reached only when the
      listing's own `created_at` is falsy. */
  function CreatedAtText(item: Dict<Json>): Result<Json>
  {
    if Truthy(Get(item, "created_at")) then Ok(Get(item, "created_at"))
    else GetIn(Or(Get(item, "item"), Obj([])), "created_at")
  }

  /** The instant an ISO `created_at` stands for, when it parses and fits. */
  function IsoCreated(created: Json, parseIso: string -> Option<IsoTime>): Option<real>
  {
    if created.Str? && created.s != [] then
      match parseIso(IsoText(created.s))
      case Some(t) => if Representable(IsoInstant(t)) then Some(IsoInstant(t)) else None
      case None => None
    else None
  }

  /** `_parse_created_at`: `created_at_ts` first, then the ISO `created_at`
      (own or nested under `item`), then the earliest photo timestamp; each
      step that raises inside its `try` falls through to the next. */
  function ParseCreatedAt(item: Dict<Json>, parseIso: string -> Option<IsoTime>): (r: Result<Option<real>>)
    ensures r.Ok? && r.value.Some? ==> Representable(r.value.value)
  {
    var ts := Get(item, "created_at_ts");
    if IsNumber(ts) && Representable(TimestampSeconds(ts)) then Ok(Some(TimestampSeconds(ts)))
    else
      match CreatedAtText(item)
      case Err(f) => Err(f)
      case Ok(created) =>
        if IsoCreated(created, parseIso).Some? then Ok(IsoCreated(created, parseIso))
        else
          var photos := Get(item, "photos");
          if photos.Arr? && photos.items != [] then
            match EarliestOf(photos.items)
            case Err(f) => Err(f)
            case Ok(best) => if best.Some? && Representable(best.value) then Ok(best) else Ok(None)
          else Ok(None)
  }

  /** The order of the three sources: a usable `created_at_ts` decides; else a
      usable ISO `created_at`; else the earliest photo timestamp of a dict
      photo, read as seconds; with none of them the date is unknown. */
  lemma CreatedAtPriority(item: Dict<Json>, parseIso: string -> Option<IsoTime>)
    ensures var ts := Get(item, "created_at_ts");
      IsNumber(ts) && Representable(TimestampSeconds(ts)) ==>
        ParseCreatedAt(item, parseIso) == Ok(Some(TimestampSeconds(ts)))
    ensures var ts := Get(item, "created_at_ts");
      !(IsNumber(ts) && Representable(TimestampSeconds(ts))) && CreatedAtText(item).Ok? &&
      IsoCreated(CreatedAtText(item).value, parseIso).Some? ==>
        ParseCreatedAt(item, parseIso) == Ok(IsoCreated(CreatedAtText(item).value, parseIso))
    ensures var ts := Get(item, "created_at_ts");
      var photos := Get(item, "photos");
      !(IsNumber(ts) && Representable(TimestampSeconds(ts))) && CreatedAtText(item).Ok? &&
      IsoCreated(CreatedAtText(item).value, parseIso).None? && photos.Arr? &&
      EarliestOf(photos.items).Ok? && EarliestOf(photos.items).value.Some? &&
      Representable(EarliestOf(photos.items).value.value) ==>
        ParseCreatedAt(item, parseIso) == EarliestOf(photos.items)
    ensures ParseCreatedAt(item, parseIso) == Ok(None) ==>
      !IsNumber(Get(item, "created_at_ts")) || !Representable(TimestampSeconds(Get(item, "created_at_ts")))
    ensures var ts := Get(item, "created_at_ts");
      var photos := Get(item, "photos");
      ParseCreatedAt(item, parseIso) == Ok(None) <==>
        !(IsNumber(ts) && Representable(TimestampSeconds(ts))) && CreatedAtText(item).Ok? &&
        IsoCreated(CreatedAtText(item).value, parseIso).None? &&
        (!photos.Arr? ||
         (EarliestOf(photos.items).Ok? &&
          !(EarliestOf(photos.items).value.Some? && Representable(EarliestOf(photos.items).value.value))))
    ensures var ts := Get(item, "created_at_ts");
      var photos := Get(item, "photos");
      ParseCreatedAt(item, parseIso).Err? <==>
        !(IsNumber(ts) && Representable(TimestampSeconds(ts))) &&
        (CreatedAtText(item).Err? ||
         (IsoCreated(CreatedAtText(item).value, parseIso).None? && photos.Arr? && EarliestOf(photos.items).Err?))
  {
  }

  /** A date known only from photos is the least numeric timestamp among them. */
  lemma PhotoDateIsEarliest(item: Dict<Json>, parseIso: string -> Option<IsoTime>, i: nat)
    requires !IsNumber(Get(item, "created_at_ts")) && !Get(item, "created_at").Str? &&
             !Truthy(Get(item, "item"))
    requires Get(item, "photos").Arr? && i < |Get(item, "photos").items|
    requires PhotoTimestamp(Get(item, "photos").items[i]).Ok? &&
             PhotoTimestamp(Get(item, "photos").items[i]).value.Some?
    requires ParseCreatedAt(item, parseIso).Ok? && ParseCreatedAt(item, parseIso).value.Some?
    ensures ParseCreatedAt(item, parseIso).value.value <=
            PhotoTimestamp(Get(item, "photos").items[i]).value.value
  {
    assert Get(Obj([]).fields, "created_at") == Null;
    EarliestIsLeast(Get(item, "photos").items);
  }

  /** `int(delta.total_seconds() // 86400)`, never below 0. */
  function WholeDays(elapsed: real): (d: nat)
    ensures elapsed >= 0.0 ==> d as real * SecondsPerDay <= elapsed < (d + 1) as real * SecondsPerDay
    ensures elapsed < SecondsPerDay ==> d == 0
  {
    var q := (elapsed / SecondsPerDay).Floor;
    if q < 0 then 0 else q
  }

  /** `_days_since_created` at the instant `now`: `?` for an unknown date,
      otherwise the whole days elapsed. */
  function DaysSinceCreated(item: Dict<Json>, parseIso: string -> Option<IsoTime>, now: real): (r: Result<string>)
    ensures r.Ok? <==> ParseCreatedAt(item, parseIso).Ok?
    ensures r == Ok("?") <==> ParseCreatedAt(item, parseIso) == Ok(None)
    ensures r.Ok? && r.value != "?" ==>
      IsDigits(r.value) && DigitsValue(r.value) == WholeDays(now - ParseCreatedAt(item, parseIso).value.value)
  {
    match ParseCreatedAt(item, parseIso)
    case Err(f) => Err(f)
    case Ok(None) => Ok("?")
    case Ok(Some(t)) =>
      var s := NatToString(WholeDays(now - t));
      assert s != "?" by { assert IsDigit(s[0]); }
      Ok(s)
  }
}
