/** The oldest-first ordering of the listing (cli.py:206-210): `list.sort` with
    the key `(0, date)` for a known creation date and `(1, datetime.max)` for an
    unknown one. Python's sort is stable, so the result is the unique stable
    sorted permutation, given here as an insertion sort. */
module CliSort {
  import opened Wrappers
  import opened Dicts
  import opened Json
  import opened CliDates

  /** The sort key: a known date, or the unknown-date key that follows them all. */
  datatype SortKey = Known(t: real) | Unknown

  /** Python's ordering of the key tuples. */
  predicate KeyLe(a: SortKey, b: SortKey)
  {
    match a
    case Known(x) => b.Unknown? || x <= b.t
    case Unknown => b.Unknown?
  }

  /** The key order is a total order. */
  lemma KeyLeTotalOrder(a: SortKey, b: SortKey, c: SortKey)
    ensures KeyLe(a, a)
    ensures KeyLe(a, b) || KeyLe(b, a)
    ensures KeyLe(a, b) && KeyLe(b, a) ==> a == b
    ensures KeyLe(a, b) && KeyLe(b, c) ==> KeyLe(a, c)
  {
  }

  predicate SortedBy<T>(s: seq<T>, key: T -> SortKey)
  {
    forall i, j :: 0 <= i < j < |s| ==> KeyLe(key(s[i]), key(s[j]))
  }

  /** The elements of `s` whose key is `k`, in order. */
  function WithKey<T>(s: seq<T>, key: T -> SortKey, k: SortKey): seq<T>
  {
    if s == [] then [] else (if key(s[0]) == k then [s[0]] else []) + WithKey(s[1..], key, k)
  }

  /** `x` placed before the first element whose key is not smaller than its own. */
  function Insert<T>(x: T, s: seq<T>, key: T -> SortKey): (r: seq<T>)
    ensures multiset(r) == multiset(s) + multiset{x}
  {
    if s == [] || KeyLe(key(x), key(s[0])) then [x] + s
    else
      assert s == [s[0]] + s[1..];
      [s[0]] + Insert(x, s[1..], key)
  }

  /** `s.sort(key=key)`. */
  function SortByKey<T>(s: seq<T>, key: T -> SortKey): (r: seq<T>)
    ensures multiset(r) == multiset(s)
  {
    if s == [] then []
    else
      assert s == [s[0]] + s[1..];
      Insert(s[0], SortByKey(s[1..], key), key)
  }

  lemma {:induction false} InsertSorted<T>(x: T, s: seq<T>, key: T -> SortKey)
    requires SortedBy(s, key)
    ensures SortedBy(Insert(x, s, key), key)
    decreases |s|
  {
    if s != [] && !KeyLe(key(x), key(s[0])) {
      var tail := Insert(x, s[1..], key);
      InsertSorted(x, s[1..], key);
      var r := [s[0]] + tail;
      forall j | 1 <= j < |r| ensures KeyLe(key(s[0]), key(r[j])) {
        assert r[j] in multiset(tail);
        if r[j] == x {
          KeyLeTotalOrder(key(x), key(s[0]), key(s[0]));
        } else {
          assert r[j] in multiset(s[1..]);
          var m :| 0 <= m < |s[1..]| && s[1..][m] == r[j];
          assert s[m + 1] == r[j];
        }
      }
      forall i, j | 0 <= i < j < |r| ensures KeyLe(key(r[i]), key(r[j])) {
        if i > 0 { assert r[i] == tail[i - 1] && r[j] == tail[j - 1]; }
      }
    }
  }

  /** Inserting `x` keeps the order among the elements of any one key: an
      element is only passed over when its key is strictly smaller. */
  lemma {:induction false} WithKeyInsert<T>(x: T, s: seq<T>, key: T -> SortKey, k: SortKey)
    ensures WithKey(Insert(x, s, key), key, k) ==
      (if key(x) == k then [x] else []) + WithKey(s, key, k)
    decreases |s|
  {
    if s == [] || KeyLe(key(x), key(s[0])) {
      assert ([x] + s)[1..] == s;
    } else {
      KeyLeTotalOrder(key(x), key(s[0]), key(s[0]));
      WithKeyInsert(x, s[1..], key, k);
      var r := [s[0]] + Insert(x, s[1..], key);
      assert r[1..] == Insert(x, s[1..], key);
    }
  }

  /** The sorted list is ordered by key, is a permutation of the input, and
      keeps the input order among elements of equal key (stability). */
  lemma {:induction false} SortByKeySpec<T>(s: seq<T>, key: T -> SortKey)
    ensures SortedBy(SortByKey(s, key), key)
    ensures multiset(SortByKey(s, key)) == multiset(s)
    ensures forall k :: WithKey(SortByKey(s, key), key, k) == WithKey(s, key, k)
    decreases |s|
  {
    if s != [] {
      SortByKeySpec(s[1..], key);
      InsertSorted(s[0], SortByKey(s[1..], key), key);
      forall k ensures WithKey(SortByKey(s, key), key, k) == WithKey(s, key, k) {
        WithKeyInsert(s[0], SortByKey(s[1..], key), key, k);
      }
    }
  }

  /** The key of one listing: its creation date, raising as `_parse_created_at` does. */
  function DateKey(item: Dict<Json>, parseIso: string -> Option<IsoTime>): (r: Result<SortKey>)
    ensures r.Ok? <==> ParseCreatedAt(item, parseIso).Ok?
    ensures r == Ok(Unknown) <==> ParseCreatedAt(item, parseIso) == Ok(None)
  {
    match ParseCreatedAt(item, parseIso)
    case Err(f) => Err(f)
    case Ok(None) => Ok(Unknown)
    case Ok(Some(t)) => Ok(Known(t))
  }

  /** The key function the sort applies, once every key is known to exist. */
  function KeyOf(parseIso: string -> Option<IsoTime>): Dict<Json> -> SortKey
  {
    (x: Dict<Json>) => if DateKey(x, parseIso).Ok? then DateKey(x, parseIso).value else Unknown
  }

  /** The keys, computed for every listing before the sort moves anything; the
      first listing whose date raises stops the sort. */
  function AllKeys(items: seq<Dict<Json>>, parseIso: string -> Option<IsoTime>): (r: Result<seq<SortKey>>)
    ensures r.Ok? <==> forall i :: 0 <= i < |items| ==> DateKey(items[i], parseIso).Ok?
  {
    if items == [] then Ok([])
    else
      match DateKey(items[0], parseIso)
      case Err(f) => Err(f)
      case Ok(k) =>
        var rest := AllKeys(items[1..], parseIso);
        assert forall i :: 1 <= i < |items| ==> items[i] == items[1..][i - 1];
        if rest.Err? then Err(rest.fault) else Ok([k] + rest.value)
  }

  /** `enriched.sort(key=_sort_key)`. */
  function SortOldestFirst(items: seq<Dict<Json>>, parseIso: string -> Option<IsoTime>): (r: Result<seq<Dict<Json>>>)
    ensures r.Ok? <==> forall i :: 0 <= i < |items| ==> ParseCreatedAt(items[i], parseIso).Ok?
    ensures r.Ok? ==> multiset(r.value) == multiset(items)
  {
    match AllKeys(items, parseIso)
    case Err(f) => Err(f)
    case Ok(_) => Ok(SortByKey(items, KeyOf(parseIso)))
  }

  /** Known dates ascend and precede the unknown ones, and listings of equal
      date (the unknown ones in particular) keep their relative order. */
  lemma SortOldestFirstSpec(items: seq<Dict<Json>>, parseIso: string -> Option<IsoTime>)
    requires SortOldestFirst(items, parseIso).Ok?
    ensures var r := SortOldestFirst(items, parseIso).value;
      (forall i, j :: 0 <= i < j < |r| ==>
         DateKey(r[i], parseIso).Ok? && DateKey(r[j], parseIso).Ok? &&
         KeyLe(DateKey(r[i], parseIso).value, DateKey(r[j], parseIso).value)) &&
      forall k :: WithKey(r, KeyOf(parseIso), k) == WithKey(items, KeyOf(parseIso), k)
  {
    var r := SortOldestFirst(items, parseIso).value;
    SortByKeySpec(items, KeyOf(parseIso));
    forall i | 0 <= i < |r| ensures DateKey(r[i], parseIso).Ok? {
      assert r[i] in multiset(items);
    }
  }
}
