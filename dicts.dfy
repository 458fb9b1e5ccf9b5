/** Python dictionaries with string keys: insertion-ordered association lists.
    `d[k] = v` replaces the value in place when `k` is present and appends
    otherwise; `d.setdefault(k, v)` only appends; `{**a, **b}` and `a.update(b)`
    are `a` followed by one assignment per entry of `b`, in order. */
module Dicts {
  import opened Wrappers

  type Dict<V> = seq<(string, V)>

  function Keys<V>(d: Dict<V>): set<string>
  {
    set i | 0 <= i < |d| :: d[i].0
  }

  ghost predicate UniqueKeys<V>(d: Dict<V>)
  {
    forall i, j :: 0 <= i < j < |d| ==> d[i].0 != d[j].0
  }

  lemma KeysCons<V>(e: (string, V), d: Dict<V>)
    ensures Keys([e] + d) == {e.0} + Keys(d)
  {
    var c := [e] + d;
    forall x | x in Keys(c) ensures x in {e.0} + Keys(d) {
      var i :| 0 <= i < |c| && c[i].0 == x;
      if i > 0 { assert d[i - 1].0 == x; }
    }
    forall x | x in Keys(d) ensures x in Keys(c) {
      var i :| 0 <= i < |d| && d[i].0 == x;
      assert c[i + 1].0 == x;
    }
    assert c[0].0 == e.0;
  }

  lemma KeysSnoc<V>(d: Dict<V>, e: (string, V))
    ensures Keys(d + [e]) == Keys(d) + {e.0}
  {
    var c := d + [e];
    forall x | x in Keys(c) ensures x in Keys(d) + {e.0} {
      var i :| 0 <= i < |c| && c[i].0 == x;
      if i < |d| { assert d[i].0 == x; }
    }
    forall x | x in Keys(d) ensures x in Keys(c) {
      var i :| 0 <= i < |d| && d[i].0 == x;
      assert c[i].0 == x;
    }
    assert c[|d|].0 == e.0;
  }

  /** `d.get(k)` as an option: the value of the first entry whose key is `k`. */
  function Lookup<V>(d: Dict<V>, k: string): (r: Option<V>)
    ensures r.Some? <==> k in Keys(d)
    ensures r.Some? ==> exists i :: 0 <= i < |d| && d[i] == (k, r.value)
  {
    if d == [] then None
    else
      KeysCons(d[0], d[1..]);
      assert d == [d[0]] + d[1..];
      if d[0].0 == k then Some(d[0].1)
      else
        var r := Lookup(d[1..], k);
        assert r.Some? ==> exists i :: 0 <= i < |d| && d[i] == (k, r.value) by {
          if r.Some? {
            var i :| 0 <= i < |d[1..]| && d[1..][i] == (k, r.value);
            assert d[i + 1] == (k, r.value);
          }
        }
        r
  }

  /** Looking up in `d + [e]`: `d` answers first, then `e`. */
  lemma {:induction false} LookupSnoc<V>(d: Dict<V>, e: (string, V), k: string)
    ensures Lookup(d + [e], k) ==
      if Lookup(d, k).Some? then Lookup(d, k) else if e.0 == k then Some(e.1) else None
  {
    if d != [] {
      assert (d + [e])[0] == d[0] && (d + [e])[1..] == d[1..] + [e];
      LookupSnoc(d[1..], e, k);
    }
  }

  /** `d[k] = v`: the entry for `k` is replaced in place, or appended when absent. */
  function Put<V>(d: Dict<V>, k: string, v: V): (r: Dict<V>)
    ensures Lookup(r, k).Some? && Lookup(r, k).value == v
    ensures forall k' :: k' != k ==> Lookup(r, k') == Lookup(d, k')
    ensures Keys(r) == Keys(d) + {k}
    ensures k in Keys(d) ==> |r| == |d|
  {
    if d == [] then
      assert Keys([(k, v)]) == {k} by { KeysCons((k, v), []); }
      [(k, v)]
    else
      assert d == [d[0]] + d[1..];
      KeysCons(d[0], d[1..]);
      if d[0].0 == k then
        var r := [(k, v)] + d[1..];
        KeysCons((k, v), d[1..]);
        assert r[1..] == d[1..];
        r
      else
        var tail := Put(d[1..], k, v);
        var r := [d[0]] + tail;
        KeysCons(d[0], tail);
        assert r[1..] == tail;
        r
  }

  /** Assignment never introduces a duplicate key. */
  lemma {:induction false} PutUnique<V>(d: Dict<V>, k: string, v: V)
    requires UniqueKeys(d)
    ensures UniqueKeys(Put(d, k, v))
    decreases |d|
  {
    if d != [] && d[0].0 != k {
      var tail := Put(d[1..], k, v);
      var r := [d[0]] + tail;
      assert Put(d, k, v) == r;
      KeysCons(d[0], d[1..]);
      assert d == [d[0]] + d[1..];
      assert d[0].0 !in Keys(d[1..]);
      PutUnique(d[1..], k, v);
      forall i, j | 0 <= i < j < |r| ensures r[i].0 != r[j].0 {
        if i == 0 {
          assert r[j] == tail[j - 1];
          assert r[j].0 in Keys(tail);
        } else {
          assert r[i] == tail[i - 1] && r[j] == tail[j - 1];
        }
      }
    } else if d != [] {
      var r := [(k, v)] + d[1..];
      assert Put(d, k, v) == r;
      forall i, j | 0 <= i < j < |r| ensures r[i].0 != r[j].0 {
        assert r[j] == d[j];
        if i > 0 { assert r[i] == d[i]; }
      }
    }
  }

  /** `d.setdefault(k, v)`: an existing entry for `k` is kept, otherwise one is appended. */
  function SetDefault<V>(d: Dict<V>, k: string, v: V): (r: Dict<V>)
    ensures Lookup(r, k) == if k in Keys(d) then Lookup(d, k) else Some(v)
    ensures forall k' :: k' != k ==> Lookup(r, k') == Lookup(d, k')
    ensures Keys(r) == Keys(d) + {k}
  {
    if k in Keys(d) then d
    else
      KeysSnoc(d, (k, v));
      forall k' ensures Lookup(d + [(k, v)], k') ==
        if Lookup(d, k').Some? then Lookup(d, k') else if k == k' then Some(v) else None
      {
        LookupSnoc(d, (k, v), k');
      }
      d + [(k, v)]
  }

  /** Assigning every entry of `es` in order: `d.update(es)`, or `{**d, **es}`. */
  function PutAll<V>(d: Dict<V>, es: Dict<V>): Dict<V>
  {
    if es == [] then d
    else
      var e := es[|es| - 1];
      Put(PutAll(d, es[..|es| - 1]), e.0, e.1)
  }

  /** `setdefault` for every entry of `es` in order. */
  function SetDefaultAll<V>(d: Dict<V>, es: Dict<V>): Dict<V>
  {
    if es == [] then d
    else
      var e := es[|es| - 1];
      SetDefault(SetDefaultAll(d, es[..|es| - 1]), e.0, e.1)
  }

  /** Assigning one more entry after a run of assignments. */
  lemma PutAllSnoc<V>(d: Dict<V>, es: Dict<V>, e: (string, V))
    ensures PutAll(d, es + [e]) == Put(PutAll(d, es), e.0, e.1)
  {
    assert (es + [e])[..|es|] == es;
  }

  /** One more `setdefault` after a run of them. */
  lemma SetDefaultAllSnoc<V>(d: Dict<V>, es: Dict<V>, e: (string, V))
    ensures SetDefaultAll(d, es + [e]) == SetDefault(SetDefaultAll(d, es), e.0, e.1)
  {
    assert (es + [e])[..|es|] == es;
  }

  /** The value of the last entry of `es` whose key is `k`. */
  function LastValue<V>(es: Dict<V>, k: string): Option<V>
  {
    if es == [] then None
    else if es[|es| - 1].0 == k then Some(es[|es| - 1].1)
    else LastValue(es[..|es| - 1], k)
  }

  /** After a run of assignments the last assignment to a key wins; keys never
      assigned keep their old value. */
  lemma {:induction false} LookupPutAll<V>(d: Dict<V>, es: Dict<V>, k: string)
    ensures Lookup(PutAll(d, es), k) ==
      if LastValue(es, k).Some? then LastValue(es, k) else Lookup(d, k)
    decreases |es|
  {
    if es != [] {
      LookupPutAll(d, es[..|es| - 1], k);
    }
  }

  /** The keys after a run of assignments are the old keys and the assigned ones;
      assignment never introduces a duplicate key. */
  lemma {:induction false} KeysPutAll<V>(d: Dict<V>, es: Dict<V>)
    ensures Keys(PutAll(d, es)) == Keys(d) + Keys(es)
    ensures UniqueKeys(d) ==> UniqueKeys(PutAll(d, es))
    decreases |es|
  {
    if es != [] {
      var init := es[..|es| - 1];
      KeysPutAll(d, init);
      assert es == init + [es[|es| - 1]];
      KeysSnoc(init, es[|es| - 1]);
      if UniqueKeys(d) {
        PutUnique(PutAll(d, init), es[|es| - 1].0, es[|es| - 1].1);
      }
    }
  }

  /** After a run of `setdefault` calls an existing key keeps its value, and a new
      key takes the value of its first occurrence in `es`. */
  lemma {:induction false} LookupSetDefaultAll<V>(d: Dict<V>, es: Dict<V>, k: string)
    ensures Lookup(SetDefaultAll(d, es), k) ==
      if Lookup(d, k).Some? then Lookup(d, k) else Lookup(es, k)
    decreases |es|
  {
    if es != [] {
      var init := es[..|es| - 1];
      var e := es[|es| - 1];
      LookupSetDefaultAll(d, init, k);
      assert es == init + [e];
      LookupSnoc(init, e, k);
    }
  }

  /** The first entry whose key is `k` answers a lookup. */
  lemma {:induction false} LookupFirst<V>(d: Dict<V>, i: nat, k: string)
    requires i < |d| && d[i].0 == k
    requires forall j :: 0 <= j < i ==> d[j].0 != k
    ensures Lookup(d, k) == Some(d[i].1)
  {
    if i > 0 {
      LookupFirst(d[1..], i - 1, k);
    }
  }

  /** In a dict with unique keys the last entry for a key is also the first. */
  lemma {:induction false} LastValueUnique<V>(es: Dict<V>, k: string)
    requires UniqueKeys(es)
    ensures LastValue(es, k) == Lookup(es, k)
    decreases |es|
  {
    if es != [] {
      var init := es[..|es| - 1];
      var e := es[|es| - 1];
      assert es == init + [e];
      LookupSnoc(init, e, k);
      LastValueUnique(init, k);
    }
  }

  lemma ConcatAssoc<T>(a: seq<T>, b: seq<T>, c: seq<T>)
    ensures (a + b) + c == a + (b + c)
  {
  }

  lemma TakeSnoc<T>(s: seq<T>, i: nat)
    requires i < |s|
    ensures s[..i + 1] == s[..i] + [s[i]]
  {
  }
}
