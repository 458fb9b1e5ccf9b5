/** JSON values as the Python code sees them after `json.loads`, with the bits of
    Python semantics the code leans on: truthiness, `a or b`, `dict.get`,
    `isinstance(x, (int, float))` (which admits booleans), `int(x)`, `float(x)`,
    `a >= b`, and what `list.extend(x)` / `len(x)` see of a value. */
module Json {
  import opened Wrappers
  import opened Dicts
  import Text

  datatype Json =
    | Null
    | Bool(b: bool)
    | Int(i: int)
    | Float(r: real)   // a finite Python float, as a rational
    | Str(s: string)
    | Arr(items: seq<Json>)
    | Obj(fields: Dict<Json>)

  /** Python's `bool(x)`. */
  predicate Truthy(j: Json)
  {
    match j
    case Null => false
    case Bool(b) => b
    case Int(i) => i != 0
    case Float(r) => r != 0.0
    case Str(s) => s != []
    case Arr(a) => a != []
    case Obj(f) => f != []
  }

  /** Python's `a or b`. */
  function Or(a: Json, b: Json): Json
  {
    if Truthy(a) then a else b
  }

  /** `d.get(k)` on a dict: the value, or None when the key is absent. */
  function Get(d: Dict<Json>, k: string): (r: Json)
    ensures k !in Keys(d) ==> r == Null
    ensures k in Keys(d) ==> Lookup(d, k) == Some(r)
  {
    match Lookup(d, k)
    case Some(v) => v
    case None => Null
  }

  /** `x.get(k)` on any value: only a dict has `get`. */
  function GetIn(j: Json, k: string): (r: Result<Json>)
    ensures r.Ok? <==> j.Obj?
  {
    if j.Obj? then Ok(Get(j.fields, k)) else Err(WrongType)
  }

  /** `isinstance(x, (int, float))`; `bool` is a subclass of `int` in Python. */
  predicate IsNumber(j: Json)
  {
    j.Bool? || j.Int? || j.Float?
  }

  function NumValue(j: Json): real
    requires IsNumber(j)
  {
    match j
    case Bool(b) => if b then 1.0 else 0.0
    case Int(i) => i as real
    case Float(r) => r
  }

  /** Truncation toward zero, as Python's `int` applies it to a float. */
  function Trunc(r: real): (n: int)
    ensures r >= 0.0 ==> n as real <= r < n as real + 1.0
    ensures r < 0.0 ==> n as real - 1.0 < r <= n as real
  {
    if r >= 0.0 then r.Floor else -((-r).Floor)
  }

  /** Python's `int(x)` on a JSON value. */
  function ToInt(j: Json): (r: Result<int>)
    ensures j.Int? ==> r == Ok(j.i)
    ensures r.Err? ==> !IsNumber(j)
  {
    match j
    case Int(i) => Ok(i)
    case Bool(b) => Ok(if b then 1 else 0)
    case Float(x) => Ok(Trunc(x))
    case Str(s) =>
      (match Text.ParseInt(s)
       case Some(n) => Ok(n)
       case None => Err(BadIntLiteral))
    case _ => Err(WrongType)
  }

  /** Python's `float(x)`, with the parsing of strings left to `parseFloat`;
      `None` stands for the exception. */
  function ToFloat(j: Json, parseFloat: string -> Option<real>): (r: Option<real>)
    ensures IsNumber(j) ==> r == Some(NumValue(j))
  {
    match j
    case Str(s) => parseFloat(s)
    case _ => if IsNumber(j) then Some(NumValue(j)) else None
  }

  /** Python's `a == b` on JSON values: numbers (booleans included) by value,
      None and strings by content, lists element by element, dicts as mappings
      (as many entries, and each key of one present in the other with an equal
      value); values of different kinds are unequal. */
  predicate PyEq(a: Json, b: Json)
    decreases a
  {
    if IsNumber(a) && IsNumber(b) then NumValue(a) == NumValue(b)
    else
      match a
      case Null => b.Null?
      case Str(x) => b.Str? && x == b.s
      case Arr(xs) =>
        b.Arr? && |xs| == |b.items| && forall i :: 0 <= i < |xs| ==> PyEq(xs[i], b.items[i])
      case Obj(f) =>
        b.Obj? && |f| == |b.fields| &&
        forall i :: 0 <= i < |f| ==> f[i].0 in Keys(b.fields) && PyEq(f[i].1, Get(b.fields, f[i].0))
      case _ => false
  }

  /** Keys are unique in every dict inside the value, as `json.loads` leaves them. */
  ghost predicate DistinctKeys(j: Json)
  {
    match j
    case Arr(xs) => forall i :: 0 <= i < |xs| ==> DistinctKeys(xs[i])
    case Obj(f) => UniqueKeys(f) && forall i :: 0 <= i < |f| ==> DistinctKeys(f[i].1)
    case _ => true
  }

  /** Python's `a >= b`: numbers by value, strings lexicographically, lists
      lexicographically by their elements; any other pairing (None against a
      number in particular) is a TypeError. */
  function PyGe(a: Json, b: Json): (r: Result<bool>)
    ensures IsNumber(a) && IsNumber(b) ==> r == Ok(NumValue(a) >= NumValue(b))
    ensures a.Str? && b.Str? ==> r == Ok(!Text.StrLt(a.s, b.s))
    ensures r.Ok? ==> (IsNumber(a) && IsNumber(b)) || (a.Str? && b.Str?) || (a.Arr? && b.Arr?)
    decreases a, 1
  {
    if IsNumber(a) && IsNumber(b) then Ok(NumValue(a) >= NumValue(b))
    else if a.Str? && b.Str? then Ok(!Text.StrLt(a.s, b.s))
    else if a.Arr? && b.Arr? then ListGe(a, b, 0)
    else Err(WrongType)
  }

  /** List `>=` from index `i` on: the first pair of elements that differ (by
      `==`) decides, through their own `>=`; when one list runs out first the
      longer list is the greater. */
  function ListGe(a: Json, b: Json, i: nat): Result<bool>
    requires a.Arr? && b.Arr?
    decreases a, 0, |a.items| - i
  {
    if i >= |a.items| || i >= |b.items| then Ok(|a.items| >= |b.items|)
    else if PyEq(a.items[i], b.items[i]) then ListGe(a, b, i + 1)
    else PyGe(a.items[i], b.items[i])
  }

  lemma {:induction false} ListGeFrom(xs: seq<Json>, ys: seq<Json>, k: nat, i: nat)
    requires k <= i <= |xs| && i <= |ys|
    requires forall j :: k <= j < i ==> PyEq(xs[j], ys[j])
    ensures ListGe(Arr(xs), Arr(ys), k) == ListGe(Arr(xs), Arr(ys), i)
    decreases i - k
  {
    if k < i {
      ListGeFrom(xs, ys, k + 1, i);
    }
  }

  /** The two cases of list comparison: past a common prefix of equal elements,
      either one list has run out and the lengths decide, or the first unequal
      pair decides. */
  lemma ListGeSpec(xs: seq<Json>, ys: seq<Json>, i: nat)
    requires i <= |xs| && i <= |ys|
    requires forall j :: 0 <= j < i ==> PyEq(xs[j], ys[j])
    ensures i == |xs| || i == |ys| ==> PyGe(Arr(xs), Arr(ys)) == Ok(|xs| >= |ys|)
    ensures i < |xs| && i < |ys| && !PyEq(xs[i], ys[i]) ==>
      PyGe(Arr(xs), Arr(ys)) == PyGe(xs[i], ys[i])
  {
    ListGeFrom(xs, ys, 0, i);
  }

  /** `==` is reflexive on parsed JSON. */
  lemma {:induction false} PyEqRefl(a: Json)
    requires DistinctKeys(a)
    ensures PyEq(a, a)
    decreases a
  {
    match a
    case Arr(xs) =>
      forall i | 0 <= i < |xs|
        ensures PyEq(xs[i], xs[i])
      {
        PyEqRefl(xs[i]);
      }
    case Obj(f) =>
      forall i | 0 <= i < |f|
        ensures f[i].0 in Keys(f) && PyEq(f[i].1, Get(f, f[i].0))
      {
        assert f[i].0 in Keys(f);
        LookupFirst(f, i, f[i].0);
        PyEqRefl(f[i].1);
      }
    case _ =>
  }

  /** A list compares `>=` to itself, so equal single-element paging counters
      stop a loop that tests `current >= total`. */
  lemma ListGeRefl(xs: seq<Json>)
    requires forall i :: 0 <= i < |xs| ==> DistinctKeys(xs[i])
    ensures PyGe(Arr(xs), Arr(xs)) == Ok(true)
  {
    forall j | 0 <= j < |xs|
      ensures PyEq(xs[j], xs[j])
    {
      PyEqRefl(xs[j]);
    }
    ListGeSpec(xs, xs, |xs|);
  }

  /** A list is `>=` any of its prefixes, and a prefix is not `>=` a longer list. */
  lemma ListGePrefix(xs: seq<Json>, ys: seq<Json>)
    requires forall i :: 0 <= i < |xs| ==> DistinctKeys(xs[i])
    requires ys != []
    ensures PyGe(Arr(xs + ys), Arr(xs)) == Ok(true)
    ensures PyGe(Arr(xs), Arr(xs + ys)) == Ok(false)
  {
    forall j | 0 <= j < |xs|
      ensures PyEq((xs + ys)[j], xs[j]) && PyEq(xs[j], (xs + ys)[j])
    {
      PyEqRefl(xs[j]);
    }
    ListGeSpec(xs + ys, xs, |xs|);
    ListGeSpec(xs, xs + ys, |xs|);
  }

  /** What iterating over a value yields (`list.extend(x)`): a list's elements, a
      string's characters, a dict's keys; numbers and None are a TypeError. */
  function Elements(j: Json): (r: Result<seq<Json>>)
    ensures j.Arr? ==> r == Ok(j.items)
    ensures j.Str? ==> r.Ok? && |r.value| == |j.s|
    ensures j.Obj? ==> r.Ok? && |r.value| == |j.fields|
    ensures r.Ok? <==> (j.Arr? || j.Str? || j.Obj?)
  {
    match j
    case Arr(xs) => Ok(xs)
    case Str(s) => Ok(seq(|s|, i requires 0 <= i < |s| => Str([s[i]])))
    case Obj(f) => Ok(seq(|f|, i requires 0 <= i < |f| => Str(f[i].0)))
    case _ => Err(WrongType)
  }
}
