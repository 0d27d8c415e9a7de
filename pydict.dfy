/** Python dicts and the JSON-shaped values the scripts store in them.

    A Python dict keeps its keys in insertion order and holds each key once, so it
    is modelled as an association list: `d[k] = v` overwrites the value in place
    when `k` is present and appends otherwise. */
module PyDict {
  import opened Wrappers
  import opened PyStr

  type Dict<V> = seq<(string, V)>

  function Keys<V>(d: Dict<V>): (r: seq<string>)
    ensures |r| == |d|
    ensures forall i :: 0 <= i < |d| ==> r[i] == d[i].0
  {
    seq(|d|, i requires 0 <= i < |d| => d[i].0)
  }

  predicate DistinctKeys<V>(d: Dict<V>) {
    forall i, j :: 0 <= i < j < |d| ==> d[i].0 != d[j].0
  }

  /** `d.get(k)`: the value stored under `k`, or None. */
  function Get<V>(d: Dict<V>, k: string): (r: Option<V>)
    ensures r.None? <==> k !in Keys(d)
  {
    if d == [] then None
    else if d[0].0 == k then Some(d[0].1)
    else
      assert Keys(d) == [d[0].0] + Keys(d[1..]);
      Get(d[1..], k)
  }

  /** `d.get(k, default)`. */
  function GetOr<V>(d: Dict<V>, k: string, default: V): V {
    Get(d, k).GetOr(default)
  }

  /** `d[k] = v`. */
  function Set<V>(d: Dict<V>, k: string, v: V): (r: Dict<V>)
    ensures |r| == if k in Keys(d) then |d| else |d| + 1
  {
    if d == [] then [(k, v)]
    else if d[0].0 == k then [(k, v)] + d[1..]
    else
      assert Keys(d) == [d[0].0] + Keys(d[1..]);
      [d[0]] + Set(d[1..], k, v)
  }

  /** After `d[k] = v`, `k` reads back as `v` and every other key as before. */
  lemma {:induction false} GetSet<V>(d: Dict<V>, k: string, v: V, k': string)
    ensures Get(Set(d, k, v), k') == if k' == k then Some(v) else Get(d, k')
  {
    if d != [] && d[0].0 != k {
      GetSet(d[1..], k, v, k');
    }
  }

  /** `d[k] = v` keeps the key order and appends `k` only when it is new. */
  lemma {:induction false} SetKeys<V>(d: Dict<V>, k: string, v: V)
    ensures Keys(Set(d, k, v)) == if k in Keys(d) then Keys(d) else Keys(d) + [k]
  {
    if d != [] {
      assert Keys(d) == [d[0].0] + Keys(d[1..]);
      if d[0].0 != k {
        SetKeys(d[1..], k, v);
        assert Keys(Set(d, k, v)) == [d[0].0] + Keys(Set(d[1..], k, v));
      } else {
        assert Keys(Set(d, k, v)) == [k] + Keys(d[1..]);
      }
    }
  }

  /** `d.get(k)` finds the first pair with key `k`. */
  lemma {:induction false} GetAt<V>(d: Dict<V>, i: nat)
    requires i < |d| && forall j :: 0 <= j < i ==> d[j].0 != d[i].0
    ensures Get(d, d[i].0) == Some(d[i].1)
  {
    if i > 0 {
      GetAt(d[1..], i - 1);
    }
  }

  /** Assigning a key the dict lacks appends it at the end. */
  lemma {:induction false} SetNew<V>(d: Dict<V>, k: string, v: V)
    requires k !in Keys(d)
    ensures Set(d, k, v) == d + [(k, v)]
  {
    if d != [] {
      assert Keys(d) == [d[0].0] + Keys(d[1..]);
      SetNew(d[1..], k, v);
      assert [d[0]] + (d[1..] + [(k, v)]) == d + [(k, v)];
    }
  }

  /** The dict built by assigning each pair in turn, as `dict(pairs)` and
      `{k: v for ...}` do: a later pair for a key overwrites the value but not
      the position. */
  function FromPairs<V>(pairs: seq<(string, V)>): Dict<V>
  {
    if pairs == [] then []
    else Set(FromPairs(pairs[..|pairs| - 1]), pairs[|pairs| - 1].0, pairs[|pairs| - 1].1)
  }

  /** A dict built by assignments never holds a key twice. */
  lemma {:induction false} FromPairsDistinct<V>(pairs: seq<(string, V)>)
    ensures DistinctKeys(FromPairs(pairs))
  {
    if pairs != [] {
      var d := FromPairs(pairs[..|pairs| - 1]);
      var (k, v) := pairs[|pairs| - 1];
      FromPairsDistinct(pairs[..|pairs| - 1]);
      SetKeys(d, k, v);
      var r := Set(d, k, v);
      forall i, j | 0 <= i < j < |r| ensures r[i].0 != r[j].0 {
        assert Keys(r)[i] == r[i].0 && Keys(r)[j] == r[j].0;
      }
    }
  }

  /** The value of the last pair for `k`, searching from the end. */
  function LastOf<V>(pairs: seq<(string, V)>, k: string): (r: Option<V>)
    ensures r.None? <==> forall i :: 0 <= i < |pairs| ==> pairs[i].0 != k
    ensures r.Some? ==> exists i :: 0 <= i < |pairs| && pairs[i] == (k, r.value)
                                  && forall j :: i < j < |pairs| ==> pairs[j].0 != k
  {
    if pairs == [] then None
    else if pairs[|pairs| - 1].0 == k then Some(pairs[|pairs| - 1].1)
    else
      var init := pairs[..|pairs| - 1];
      var r := LastOf(init, k);
      assert pairs == init + [pairs[|pairs| - 1]];
      if r.Some? then LastOfExtends(init, pairs[|pairs| - 1], k, r.value); r else r
  }

  /** A pair for another key, appended at the end, keeps the last pair for `k`
      the last one. */
  lemma LastOfExtends<V>(init: seq<(string, V)>, last: (string, V), k: string, v: V)
    requires last.0 != k
    requires exists i :: 0 <= i < |init| && init[i] == (k, v) && forall j :: i < j < |init| ==> init[j].0 != k
    ensures exists i :: 0 <= i < |init| + 1 && (init + [last])[i] == (k, v)
                        && forall j :: i < j < |init| + 1 ==> (init + [last])[j].0 != k
  {
    var i :| 0 <= i < |init| && init[i] == (k, v) && forall j :: i < j < |init| ==> init[j].0 != k;
    assert (init + [last])[i] == (k, v);
  }

  /** Building a dict by assignments keeps, for each key, the last value
      assigned to it, and only keys that were assigned. */
  lemma {:induction false} FromPairsGet<V>(pairs: seq<(string, V)>, k: string)
    ensures Get(FromPairs(pairs), k) == LastOf(pairs, k)
  {
    if pairs != [] {
      var (k', v) := pairs[|pairs| - 1];
      FromPairsGet(pairs[..|pairs| - 1], k);
      GetSet(FromPairs(pairs[..|pairs| - 1]), k', v, k);
    }
  }

  /** JSON values as `json.load` returns them (numbers restricted to integers). */
  datatype Json = Null | Bool(b: bool) | Num(n: int) | Str(s: string) | Arr(items: seq<Json>) | Obj(fields: Dict<Json>)

  /** `type(v).__name__`, as it appears in Python's error messages. */
  function TypeName(v: Json): string {
    match v
    case Null => "NoneType"
    case Bool(_) => "bool"
    case Num(_) => "int"
    case Str(_) => "str"
    case Arr(_) => "list"
    case Obj(_) => "dict"
  }

  /** `str(v)` for the values whose `str` and `repr` agree. */
  function ScalarText(v: Json): string
    requires !v.Str? && !v.Arr? && !v.Obj?
  {
    match v
    case Null => "None"
    case Bool(b) => if b then "True" else "False"
    case Num(n) => IntToString(n)
  }

  /** `repr(v)`. */
  function Repr(v: Json): string {
    match v
    case Str(s) => "'" + s + "'"
    case Arr(items) => "[" + Join(seq(|items|, i requires 0 <= i < |items| => Repr(items[i])), ", ") + "]"
    case Obj(fields) =>
      "{" + Join(seq(|fields|, i requires 0 <= i < |fields| => "'" + fields[i].0 + "': " + Repr(fields[i].1)), ", ") + "}"
    case _ => ScalarText(v)
  }

  /** `str(v)`, which an f-string placeholder inserts: a string as it is,
      anything else as its `repr`. */
  function Format(v: Json): string {
    if v.Str? then v.s else Repr(v)
  }
}
