/**
 * Python dicts whose iteration order matters: a dict is the sequence of its
 * items in insertion order. Assigning to an existing key keeps its place;
 * a new key goes last.
 */
module PyDict {

  type Dict<V> = seq<(string, V)>

  function Keys<V>(d: Dict<V>): (ks: seq<string>)
    ensures |ks| == |d|
    ensures forall i :: 0 <= i < |d| ==> ks[i] == d[i].0
  {
    seq(|d|, i requires 0 <= i < |d| => d[i].0)
  }

  predicate DistinctKeys<V>(d: Dict<V>) {
    forall i, j :: 0 <= i < j < |d| ==> d[i].0 != d[j].0
  }

  /** The mapping a dict stands for; an item later in the sequence wins. */
  function ToMap<V>(d: Dict<V>): (m: map<string, V>)
    ensures forall k :: k in m <==> k in Keys(d)
    decreases |d|
  {
    if d == [] then map[]
    else
      var m := ToMap(d[..|d| - 1]);
      assert forall k :: k in Keys(d) <==> k in Keys(d[..|d| - 1]) || k == d[|d| - 1].0 by {
        forall k | k in Keys(d) ensures k in Keys(d[..|d| - 1]) || k == d[|d| - 1].0 {
          var i :| 0 <= i < |d| && Keys(d)[i] == k;
          if i < |d| - 1 { assert Keys(d[..|d| - 1])[i] == k; }
        }
        forall k | k in Keys(d[..|d| - 1]) ensures k in Keys(d) {
          var i :| 0 <= i < |d| - 1 && Keys(d[..|d| - 1])[i] == k;
          assert Keys(d)[i] == k;
        }
        assert Keys(d)[|d| - 1] == d[|d| - 1].0;
      }
      m[d[|d| - 1].0 := d[|d| - 1].1]
  }

  /** With distinct keys every item is found under its own key. */
  lemma {:induction false} ToMapAt<V>(d: Dict<V>, i: nat)
    requires DistinctKeys(d) && i < |d|
    ensures d[i].0 in ToMap(d) && ToMap(d)[d[i].0] == d[i].1
    decreases |d|
  {
    if i < |d| - 1 {
      ToMapAt(d[..|d| - 1], i);
    }
  }

  /** The position of key `k`, if present. */
  function Find<V>(d: Dict<V>, k: string): (r: int)
    ensures -1 <= r < |d|
    ensures r >= 0 ==> d[r].0 == k
    ensures r < 0 ==> forall i :: 0 <= i < |d| ==> d[i].0 != k
    decreases |d|
  {
    if d == [] then -1
    else if d[|d| - 1].0 == k then |d| - 1
    else Find(d[..|d| - 1], k)
  }

  /** `d[k] = v`. */
  function Set<V>(d: Dict<V>, k: string, v: V): (r: Dict<V>)
    requires DistinctKeys(d)
    ensures DistinctKeys(r)
    ensures ToMap(r) == ToMap(d)[k := v]
  {
    var i := Find(d, k);
    if i < 0 then
      AppendNew(d, k, v);
      d + [(k, v)]
    else
      ReplaceAt(d, i, k, v);
      d[i := (k, v)]
  }

  lemma AppendNew<V>(d: Dict<V>, k: string, v: V)
    requires DistinctKeys(d) && forall i :: 0 <= i < |d| ==> d[i].0 != k
    ensures DistinctKeys(d + [(k, v)])
    ensures ToMap(d + [(k, v)]) == ToMap(d)[k := v]
  {
    assert (d + [(k, v)])[..|d|] == d;
  }

  lemma ReplaceAt<V>(d: Dict<V>, i: nat, k: string, v: V)
    requires DistinctKeys(d) && i < |d| && d[i].0 == k
    ensures DistinctKeys(d[i := (k, v)])
    ensures ToMap(d[i := (k, v)]) == ToMap(d)[k := v]
  {
    var r := d[i := (k, v)];
    assert forall j :: 0 <= j < |r| ==> r[j].0 == d[j].0;
    assert Keys(r) == Keys(d);
    var m, e := ToMap(r), ToMap(d)[k := v];
    assert m.Keys == e.Keys;
    forall kk | kk in m ensures m[kk] == e[kk] {
      var j :| 0 <= j < |r| && Keys(r)[j] == kk;
      ToMapAt(r, j);
      if j != i { ToMapAt(d, j); }
    }
  }

  /** A dict filled by assigning `items` one after the other. */
  function FromItems<V>(items: seq<(string, V)>): (d: Dict<V>)
    ensures DistinctKeys(d)
    ensures ToMap(d) == ToMap(items)
    decreases |items|
  {
    if items == [] then []
    else Set(FromItems(items[..|items| - 1]), items[|items| - 1].0, items[|items| - 1].1)
  }

  lemma FromItemsSnoc<V>(items: seq<(string, V)>, k: string, v: V)
    ensures FromItems(items + [(k, v)]) == Set(FromItems(items), k, v)
  {
    assert (items + [(k, v)])[..|items|] == items;
  }

  /** Every entry of the mapping comes from the last item of the dict with that key. */
  lemma {:induction false} ToMapFrom<V>(d: Dict<V>, k: string)
    requires k in ToMap(d)
    ensures exists j :: 0 <= j < |d| && d[j] == (k, ToMap(d)[k]) && forall i :: j < i < |d| ==> d[i].0 != k
    decreases |d|
  {
    if d[|d| - 1].0 != k {
      var init := d[..|d| - 1];
      ToMapFrom(init, k);
      var j :| 0 <= j < |init| && init[j] == (k, ToMap(init)[k]) && forall i :: j < i < |init| ==> init[i].0 != k;
      assert d[j] == init[j];
      assert forall i :: j < i < |d| ==> d[i].0 != k by {
        forall i | j < i < |d| ensures d[i].0 != k {
          if i < |init| { assert d[i] == init[i]; }
        }
      }
    }
  }

  /** The value under a key is the one of the last item with that key. */
  lemma {:induction false} ToMapLastWins<V>(d: Dict<V>, j: nat)
    requires j < |d|
    requires forall i :: j < i < |d| ==> d[i].0 != d[j].0
    ensures d[j].0 in ToMap(d) && ToMap(d)[d[j].0] == d[j].1
    decreases |d|
  {
    if j < |d| - 1 {
      ToMapLastWins(d[..|d| - 1], j);
    }
  }
}
