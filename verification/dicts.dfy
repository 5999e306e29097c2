/** Python `dict`s keep their keys in insertion order, and several results
    of the system (detail rows, id assignment) follow that order.  A `Dict`
    is a map from string keys together with the order in which its keys were first added. */
module Dicts {
  import opened Wrappers

  datatype Dict<V> = Dict(order: seq<string>, entries: map<string, V>) {

    /** Every key appears once in `order`, and `order` lists exactly the
        keys of `entries`. */
    ghost predicate Valid() {
      (forall i, j :: 0 <= i < j < |order| ==> order[i] != order[j])
      && (forall k :: k in entries <==> k in order)
    }

    function Get(k: string): (r: Option<V>)
      ensures r.Some? <==> k in entries
      ensures r.Some? ==> r.value == entries[k]
    {
      if k in entries then Some(entries[k]) else None
    }

    /** `d[k] = v`: a new key goes to the end, an existing key keeps its
        position and gets the new value. */
    function Put(k: string, v: V): (d: Dict<V>)
      requires Valid()
      ensures d.Valid()
      ensures d.entries == entries[k := v]
      ensures k in entries ==> d.order == order
      ensures k !in entries ==> d.order == order + [k]
    {
      if k in entries then Dict(order, entries[k := v])
      else Dict(order + [k], entries[k := v])
    }

    /** `del d[k]` (nothing happens for a missing key). */
    function Remove(k: string): (d: Dict<V>)
      requires Valid()
      ensures d.Valid()
      ensures d.entries.Keys == entries.Keys - {k}
      ensures forall j :: j in d.entries ==> d.entries[j] == entries[j]
      ensures forall i :: 0 <= i < |d.order| ==> d.order[i] != k
    {
      var o := Without(order, k);
      Dict(o, map j | j in entries && j != k :: entries[j])
    }

    function Size(): nat {
      |order|
    }
  }

  /** `order` with every occurrence of `k` dropped, other keys in order. */
  function Without(order: seq<string>, k: string): (o: seq<string>)
    ensures forall j :: j in o <==> j in order && j != k
    ensures (forall a, b :: 0 <= a < b < |order| ==> order[a] != order[b])
      ==> (forall a, b :: 0 <= a < b < |o| ==> o[a] != o[b])
  {
    if |order| == 0 then []
    else if order[0] == k then Without(order[1..], k)
    else
      var rest := Without(order[1..], k);
      assert forall j :: j in rest ==> j in order[1..];
      assert (forall a, b :: 0 <= a < b < |order| ==> order[a] != order[b]) ==> order[0] !in order[1..];
      [order[0]] + rest
  }

  function EmptyDict<V>(): (d: Dict<V>)
    ensures d.Valid() && d.Size() == 0
  {
    Dict([], map[])
  }

  /** The sum of the values of a dict of numbers, `sum(d.values())`. */
  function Total(d: Dict<real>): real {
    TotalOver(d.order, d.entries)
  }

  function TotalOver(order: seq<string>, entries: map<string, real>): real
    decreases |order|
  {
    if |order| == 0 then 0.0
    else
      var k := order[|order| - 1];
      TotalOver(order[..|order| - 1], entries) + (if k in entries then entries[k] else 0.0)
  }

  /** Changing the value of a key the order does not list changes nothing. */
  lemma {:induction false} TotalOverUnlisted(order: seq<string>, entries: map<string, real>, k: string, v: real)
    requires k !in order
    ensures TotalOver(order, entries[k := v]) == TotalOver(order, entries)
    decreases |order|
  {
    if |order| > 0 {
      TotalOverUnlisted(order[..|order| - 1], entries, k, v);
    }
  }

  /** Changing the value of a key listed once changes the total by the
      difference. */
  lemma {:induction false} TotalOverListed(order: seq<string>, entries: map<string, real>, k: string, v: real)
    requires k in entries
    requires forall i, j :: 0 <= i < j < |order| ==> order[i] != order[j]
    requires k in order
    ensures TotalOver(order, entries[k := v]) == TotalOver(order, entries) - entries[k] + v
    decreases |order|
  {
    var n := |order|;
    var init := order[..n - 1];
    if order[n - 1] == k {
      assert k !in init;
      TotalOverUnlisted(init, entries, k, v);
    } else {
      assert k in init;
      TotalOverListed(init, entries, k, v);
    }
  }

  /** `d[k] = d.get(k, 0) + x` */
  function AddTo(d: Dict<real>, k: string, x: real): (r: Dict<real>)
    requires d.Valid()
    ensures r.Valid()
    ensures Total(r) == Total(d) + x
    ensures k in r.entries && r.entries[k] == d.Get(k).GetOr(0.0) + x
    ensures forall j :: j != k ==> (j in r.entries <==> j in d.entries)
    ensures forall j :: j != k && j in d.entries ==> r.entries[j] == d.entries[j]
  {
    AddToTotal(d, k, x);
    d.Put(k, d.Get(k).GetOr(0.0) + x)
  }

  lemma AddToTotal(d: Dict<real>, k: string, x: real)
    requires d.Valid()
    ensures Total(d.Put(k, d.Get(k).GetOr(0.0) + x)) == Total(d) + x
  {
    if k in d.entries {
      TotalOverListed(d.order, d.entries, k, d.entries[k] + x);
    } else {
      TotalOverUnlisted(d.order, d.entries, k, x);
      assert (d.order + [k])[..|d.order|] == d.order;
    }
  }

  /** Dropping a key that is not listed changes nothing. */
  lemma {:induction false} WithoutAbsent(order: seq<string>, k: string)
    requires k !in order
    ensures Without(order, k) == order
  {
    if |order| > 0 {
      assert order[1..] == order[1..] && k !in order[1..];
      WithoutAbsent(order[1..], k);
      assert order == [order[0]] + order[1..];
    }
  }

  /** Dropping a key listed once shortens the order by one. */
  lemma {:induction false} WithoutOne(order: seq<string>, k: string)
    requires forall a, b :: 0 <= a < b < |order| ==> order[a] != order[b]
    requires k in order
    ensures |Without(order, k)| == |order| - 1
  {
    if order[0] == k {
      assert k !in order[1..];
      WithoutAbsent(order[1..], k);
    } else {
      assert k in order[1..];
      WithoutOne(order[1..], k);
    }
  }

  /** `del d[k]` for every listed key in turn; keys already gone are
      skipped. */
  function RemoveAll<V>(d: Dict<V>, keys: seq<string>): (r: Dict<V>)
    requires d.Valid()
    ensures r.Valid()
    ensures r.entries.Keys == d.entries.Keys - set k | k in keys
    ensures forall j :: j in r.entries ==> r.entries[j] == d.entries[j]
    decreases |keys|
  {
    if |keys| == 0 then d
    else
      var r := RemoveAll(d.Remove(keys[0]), keys[1..]);
      assert forall k :: k in keys <==> k == keys[0] || k in keys[1..];
      r
  }
}
