/** `groupby(name).sum()` over one numeric column: the keys come out
    distinct and in ascending order, and each key's sum gathers the values
    of the rows carrying that key.  Grouping neither loses nor invents any
    amount. */
module Grouping {
  import Seqs

  /** The sum of all values. */
  function Total(vals: seq<real>): real {
    if vals == [] then 0.0 else Total(vals[..|vals| - 1]) + vals[|vals| - 1]
  }

  /** The sum of the values whose name is `k`. */
  function SumFor(names: seq<string>, vals: seq<real>, k: string): real
    requires |names| == |vals|
  {
    if names == [] then 0.0
    else
      var n := |names| - 1;
      SumFor(names[..n], vals[..n], k) + (if names[n] == k then vals[n] else 0.0)
  }

  /** The group sums of the keys `ks` added together. */
  function SumOver(ks: seq<string>, names: seq<string>, vals: seq<real>): real
    requires |names| == |vals|
  {
    if ks == [] then 0.0 else SumOver(ks[..|ks| - 1], names, vals) + SumFor(names, vals, ks[|ks| - 1])
  }

  /** The keys of the groups. */
  function Keys(names: seq<string>): (ks: seq<string>)
    ensures Seqs.Ascending(ks) && Seqs.NoDuplicates(ks)
    ensures forall k :: k in ks <==> k in names
  {
    Seqs.SortedDistinct(names)
  }

  /** One more row adds its value to its own group only. */
  lemma {:induction false} SumOverExtend(ks: seq<string>, names: seq<string>, vals: seq<real>, n: string, v: real)
    requires |names| == |vals| && Seqs.NoDuplicates(ks)
    ensures SumOver(ks, names + [n], vals + [v]) == SumOver(ks, names, vals) + (if n in ks then v else 0.0)
  {
    if ks != [] {
      var m := |ks| - 1;
      var front := ks[..m];
      assert ks == front + [ks[m]];
      assert (names + [n])[..|names|] == names && (vals + [v])[..|vals|] == vals;
      SumOverExtend(front, names, vals, n, v);
      assert n in ks <==> n in front || n == ks[m];
      assert ks[m] !in front;
    }
  }

  /** The group sums of distinct keys that cover every name add up to the
      total. */
  lemma {:induction false} SumOverCovering(ks: seq<string>, names: seq<string>, vals: seq<real>)
    requires |names| == |vals| && Seqs.NoDuplicates(ks)
    requires forall i :: 0 <= i < |names| ==> names[i] in ks
    ensures SumOver(ks, names, vals) == Total(vals)
  {
    if names != [] {
      var n := |names| - 1;
      assert names == names[..n] + [names[n]] && vals == vals[..n] + [vals[n]];
      SumOverCovering(ks, names[..n], vals[..n]);
      SumOverExtend(ks, names[..n], vals[..n], names[n], vals[n]);
    } else {
      SumOverNoRows(ks);
    }
  }

  lemma {:induction false} SumOverNoRows(ks: seq<string>)
    ensures SumOver(ks, [], []) == 0.0
  {
    if ks != [] {
      SumOverNoRows(ks[..|ks| - 1]);
    }
  }

  /** Grouping conserves the total: the sums of all groups add up to the
      sum of the column. */
  lemma GroupsConserve(names: seq<string>, vals: seq<real>)
    requires |names| == |vals|
    ensures SumOver(Keys(names), names, vals) == Total(vals)
  {
    SumOverCovering(Keys(names), names, vals);
  }

  /** A name that does not occur gets nothing. */
  lemma {:induction false} SumForAbsent(names: seq<string>, vals: seq<real>, k: string)
    requires |names| == |vals| && k !in names
    ensures SumFor(names, vals, k) == 0.0
  {
    if names != [] {
      var n := |names| - 1;
      assert forall x :: x in names[..n] ==> x in names;
      SumForAbsent(names[..n], vals[..n], k);
    }
  }

  /** Group sums over two lists of rows put together add up. */
  lemma {:induction false} SumForAppend(a: seq<string>, av: seq<real>, b: seq<string>, bv: seq<real>, k: string)
    requires |a| == |av| && |b| == |bv|
    ensures SumFor(a + b, av + bv, k) == SumFor(a, av, k) + SumFor(b, bv, k)
  {
    if b != [] {
      var n := |b| - 1;
      assert (a + b)[..|a| + n] == a + b[..n] && (av + bv)[..|av| + n] == av + bv[..n];
      SumForAppend(a, av, b[..n], bv[..n], k);
    } else {
      assert a + b == a && av + bv == av;
    }
  }
}
