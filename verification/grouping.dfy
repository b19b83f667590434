/** The "bucket by key" idiom of the source: walk a list in order, look up
    (or create) the entry of each item's key and rewrite it with a step
    function. Per key, that is the plain fold of the step over the items
    with that key; the lemmas here say so once for every bucketing. */
module Grouping {
  import opened Ordered

  /** The items whose key is `k`, in order. */
  function Only<T, K(==)>(xs: seq<T>, key: T -> K, k: K): (r: seq<T>)
    ensures |r| <= |xs|
    ensures forall i :: 0 <= i < |r| ==> key(r[i]) == k
    ensures forall x :: x in r ==> x in xs
  {
    if |xs| == 0 then []
    else Only(xs[..|xs| - 1], key, k) + (if key(xs[|xs| - 1]) == k then [xs[|xs| - 1]] else [])
  }

  /** A left fold: `xs.forEach(x => v = step(v, x))`. */
  function Run<V, T>(v: V, xs: seq<T>, step: (V, T) -> V): V
  {
    if |xs| == 0 then v else step(Run(v, xs[..|xs| - 1], step), xs[|xs| - 1])
  }

  lemma {:induction false} RunAppend<V, T>(v: V, xs: seq<T>, ys: seq<T>, step: (V, T) -> V)
    ensures Run(v, xs + ys, step) == Run(Run(v, xs, step), ys, step)
    decreases |ys|
  {
    if |ys| == 0 {
      assert xs + ys == xs;
    } else {
      assert (xs + ys)[..|xs + ys| - 1] == xs + ys[..|ys| - 1];
      RunAppend(v, xs, ys[..|ys| - 1], step);
    }
  }

  /** `xs.forEach(x => { const e = o[key(x)] || init; o[key(x)] = step(e, x) })`. */
  function Group<K(==, !new), V, T>(o: OMap<K, V>, xs: seq<T>, key: T -> K, init: V, step: (V, T) -> V): (r: OMap<K, V>)
    requires Valid(o)
    ensures Valid(r)
  {
    if |xs| == 0 then o
    else
      var prev := Group(o, xs[..|xs| - 1], key, init, step);
      var k := key(xs[|xs| - 1]);
      Put(prev, k, step(Lookup(prev, k, init), xs[|xs| - 1]))
  }

  /** Per key, grouping is folding: a key is present once an item has it,
      and its entry is the step folded over that key's items, in order. */
  lemma {:induction false} GroupAt<K(!new), V, T>(o: OMap<K, V>, xs: seq<T>, key: T -> K, init: V, step: (V, T) -> V, k: K)
    requires Valid(o)
    ensures k in Group(o, xs, key, init, step).entries <==> k in o.entries || |Only(xs, key, k)| > 0
    ensures Lookup(Group(o, xs, key, init, step), k, init) == Run(Lookup(o, k, init), Only(xs, key, k), step)
    decreases |xs|
  {
    if |xs| > 0 {
      var init' := xs[..|xs| - 1];
      var x := xs[|xs| - 1];
      GroupAt(o, init', key, init, step, k);
      if key(x) == k {
        var ys := Only(init', key, k) + [x];
        assert Only(xs, key, k) == ys;
        assert ys[..|ys| - 1] == Only(init', key, k);
      } else {
        assert Only(xs, key, k) == Only(init', key, k);
      }
    }
  }

  /** Grouping only ever appends keys: the earlier key order is kept. */
  lemma {:induction false} GroupKeepsOrder<K(!new), V, T>(o: OMap<K, V>, xs: seq<T>, key: T -> K, init: V, step: (V, T) -> V)
    requires Valid(o)
    ensures |o.keys| <= |Group(o, xs, key, init, step).keys|
    ensures Group(o, xs, key, init, step).keys[..|o.keys|] == o.keys
    decreases |xs|
  {
    if |xs| > 0 {
      GroupKeepsOrder(o, xs[..|xs| - 1], key, init, step);
    }
  }
}
