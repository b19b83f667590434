/** Keep-first de-duplication of a list under a key function, the
    `list.filter((v, i, self) => i === self.findIndex(x => key(x) === key(v)))`
    idiom, and the key set of a list. */
module Dedup {

  /** The set of keys of the elements of `s`. */
  function KeySet<T, K>(s: seq<T>, key: T -> K): set<K>
  {
    set i | 0 <= i < |s| :: key(s[i])
  }

  lemma KeySetSnoc<T, K>(s: seq<T>, x: T, key: T -> K)
    ensures KeySet(s + [x], key) == KeySet(s, key) + {key(x)}
  {
    var t := s + [x];
    assert key(t[|s|]) == key(x);
    forall k | k in KeySet(t, key) ensures k in KeySet(s, key) + {key(x)} {
      var i :| 0 <= i < |t| && key(t[i]) == k;
      if i < |s| { assert t[i] == s[i]; }
    }
    forall k | k in KeySet(s, key) ensures k in KeySet(t, key) {
      var i :| 0 <= i < |s| && key(s[i]) == k;
      assert t[i] == s[i];
    }
  }

  /** `s.findIndex(x => key(x) === k)`, with `|s|` standing for "not found". */
  function FindIndex<T, K(==)>(s: seq<T>, key: T -> K, k: K): (i: nat)
    ensures i <= |s|
    ensures i < |s| ==> key(s[i]) == k
    ensures forall j :: 0 <= j < i ==> key(s[j]) != k
    ensures i == |s| <==> k !in KeySet(s, key)
  {
    if |s| == 0 then 0
    else if key(s[0]) == k then 0
    else
      assert forall j :: 1 <= j < |s| ==> s[j] == s[1..][j - 1];
      FindIndex(s[1..], key, k) + 1
  }

  /** Position `i` holds the first occurrence of its key exactly when that key
      does not occur before `i`. */
  lemma FirstOccurrence<T, K>(s: seq<T>, key: T -> K, i: nat)
    requires i < |s|
    ensures FindIndex(s, key, key(s[i])) == i <==> key(s[i]) !in KeySet(s[..i], key)
  {
    if key(s[i]) in KeySet(s[..i], key) {
      var k :| 0 <= k < i && key(s[..i][k]) == key(s[i]);
      assert key(s[k]) == key(s[i]);
    } else {
      assert forall k :: 0 <= k < i ==> s[..i][k] == s[k];
    }
  }

  /** The elements among the first `n` of `s` that are the first with their key. */
  function KeepFirstUpTo<T, K(==)>(s: seq<T>, key: T -> K, n: nat): seq<T>
    requires n <= |s|
  {
    if n == 0 then []
    else KeepFirstUpTo(s, key, n - 1) + (if FindIndex(s, key, key(s[n - 1])) == n - 1 then [s[n - 1]] else [])
  }

  lemma {:induction false} KeepFirstUpToKeySet<T, K>(s: seq<T>, key: T -> K, n: nat)
    requires n <= |s|
    ensures KeySet(KeepFirstUpTo(s, key, n), key) == KeySet(s[..n], key)
  {
    if n > 0 {
      KeepFirstUpToKeySet(s, key, n - 1);
      var init := KeepFirstUpTo(s, key, n - 1);
      var v := s[n - 1];
      assert s[..n] == s[..n - 1] + [v];
      KeySetSnoc(s[..n - 1], v, key);
      if FindIndex(s, key, key(v)) == n - 1 {
        KeySetSnoc(init, v, key);
      } else {
        FirstOccurrence(s, key, n - 1);
        assert key(v) in KeySet(s[..n - 1], key);
        assert KeepFirstUpTo(s, key, n) == init;
      }
    }
  }

  lemma {:induction false} KeepFirstUpToDistinct<T, K>(s: seq<T>, key: T -> K, n: nat)
    requires n <= |s|
    ensures var r := KeepFirstUpTo(s, key, n);
      forall i, j :: 0 <= i < j < |r| ==> key(r[i]) != key(r[j])
  {
    if n > 0 {
      KeepFirstUpToDistinct(s, key, n - 1);
      var init := KeepFirstUpTo(s, key, n - 1);
      var v := s[n - 1];
      if FindIndex(s, key, key(v)) == n - 1 {
        KeepFirstUpToKeySet(s, key, n - 1);
        FirstOccurrence(s, key, n - 1);
        var r := init + [v];
        assert forall i :: 0 <= i < |init| ==> key(r[i]) in KeySet(init, key);
        assert forall i, j :: 0 <= i < j < |r| - 1 ==> key(r[i]) != key(r[j]);
      }
    }
  }

  lemma {:induction false} KeepFirstUpToFirst<T, K>(s: seq<T>, key: T -> K, n: nat)
    requires n <= |s|
    ensures forall q :: q in KeepFirstUpTo(s, key, n) ==> q in s[..n] && s[FindIndex(s, key, key(q))] == q
  {
    if n > 0 {
      KeepFirstUpToFirst(s, key, n - 1);
      assert s[..n] == s[..n - 1] + [s[n - 1]];
    }
  }

  /** The kept elements come in the order of their first occurrences. */
  lemma {:induction false} KeepFirstUpToOrder<T, K>(s: seq<T>, key: T -> K, n: nat)
    requires n <= |s|
    ensures forall i :: 0 <= i < |KeepFirstUpTo(s, key, n)| ==> FindIndex(s, key, key(KeepFirstUpTo(s, key, n)[i])) < n
    ensures forall i, j :: 0 <= i < j < |KeepFirstUpTo(s, key, n)| ==>
      FindIndex(s, key, key(KeepFirstUpTo(s, key, n)[i])) < FindIndex(s, key, key(KeepFirstUpTo(s, key, n)[j]))
  {
    if n > 0 {
      KeepFirstUpToOrder(s, key, n - 1);
      var init := KeepFirstUpTo(s, key, n - 1);
      var v := s[n - 1];
      if FindIndex(s, key, key(v)) == n - 1 {
        var r := KeepFirstUpTo(s, key, n);
        assert r == init + [v];
        forall i | 0 <= i < |r| ensures FindIndex(s, key, key(r[i])) < n {
          if i < |init| { assert r[i] == init[i]; }
        }
        forall i, j | 0 <= i < j < |r| ensures FindIndex(s, key, key(r[i])) < FindIndex(s, key, key(r[j])) {
          assert r[i] == init[i];
          if j < |init| { assert r[j] == init[j]; }
        }
      } else {
        assert KeepFirstUpTo(s, key, n) == init;
      }
    }
  }

  /** The de-duplicated list: each key once, at its first occurrence. */
  function KeepFirst<T, K(==)>(s: seq<T>, key: T -> K): (r: seq<T>)
    ensures forall i, j :: 0 <= i < j < |r| ==> key(r[i]) != key(r[j])
    ensures KeySet(r, key) == KeySet(s, key)
    ensures forall q :: q in r ==> q in s && s[FindIndex(s, key, key(q))] == q
    // `filter` keeps the input order
    ensures forall i, j :: 0 <= i < j < |r| ==> FindIndex(s, key, key(r[i])) < FindIndex(s, key, key(r[j]))
  {
    assert s[..|s|] == s;
    KeepFirstUpToOrder(s, key, |s|);
    KeepFirstUpToKeySet(s, key, |s|);
    KeepFirstUpToDistinct(s, key, |s|);
    KeepFirstUpToFirst(s, key, |s|);
    KeepFirstUpTo(s, key, |s|)
  }
}
