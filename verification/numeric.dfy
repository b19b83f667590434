/** Numeric helpers shared by every combination rule: JavaScript's
    `Math.round`, sums, means and extremes of sequences, and the
    "first value that is present" scan. Sums and extremes recurse on the
    last element so that they line up with the left-to-right folds
    (`forEach`, `reduce`) of the source. */
module Numeric {
  import opened Wrappers

  /** `Math.round`: the nearest integer, halves rounded towards +infinity. */
  function Round(x: real): (r: int)
    ensures r as real - 0.5 <= x < r as real + 0.5
  {
    (x + 0.5).Floor
  }

  /** Sum of a sequence, accumulated from the left. */
  function Sum(xs: seq<real>): real
  {
    if |xs| == 0 then 0.0 else Sum(xs[..|xs| - 1]) + xs[|xs| - 1]
  }

  lemma {:induction false} SumAppend(xs: seq<real>, ys: seq<real>)
    ensures Sum(xs + ys) == Sum(xs) + Sum(ys)
    decreases |ys|
  {
    if |ys| == 0 {
      assert xs + ys == xs;
    } else {
      var ys' := ys[..|ys| - 1];
      assert (xs + ys)[..|xs + ys| - 1] == xs + ys';
      SumAppend(xs, ys');
    }
  }

  /** Arithmetic mean of a non-empty sequence. */
  function Mean(xs: seq<real>): real
    requires |xs| > 0
  {
    Sum(xs) / |xs| as real
  }

  /** The values that are present, in order (`.filter(v => v != null)`). */
  function Present(xs: seq<Option<real>>): (r: seq<real>)
    ensures |r| <= |xs|
    ensures forall v :: v in r <==> Some(v) in xs
    ensures |r| == 0 <==> forall i :: 0 <= i < |xs| ==> xs[i].None?
  {
    if |xs| == 0 then []
    else
      var init := Present(xs[..|xs| - 1]);
      assert forall v :: Some(v) in xs <==> Some(v) in xs[..|xs| - 1] || xs[|xs| - 1] == Some(v);
      if xs[|xs| - 1].Some? then init + [xs[|xs| - 1].value] else init
  }

  lemma PresentAppend(xs: seq<Option<real>>, x: Option<real>)
    ensures Present(xs + [x]) == if x.Some? then Present(xs) + [x.value] else Present(xs)
  {
    assert (xs + [x])[..|xs|] == xs;
  }

  /** A value appended to a column adds to the sum of what is present,
      a missing one counting as 0. */
  lemma PresentSumAppend(xs: seq<Option<real>>, x: Option<real>)
    ensures Sum(Present(xs + [x])) == Sum(Present(xs)) + x.GetOr(0.0)
    ensures |Present(xs + [x])| == |Present(xs)| + (if x.Some? then 1 else 0)
  {
    PresentAppend(xs, x);
    if x.Some? {
      SumAppend(Present(xs), [x.value]);
      assert Sum([x.value]) == Sum([x.value][..0]) + x.value;
    }
  }

  /** Mean of the present values; missing when none is present. */
  function MeanOfPresent(xs: seq<Option<real>>): (r: Option<real>)
    ensures r.None? <==> forall i :: 0 <= i < |xs| ==> xs[i].None?
    ensures r.Some? ==> |Present(xs)| > 0 && r.value == Mean(Present(xs))
  {
    var vs := Present(xs);
    if |vs| == 0 then None
    else
      assert vs[0] in vs;
      Some(Mean(vs))
  }

  function Min(a: real, b: real): real { if a <= b then a else b }
  function Max(a: real, b: real): real { if a >= b then a else b }

  /** Smallest element, scanning from the left as `Math.min` in a fold does. */
  function SeqMin(xs: seq<real>): (r: real)
    requires |xs| > 0
    ensures r in xs
    ensures forall i :: 0 <= i < |xs| ==> r <= xs[i]
  {
    if |xs| == 1 then xs[0]
    else
      var init := xs[..|xs| - 1];
      var m := SeqMin(init);
      assert forall i :: 0 <= i < |xs| - 1 ==> xs[i] == init[i];
      Min(m, xs[|xs| - 1])
  }

  /** Largest element, scanning from the left as `Math.max` in a fold does. */
  function SeqMax(xs: seq<real>): (r: real)
    requires |xs| > 0
    ensures r in xs
    ensures forall i :: 0 <= i < |xs| ==> xs[i] <= r
  {
    if |xs| == 1 then xs[0]
    else
      var init := xs[..|xs| - 1];
      var m := SeqMax(init);
      assert forall i :: 0 <= i < |xs| - 1 ==> xs[i] == init[i];
      Max(m, xs[|xs| - 1])
  }

  /** Position of the first present element of `xs`, or `|xs|` when none is present. */
  function FirstPresentIndex<T>(xs: seq<Option<T>>): (i: nat)
    ensures i <= |xs|
    ensures i < |xs| ==> xs[i].Some?
    ensures forall j :: 0 <= j < i ==> xs[j].None?
  {
    if |xs| == 0 then 0
    else if xs[0].Some? then 0
    else
      var k := FirstPresentIndex(xs[1..]);
      assert forall j :: 1 <= j < |xs| ==> xs[j] == xs[1..][j - 1];
      k + 1
  }

  /** The first present element of `xs`, or missing when none is present. */
  function FirstPresent<T>(xs: seq<Option<T>>): (r: Option<T>)
    ensures r.None? <==> forall i :: 0 <= i < |xs| ==> xs[i].None?
    ensures r.Some? ==> exists i :: 0 <= i < |xs| && xs[i] == r && forall j :: 0 <= j < i ==> xs[j].None?
  {
    var i := FirstPresentIndex(xs);
    if i < |xs| then xs[i] else None
  }

  /** A left fold of `??` over a sequence picks its first present element. */
  lemma {:induction false} FoldOrElseIsFirstPresent<T>(acc: Option<T>, xs: seq<Option<T>>)
    ensures FoldOrElse(acc, xs) == OrElse(acc, FirstPresent(xs))
    decreases |xs|
  {
    if |xs| > 0 {
      var init := xs[..|xs| - 1];
      FoldOrElseIsFirstPresent(acc, init);
      FirstPresentSnoc(init, xs[|xs| - 1]);
      assert init + [xs[|xs| - 1]] == xs;
    }
  }

  /** `xs.reduce((acc, x) => acc ?? x, acc)`. */
  function FoldOrElse<T>(acc: Option<T>, xs: seq<Option<T>>): Option<T>
  {
    if |xs| == 0 then acc else OrElse(FoldOrElse(acc, xs[..|xs| - 1]), xs[|xs| - 1])
  }

  lemma {:induction false} FirstPresentSnoc<T>(xs: seq<Option<T>>, x: Option<T>)
    ensures FirstPresent(xs + [x]) == OrElse(FirstPresent(xs), x)
    decreases |xs|
  {
    var i := FirstPresentIndex(xs);
    var k := FirstPresentIndex(xs + [x]);
    if i < |xs| {
      assert forall j :: 0 <= j < |xs| ==> (xs + [x])[j] == xs[j];
    } else {
      assert forall j :: 0 <= j < |xs| ==> (xs + [x])[j] == xs[j];
      assert (xs + [x])[|xs|] == x;
    }
  }

  /** The last present element of `xs`, or missing when none is present. */
  function LastPresent<T>(xs: seq<Option<T>>): Option<T>
  {
    if |xs| == 0 then None
    else if xs[|xs| - 1].Some? then xs[|xs| - 1]
    else LastPresent(xs[..|xs| - 1])
  }

  /** `LastPresent` is missing exactly when nothing is present, and is
      otherwise an element after which nothing is present. */
  lemma {:induction false} LastPresentIs<T>(xs: seq<Option<T>>)
    ensures LastPresent(xs).None? <==> forall i :: 0 <= i < |xs| ==> xs[i].None?
    ensures LastPresent(xs).Some? ==>
      exists i :: 0 <= i < |xs| && xs[i] == LastPresent(xs) && forall j :: i < j < |xs| ==> xs[j].None?
    decreases |xs|
  {
    if |xs| > 0 && xs[|xs| - 1].None? {
      var init := xs[..|xs| - 1];
      LastPresentIs(init);
      assert forall i :: 0 <= i < |init| ==> init[i] == xs[i];
      if LastPresent(init).Some? {
        var i :| 0 <= i < |init| && init[i] == LastPresent(init) && forall j :: i < j < |init| ==> init[j].None?;
        assert xs[i] == LastPresent(xs);
      }
    }
  }

  lemma SumSnoc(xs: seq<real>, x: real)
    ensures Sum(xs + [x]) == Sum(xs) + x
  {
    assert (xs + [x])[..|xs|] == xs;
  }

  lemma SeqMinSnoc(xs: seq<real>, x: real)
    requires |xs| > 0
    ensures SeqMin(xs + [x]) == Min(SeqMin(xs), x)
  {
    assert (xs + [x])[..|xs|] == xs;
  }

  lemma SeqMaxSnoc(xs: seq<real>, x: real)
    requires |xs| > 0
    ensures SeqMax(xs + [x]) == Max(SeqMax(xs), x)
  {
    assert (xs + [x])[..|xs|] == xs;
  }
}
