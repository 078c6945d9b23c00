/** `train_model` of `2.learn_model.py`: a random train/test split, 20
    epochs of shuffled mini-batches of 8, then exact-match evaluation of the
    predicted spans on the held-out part. The recogniser is an abstract
    model `M` with an `update` step and a `predict` function; the random
    permutations are parameters. */
module Trainer {
  import opened Wrappers
  import opened Aligner
  import opened Builder

  const BatchSize: nat := 8
  const EpochCount: nat := 20

  // ---------------------------------------------------------------------
  // Permutations (sklearn's and random.shuffle's randomness)
  // ---------------------------------------------------------------------

  /** `perm` lists every index below `n` exactly once. */
  predicate IsPermutation(perm: seq<nat>, n: nat) {
    && |perm| == n
    && (forall i :: 0 <= i < n ==> perm[i] < n)
    && (forall i, j :: 0 <= i < j < n ==> perm[i] != perm[j])
    && (forall k :: 0 <= k < n ==> k in perm)
  }

  /** `[xs[p] for p in perm]`. */
  function Permute<T>(xs: seq<T>, perm: seq<nat>): (r: seq<T>)
    requires forall i :: 0 <= i < |perm| ==> perm[i] < |xs|
    ensures |r| == |perm|
    ensures forall i :: 0 <= i < |perm| ==> r[i] == xs[perm[i]]
  {
    seq(|perm|, i requires 0 <= i < |perm| => xs[perm[i]])
  }

  /** Reordering by a permutation keeps every element and its multiplicity. */
  lemma {:induction false} PermuteMultiset<T>(xs: seq<T>, perm: seq<nat>)
    requires IsPermutation(perm, |xs|)
    ensures multiset(Permute(xs, perm)) == multiset(xs)
    decreases |xs|
  {
    if |xs| > 0 {
      var last := |xs| - 1;
      var k := perm[last];
      var rest := xs[..k] + xs[k + 1..];
      var perm' := Unpick(perm[..last], k);
      UnpickPermutation(perm, k);
      PermuteMultiset(rest, perm');
      assert Permute(xs, perm) == Permute(rest, perm') + [xs[k]];
      assert xs == xs[..k] + [xs[k]] + xs[k + 1..];
    }
  }

  /** Renumbers indices after index `k` has been taken out. */
  function Unpick(idx: seq<nat>, k: nat): (r: seq<nat>)
    ensures |r| == |idx|
    ensures forall i :: 0 <= i < |idx| ==> r[i] == if idx[i] > k then idx[i] - 1 else idx[i]
  {
    seq(|idx|, i requires 0 <= i < |idx| => if idx[i] > k then idx[i] - 1 else idx[i])
  }

  /** Taking out the last index of a permutation and renumbering the rest
      leaves a permutation of one fewer. */
  lemma UnpickPermutation(perm: seq<nat>, k: nat)
    requires |perm| > 0 && IsPermutation(perm, |perm|) && k == perm[|perm| - 1]
    ensures IsPermutation(Unpick(perm[..|perm| - 1], k), |perm| - 1)
  {
    var n := |perm|;
    var r := Unpick(perm[..n - 1], k);
    forall v | 0 <= v < n - 1
      ensures v in r
    {
      var w := if v < k then v else v + 1;
      assert w in perm;
      var i :| 0 <= i < n && perm[i] == w;
      assert i != n - 1;
      assert r[i] == v;
    }
  }

  // ---------------------------------------------------------------------
  // The 80/20 train/test split under a fixed seed
  // ---------------------------------------------------------------------

  /** `ceil(0.2 * n)`, the held-out count for `test_size=0.2`. */
  function TestCount(n: nat): nat {
    (n + 4) / 5
  }

  datatype Split<T> = Split(train: seq<T>, test: seq<T>)

  /** The split with the seeded permutation `perm`: the first `TestCount`
      permuted items are held out, the rest are trained on. sklearn refuses
      a split that would leave the training part empty. */
  function TrainTestSplit<T>(data: seq<T>, perm: seq<nat>): (r: Result<Split<T>, string>)
    requires IsPermutation(perm, |data|)
    ensures r.Err? <==> |data| < 2
    ensures r.Ok? ==> |r.value.test| == TestCount(|data|) && 1 <= |r.value.train|
    ensures r.Ok? ==> |r.value.train| + |r.value.test| == |data|
    // each item lands on exactly one side, in the permuted order
    ensures r.Ok? ==> r.value.test + r.value.train == Permute(data, perm)
  {
    var n := |data|;
    var t := TestCount(n);
    if n - t == 0 then Err("the resulting train set will be empty")
    else
      var shuffled := Permute(data, perm);
      assert shuffled[..t] + shuffled[t..] == shuffled;
      Ok(Split(shuffled[t..], shuffled[..t]))
  }

  /** Every item of the data set is either trained on or held out. */
  lemma SplitCovers<T>(data: seq<T>, perm: seq<nat>, k: nat)
    requires IsPermutation(perm, |data|) && |data| >= 2 && k < |data|
    ensures data[k] in TrainTestSplit(data, perm).value.test + TrainTestSplit(data, perm).value.train
  {
    assert k in perm;
    var j :| 0 <= j < |perm| && perm[j] == k;
    assert Permute(data, perm)[j] == data[k];
  }

  // ---------------------------------------------------------------------
  // Batching: [train_data[i:i + 8] for i in range(0, len(train_data), 8)]
  // ---------------------------------------------------------------------

  function Flatten<T>(xss: seq<seq<T>>): seq<T> {
    if |xss| == 0 then [] else xss[0] + Flatten(xss[1..])
  }

  /** Number of batches of `n` items: `ceil(n / 8)`. */
  function BatchCount(n: nat): nat {
    (n + BatchSize - 1) / BatchSize
  }

  /** Consecutive slices of eight; the last one may be shorter. */
  function Batches<T>(xs: seq<T>): (bs: seq<seq<T>>)
    ensures Flatten(bs) == xs
    ensures forall i :: 0 <= i < |bs| ==> 1 <= |bs[i]| <= BatchSize
    ensures forall i :: 0 <= i < |bs| - 1 ==> |bs[i]| == BatchSize
    ensures |bs| == BatchCount(|xs|)
    decreases |xs|
  {
    if |xs| == 0 then []
    else if |xs| <= BatchSize then
      assert Flatten([xs]) == xs + Flatten([xs][1..]);
      [xs]
    else
      var rest := Batches(xs[BatchSize..]);
      var bs := [xs[..BatchSize]] + rest;
      assert bs[1..] == rest;
      assert xs[..BatchSize] + xs[BatchSize..] == xs;
      bs
  }

  // ---------------------------------------------------------------------
  // The epoch loop
  // ---------------------------------------------------------------------

  /** Dropping the first epoch's shuffle keeps every other one a
      permutation. */
  lemma PermutationsTail(shuffles: seq<seq<nat>>, n: nat)
    requires |shuffles| > 0
    requires forall e :: 0 <= e < |shuffles| ==> IsPermutation(shuffles[e], n)
    ensures |shuffles[0]| == n && forall i :: 0 <= i < n ==> shuffles[0][i] < n
    ensures forall e :: 0 <= e < |shuffles| - 1 ==> IsPermutation(shuffles[1..][e], n)
  {
    assert IsPermutation(shuffles[0], n);
    forall e | 0 <= e < |shuffles| - 1
      ensures IsPermutation(shuffles[1..][e], n)
    {
      assert shuffles[1..][e] == shuffles[e + 1];
    }
  }

  lemma MulSucc(n: nat, b: nat)
    requires n > 0
    ensures n * b == b + (n - 1) * b
  {
  }

  /** The order of the training list in each epoch: `random.shuffle`
      works in place, so epoch `e` shuffles the order epoch `e - 1` left
      behind. Every epoch's order holds each example as often as the
      training list does. */
  function EpochOrders<T>(order: seq<T>, shuffles: seq<seq<nat>>): (os: seq<seq<T>>)
    requires forall e :: 0 <= e < |shuffles| ==> IsPermutation(shuffles[e], |order|)
    ensures |os| == |shuffles|
    ensures forall e :: 0 <= e < |os| ==> |os[e]| == |order| && multiset(os[e]) == multiset(order)
    decreases |shuffles|
  {
    if |shuffles| == 0 then []
    else
      PermutationsTail(shuffles, |order|);
      var shuffled := Permute(order, shuffles[0]);
      PermuteMultiset(order, shuffles[0]);
      var later := EpochOrders(shuffled, shuffles[1..]);
      assert forall e :: 1 <= e < |shuffles| ==> ([shuffled] + later)[e] == later[e - 1];
      [shuffled] + later
  }

  /** `f` applied to each element in turn, the results joined end to end. */
  function ConcatMap<U, V>(os: seq<U>, f: U -> seq<V>): seq<V> {
    if |os| == 0 then [] else f(os[0]) + ConcatMap(os[1..], f)
  }

  /** When every piece has length `b`, `|os|` pieces join to `|os| * b`. */
  lemma {:induction false} ConcatMapLength<U, V>(os: seq<U>, f: U -> seq<V>, b: nat)
    requires forall k :: 0 <= k < |os| ==> |f(os[k])| == b
    ensures |ConcatMap(os, f)| == |os| * b
  {
    if |os| > 0 {
      forall k | 0 <= k < |os[1..]|
        ensures |f(os[1..][k])| == b
      {
        assert os[1..][k] == os[k + 1];
      }
      ConcatMapLength(os[1..], f, b);
      MulSucc(|os|, b);
    }
  }

  /** Each epoch's order cut into batches, epoch after epoch. */
  function BatchEpochs<T>(os: seq<seq<T>>): seq<seq<T>> {
    ConcatMap(os, Batches)
  }

  /** `ceil(n/8)` batches per epoch when every epoch orders `n` items. */
  lemma BatchEpochsLength<T>(os: seq<seq<T>>, n: nat)
    requires forall e :: 0 <= e < |os| ==> |os[e]| == n
    ensures |BatchEpochs(os)| == |os| * BatchCount(n)
  {
    ConcatMapLength(os, Batches, BatchCount(n));
  }

  /** Epoch `e`'s batches are the `ceil(n/8)` consecutive batches starting
      at `EpochStart(e, ceil(n/8))`. */
  lemma BatchEpochsSlice<T>(os: seq<seq<T>>, n: nat, e: nat)
    requires forall k :: 0 <= k < |os| ==> |os[k]| == n
    requires e < |os|
    ensures var b := BatchCount(n);
            && EpochStart(e, b) + b <= |BatchEpochs(os)|
            && BatchEpochs(os)[EpochStart(e, b)..EpochStart(e, b) + b] == Batches(os[e])
  {
    ConcatMapSlice(os, Batches, BatchCount(n), e);
  }

  /** The batches handed to `nlp.update`, epoch after epoch. */
  function EpochBatches<T>(order: seq<T>, shuffles: seq<seq<nat>>): (bs: seq<seq<T>>)
    requires forall e :: 0 <= e < |shuffles| ==> IsPermutation(shuffles[e], |order|)
    ensures |bs| == |shuffles| * BatchCount(|order|)
  {
    var os := EpochOrders(order, shuffles);
    BatchEpochsLength(os, |order|);
    BatchEpochs(os)
  }

  /** A slice lying wholly in the second part of a concatenation. */
  lemma SliceAfter<U>(xs: seq<U>, ys: seq<U>, lo: nat, hi: nat)
    requires |xs| <= lo <= hi <= |xs| + |ys|
    ensures (xs + ys)[lo..hi] == ys[lo - |xs|..hi - |xs|]
  {
  }

  /** The index of epoch `e`'s first batch when every epoch has `b`. */
  function EpochStart(e: nat, b: nat): nat {
    e * b
  }

  /** Epoch `e` starts one epoch on from epoch `e - 1`. */
  lemma EpochBounds(e: nat, b: nat)
    requires 0 < e
    ensures EpochStart(e, b) == EpochStart(e - 1, b) + b
  {
    MulSucc(e, b);
  }

  /** Epoch `e` of a run that starts with one more epoch is epoch `e - 1`
      of the rest. */
  lemma ShiftEpoch<U>(first: seq<U>, rest: seq<U>, b: nat, e: nat)
    requires |first| == b && 0 < e && EpochStart(e - 1, b) + b <= |rest|
    ensures EpochStart(e, b) + b <= |first + rest|
    ensures (first + rest)[EpochStart(e, b)..EpochStart(e, b) + b]
            == rest[EpochStart(e - 1, b)..EpochStart(e - 1, b) + b]
  {
    EpochBounds(e, b);
    SliceAfter(first, rest, EpochStart(e, b), EpochStart(e, b) + b);
  }

  /** When every piece has length `b`, piece `e` is the `b` elements
      starting at `EpochStart(e, b)`. */
  lemma {:induction false} ConcatMapSlice<U, V>(os: seq<U>, f: U -> seq<V>, b: nat, e: nat)
    requires forall k :: 0 <= k < |os| ==> |f(os[k])| == b
    requires e < |os|
    ensures EpochStart(e, b) + b <= |ConcatMap(os, f)|
    ensures ConcatMap(os, f)[EpochStart(e, b)..EpochStart(e, b) + b] == f(os[e])
    decreases e
  {
    var first, rest := f(os[0]), ConcatMap(os[1..], f);
    assert ConcatMap(os, f) == first + rest;
    if e == 0 {
      assert EpochStart(e, b) == 0;
      assert (first + rest)[0..b] == first;
    } else {
      forall k | 0 <= k < |os[1..]|
        ensures |f(os[1..][k])| == b
      {
        assert os[1..][k] == os[k + 1];
      }
      ConcatMapSlice(os[1..], f, b, e - 1);
      assert os[1..][e - 1] == os[e];
      ShiftEpoch(first, rest, b, e);
    }
  }

  /** Every epoch's batches together hold each training example exactly as
      often as the training list does: they slice that epoch's shuffle. */
  lemma EpochIsShuffle<T>(order: seq<T>, shuffles: seq<seq<nat>>, e: nat)
    requires forall k :: 0 <= k < |shuffles| ==> IsPermutation(shuffles[k], |order|)
    requires e < |shuffles|
    ensures var b := BatchCount(|order|);
            var bs := EpochBatches(order, shuffles);
            && EpochStart(e, b) + b <= |bs|
            && bs[EpochStart(e, b)..EpochStart(e, b) + b] == Batches(EpochOrders(order, shuffles)[e])
            && multiset(Flatten(bs[EpochStart(e, b)..EpochStart(e, b) + b])) == multiset(order)
  {
    var os := EpochOrders(order, shuffles);
    assert EpochBatches(order, shuffles) == BatchEpochs(os);
    ShuffledEpochSlice(os, order, e);
  }

  /** When every epoch orders the same items as `order`, epoch `e`'s
      batches hold exactly those items. */
  lemma ShuffledEpochSlice<T>(os: seq<seq<T>>, order: seq<T>, e: nat)
    requires forall k :: 0 <= k < |os| ==> |os[k]| == |order| && multiset(os[k]) == multiset(order)
    requires e < |os|
    ensures var b := BatchCount(|order|);
            && EpochStart(e, b) + b <= |BatchEpochs(os)|
            && BatchEpochs(os)[EpochStart(e, b)..EpochStart(e, b) + b] == Batches(os[e])
            && multiset(Flatten(BatchEpochs(os)[EpochStart(e, b)..EpochStart(e, b) + b])) == multiset(order)
  {
    BatchEpochsSlice(os, |order|, e);
  }

  /** The model after applying `update` to each batch in turn. */
  function Fit<M>(m: M, batches: seq<seq<Example>>, update: (M, seq<Example>) -> M): M
    decreases |batches|
  {
    if |batches| == 0 then m else Fit(update(m, batches[0]), batches[1..], update)
  }

  /** Fitting on `a` then on `b` is fitting on `a + b`: the epochs are
      applied one after another. */
  lemma {:induction false} FitAppend<M>(m: M, a: seq<seq<Example>>, b: seq<seq<Example>>, update: (M, seq<Example>) -> M)
    ensures Fit(m, a + b, update) == Fit(Fit(m, a, update), b, update)
    decreases |a|
  {
    if |a| > 0 {
      assert (a + b)[0] == a[0] && (a + b)[1..] == a[1..] + b;
      FitAppend(update(m, a[0]), a[1..], b, update);
    } else {
      assert a + b == b;
    }
  }

  // ---------------------------------------------------------------------
  // Evaluation
  // ---------------------------------------------------------------------

  function SpanSet(spans: seq<Span>): set<Span> {
    set s | s in spans
  }

  lemma SubsetCardinality<T>(a: set<T>, b: set<T>)
    requires a <= b
    ensures |a| <= |b|
  {
    if a != {} {
      var x :| x in a;
      SubsetCardinality(a - {x}, b - {x});
    }
  }

  /** `len(true_entities & pred_entities)` for one held-out example. */
  function Matches(truth: seq<Span>, predicted: seq<Span>): (c: nat)
    ensures c <= |SpanSet(truth)|
    ensures predicted == truth ==> c == |SpanSet(truth)|
  {
    SubsetCardinality(SpanSet(truth) * SpanSet(predicted), SpanSet(truth));
    assert SpanSet(truth) * SpanSet(truth) == SpanSet(truth);
    |SpanSet(truth) * SpanSet(predicted)|
  }

  function Correct<M>(m: M, test: seq<Example>, predict: (M, string) -> seq<Span>): nat {
    if |test| == 0 then 0
    else Correct(m, test[..|test| - 1], predict) + Matches(test[|test| - 1].spans, predict(m, test[|test| - 1].text))
  }

  function Total(test: seq<Example>): nat {
    if |test| == 0 then 0
    else Total(test[..|test| - 1]) + |SpanSet(test[|test| - 1].spans)|
  }

  /** The evaluation loop: `correct` and `total` over the held-out examples. */
  method Evaluate<M>(m: M, test: seq<Example>, predict: (M, string) -> seq<Span>)
    returns (correct: nat, total: nat)
    ensures correct == Correct(m, test, predict) && total == Total(test)
    ensures correct <= total
  {
    correct, total := 0, 0;
    var i := 0;
    while i < |test|
      invariant 0 <= i <= |test|
      invariant correct == Correct(m, test[..i], predict)
      invariant total == Total(test[..i])
      invariant correct <= total
    {
      assert test[..i + 1][..i] == test[..i];
      assert test[..i + 1][i] == test[i];
      var truth := SpanSet(test[i].spans);
      var predicted := SpanSet(predict(m, test[i].text));
      correct := correct + |truth * predicted|;
      total := total + |truth|;
      assert |truth * predicted| == Matches(test[i].spans, predict(m, test[i].text));
      i := i + 1;
    }
    assert test[..i] == test;
  }

  /** A model that predicts exactly the aligned spans scores every span. */
  lemma {:induction false} PerfectPredictionScoresAll<M>(m: M, test: seq<Example>, predict: (M, string) -> seq<Span>)
    requires forall i :: 0 <= i < |test| ==> predict(m, test[i].text) == test[i].spans
    ensures Correct(m, test, predict) == Total(test)
  {
    if |test| > 0 {
      PerfectPredictionScoresAll(m, test[..|test| - 1], predict);
    }
  }

  /** `correct / total`, or 0 when nothing was held out; a fraction of one
      when the counts come from `Evaluate`. */
  function Accuracy(correct: nat, total: nat): (a: real)
    ensures total == 0 ==> a == 0.0
    ensures correct <= total ==> 0.0 <= a <= 1.0
    ensures 0 < total && correct == total ==> a == 1.0
  {
    if total > 0 then correct as real / total as real else 0.0
  }

  // ---------------------------------------------------------------------
  // The whole of train_model
  // ---------------------------------------------------------------------

  datatype Run<M> = Run(model: M, updates: nat, correct: nat, total: nat)

  /** Split, train for 20 epochs, evaluate. `perm` is the seeded split
      permutation and `shuffles` the 20 per-epoch shuffles. */
  method TrainModel<M>(m: M, data: seq<Example>, perm: seq<nat>, shuffles: seq<seq<nat>>,
                       update: (M, seq<Example>) -> M, predict: (M, string) -> seq<Span>)
    returns (r: Result<Run<M>, string>)
    requires IsPermutation(perm, |data|)
    requires |shuffles| == EpochCount
    requires forall e :: 0 <= e < |shuffles| ==> IsPermutation(shuffles[e], |data| - TestCount(|data|))
    ensures r.Err? <==> |data| < 2
    ensures r.Ok? ==> r.value.updates == EpochCount * BatchCount(|data| - TestCount(|data|))
    ensures r.Ok? ==> r.value.correct <= r.value.total
    // the scores are those of the trained model on the held-out part
    ensures r.Ok? ==>
              var test := TrainTestSplit(data, perm).value.test;
              r.value.total == Total(test) && r.value.correct == Correct(r.value.model, test, predict)
    // the model is `m` updated once per batch of the 20 shuffled epochs of the training part
    ensures r.Ok? ==>
              r.value.model == Fit(m, EpochBatches(TrainTestSplit(data, perm).value.train, shuffles), update)
  {
    var split := TrainTestSplit(data, perm);
    if split.Err? {
      return Err(split.error);
    }
    var batches := EpochBatches(split.value.train, shuffles);
    assert BatchCount(|split.value.train|) == BatchCount(|data| - TestCount(|data|));
    assert |batches| == EpochCount * BatchCount(|data| - TestCount(|data|));
    var trained := Fit(m, batches, update);
    var correct, total := Evaluate(trained, split.value.test, predict);
    return Ok(Run(trained, |batches|, correct, total));
  }
}
