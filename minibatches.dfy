/** The minibatch scheduler of the trainer: it cuts `N` samples into
    `N / batchsize` batches of exactly `batchsize` samples, either as
    contiguous slices or as consecutive slices of a permutation of the
    sample indices. Any remainder is dropped. The permutation that the
    source draws at random is a parameter here. */
module Minibatches {
  import Raster

  /** `p` lists every sample index below `n` exactly once. */
  predicate IsPermutation(p: seq<nat>, n: nat) {
    && |p| == n
    && (forall i :: 0 <= i < n ==> p[i] < n)
    && (forall i, j :: 0 <= i < j < n ==> p[i] != p[j])
  }

  /** The order in which one pass visits the samples: the given
      permutation when shuffling, the original order otherwise. */
  function VisitOrder(n: nat, shuffle: bool, perm: seq<nat>): (order: seq<nat>)
    requires shuffle ==> IsPermutation(perm, n)
    ensures IsPermutation(order, n)
    ensures !shuffle ==> forall i :: 0 <= i < n ==> order[i] == i
  {
    if shuffle then perm else seq(n, i => i)
  }

  /** Sample indices of batch `k`: positions `[k * bs, (k + 1) * bs)` of
      the visiting order. */
  function BatchIndices(n: nat, bs: nat, shuffle: bool, perm: seq<nat>, k: nat): (idx: seq<nat>)
    requires bs > 0 && k < n / bs
    requires shuffle ==> IsPermutation(perm, n)
    ensures |idx| == bs
    ensures forall j :: 0 <= j < bs ==> idx[j] < n
  {
    BatchFits(n, bs, k);
    VisitOrder(n, shuffle, perm)[k * bs .. k * bs + bs]
  }

  /** The elements of `xs` at the positions `idx`, in that order
      (numpy's fancy indexing). */
  function Gather<X>(xs: seq<X>, idx: seq<nat>): (r: seq<X>)
    requires forall j :: 0 <= j < |idx| ==> idx[j] < |xs|
    ensures |r| == |idx|
    ensures forall j :: 0 <= j < |idx| ==> r[j] == xs[idx[j]]
  {
    seq(|idx|, j requires 0 <= j < |idx| => xs[idx[j]])
  }

  /** Concatenation of a sequence of batches. */
  function Flatten<X>(xss: seq<seq<X>>): seq<X> {
    if xss == [] then [] else Flatten(xss[..|xss| - 1]) + xss[|xss| - 1]
  }

  /** Every batch `k < n / bs` lies inside the data. */
  lemma BatchFits(n: nat, bs: nat, k: nat)
    requires bs > 0 && k < n / bs
    ensures 0 <= k * bs && k * bs + bs <= n
  {
    Raster.MulMonotone(0, k, bs);
    Raster.MulMonotone(k + 1, n / bs, bs);
  }

  /** A contiguous slice is the gather of consecutive positions. */
  lemma SliceIsGather<X>(xs: seq<X>, start: nat, len: nat)
    requires start + len <= |xs|
    ensures xs[start .. start + len] == Gather(xs, seq(|xs|, i => i)[start .. start + len])
  {
  }

  /** One pass of the scheduler: it steps `start` over
      `0, bs, 2 * bs, ...` while a full batch remains, and yields the
      inputs and targets at the batch's sample indices. */
  method IterateMinibatches<X, Y>(inputs: seq<X>, targets: seq<Y>, batchsize: nat, shuffle: bool, perm: seq<nat>)
    returns (batches: seq<(seq<X>, seq<Y>)>)
    requires |inputs| == |targets|
    requires batchsize > 0
    requires shuffle ==> IsPermutation(perm, |inputs|)
    ensures |batches| == |inputs| / batchsize
    ensures |inputs| < batchsize ==> batches == []
    ensures forall k :: 0 <= k < |batches| ==>
              |batches[k].0| == batchsize && |batches[k].1| == batchsize
    ensures forall k :: 0 <= k < |batches| ==>
              var idx := BatchIndices(|inputs|, batchsize, shuffle, perm, k);
              batches[k] == (Gather(inputs, idx), Gather(targets, idx))
  {
    var n := |inputs|;
    var indices := VisitOrder(n, shuffle, perm);
    batches := [];
    var start := 0;
    while start < n - batchsize + 1
      invariant start == |batches| * batchsize
      invariant 0 <= start <= n
      invariant n < batchsize ==> batches == []
      invariant |batches| <= n / batchsize
      invariant forall k :: 0 <= k < |batches| ==>
                  var idx := BatchIndices(n, batchsize, shuffle, perm, k);
                  batches[k] == (Gather(inputs, idx), Gather(targets, idx))
    {
      NextBatch(n, batchsize, shuffle, perm, |batches|);
      var excerpt := indices[start .. start + batchsize];
      var batch: (seq<X>, seq<Y>);
      if shuffle {
        batch := (Gather(inputs, excerpt), Gather(targets, excerpt));
      } else {
        batch := (inputs[start .. start + batchsize], targets[start .. start + batchsize]);
        SliceIsGather(inputs, start, batchsize);
        SliceIsGather(targets, start, batchsize);
      }
      batches := batches + [batch];
      start := start + batchsize;
    }
    Raster.DivModUnique(n, batchsize, |batches|, n - start);
  }

  /** A full batch `k` that fits in the data is one of the pass's
      batches, and it is the slice of the visiting order starting at
      `k * bs`. */
  lemma NextBatch(n: nat, bs: nat, shuffle: bool, perm: seq<nat>, k: nat)
    requires bs > 0 && k * bs + bs <= n
    requires shuffle ==> IsPermutation(perm, n)
    ensures k < n / bs
    ensures (k + 1) * bs == k * bs + bs
    ensures VisitOrder(n, shuffle, perm)[k * bs .. k * bs + bs] == BatchIndices(n, bs, shuffle, perm, k)
  {
    Raster.BelowQuotient(n, bs, k);
    Raster.MulSucc(k, bs);
  }

  /** The sample lists of the first `m` batches of a pass over `xs`. */
  function FirstBatches<X>(xs: seq<X>, bs: nat, shuffle: bool, perm: seq<nat>, m: nat): (r: seq<seq<X>>)
    requires bs > 0 && m <= |xs| / bs
    requires shuffle ==> IsPermutation(perm, |xs|)
    ensures |r| == m
    ensures forall k :: 0 <= k < m ==> r[k] == Gather(xs, BatchIndices(|xs|, bs, shuffle, perm, k))
  {
    seq(m, k requires 0 <= k < m => Gather(xs, BatchIndices(|xs|, bs, shuffle, perm, k)))
  }

  /** A prefix up to `hi` is the prefix up to `lo` followed by the slice between. */
  lemma SplitPrefix<T>(s: seq<T>, lo: nat, hi: nat)
    requires lo <= hi <= |s|
    ensures s[..hi] == s[..lo] + s[lo .. hi]
  {
  }

  /** Adding batch `m - 1` to the first `m - 1` batches appends the
      samples at positions `[(m - 1) * bs, m * bs)` of the visiting order. */
  lemma FirstBatchesStep<X>(xs: seq<X>, bs: nat, shuffle: bool, perm: seq<nat>, m: nat)
    requires bs > 0 && 0 < m <= |xs| / bs
    requires shuffle ==> IsPermutation(perm, |xs|)
    ensures 0 <= (m - 1) * bs && (m - 1) * bs + bs == m * bs <= |xs|
    ensures Flatten(FirstBatches(xs, bs, shuffle, perm, m))
            == Flatten(FirstBatches(xs, bs, shuffle, perm, m - 1))
               + Gather(xs, VisitOrder(|xs|, shuffle, perm)[(m - 1) * bs .. m * bs])
  {
    BatchFits(|xs|, bs, m - 1);
    Raster.MulSucc(m - 1, bs);
    var batches := FirstBatches(xs, bs, shuffle, perm, m);
    assert batches[..m - 1] == FirstBatches(xs, bs, shuffle, perm, m - 1);
  }

  /** The first `m` batches of a pass, concatenated, are the samples at
      the first `m * bs` positions of the visiting order. */
  lemma {:induction false} EpochPrefix<X>(xs: seq<X>, bs: nat, shuffle: bool, perm: seq<nat>, m: nat)
    requires bs > 0 && m <= |xs| / bs
    requires shuffle ==> IsPermutation(perm, |xs|)
    ensures 0 <= m * bs <= |xs|
    ensures Flatten(FirstBatches(xs, bs, shuffle, perm, m)) == Gather(xs, VisitOrder(|xs|, shuffle, perm)[..m * bs])
  {
    var order := VisitOrder(|xs|, shuffle, perm);
    if m == 0 {
      assert FirstBatches(xs, bs, shuffle, perm, m) == [];
    } else {
      FirstBatchesStep(xs, bs, shuffle, perm, m);
      EpochPrefix(xs, bs, shuffle, perm, m - 1);
      var lo, hi := (m - 1) * bs, m * bs;
      SplitPrefix(order, lo, hi);
      GatherAppend(xs, order[..lo], order[lo .. hi]);
    }
  }

  /** Gathering distributes over concatenation of the index lists. */
  lemma GatherAppend<X>(xs: seq<X>, a: seq<nat>, b: seq<nat>)
    requires forall j :: 0 <= j < |a| ==> a[j] < |xs|
    requires forall j :: 0 <= j < |b| ==> b[j] < |xs|
    ensures Gather(xs, a + b) == Gather(xs, a) + Gather(xs, b)
  {
  }

  /** Without shuffling the batches of one pass, concatenated, are the
      samples in their original order up to the last full batch; the
      trailing `|xs| % bs` samples are dropped. */
  lemma UnshuffledEpochIsPrefix<X>(xs: seq<X>, bs: nat)
    requires bs > 0
    ensures 0 <= (|xs| / bs) * bs <= |xs|
    ensures Flatten(FirstBatches(xs, bs, false, [], |xs| / bs))
            == xs[..(|xs| / bs) * bs]
  {
    EpochPrefix(xs, bs, false, [], |xs| / bs);
  }

  /** Without shuffling, batch `k` is the contiguous slice
      `[k * bs, (k + 1) * bs)`. */
  lemma UnshuffledBatchIsSlice<X>(xs: seq<X>, bs: nat, k: nat)
    requires bs > 0 && k < |xs| / bs
    ensures k * bs + bs <= |xs|
    ensures Gather(xs, BatchIndices(|xs|, bs, false, [], k)) == xs[k * bs .. k * bs + bs]
  {
    BatchFits(|xs|, bs, k);
  }

  /** With shuffling, one pass visits the samples at the first
      `(|xs| / bs) * bs` positions of the permutation. */
  lemma ShuffledEpochFollowsPermutation<X>(xs: seq<X>, bs: nat, perm: seq<nat>)
    requires bs > 0 && IsPermutation(perm, |xs|)
    ensures Flatten(FirstBatches(xs, bs, true, perm, |xs| / bs))
            == Gather(xs, perm[..(|xs| / bs) * bs])
  {
    EpochPrefix(xs, bs, true, perm, |xs| / bs);
  }

  /** Slot `j` of batch `k` holds position `k * bs + j` of the visiting order. */
  lemma BatchIndexAt(n: nat, bs: nat, shuffle: bool, perm: seq<nat>, k: nat, j: nat)
    requires bs > 0 && k < n / bs && j < bs
    requires shuffle ==> IsPermutation(perm, n)
    ensures 0 <= k * bs + j < n
    ensures BatchIndices(n, bs, shuffle, perm, k)[j] == VisitOrder(n, shuffle, perm)[k * bs + j]
  {
    BatchFits(n, bs, k);
  }

  /** No sample index occurs twice in one pass: two different slots
      (batch, position in batch) always hold different sample indices. */
  lemma BatchesDisjoint(n: nat, bs: nat, shuffle: bool, perm: seq<nat>, k1: nat, j1: nat, k2: nat, j2: nat)
    requires bs > 0 && k1 < n / bs && k2 < n / bs && j1 < bs && j2 < bs
    requires shuffle ==> IsPermutation(perm, n)
    requires k1 != k2 || j1 != j2
    ensures BatchIndices(n, bs, shuffle, perm, k1)[j1] != BatchIndices(n, bs, shuffle, perm, k2)[j2]
  {
    BatchIndexAt(n, bs, shuffle, perm, k1, j1);
    BatchIndexAt(n, bs, shuffle, perm, k2, j2);
    Raster.BlockInjective(k1, j1, k2, j2, bs);
    DistinctAt(VisitOrder(n, shuffle, perm), n, k1 * bs + j1, k2 * bs + j2);
  }

  /** A permutation holds different values at different positions. */
  lemma DistinctAt(p: seq<nat>, n: nat, a: int, b: int)
    requires IsPermutation(p, n) && 0 <= a < n && 0 <= b < n && a != b
    ensures p[a] != p[b]
  {
    if b < a {
      assert p[b] != p[a];
    }
  }
}
