/** The bookkeeping of the training loop with the network calls taken
    out: the loss a training step returns and the loss and accuracy a
    validation batch returns are inputs. What is modelled is the
    learning-rate schedule, the running sums, the "best validation
    error" tracker that decides when parameters are saved, and the
    per-epoch summary. */
module Training {

  /** Samples per minibatch in both passes. */
  const BatchSize: nat := 128

  /** Learning rate of epoch 0. */
  const BaseLearningRate: real := 0.001

  /** Rate of the hyperbolic decay of the learning rate per epoch. */
  const Decay: real := 0.01

  /** `base * (1 + 0.01 * epoch) ^ -1`. */
  function LearningRate(base: real, epoch: nat): (lr: real)
    ensures base > 0.0 ==> 0.0 < lr <= base
    ensures epoch == 0 ==> lr == base
  {
    base / (1.0 + Decay * epoch as real)
  }

  /** The learning rate never grows from one epoch to a later one. */
  lemma LearningRateNonIncreasing(base: real, e1: nat, e2: nat)
    requires base >= 0.0 && e1 <= e2
    ensures LearningRate(base, e2) <= LearningRate(base, e1)
  {
    DivideByLarger(base, 1.0 + Decay * e1 as real, 1.0 + Decay * e2 as real);
  }

  lemma DivideByLarger(a: real, d1: real, d2: real)
    requires a >= 0.0 && 0.0 < d1 <= d2
    ensures a / d2 <= a / d1
  {
    var q1, q2 := a / d1, a / d2;
    assert q1 * d1 == a && q2 * d2 == a;
    assert q2 >= 0.0;
    assert q2 * d1 <= q2 * d2;
    assert (q2 - q1) * d1 <= 0.0;
  }

  /** Sum of the first `k` entries. */
  function Cumulative(s: seq<real>, k: nat): real
    requires k <= |s|
  {
    if k == 0 then 0.0 else Cumulative(s, k - 1) + s[k - 1]
  }

  /** The validation tracker's "best so far": infinity until a batch has
      been seen. */
  datatype Best = Infinity | Finite(value: real)

  predicate Below(v: real, b: Best) {
    b.Infinity? || v < b.value
  }

  /** The cumulative loss once batch `k` has been added. */
  function RunningSum(losses: seq<real>, k: nat): real
    requires k < |losses|
  {
    Cumulative(losses, k + 1)
  }

  /** Batch `k` triggers a save when the running sum after it is below
      the running sum after every earlier batch of the same epoch. */
  predicate NewBest(losses: seq<real>, k: nat)
    requires k < |losses|
  {
    forall j :: 0 <= j < k ==> RunningSum(losses, k) < RunningSum(losses, j)
  }

  /** The validation batches, among the first `k`, at which the source
      saves the parameters, in order. */
  function SavePoints(losses: seq<real>, k: nat): (r: seq<nat>)
    requires k <= |losses|
    ensures forall i :: 0 <= i < |r| ==> r[i] < k
  {
    if k == 0 then []
    else SavePoints(losses, k - 1) + (if NewBest(losses, k - 1) then [k - 1] else [])
  }

  /** The validation pass of one epoch: it sums loss and accuracy, counts
      batches, and reports each batch at which the cumulative loss drops
      below the best value seen in this epoch (the tracker starts at
      infinity in every epoch). */
  method ValidateEpoch(losses: seq<real>, accs: seq<real>)
    returns (valErr: real, valAcc: real, valBatches: nat, saves: seq<nat>)
    requires |accs| == |losses|
    ensures valBatches == |losses|
    ensures valErr == Cumulative(losses, |losses|)
    ensures valAcc == Cumulative(accs, |accs|)
    ensures saves == SavePoints(losses, |losses|)
  {
    valErr, valAcc, valBatches := 0.0, 0.0, 0;
    var best := Infinity;
    saves := [];
    while valBatches < |losses|
      invariant valBatches <= |losses|
      invariant valErr == Cumulative(losses, valBatches)
      invariant valAcc == Cumulative(accs, valBatches)
      invariant saves == SavePoints(losses, valBatches)
      invariant valBatches == 0 <==> best.Infinity?
      invariant best.Finite? ==>
                  (exists j :: 0 <= j < valBatches && best.value == RunningSum(losses, j)) &&
                  (forall j :: 0 <= j < valBatches ==> best.value <= RunningSum(losses, j))
    {
      var k := valBatches;
      valErr := valErr + losses[k];
      valAcc := valAcc + accs[k];
      valBatches := valBatches + 1;
      if Below(valErr, best) {
        best := Finite(valErr);
        saves := saves + [k];
      }
    }
  }

  /** The first validation batch of an epoch always triggers a save,
      because the tracker starts the epoch at infinity. */
  lemma {:induction false} FirstBatchSaves(losses: seq<real>, k: nat)
    requires 0 < k <= |losses|
    ensures |SavePoints(losses, k)| > 0 && SavePoints(losses, k)[0] == 0
  {
    if k == 1 {
      assert NewBest(losses, 0);
      assert SavePoints(losses, 0) == [];
    } else {
      FirstBatchSaves(losses, k - 1);
    }
  }

  /** With non-negative losses the running sum never decreases. */
  lemma {:induction false} RunningSumMonotone(losses: seq<real>, j: nat, k: nat)
    requires j <= k < |losses|
    requires forall i :: 0 <= i < |losses| ==> losses[i] >= 0.0
    ensures RunningSum(losses, j) <= RunningSum(losses, k)
  {
    if j < k {
      RunningSumMonotone(losses, j, k - 1);
    }
  }

  /** With non-negative losses (the cross-entropy is never negative) the
      only save of an epoch is the one at its first validation batch. */
  lemma {:induction false} NonNegativeLossesSaveOnce(losses: seq<real>, k: nat)
    requires 0 < k <= |losses|
    requires forall i :: 0 <= i < |losses| ==> losses[i] >= 0.0
    ensures SavePoints(losses, k) == [0]
  {
    if k == 1 {
      assert NewBest(losses, 0);
      assert SavePoints(losses, 0) == [];
    } else {
      NonNegativeLossesSaveOnce(losses, k - 1);
      RunningSumMonotone(losses, k - 2, k - 1);
      assert !NewBest(losses, k - 1);
    }
  }

  /** What one epoch's loops are given: the loss of each training step and
      the loss and accuracy of each validation batch. */
  datatype EpochLosses = EpochLosses(train: seq<real>, valLoss: seq<real>, valAcc: seq<real>)

  /** The figures printed at the end of an epoch: mean training loss,
      mean validation loss and mean validation accuracy in percent. */
  datatype Summary = Summary(trainLoss: real, valLoss: real, valAccuracy: real)

  /** A parameter save, identified by the epoch and the validation batch
      within it. */
  datatype Checkpoint = Checkpoint(epoch: nat, batch: nat)

  /** The checkpoints of epoch `epoch`, one per save point. */
  function EpochCheckpoints(epoch: nat, points: seq<nat>): (r: seq<Checkpoint>)
    ensures |r| == |points|
    ensures forall i :: 0 <= i < |r| ==> r[i] == Checkpoint(epoch, points[i])
  {
    seq(|points|, i requires 0 <= i < |points| => Checkpoint(epoch, points[i]))
  }

  /** The saves of all of the first `e` epochs, in order. */
  function AllSaves(epochs: seq<EpochLosses>, e: nat): (r: seq<Checkpoint>)
    requires e <= |epochs|
    ensures forall i :: 0 <= i < |r| ==> r[i].epoch < e
  {
    if e == 0 then []
    else
      var points := SavePoints(epochs[e - 1].valLoss, |epochs[e - 1].valLoss|);
      AllSaves(epochs, e - 1) + EpochCheckpoints(e - 1, points)
  }

  /** Means of one epoch's figures; defined only when the epoch had
      batches, since the source divides by the batch counts. */
  function Summarize(ep: EpochLosses): (s: Summary)
    requires |ep.train| > 0 && |ep.valLoss| > 0 && |ep.valAcc| == |ep.valLoss|
    ensures s.trainLoss * (|ep.train| as real) == Cumulative(ep.train, |ep.train|)
    ensures s.valLoss * (|ep.valLoss| as real) == Cumulative(ep.valLoss, |ep.valLoss|)
    ensures s.valAccuracy * (|ep.valAcc| as real) == Cumulative(ep.valAcc, |ep.valAcc|) * 100.0
  {
    var n, m := |ep.train| as real, |ep.valLoss| as real;
    Summary(Cumulative(ep.train, |ep.train|) / n,
            Cumulative(ep.valLoss, |ep.valLoss|) / m,
            Cumulative(ep.valAcc, |ep.valAcc|) / m * 100.0)
  }

  /** The sum of the first `k` entries lies between `k * lo` and
      `k * hi` when every entry lies in `[lo, hi]`. */
  lemma {:induction false} CumulativeBounds(s: seq<real>, k: nat, lo: real, hi: real)
    requires k <= |s|
    requires forall i :: 0 <= i < |s| ==> lo <= s[i] <= hi
    ensures (k as real) * lo <= Cumulative(s, k) <= (k as real) * hi
  {
    if k > 0 {
      CumulativeBounds(s, k - 1, lo, hi);
      assert (k as real) * lo == ((k - 1) as real) * lo + lo;
      assert (k as real) * hi == ((k - 1) as real) * hi + hi;
    }
  }

  /** A sum of `n` values in `[lo, hi]`, divided by `n`, lies in
      `[lo, hi]`. */
  lemma MeanBounds(sum: real, n: real, lo: real, hi: real)
    requires n > 0.0 && n * lo <= sum <= n * hi
    ensures lo <= sum / n <= hi
  {
    var q := sum / n;
    assert q * n == sum;
    assert n * (q - lo) >= 0.0;
    assert n * (hi - q) >= 0.0;
  }

  /** Every printed figure is a mean of its batches: losses in `[lo, hi]`
      give mean losses in `[lo, hi]`, and accuracies in `[0, 1]` give a
      percentage in `[0, 100]`. */
  lemma SummaryBounds(ep: EpochLosses, lo: real, hi: real)
    requires |ep.train| > 0 && |ep.valLoss| > 0 && |ep.valAcc| == |ep.valLoss|
    requires forall i :: 0 <= i < |ep.train| ==> lo <= ep.train[i] <= hi
    requires forall i :: 0 <= i < |ep.valLoss| ==> lo <= ep.valLoss[i] <= hi
    requires forall i :: 0 <= i < |ep.valAcc| ==> 0.0 <= ep.valAcc[i] <= 1.0
    ensures lo <= Summarize(ep).trainLoss <= hi
    ensures lo <= Summarize(ep).valLoss <= hi
    ensures 0.0 <= Summarize(ep).valAccuracy <= 100.0
  {
    var n, m := |ep.train| as real, |ep.valLoss| as real;
    CumulativeBounds(ep.train, |ep.train|, lo, hi);
    MeanBounds(Cumulative(ep.train, |ep.train|), n, lo, hi);
    CumulativeBounds(ep.valLoss, |ep.valLoss|, lo, hi);
    MeanBounds(Cumulative(ep.valLoss, |ep.valLoss|), m, lo, hi);
    CumulativeBounds(ep.valAcc, |ep.valAcc|, 0.0, 1.0);
    MeanBounds(Cumulative(ep.valAcc, |ep.valAcc|), m, 0.0, 1.0);
  }

  /** The training pass of one epoch: one step per shuffled batch, each
      with the epoch's learning rate; the step losses are summed. */
  method TrainEpoch(epoch: nat, losses: seq<real>) returns (trainErr: real, trainBatches: nat, rates: seq<real>)
    ensures trainBatches == |losses|
    ensures trainErr == Cumulative(losses, |losses|)
    ensures |rates| == |losses|
    ensures forall i :: 0 <= i < |rates| ==> rates[i] == LearningRate(BaseLearningRate, epoch)
  {
    trainErr, trainBatches, rates := 0.0, 0, [];
    while trainBatches < |losses|
      invariant trainBatches <= |losses|
      invariant trainErr == Cumulative(losses, trainBatches)
      invariant |rates| == trainBatches
      invariant forall i :: 0 <= i < |rates| ==> rates[i] == LearningRate(BaseLearningRate, epoch)
    {
      var lr := LearningRate(BaseLearningRate, epoch);
      rates := rates + [lr];
      trainErr := trainErr + losses[trainBatches];
      trainBatches := trainBatches + 1;
    }
  }

  /** One epoch: the training pass, the validation pass and the summary.
      It fails (`ok` false) when either pass had no batch, where the
      source's summary divides by zero. */
  method RunEpoch(epoch: nat, ep: EpochLosses)
    returns (ok: bool, epochRates: seq<real>, points: seq<nat>, summary: Summary)
    requires |ep.valAcc| == |ep.valLoss|
    ensures ok <==> |ep.train| > 0 && |ep.valLoss| > 0
    ensures ok ==> summary == Summarize(ep)
    ensures |epochRates| == |ep.train|
    ensures forall i :: 0 <= i < |epochRates| ==> epochRates[i] == LearningRate(BaseLearningRate, epoch)
    ensures points == SavePoints(ep.valLoss, |ep.valLoss|)
  {
    var trainErr, trainBatches;
    trainErr, trainBatches, epochRates := TrainEpoch(epoch, ep.train);
    var valErr, valAcc, valBatches;
    valErr, valAcc, valBatches, points := ValidateEpoch(ep.valLoss, ep.valAcc);
    if trainBatches == 0 || valBatches == 0 {
      // train_err / train_batches raises ZeroDivisionError
      ok, summary := false, Summary(0.0, 0.0, 0.0);
      return;
    }
    var n, m := trainBatches as real, valBatches as real;
    summary := Summary(trainErr / n, valErr / m, valAcc / m * 100.0);
    ok := true;
  }

  /** The epoch loop. Every epoch runs `numSamples / BatchSize` training
      and validation batches. When that is zero, the first epoch's summary
      divides by zero and the run aborts (`completed` is false). */
  method TrainCnn(numEpochs: nat, numSamples: nat, epochs: seq<EpochLosses>)
    returns (rates: seq<seq<real>>, saves: seq<Checkpoint>, summaries: seq<Summary>, completed: bool)
    requires |epochs| == numEpochs
    requires forall e :: 0 <= e < |epochs| ==>
               && |epochs[e].train| == numSamples / BatchSize
               && |epochs[e].valLoss| == numSamples / BatchSize
               && |epochs[e].valAcc| == numSamples / BatchSize
    ensures completed <==> numEpochs == 0 || numSamples >= BatchSize
    ensures !completed ==> rates == [] && saves == [] && summaries == []
    ensures completed ==> |rates| == numEpochs && |summaries| == numEpochs
    ensures completed ==> saves == AllSaves(epochs, numEpochs)
    ensures completed ==> forall e, i :: 0 <= e < numEpochs && 0 <= i < |rates[e]| ==>
              rates[e][i] == LearningRate(BaseLearningRate, e)
    ensures completed ==> forall e :: 0 <= e < numEpochs ==>
              |rates[e]| == numSamples / BatchSize && summaries[e] == Summarize(epochs[e])
  {
    rates, saves, summaries := [], [], [];
    var epoch := 0;
    while epoch < numEpochs
      invariant epoch <= numEpochs
      invariant epoch > 0 ==> numSamples >= BatchSize
      invariant |rates| == |summaries| == epoch
      invariant saves == AllSaves(epochs, epoch)
      invariant forall e, i :: 0 <= e < epoch && 0 <= i < |rates[e]| ==>
                  rates[e][i] == LearningRate(BaseLearningRate, e)
      invariant forall e :: 0 <= e < epoch ==>
                  |rates[e]| == numSamples / BatchSize && summaries[e] == Summarize(epochs[e])
    {
      var ok, epochRates, points, summary := RunEpoch(epoch, epochs[epoch]);
      if !ok {
        rates, saves, summaries := [], [], [];
        completed := false;
        return;
      }
      rates := rates + [epochRates];
      saves := saves + EpochCheckpoints(epoch, points);
      summaries := summaries + [summary];
      epoch := epoch + 1;
    }
    completed := true;
  }

  /** Over a whole run with non-negative validation losses and at least
      one batch per epoch, a checkpoint is written exactly once per epoch,
      at the epoch's first validation batch, whether or not the model
      improved on earlier epochs. */
  lemma {:induction false} CheckpointOncePerEpoch(epochs: seq<EpochLosses>, e: nat)
    requires e <= |epochs|
    requires forall k :: 0 <= k < |epochs| ==> |epochs[k].valLoss| > 0
    requires forall k, i :: 0 <= k < |epochs| && 0 <= i < |epochs[k].valLoss| ==> epochs[k].valLoss[i] >= 0.0
    ensures AllSaves(epochs, e) == seq(e, k requires 0 <= k => Checkpoint(k, 0))
  {
    if e > 0 {
      CheckpointOncePerEpoch(epochs, e - 1);
      var losses := epochs[e - 1].valLoss;
      NonNegativeLossesSaveOnce(losses, |losses|);
      assert seq(e, k requires 0 <= k => Checkpoint(k, 0)) == seq(e - 1, k requires 0 <= k => Checkpoint(k, 0)) + [Checkpoint(e - 1, 0)];
    }
  }
}
