/**
  The meta-training loop of old/meta_learning.py (MetaLearning.training and
  MetaLearning.testing), reduced to its early-stopping and checkpoint logic.
  The mean query loss of each meta-epoch comes from the meta model, which is
  not modelled, so the losses are given as a sequence indexed by epoch. The
  learner's parameter state is identified by the number of outer-loop steps
  applied to it, and the checkpoint file by the state it last received.
 */
module MetaLearningLoop {

  datatype Option<T> = None | Some(value: T)

  /** The best loss seen so far; it starts at +infinity (`float('inf')`). */
  datatype Bound = Infinity | Finite(value: real)

  /** `loss <= best_loss`, with +infinity above every loss. */
  predicate NoWorse(loss: real, best: Bound)
  {
    best.Infinity? || loss <= best.value
  }

  /** Epoch k improves when its loss is no greater than the loss of any earlier epoch. */
  predicate Improves(losses: seq<real>, k: nat)
    requires k < |losses|
  {
    forall j :: 0 <= j < k ==> losses[k] <= losses[j]
  }

  /** The running minimum: the least loss among epochs 0..k (MinUpToIsLeast). */
  function MinUpTo(losses: seq<real>, k: nat): real
    requires k < |losses|
    decreases k
  {
    if k == 0 then losses[0]
    else if losses[k] <= MinUpTo(losses, k - 1) then losses[k]
    else MinUpTo(losses, k - 1)
  }

  /** The latest improving epoch up to k: the epoch whose state was saved last. */
  function LastImprovement(losses: seq<real>, k: nat): (r: nat)
    requires k < |losses|
    ensures r <= k
    decreases k
  {
    if Improves(losses, k) then k else LastImprovement(losses, k - 1)
  }

  /** MinUpTo(losses, k) is no greater than any loss of epochs 0..k, and is one of them. */
  lemma {:induction false} MinUpToIsLeast(losses: seq<real>, k: nat)
    requires k < |losses|
    ensures forall j :: 0 <= j <= k ==> MinUpTo(losses, k) <= losses[j]
    ensures exists j :: 0 <= j <= k && losses[j] == MinUpTo(losses, k)
    decreases k
  {
    if k > 0 {
      MinUpToIsLeast(losses, k - 1);
      var i :| 0 <= i <= k - 1 && losses[i] == MinUpTo(losses, k - 1);
      assert losses[if losses[k] <= losses[i] then k else i] == MinUpTo(losses, k);
    } else {
      assert losses[0] == MinUpTo(losses, 0);
    }
  }

  /** LastImprovement(losses, k) is an improving epoch, and no later epoch up to k improves. */
  lemma {:induction false} LastImprovementIsLatest(losses: seq<real>, k: nat)
    requires k < |losses|
    ensures Improves(losses, LastImprovement(losses, k))
    ensures forall j :: LastImprovement(losses, k) < j <= k ==> !Improves(losses, j)
    decreases k
  {
    if !Improves(losses, k) {
      LastImprovementIsLatest(losses, k - 1);
    }
  }

  /** The value of `patience` after epoch k: the number of epochs since the last save. */
  function Patience(losses: seq<real>, k: nat): nat
    requires k < |losses|
  {
    k - LastImprovement(losses, k)
  }

  /**
    The loop breaks after epoch k: patience, just incremented, equals the
    threshold. The test sits in the non-improving branch, where patience is
    at least one, so a threshold of zero or less never fires.
   */
  predicate StopsAfter(losses: seq<real>, earlyStopping: int, k: nat)
    requires k < |losses|
  {
    0 < earlyStopping && Patience(losses, k) == earlyStopping
  }

  /**
    The restored epoch r = LastImprovement(losses, k) is the last one at which
    the running minimum was attained: its loss is the least among epochs 0..k,
    and every later epoch up to k is strictly worse (among ties the later
    epoch wins).
   */
  lemma {:induction false} RestoredIsLatestMinimum(losses: seq<real>, k: nat)
    requires k < |losses|
    ensures var r := LastImprovement(losses, k);
      && losses[r] == MinUpTo(losses, k)
      && (forall j :: 0 <= j <= k ==> losses[r] <= losses[j])
      && (forall j :: r < j <= k ==> losses[r] < losses[j])
    decreases k
  {
    if k > 0 && !Improves(losses, k) {
      RestoredIsLatestMinimum(losses, k - 1);
      var i :| 0 <= i < k && losses[k] > losses[i];
    } else if k > 0 {
      assert losses[k] <= losses[LastImprovement(losses, k - 1)];
      RestoredIsLatestMinimum(losses, k - 1);
    }
  }

  /** The loop's locals: best_loss, patience, and the epoch whose state was saved last (if any). */
  datatype LoopState = LoopState(best: Bound, patience: nat, saved: Option<nat>)

  /** The locals after the first n epochs, one loop body at a time (lines 56-63 of the loop). */
  function Epochs(losses: seq<real>, n: nat): LoopState
    requires n <= |losses|
  {
    if n == 0 then LoopState(Infinity, 0, None)
    else
      var s := Epochs(losses, n - 1);
      if NoWorse(losses[n - 1], s.best) then LoopState(Finite(losses[n - 1]), 0, Some(n - 1))
      else LoopState(s.best, s.patience + 1, s.saved)
  }

  /**
    What the loop body keeps from epoch to epoch: some state is saved exactly
    when an epoch ran; best_loss is the loss of the saved epoch, and patience
    the number of epochs run after it.
   */
  lemma {:induction false} EpochsInvariant(losses: seq<real>, n: nat)
    requires n <= |losses|
    ensures var s := Epochs(losses, n);
      && (s.saved.None? <==> n == 0)
      && (n == 0 ==> s.best == Infinity && s.patience == 0)
      && (s.saved.Some? ==> && s.saved.value < n
                            && s.best == Finite(losses[s.saved.value])
                            && s.patience == n - 1 - s.saved.value)
    decreases n
  {
    if n > 0 {
      EpochsInvariant(losses, n - 1);
    }
  }

  /**
    After n > 0 epochs the loop's locals are what the early-stopping design
    promises: best_loss is the least loss so far, patience the number of
    epochs since the latest improving epoch, and that epoch is the one saved.
   */
  lemma {:induction false} EpochsCharacterized(losses: seq<real>, n: nat)
    requires 0 < n <= |losses|
    ensures Epochs(losses, n) ==
      LoopState(Finite(MinUpTo(losses, n - 1)), Patience(losses, n - 1), Some(LastImprovement(losses, n - 1)))
    decreases n
  {
    if n > 1 {
      var k := n - 1;
      EpochsCharacterized(losses, k);
      RestoredIsLatestMinimum(losses, k - 1);
      if Improves(losses, k) {
        assert losses[k] <= losses[LastImprovement(losses, k - 1)];
      } else {
        var i :| 0 <= i < k && losses[k] > losses[i];
      }
    }
  }

  /** The arguments of one call the testing loop makes to the meta model. */
  datatype MetaModelCall<S, Q, I> = MetaModelCall(supports: seq<S>, queries: seq<Q>, ids: seq<I>, updates: int)

  class MetaLearning {
    /** Inner-loop update count, meta-epoch budget and patience threshold from the configuration. */
    const updates: int
    const metaEpochs: int
    const earlyStopping: int

    /** The learner's parameter state: the number of outer-loop steps applied to it. */
    var learner: nat

    /** What the checkpoint file holds: None until the first save. */
    var checkpoint: Option<nat>

    constructor (updates: int, metaEpochs: int, earlyStopping: int)
      ensures this.updates == updates && this.metaEpochs == metaEpochs && this.earlyStopping == earlyStopping
      ensures learner == 0 && checkpoint == None
    {
      this.updates := updates;
      this.metaEpochs := metaEpochs;
      this.earlyStopping := earlyStopping;
      learner := 0;
      checkpoint := None;
    }

    /**
      training: `losses[e]` is the mean query loss of meta-epoch e. Returns the
      number of epochs run, the final best_loss and patience, and whether the
      checkpoint could be loaded back. When no epoch ran and no earlier run
      left a file, torch.load raises; that is `restored == false`, with the
      learner left as it is.
     */
    method Training(losses: seq<real>) returns (epochsRun: nat, bestLoss: Bound, patience: nat, restored: bool)
      requires metaEpochs <= |losses|
      modifies this
      // at most meta_epochs epochs, and all of them when the loop never breaks
      ensures epochsRun <= |losses| && (metaEpochs <= 0 ==> epochsRun == 0)
      ensures 0 < metaEpochs ==> 0 < epochsRun <= metaEpochs
      // it stops at the first epoch whose patience reaches the threshold, and not later
      ensures forall k :: 0 <= k < epochsRun - 1 ==> !StopsAfter(losses, earlyStopping, k)
      ensures epochsRun < metaEpochs ==> StopsAfter(losses, earlyStopping, epochsRun - 1)
      ensures earlyStopping <= 0 ==> epochsRun == (if metaEpochs < 0 then 0 else metaEpochs)
      // best_loss is the least loss seen; patience counts the epochs since the last save
      ensures epochsRun == 0 ==> bestLoss == Infinity && patience == 0
      ensures epochsRun > 0 ==> bestLoss == Finite(MinUpTo(losses, epochsRun - 1))
      ensures epochsRun > 0 ==> patience == Patience(losses, epochsRun - 1)
      // the checkpoint holds the state right after the last improving epoch, and is loaded back
      ensures epochsRun > 0 ==> checkpoint == Some(old(learner) + LastImprovement(losses, epochsRun - 1) + 1)
      ensures epochsRun == 0 ==> checkpoint == old(checkpoint)
      // the first epoch always saves (best_loss starts at +infinity), so a run of one epoch or more restores
      ensures 0 < metaEpochs ==> restored
      ensures restored == checkpoint.Some?
      ensures learner == if restored then checkpoint.value else old(learner) + epochsRun
    {
      ghost var saved: Option<nat> := None;
      bestLoss, patience := Infinity, 0;
      epochsRun := 0;
      var epoch := 0;
      while epoch < metaEpochs
        invariant 0 <= epoch <= |losses| && epochsRun == epoch
        invariant epoch == 0 || epoch <= metaEpochs
        invariant learner == old(learner) + epoch
        invariant Epochs(losses, epoch) == LoopState(bestLoss, patience, saved)
        invariant forall k :: 0 <= k < epoch ==> !StopsAfter(losses, earlyStopping, k)
        invariant checkpoint == if saved.None? then old(checkpoint) else Some(old(learner) + saved.value + 1)
      {
        EpochsCharacterized(losses, epoch + 1);
        learner := learner + 1;  // the outer-loop step of this epoch
        var loss := losses[epoch];
        epochsRun := epoch + 1;
        if NoWorse(loss, bestLoss) {
          patience := 0;
          bestLoss := Finite(loss);
          checkpoint := Some(learner);  // torch.save of the learner's state
          saved := Some(epoch);
        } else {
          patience := patience + 1;
          if patience == earlyStopping {
            break;
          }
        }
        epoch := epoch + 1;
      }
      if epochsRun > 0 {
        EpochsCharacterized(losses, epochsRun);
        assert saved == Some(LastImprovement(losses, epochsRun - 1));
      }
      restored := checkpoint.Some?;
      if restored {
        learner := checkpoint.value;  // load_state_dict(torch.load(model_path))
      }
    }

    /**
      testing: one meta-model call per (support, query, id) triple, as far as
      the shortest of the three lists goes, each with `updates + 10` inner steps.
     */
    method Testing<S, Q, I>(supports: seq<S>, queries: seq<Q>, ids: seq<I>)
      returns (calls: seq<MetaModelCall<S, Q, I>>)
      ensures |calls| <= |supports| && |calls| <= |queries| && |calls| <= |ids|
      ensures |calls| == |supports| || |calls| == |queries| || |calls| == |ids|
      ensures forall i :: 0 <= i < |calls| ==>
        calls[i] == MetaModelCall([supports[i]], [queries[i]], [ids[i]], updates + 10)
    {
      calls := [];
      var i := 0;
      while i < |supports| && i < |queries| && i < |ids|
        invariant 0 <= i <= |supports| && i <= |queries| && i <= |ids|
        invariant |calls| == i
        invariant forall k :: 0 <= k < i ==>
          calls[k] == MetaModelCall([supports[k]], [queries[k]], [ids[k]], updates + 10)
      {
        calls := calls + [MetaModelCall([supports[i]], [queries[i]], [ids[i]], updates + 10)];
        i := i + 1;
      }
    }
  }
}
