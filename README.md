# Episode sampling and meta-training early stopping

This project models two pieces of sequential logic of a meta-learning
framework for NLP tasks, and proves what they promise.

- **Batch collation and episode sampling** (`datasets/utils.py`).
  `get_max_batch_len` and `prepare_batch` right-pad a batch of examples:
  - every token sequence gets `'<PAD>'` up to the longest input of the batch;
  - every label sequence gets `-1` up to the same length;
  - the original input lengths are kept.

  The three episode generators turn shuffled index pools into episodes. An
  episode is a support loader, a query loader and a task tag.
  - The two balanced generators first check that the pool is large enough.
    Then they cut the shuffle into consecutive windows, one per episode.
  - The full-query generator takes the first min(`S`, train size) shuffled
    train indices as its support, and the whole test set, in order, as its
    query.
- **The meta-training loop** (`old/meta_learning.py`, class `MetaLearning`).
  `training` runs up to `meta_epochs` epochs and keeps `best_loss` and `patience`.
  - An epoch whose mean loss is no worse than `best_loss` saves the learner's
    state to the checkpoint file and resets `patience`.
  - Any other epoch increments `patience`. The loop stops when `patience`
    equals `early_stopping`.
  - At the end the checkpoint is loaded back into the learner.

  `testing` calls the meta model once per (support, query, id) triple.

How the model represents the system:
- Dafny modules:
  - `BatchCollation` and `EpisodeSampling` model `datasets/utils.py`;
  - `MetaLearningLoop` models `old/meta_learning.py`.
- A dataset is seen only through its length. The generators use nothing else.
- `random.shuffle(list(range(n)))` becomes a permutation `order` of
  `0 .. n-1` given by the caller (`IsPermutation`).
- A `DataLoader` over a `Subset` becomes a `Loader`: the subset's dataset
  indices, in order, and the batch size. `Batches` gives the batches such a
  loader yields: consecutive chunks, the last one possibly shorter.
- The generators' error is the `Failure` case of a `Result` carrying the
  exception message. Success carries the list of episodes.
- The per-epoch mean query loss, which the meta model computes, is an input
  sequence `losses` of reals indexed by epoch.
- `best_loss = float('inf')` is `Bound.Infinity`.
- The learner's parameter state is the number of outer-loop steps applied to
  it (the field `learner`).
- The checkpoint file is the field `checkpoint`: `None` while no file exists,
  otherwise the state it last received.
- `torch.save` writes `checkpoint`. `torch.load` followed by
  `load_state_dict` copies it back into `learner`.
- The offset `e*w` of episode `e` is `Offset(e, w)`, `e` repeated additions of
  `w`. That is what the loops compute with `start_index += ...`, and
  `OffsetIsProduct` proves it equals the product.

## Model

| member | source | states |
|---|---|---|
| BatchCollation.MaxBatchLen | datasets/utils.py:8-9 | the result is at least the length of every input of the (non-empty) batch, and equals the length of one of them |
| BatchCollation.Repeat | datasets/utils.py:19-20 | Python's `[v] * k`: k copies of v, none when k is zero or negative |
| BatchCollation.PrepareBatch | datasets/utils.py:12-23 | x, lengths and y have one entry per example, in batch order; lengths[i] is the length of input i; x[i] has exactly the longest input length, starts with input i and holds only `'<PAD>'` after it; y[i] starts with the labels of example i, holds only -1 after them, has length max(longest input, its own length), and so has the longest input length when the labels are no longer than it |
| EpisodeSampling.Range | datasets/utils.py:72 | `list(range(n))` holds every index of a dataset of n examples exactly once |
| EpisodeSampling.Batches | datasets/utils.py:75-76 | the batches a `DataLoader` with `drop_last=False` yields: none for an empty subset, otherwise non-empty batches of at most the batch size |
| EpisodeSampling.BatchesCover | datasets/utils.py:40 | the batches, concatenated, are the loader's subset, every index exactly once and in order; all batches but the last are full |
| EpisodeSampling.WindowLoaderSingleBatch | datasets/utils.py:40 | a non-empty loader whose batch size is its subset's length yields the whole subset as a single batch |
| EpisodeSampling.OffsetIsProduct | datasets/utils.py:41 | the running start index after e windows of width w is e*w |
| EpisodeSampling.WindowFits | datasets/utils.py:36-44 | window e of n windows of width w ends no later than the end of the n-th window |
| EpisodeSampling.WindowsDisjoint | datasets/utils.py:30-44 | a window of a shuffle has no repeated index and only valid indices, and two different windows share no index |
| EpisodeSampling.GenerateEpisodesFromSplitDatasets | datasets/utils.py:26-47 | fails with "Unable to balance the dataset correctly" exactly when n*S exceeds the train pool or n*Q exceeds the test pool; otherwise returns n episodes, and episode e holds the train shuffle's positions e*S .. e*S+S-1 (the running offset is shown to be e*S) as a support loader of batch size S, the test shuffle's positions e*Q .. e*Q+Q-1 as a query loader of batch size Q, and the task |
| EpisodeSampling.SplitEpisodesDisjoint | datasets/utils.py:30-47 | every support has S indices and every query Q; each has no repeated index and only indices valid for its own dataset; no two supports share an index, and no two queries do |
| EpisodeSampling.SplitEpisodesSingleBatch | datasets/utils.py:39-43 | when S > 0 and Q > 0, each support and query loader of the split generator yields its whole window as one batch |
| EpisodeSampling.GenerateEpisodesFromSingleDataset | datasets/utils.py:50-68 | fails with the same message exactly when n*(S+Q) exceeds the pool; otherwise returns n episodes, and episode e is window e of width S+Q, its first S indices the support and the following Q the query |
| EpisodeSampling.SingleEpisodeSlices | datasets/utils.py:57-65 | episode e's support is the shuffle's positions e*(S+Q) .. e*(S+Q)+S-1, and its query the next Q positions |
| EpisodeSampling.SingleEpisodesDrawPrefix | datasets/utils.py:57-68 | the episodes, read support then query and episode by episode, consume exactly the first n*(S+Q) shuffled indices, in order |
| EpisodeSampling.SingleEpisodesSingleBatch | datasets/utils.py:60-64 | when S > 0 and Q > 0, each support and query loader of the single-dataset generator yields its whole part as one batch |
| EpisodeSampling.SingleEpisodesDisjoint | datasets/utils.py:54-68 | all support and query indices of all episodes together are pairwise distinct, valid, and n*(S+Q) in number; each episode's support and query are disjoint, and no two episodes share an index |
| EpisodeSampling.GenerateFullQueryEpisode | datasets/utils.py:71-78 | always exactly one episode, with no capacity check; the support holds the first min(S, train size) shuffled train indices, distinct and valid, with batch size S; the query iterates the whole test range in order with the given batch size (32 by default); the task is kept |
| EpisodeSampling.FullQueryCoversTestSet | datasets/utils.py:76 | the query loader's batches, concatenated, are 0 .. test size-1 in order, so every test example is queried exactly once; every batch is non-empty, at most the batch size, and full except possibly the last |
| MetaLearningLoop.LastImprovement | old/meta_learning.py:56-59 | the epoch whose state the checkpoint holds after epoch k is an epoch no later than k (that it is the latest improving one is LastImprovementIsLatest) |
| MetaLearningLoop.MinUpToIsLeast | old/meta_learning.py:39-58 | the running minimum up to epoch k is no greater than any loss of epochs 0..k and is the loss of one of them |
| MetaLearningLoop.LastImprovementIsLatest | old/meta_learning.py:56-59 | LastImprovement(k) is an improving epoch, and no later epoch up to k improves |
| MetaLearningLoop.RestoredIsLatestMinimum | old/meta_learning.py:56-68 | the restored epoch's loss is the least of epochs 0..k; every later epoch is strictly worse, so among tied minima the latest one is restored |
| MetaLearningLoop.EpochsInvariant | old/meta_learning.py:56-63 | `Epochs`, the loop body folded over the first n epochs, keeps three facts: some state is saved exactly when an epoch ran; best_loss is the loss of the saved epoch; patience is the number of epochs run after it |
| MetaLearningLoop.EpochsCharacterized | old/meta_learning.py:39-67 | after n > 0 epochs of the loop body, best_loss is the least loss so far, patience counts the epochs since the latest improving epoch, and that epoch is the last one saved |
| MetaLearningLoop.MetaLearning.constructor | old/meta_learning.py:18-23 | keeps the update count, the meta-epoch budget and the early-stopping threshold; the learner is fresh and no checkpoint file exists |
| MetaLearningLoop.MetaLearning.Training | old/meta_learning.py:34-68 | runs at most meta_epochs epochs, at least one when meta_epochs > 0 and all of them when early_stopping <= 0; stops after the first epoch whose patience equals the threshold and not later; best_loss is the least loss of the epochs run and patience the number of epochs since the last save; the checkpoint holds the learner's state right after the latest improving epoch; a run of at least one epoch always has a checkpoint to restore; the learner ends in the restored state, or, with no file to load, in its state after the loop |
| MetaLearningLoop.MetaLearning.Testing | old/meta_learning.py:70-76 | one meta-model call per (support, query, id) triple, as far as the shortest of the three lists goes, each with singleton lists and updates + 10 inner steps |

## Left out

- `hyp_tune.py` is not part of this model. It loads YAML configuration, builds paths, logs, and dispatches on strategy names. It also calls `generate_wsd_episodes`, which `datasets/utils.py` does not define.
- Randomness: the shuffles are permutations passed in by the caller. The model says nothing about their distribution.
- `Subset` and `DataLoader` internals, including collation through `prepare_batch`, are not modelled. A loader is its index list and batch size.
- `DataLoader` raises `ValueError` for a batch size of 0 (for `S == 0` or `Q == 0`). The model builds the loader anyway. `Batches` and `BatchesCover` require a positive batch size.
- Negative counts: the generators take `n_episodes`, `S` and `Q` as natural numbers, so products of negative counts and Python's negative slice indices are not modelled.
- BatchCollation.MaxBatchLen: requires a non-empty batch. `max([])` raises, and a loader never collates an empty batch.
- BatchCollation.PrepareBatch: requires a non-empty batch, for the same reason.
- `datasets/episode.py` is not part of this model. An episode is the triple of support loader, query loader and task. Of a dataset, only its length is modelled.
- The meta model itself, `optim.Adam`, `zero_grad`, `step`, and the forward pass are not modelled. Their only effect in the model is one outer-loop step on the learner per epoch, and the epoch's loss, which is an input.
- Float numerics: the per-epoch loss is a real number. NaN losses, and the averaging by `torch.mean` and `sum(accuracies) / len(accuracies)`, are not modelled.
- The checkpoint's path and file format, and a missing file: `torch.save` and `torch.load` are reads and writes of one field. When no epoch ran and no file exists, `torch.load` raises; the model reports this as `restored == false` and leaves the learner unchanged.
- A checkpoint file left by an earlier process is visible only through the `checkpoint` field's value before `Training`. The constructor starts with no file.
- Meta-model selection by substring of the configuration, the optimiser's learning rate and weight decay, and all logging are not modelled.
- MetaLearningLoop.MetaLearning.Testing: records the arguments of each meta-model call. What the meta model does with them is not modelled.
