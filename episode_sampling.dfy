/**
  Episode generation (datasets/utils.py, the three generate_* functions).
  A dataset is seen only through its length; the random shuffle of
  `list(range(n))` is the permutation `order` given by the caller; a data
  loader is the list of dataset indices it iterates together with its batch
  size.
 */
module EpisodeSampling {

  /** The message of the exception raised when the pools are too small. */
  const UnbalancedMessage: string := "Unable to balance the dataset correctly"

  /** The default batch size of the full-query loader. */
  const DefaultQueryBatchSize: nat := 32

  datatype Result<T> = Success(value: T) | Failure(message: string)

  /** A data loader over a subset of a dataset: the subset's indices, in order, and the batch size. */
  datatype Loader = Loader(indices: seq<nat>, batchSize: nat)

  /** An episode: a support loader, a query loader and the task tag. */
  datatype Episode<Task> = Episode(support: Loader, query: Loader, task: Task)

  predicate Distinct(s: seq<nat>)
  {
    forall i, j :: 0 <= i < |s| && 0 <= j < |s| && i != j ==> s[i] != s[j]
  }

  /** Every entry of s is a valid index into a dataset of n examples. */
  predicate InRange(s: seq<nat>, n: nat)
  {
    forall i :: 0 <= i < |s| ==> s[i] < n
  }

  predicate Disjoint(a: seq<nat>, b: seq<nat>)
  {
    forall i, j :: 0 <= i < |a| && 0 <= j < |b| ==> a[i] != b[j]
  }

  /** `order` is a shuffle of `list(range(n))`. */
  predicate IsPermutation(order: seq<nat>, n: nat)
  {
    |order| == n && InRange(order, n) && Distinct(order)
  }

  /** `list(range(n))`, in increasing order: every index of a dataset of n examples exactly once. */
  function Range(n: nat): (r: seq<nat>)
    ensures IsPermutation(r, n)
  {
    seq(n, i => i)
  }

  function Concat(bs: seq<seq<nat>>): seq<nat>
  {
    if bs == [] then [] else bs[0] + Concat(bs[1..])
  }

  /** The batches a loader yields, in order: chunks of `size`, the last one possibly shorter. */
  function Batches(indices: seq<nat>, size: nat): (r: seq<seq<nat>>)
    requires size > 0
    ensures |r| == 0 <==> |indices| == 0
    ensures forall k :: 0 <= k < |r| ==> 0 < |r[k]| <= size
    decreases |indices|
  {
    if indices == [] then []
    else if |indices| <= size then [indices]
    else [indices[..size]] + Batches(indices[size..], size)
  }

  /**
    A loader yields every index of its subset exactly once and in order, all
    batches but the last one full.
   */
  lemma {:induction false} BatchesCover(indices: seq<nat>, size: nat)
    requires size > 0
    ensures Concat(Batches(indices, size)) == indices
    ensures forall k :: 0 <= k < |Batches(indices, size)| - 1 ==> |Batches(indices, size)[k]| == size
    decreases |indices|
  {
    if indices != [] && |indices| > size {
      var rest := Batches(indices[size..], size);
      BatchesCover(indices[size..], size);
      assert Batches(indices, size) == [indices[..size]] + rest;
      assert ([indices[..size]] + rest)[1..] == rest;
      assert indices[..size] + indices[size..] == indices;
    }
  }

  /** A non-empty loader whose batch size is its subset's size yields the subset as one batch. */
  lemma WindowLoaderSingleBatch(l: Loader)
    requires 0 < l.batchSize == |l.indices|
    ensures Batches(l.indices, l.batchSize) == [l.indices]
  {
  }

  // ---------------------------------------------------------------------------
  // Window arithmetic. Episode e owns the positions [e*w, e*w + w) of a shuffle;
  // the offset e*w is written as repeated addition, which is what the
  // generators' loops compute (`start_index += ...`), and OffsetIsProduct
  // shows it is the product.
  // ---------------------------------------------------------------------------

  /** e * w, as e additions of w. */
  function Offset(e: nat, w: nat): nat
  {
    if e == 0 then 0 else Offset(e - 1, w) + w
  }

  lemma {:induction false} OffsetIsProduct(e: nat, w: nat)
    ensures Offset(e, w) == e * w
  {
    if e > 0 {
      OffsetIsProduct(e - 1, w);
      assert e * w == (e - 1) * w + w;
    }
  }

  /** Window e of an earlier batch of n windows ends no later than window n starts. */
  lemma {:induction false} WindowFits(e: nat, n: nat, w: nat)
    requires e < n
    ensures Offset(e, w) + w <= Offset(n, w)
    decreases n
  {
    if e < n - 1 {
      WindowFits(e, n - 1, w);
    }
  }

  /** Window e of width w of a shuffle. */
  function Window(order: seq<nat>, e: nat, w: nat): seq<nat>
    requires Offset(e, w) + w <= |order|
  {
    order[Offset(e, w) .. Offset(e, w) + w]
  }

  /** Offsets inside two different windows of width w never name the same position. */
  lemma WindowsApart(e1: nat, o1: nat, e2: nat, o2: nat, w: nat)
    requires o1 < w && o2 < w
    requires e1 != e2 || o1 != o2
    ensures Offset(e1, w) + o1 != Offset(e2, w) + o2
  {
    if e1 < e2 {
      WindowFits(e1, e2, w);
    } else if e2 < e1 {
      WindowFits(e2, e1, w);
    }
  }

  /** Windows of a shuffle have no repeats and valid indices, and two different windows share no index. */
  lemma WindowsDisjoint(order: seq<nat>, n: nat, nWindows: nat, w: nat, e1: nat, e2: nat)
    requires IsPermutation(order, n)
    requires Offset(nWindows, w) <= n && e1 < nWindows && e2 < nWindows
    ensures Offset(e1, w) + w <= n && Offset(e2, w) + w <= n
    ensures Distinct(Window(order, e1, w)) && InRange(Window(order, e1, w), n)
    ensures e1 != e2 ==> Disjoint(Window(order, e1, w), Window(order, e2, w))
  {
    WindowFits(e1, nWindows, w);
    WindowFits(e2, nWindows, w);
    var a1 := Window(order, e1, w);
    forall i, j | 0 <= i < w && 0 <= j < w && i != j
      ensures a1[i] != a1[j]
    {
      WindowsApart(e1, i, e1, j, w);
    }
    if e1 != e2 {
      var a2 := Window(order, e2, w);
      forall i, j | 0 <= i < w && 0 <= j < w
        ensures a1[i] != a2[j]
      {
        WindowsApart(e1, i, e2, j, w);
      }
    }
  }

  lemma PrefixOfPermutation(order: seq<nat>, n: nat, k: nat)
    requires IsPermutation(order, n)
    requires k <= n
    ensures Distinct(order[..k]) && InRange(order[..k], n)
  {
  }

  // ---------------------------------------------------------------------------
  // generate_episodes_from_split_datasets
  // ---------------------------------------------------------------------------

  /** Episode e of the split generator: support window e of the train shuffle, query window e of the test shuffle. */
  function SplitEpisode<Task>(trainOrder: seq<nat>, testOrder: seq<nat>, e: nat,
                              nSupport: nat, nQuery: nat, task: Task): Episode<Task>
    requires Offset(e, nSupport) + nSupport <= |trainOrder| && Offset(e, nQuery) + nQuery <= |testOrder|
  {
    Episode(Loader(Window(trainOrder, e, nSupport), nSupport), Loader(Window(testOrder, e, nQuery), nQuery), task)
  }

  function SplitEpisodes<Task>(trainOrder: seq<nat>, testOrder: seq<nat>, nEpisodes: nat,
                               nSupport: nat, nQuery: nat, task: Task): seq<Episode<Task>>
    requires Offset(nEpisodes, nSupport) <= |trainOrder| && Offset(nEpisodes, nQuery) <= |testOrder|
  {
    seq(nEpisodes, e requires 0 <= e < nEpisodes =>
      WindowFits(e, nEpisodes, nSupport);
      WindowFits(e, nEpisodes, nQuery);
      SplitEpisode(trainOrder, testOrder, e, nSupport, nQuery, task))
  }

  /**
    generate_episodes_from_split_datasets: the unbalanced-dataset error exactly
    when n*S exceeds the train pool or n*Q the test pool; otherwise n episodes,
    episode e holding train window e (positions e*S .. e*S+S-1 of the train
    shuffle) and test window e (positions e*Q .. e*Q+Q-1 of the test shuffle).
   */
  method GenerateEpisodesFromSplitDatasets<Task>(
    trainSize: nat, testSize: nat, nEpisodes: nat, nSupport: nat, nQuery: nat, task: Task,
    trainOrder: seq<nat>, testOrder: seq<nat>)
    returns (r: Result<seq<Episode<Task>>>)
    requires IsPermutation(trainOrder, trainSize)
    requires IsPermutation(testOrder, testSize)
    ensures r.Failure? <==> nEpisodes * nSupport > trainSize || nEpisodes * nQuery > testSize
    ensures r.Failure? ==> r.message == UnbalancedMessage
    ensures r.Success? ==> Offset(nEpisodes, nSupport) <= trainSize && Offset(nEpisodes, nQuery) <= testSize
    ensures r.Success? ==> |r.value| == nEpisodes
    ensures r.Success? ==> forall e :: 0 <= e < nEpisodes ==>
      && Offset(e, nSupport) == e * nSupport && Offset(e, nQuery) == e * nQuery
      && Offset(e, nSupport) + nSupport <= trainSize && Offset(e, nQuery) + nQuery <= testSize
      && r.value[e].support == Loader(Window(trainOrder, e, nSupport), nSupport)
      && r.value[e].query == Loader(Window(testOrder, e, nQuery), nQuery)
      && r.value[e].task == task
    ensures r.Success? ==> r.value == SplitEpisodes(trainOrder, testOrder, nEpisodes, nSupport, nQuery, task)
  {
    OffsetIsProduct(nEpisodes, nSupport);
    OffsetIsProduct(nEpisodes, nQuery);
    if nEpisodes * nSupport > trainSize || nEpisodes * nQuery > testSize {
      return Failure(UnbalancedMessage);
    }
    var trainStart, testStart := 0, 0;
    var episodes: seq<Episode<Task>> := [];
    for e := 0 to nEpisodes
      invariant Offset(e, nSupport) <= trainSize && Offset(e, nQuery) <= testSize
      invariant trainStart == Offset(e, nSupport) && testStart == Offset(e, nQuery)
      invariant episodes == SplitEpisodes(trainOrder, testOrder, e, nSupport, nQuery, task)
    {
      WindowFits(e, nEpisodes, nSupport);
      WindowFits(e, nEpisodes, nQuery);
      SplitStep(trainOrder, testOrder, e, nSupport, nQuery, task);
      var support := Loader(trainOrder[trainStart .. trainStart + nSupport], nSupport);
      trainStart := trainStart + nSupport;
      var query := Loader(testOrder[testStart .. testStart + nQuery], nQuery);
      testStart := testStart + nQuery;
      episodes := episodes + [Episode(support, query, task)];
    }
    forall e | 0 <= e < nEpisodes
      ensures Offset(e, nSupport) == e * nSupport && Offset(e, nQuery) == e * nQuery
      ensures Offset(e, nSupport) + nSupport <= trainSize && Offset(e, nQuery) + nQuery <= testSize
    {
      OffsetIsProduct(e, nSupport);
      OffsetIsProduct(e, nQuery);
      WindowFits(e, nEpisodes, nSupport);
      WindowFits(e, nEpisodes, nQuery);
    }
    r := Success(episodes);
  }

  /** One more iteration of the generator's loop appends window e to the episodes. */
  lemma SplitStep<Task>(trainOrder: seq<nat>, testOrder: seq<nat>, e: nat, nSupport: nat, nQuery: nat, task: Task)
    requires Offset(e + 1, nSupport) <= |trainOrder| && Offset(e + 1, nQuery) <= |testOrder|
    ensures Offset(e, nSupport) <= |trainOrder| && Offset(e, nQuery) <= |testOrder|
    ensures SplitEpisodes(trainOrder, testOrder, e + 1, nSupport, nQuery, task)
         == SplitEpisodes(trainOrder, testOrder, e, nSupport, nQuery, task)
            + [SplitEpisode(trainOrder, testOrder, e, nSupport, nQuery, task)]
  {
  }

  /**
    The split generator never reuses an index: within the train pool no two
    support sets share an index, within the test pool no two query sets do,
    each set has no repeats, and every index is valid for its own dataset.
   */
  lemma SplitEpisodesDisjoint<Task>(trainOrder: seq<nat>, testOrder: seq<nat>, trainSize: nat, testSize: nat,
                                    nEpisodes: nat, nSupport: nat, nQuery: nat, task: Task)
    requires IsPermutation(trainOrder, trainSize) && IsPermutation(testOrder, testSize)
    requires Offset(nEpisodes, nSupport) <= trainSize && Offset(nEpisodes, nQuery) <= testSize
    ensures var eps := SplitEpisodes(trainOrder, testOrder, nEpisodes, nSupport, nQuery, task);
      && |eps| == nEpisodes
      && (forall e :: 0 <= e < nEpisodes ==>
            && |eps[e].support.indices| == nSupport && |eps[e].query.indices| == nQuery
            && Distinct(eps[e].support.indices) && Distinct(eps[e].query.indices)
            && InRange(eps[e].support.indices, trainSize) && InRange(eps[e].query.indices, testSize))
      && (forall e1, e2 :: 0 <= e1 < nEpisodes && 0 <= e2 < nEpisodes && e1 != e2 ==>
            Disjoint(eps[e1].support.indices, eps[e2].support.indices)
            && Disjoint(eps[e1].query.indices, eps[e2].query.indices))
  {
    var eps := SplitEpisodes(trainOrder, testOrder, nEpisodes, nSupport, nQuery, task);
    forall e1, e2 | 0 <= e1 < nEpisodes && 0 <= e2 < nEpisodes
      ensures && |eps[e1].support.indices| == nSupport && |eps[e1].query.indices| == nQuery
              && Distinct(eps[e1].support.indices) && Distinct(eps[e1].query.indices)
              && InRange(eps[e1].support.indices, trainSize) && InRange(eps[e1].query.indices, testSize)
      ensures e1 != e2 ==> Disjoint(eps[e1].support.indices, eps[e2].support.indices)
                           && Disjoint(eps[e1].query.indices, eps[e2].query.indices)
    {
      WindowsDisjoint(trainOrder, trainSize, nEpisodes, nSupport, e1, e2);
      WindowsDisjoint(testOrder, testSize, nEpisodes, nQuery, e1, e2);
    }
  }

  /** With S > 0 and Q > 0, every support and query loader of the split generator yields its window as one batch. */
  lemma SplitEpisodesSingleBatch<Task>(trainOrder: seq<nat>, testOrder: seq<nat>, nEpisodes: nat,
                                       nSupport: nat, nQuery: nat, task: Task)
    requires Offset(nEpisodes, nSupport) <= |trainOrder| && Offset(nEpisodes, nQuery) <= |testOrder|
    requires nSupport > 0 && nQuery > 0
    ensures var eps := SplitEpisodes(trainOrder, testOrder, nEpisodes, nSupport, nQuery, task);
      forall e :: 0 <= e < nEpisodes ==>
        && Batches(eps[e].support.indices, eps[e].support.batchSize) == [eps[e].support.indices]
        && Batches(eps[e].query.indices, eps[e].query.batchSize) == [eps[e].query.indices]
  {
    var eps := SplitEpisodes(trainOrder, testOrder, nEpisodes, nSupport, nQuery, task);
    forall e | 0 <= e < nEpisodes
      ensures Batches(eps[e].support.indices, eps[e].support.batchSize) == [eps[e].support.indices]
      ensures Batches(eps[e].query.indices, eps[e].query.batchSize) == [eps[e].query.indices]
    {
      WindowFits(e, nEpisodes, nSupport);
      WindowFits(e, nEpisodes, nQuery);
      WindowLoaderSingleBatch(eps[e].support);
      WindowLoaderSingleBatch(eps[e].query);
    }
  }

  // ---------------------------------------------------------------------------
  // generate_episodes_from_single_dataset
  // ---------------------------------------------------------------------------

  /** Episode e of the single-dataset generator: window e of width S+Q, its first S indices the support, the rest the query. */
  function SingleEpisode<Task>(order: seq<nat>, e: nat, nSupport: nat, nQuery: nat, task: Task): Episode<Task>
    requires Offset(e, nSupport + nQuery) + nSupport + nQuery <= |order|
  {
    var window := Window(order, e, nSupport + nQuery);
    Episode(Loader(window[..nSupport], nSupport), Loader(window[nSupport..], nQuery), task)
  }

  /** The support and query of single-dataset episode e as slices of the shuffle. */
  lemma SingleEpisodeSlices<Task>(order: seq<nat>, e: nat, nSupport: nat, nQuery: nat, task: Task)
    requires Offset(e, nSupport + nQuery) + nSupport + nQuery <= |order|
    ensures var s := Offset(e, nSupport + nQuery);
      && SingleEpisode(order, e, nSupport, nQuery, task).support.indices == order[s .. s + nSupport]
      && SingleEpisode(order, e, nSupport, nQuery, task).query.indices == order[s + nSupport .. s + nSupport + nQuery]
  {
  }

  function SingleEpisodes<Task>(order: seq<nat>, nEpisodes: nat, nSupport: nat, nQuery: nat,
                                task: Task): seq<Episode<Task>>
    requires Offset(nEpisodes, nSupport + nQuery) <= |order|
  {
    seq(nEpisodes, e requires 0 <= e < nEpisodes =>
      WindowFits(e, nEpisodes, nSupport + nQuery);
      SingleEpisode(order, e, nSupport, nQuery, task))
  }

  /**
    generate_episodes_from_single_dataset: the unbalanced-dataset error exactly
    when n*(S+Q) exceeds the pool; otherwise n episodes, episode e holding
    positions e*(S+Q) .. e*(S+Q)+S-1 of the shuffle as support and the next Q
    positions as query.
   */
  method GenerateEpisodesFromSingleDataset<Task>(
    size: nat, nEpisodes: nat, nSupport: nat, nQuery: nat, task: Task, order: seq<nat>)
    returns (r: Result<seq<Episode<Task>>>)
    requires IsPermutation(order, size)
    ensures r.Failure? <==> nEpisodes * (nSupport + nQuery) > size
    ensures r.Failure? ==> r.message == UnbalancedMessage
    ensures r.Success? ==> Offset(nEpisodes, nSupport + nQuery) <= size
    ensures r.Success? ==> |r.value| == nEpisodes
    ensures r.Success? ==> forall e :: 0 <= e < nEpisodes ==>
      && Offset(e, nSupport + nQuery) == e * (nSupport + nQuery)
      && Offset(e, nSupport + nQuery) + nSupport + nQuery <= size
      && r.value[e] == SingleEpisode(order, e, nSupport, nQuery, task)
    ensures r.Success? ==> r.value == SingleEpisodes(order, nEpisodes, nSupport, nQuery, task)
  {
    OffsetIsProduct(nEpisodes, nSupport + nQuery);
    if nEpisodes * (nSupport + nQuery) > size {
      return Failure(UnbalancedMessage);
    }
    ghost var w := nSupport + nQuery;
    var start := 0;
    var episodes: seq<Episode<Task>> := [];
    for e := 0 to nEpisodes
      invariant Offset(e, w) <= size && start == Offset(e, w)
      invariant episodes == SingleEpisodes(order, e, nSupport, nQuery, task)
    {
      WindowFits(e, nEpisodes, w);
      SingleStep(order, e, nSupport, nQuery, task);
      SingleEpisodeSlices(order, e, nSupport, nQuery, task);
      var support := Loader(order[start .. start + nSupport], nSupport);
      start := start + nSupport;
      var query := Loader(order[start .. start + nQuery], nQuery);
      start := start + nQuery;
      episodes := episodes + [Episode(support, query, task)];
    }
    forall e | 0 <= e < nEpisodes
      ensures Offset(e, w) == e * w && Offset(e, w) + w <= size
    {
      OffsetIsProduct(e, w);
      WindowFits(e, nEpisodes, w);
    }
    r := Success(episodes);
  }

  /** One more iteration of the generator's loop appends window e, as support then query, to the episodes. */
  lemma SingleStep<Task>(order: seq<nat>, e: nat, nSupport: nat, nQuery: nat, task: Task)
    requires Offset(e + 1, nSupport + nQuery) <= |order|
    ensures Offset(e, nSupport + nQuery) <= |order|
    ensures SingleEpisodes(order, e + 1, nSupport, nQuery, task)
         == SingleEpisodes(order, e, nSupport, nQuery, task) + [SingleEpisode(order, e, nSupport, nQuery, task)]
  {
  }

  /** All indices drawn by a list of episodes, episode by episode, support before query. */
  function Drawn<Task>(eps: seq<Episode<Task>>): seq<nat>
  {
    if eps == [] then []
    else Drawn(eps[..|eps| - 1]) + eps[|eps| - 1].support.indices + eps[|eps| - 1].query.indices
  }

  /** Appending an episode appends its support and then its query to what is drawn. */
  lemma DrawnAppend<Task>(eps: seq<Episode<Task>>, last: Episode<Task>)
    ensures Drawn(eps + [last]) == Drawn(eps) + last.support.indices + last.query.indices
  {
    assert (eps + [last])[..|eps|] == eps;
  }

  /** A prefix followed by the next two adjacent slices is the longer prefix. */
  lemma PrefixThenSlices(order: seq<nat>, s: nat, a: nat, b: nat)
    requires s + a + b <= |order|
    ensures order[..s] + order[s .. s + a] + order[s + a .. s + a + b] == order[..s + a + b]
  {
  }

  /** The single-dataset episodes consume exactly the first n*(S+Q) shuffled indices, in order. */
  lemma {:induction false} SingleEpisodesDrawPrefix<Task>(order: seq<nat>, nEpisodes: nat, nSupport: nat,
                                                         nQuery: nat, task: Task)
    requires Offset(nEpisodes, nSupport + nQuery) <= |order|
    ensures Drawn(SingleEpisodes(order, nEpisodes, nSupport, nQuery, task)) == order[..Offset(nEpisodes, nSupport + nQuery)]
    decreases nEpisodes
  {
    if nEpisodes > 0 {
      var k := nEpisodes - 1;
      SingleStep(order, k, nSupport, nQuery, task);
      SingleEpisodesDrawPrefix(order, k, nSupport, nQuery, task);
      SingleEpisodeSlices(order, k, nSupport, nQuery, task);
      DrawnAppend(SingleEpisodes(order, k, nSupport, nQuery, task), SingleEpisode(order, k, nSupport, nQuery, task));
      PrefixThenSlices(order, Offset(k, nSupport + nQuery), nSupport, nQuery);
    }
  }

  lemma SplitWindowDisjoint(window: seq<nat>, k: nat)
    requires Distinct(window) && k <= |window|
    ensures Disjoint(window[..k], window[k..])
  {
    forall i, j | 0 <= i < k && 0 <= j < |window| - k
      ensures window[..k][i] != window[k..][j]
    {
      assert window[..k][i] == window[i] && window[k..][j] == window[k + j];
    }
  }

  /** Parts of two disjoint windows are disjoint. */
  lemma SubWindowsDisjoint(w1: seq<nat>, w2: seq<nat>, k: nat)
    requires Disjoint(w1, w2) && k <= |w1| && k <= |w2|
    ensures Disjoint(w1[..k], w2[..k]) && Disjoint(w1[k..], w2[k..]) && Disjoint(w1[..k], w2[k..])
  {
    forall i, j | 0 <= i < k && 0 <= j < |w2| - k
      ensures w1[..k][i] != w2[k..][j]
    {
      assert w1[..k][i] == w1[i] && w2[k..][j] == w2[k + j];
    }
    forall i, j | 0 <= i < |w1| - k && 0 <= j < |w2| - k
      ensures w1[k..][i] != w2[k..][j]
    {
      assert w1[k..][i] == w1[k + i] && w2[k..][j] == w2[k + j];
    }
  }

  /** Two episodes e1, e2 of the single-dataset generator, as SingleEpisodesDisjoint sees them. */
  lemma SingleEpisodePair<Task>(order: seq<nat>, size: nat, nEpisodes: nat, nSupport: nat,
                                nQuery: nat, task: Task, e1: nat, e2: nat)
    requires IsPermutation(order, size)
    requires Offset(nEpisodes, nSupport + nQuery) <= size
    requires e1 < nEpisodes && e2 < nEpisodes
    ensures var eps := SingleEpisodes(order, nEpisodes, nSupport, nQuery, task);
      && |eps[e1].support.indices| == nSupport && |eps[e1].query.indices| == nQuery
      && Disjoint(eps[e1].support.indices, eps[e1].query.indices)
      && (e1 != e2 ==>
            && Disjoint(eps[e1].support.indices, eps[e2].support.indices)
            && Disjoint(eps[e1].query.indices, eps[e2].query.indices)
            && Disjoint(eps[e1].support.indices, eps[e2].query.indices))
  {
    var w := nSupport + nQuery;
    WindowsDisjoint(order, size, nEpisodes, w, e1, e2);
    SplitWindowDisjoint(Window(order, e1, w), nSupport);
    if e1 != e2 {
      SubWindowsDisjoint(Window(order, e1, w), Window(order, e2, w), nSupport);
    }
  }

  /**
    The single-dataset generator never draws an index twice: all support and
    query indices of all episodes together are pairwise distinct and valid;
    in particular each episode's support and query are disjoint, and no two
    episodes share an index.
   */
  lemma SingleEpisodesDisjoint<Task>(order: seq<nat>, size: nat, nEpisodes: nat, nSupport: nat,
                                     nQuery: nat, task: Task)
    requires IsPermutation(order, size)
    requires Offset(nEpisodes, nSupport + nQuery) <= size
    ensures var eps := SingleEpisodes(order, nEpisodes, nSupport, nQuery, task);
      && Distinct(Drawn(eps)) && InRange(Drawn(eps), size)
      && |Drawn(eps)| == nEpisodes * (nSupport + nQuery)
      && (forall e :: 0 <= e < nEpisodes ==>
            && |eps[e].support.indices| == nSupport && |eps[e].query.indices| == nQuery
            && Disjoint(eps[e].support.indices, eps[e].query.indices))
      && (forall e1, e2 :: 0 <= e1 < nEpisodes && 0 <= e2 < nEpisodes && e1 != e2 ==>
            && Disjoint(eps[e1].support.indices, eps[e2].support.indices)
            && Disjoint(eps[e1].query.indices, eps[e2].query.indices)
            && Disjoint(eps[e1].support.indices, eps[e2].query.indices))
  {
    var eps := SingleEpisodes(order, nEpisodes, nSupport, nQuery, task);
    SingleEpisodesDrawPrefix(order, nEpisodes, nSupport, nQuery, task);
    OffsetIsProduct(nEpisodes, nSupport + nQuery);
    PrefixOfPermutation(order, size, Offset(nEpisodes, nSupport + nQuery));
    forall e1, e2 | 0 <= e1 < nEpisodes && 0 <= e2 < nEpisodes
      ensures && |eps[e1].support.indices| == nSupport && |eps[e1].query.indices| == nQuery
              && Disjoint(eps[e1].support.indices, eps[e1].query.indices)
      ensures e1 != e2 ==>
              && Disjoint(eps[e1].support.indices, eps[e2].support.indices)
              && Disjoint(eps[e1].query.indices, eps[e2].query.indices)
              && Disjoint(eps[e1].support.indices, eps[e2].query.indices)
    {
      SingleEpisodePair(order, size, nEpisodes, nSupport, nQuery, task, e1, e2);
    }
  }

  /** With S > 0 and Q > 0, every support and query loader of the single-dataset generator yields its part as one batch. */
  lemma SingleEpisodesSingleBatch<Task>(order: seq<nat>, nEpisodes: nat, nSupport: nat, nQuery: nat, task: Task)
    requires Offset(nEpisodes, nSupport + nQuery) <= |order|
    requires nSupport > 0 && nQuery > 0
    ensures var eps := SingleEpisodes(order, nEpisodes, nSupport, nQuery, task);
      forall e :: 0 <= e < nEpisodes ==>
        && Batches(eps[e].support.indices, eps[e].support.batchSize) == [eps[e].support.indices]
        && Batches(eps[e].query.indices, eps[e].query.batchSize) == [eps[e].query.indices]
  {
    var eps := SingleEpisodes(order, nEpisodes, nSupport, nQuery, task);
    forall e | 0 <= e < nEpisodes
      ensures Batches(eps[e].support.indices, eps[e].support.batchSize) == [eps[e].support.indices]
      ensures Batches(eps[e].query.indices, eps[e].query.batchSize) == [eps[e].query.indices]
    {
      WindowFits(e, nEpisodes, nSupport + nQuery);
      WindowLoaderSingleBatch(eps[e].support);
      WindowLoaderSingleBatch(eps[e].query);
    }
  }

  // ---------------------------------------------------------------------------
  // generate_full_query_episode
  // ---------------------------------------------------------------------------

  /**
    One episode, no capacity check: the support is the first S shuffled train
    indices (all of them when the pool is smaller, as a Python slice does), the
    query loader iterates the whole test dataset in order in batches of
    `batchSize`.
   */
  method GenerateFullQueryEpisode<Task>(trainSize: nat, testSize: nat, nSupport: nat, task: Task,
                                        trainOrder: seq<nat>, batchSize: nat := DefaultQueryBatchSize)
    returns (eps: seq<Episode<Task>>)
    requires IsPermutation(trainOrder, trainSize)
    ensures |eps| == 1
    ensures |eps[0].support.indices| == (if nSupport < trainSize then nSupport else trainSize)
    ensures eps[0].support == Loader(trainOrder[..|eps[0].support.indices|], nSupport)
    ensures Distinct(eps[0].support.indices) && InRange(eps[0].support.indices, trainSize)
    ensures eps[0].query == Loader(Range(testSize), batchSize)
    ensures eps[0].task == task
  {
    var k := if nSupport < trainSize then nSupport else trainSize;
    PrefixOfPermutation(trainOrder, trainSize, k);
    var support := Loader(trainOrder[0..k], nSupport);
    var query := Loader(Range(testSize), batchSize);
    eps := [Episode(support, query, task)];
  }

  /**
    The full-query loader covers the test dataset: its batches, in order, are
    the indices 0 .. |test|-1, so every test example is queried exactly once,
    every batch full but possibly the last.
   */
  lemma FullQueryCoversTestSet(testSize: nat, batchSize: nat)
    requires batchSize > 0
    ensures var bs := Batches(Range(testSize), batchSize);
      && Concat(bs) == Range(testSize) && IsPermutation(Concat(bs), testSize)
      && (forall k :: 0 <= k < |bs| ==> 0 < |bs[k]| <= batchSize)
      && (forall k :: 0 <= k < |bs| - 1 ==> |bs[k]| == batchSize)
  {
    BatchesCover(Range(testSize), batchSize);
  }
}
