/**
  Collation of one batch of examples (datasets/utils.py, get_max_batch_len and
  prepare_batch): every token sequence is right-padded with the padding token
  and every label sequence with the label -1, up to the longest input of the
  batch, and the original input lengths are kept so that padding can be masked.
 */
module BatchCollation {

  /** The token appended to inputs shorter than the longest input of the batch. */
  const PadToken: string := "<PAD>"

  /** The label appended to label sequences, so that a loss can ignore it. */
  const PadLabel: int := -1

  /** One example: a token sequence and its label sequence (lengths may differ). */
  datatype Example = Example(input: seq<string>, target: seq<int>)

  /** The three lists prepare_batch returns: padded inputs, original lengths, padded labels. */
  datatype Batch = Batch(x: seq<seq<string>>, lengths: seq<nat>, y: seq<seq<int>>)

  /** Length of the longest input sequence; `max` of an empty list raises, hence the requires. */
  function MaxBatchLen(batch: seq<Example>): (m: nat)
    requires |batch| > 0
    ensures forall i :: 0 <= i < |batch| ==> |batch[i].input| <= m
    ensures exists i :: 0 <= i < |batch| && |batch[i].input| == m
  {
    if |batch| == 1 then |batch[0].input|
    else
      var rest := MaxBatchLen(batch[1..]);
      assert forall i :: 1 <= i < |batch| ==> batch[1..][i - 1] == batch[i];
      if |batch[0].input| >= rest then |batch[0].input| else rest
  }

  /** Python's `[v] * k`: k copies of v, and none when k is zero or negative. */
  function Repeat<T>(v: T, k: int): (r: seq<T>)
    ensures |r| == if k < 0 then 0 else k
    ensures forall j :: 0 <= j < |r| ==> r[j] == v
    decreases k
  {
    if k <= 0 then [] else [v] + Repeat(v, k - 1)
  }

  /**
    `padded` is `original` right-padded with `fill` up to length `n`: it is as
    long as the longer of the two, starts with `original` and holds only `fill`
    after it.
   */
  predicate Padded<T(==)>(padded: seq<T>, original: seq<T>, fill: T, n: int)
  {
    && |padded| == (if n > |original| then n else |original|)
    && padded[..|original|] == original
    && forall j :: |original| <= j < |padded| ==> padded[j] == fill
  }

  /**
    prepare_batch: one entry per example, in the batch's order; inputs padded
    to exactly the longest input length, labels padded to that length (or left
    as they are when already longer), lengths the original input lengths.
   */
  method PrepareBatch(batch: seq<Example>) returns (b: Batch)
    requires |batch| > 0
    ensures |b.x| == |b.lengths| == |b.y| == |batch|
    ensures forall i :: 0 <= i < |batch| ==> b.lengths[i] == |batch[i].input|
    ensures forall i :: 0 <= i < |batch| ==> |b.x[i]| == MaxBatchLen(batch)
    ensures forall i :: 0 <= i < |batch| ==> Padded(b.x[i], batch[i].input, PadToken, MaxBatchLen(batch))
    ensures forall i :: 0 <= i < |batch| ==> Padded(b.y[i], batch[i].target, PadLabel, MaxBatchLen(batch))
    ensures forall i :: 0 <= i < |batch| && |batch[i].target| <= MaxBatchLen(batch) ==>
      |b.y[i]| == MaxBatchLen(batch)
  {
    var maxLen := MaxBatchLen(batch);
    var x: seq<seq<string>> := [];
    var lengths: seq<nat> := [];
    var y: seq<seq<int>> := [];
    var i := 0;
    while i < |batch|
      invariant 0 <= i <= |batch|
      invariant |x| == |lengths| == |y| == i
      invariant forall k :: 0 <= k < i ==> lengths[k] == |batch[k].input|
      invariant forall k :: 0 <= k < i ==> Padded(x[k], batch[k].input, PadToken, maxLen)
      invariant forall k :: 0 <= k < i ==> Padded(y[k], batch[k].target, PadLabel, maxLen)
    {
      var inpSeq, targetSeq := batch[i].input, batch[i].target;
      lengths := lengths + [|inpSeq|];
      inpSeq := inpSeq + Repeat(PadToken, maxLen - |inpSeq|);
      targetSeq := targetSeq + Repeat(PadLabel, maxLen - |targetSeq|);
      assert Padded(inpSeq, batch[i].input, PadToken, maxLen);
      assert Padded(targetSeq, batch[i].target, PadLabel, maxLen);
      x := x + [inpSeq];
      y := y + [targetSeq];
      i := i + 1;
    }
    b := Batch(x, lengths, y);
  }
}
