/** `MaskedRolloutBuffer`: collecting transitions, computing returns, and sampling the valid
    transitions in minibatches. One row of a buffer holds one step of all environments. */
module RolloutBuffer {
  import opened GaeReturns
  import opened Basics

  /** A buffer array: by step and environment, or, after the first sampling pass, flattened so
      that the steps of one environment are contiguous. */
  datatype Tensor = Steps(rows: seq<seq<real>>) | Flat(items: seq<real>)

  ghost predicate Rows<T>(rows: seq<seq<T>>, steps: nat, envs: nat) {
    |rows| == steps && forall t :: 0 <= t < steps ==> |rows[t]| == envs
  }

  ghost predicate Shaped(x: Tensor, steps: nat, envs: nat) {
    match x
    case Steps(rows) => Rows(rows, steps, envs)
    case Flat(items) => |items| == envs * steps
  }

  // ----------------------------------------------------------- flat indices

  lemma IndexParts(e: nat, t: nat, steps: nat, envs: nat)
    requires t < steps && e < envs
    ensures 0 <= e * steps + t < envs * steps
    ensures (e * steps + t) / steps == e && (e * steps + t) % steps == t
  {
    MulLe(e + 1, envs, steps);
    DivisionIsUnique(e * steps + t, steps, e, t);
  }

  lemma PartsInRange(i: nat, steps: nat, envs: nat)
    requires i < envs * steps
    ensures steps > 0 && i / steps < envs && i % steps < steps && i == (i / steps) * steps + i % steps
  {
    assert steps > 0;
    if envs <= i / steps {
      MulLe(envs, i / steps, steps);
      assert false;
    }
  }

  /** `swap_and_flatten` */
  function SwapAndFlatten<T>(rows: seq<seq<T>>, steps: nat, envs: nat): (f: seq<T>)
    requires Rows(rows, steps, envs)
    ensures |f| == envs * steps
  {
    seq(envs * steps, i requires 0 <= i < envs * steps =>
      PartsInRange(i, steps, envs);
      rows[i % steps][i / steps])
  }

  /** One environment's part of a buffer array */
  function Column<T>(rows: seq<seq<T>>, e: nat, steps: nat, envs: nat): (c: seq<T>)
    requires Rows(rows, steps, envs) && e < envs
    ensures |c| == steps && forall t :: 0 <= t < steps ==> c[t] == rows[t][e]
  {
    seq(steps, t requires 0 <= t < steps => rows[t][e])
  }

  /** The sum of two buffer arrays */
  function RowSums(a: seq<seq<real>>, b: seq<seq<real>>, steps: nat, envs: nat): (c: seq<seq<real>>)
    requires Rows(a, steps, envs) && Rows(b, steps, envs)
    ensures Rows(c, steps, envs) && forall t, e :: 0 <= t < steps && 0 <= e < envs ==> c[t][e] == a[t][e] + b[t][e]
  {
    seq(steps, t requires 0 <= t < steps => seq(envs, e requires 0 <= e < envs => a[t][e] + b[t][e]))
  }

  /** The entry of step `t` and environment `e`, however the array is laid out */
  function Entry(x: Tensor, t: nat, e: nat, steps: nat, envs: nat): real
    requires Shaped(x, steps, envs) && t < steps && e < envs
  {
    match x
    case Steps(rows) => rows[t][e]
    case Flat(items) => IndexParts(e, t, steps, envs); items[e * steps + t]
  }

  /** What an array holds at position `i` of the flattened buffer */
  function Stored(x: Tensor, i: nat, steps: nat, envs: nat): real
    requires Shaped(x, steps, envs) && i < envs * steps
  {
    match x
    case Steps(rows) => PartsInRange(i, steps, envs); rows[i % steps][i / steps]
    case Flat(items) => items[i]
  }

  function Flattened(x: Tensor, steps: nat, envs: nat): (y: Tensor)
    requires Shaped(x, steps, envs)
    ensures Shaped(y, steps, envs) && y.Flat?
  {
    match x
    case Steps(rows) => Flat(SwapAndFlatten(rows, steps, envs))
    case Flat(_) => x
  }

  /** Flattening moves every entry to the place where sampling looks for it. */
  lemma FlattenedEntry(x: Tensor, t: nat, e: nat, steps: nat, envs: nat)
    requires Shaped(x, steps, envs) && t < steps && e < envs
    ensures Entry(Flattened(x, steps, envs), t, e, steps, envs) == Entry(x, t, e, steps, envs)
  {
    IndexParts(e, t, steps, envs);
  }

  // ---------------------------------------------------------- valid indices

  ghost predicate AllBelow(s: seq<nat>, n: nat) {
    forall k :: 0 <= k < |s| ==> s[k] < n
  }

  /** `indices[mask]`: the positions below `n` that are set, in order */
  function SetPositions(mask: seq<bool>, n: nat): (r: seq<nat>)
    requires n <= |mask|
    ensures |r| <= n
  {
    if n == 0 then [] else SetPositions(mask, n - 1) + if mask[n - 1] then [n - 1] else []
  }

  ghost predicate Distinct<T>(s: seq<T>) {
    forall i, j :: 0 <= i < j < |s| ==> s[i] != s[j]
  }

  lemma {:induction false} SetPositionsExact(mask: seq<bool>, n: nat)
    requires n <= |mask|
    ensures Distinct(SetPositions(mask, n))
    ensures forall i :: i in SetPositions(mask, n) <==> 0 <= i < n && mask[i]
    ensures forall i, j :: 0 <= i < j < |SetPositions(mask, n)| ==> SetPositions(mask, n)[i] < SetPositions(mask, n)[j]
    ensures AllBelow(SetPositions(mask, n), n)
  {
    if n > 0 {
      SetPositionsExact(mask, n - 1);
    }
  }

  /** What `np.random.permutation(m)` returns */
  ghost predicate IsPermutation(perm: seq<nat>, m: nat) {
    |perm| == m && Distinct(perm) && forall k :: 0 <= k < m ==> perm[k] < m
  }

  function Permuted<T>(s: seq<T>, perm: seq<nat>): (r: seq<T>)
    requires IsPermutation(perm, |s|)
    ensures |r| == |s|
  {
    seq(|s|, k requires 0 <= k < |s| => s[perm[k]])
  }

  function Below(m: nat): (r: set<nat>)
    ensures |r| == m && forall k: nat :: k in r <==> k < m
  {
    if m == 0 then {} else Below(m - 1) + {m - 1}
  }

  function Elements(s: seq<nat>): (r: set<nat>)
    ensures forall x :: x in r <==> x in s
    ensures Distinct(s) ==> |r| == |s|
  {
    if s == [] then {}
    else
      assert s == s[..|s| - 1] + [s[|s| - 1]];
      Elements(s[..|s| - 1]) + {s[|s| - 1]}
  }

  /** A permutation of `m` numbers reaches each of them. */
  lemma PermutationIsOnto(perm: seq<nat>, m: nat, v: nat)
    requires IsPermutation(perm, m) && v < m
    ensures v in perm
  {
    if v !in perm {
      SubsetCount(Elements(perm), Below(m) - {v});
      assert false;
    }
  }

  lemma SubsetCount(a: set<nat>, b: set<nat>)
    requires a <= b
    ensures |a| <= |b|
  {
    assert b == a + (b - a);
  }

  lemma PermutedExact(s: seq<nat>, perm: seq<nat>)
    requires Distinct(s) && IsPermutation(perm, |s|)
    ensures Distinct(Permuted(s, perm))
    ensures forall x :: x in Permuted(s, perm) <==> x in s
    ensures forall n :: AllBelow(s, n) ==> AllBelow(Permuted(s, perm), n)
  {
    forall x | x in s ensures x in Permuted(s, perm) {
      var i :| 0 <= i < |s| && s[i] == x;
      PermutationIsOnto(perm, |s|, i);
      var k :| 0 <= k < |perm| && perm[k] == i;
      assert Permuted(s, perm)[k] == x;
    }
  }

  // --------------------------------------------------------------- batches

  /** No batch is empty, and all but the last have `size` items. */
  ghost predicate InChunks<T>(batches: seq<seq<T>>, size: nat) {
    (forall b :: 0 <= b < |batches| ==> 0 < |batches[b]| <= size) &&
    (forall b :: 0 <= b < |batches| - 1 ==> |batches[b]| == size)
  }

  /** One step of the recurrence, written out */
  lemma AdvantageStep(tr: Track, gaeLambda: real, t: nat)
    requires tr.Valid() && t < tr.Length()
    ensures var last := t == tr.Length() - 1;
      var nonTerminal := 1.0 - (if last then (if tr.done then 1.0 else 0.0) else tr.starts[t + 1]);
      var next := if last then tr.lastValue else tr.values[t + 1];
      var valid := if tr.valid[t] then 1.0 else 0.0;
      var discount := valid * tr.gamma + (1.0 - valid);
      tr.Advantage(gaeLambda, t) == tr.rewards[t] + discount * next * nonTerminal - tr.values[t] +
        discount * gaeLambda * nonTerminal * tr.Advantage(gaeLambda, t + 1)
  {
  }

  lemma ChunksGrow<T>(batches: seq<seq<T>>, last: seq<T>, size: nat)
    requires InChunks(batches, size) && 0 < |last| <= size && (batches != [] ==> |batches[|batches| - 1]| == size)
    ensures InChunks(batches + [last], size)
  {
  }

  lemma NoBatches<T>(size: nat)
    ensures InChunks<T>([], size) && Concat<T>([]) == []
  {
  }

  // ------------------------------------------------------------- the buffer

  datatype Sample = Sample(value: real, logProb: real, advantage: real, ret: real)

  class MaskedRolloutBuffer {
    const bufferSize: nat
    const nEnvs: nat
    const gaeLambda: real
    const gamma: real
    var rewards: seq<seq<real>>
    var validMask: seq<seq<bool>>
    var episodeStarts: seq<seq<real>>
    var values: Tensor
    var logProbs: Tensor
    var advantages: Tensor
    var rets: Tensor
    var pos: nat
    var full: bool
    var generatorReady: bool

    ghost predicate Valid()
      reads this
    {
      Rows(rewards, bufferSize, nEnvs) && Rows(validMask, bufferSize, nEnvs) && Rows(episodeStarts, bufferSize, nEnvs) &&
      Shaped(values, bufferSize, nEnvs) && Shaped(logProbs, bufferSize, nEnvs) &&
      Shaped(advantages, bufferSize, nEnvs) && Shaped(rets, bufferSize, nEnvs) &&
      (!generatorReady ==> values.Steps? && logProbs.Steps? && advantages.Steps? && rets.Steps?) &&
      (generatorReady ==> values.Flat? && logProbs.Flat? && advantages.Flat? && rets.Flat?) &&
      pos <= bufferSize && (full ==> pos == bufferSize)
    }

    constructor (bufferSize: nat, nEnvs: nat, gaeLambda: real, gamma: real)
      ensures Valid() && pos == 0 && !full && !generatorReady
      ensures this.bufferSize == bufferSize && this.nEnvs == nEnvs && this.gaeLambda == gaeLambda && this.gamma == gamma
    {
      this.bufferSize, this.nEnvs, this.gaeLambda, this.gamma := bufferSize, nEnvs, gaeLambda, gamma;
      var zeros := seq(bufferSize, _ => seq(nEnvs, _ => 0.0));
      rewards, episodeStarts := zeros, zeros;
      validMask := seq(bufferSize, _ => seq(nEnvs, _ => false));
      values, logProbs, advantages, rets := Steps(zeros), Steps(zeros), Steps(zeros), Steps(zeros);
      pos, full, generatorReady := 0, false, false;
    }

    /** `reset` */
    method Reset()
      modifies this
      ensures Valid() && pos == 0 && !full && !generatorReady
    {
      var zeros := seq(bufferSize, _ => seq(nEnvs, _ => 0.0));
      rewards, episodeStarts := zeros, zeros;
      validMask := seq(bufferSize, _ => seq(nEnvs, _ => false));
      values, logProbs, advantages, rets := Steps(zeros), Steps(zeros), Steps(zeros), Steps(zeros);
      pos, full, generatorReady := 0, false, false;
    }

    /** `add`: one step of all environments goes into row `pos`. */
    method Add(reward: seq<real>, episodeStart: seq<real>, value: seq<real>, logProb: seq<real>, valid: seq<bool>)
      requires Valid() && !generatorReady && pos < bufferSize
      requires |reward| == |episodeStart| == |value| == |logProb| == |valid| == nEnvs
      modifies this
      ensures Valid() && !generatorReady && pos == old(pos) + 1 && full == (old(full) || pos == bufferSize)
      ensures rewards == old(rewards)[old(pos) := reward] && validMask == old(validMask)[old(pos) := valid]
      ensures episodeStarts == old(episodeStarts)[old(pos) := episodeStart]
      ensures values == Steps(old(values).rows[old(pos) := value]) && logProbs == Steps(old(logProbs).rows[old(pos) := logProb])
      ensures advantages == old(advantages) && rets == old(rets)
    {
      rewards := rewards[pos := reward];
      validMask := validMask[pos := valid];
      episodeStarts := episodeStarts[pos := episodeStart];
      values := Steps(values.rows[pos := value]);
      logProbs := Steps(logProbs.rows[pos := logProb]);
      pos := pos + 1;
      if pos == bufferSize {
        full := true;
      }
    }

    // ---------------------------------------------------- returns and advantages

    /** What the buffer holds for one environment */
    function TrackOf(e: nat, lastValues: seq<real>, dones: seq<bool>): (tr: Track)
      requires Valid() && !generatorReady && e < nEnvs && |lastValues| == |dones| == nEnvs
      reads this
      ensures tr.Valid() && tr.Length() == bufferSize
    {
      Track(Column(rewards, e, bufferSize, nEnvs), Column(values.rows, e, bufferSize, nEnvs),
            Column(validMask, e, bufferSize, nEnvs), Column(episodeStarts, e, bufferSize, nEnvs),
            lastValues[e], dones[e], gamma)
    }

    /** `compute_returns_and_advantage` */
    method ComputeReturnsAndAdvantage(lastValues: seq<real>, dones: seq<bool>)
      requires Valid() && !generatorReady && |lastValues| == |dones| == nEnvs
      modifies this`advantages, this`rets
      ensures Valid()
      ensures forall t, e :: 0 <= t < bufferSize && 0 <= e < nEnvs ==>
        advantages.rows[t][e] == TrackOf(e, lastValues, dones).Advantage(gaeLambda, t) &&
        rets.rows[t][e] == TrackOf(e, lastValues, dones).Return(gaeLambda, t)
    {
      hide Track.Delta, Track.Carry, Track.Discount, Track.NonTerminal;
      var lastGaeLam := seq(nEnvs, _ => 0.0);
      var adv := advantages.rows;
      var step := bufferSize;
      ghost var tracks := seq(nEnvs, e requires 0 <= e < nEnvs && Valid() && !generatorReady reads this => TrackOf(e, lastValues, dones));
      while step > 0
        invariant advantages == old(advantages) && rets == old(rets)
        invariant 0 <= step <= bufferSize && |lastGaeLam| == nEnvs && Rows(adv, bufferSize, nEnvs)
        invariant forall e :: 0 <= e < nEnvs ==> lastGaeLam[e] == tracks[e].Advantage(gaeLambda, step)
        invariant forall t, e :: step <= t < bufferSize && 0 <= e < nEnvs ==> adv[t][e] == tracks[e].Advantage(gaeLambda, t)
      {
        step := step - 1;
        lastGaeLam := StepBack(step, lastGaeLam, lastValues, dones);
        adv := adv[step := lastGaeLam];
      }
      advantages := Steps(adv);
      rets := Steps(RowSums(adv, values.rows, bufferSize, nEnvs));
      forall e | 0 <= e < nEnvs
        ensures tracks[e] == TrackOf(e, lastValues, dones)
      {
      }
    }

    /** The body of the backward loop, for all environments at once */
    method StepBack(step: nat, lastGaeLam: seq<real>, lastValues: seq<real>, dones: seq<bool>) returns (next: seq<real>)
      requires Valid() && !generatorReady && |lastValues| == |dones| == nEnvs && step < bufferSize && |lastGaeLam| == nEnvs
      requires forall e :: 0 <= e < nEnvs ==> lastGaeLam[e] == TrackOf(e, lastValues, dones).Advantage(gaeLambda, step + 1)
      ensures |next| == nEnvs
      ensures forall e :: 0 <= e < nEnvs ==> next[e] == TrackOf(e, lastValues, dones).Advantage(gaeLambda, step)
    {
      hide Track.Discount, Track.NonTerminal, Track.Delta, Track.Advantage, Track.Carry;
      next := [];
      for e := 0 to nEnvs
        invariant |next| == e
        invariant forall k :: 0 <= k < e ==> next[k] == TrackOf(k, lastValues, dones).Advantage(gaeLambda, step)
      {
        ghost var tr := TrackOf(e, lastValues, dones);
        AdvantageStep(tr, gaeLambda, step);
        var nextNonTerminal, nextValue;
        if step == bufferSize - 1 {
          nextNonTerminal := 1.0 - (if dones[e] then 1.0 else 0.0);
          nextValue := lastValues[e];
        } else {
          nextNonTerminal := 1.0 - episodeStarts[step + 1][e];
          nextValue := values.rows[step + 1][e];
        }
        var valid := if validMask[step][e] then 1.0 else 0.0;
        var temporalDiscount := valid * gamma + (1.0 - valid);
        var delta := rewards[step][e] + temporalDiscount * nextValue * nextNonTerminal - values.rows[step][e];
        next := next + [delta + temporalDiscount * gaeLambda * nextNonTerminal * lastGaeLam[e]];
      }
    }

    // ----------------------------------------------------------- sampling

    /** The transition of step `t` and environment `e` */
    function SampleOf(t: nat, e: nat): Sample
      requires Valid() && t < bufferSize && e < nEnvs
      reads this
    {
      Sample(Entry(values, t, e, bufferSize, nEnvs), Entry(logProbs, t, e, bufferSize, nEnvs),
             Entry(advantages, t, e, bufferSize, nEnvs), Entry(rets, t, e, bufferSize, nEnvs))
    }

    /** The transition that position `i` of the flattened buffer stands for */
    function SampleAt(i: nat): Sample
      requires Valid() && i < nEnvs * bufferSize
      reads this
    {
      PartsInRange(i, bufferSize, nEnvs);
      SampleOf(i % bufferSize, i / bufferSize)
    }

    /** The positions of the valid transitions in the flattened buffer */
    function ValidIndices(): (r: seq<nat>)
      requires Valid()
      reads this
      ensures |r| <= nEnvs * bufferSize
    {
      SetPositions(SwapAndFlatten(validMask, bufferSize, nEnvs), nEnvs * bufferSize)
    }

    /** What a pass draws, in order, when the valid positions are shuffled by `perm` */
    function Drawn(perm: seq<nat>): (d: seq<Sample>)
      requires Valid() && IsPermutation(perm, |ValidIndices()|)
      reads this
      ensures |d| == |ValidIndices()|
    {
      var order := Permuted(ValidIndices(), perm);
      ValidInRange(perm);
      SamplesAt(order)
    }

    /** `_get_samples` */
    function SamplesAt(inds: seq<nat>): (d: seq<Sample>)
      requires Valid() && AllBelow(inds, nEnvs * bufferSize)
      reads this
      ensures |d| == |inds| && forall k :: 0 <= k < |inds| ==> d[k] == SampleAt(inds[k])
    {
      if inds == [] then [] else [SampleAt(inds[0])] + SamplesAt(inds[1..])
    }

    lemma ValidInRange(perm: seq<nat>)
      requires Valid() && IsPermutation(perm, |ValidIndices()|)
      ensures AllBelow(Permuted(ValidIndices(), perm), nEnvs * bufferSize)
    {
      SetPositionsExact(SwapAndFlatten(validMask, bufferSize, nEnvs), nEnvs * bufferSize);
      PermutedExact(ValidIndices(), perm);
    }

    /** Step `t` of environment `e` is drawn exactly once, at one position of the pass, if it is
        valid, and never otherwise; and what is drawn at that position is that step. */
    lemma ValidDrawnOnce(perm: seq<nat>, t: nat, e: nat)
      requires Valid() && t < bufferSize && e < nEnvs && IsPermutation(perm, |ValidIndices()|)
      ensures var order := Permuted(ValidIndices(), perm);
        Distinct(order) && (e * bufferSize + t in order <==> validMask[t][e])
      ensures forall k :: 0 <= k < |perm| && Permuted(ValidIndices(), perm)[k] == e * bufferSize + t ==>
        Drawn(perm)[k] == SampleOf(t, e)
    {
      var mask := SwapAndFlatten(validMask, bufferSize, nEnvs);
      SetPositionsExact(mask, nEnvs * bufferSize);
      PermutedExact(ValidIndices(), perm);
      IndexParts(e, t, bufferSize, nEnvs);
    }

    /** Every position drawn is the position of a step of the buffer, and of one only. */
    lemma DrawnIsStep(perm: seq<nat>, k: nat)
      requires Valid() && IsPermutation(perm, |ValidIndices()|) && k < |perm|
      ensures exists t, e :: 0 <= t < bufferSize && 0 <= e < nEnvs && validMask[t][e] && Drawn(perm)[k] == SampleOf(t, e)
    {
      hide Drawn, SampleOf, ValidIndices, Permuted;
      var i := Permuted(ValidIndices(), perm)[k];
      ValidInRange(perm);
      PartsInRange(i, bufferSize, nEnvs);
      var t, e := i % bufferSize, i / bufferSize;
      ValidDrawnOnce(perm, t, e);
      assert validMask[t][e] && Drawn(perm)[k] == SampleOf(t, e);
    }

    /** The fields of what is drawn, each from its own array */
    lemma DrawnFields(perm: seq<nat>)
      requires Valid() && IsPermutation(perm, |ValidIndices()|)
      ensures forall k :: 0 <= k < |perm| ==>
        var i, item := ValidIndices()[perm[k]], Drawn(perm)[k];
        i < nEnvs * bufferSize &&
        item.value == Stored(values, i, bufferSize, nEnvs) && item.logProb == Stored(logProbs, i, bufferSize, nEnvs) &&
        item.advantage == Stored(advantages, i, bufferSize, nEnvs) && item.ret == Stored(rets, i, bufferSize, nEnvs)
    {
      hide ValidIndices, SampleAt, Stored;
      ValidInRange(perm);
      forall k | 0 <= k < |perm|
        ensures var i := ValidIndices()[perm[k]]; i < nEnvs * bufferSize && Drawn(perm)[k] == SampleAt(i)
      {
        assert Permuted(ValidIndices(), perm)[k] == ValidIndices()[perm[k]];
      }
      forall i | 0 <= i < nEnvs * bufferSize
        ensures SampleAt(i).value == Stored(values, i, bufferSize, nEnvs) && SampleAt(i).logProb == Stored(logProbs, i, bufferSize, nEnvs)
        ensures SampleAt(i).advantage == Stored(advantages, i, bufferSize, nEnvs) && SampleAt(i).ret == Stored(rets, i, bufferSize, nEnvs)
      {
        SampleFields(i);
      }
    }

    lemma SampleFields(i: nat)
      requires Valid() && i < nEnvs * bufferSize
      ensures SampleAt(i).value == Stored(values, i, bufferSize, nEnvs) && SampleAt(i).logProb == Stored(logProbs, i, bufferSize, nEnvs)
      ensures SampleAt(i).advantage == Stored(advantages, i, bufferSize, nEnvs) && SampleAt(i).ret == Stored(rets, i, bufferSize, nEnvs)
    {
      PartsInRange(i, bufferSize, nEnvs);
    }

    lemma {:induction false} SliceSamples(inds: seq<nat>, a: nat, b: nat)
      requires Valid() && AllBelow(inds, nEnvs * bufferSize) && a <= b <= |inds|
      ensures AllBelow(inds[a..b], nEnvs * bufferSize)
      ensures SamplesAt(inds[a..b]) == SamplesAt(inds)[a..b]
    {
      hide SampleAt, Valid;
    }

    /** The loop of `get`: cuts the shuffled positions into minibatches. */
    method Batches(indices: seq<nat>, size: nat) returns (batches: seq<seq<Sample>>)
      requires Valid() && AllBelow(indices, nEnvs * bufferSize) && (indices != [] ==> size > 0)
      ensures Concat(batches) == SamplesAt(indices) && InChunks(batches, size)
    {
      hide SampleAt, Valid, SamplesAt, InChunks, Concat;
      SliceSamples(indices, 0, 0);
      NoBatches<Sample>(size);
      var drawn := SamplesAt(indices);
      batches := [];
      var start := 0;
      while start < |indices|
        invariant Concat(batches) == drawn[..Min(start, |drawn|)]
        invariant InChunks(batches, size)
        invariant start < |indices| && batches != [] ==> |batches[|batches| - 1]| == size
        decreases |indices| - start
      {
        var stop := Min(start + size, |indices|);
        var batch := SamplesAt(indices[start..stop]);
        SliceSamples(indices, start, stop);
        ChunksGrow(batches, batch, size);
        ConcatAppend(batches, batch);
        assert drawn[..start] + drawn[start..stop] == drawn[..stop];
        batches := batches + [batch];
        start := start + size;
      }
      assert drawn[..|drawn|] == drawn;
    }

    /** Positions stand for the same transitions as long as no transition changes. */
    twostate lemma SamplesKept(inds: seq<nat>)
      requires old(Valid()) && Valid() && AllBelow(inds, nEnvs * bufferSize)
      requires forall t, e :: 0 <= t < bufferSize && 0 <= e < nEnvs ==> SampleOf(t, e) == old(SampleOf(t, e))
      ensures SamplesAt(inds) == old(SamplesAt(inds))
    {
      hide Valid, SampleOf;
      if inds != [] {
        PartsInRange(inds[0], bufferSize, nEnvs);
        SamplesKept(inds[1..]);
      }
    }

    /** `get`: one pass over the valid transitions, in minibatches. Neither the mask nor any
        transition changes, so every later pass draws the same transitions. */
    method Get(batchSize: Option<nat>, perm: seq<nat>) returns (batches: seq<seq<Sample>>)
      requires Valid() && full
      requires batchSize.Some? ==> batchSize.value > 0
      requires IsPermutation(perm, |ValidIndices()|)
      modifies this
      ensures Valid() && generatorReady && validMask == old(validMask) && full
      ensures forall t, e :: 0 <= t < bufferSize && 0 <= e < nEnvs ==> SampleOf(t, e) == old(SampleOf(t, e))
      ensures Concat(batches) == old(Drawn(perm))
      ensures forall k :: 0 <= k < |perm| ==>
        var i, item := old(ValidIndices())[perm[k]], Concat(batches)[k];
        i < nEnvs * bufferSize &&
        item.value == Stored(old(values), i, bufferSize, nEnvs) &&
        item.logProb == Stored(old(logProbs), i, bufferSize, nEnvs) &&
        item.advantage == Stored(old(advantages), i, bufferSize, nEnvs) &&
        item.ret == Stored(old(rets), i, bufferSize, nEnvs)
      ensures InChunks(batches, if batchSize.Some? then batchSize.value else bufferSize * nEnvs)
    {
      hide Valid, SampleOf, SampleAt, SamplesAt, Permuted, ValidIndices, IsPermutation, AllBelow, Concat, InChunks;
      var indices := Permuted(ValidIndices(), perm);
      ValidInRange(perm);
      DrawnFields(perm);
      PrepareData();
      SamplesKept(indices);
      var size := if batchSize.Some? then batchSize.value else bufferSize * nEnvs;
      batches := Batches(indices, size);
    }

    method PrepareData()
      requires Valid()
      modifies this
      ensures Valid() && generatorReady
      ensures forall t, e :: 0 <= t < bufferSize && 0 <= e < nEnvs ==> SampleOf(t, e) == old(SampleOf(t, e))
      ensures validMask == old(validMask) && full == old(full)
    {
      ghost var v, l, a, r := values, logProbs, advantages, rets;
      if !generatorReady {
        values := Flattened(values, bufferSize, nEnvs);
        logProbs := Flattened(logProbs, bufferSize, nEnvs);
        advantages := Flattened(advantages, bufferSize, nEnvs);
        rets := Flattened(rets, bufferSize, nEnvs);
        generatorReady := true;
        forall t, e | 0 <= t < bufferSize && 0 <= e < nEnvs
          ensures SampleOf(t, e) == old(SampleOf(t, e))
        {
          FlattenedEntry(v, t, e, bufferSize, nEnvs);
          FlattenedEntry(l, t, e, bufferSize, nEnvs);
          FlattenedEntry(a, t, e, bufferSize, nEnvs);
          FlattenedEntry(r, t, e, bufferSize, nEnvs);
        }
      }
    }
  }
}
