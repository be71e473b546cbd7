/** What the policy update is given: a rollout is collected step by step, returns and advantages
    are computed, and every epoch draws the valid steps in shuffled minibatches
    (`collect_rollouts` and `train`). */
module OnPolicyRollout {
  import opened GaeReturns
  import opened RolloutBuffer
  import opened Basics

  /** One step of all environments, as it is added to the buffer */
  datatype Step = Step(reward: seq<real>, episodeStart: seq<real>, value: seq<real>, logProb: seq<real>, valid: seq<bool>)

  ghost predicate Sized(h: seq<Step>, envs: nat) {
    forall t :: 0 <= t < |h| ==>
      |h[t].reward| == envs && |h[t].episodeStart| == envs && |h[t].value| == envs && |h[t].logProb| == envs && |h[t].valid| == envs
  }

  /** One environment's part of a rollout */
  ghost function Recorded(h: seq<Step>, e: nat, envs: nat, lastValue: real, done: bool, gamma: real): (tr: Track)
    requires Sized(h, envs) && e < envs
    ensures tr.Valid() && tr.Length() == |h|
  {
    Track(seq(|h|, t requires 0 <= t < |h| => h[t].reward[e]), seq(|h|, t requires 0 <= t < |h| => h[t].value[e]),
          seq(|h|, t requires 0 <= t < |h| => h[t].valid[e]), seq(|h|, t requires 0 <= t < |h| => h[t].episodeStart[e]),
          lastValue, done, gamma)
  }

  /** The validity flags, step by step */
  ghost function Masks(h: seq<Step>, envs: nat): (m: seq<seq<bool>>)
    requires Sized(h, envs)
    ensures Rows(m, |h|, envs) && forall t :: 0 <= t < |h| ==> m[t] == h[t].valid
  {
    seq(|h|, t requires 0 <= t < |h| => h[t].valid)
  }

  /** The positions of the valid steps, in order */
  ghost function ValidPositions(h: seq<Step>, envs: nat): (r: seq<nat>)
    requires Sized(h, envs)
  {
    SetPositions(SwapAndFlatten(Masks(h, envs), |h|, envs), envs * |h|)
  }

  /** Step `t` of environment `e` has position `e * |h| + t`, so the valid steps are listed
      environment by environment and in time order. */
  lemma ValidPositionsExact(h: seq<Step>, envs: nat)
    requires Sized(h, envs)
    ensures forall i, j :: 0 <= i < j < |ValidPositions(h, envs)| ==> ValidPositions(h, envs)[i] < ValidPositions(h, envs)[j]
    ensures forall t, e :: 0 <= t < |h| && 0 <= e < envs ==> (e * |h| + t in ValidPositions(h, envs) <==> h[t].valid[e])
    ensures forall i :: i in ValidPositions(h, envs) ==> 0 <= i < envs * |h|
  {
    var mask := SwapAndFlatten(Masks(h, envs), |h|, envs);
    SetPositionsExact(mask, envs * |h|);
    forall t, e | 0 <= t < |h| && 0 <= e < envs
      ensures e * |h| + t in ValidPositions(h, envs) <==> h[t].valid[e]
    {
      IndexParts(e, t, |h|, envs);
    }
  }

  /** The item is the valid step at this position: the value and the log probability that were added
      for it, its advantage, and its return. */
  ghost predicate IsStepAt(h: seq<Step>, envs: nat, lastValues: seq<real>, dones: seq<bool>, gamma: real, gaeLambda: real,
                           position: nat, item: Sample)
    requires Sized(h, envs) && |lastValues| == |dones| == envs
  {
    exists t, e ::
      0 <= t < |h| && 0 <= e < envs && position == e * |h| + t && h[t].valid[e] &&
      item.value == h[t].value[e] && item.logProb == h[t].logProb[e] &&
      item.advantage == Recorded(h, e, envs, lastValues[e], dones[e], gamma).Advantage(gaeLambda, t) &&
      item.ret == item.advantage + item.value
  }

  /** What a pass must yield: the valid steps in the order of the shuffle */
  ghost predicate Yields(h: seq<Step>, envs: nat, lastValues: seq<real>, dones: seq<bool>, gamma: real, gaeLambda: real,
                         perm: seq<nat>, items: seq<Sample>)
    requires Sized(h, envs) && |lastValues| == |dones| == envs && IsPermutation(perm, |ValidPositions(h, envs)|)
  {
    |items| == |ValidPositions(h, envs)| &&
    forall k :: 0 <= k < |items| ==>
      IsStepAt(h, envs, lastValues, dones, gamma, gaeLambda, ValidPositions(h, envs)[perm[k]], items[k])
  }

  // ------------------------------------------------------------ collecting

  /** The buffer holds the first steps of a rollout. */
  ghost predicate Holds(b: MaskedRolloutBuffer, h: seq<Step>)
    reads b
  {
    b.Valid() && !b.generatorReady && b.pos == |h| && Sized(h, b.nEnvs) &&
    forall t :: 0 <= t < |h| ==>
      b.rewards[t] == h[t].reward && b.validMask[t] == h[t].valid && b.episodeStarts[t] == h[t].episodeStart &&
      b.values.rows[t] == h[t].value && b.logProbs.rows[t] == h[t].logProb
  }

  lemma TracksAreRecorded(b: MaskedRolloutBuffer, h: seq<Step>, lastValues: seq<real>, dones: seq<bool>, e: nat)
    requires Holds(b, h) && b.bufferSize == |h| && |lastValues| == |dones| == b.nEnvs && e < b.nEnvs
    ensures b.TrackOf(e, lastValues, dones) == Recorded(h, e, b.nEnvs, lastValues[e], dones[e], b.gamma)
  {
  }

  /** The buffer is emptied and filled step by step. */
  method Fill(b: MaskedRolloutBuffer, h: seq<Step>)
    requires b.bufferSize == |h| > 0 && Sized(h, b.nEnvs)
    modifies b
    ensures Holds(b, h) && b.full
  {
    b.Reset();
    for n := 0 to |h|
      invariant Holds(b, h[..n]) && (b.full <==> n == |h|)
    {
      ghost var before := h[..n];
      b.Add(h[n].reward, h[n].episodeStart, h[n].value, h[n].logProb, h[n].valid);
      assert h[..n + 1] == before + [h[n]];
    }
    assert h[..|h|] == h;
  }

  /** The buffer's part of `collect_rollouts`: the rollout is added, and then returns and advantages
      are computed. */
  method CollectRollouts(b: MaskedRolloutBuffer, h: seq<Step>, lastValues: seq<real>, dones: seq<bool>)
    requires b.bufferSize == |h| > 0 && Sized(h, b.nEnvs) && |lastValues| == |dones| == b.nEnvs
    modifies b
    ensures Holds(b, h) && b.full
    ensures forall t, e :: 0 <= t < |h| && 0 <= e < b.nEnvs ==>
      var advantage := Recorded(h, e, b.nEnvs, lastValues[e], dones[e], b.gamma).Advantage(b.gaeLambda, t);
      b.advantages.rows[t][e] == advantage && b.rets.rows[t][e] == advantage + h[t].value[e]
  {
    hide Track.Advantage, Recorded;
    Fill(b, h);
    b.ComputeReturnsAndAdvantage(lastValues, dones);
    forall e | 0 <= e < b.nEnvs
      ensures b.TrackOf(e, lastValues, dones) == Recorded(h, e, b.nEnvs, lastValues[e], dones[e], b.gamma)
    {
      TracksAreRecorded(b, h, lastValues, dones, e);
    }
  }

  // ---------------------------------------------------------------- drawing

  /** The buffer is full, and each of its transitions is a step of the rollout, however the arrays are
      laid out. */
  ghost predicate Ready(b: MaskedRolloutBuffer, h: seq<Step>, lastValues: seq<real>, dones: seq<bool>)
    reads b
  {
    b.Valid() && b.full && b.bufferSize == |h| && Sized(h, b.nEnvs) && |lastValues| == |dones| == b.nEnvs &&
    b.validMask == Masks(h, b.nEnvs) &&
    forall t, e :: 0 <= t < |h| && 0 <= e < b.nEnvs ==>
      IsOf(b.SampleOf(t, e), h, t, e, Recorded(h, e, b.nEnvs, lastValues[e], dones[e], b.gamma).Advantage(b.gaeLambda, t))
  }

  ghost predicate IsOf(s: Sample, h: seq<Step>, t: nat, e: nat, advantage: real)
    requires t < |h| && e < |h[t].value| && e < |h[t].logProb|
  {
    s.value == h[t].value[e] && s.logProb == h[t].logProb[e] && s.advantage == advantage && s.ret == advantage + h[t].value[e]
  }

  lemma CollectedIsReady(b: MaskedRolloutBuffer, h: seq<Step>, lastValues: seq<real>, dones: seq<bool>)
    requires Holds(b, h) && b.full && b.bufferSize == |h| && |lastValues| == |dones| == b.nEnvs
    requires forall t, e :: 0 <= t < |h| && 0 <= e < b.nEnvs ==>
      var advantage := Recorded(h, e, b.nEnvs, lastValues[e], dones[e], b.gamma).Advantage(b.gaeLambda, t);
      b.advantages.rows[t][e] == advantage && b.rets.rows[t][e] == advantage + h[t].value[e]
    ensures Ready(b, h, lastValues, dones)
  {
    hide Track.Advantage, Recorded;
    assert b.validMask == Masks(h, b.nEnvs);
  }

  /** What is drawn first, second, and so on */
  lemma DrawnItem(b: MaskedRolloutBuffer, h: seq<Step>, lastValues: seq<real>, dones: seq<bool>, perm: seq<nat>, k: nat)
    requires Ready(b, h, lastValues, dones) && IsPermutation(perm, |b.ValidIndices()|) && k < |perm|
    ensures IsStepAt(h, b.nEnvs, lastValues, dones, b.gamma, b.gaeLambda, b.ValidIndices()[perm[k]], b.Drawn(perm)[k])
  {
    hide MaskedRolloutBuffer.Valid, MaskedRolloutBuffer.SampleOf, Recorded, Track.Advantage, MaskedRolloutBuffer.ValidIndices;
    var i := b.ValidIndices()[perm[k]];
    b.ValidInRange(perm);
    assert Permuted(b.ValidIndices(), perm)[k] == i;
    PartsInRange(i, b.bufferSize, b.nEnvs);
    var t, e := i % b.bufferSize, i / b.bufferSize;
    b.ValidDrawnOnce(perm, t, e);
    assert IsOf(b.SampleOf(t, e), h, t, e, Recorded(h, e, b.nEnvs, lastValues[e], dones[e], b.gamma).Advantage(b.gaeLambda, t));
    assert i == e * |h| + t && h[t].valid[e];
  }

  lemma SameIndices(b: MaskedRolloutBuffer, h: seq<Step>, lastValues: seq<real>, dones: seq<bool>)
    requires Ready(b, h, lastValues, dones)
    ensures b.ValidIndices() == ValidPositions(h, b.nEnvs)
  {
  }

  lemma DrawnYields(b: MaskedRolloutBuffer, h: seq<Step>, lastValues: seq<real>, dones: seq<bool>, perm: seq<nat>)
    requires Ready(b, h, lastValues, dones) && IsPermutation(perm, |ValidPositions(h, b.nEnvs)|)
    ensures b.ValidIndices() == ValidPositions(h, b.nEnvs)
    ensures Yields(h, b.nEnvs, lastValues, dones, b.gamma, b.gaeLambda, perm, b.Drawn(perm))
  {
    hide IsStepAt, MaskedRolloutBuffer.Valid, MaskedRolloutBuffer.ValidIndices, MaskedRolloutBuffer.Drawn, Distinct, ValidPositions;
    SameIndices(b, h, lastValues, dones);
    forall k | 0 <= k < |perm|
      ensures IsStepAt(h, b.nEnvs, lastValues, dones, b.gamma, b.gaeLambda, ValidPositions(h, b.nEnvs)[perm[k]], b.Drawn(perm)[k])
    {
      DrawnItem(b, h, lastValues, dones, perm, k);
    }
  }

  /** The epochs of `train`: each is a pass over the valid steps of the rollout, in its own order. */
  method Train(b: MaskedRolloutBuffer, ghost h: seq<Step>, ghost lastValues: seq<real>, ghost dones: seq<bool>,
               batchSize: Option<nat>, perms: seq<seq<nat>>)
    returns (epochs: seq<seq<seq<Sample>>>)
    requires Ready(b, h, lastValues, dones) && (batchSize.Some? ==> batchSize.value > 0)
    requires forall j :: 0 <= j < |perms| ==> IsPermutation(perms[j], |ValidPositions(h, b.nEnvs)|)
    modifies b
    ensures |epochs| == |perms|
    ensures forall j :: 0 <= j < |perms| ==>
      Yields(h, b.nEnvs, lastValues, dones, b.gamma, b.gaeLambda, perms[j], Concat(epochs[j])) &&
      InChunks(epochs[j], if batchSize.Some? then batchSize.value else |h| * b.nEnvs)
  {
    hide Yields, IsPermutation, InChunks, IsOf, ValidPositions, MaskedRolloutBuffer.SampleOf, MaskedRolloutBuffer.Drawn,
      MaskedRolloutBuffer.ValidIndices, MaskedRolloutBuffer.Valid;
    epochs := [];
    for j := 0 to |perms|
      invariant |epochs| == j && Ready(b, h, lastValues, dones)
      invariant forall i :: 0 <= i < j ==>
        Yields(h, b.nEnvs, lastValues, dones, b.gamma, b.gaeLambda, perms[i], Concat(epochs[i])) &&
        InChunks(epochs[i], if batchSize.Some? then batchSize.value else |h| * b.nEnvs)
    {
      DrawnYields(b, h, lastValues, dones, perms[j]);
      var batches := b.Get(batchSize, perms[j]);
      epochs := epochs + [batches];
    }
  }

  /** One iteration: collect a rollout, then train on it for some epochs. Whatever the shuffles, every
      epoch yields each valid step once, with what was added for it and what was computed for it. */
  method Iterate(b: MaskedRolloutBuffer, h: seq<Step>, lastValues: seq<real>, dones: seq<bool>,
                 batchSize: Option<nat>, perms: seq<seq<nat>>)
    returns (epochs: seq<seq<seq<Sample>>>)
    requires b.bufferSize == |h| > 0 && Sized(h, b.nEnvs) && |lastValues| == |dones| == b.nEnvs
    requires batchSize.Some? ==> batchSize.value > 0
    requires forall j :: 0 <= j < |perms| ==> IsPermutation(perms[j], |ValidPositions(h, b.nEnvs)|)
    modifies b
    ensures |epochs| == |perms|
    ensures forall j :: 0 <= j < |perms| ==>
      Yields(h, b.nEnvs, lastValues, dones, b.gamma, b.gaeLambda, perms[j], Concat(epochs[j])) &&
      InChunks(epochs[j], if batchSize.Some? then batchSize.value else |h| * b.nEnvs)
  {
    hide Yields, Holds, Ready, InChunks, IsPermutation, ValidPositions, Recorded, Track.Advantage;
    CollectRollouts(b, h, lastValues, dones);
    CollectedIsReady(b, h, lastValues, dones);
    epochs := Train(b, h, lastValues, dones, batchSize, perms);
  }

  /** A pass yields as many items as there are valid steps, and no two for the same step. */
  lemma EachOnce(h: seq<Step>, envs: nat, perm: seq<nat>, t: nat, e: nat)
    requires Sized(h, envs) && IsPermutation(perm, |ValidPositions(h, envs)|) && t < |h| && e < envs
    ensures h[t].valid[e] <==> exists k :: 0 <= k < |perm| && ValidPositions(h, envs)[perm[k]] == e * |h| + t
    ensures forall k, k' :: 0 <= k < k' < |perm| ==> ValidPositions(h, envs)[perm[k]] != ValidPositions(h, envs)[perm[k']]
  {
    hide ValidPositions;
    ValidPositionsExact(h, envs);
    var positions := ValidPositions(h, envs);
    if h[t].valid[e] {
      var i :| 0 <= i < |positions| && positions[i] == e * |h| + t;
      PermutationIsOnto(perm, |positions|, i);
      var k :| 0 <= k < |perm| && perm[k] == i;
      assert positions[perm[k]] == e * |h| + t;
    }
    forall k, k' | 0 <= k < k' < |perm|
      ensures positions[perm[k]] != positions[perm[k']]
    {
      assert perm[k] < perm[k'] || perm[k'] < perm[k];
    }
  }
}
