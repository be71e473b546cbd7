/** The advantage estimates of `MaskedRolloutBuffer.compute_returns_and_advantage`, for one
    environment: the backward recurrence, and what it computes. Numbers are reals. */
module GaeReturns {

  /** What the buffer holds for one environment. `starts[t]` is 1.0 at an episode start, else 0.0;
      an invalid step is one during which the VO system did not track. */
  datatype Track = Track(rewards: seq<real>, values: seq<real>, valid: seq<bool>, starts: seq<real>,
                         lastValue: real, done: bool, gamma: real)
  {
    ghost predicate Valid() {
      |values| == |rewards| && |valid| == |rewards| && |starts| == |rewards|
    }

    function Length(): nat { |rewards| }

    /** `next_non_terminal` */
    function NonTerminal(t: nat): real
      requires Valid() && t < Length()
    {
      if t == Length() - 1 then 1.0 - (if done then 1.0 else 0.0) else 1.0 - starts[t + 1]
    }

    /** `next_values` */
    function NextValue(t: nat): real
      requires Valid() && t < Length()
    {
      if t == Length() - 1 then lastValue else values[t + 1]
    }

    /** `temporal_discount`: time does not pass during an invalid step. */
    function Discount(t: nat): real
      requires Valid() && t < Length()
    {
      (if valid[t] then 1.0 else 0.0) * gamma + (1.0 - (if valid[t] then 1.0 else 0.0))
    }

    /** The temporal-difference error of step `t` */
    function Delta(t: nat): real
      requires Valid() && t < Length()
    {
      rewards[t] + Discount(t) * NextValue(t) * NonTerminal(t) - values[t]
    }

    /** How much of step `t + 1`'s advantage reaches step `t` */
    function Carry(gaeLambda: real, t: nat): real
      requires Valid() && t < Length()
    {
      Discount(t) * gaeLambda * NonTerminal(t)
    }

    /** The backward recurrence: `last_gae_lam` after the loop has handled step `t` */
    function Advantage(gaeLambda: real, t: nat): real
      requires Valid() && t <= Length()
      decreases Length() - t
    {
      if t == Length() then 0.0 else Delta(t) + Carry(gaeLambda, t) * Advantage(gaeLambda, t + 1)
    }

    function Return(gaeLambda: real, t: nat): real
      requires Valid() && t < Length()
    {
      Advantage(gaeLambda, t) + values[t]
    }

    // ------------------------------------------------------- forward forms

    /** The product of the carries of steps `t .. k` */
    function Weight(gaeLambda: real, t: nat, k: nat): real
      requires Valid() && t <= k <= Length()
      decreases k - t
    {
      if t == k then 1.0 else Carry(gaeLambda, t) * Weight(gaeLambda, t + 1, k)
    }

    /** The errors of the steps from `k` on, weighted as seen from step `t` */
    function WeightedErrors(gaeLambda: real, t: nat, k: nat): real
      requires Valid() && t <= k <= Length()
      decreases Length() - k
    {
      if k == Length() then 0.0 else Weight(gaeLambda, t, k) * Delta(k) + WeightedErrors(gaeLambda, t, k + 1)
    }

    /** The rewards of the steps from `k` on, weighted as seen from step `t` */
    function WeightedRewards(t: nat, k: nat): real
      requires Valid() && t <= k <= Length()
      decreases Length() - k
    {
      if k == Length() then 0.0 else Weight(1.0, t, k) * rewards[k] + WeightedRewards(t, k + 1)
    }

    lemma {:induction false} ErrorsScale(gaeLambda: real, t: nat, k: nat)
      requires Valid() && t < k <= Length()
      ensures WeightedErrors(gaeLambda, t, k) == Carry(gaeLambda, t) * WeightedErrors(gaeLambda, t + 1, k)
      decreases Length() - k
    {
      if k < Length() {
        ErrorsScale(gaeLambda, t, k + 1);
        Distribute(Carry(gaeLambda, t), Weight(gaeLambda, t + 1, k), Delta(k), WeightedErrors(gaeLambda, t + 1, k + 1));
      }
    }

    lemma {:induction false} RewardsScale(t: nat, k: nat)
      requires Valid() && t < k <= Length()
      ensures WeightedRewards(t, k) == Carry(1.0, t) * WeightedRewards(t + 1, k)
      decreases Length() - k
    {
      if k < Length() {
        RewardsScale(t, k + 1);
        Distribute(Carry(1.0, t), Weight(1.0, t + 1, k), rewards[k], WeightedRewards(t + 1, k + 1));
      }
    }

    /** The backward loop computes the forward sum of weighted errors. */
    lemma {:induction false} AdvantageIsWeightedErrors(gaeLambda: real, t: nat)
      requires Valid() && t <= Length()
      ensures Advantage(gaeLambda, t) == WeightedErrors(gaeLambda, t, t)
      decreases Length() - t
    {
      hide Delta, Carry;
      if t < Length() {
        AdvantageIsWeightedErrors(gaeLambda, t + 1);
        ErrorsScale(gaeLambda, t, t + 1);
      }
    }

    /** With lambda = 1 the value estimates cancel out of the recurrence. */
    lemma ReturnStep(t: nat)
      requires Valid() && t < Length()
      ensures Return(1.0, t) ==
        rewards[t] + Carry(1.0, t) * (if t == Length() - 1 then lastValue else Return(1.0, t + 1))
    {
      Telescope(rewards[t], Discount(t), NonTerminal(t), NextValue(t), Advantage(1.0, t + 1), values[t]);
      assert Advantage(1.0, t) == Delta(t) + Carry(1.0, t) * Advantage(1.0, t + 1);
      hide Discount, NonTerminal;
    }

    /** With lambda = 1 the return is the Monte-Carlo return, bootstrapped at the end. */
    lemma {:induction false} MonteCarloReturn(t: nat)
      requires Valid() && t < Length()
      ensures Return(1.0, t) == WeightedRewards(t, t) + Weight(1.0, t, Length()) * lastValue
      decreases Length() - t
    {
      hide Return, Carry;
      ReturnStep(t);
      RewardsScale(t, t + 1);
      var c := Carry(1.0, t);
      if t == Length() - 1 {
        assert Weight(1.0, t + 1, Length()) == 1.0 && WeightedRewards(t + 1, t + 1) == 0.0;
        assert c * 0.0 == 0.0;
      } else {
        MonteCarloReturn(t + 1);
        Distribute(c, Weight(1.0, t + 1, Length()), lastValue, WeightedRewards(t + 1, t + 1));
      }
    }

    /** With lambda = 0 the return is the one-step target. */
    lemma OneStepTarget(t: nat)
      requires Valid() && t < Length()
      ensures Advantage(0.0, t) == Delta(t)
      ensures Return(0.0, t) == rewards[t] + Discount(t) * NextValue(t) * NonTerminal(t)
    {
      assert Carry(0.0, t) == 0.0;
    }

    // ---------------------------------------------- what the weights mean

    /** The episode flags are flags. */
    ghost predicate ProperStarts() {
      Valid() && forall t :: 0 <= t < Length() ==> starts[t] == 0.0 || starts[t] == 1.0
    }

    /** Some episode starts after step `t`, up to step `k`; the end of the buffer counts when the
        last step was terminal. */
    predicate Interrupted(t: nat, k: nat)
      requires Valid() && t <= k <= Length()
      decreases k - t
    {
      t < k && (NonTerminal(t) == 0.0 || Interrupted(t + 1, k))
    }

    function ValidSteps(t: nat, k: nat): nat
      requires Valid() && t <= k <= Length()
      decreases k - t
    {
      if t == k then 0 else (if valid[t] then 1 else 0) + ValidSteps(t + 1, k)
    }

    /** Seen from step `t`, step `k` counts with gamma to the number of valid steps in between, and
        not at all once another episode has started. */
    lemma {:induction false} WeightIsDiscount(t: nat, k: nat)
      requires ProperStarts() && t <= k <= Length()
      ensures Weight(1.0, t, k) == if Interrupted(t, k) then 0.0 else Power(gamma, ValidSteps(t, k))
      decreases k - t
    {
      if t < k {
        WeightIsDiscount(t + 1, k);
        assert NonTerminal(t) == 0.0 || NonTerminal(t) == 1.0;
        assert Discount(t) == if valid[t] then gamma else 1.0;
        assert Carry(1.0, t) == Discount(t) * NonTerminal(t);
      }
    }

    /** The factor with which something at step `k` counts at step `t` */
    function DiscountTo(t: nat, k: nat): real
      requires Valid() && t <= k <= Length()
    {
      if Interrupted(t, k) then 0.0 else Power(gamma, ValidSteps(t, k))
    }

    /** The rewards of the steps from `k` on, each discounted to step `t` */
    function DiscountedRewards(t: nat, k: nat): real
      requires Valid() && t <= k <= Length()
      decreases Length() - k
    {
      if k == Length() then 0.0 else DiscountTo(t, k) * rewards[k] + DiscountedRewards(t, k + 1)
    }

    lemma {:induction false} RewardsAreDiscounted(t: nat, k: nat)
      requires ProperStarts() && t <= k <= Length()
      ensures WeightedRewards(t, k) == DiscountedRewards(t, k)
      decreases Length() - k
    {
      if k < Length() {
        WeightIsDiscount(t, k);
        RewardsAreDiscounted(t, k + 1);
      }
    }

    /** With lambda = 1 the return adds up the rewards of the running episode, each discounted by
        gamma to the number of valid steps in between, and the bootstrap value if the episode
        runs to the end of the buffer. */
    lemma MaskedReturn(t: nat)
      requires ProperStarts() && t < Length()
      ensures Return(1.0, t) == DiscountedRewards(t, t) + DiscountTo(t, Length()) * lastValue
    {
      MonteCarloReturn(t);
      RewardsAreDiscounted(t, t);
      WeightIsDiscount(t, Length());
    }
  }

  function Power(x: real, n: nat): real {
    if n == 0 then 1.0 else x * Power(x, n - 1)
  }

  lemma Distribute(c: real, w: real, d: real, rest: real)
    ensures c * w * d + c * rest == c * (w * d + rest)
  {
  }

  lemma Telescope(r: real, d: real, n: real, next: real, adv: real, v: real)
    ensures r + d * next * n - v + d * 1.0 * n * adv + v == r + d * 1.0 * n * (adv + next)
  {
    assert d * next * n == d * n * next;
    assert d * 1.0 * n == d * n;
  }

  /** Before an episode start the error is the reward alone. */
  lemma CutHere(a: Track, gaeLambda: real, k: nat)
    requires a.Valid() && k < a.Length() && a.NonTerminal(k) == 0.0
    ensures a.Advantage(gaeLambda, k) == a.rewards[k] - a.values[k]
  {
    hide Track.Discount, Track.NonTerminal;
    assert a.Discount(k) * a.NextValue(k) * a.NonTerminal(k) == 0.0;
    assert a.Carry(gaeLambda, k) == 0.0;
  }

  lemma SameStep(a: Track, b: Track, gaeLambda: real, t: nat)
    requires a.Valid() && b.Valid() && t + 1 < a.Length() && t + 1 < b.Length() && a.gamma == b.gamma
    requires a.rewards[t] == b.rewards[t] && a.values[t] == b.values[t] && a.valid[t] == b.valid[t]
    requires a.values[t + 1] == b.values[t + 1] && a.starts[t + 1] == b.starts[t + 1]
    ensures a.Delta(t) == b.Delta(t) && a.Carry(gaeLambda, t) == b.Carry(gaeLambda, t)
  {
    assert a.Discount(t) == b.Discount(t) && a.NonTerminal(t) == b.NonTerminal(t) && a.NextValue(t) == b.NextValue(t);
    hide Track.Discount, Track.NonTerminal, Track.NextValue;
  }

  /** What happens after an episode start has no influence on the steps before it. */
  lemma {:induction false} NothingLeaksBack(a: Track, b: Track, gaeLambda: real, t: nat, k: nat)
    requires a.Valid() && b.Valid() && t <= k < a.Length() && k < b.Length() && a.gamma == b.gamma
    requires forall i :: t <= i <= k ==> a.rewards[i] == b.rewards[i] && a.values[i] == b.values[i] && a.valid[i] == b.valid[i]
    requires forall i :: t < i <= k ==> a.starts[i] == b.starts[i]
    requires a.NonTerminal(k) == 0.0 && b.NonTerminal(k) == 0.0
    ensures a.Advantage(gaeLambda, t) == b.Advantage(gaeLambda, t) && a.Return(gaeLambda, t) == b.Return(gaeLambda, t)
    decreases k - t
  {
    hide Track.Delta, Track.Carry, Track.NonTerminal;
    if t == k {
      CutHere(a, gaeLambda, t);
      CutHere(b, gaeLambda, t);
    } else {
      NothingLeaksBack(a, b, gaeLambda, t + 1, k);
      SameStep(a, b, gaeLambda, t);
    }
  }
}
