/** The block subsidy and its halvings (config/genesis.go). */
module Subsidy {
  import opened Arithmetic

  /** `x >> k`: halved k times, rounding down each time. */
  function ShiftRight(x: nat, k: nat): (r: nat)
    ensures r <= x
  {
    if k == 0 then x else ShiftRight(x, k - 1) / 2
  }

  /** BlockSubsidy: `reward` halved once per `interval` blocks; 64 halvings leave nothing. */
  function BlockSubsidy(reward: nat, interval: nat, height: nat): nat {
    if height == 0 || reward == 0 then 0
    else if interval == 0 then reward
    else
      var halvings := (height - 1) / interval;
      if halvings >= 64 then 0 else ShiftRight(reward, halvings)
  }

  lemma {:induction false} ShiftIsDivision(x: nat, k: nat)
    ensures ShiftRight(x, k) == x / Pow2(k)
  {
    if k > 0 {
      ShiftIsDivision(x, k - 1);
      DivPow(x, k - 1, 1);
      assert Pow2(1) == 2 * Pow2(0) == 2;
    } else {
      DivModUnique(x, 1, x, 0);
    }
  }

  lemma {:induction false} PowGrows(j: nat, k: nat)
    requires j <= k
    ensures Pow2(j) <= Pow2(k)
  {
    if j < k {
      PowGrows(j, k - 1);
    }
  }

  /** The subsidy of a height: the reward over the power of two of its halvings, rounded down; no reward in
      uint64 outlives 64 of them. */
  lemma {:induction false} SubsidyIs(reward: nat, interval: nat, height: nat)
    requires reward < Pow2(64) && height > 0
    ensures interval == 0 ==> BlockSubsidy(reward, interval, height) == reward
    ensures interval > 0 ==> BlockSubsidy(reward, interval, height) == reward / Pow2((height - 1) / interval)
    ensures BlockSubsidy(reward, interval, 0) == 0
  {
    hide Pow2;
    if interval > 0 {
      var k := (height - 1) / interval;
      ShiftIsDivision(reward, k);
      if k >= 64 {
        PowGrows(64, k);
        DivModUnique(reward, Pow2(k), 0, reward);
      } else if reward == 0 {
        DivModUnique(0, Pow2(k), 0, 0);
      }
    }
  }

  /** All that the blocks 1..n may mint. */
  function Emission(reward: nat, interval: nat, n: nat): nat {
    if n == 0 then 0 else Emission(reward, interval, n - 1) + BlockSubsidy(reward, interval, n)
  }

  /** Height `interval * k + done + 1` lies in epoch k. */
  lemma SubsidyInEpoch(reward: nat, interval: nat, k: nat, done: nat)
    requires reward > 0 && done < interval
    ensures BlockSubsidy(reward, interval, interval * k + done + 1) == if k >= 64 then 0 else ShiftRight(reward, k)
  {
    DivModUnique(interval * k + done, interval, k, done);
  }

  /** Multiplication by counting, so that a proof can step through it. */
  ghost function Times(n: nat, s: nat): nat {
    if n == 0 then 0 else Times(n - 1, s) + s
  }

  lemma {:induction false} TimesIs(n: nat, s: nat)
    ensures Times(n, s) == n * s
  {
    if n > 0 {
      TimesIs(n - 1, s);
      assert n * s == (n - 1) * s + s;
    }
  }

  lemma TimesDouble(interval: nat, s: nat, s': nat)
    requires s' * 2 <= s
    ensures Times(2 * interval, s') <= Times(interval, s)
  {
    TimesIs(2 * interval, s');
    TimesIs(interval, s);
    hide Times;
    MulMonotone(s' * 2, s, interval);
    Regroup(s', 2, interval);
  }

  /** `done` blocks into epoch k, what has been minted stays below 2 * reward * interval by two
      epochs of the current subsidy, less what this epoch already minted. */
  lemma {:induction false} EmissionSlack(reward: nat, interval: nat, k: nat, done: nat)
    requires reward > 0 && done < interval
    ensures Emission(reward, interval, interval * k + done) + Times(2 * interval - done, ShiftRight(reward, k)) <= Times(2 * interval, reward)
    decreases k, done
  {
    if done > 0 {
      EmissionSlack(reward, interval, k, done - 1);
      SubsidyInEpoch(reward, interval, k, done - 1);
    } else if k > 0 {
      assert interval * k == interval * (k - 1) + (interval - 1) + 1;
      EmissionSlack(reward, interval, k - 1, interval - 1);
      SubsidyInEpoch(reward, interval, k - 1, interval - 1);
      TimesDouble(interval, ShiftRight(reward, k - 1), ShiftRight(reward, k));
    } else {
      assert interval * k == 0;
    }
  }

  /** Once the subsidy has been halved away, what was minted is short of the bound by at least an
      epoch of the last positive subsidy. */
  lemma {:induction false} EmissionSpent(reward: nat, interval: nat, k: nat, done: nat)
    requires reward > 0 && done < interval && ShiftRight(reward, k) == 0
    ensures Emission(reward, interval, interval * k + done) < Times(2 * interval, reward)
    decreases k, done
  {
    if done > 0 {
      EmissionSpent(reward, interval, k, done - 1);
      SubsidyInEpoch(reward, interval, k, done - 1);
    } else if k > 0 {
      assert interval * k == interval * (k - 1) + (interval - 1) + 1;
      var s := ShiftRight(reward, k - 1);
      SubsidyInEpoch(reward, interval, k - 1, interval - 1);
      if s == 0 {
        EmissionSpent(reward, interval, k - 1, interval - 1);
      } else {
        EmissionSlack(reward, interval, k - 1, interval - 1);
        TimesIs(interval, s);
        assert interval * s > 0;
      }
    }
  }

  lemma EmissionBoundIn(reward: nat, interval: nat, k: nat, done: nat)
    requires reward > 0 && done < interval
    ensures Emission(reward, interval, interval * k + done) < Times(2 * interval, reward)
  {
    if ShiftRight(reward, k) == 0 {
      EmissionSpent(reward, interval, k, done);
    } else {
      EmissionSlack(reward, interval, k, done);
    }
  }

  lemma TimesTwice(reward: nat, interval: nat)
    ensures Times(2 * interval, reward) == 2 * reward * interval
  {
    TimesIs(2 * interval, reward);
  }

  /** Halving keeps everything ever minted strictly below 2 * reward * interval. */
  lemma {:induction false} EmissionBound(reward: nat, interval: nat, n: nat)
    requires reward > 0 && interval > 0
    ensures Emission(reward, interval, n) < 2 * reward * interval
  {
    var k, done := n / interval, n % interval;
    assert n == interval * k + done;
    EmissionBoundIn(reward, interval, k, done);
    TimesTwice(reward, interval);
  }
}
