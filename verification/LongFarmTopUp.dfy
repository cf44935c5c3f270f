/** Raising the liquid mAsset balance to a target by withdrawing just enough LP. */
module LongFarmTopUp {
  import opened Results
  import opened FixedPoint
  import opened Spectrum
  import opened Rebalance
  import opened RebalanceExecution

  /** The mAsset that `lp` LP tokens are worth, as a state reports it. */
  function LongFarm(lp: nat, poolMirrorAsset: nat, supply: nat): nat
    requires 0 < supply
  {
    lp * poolMirrorAsset / supply
  }

  /** The withdrawal is estimated at one floor while the pair redeems at two. */
  ghost predicate Redeems(poolMirrorAsset: nat, supply: nat, needed: nat, lp: nat) {
    && Redeemed(poolMirrorAsset, lp, supply).Ok?
    && Redeemed(poolMirrorAsset, lp, supply).value >= needed
  }

  /** `lp` is the first amount from the estimate upwards that redeems enough. */
  ghost predicate FirstToRedeem(poolMirrorAsset: nat, supply: nat, needed: nat, estimate: nat, lp: nat) {
    && estimate <= lp
    && Redeems(poolMirrorAsset, supply, needed, lp)
    && forall less: nat :: estimate <= less < lp ==> !Redeems(poolMirrorAsset, supply, needed, less)
  }

  /** Every amount that the correction can try is representable, and so is what it redeems. */
  predicate RedeemsInRange(poolMirrorAsset: nat, supply: nat, estimate: nat) {
    var last := estimate + TopUpSteps(supply);
    last <= U128_MAX && Redeemed(poolMirrorAsset, last, supply).Ok?
  }

  lemma LessRedeems(poolMirrorAsset: nat, less: nat, more: nat, supply: nat)
    requires less <= more && Redeemed(poolMirrorAsset, more, supply).Ok?
    ensures Redeemed(poolMirrorAsset, less, supply).Ok?
  {
    DivMono(less * ONE, more * ONE, supply);
    var p, q := less * ONE / supply, more * ONE / supply;
    assert poolMirrorAsset * p <= poolMirrorAsset * q by { MulMono(p, q, poolMirrorAsset); }
    DivMono(poolMirrorAsset * p, poolMirrorAsset * q, ONE);
  }

  /** The rounding correction: raise the estimate until it redeems enough. */
  method RaiseUntilEnough(poolMirrorAsset: nat, supply: nat, needed: nat, estimate: nat) returns (r: Result<nat>)
    requires Redeemed(poolMirrorAsset, estimate + TopUpSteps(supply), supply).Ok? ==>
               Redeems(poolMirrorAsset, supply, needed, estimate + TopUpSteps(supply))
    ensures r.Ok? ==> r.value <= estimate + TopUpSteps(supply)
    ensures r.Ok? ==> FirstToRedeem(poolMirrorAsset, supply, needed, estimate, r.value)
    ensures RedeemsInRange(poolMirrorAsset, supply, estimate) ==> r.Ok?
  {
    if RedeemsInRange(poolMirrorAsset, supply, estimate) {
      forall lp: nat | lp <= estimate + TopUpSteps(supply)
        ensures Redeemed(poolMirrorAsset, lp, supply).Ok?
      {
        LessRedeems(poolMirrorAsset, lp, estimate + TopUpSteps(supply), supply);
      }
    }
    var lp := estimate;
    var redeemed :- Redeemed(poolMirrorAsset, lp, supply);
    while redeemed < needed
      invariant estimate <= lp <= estimate + TopUpSteps(supply)
      invariant Redeemed(poolMirrorAsset, lp, supply) == Ok(redeemed)
      invariant forall less: nat :: estimate <= less < lp ==> !Redeems(poolMirrorAsset, supply, needed, less)
      decreases estimate + TopUpSteps(supply) - lp
    {
      lp :- Add(lp, 1);
      redeemed :- Redeemed(poolMirrorAsset, lp, supply);
    }
    return Ok(lp);
  }

  /** Messages that raise `balance` to `target`; none when it is there already. */
  method IncreaseMirrorAssetBalance(balance: nat, longFarm: nat, lpTokenAmount: nat, poolMirrorAsset: nat,
                                    supply: nat, target: nat)
    returns (r: Result<seq<Message>>, ghost withdraw: nat)
    requires 0 < supply && longFarm == LongFarm(lpTokenAmount, poolMirrorAsset, supply)
    ensures target <= balance ==> r == Ok([])
    ensures r.Ok? && balance < target ==>
      var estimate := MulRatio(lpTokenAmount, target - balance, longFarm);
      && r.value == UnstakeAndWithdraw(withdraw)
      && estimate.Ok? && withdraw <= estimate.value + TopUpSteps(supply)
      && FirstToRedeem(poolMirrorAsset, supply, target - balance, estimate.value, withdraw)
    ensures balance < target ==>
              (EstimateInRange(lpTokenAmount, target - balance, longFarm, poolMirrorAsset, supply) ==> r.Ok?)
    ensures target <= balance + longFarm && FarmInRange(lpTokenAmount, poolMirrorAsset, supply) ==> r.Ok?
  {
    withdraw := 0;
    if balance < target <= balance + longFarm && FarmInRange(lpTokenAmount, poolMirrorAsset, supply) {
      StakeInRange(target - balance, longFarm, lpTokenAmount, poolMirrorAsset, supply);
    }
    if target <= balance {
      return Ok([]), 0;
    }
    var needed := target - balance;
    var estimate :- MulRatio(lpTokenAmount, needed, longFarm);
    EstimateSuffices(longFarm, lpTokenAmount, poolMirrorAsset, supply, needed);
    var lp :- RaiseUntilEnough(poolMirrorAsset, supply, needed, estimate);
    withdraw := lp;
    r := Ok(UnstakeAndWithdraw(lp));
  }

  predicate EstimateInRange(lpTokenAmount: nat, needed: nat, longFarm: nat, poolMirrorAsset: nat, supply: nat) {
    var estimate := MulRatio(lpTokenAmount, needed, longFarm);
    estimate.Ok? && RedeemsInRange(poolMirrorAsset, supply, estimate.value)
  }

  /** The stake leaves the steps of the correction below the supply. */
  predicate FarmInRange(lpTokenAmount: nat, poolMirrorAsset: nat, supply: nat) {
    lpTokenAmount + TopUpSteps(supply) <= supply <= U128_MAX && poolMirrorAsset <= U128_MAX
  }

  lemma StakeInRange(needed: nat, longFarm: nat, lpTokenAmount: nat, poolMirrorAsset: nat, supply: nat)
    requires 0 < needed <= longFarm && 0 < supply && FarmInRange(lpTokenAmount, poolMirrorAsset, supply)
    ensures EstimateInRange(lpTokenAmount, needed, longFarm, poolMirrorAsset, supply)
  {
    var estimate := lpTokenAmount * needed / longFarm;
    FractionAtMost(lpTokenAmount, needed, longFarm);
    assert estimate <= lpTokenAmount;
    RedeemedWithin(poolMirrorAsset, estimate + TopUpSteps(supply), supply);
  }

  /** At most two increments while the LP supply is at most 10^18, and one more for every
      further 10^18 of it. */
  function TopUpSteps(supply: nat): nat {
    1 + (supply + ONE - 1) / ONE
  }

  lemma TwoSteps(supply: nat)
    requires 0 < supply <= ONE
    ensures TopUpSteps(supply) == 2
  {}

  /** That many increments above the estimate redeem enough. */
  lemma EstimateSuffices(longFarm: nat, lpTokenAmount: nat, poolMirrorAsset: nat, supply: nat, needed: nat)
    requires 0 < supply && 0 < longFarm && longFarm == LongFarm(lpTokenAmount, poolMirrorAsset, supply)
    ensures var lp := lpTokenAmount * needed / longFarm + TopUpSteps(supply);
            Redeemed(poolMirrorAsset, lp, supply).Ok? ==> Redeems(poolMirrorAsset, supply, needed, lp)
  {
    var estimate := lpTokenAmount * needed / longFarm;
    var k := (supply + ONE - 1) / ONE;
    var lp := estimate + 1 + k;
    assert supply <= k * ONE by { DivBounds(supply + ONE - 1, ONE); }
    DivBounds(lpTokenAmount * needed, longFarm);
    DivBounds(lpTokenAmount * poolMirrorAsset, supply);
    EstimateScaled(longFarm, lpTokenAmount, poolMirrorAsset, supply, needed, estimate);
    var ratio := lp * ONE / supply;
    DivBounds(lp * ONE, supply);
    Suffices(poolMirrorAsset, supply, needed, estimate, k, ratio);
    DivAtLeast(poolMirrorAsset * ratio, ONE, needed);
  }

  lemma EstimateScaled(longFarm: nat, lp: nat, pool: nat, supply: nat, needed: nat, estimate: nat)
    requires 0 < supply && 0 < longFarm && longFarm * supply <= lp * pool
    requires lp * needed < (estimate + 1) * longFarm
    ensures needed * supply <= (estimate + 1) * pool
  {
    if (estimate + 1) * pool < needed * supply {
      assert (estimate + 1) * longFarm * supply == (estimate + 1) * (longFarm * supply);
      assert lp * ((estimate + 1) * pool) == (estimate + 1) * (lp * pool);
      assert lp * (needed * supply) == lp * needed * supply;
      MulMono(longFarm * supply, lp * pool, estimate + 1);
      StrictMul(supply, lp * needed, (estimate + 1) * longFarm);
      MulMono((estimate + 1) * pool, needed * supply, lp);
      assert false;
    }
  }

  lemma Suffices(pool: nat, supply: nat, needed: nat, estimate: nat, k: nat, ratio: nat)
    requires 0 < supply <= k * ONE && needed * supply <= (estimate + 1) * pool
    requires (estimate + 1 + k) * ONE < (ratio + 1) * supply
    ensures needed * ONE <= pool * ratio
  {
    assert (estimate + 1) * ONE <= ratio * supply;
    MulMono((estimate + 1) * ONE, ratio * supply, pool);
    MulMono(needed * supply, (estimate + 1) * pool, ONE);
    assert needed * supply * ONE == needed * ONE * supply;
    assert (estimate + 1) * ONE * pool == (estimate + 1) * pool * ONE;
    assert ratio * supply * pool == pool * ratio * supply;
    Cancel(needed * ONE, pool * ratio, supply);
  }

  /** A top-up whose estimate is within the stake stays within it exactly when all of the
      stake redeems enough. */
  lemma StaysWithinStake(lpTokenAmount: nat, poolMirrorAsset: nat, supply: nat, needed: nat, estimate: nat,
                         withdraw: nat)
    requires 0 < supply && lpTokenAmount <= supply && poolMirrorAsset <= U128_MAX
    requires estimate <= lpTokenAmount && FirstToRedeem(poolMirrorAsset, supply, needed, estimate, withdraw)
    ensures withdraw <= lpTokenAmount <==> Redeems(poolMirrorAsset, supply, needed, lpTokenAmount)
  {
    if withdraw <= lpTokenAmount {
      RedeemedMono(poolMirrorAsset, withdraw, lpTokenAmount, supply);
    }
  }

  lemma RedeemedMono(poolMirrorAsset: nat, v: nat, w: nat, supply: nat)
    requires v <= w <= supply && 0 < supply && poolMirrorAsset <= U128_MAX
    ensures Redeemed(poolMirrorAsset, v, supply).Ok? && Redeemed(poolMirrorAsset, w, supply).Ok?
    ensures Redeemed(poolMirrorAsset, v, supply).value <= Redeemed(poolMirrorAsset, w, supply).value
  {
    RedeemedWithin(poolMirrorAsset, v, supply);
    RedeemedWithin(poolMirrorAsset, w, supply);
    DivMono(v * ONE, w * ONE, supply);
    var p, q := v * ONE / supply, w * ONE / supply;
    assert poolMirrorAsset * p <= poolMirrorAsset * q by { MulMono(p, q, poolMirrorAsset); }
    DivMono(poolMirrorAsset * p, poolMirrorAsset * q, ONE);
  }

  /** A position whose long amount equals `short`, as a rebalance leaves it. */
  ghost predicate Neutral(c: Chain, short: nat) {
    && c.LongAmount() == Ok(short)
    && c.StakedLp().value <= c.lpSupply && 0 < c.lpSupply && c.poolMirrorAsset <= U128_MAX
  }

  /** An executed net-long plan leaves the position neutral exactly when its withdraw message is
      sent, or what it would have withdrawn makes no difference. */
  lemma NetLongReachesNeutral(st: PositionState, plan: Plan)
    requires st.WellFormed() && NetLongOutcome(st, plan) && PredictedNeutral(st, plan)
    ensures var done := ExecuteAll(ChainOf(st), plan.messages);
            (done.Ok? && Neutral(done.value, st.mirrorAssetShortAmount))
            <==> (BothLegs(st, plan.withdraw) || Immaterial(st, plan))
  {
    NetLongExact(st, plan);
    WithdrawalRatio(st, plan.withdraw);
    WithdrawalConserves(st, plan.withdraw);
    if BothLegs(st, plan.withdraw) {
      NetLongExecutes(st, plan);
    } else {
      DroppedExecutes(st, plan);
    }
  }

  /** A neutral position can repay its whole short amount out of its balance and its stake,
      so that its CDP can be closed. */
  lemma NeutralPositionCanClose(c: Chain, short: nat, estimate: nat, withdraw: nat)
    requires Neutral(c, short) && c.mirrorAsset < short
    requires var lp := c.StakedLp().value;
             MulRatio(lp, short - c.mirrorAsset, LongFarm(lp, c.poolMirrorAsset, c.lpSupply)) == Ok(estimate)
    requires FirstToRedeem(c.poolMirrorAsset, c.lpSupply, short - c.mirrorAsset, estimate, withdraw)
    ensures withdraw <= c.StakedLp().value
  {
    var lp := c.StakedLp().value;
    var needed := short - c.mirrorAsset;
    assert Redeemed(c.poolMirrorAsset, lp, c.lpSupply) == Ok(needed);
    ReportedLong(c.poolMirrorAsset, lp, c.lpSupply);
    FractionAtMost(lp, needed, LongFarm(lp, c.poolMirrorAsset, c.lpSupply));
    StaysWithinStake(lp, c.poolMirrorAsset, c.lpSupply, needed, estimate, withdraw);
  }

  /** A long farm whose every unit is needed can take more than is staked: the estimate is
      the whole stake, and redeeming it at two floors returns one unit too few. */
  lemma WholeFarmMayFallShort()
    ensures Redeemed(3, 1, 3) == Ok(0) && 1 * 3 / 3 == 1
    ensures !Redeems(3, 3, 1, 1) && FirstToRedeem(3, 3, 1, 1 * 1 / 1, 2)
  {
    assert 1 * ONE / 3 == 333_333_333_333_333_333;
    assert 2 * ONE / 3 == 666_666_666_666_666_666;
    assert 3 * 333_333_333_333_333_333 / ONE == 0;
    assert 3 * 666_666_666_666_666_666 / ONE == 1;
  }
}
