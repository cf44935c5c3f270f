/** What the messages of a rebalance do to the farm, the pool and the position, and that the
    chain ends up where the searches predicted. */
module RebalanceExecution {
  import opened Results
  import opened FixedPoint
  import opened Terraswap
  import opened Spectrum
  import opened Rebalance

  /** The position's balances with the farm and the pool it uses; swaps are Terraswap's. */
  datatype Chain = Chain(
    mirrorAsset: nat, uusd: nat, lpToken: nat, share: nat,
    farmLpBalance: nat, farm: PoolInfo,
    poolMirrorAsset: nat, poolUusd: nat, lpSupply: nat)
  {
    function StakedLp(): Result<nat> {
      farm.UserAutoBalance(farmLpBalance, share)
    }

    /** Liquid mAsset plus what redeeming the staked LP would return. */
    function LongAmount(): Result<nat> {
      var lp :- StakedLp();
      var farmed :- Redeemed(poolMirrorAsset, lp, lpSupply);
      Add(mirrorAsset, farmed)
    }
  }

  function Execute(c: Chain, message: Message): Result<Chain> {
    match message
    case Unbond(w) =>
      var burned :- BurnedShare(c.farmLpBalance, c.farm, w);
      var shares :- Sub(c.farm.totalAutoBondShare, burned);
      var share :- Sub(c.share, burned);
      var farmLpBalance :- Sub(c.farmLpBalance, w);
      var lpToken :- Add(c.lpToken, w);
      Ok(c.(farm := c.farm.(totalAutoBondShare := shares), share := share,
            farmLpBalance := farmLpBalance, lpToken := lpToken))
    case WithdrawLiquidity(w) =>
      var lpToken :- Sub(c.lpToken, w);
      var mirrorAsset :- Redeemed(c.poolMirrorAsset, w, c.lpSupply);
      var uusd :- Redeemed(c.poolUusd, w, c.lpSupply);
      if mirrorAsset == 0 || uusd == 0 then Err(Generic("invalid zero amount"))
      else
        var supply :- Sub(c.lpSupply, w);
        var poolMirrorAsset :- Sub(c.poolMirrorAsset, mirrorAsset);
        var poolUusd :- Sub(c.poolUusd, uusd);
        var balance :- Add(c.mirrorAsset, mirrorAsset);
        Ok(c.(lpToken := lpToken, lpSupply := supply, poolMirrorAsset := poolMirrorAsset, poolUusd := poolUusd,
              mirrorAsset := balance, uusd := c.uusd + uusd))
    case SellMirrorAsset(x) =>
      if x == 0 then Err(Generic("invalid zero amount"))
      else
        var balance :- Sub(c.mirrorAsset, x);
        var swap :- SimulateSwap(c.poolMirrorAsset, c.poolUusd, x);
        Ok(c.(mirrorAsset := balance, uusd := c.uusd + swap.returned,
              poolMirrorAsset := swap.offerPoolAfter, poolUusd := swap.askPoolAfter))
    case BuyMirrorAsset(x) =>
      if x == 0 then Err(Generic("invalid zero amount"))
      else
        var uusd :- Sub(c.uusd, x);
        var swap :- SimulateSwap(c.poolUusd, c.poolMirrorAsset, x);
        var balance :- Add(c.mirrorAsset, swap.returned);
        Ok(c.(uusd := uusd, mirrorAsset := balance,
              poolUusd := swap.offerPoolAfter, poolMirrorAsset := swap.askPoolAfter))
  }

  function ExecuteAll(c: Chain, messages: seq<Message>): Result<Chain>
    decreases |messages|
  {
    if |messages| == 0 then Ok(c)
    else
      var next :- Execute(c, messages[0]);
      ExecuteAll(next, messages[1..])
  }

  /** The chain that a position's state was read from. */
  function ChainOf(st: PositionState): Chain {
    Chain(st.mirrorAssetBalance, st.uusdBalance, 0, st.autoCompoundShare, st.farmLpBalance, st.farm,
          st.poolMirrorAsset, st.poolUusd, st.lpTokenTotalSupply)
  }

  /** Both assets come back from a withdrawal, so that its message is sent and succeeds. */
  predicate BothLegs(st: PositionState, withdraw: nat) {
    withdraw == 0
    || (&& Redeemed(st.poolMirrorAsset, withdraw, st.lpTokenTotalSupply).Ok?
        && Redeemed(st.poolMirrorAsset, withdraw, st.lpTokenTotalSupply).value > 0
        && Redeemed(st.poolUusd, withdraw, st.lpTokenTotalSupply).Ok?
        && Redeemed(st.poolUusd, withdraw, st.lpTokenTotalSupply).value > 0)
  }

  lemma {:induction false} ExecuteConcat(c: Chain, first: seq<Message>, second: seq<Message>)
    ensures ExecuteAll(c, first + second) ==
            if ExecuteAll(c, first).Ok? then ExecuteAll(ExecuteAll(c, first).value, second)
            else ExecuteAll(c, first)
    decreases |first|
  {
    if |first| == 0 {
      assert first + second == second;
    } else {
      assert (first + second)[1..] == first[1..] + second;
      var next := Execute(c, first[0]);
      if next.Ok? {
        ExecuteConcat(next.value, first[1..], second);
      }
    }
  }

  lemma ExecuteOne(c: Chain, message: Message)
    ensures ExecuteAll(c, [message]) == Execute(c, message)
  {
    if Execute(c, message).Ok? {
      assert ExecuteAll(Execute(c, message).value, [message][1..]) == Execute(c, message);
    }
  }

  /** The chain agrees with the holdings the searches work on. */
  ghost predicate Matches(c: Chain, h: Holdings) {
    && c.mirrorAsset == h.mirrorAsset && c.uusd == h.uusd && c.lpToken == 0
    && c.poolMirrorAsset == h.poolMirrorAsset && c.poolUusd == h.poolUusd && c.lpSupply == h.lpSupply
    && c.StakedLp() == Ok(h.lpToken)
  }

  /** What the farm reports as staked is what the position's state says. */
  lemma StateMatches(st: PositionState)
    requires st.WellFormed()
    ensures ChainOf(st).StakedLp() == Ok(st.lpTokenAmount)
  {
    var a, t := st.farmLpBalance - st.farm.totalStakeBondAmount, st.farm.totalAutoBondShare;
    if 0 < t {
      MulMono(st.autoCompoundShare, t, a);
      assert a * st.autoCompoundShare == st.autoCompoundShare * a;
      assert t * a == a * t;
      DivAtMostExact(a * st.autoCompoundShare, t, a);
    }
  }

  /** Unbonding leaves the withdrawn LP idle, and the rest staked. */
  lemma UnbondExecutes(st: PositionState, w: nat)
    requires st.WellFormed() && 0 < w <= st.lpTokenAmount
    ensures var mid := Execute(ChainOf(st), Unbond(w));
            && mid.Ok? && mid.value.StakedLp() == st.LpAfterUnbond(w) && mid.value.lpToken == w
            && mid.value == ChainOf(st).(farm := mid.value.farm, share := mid.value.share,
                                         farmLpBalance := mid.value.farmLpBalance, lpToken := w)
  {
    UnbondStaked(st, w);
    UnbondWithinBalance(st.farmLpBalance, st.farm, st.autoCompoundShare, st.lpTokenAmount, w);
  }

  /** Executing the withdrawal messages succeeds exactly when both assets come back, and then
      leaves the chain as the searches assumed it. */
  lemma WithdrawalExecutes(st: PositionState, w: nat)
    requires st.WellFormed() && 0 < w <= st.lpTokenAmount && AfterWithdrawal(st, w).Ok?
    ensures var done := ExecuteAll(ChainOf(st), UnstakeAndWithdraw(w));
            && (done.Ok? <==> BothLegs(st, w))
            && (done.Ok? ==> Matches(done.value, AfterWithdrawal(st, w).value))
  {
    var c := ChainOf(st);
    UnbondExecutes(st, w);
    var mid := Execute(c, Unbond(w));
    var done := Execute(mid.value, WithdrawLiquidity(w));
    assert done.Ok? <==> BothLegs(st, w);
    assert UnstakeAndWithdraw(w) == [Unbond(w)] + [WithdrawLiquidity(w)];
    ExecuteConcat(c, [Unbond(w)], [WithdrawLiquidity(w)]);
    ExecuteOne(c, Unbond(w));
    ExecuteOne(mid.value, WithdrawLiquidity(w));
  }

  /** The withdrawal part of either kind of plan. */
  lemma LiquidationExecutes(st: PositionState, w: nat, messages: seq<Message>)
    requires st.WellFormed() && w <= st.lpTokenAmount && AfterWithdrawal(st, w).Ok?
    requires messages == if w == 0 then [] else UnstakeAndWithdraw(w)
    ensures var done := ExecuteAll(ChainOf(st), messages);
            && (done.Ok? <==> BothLegs(st, w))
            && (done.Ok? ==> Matches(done.value, AfterWithdrawal(st, w).value))
  {
    if w == 0 {
      StateMatches(st);
    } else {
      WithdrawalExecutes(st, w);
    }
  }

  lemma SellExecutes(c: Chain, h: Holdings, ratio: nat, x: nat)
    requires Matches(c, h) && FromRatio(h.lpToken, h.lpSupply) == Ok(ratio)
    requires 0 < x && LongAfterSell(h.mirrorAsset, h.poolMirrorAsset, ratio, x).Ok?
    ensures var done := Execute(c, SellMirrorAsset(x));
            && done.Ok? && done.value.StakedLp() == c.StakedLp() && done.value.lpSupply == c.lpSupply
            && done.value.poolMirrorAsset == c.poolMirrorAsset + x
            && done.value.LongAmount() == LongAfterSell(h.mirrorAsset, h.poolMirrorAsset, ratio, x)
  {}

  /** Executing a net-long plan ends with the long amount its swap was chosen for. */
  lemma NetLongExecutes(st: PositionState, plan: Plan)
    requires st.WellFormed() && NetLongOutcome(st, plan) && BothLegs(st, plan.withdraw)
    ensures var h := AfterWithdrawal(st, plan.withdraw).value;
            var ratio := FromRatio(h.lpToken, h.lpSupply).value;
            var done := ExecuteAll(ChainOf(st), plan.messages);
            && done.Ok?
            && done.value.StakedLp() == Ok(h.lpToken) && done.value.lpSupply == h.lpSupply
            && done.value.poolMirrorAsset == h.poolMirrorAsset + plan.offer
            && done.value.LongAmount() == LongAfterSell(h.mirrorAsset, h.poolMirrorAsset, ratio, plan.offer)
            && (LongOrNeutral(h.mirrorAsset, h.poolMirrorAsset, ratio, st.mirrorAssetShortAmount, 0) ==>
                  done.value.LongAmount() == Ok(st.mirrorAssetShortAmount))
  {
    var w := plan.withdraw;
    var h := AfterWithdrawal(st, w).value;
    var ratio := FromRatio(h.lpToken, h.lpSupply).value;
    var head := if w == 0 then [] else UnstakeAndWithdraw(w);
    var tail := if plan.offer == 0 then [] else [SellMirrorAsset(plan.offer)];
    LegsKeepMessages(st, w);
    assert plan.messages == head + tail;
    LiquidationExecutes(st, w, head);
    ExecuteConcat(ChainOf(st), head, tail);
    var c := ExecuteAll(ChainOf(st), head).value;
    if plan.offer > 0 {
      SellExecutes(c, h, ratio, plan.offer);
      ExecuteOne(c, SellMirrorAsset(plan.offer));
    }
  }

  lemma LegsKeepMessages(st: PositionState, w: nat)
    requires st.WellFormed() && w <= st.lpTokenAmount && AfterWithdrawal(st, w).Ok? && BothLegs(st, w)
    ensures NetLongMessages(st, AfterWithdrawal(st, w).value, w, 0) == if w == 0 then [] else UnstakeAndWithdraw(w)
  {}

  lemma BuyExecutes(c: Chain, h: Holdings, ratio: nat, x: nat)
    requires Matches(c, h) && FromRatio(h.lpToken, h.lpSupply) == Ok(ratio)
    requires 0 < x <= h.uusd && LongAfterBuy(h, ratio, x).Ok?
    ensures var done := Execute(c, BuyMirrorAsset(x));
            && done.Ok? && done.value.LongAmount() == LongAfterBuy(h, ratio, x)
            && done.value.uusd == h.uusd - x
  {}

  /** Executing the plan of a net-short position succeeds exactly when both assets of the
      withdrawal come back. It then ends with the long amount its swap was chosen for, paid for
      out of the uusd then held. */
  lemma NetShortExecutes(st: PositionState, plan: Plan, k: nat)
    requires st.WellFormed() && NetShortOutcome(st, plan) && st.mirrorAssetLongAmount < st.mirrorAssetShortAmount
    requires 0 < k && st.poolMirrorAsset <= k * st.poolUusd && 0 < st.poolUusd
    ensures var h := AfterWithdrawal(st, plan.withdraw).value;
            var done := ExecuteAll(ChainOf(st), plan.messages);
            && (done.Ok? <==> BothLegs(st, plan.withdraw))
            && (done.Ok? ==>
                  && plan.offer <= h.uusd && done.value.uusd == h.uusd - plan.offer
                  && done.value.LongAmount().Ok?
                  && st.mirrorAssetShortAmount <= done.value.LongAmount().value <= st.mirrorAssetShortAmount + k - 1)
  {
    var w := plan.withdraw;
    var h := AfterWithdrawal(st, w).value;
    var head := if w == 0 then [] else UnstakeAndWithdraw(w);
    NetShortBuys(st, plan);
    LiquidationExecutes(st, w, head);
    ExecuteConcat(ChainOf(st), head, [BuyMirrorAsset(plan.offer)]);
    if BothLegs(st, w) {
      var c := ExecuteAll(ChainOf(st), head).value;
      WithdrawalKeepsBalance(st, w, k);
      WithdrawalConserves(st, w);
      BuyExecutes(c, h, FromRatio(h.lpToken, h.lpSupply).value, plan.offer);
      ExecuteOne(c, BuyMirrorAsset(plan.offer));
    }
  }

  // ----- When the withdraw message is dropped. -----

  /** The chain after a net-long plan has the long amount `short`. */
  ghost predicate EndsAt(st: PositionState, plan: Plan, short: nat) {
    var done := ExecuteAll(ChainOf(st), plan.messages);
    done.Ok? && done.value.LongAmount() == Ok(short)
  }

  /** The liquidity that a dropped message leaves in the pool makes no difference: the swap is
      covered without it, and the farm is worth as much as the farm and the withdrawn mAsset. */
  predicate Immaterial(st: PositionState, plan: Plan)
    requires AfterWithdrawal(st, plan.withdraw).Ok?
  {
    var h := AfterWithdrawal(st, plan.withdraw).value;
    var farmed, planned := Redeemed(st.poolMirrorAsset + plan.offer, h.lpToken, st.lpTokenTotalSupply),
                           Redeemed(h.poolMirrorAsset + plan.offer, h.lpToken, h.lpSupply);
    && plan.offer <= st.mirrorAssetBalance && farmed.Ok? && planned.Ok?
    && farmed.value == h.mirrorAsset - st.mirrorAssetBalance + planned.value
  }

  /** What a net-long plan executes to without its withdraw message. */
  lemma DroppedExecutes(st: PositionState, plan: Plan)
    requires st.WellFormed() && NetLongOutcome(st, plan) && !BothLegs(st, plan.withdraw)
    ensures var h := AfterWithdrawal(st, plan.withdraw).value;
            var done := ExecuteAll(ChainOf(st), plan.messages);
            && (done.Ok? <==> plan.offer <= st.mirrorAssetBalance)
            && (done.Ok? ==>
                  && done.value.mirrorAsset == st.mirrorAssetBalance - plan.offer
                  && done.value.poolMirrorAsset == st.poolMirrorAsset + plan.offer
                  && done.value.lpSupply == st.lpTokenTotalSupply && done.value.StakedLp() == Ok(h.lpToken))
  {
    var w := plan.withdraw;
    var tail := if plan.offer == 0 then [] else [SellMirrorAsset(plan.offer)];
    WithdrawalConserves(st, w);
    assert plan.messages == [Unbond(w)] + tail;
    UnbondExecutes(st, w);
    ExecuteConcat(ChainOf(st), [Unbond(w)], tail);
    ExecuteOne(ChainOf(st), Unbond(w));
    if plan.offer > 0 {
      ExecuteOne(Execute(ChainOf(st), Unbond(w)).value, SellMirrorAsset(plan.offer));
    }
  }

  lemma DroppedLong(st: PositionState, plan: Plan)
    requires st.WellFormed() && NetLongOutcome(st, plan) && !BothLegs(st, plan.withdraw)
    requires plan.offer <= st.mirrorAssetBalance
    ensures var h := AfterWithdrawal(st, plan.withdraw).value;
            var done := ExecuteAll(ChainOf(st), plan.messages);
            var farmed := Redeemed(st.poolMirrorAsset + plan.offer, h.lpToken, st.lpTokenTotalSupply);
            && done.Ok? && farmed.Ok?
            && done.value.LongAmount() == Ok(st.mirrorAssetBalance - plan.offer + farmed.value)
  {
    var h := AfterWithdrawal(st, plan.withdraw).value;
    DroppedExecutes(st, plan);
    WithdrawalRatio(st, plan.withdraw);
    LongAmountIs(ExecuteAll(ChainOf(st), plan.messages).value, h.lpToken);
  }

  lemma LongAmountIs(c: Chain, lp: nat)
    requires c.StakedLp() == Ok(lp) && lp <= c.lpSupply && 0 < c.lpSupply
    requires c.mirrorAsset + c.poolMirrorAsset <= U128_MAX
    ensures Redeemed(c.poolMirrorAsset, lp, c.lpSupply).Ok?
    ensures c.LongAmount() == Ok(c.mirrorAsset + Redeemed(c.poolMirrorAsset, lp, c.lpSupply).value)
  {
    RedeemedWithin(c.poolMirrorAsset, lp, c.lpSupply);
  }

  /** The farm without the withdrawal is worth no more than the farm and the withdrawn mAsset. */
  lemma DroppedFarm(st: PositionState, w: nat, offer: nat)
    requires st.WellFormed() && w <= st.lpTokenAmount && AfterWithdrawal(st, w).Ok?
    ensures var h := AfterWithdrawal(st, w).value;
            var farmed := Redeemed(st.poolMirrorAsset + offer, h.lpToken, st.lpTokenTotalSupply);
            var planned := Redeemed(h.poolMirrorAsset + offer, h.lpToken, h.lpSupply);
            farmed.Ok? && planned.Ok? ==> farmed.value <= h.mirrorAsset - st.mirrorAssetBalance + planned.value
  {
    var h := AfterWithdrawal(st, w).value;
    WithdrawalConserves(st, w);
    WithdrawalRatio(st, w);
    LessSupply(h.poolMirrorAsset + offer, h.mirrorAsset - st.mirrorAssetBalance, h.lpToken, h.lpSupply,
               st.lpTokenTotalSupply);
  }

  /** What the plan's swap was chosen for. */
  lemma PlannedLong(st: PositionState, plan: Plan)
    requires st.WellFormed() && NetLongOutcome(st, plan) && PredictedNeutral(st, plan)
    ensures var h := AfterWithdrawal(st, plan.withdraw).value;
            var planned := Redeemed(h.poolMirrorAsset + plan.offer, h.lpToken, h.lpSupply);
            && planned.Ok? && plan.offer <= h.mirrorAsset
            && h.mirrorAsset - plan.offer + planned.value == st.mirrorAssetShortAmount
  {}

  /** Liquidity withdrawn is worth no less than liquidity left in the pool. */
  lemma LessSupply(pool: nat, redeemed: nat, lp: nat, less: nat, supply: nat)
    requires 0 < less <= supply && lp <= less
    ensures TwoFloors(pool + redeemed, lp, supply) <= redeemed + TwoFloors(pool, lp, less)
  {
    DivAntitone(lp * ONE, less, supply);
    var q, r := lp * ONE / supply, lp * ONE / less;
    assert lp * ONE == ONE * lp;
    FractionAtMost(ONE, lp, less);
    MulMono(q, r, pool + redeemed);
    DivMono((pool + redeemed) * q, (pool + redeemed) * r, ONE);
    FractionStep(pool, redeemed, r, ONE);
  }

  /** A net-long plan that is predicted to be neutral leaves the chain neutral exactly when its
      withdraw message is sent, or what it would have withdrawn makes no difference. */
  lemma NetLongExact(st: PositionState, plan: Plan)
    requires st.WellFormed() && NetLongOutcome(st, plan) && PredictedNeutral(st, plan)
    ensures EndsAt(st, plan, st.mirrorAssetShortAmount) <==> BothLegs(st, plan.withdraw) || Immaterial(st, plan)
  {
    if BothLegs(st, plan.withdraw) {
      NetLongExecutes(st, plan);
    } else {
      DroppedExecutes(st, plan);
      PlannedLong(st, plan);
      if plan.offer <= st.mirrorAssetBalance {
        DroppedLong(st, plan);
      }
    }
  }

  /** The withdrawal leaves the position long or neutral, so that the swap is to make it neutral. */
  ghost predicate PredictedNeutral(st: PositionState, plan: Plan)
    requires AfterWithdrawal(st, plan.withdraw).Ok?
  {
    var h := AfterWithdrawal(st, plan.withdraw).value;
    var ratio := FromRatio(h.lpToken, h.lpSupply);
    ratio.Ok? && LongOrNeutral(h.mirrorAsset, h.poolMirrorAsset, ratio.value, st.mirrorAssetShortAmount, 0)
  }

  /** Without the message the position never ends longer than predicted. */
  lemma DroppedNeverLong(st: PositionState, plan: Plan)
    requires st.WellFormed() && NetLongOutcome(st, plan) && !BothLegs(st, plan.withdraw) && PredictedNeutral(st, plan)
    ensures var done := ExecuteAll(ChainOf(st), plan.messages);
            done.Ok? ==> done.value.LongAmount().Ok? && done.value.LongAmount().value <= st.mirrorAssetShortAmount
  {
    DroppedExecutes(st, plan);
    if plan.offer <= st.mirrorAssetBalance {
      PlannedLong(st, plan);
      DroppedLong(st, plan);
      DroppedFarm(st, plan.withdraw, plan.offer);
    }
  }

  /** The long amount a state reports counts the staked LP with one floor, the searches with
      two; the report is never lower, and at most one higher in a pool of up to 10^18 mAsset. */
  lemma ReportedLong(poolMirrorAsset: nat, lp: nat, supply: nat)
    requires lp <= supply && 0 < supply && poolMirrorAsset <= U128_MAX
    ensures Redeemed(poolMirrorAsset, lp, supply).Ok?
    ensures var two := Redeemed(poolMirrorAsset, lp, supply).value;
            var one := lp * poolMirrorAsset / supply;
            && two <= one
            && (poolMirrorAsset <= ONE ==> one <= two + 1)
  {
    RedeemedWithin(poolMirrorAsset, lp, supply);
    var ratio := lp * ONE / supply;
    var two := poolMirrorAsset * ratio / ONE;
    var one := lp * poolMirrorAsset / supply;
    DivBounds(lp * ONE, supply);
    DivBounds(poolMirrorAsset * ratio, ONE);
    DivBounds(lp * poolMirrorAsset, supply);
    TwoFloorsLow(poolMirrorAsset, lp, supply, ratio, two);
    BelowNext(two, one, supply, lp * poolMirrorAsset);
    if poolMirrorAsset <= ONE {
      TwoFloorsHigh(poolMirrorAsset, lp, supply, ratio, two);
      BelowNext(one, two + 1, supply, lp * poolMirrorAsset);
    }
  }

  lemma TwoFloorsHigh(pool: nat, lp: nat, supply: nat, ratio: nat, two: nat)
    requires 0 < supply && pool <= ONE
    requires lp * ONE < (ratio + 1) * supply && pool * ratio < (two + 1) * ONE
    ensures lp * pool < (two + 2) * supply
  {
    MulMono(lp * ONE, (ratio + 1) * supply, pool);
    assert lp * ONE * pool == lp * pool * ONE;
    assert (ratio + 1) * supply * pool == (pool * ratio + pool) * supply;
    MulMono(pool * ratio + pool, (two + 2) * ONE - 1, supply);
    assert ((two + 2) * ONE - 1) * supply == (two + 2) * supply * ONE - supply;
  }

  lemma BelowNext(p: nat, q: nat, supply: nat, n: nat)
    requires 0 < supply && p * supply <= n < (q + 1) * supply
    ensures p <= q
  {
    if q < p {
      MulMono(q + 1, p, supply);
      assert false;
    }
  }

  /** Such a case: one withdrawn amount rounds to zero, the message is dropped, and the swap
      that counted on the other amount overshoots. Here a
      position neutral at 1 mAsset is predicted, and none is left. */
  lemma DroppedLegOvershoots()
    ensures exists st: PositionState, plan: Plan ::
      && st.WellFormed() && NetLongOutcome(st, plan) && !BothLegs(st, plan.withdraw)
      && st.mirrorAssetShortAmount == 1
      && ExecuteAll(ChainOf(st), plan.messages).Ok?
      && ExecuteAll(ChainOf(st), plan.messages).value.LongAmount() == Ok(0)
  {
    var st := PositionState(0, 1, 1, 2, 1, 2, 3, 1, 1, 1, PoolInfo(1, 0));
    var half := ONE / 2;
    assert 1 * ONE / 2 == half;
    assert 3 * half / ONE == 1 && 1 * half / ONE == 0;
    var plan := Plan(1, 1, [Unbond(1), SellMirrorAsset(1)]);
    assert SimulateUnbond(1, PoolInfo(1, 0), 1, 1) == Ok(0);
    assert AfterWithdrawal(st, 1) == Ok(Holdings(2, 0, 2, 1, 0, 1));
    assert NetLongProbe(st, 0) == Ok(2);
    assert NetLongProbe(st, 1) == Ok(0);
    assert NetLongOutcome(st, plan);
    var c := Execute(ChainOf(st), Unbond(1));
    assert c.Ok?;
    var d := Execute(c.value, SellMirrorAsset(1));
    assert d.Ok?;
    assert plan.messages == [Unbond(1)] + [SellMirrorAsset(1)];
    ExecuteConcat(ChainOf(st), [Unbond(1)], [SellMirrorAsset(1)]);
    ExecuteOne(ChainOf(st), Unbond(1));
    ExecuteOne(c.value, SellMirrorAsset(1));
  }
}
