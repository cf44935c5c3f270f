/** Bringing a position back to delta-neutral: how much LP to withdraw and how much to swap,
    found by two chained binary searches on each side. */
module Rebalance {
  import opened Results
  import opened FixedPoint
  import opened Terraswap
  import opened Spectrum

  /** What a rebalance reads of the position, its farm and its pool. */
  datatype PositionState = PositionState(
    uusdBalance: nat,
    mirrorAssetBalance: nat,
    mirrorAssetShortAmount: nat,
    mirrorAssetLongAmount: nat,
    lpTokenAmount: nat,
    lpTokenTotalSupply: nat,
    poolMirrorAsset: nat,
    poolUusd: nat,
    autoCompoundShare: nat,
    farmLpBalance: nat,
    farm: PoolInfo)
  {
    /** What the queries that fill a state guarantee of it: the staked LP is the floor of the
        shares' worth, every share is backed by at least one LP token, someone else holds LP
        tokens too, and the long amount counts the staked LP at one floor. */
    ghost predicate WellFormed() {
      && lpTokenAmount < lpTokenTotalSupply <= U128_MAX
      && Staked(farmLpBalance, farm, autoCompoundShare, lpTokenAmount)
      && mirrorAssetLongAmount == mirrorAssetBalance + lpTokenAmount * poolMirrorAsset / lpTokenTotalSupply
    }

    /** LP left in the farm after unbonding; the farm is only queried when something is staked. */
    function LpAfterUnbond(withdraw: nat): Result<nat> {
      if lpTokenAmount == 0 then Err(Panic)
      else SimulateUnbond(farmLpBalance, farm, autoCompoundShare, withdraw)
    }
  }

  datatype Message =
    | Unbond(lpAmount: nat)
    | WithdrawLiquidity(lpAmount: nat)
    | SellMirrorAsset(mirrorAssetAmount: nat)
    | BuyMirrorAsset(uusdAmount: nat)

  /** The LP withdrawn and the amount offered to the pool, with the messages that do it. */
  datatype Plan = Plan(withdraw: nat, offer: nat, messages: seq<Message>)

  /** The position and the pool once some LP has been withdrawn. */
  datatype Holdings = Holdings(
    mirrorAsset: nat, uusd: nat, poolMirrorAsset: nat, poolUusd: nat, lpToken: nat, lpSupply: nat)

  function UnstakeAndWithdraw(lpAmount: nat): seq<Message> {
    [Unbond(lpAmount), WithdrawLiquidity(lpAmount)]
  }

  /** What withdrawing `withdraw` LP tokens redeems of a pool asset: two floors. */
  function Redeemed(poolAmount: nat, withdraw: nat, supply: nat): Result<nat> {
    var ratio :- FromRatio(withdraw, supply);
    MulDecimal(poolAmount, ratio)
  }

  function AfterWithdrawal(st: PositionState, withdraw: nat): Result<Holdings> {
    if withdraw == 0 then
      Ok(Holdings(st.mirrorAssetBalance, st.uusdBalance, st.poolMirrorAsset, st.poolUusd,
                  st.lpTokenAmount, st.lpTokenTotalSupply))
    else
      var mirrorAsset :- Redeemed(st.poolMirrorAsset, withdraw, st.lpTokenTotalSupply);
      var uusd :- Redeemed(st.poolUusd, withdraw, st.lpTokenTotalSupply);
      var balance :- Add(st.mirrorAssetBalance, mirrorAsset);
      var poolMirrorAsset :- Sub(st.poolMirrorAsset, mirrorAsset);
      var poolUusd :- Sub(st.poolUusd, uusd);
      var lp :- st.LpAfterUnbond(withdraw);
      var supply :- Sub(st.lpTokenTotalSupply, withdraw);
      Ok(Holdings(balance, st.uusdBalance + uusd, poolMirrorAsset, poolUusd, lp, supply))
  }

  /** Long mAsset once `offer` of the liquid `mirrorAsset` has been sold to the pool,
      `lpRatio` of which is ours. */
  function LongAfterSell(mirrorAsset: nat, poolMirrorAsset: nat, lpRatio: nat, offer: nat): Result<nat> {
    var pool :- Add(poolMirrorAsset, offer);
    var kept :- Sub(mirrorAsset, offer);
    var farmed :- MulDecimal(pool, lpRatio);
    Add(kept, farmed)
  }

  /** Long mAsset once `offer` uusd has bought some from the pool. */
  function LongAfterBuy(h: Holdings, lpRatio: nat, offer: nat): Result<nat> {
    var swap :- SimulateSwap(h.poolUusd, h.poolMirrorAsset, offer);
    var farmed :- MulDecimal(swap.askPoolAfter, lpRatio);
    var long :- Add(farmed, swap.returned);
    Add(long, h.mirrorAsset)
  }

  /** The half-interval search all four stages run: the test says to go right or left of the
      index it probes, and may abort. What it finds is a boundary of the test; it is the
      leftmost or rightmost one only where the test is monotone. */
  method Search(goRight: nat -> Result<bool>, end: nat) returns (r: Result<nat>)
    ensures r.Ok? ==> r.value <= end
    ensures r.Ok? && 0 < r.value ==> goRight(r.value - 1) == Ok(true)
    ensures r.Ok? && r.value < end ==> goRight(r.value) == Ok(false)
    ensures 2 * end <= U128_MAX && (forall i: nat :: i < end ==> goRight(i).Ok?) ==> r.Ok?
  {
    var a, b := 0, end;
    while a < b
      invariant 0 <= a <= b <= end
      invariant 0 < a ==> goRight(a - 1) == Ok(true)
      invariant b < end ==> goRight(b) == Ok(false)
    {
      var sum :- Add(a, b);
      var mid := sum / 2;
      var right :- goRight(mid);
      if right {
        a := mid + 1;
      } else {
        b := mid;
      }
    }
    return Ok(a);
  }

  // ----- Net long. -----

  /** Long mAsset after withdrawing `withdraw` LP tokens and selling every liquid mAsset. */
  function NetLongProbe(st: PositionState, withdraw: nat): Result<nat> {
    var pool :- Add(st.poolMirrorAsset, st.mirrorAssetBalance);
    var lp :- LpLeft(st, withdraw);
    var supply :- Sub(st.lpTokenTotalSupply, withdraw);
    var ratio :- FromRatio(lp, supply);
    MulDecimal(pool, ratio)
  }

  function LongTest(st: PositionState, withdraw: nat): Result<bool> {
    var long :- NetLongProbe(st, withdraw);
    Ok(long > st.mirrorAssetShortAmount)
  }

  ghost predicate StillLong(st: PositionState, withdraw: nat) {
    NetLongProbe(st, withdraw).Ok? && NetLongProbe(st, withdraw).value > st.mirrorAssetShortAmount
  }

  ghost predicate NoLongerLong(st: PositionState, withdraw: nat) {
    NetLongProbe(st, withdraw).Ok? && NetLongProbe(st, withdraw).value <= st.mirrorAssetShortAmount
  }

  lemma RatioAtMostOne(lp: nat, supply: nat)
    requires lp <= supply && 0 < supply
    ensures FromRatio(lp, supply).Ok? && FromRatio(lp, supply).value <= ONE
    ensures lp == 0 ==> FromRatio(lp, supply).value == 0
  {
    assert lp * ONE == ONE * lp;
    FractionAtMost(ONE, lp, supply);
  }

  /** Unbonding within the staked amount succeeds and leaves no more than the rest. */
  lemma UnbondStaked(st: PositionState, w: nat)
    requires st.WellFormed() && 0 < w <= st.lpTokenAmount
    ensures st.LpAfterUnbond(w).Ok? && st.LpAfterUnbond(w).value <= st.lpTokenAmount - w
  {
    UnbondWithinBalance(st.farmLpBalance, st.farm, st.autoCompoundShare, st.lpTokenAmount, w);
  }

  function LpLeft(st: PositionState, w: nat): Result<nat> {
    if w == 0 then Ok(st.lpTokenAmount) else st.LpAfterUnbond(w)
  }

  /** Within the staked amount, the farm and the LP ratio behave. */
  lemma WithdrawalRatio(st: PositionState, w: nat)
    requires st.WellFormed() && w <= st.lpTokenAmount
    ensures LpLeft(st, w).Ok? && LpLeft(st, w).value <= st.lpTokenAmount - w
    ensures var ratio := FromRatio(LpLeft(st, w).value, st.lpTokenTotalSupply - w);
            ratio.Ok? && ratio.value <= ONE && (w == st.lpTokenAmount ==> ratio.value == 0)
  {
    if w > 0 {
      UnbondStaked(st, w);
    }
    RatioAtMostOne(LpLeft(st, w).value, st.lpTokenTotalSupply - w);
  }

  /** Withdrawing all of the LP and selling everything is never net long. */
  lemma EverythingSold(st: PositionState)
    requires st.WellFormed() && st.poolMirrorAsset + st.mirrorAssetBalance <= U128_MAX
    ensures NoLongerLong(st, st.lpTokenAmount)
  {
    WithdrawalRatio(st, st.lpTokenAmount);
    assert (st.poolMirrorAsset + st.mirrorAssetBalance) * 0 / ONE == 0;
  }

  lemma LongProbesSucceed(st: PositionState)
    requires st.WellFormed()
    requires st.poolMirrorAsset + st.mirrorAssetBalance <= U128_MAX
    ensures forall w: nat :: w <= st.lpTokenAmount ==> NetLongProbe(st, w).Ok?
  {
    forall w: nat | w <= st.lpTokenAmount
      ensures NetLongProbe(st, w).Ok?
    {
      WithdrawalRatio(st, w);
      var ratio := FromRatio(LpLeft(st, w).value, st.lpTokenTotalSupply - w).value;
      FractionAtMost(st.poolMirrorAsset + st.mirrorAssetBalance, ratio, ONE);
    }
  }

  /** The first search on the long side. The probe need not be monotone, so what it finds is
      a boundary: an amount that is enough, whose predecessor is not. It is the least amount
      where one LP token is behind each share. */
  method FindLongWithdrawal(st: PositionState) returns (r: Result<nat>)
    requires st.WellFormed()
    ensures r.Ok? ==> r.value <= st.lpTokenAmount && NoLongerLong(st, r.value)
    ensures r.Ok? && 0 < r.value ==> StillLong(st, r.value - 1)
    ensures r.Ok? && OnePerShare(st) ==>
              forall v: nat :: v <= st.lpTokenAmount ==> (NoLongerLong(st, v) <==> r.value <= v)
    ensures st.lpTokenAmount <= U128_MAX / 2 - 1 && st.poolMirrorAsset + st.mirrorAssetBalance <= U128_MAX ==> r.Ok?
  {
    if st.poolMirrorAsset + st.mirrorAssetBalance <= U128_MAX {
      LongProbesSucceed(st);
    }
    var withdraw :- Search((w: nat) => LongTest(st, w), st.lpTokenAmount + 1);
    if withdraw == st.lpTokenAmount + 1 {
      EverythingSold(st);
      assert false;
    }
    if OnePerShare(st) {
      BoundaryIsLeast(st, withdraw);
    }
    return Ok(withdraw);
  }

  lemma SellStep(m: nat, pool: nat, lpRatio: nat, x: nat, y: nat)
    requires lpRatio <= ONE && x <= y
    requires LongAfterSell(m, pool, lpRatio, x).Ok? && LongAfterSell(m, pool, lpRatio, y).Ok?
    ensures LongAfterSell(m, pool, lpRatio, y).value <= LongAfterSell(m, pool, lpRatio, x).value
    ensures LongAfterSell(m, pool, lpRatio, x).value <= LongAfterSell(m, pool, lpRatio, y).value + (y - x)
  {
    FractionStep(pool + x, y - x, lpRatio, ONE);
  }

  function SellTest(m: nat, pool: nat, lpRatio: nat, short: nat, offer: nat): Result<bool> {
    var long :- LongAfterSell(m, pool, lpRatio, offer);
    Ok(long >= short)
  }

  ghost predicate LongOrNeutral(m: nat, pool: nat, lpRatio: nat, short: nat, offer: nat) {
    LongAfterSell(m, pool, lpRatio, offer).Ok? && LongAfterSell(m, pool, lpRatio, offer).value >= short
  }

  ghost predicate Short(m: nat, pool: nat, lpRatio: nat, short: nat, offer: nat) {
    LongAfterSell(m, pool, lpRatio, offer).Ok? && LongAfterSell(m, pool, lpRatio, offer).value < short
  }

  /** The second search on the long side: one more than the largest offer that still leaves
      the position long or neutral. */
  method FindSellOfferEnd(m: nat, pool: nat, lpRatio: nat, short: nat) returns (r: Result<nat>)
    ensures r.Ok? ==> r.value <= m + 1
    ensures r.Ok? && 0 < r.value ==> LongOrNeutral(m, pool, lpRatio, short, r.value - 1)
    ensures r.Ok? && r.value <= m ==> Short(m, pool, lpRatio, short, r.value)
    ensures lpRatio <= ONE && m <= U128_MAX / 2 - 1 && pool + m <= U128_MAX ==> r.Ok?
  {
    if lpRatio <= ONE && pool + m <= U128_MAX {
      forall x: nat | x <= m
        ensures LongAfterSell(m, pool, lpRatio, x).Ok?
      {
        FractionAtMost(pool + x, lpRatio, ONE);
      }
    }
    var end :- Add(m, 1);
    r := Search((x: nat) => SellTest(m, pool, lpRatio, short, x), end);
  }

  /** Selling moves the long amount down by at most one per unit, so a search that starts
      long and whose end would be short or neutral lands exactly on the short amount. */
  lemma SellExact(m: nat, pool: nat, lpRatio: nat, short: nat, end: nat)
    requires lpRatio <= ONE && pool + m <= U128_MAX
    requires end <= m + 1
    requires 0 < end ==> LongOrNeutral(m, pool, lpRatio, short, end - 1)
    requires end <= m ==> Short(m, pool, lpRatio, short, end)
    requires LongAfterSell(m, pool, lpRatio, m).Ok? && LongAfterSell(m, pool, lpRatio, m).value <= short
    ensures LongAfterSell(m, pool, lpRatio, 0).Ok? ==>
      if end == 0 then LongAfterSell(m, pool, lpRatio, 0).value < short
      else LongAfterSell(m, pool, lpRatio, end - 1) == Ok(short) && LongAfterSell(m, pool, lpRatio, 0).value >= short
    ensures forall x: nat :: end <= x && LongAfterSell(m, pool, lpRatio, x).Ok? ==>
      LongAfterSell(m, pool, lpRatio, x).value < short
  {
    if 0 < end <= m {
      SellStep(m, pool, lpRatio, end - 1, end);
    }
    if LongAfterSell(m, pool, lpRatio, 0).Ok? && 0 < end {
      SellStep(m, pool, lpRatio, 0, end - 1);
    }
    forall x: nat | end <= x && LongAfterSell(m, pool, lpRatio, x).Ok?
      ensures LongAfterSell(m, pool, lpRatio, x).value < short
    {
      SellStep(m, pool, lpRatio, end, x);
    }
  }

  /** What a net-long plan achieves: the withdrawal is a boundary within the staked LP, and
      unless the withdrawal itself rounds the position short, the swap makes the predicted
      long amount equal to the short amount, with nothing more left to sell. */
  ghost predicate NetLongOutcome(st: PositionState, plan: Plan) {
    && plan.withdraw <= st.lpTokenAmount
    && NoLongerLong(st, plan.withdraw)
    && (0 < plan.withdraw ==> StillLong(st, plan.withdraw - 1))
    && AfterWithdrawal(st, plan.withdraw).Ok?
    && var h := AfterWithdrawal(st, plan.withdraw).value;
       && SoldToNeutral(h, st.mirrorAssetShortAmount, plan.offer)
       && plan.messages == NetLongMessages(st, h, plan.withdraw, plan.offer)
  }

  ghost predicate SoldToNeutral(h: Holdings, short: nat, offer: nat) {
    && FromRatio(h.lpToken, h.lpSupply).Ok?
    && var ratio := FromRatio(h.lpToken, h.lpSupply).value;
       && offer <= h.mirrorAsset
       && LongAfterSell(h.mirrorAsset, h.poolMirrorAsset, ratio, offer).Ok?
       && (LongOrNeutral(h.mirrorAsset, h.poolMirrorAsset, ratio, short, 0) ==>
             LongAfterSell(h.mirrorAsset, h.poolMirrorAsset, ratio, offer) == Ok(short))
       && (Short(h.mirrorAsset, h.poolMirrorAsset, ratio, short, 0) ==> offer == 0)
       && forall more: nat :: offer < more && LongAfterSell(h.mirrorAsset, h.poolMirrorAsset, ratio, more).Ok? ==>
            LongAfterSell(h.mirrorAsset, h.poolMirrorAsset, ratio, more).value < short
  }

  /** The WithdrawLiquidity message is dropped when either redeemed amount is zero. */
  function NetLongMessages(st: PositionState, h: Holdings, withdraw: nat, offer: nat): seq<Message> {
    (if withdraw == 0 then []
     else if h.mirrorAsset == st.mirrorAssetBalance || h.uusd == st.uusdBalance then [Unbond(withdraw)]
     else UnstakeAndWithdraw(withdraw))
    + (if offer == 0 then [] else [SellMirrorAsset(offer)])
  }

  /** A withdrawal redeems its part of the supply of a reserve, the part and the product rounded down. */
  lemma RedeemedExact(poolAmount: nat, withdraw: nat, supply: nat, part: nat, redeemed: nat)
    requires 0 < supply && part * supply <= withdraw * ONE < (part + 1) * supply && part <= U128_MAX
    requires redeemed * ONE <= poolAmount * part < (redeemed + 1) * ONE && redeemed <= U128_MAX
    ensures Redeemed(poolAmount, withdraw, supply) == Ok(redeemed)
  {
    RatioIsFloor(withdraw, ONE, supply, part);
    RatioIsFloor(poolAmount, part, ONE, redeemed);
  }

  lemma RedeemedWithin(poolAmount: nat, withdraw: nat, supply: nat)
    requires withdraw <= supply && 0 < supply
    ensures Redeemed(poolAmount, withdraw, supply).Ok? ==> Redeemed(poolAmount, withdraw, supply).value <= poolAmount
    ensures poolAmount <= U128_MAX ==> Redeemed(poolAmount, withdraw, supply).Ok?
  {
    assert withdraw * ONE == ONE * withdraw;
    FractionAtMost(ONE, withdraw, supply);
    FractionAtMost(poolAmount, withdraw * ONE / supply, ONE);
  }

  lemma TwoFloorsLow(pool: nat, lp: nat, supply: nat, ratio: nat, two: nat)
    requires ratio * supply <= lp * ONE && two * ONE <= pool * ratio
    ensures two * supply <= lp * pool
  {
    MulMono(two * ONE, pool * ratio, supply);
    MulMono(ratio * supply, lp * ONE, pool);
    assert two * ONE * supply == two * supply * ONE;
    assert pool * ratio * supply == ratio * supply * pool;
    assert lp * ONE * pool == lp * pool * ONE;
  }

  /** Short of the whole supply, a withdrawal never empties the pool. */
  lemma RedeemedLeavesSome(poolAmount: nat, withdraw: nat, supply: nat)
    requires withdraw < supply && 0 < poolAmount
    ensures Redeemed(poolAmount, withdraw, supply).Ok? ==> Redeemed(poolAmount, withdraw, supply).value < poolAmount
  {
    var ratio := withdraw * ONE / supply;
    assert ratio < ONE by {
      DivBounds(withdraw * ONE, supply);
      if ratio >= ONE {
        MulMono(ONE, ratio, supply);
        assert false;
      }
    }
    assert poolAmount * ratio < poolAmount * ONE by { StrictMul(poolAmount, ratio, ONE); }
    DivAtMost(poolAmount * ratio, ONE, poolAmount - 1);
  }

  /** The amounts of one token held by the pool and by the position, and the staked LP, stay
      below half of the 128-bit range: enough for every sum the searches form. */
  ghost predicate InRange(st: PositionState) {
    && st.poolMirrorAsset + st.mirrorAssetBalance <= U128_MAX / 2 - 1
    && st.poolUusd + st.uusdBalance <= U128_MAX / 2 - 1
    && st.lpTokenAmount <= U128_MAX / 2 - 1
  }

  /** A withdrawal moves tokens from the pool to the position and loses none. */
  lemma WithdrawalConserves(st: PositionState, w: nat)
    requires st.WellFormed() && w <= st.lpTokenAmount
    ensures InRange(st) ==> AfterWithdrawal(st, w).Ok?
    ensures AfterWithdrawal(st, w).Ok? ==>
      var h := AfterWithdrawal(st, w).value;
      && h.poolMirrorAsset + h.mirrorAsset == st.poolMirrorAsset + st.mirrorAssetBalance
      && h.poolUusd + h.uusd == st.poolUusd + st.uusdBalance
      && (0 < st.poolUusd ==> 0 < h.poolUusd)
  {
    RedeemedWithin(st.poolMirrorAsset, w, st.lpTokenTotalSupply);
    RedeemedWithin(st.poolUusd, w, st.lpTokenTotalSupply);
    if 0 < st.poolUusd {
      RedeemedLeavesSome(st.poolUusd, w, st.lpTokenTotalSupply);
    }
    WithdrawalRatio(st, w);
  }

  /** Selling the whole balance after a withdrawal is what the first search probed. */
  lemma LongProbeIsSellAll(st: PositionState, w: nat)
    requires st.WellFormed() && w <= st.lpTokenAmount
    requires NetLongProbe(st, w).Ok? && AfterWithdrawal(st, w).Ok?
    ensures var h := AfterWithdrawal(st, w).value;
            && FromRatio(h.lpToken, h.lpSupply).Ok? && FromRatio(h.lpToken, h.lpSupply).value <= ONE
            && h.poolMirrorAsset + h.mirrorAsset <= U128_MAX
            && LongAfterSell(h.mirrorAsset, h.poolMirrorAsset, FromRatio(h.lpToken, h.lpSupply).value, h.mirrorAsset)
               == NetLongProbe(st, w)
  {
    WithdrawalConserves(st, w);
    WithdrawalRatio(st, w);
  }

  /** Liquidating `withdraw` LP tokens on the long side. */
  method WithdrawToSell(st: PositionState, withdraw: nat)
    returns (r: Result<Holdings>, messages: seq<Message>)
    requires st.WellFormed() && withdraw <= st.lpTokenAmount
    ensures r.Ok? ==> r == AfterWithdrawal(st, withdraw) && messages == NetLongMessages(st, r.value, withdraw, 0)
    ensures InRange(st) ==> r.Ok?
  {
    messages := [];
    var h := Holdings(st.mirrorAssetBalance, st.uusdBalance, st.poolMirrorAsset, st.poolUusd,
                      st.lpTokenAmount, st.lpTokenTotalSupply);
    WithdrawalConserves(st, withdraw);
    if withdraw > 0 {
      messages := messages + UnstakeAndWithdraw(withdraw);
      RedeemedWithin(st.poolMirrorAsset, withdraw, st.lpTokenTotalSupply);
      RedeemedWithin(st.poolUusd, withdraw, st.lpTokenTotalSupply);
      var ratio :- FromRatio(withdraw, st.lpTokenTotalSupply);
      var mirrorAsset :- MulDecimal(st.poolMirrorAsset, ratio);
      var uusd :- MulDecimal(st.poolUusd, ratio);
      if mirrorAsset == 0 || uusd == 0 {
        messages := messages[..|messages| - 1];
      }
      var balance :- Add(h.mirrorAsset, mirrorAsset);
      var lp :- st.LpAfterUnbond(withdraw);
      h := Holdings(balance, h.uusd + uusd, h.poolMirrorAsset - mirrorAsset, h.poolUusd - uusd,
                    lp, h.lpSupply - withdraw);
    }
    r := Ok(h);
  }

  /** The swap that follows a long-side withdrawal. */
  method SellToNeutral(h: Holdings, short: nat) returns (r: Result<nat>)
    requires FromRatio(h.lpToken, h.lpSupply).Ok? && FromRatio(h.lpToken, h.lpSupply).value <= ONE
    requires h.poolMirrorAsset + h.mirrorAsset <= U128_MAX
    requires var ratio := FromRatio(h.lpToken, h.lpSupply).value;
             var all := LongAfterSell(h.mirrorAsset, h.poolMirrorAsset, ratio, h.mirrorAsset);
             all.Ok? && all.value <= short
    ensures r.Ok? ==> SoldToNeutral(h, short, r.value)
    ensures h.mirrorAsset <= U128_MAX / 2 - 1 ==> r.Ok?
  {
    var lpRatio := FromRatio(h.lpToken, h.lpSupply).value;
    var end :- FindSellOfferEnd(h.mirrorAsset, h.poolMirrorAsset, lpRatio, short);
    SellExact(h.mirrorAsset, h.poolMirrorAsset, lpRatio, short, end);
    FractionAtMost(h.poolMirrorAsset, lpRatio, ONE);
    return Ok(if end > 1 then end - 1 else 0);
  }

  method RebalanceNetLong(st: PositionState) returns (r: Result<Plan>)
    requires st.WellFormed()
    ensures r.Ok? ==> NetLongOutcome(st, r.value)
    ensures InRange(st) ==> r.Ok?
  {
    var withdraw :- FindLongWithdrawal(st);
    var h, messages :- WithdrawToSell(st, withdraw);
    LongProbeIsSellAll(st, withdraw);
    WithdrawalConserves(st, withdraw);
    var offer :- SellToNeutral(h, st.mirrorAssetShortAmount);
    if offer > 0 {
      messages := messages + [SellMirrorAsset(offer)];
    }
    return Ok(Plan(withdraw, offer, messages));
  }

  // ----- Net short. -----

  /** Long mAsset after withdrawing `withdraw` LP tokens and spending every uusd. */
  function NetShortProbe(st: PositionState, withdraw: nat): Result<nat> {
    var fraction :- FromRatio(withdraw, st.lpTokenTotalSupply);
    var mirrorAsset :- MulDecimal(st.poolMirrorAsset, fraction);
    var uusd :- MulDecimal(st.poolUusd, fraction);
    var poolMirrorAsset :- Sub(st.poolMirrorAsset, mirrorAsset);
    var poolUusd :- Sub(st.poolUusd, uusd);
    var lp :- LpLeft(st, withdraw);
    var offer :- Add(uusd, st.uusdBalance);
    var swap :- SimulateSwap(poolUusd, poolMirrorAsset, offer);
    var supply :- Sub(st.lpTokenTotalSupply, withdraw);
    var ratio :- FromRatio(lp, supply);
    var farmed :- MulDecimal(swap.askPoolAfter, ratio);
    var liquid :- Add(st.mirrorAssetBalance, mirrorAsset);
    var bought :- Add(liquid, swap.returned);
    Add(bought, farmed)
  }

  function ShortTest(st: PositionState, withdraw: nat): Result<bool> {
    var long :- NetShortProbe(st, withdraw);
    Ok(long < st.mirrorAssetShortAmount)
  }

  ghost predicate StillShort(st: PositionState, withdraw: nat) {
    NetShortProbe(st, withdraw).Ok? && NetShortProbe(st, withdraw).value < st.mirrorAssetShortAmount
  }

  ghost predicate NoLongerShort(st: PositionState, withdraw: nat) {
    NetShortProbe(st, withdraw).Ok? && NetShortProbe(st, withdraw).value >= st.mirrorAssetShortAmount
  }

  /** The long amounts the two probes compute, and the pool they leave, stay in range. */
  lemma BuyInRange(poolUusd: nat, poolMirrorAsset: nat, lpRatio: nat, mirrorAsset: nat, offer: nat)
    requires lpRatio <= ONE && 0 < poolUusd + offer <= U128_MAX && poolMirrorAsset + mirrorAsset <= U128_MAX
    ensures SimulateSwap(poolUusd, poolMirrorAsset, offer).Ok?
    ensures var swap := SimulateSwap(poolUusd, poolMirrorAsset, offer).value;
            && swap.askPoolAfter + swap.returned == poolMirrorAsset
            && MulDecimal(swap.askPoolAfter, lpRatio).Ok?
            && MulDecimal(swap.askPoolAfter, lpRatio).value <= swap.askPoolAfter
  {
    var after := poolMirrorAsset - SwapReturn(poolUusd, poolMirrorAsset, offer);
    FractionAtMost(after, lpRatio, ONE);
  }

  lemma ShortProbeSucceeds(st: PositionState, w: nat)
    requires st.WellFormed() && InRange(st) && 0 < st.poolUusd + st.uusdBalance && w <= st.lpTokenAmount
    ensures NetShortProbe(st, w).Ok?
  {
    RedeemedWithin(st.poolMirrorAsset, w, st.lpTokenTotalSupply);
    RedeemedWithin(st.poolUusd, w, st.lpTokenTotalSupply);
    WithdrawalRatio(st, w);
    var m := Redeemed(st.poolMirrorAsset, w, st.lpTokenTotalSupply).value;
    var u := Redeemed(st.poolUusd, w, st.lpTokenTotalSupply).value;
    var lp := LpLeft(st, w).value;
    var ratio := FromRatio(lp, st.lpTokenTotalSupply - w).value;
    BuyInRange(st.poolUusd - u, st.poolMirrorAsset - m, ratio, st.mirrorAssetBalance + m, u + st.uusdBalance);
  }

  lemma ShortTestsSucceed(st: PositionState)
    requires st.WellFormed() && InRange(st) && 0 < st.poolUusd + st.uusdBalance
    ensures forall w: nat :: w <= st.lpTokenAmount ==> ShortTest(st, w).Ok?
  {
    forall w: nat | w <= st.lpTokenAmount
      ensures ShortTest(st, w).Ok?
    {
      ShortProbeSucceeds(st, w);
    }
  }

  /** The first search on the short side: a boundary, or one past the staked LP when not
      even that is found to be enough. */
  method FindShortWithdrawal(st: PositionState) returns (r: Result<nat>)
    requires st.WellFormed()
    ensures r.Ok? ==> r.value <= st.lpTokenAmount + 1
    ensures r.Ok? && r.value <= st.lpTokenAmount ==> NoLongerShort(st, r.value)
    ensures r.Ok? && 0 < r.value ==> StillShort(st, r.value - 1)
    ensures r.Ok? && NoLongerShort(st, st.lpTokenAmount) ==> r.value <= st.lpTokenAmount
    ensures InRange(st) && 0 < st.poolUusd + st.uusdBalance ==> r.Ok?
  {
    if InRange(st) && 0 < st.poolUusd + st.uusdBalance {
      ShortTestsSucceed(st);
    }
    r := Search((w: nat) => ShortTest(st, w), st.lpTokenAmount + 1);
  }

  /** The short-side probe in terms of what the withdrawal redeems. */
  lemma ShortProbeParts(st: PositionState, w: nat)
    requires NetShortProbe(st, w).Ok? && w <= st.lpTokenTotalSupply && 0 < st.lpTokenTotalSupply
    ensures Redeemed(st.poolMirrorAsset, w, st.lpTokenTotalSupply).Ok?
    ensures Redeemed(st.poolUusd, w, st.lpTokenTotalSupply).Ok?
    ensures var m := Redeemed(st.poolMirrorAsset, w, st.lpTokenTotalSupply).value;
            var u := Redeemed(st.poolUusd, w, st.lpTokenTotalSupply).value;
            var lp := LpLeft(st, w);
            && m <= st.poolMirrorAsset && u <= st.poolUusd && lp.Ok?
            && FromRatio(lp.value, st.lpTokenTotalSupply - w).Ok?
            && NetShortProbe(st, w) ==
                 LongAfterBuy(Holdings(st.mirrorAssetBalance + m, st.uusdBalance + u, st.poolMirrorAsset - m,
                                       st.poolUusd - u, lp.value, st.lpTokenTotalSupply - w),
                              FromRatio(lp.value, st.lpTokenTotalSupply - w).value, st.uusdBalance + u)
  {}

  lemma RedeemNothing(poolAmount: nat, supply: nat)
    requires 0 < supply
    ensures Redeemed(poolAmount, 0, supply) == Ok(0)
  {
    assert 0 * ONE / supply == 0;
    assert poolAmount * 0 / ONE == 0;
  }

  /** Spending the whole balance after a withdrawal is what the first search probed. */
  lemma ShortProbeIsBuyAll(st: PositionState, w: nat)
    requires st.WellFormed() && w <= st.lpTokenAmount
    requires NetShortProbe(st, w).Ok? && AfterWithdrawal(st, w).Ok?
    ensures var h := AfterWithdrawal(st, w).value;
            && FromRatio(h.lpToken, h.lpSupply).Ok? && FromRatio(h.lpToken, h.lpSupply).value <= ONE
            && LongAfterBuy(h, FromRatio(h.lpToken, h.lpSupply).value, h.uusd) == NetShortProbe(st, w)
  {
    WithdrawalRatio(st, w);
    ShortProbeParts(st, w);
    if w == 0 {
      RedeemNothing(st.poolMirrorAsset, st.lpTokenTotalSupply);
      RedeemNothing(st.poolUusd, st.lpTokenTotalSupply);
    }
  }

  // Buying moves the long amount by what the swap returns, less the loss of our share of it.

  lemma BuyValue(h: Holdings, lpRatio: nat, x: nat)
    requires lpRatio <= ONE && LongAfterBuy(h, lpRatio, x).Ok?
    ensures 0 < h.poolUusd + x
    ensures var r := SwapReturn(h.poolUusd, h.poolMirrorAsset, x);
            LongAfterBuy(h, lpRatio, x).value == (h.poolMirrorAsset - r) * lpRatio / ONE + r + h.mirrorAsset
  {}

  lemma BuyStep(h: Holdings, lpRatio: nat, x: nat, y: nat)
    requires lpRatio <= ONE && x <= y
    requires LongAfterBuy(h, lpRatio, x).Ok? && LongAfterBuy(h, lpRatio, y).Ok?
    ensures LongAfterBuy(h, lpRatio, x).value <= LongAfterBuy(h, lpRatio, y).value
    ensures var more := SwapReturn(h.poolUusd, h.poolMirrorAsset, y) - SwapReturn(h.poolUusd, h.poolMirrorAsset, x);
            LongAfterBuy(h, lpRatio, y).value <= LongAfterBuy(h, lpRatio, x).value + more
  {
    BuyValue(h, lpRatio, x);
    BuyValue(h, lpRatio, y);
    SwapReturnMono(h.poolUusd, h.poolMirrorAsset, x, y);
    var r := SwapReturn(h.poolUusd, h.poolMirrorAsset, x);
    var s := SwapReturn(h.poolUusd, h.poolMirrorAsset, y);
    FractionStep(h.poolMirrorAsset - s, s - r, lpRatio, ONE);
  }

  function BuyTest(h: Holdings, lpRatio: nat, short: nat, offer: nat): Result<bool> {
    var long :- LongAfterBuy(h, lpRatio, offer);
    Ok(long < short)
  }

  ghost predicate BuysEnough(h: Holdings, lpRatio: nat, short: nat, offer: nat) {
    LongAfterBuy(h, lpRatio, offer).Ok? && LongAfterBuy(h, lpRatio, offer).value >= short
  }

  ghost predicate BuysTooLittle(h: Holdings, lpRatio: nat, short: nat, offer: nat) {
    LongAfterBuy(h, lpRatio, offer).Ok? && LongAfterBuy(h, lpRatio, offer).value < short
  }

  ghost predicate SwapsInRange(h: Holdings) {
    && h.poolUusd + h.uusd <= U128_MAX / 2 - 1
    && h.poolMirrorAsset + h.mirrorAsset <= U128_MAX
  }

  /** The second search on the short side. */
  method FindBuyOffer(h: Holdings, lpRatio: nat, short: nat) returns (r: Result<nat>)
    ensures r.Ok? ==> r.value <= h.uusd + 1
    ensures r.Ok? && r.value <= h.uusd ==> BuysEnough(h, lpRatio, short, r.value)
    ensures r.Ok? && 0 < r.value ==> BuysTooLittle(h, lpRatio, short, r.value - 1)
    ensures lpRatio <= ONE && 0 < h.poolUusd && SwapsInRange(h) ==> r.Ok?
  {
    if lpRatio <= ONE && 0 < h.poolUusd && SwapsInRange(h) {
      forall x: nat | x <= h.uusd
        ensures LongAfterBuy(h, lpRatio, x).Ok?
      {
        BuyInRange(h.poolUusd, h.poolMirrorAsset, lpRatio, h.mirrorAsset, x);
      }
    }
    var end :- Add(h.uusd, 1);
    r := Search((x: nat) => BuyTest(h, lpRatio, short, x), end);
  }

  /** A swap that buys back to neutral: affordable, the least that leaves the position long
      or neutral, and off by less than `k` where the pool holds no more than `k` times as
      much mAsset as uusd. */
  ghost predicate BoughtToNeutral(h: Holdings, short: nat, offer: nat) {
    && FromRatio(h.lpToken, h.lpSupply).Ok?
    && var ratio := FromRatio(h.lpToken, h.lpSupply).value;
       && offer <= h.uusd
       && BuysEnough(h, ratio, short, offer)
       && (forall less: nat :: less < offer && LongAfterBuy(h, ratio, less).Ok? ==>
             BuysTooLittle(h, ratio, short, less))
       && (forall k: nat :: 0 < offer && 0 < h.poolUusd && 0 < k && h.poolMirrorAsset <= k * h.poolUusd ==>
             LongAfterBuy(h, ratio, offer).value <= short + k - 1)
  }

  lemma BuyOvershoot(h: Holdings, lpRatio: nat, short: nat, offer: nat, k: nat)
    requires lpRatio <= ONE && 0 < offer && BuysEnough(h, lpRatio, short, offer)
    requires BuysTooLittle(h, lpRatio, short, offer - 1)
    requires 0 < h.poolUusd && 0 < k && h.poolMirrorAsset <= k * h.poolUusd
    ensures LongAfterBuy(h, lpRatio, offer).value <= short + k - 1
  {
    BuyStep(h, lpRatio, offer - 1, offer);
    SwapReturnStep(h.poolUusd, h.poolMirrorAsset, offer - 1, k);
  }

  method BuyToNeutral(h: Holdings, short: nat) returns (r: Result<nat>)
    requires FromRatio(h.lpToken, h.lpSupply).Ok? && FromRatio(h.lpToken, h.lpSupply).value <= ONE
    requires BuysEnough(h, FromRatio(h.lpToken, h.lpSupply).value, short, h.uusd)
    ensures r.Ok? ==> BoughtToNeutral(h, short, r.value)
    ensures 0 < h.poolUusd && SwapsInRange(h) ==> r.Ok?
  {
    var lpRatio := FromRatio(h.lpToken, h.lpSupply).value;
    var offer :- FindBuyOffer(h, lpRatio, short);
    assert offer != h.uusd + 1;
    forall less: nat | less < offer && LongAfterBuy(h, lpRatio, less).Ok?
      ensures BuysTooLittle(h, lpRatio, short, less)
    {
      BuyStep(h, lpRatio, less, offer - 1);
    }
    forall k: nat | 0 < offer && 0 < h.poolUusd && 0 < k && h.poolMirrorAsset <= k * h.poolUusd
      ensures LongAfterBuy(h, lpRatio, offer).value <= short + k - 1
    {
      BuyOvershoot(h, lpRatio, short, offer, k);
    }
    return Ok(offer);
  }

  function NetShortMessages(withdraw: nat, offer: nat): seq<Message> {
    (if withdraw == 0 then [] else UnstakeAndWithdraw(withdraw)) + [BuyMirrorAsset(offer)]
  }

  ghost predicate NetShortOutcome(st: PositionState, plan: Plan) {
    && plan.withdraw <= st.lpTokenAmount
    && NoLongerShort(st, plan.withdraw)
    && (0 < plan.withdraw ==> StillShort(st, plan.withdraw - 1))
    && AfterWithdrawal(st, plan.withdraw).Ok?
    && BoughtToNeutral(AfterWithdrawal(st, plan.withdraw).value, st.mirrorAssetShortAmount, plan.offer)
    && plan.messages == NetShortMessages(plan.withdraw, plan.offer)
  }

  /** Liquidating `withdraw` LP tokens on the short side. An amount beyond what is staked
      cannot be unbonded. */
  method WithdrawToBuy(st: PositionState, withdraw: nat)
    returns (r: Result<Holdings>, messages: seq<Message>)
    requires st.WellFormed() && withdraw <= st.lpTokenAmount + 1
    ensures r.Ok? ==> withdraw <= st.lpTokenAmount && r == AfterWithdrawal(st, withdraw)
    ensures r.Ok? && 0 < withdraw ==> messages == UnstakeAndWithdraw(withdraw)
    ensures r.Ok? && withdraw == 0 ==> messages == []
    ensures InRange(st) && withdraw <= st.lpTokenAmount ==> r.Ok?
  {
    messages := [];
    var h := Holdings(st.mirrorAssetBalance, st.uusdBalance, st.poolMirrorAsset, st.poolUusd,
                      st.lpTokenAmount, st.lpTokenTotalSupply);
    if withdraw <= st.lpTokenAmount {
      WithdrawalConserves(st, withdraw);
    } else {
      UnbondTooMuch(st);
    }
    if withdraw > 0 {
      messages := messages + UnstakeAndWithdraw(withdraw);
      RedeemedWithin(st.poolMirrorAsset, withdraw, st.lpTokenTotalSupply);
      RedeemedWithin(st.poolUusd, withdraw, st.lpTokenTotalSupply);
      var ratio :- FromRatio(withdraw, st.lpTokenTotalSupply);
      var mirrorAsset :- MulDecimal(st.poolMirrorAsset, ratio);
      var uusd :- MulDecimal(st.poolUusd, ratio);
      var balance :- Add(h.mirrorAsset, mirrorAsset);
      var uusdBalance :- Add(h.uusd, uusd);
      var lp :- st.LpAfterUnbond(withdraw);
      h := Holdings(balance, uusdBalance, h.poolMirrorAsset - mirrorAsset, h.poolUusd - uusd,
                    lp, h.lpSupply - withdraw);
    }
    r := Ok(h);
  }

  /** More LP than is staked costs more shares than are held. */
  lemma UnbondTooMuch(st: PositionState)
    requires st.WellFormed()
    ensures st.LpAfterUnbond(st.lpTokenAmount + 1).Err?
  {
    if 0 < st.lpTokenAmount {
      var w := st.lpTokenAmount + 1;
      var a, t := st.farmLpBalance - st.farm.totalStakeBondAmount, st.farm.totalAutoBondShare;
      DivBounds(a * st.autoCompoundShare, t);
      assert st.autoCompoundShare * a == a * st.autoCompoundShare;
      DivAtLeast(w * t, a, st.autoCompoundShare);
      assert BurnedShare(st.farmLpBalance, st.farm, w).Ok? ==>
        BurnedShare(st.farmLpBalance, st.farm, w).value > st.autoCompoundShare;
    }
  }

  /** The withdrawal that a net-short plan starts with. */
  method LiquidateToBuy(st: PositionState) returns (r: Result<Holdings>, withdraw: nat, messages: seq<Message>)
    requires st.WellFormed()
    ensures r.Ok? ==>
      && withdraw <= st.lpTokenAmount && NoLongerShort(st, withdraw)
      && (0 < withdraw ==> StillShort(st, withdraw - 1))
      && r == AfterWithdrawal(st, withdraw)
      && messages == if withdraw == 0 then [] else UnstakeAndWithdraw(withdraw)
    ensures InRange(st) && 0 < st.poolUusd && NoLongerShort(st, st.lpTokenAmount) ==> r.Ok?
  {
    withdraw, messages := 0, [];
    withdraw :- FindShortWithdrawal(st);
    r, messages := WithdrawToBuy(st, withdraw);
  }

  /** The pool and the balances left by a sufficient withdrawal suffice for the swap. */
  lemma ReadyToBuy(st: PositionState, w: nat)
    requires st.WellFormed() && w <= st.lpTokenAmount && NoLongerShort(st, w) && AfterWithdrawal(st, w).Ok?
    ensures var h := AfterWithdrawal(st, w).value;
            && FromRatio(h.lpToken, h.lpSupply).Ok? && FromRatio(h.lpToken, h.lpSupply).value <= ONE
            && BuysEnough(h, FromRatio(h.lpToken, h.lpSupply).value, st.mirrorAssetShortAmount, h.uusd)
    ensures var h := AfterWithdrawal(st, w).value;
            InRange(st) && 0 < st.poolUusd ==> SwapsInRange(h) && 0 < h.poolUusd
  {
    ShortProbeIsBuyAll(st, w);
    WithdrawalConserves(st, w);
  }

  /** A withdrawal does not tip the pool: mAsset stays within `k` times uusd. */
  lemma WithdrawalKeepsBalance(st: PositionState, w: nat, k: nat)
    requires st.WellFormed() && w <= st.lpTokenAmount && AfterWithdrawal(st, w).Ok?
    requires st.poolMirrorAsset <= k * st.poolUusd
    ensures var h := AfterWithdrawal(st, w).value;
            h.poolMirrorAsset <= k * h.poolUusd
  {
    if 0 < w {
      var ratio := FromRatio(w, st.lpTokenTotalSupply).value;
      assert w * ONE == ONE * w;
      FractionAtMost(ONE, w, st.lpTokenTotalSupply);
      RemainderBalance(st.poolMirrorAsset, st.poolUusd, ratio, k);
    }
  }

  lemma RemainderBalance(m: nat, u: nat, ratio: nat, k: nat)
    requires ratio <= ONE && m <= k * u
    ensures m - m * ratio / ONE <= k * (u - u * ratio / ONE)
  {
    var taken := u * ratio / ONE;
    FractionStep(m, k * u - m, ratio, ONE);
    assert k * taken <= k * u * ratio / ONE by {
      DivBounds(u * ratio, ONE);
      MulMono(taken * ONE, u * ratio, k);
      assert k * taken * ONE == taken * ONE * k;
      assert k * u * ratio == u * ratio * k;
      DivAtLeast(k * u * ratio, ONE, k * taken);
    }
    assert k * (u - taken) == k * u - k * taken;
  }

  method RebalanceNetShort(st: PositionState) returns (r: Result<Plan>)
    requires st.WellFormed()
    ensures r.Ok? ==> NetShortOutcome(st, r.value)
    ensures InRange(st) && 0 < st.poolUusd && NoLongerShort(st, st.lpTokenAmount) ==> r.Ok?
  {
    var h, withdraw, messages :- LiquidateToBuy(st);
    ReadyToBuy(st, withdraw);
    var offer :- BuyToNeutral(h, st.mirrorAssetShortAmount);
    messages := messages + [BuyMirrorAsset(offer)];
    return Ok(Plan(withdraw, offer, messages));
  }

  /** Liquid and staked mAsset once the withdrawal is done, before any swap. */
  function LongBeforeSwap(h: Holdings, lpRatio: nat): nat {
    h.mirrorAsset + h.poolMirrorAsset * lpRatio / ONE
  }

  /** Withdrawing never raises the long amount above the one reported. */
  lemma WithdrawalNeverRaisesLong(st: PositionState, w: nat)
    requires st.WellFormed() && w <= st.lpTokenAmount && AfterWithdrawal(st, w).Ok?
    ensures var h := AfterWithdrawal(st, w).value;
            && FromRatio(h.lpToken, h.lpSupply).Ok?
            && LongBeforeSwap(h, FromRatio(h.lpToken, h.lpSupply).value) <= st.mirrorAssetLongAmount
  {
    WithdrawalRatio(st, w);
    WithdrawalConserves(st, w);
    var h, supply := AfterWithdrawal(st, w).value, st.lpTokenTotalSupply;
    var redeemed := h.mirrorAsset - st.mirrorAssetBalance;
    var farmed := TwoFloors(h.poolMirrorAsset, h.lpToken, h.lpSupply);
    if w == 0 {
      RedeemNothing(st.poolMirrorAsset, supply);
    }
    assert redeemed == TwoFloors(st.poolMirrorAsset, w, supply);
    SharesAdd(st.poolMirrorAsset, w, st.lpTokenAmount, supply, redeemed, h.lpToken, farmed);
    ShareAtMost(st.lpTokenAmount, st.poolMirrorAsset, supply, redeemed + farmed);
  }

  lemma ShareAtMost(lp: nat, pool: nat, supply: nat, amount: nat)
    requires 0 < supply && amount * supply <= lp * pool
    ensures amount <= lp * pool / supply
  {
    DivAtLeast(lp * pool, supply, amount);
  }

  /** A share of the pool at two floors, which take no more than the share. */
  function TwoFloors(pool: nat, lp: nat, supply: nat): (n: nat)
    requires 0 < supply
    ensures n * supply <= lp * pool
  {
    var ratio := lp * ONE / supply;
    DivBounds(lp * ONE, supply);
    DivBounds(pool * ratio, ONE);
    TwoFloorsLow(pool, lp, supply, ratio, pool * ratio / ONE);
    pool * ratio / ONE
  }

  lemma SharesAdd(pool: nat, w: nat, lp: nat, supply: nat, redeemed: nat, left: nat, farmed: nat)
    requires w <= lp < supply && left <= lp - w && redeemed <= pool
    requires redeemed * supply <= w * pool && farmed * (supply - w) <= left * (pool - redeemed)
    ensures (redeemed + farmed) * supply <= lp * pool
  {
    var rest, kept := supply - w, lp - w;
    MulMono(left, kept, pool - redeemed);
    MulMono(farmed * rest, kept * (pool - redeemed), supply);
    MulMono(redeemed * supply, w * pool, supply - lp);
    SharesSum(pool, w, lp, supply, redeemed, farmed);
    Cancel((redeemed + farmed) * supply, lp * pool, rest);
  }

  lemma SharesSum(pool: nat, w: nat, lp: nat, supply: nat, redeemed: nat, farmed: nat)
    requires w <= lp < supply && redeemed <= pool
    requires farmed * (supply - w) * supply <= (lp - w) * (pool - redeemed) * supply
    requires redeemed * supply * (supply - lp) <= w * pool * (supply - lp)
    ensures (redeemed + farmed) * supply * (supply - w) <= lp * pool * (supply - w)
  {
    RedeemedPart(pool, w, lp, supply, redeemed);
    PoolPart(pool, w, lp, supply);
    assert (redeemed + farmed) * supply * (supply - w)
        == redeemed * supply * (supply - w) + farmed * (supply - w) * supply;
  }

  lemma RedeemedPart(pool: nat, w: nat, lp: nat, supply: nat, redeemed: nat)
    requires w <= lp < supply && redeemed <= pool
    ensures redeemed * supply * (supply - w) == redeemed * supply * (supply - lp) + redeemed * supply * (lp - w)
    ensures (lp - w) * (pool - redeemed) * supply == (lp - w) * pool * supply - redeemed * supply * (lp - w)
  {
    assert (lp - w) * (pool - redeemed) == (lp - w) * pool - (lp - w) * redeemed;
    assert (lp - w) * redeemed * supply == redeemed * supply * (lp - w);
  }

  lemma PoolPart(pool: nat, w: nat, lp: nat, supply: nat)
    ensures w * pool * (supply - lp) + (lp - w) * pool * supply == lp * pool * (supply - w)
  {
    assert w * pool * (supply - lp) == w * pool * supply - w * pool * lp;
    assert (lp - w) * pool * supply == lp * pool * supply - w * pool * supply;
    assert lp * pool * (supply - w) == lp * pool * supply - lp * pool * w;
    assert w * pool * lp == lp * pool * w;
  }

  /** So a position that is net short always has something to buy. */
  lemma NetShortBuys(st: PositionState, plan: Plan)
    requires st.WellFormed() && NetShortOutcome(st, plan) && 0 < st.poolUusd
    requires st.mirrorAssetLongAmount < st.mirrorAssetShortAmount
    ensures 0 < plan.offer
  {
    WithdrawalNeverRaisesLong(st, plan.withdraw);
    WithdrawalConserves(st, plan.withdraw);
    WithdrawalRatio(st, plan.withdraw);
    var h := AfterWithdrawal(st, plan.withdraw).value;
    var ratio := FromRatio(h.lpToken, h.lpSupply).value;
    if LongAfterBuy(h, ratio, 0).Ok? {
      NothingBought(h, ratio);
    }
  }

  lemma NothingBought(h: Holdings, lpRatio: nat)
    requires 0 < h.poolUusd && LongAfterBuy(h, lpRatio, 0).Ok?
    ensures LongAfterBuy(h, lpRatio, 0).value == LongBeforeSwap(h, lpRatio)
  {
    SwapNothing(h.poolUusd, h.poolMirrorAsset);
  }

  // ----- How far a withdrawal alone can round a net-long position short. -----

  lemma LpStep(st: PositionState, w: nat)
    requires st.WellFormed() && 0 < w <= st.lpTokenAmount
    ensures LpLeft(st, w - 1).Ok? && LpLeft(st, w).Ok? && LpLeft(st, w).value <= LpLeft(st, w - 1).value
    ensures var farm := Backing(st.farmLpBalance - st.farm.totalStakeBondAmount, st.farm.totalAutoBondShare);
            && 0 < farm.backing
            && var shares := farm.shares - farm.Cost(w - 1);
               (LpLeft(st, w - 1).value - LpLeft(st, w).value) * shares <= farm.backing - (w - 1) + 2 * shares
  {
    UnbondStep(st.farmLpBalance, st.farm, st.autoCompoundShare, st.lpTokenAmount, w - 1);
    UnbondMono(st.farmLpBalance, st.farm, st.autoCompoundShare, st.lpTokenAmount, w - 1, w);
    NothingUnbonded(st);
  }

  lemma NothingUnbonded(st: PositionState)
    requires st.WellFormed() && 0 < st.lpTokenAmount
    ensures st.LpAfterUnbond(0) == Ok(st.lpTokenAmount)
  {
    UnbondWithinBalance(st.farmLpBalance, st.farm, st.autoCompoundShare, st.lpTokenAmount, 0);
    var a, t := st.farmLpBalance - st.farm.totalStakeBondAmount, st.farm.totalAutoBondShare;
    CostNothing(Backing(a, t));
  }

  lemma CostNothing(farm: Backing)
    requires 0 < farm.backing
    ensures farm.Cost(0) == 0
  {
    assert 0 * farm.shares == 0;
    if farm.Cost(0) > 0 {
      MulMono(1, farm.Cost(0), farm.backing);
      assert false;
    }
  }

  /** Where the withdrawal leaves the position short, it is short of neutral by no more than the
      mAsset behind the LP that the last token withdrawn cost, with one unit of the rounded
      ratio: less than (pool + balance) * (drop / supply left + 10^-18). */
  lemma RoundedShort(st: PositionState, w: nat)
    requires st.WellFormed() && 0 < w <= st.lpTokenAmount && AfterWithdrawal(st, w).Ok?
    requires StillLong(st, w - 1) && NoLongerLong(st, w)
    ensures var h := AfterWithdrawal(st, w).value;
            && FromRatio(h.lpToken, h.lpSupply).Ok? && LpLeft(st, w - 1).Ok? && h.lpToken <= LpLeft(st, w - 1).value
            && var lack := st.mirrorAssetShortAmount - LongBeforeSwap(h, FromRatio(h.lpToken, h.lpSupply).value);
               var held, drop := st.poolMirrorAsset + st.mirrorAssetBalance, LpLeft(st, w - 1).value - h.lpToken;
               lack * h.lpSupply * ONE < held * (drop * ONE + h.lpSupply)
  {
    WithdrawalRatio(st, w);
    WithdrawalRatio(st, w - 1);
    WithdrawalConserves(st, w);
    LpStep(st, w);
    var h := AfterWithdrawal(st, w).value;
    var held, drop := st.poolMirrorAsset + st.mirrorAssetBalance, LpLeft(st, w - 1).value - h.lpToken;
    var after := FromRatio(h.lpToken, h.lpSupply).value;
    var before := FromRatio(LpLeft(st, w - 1).value, h.lpSupply + 1).value;
    assert h.lpSupply + 1 == st.lpTokenTotalSupply - (w - 1);
    DivBounds(h.lpToken * ONE, h.lpSupply);
    DivBounds(LpLeft(st, w - 1).value * ONE, h.lpSupply + 1);
    assert held * after / ONE <= LongBeforeSwap(h, after) by {
      FractionStep(h.poolMirrorAsset, h.mirrorAsset, after, ONE);
    }
    RatioStep(h.lpToken, drop, h.lpSupply, after, before);
    ProbeStep(held, after, before, drop, h.lpSupply);
    var lack := st.mirrorAssetShortAmount - LongBeforeSwap(h, after);
    LackBound(lack, held * before / ONE - 1 - held * after / ONE, h.lpSupply);
  }

  lemma RatioStep(left: nat, drop: nat, supply: nat, after: nat, before: nat)
    requires 0 < supply && left * ONE < (after + 1) * supply && before * (supply + 1) <= (left + drop) * ONE
    ensures before * supply < (after + 1) * supply + drop * ONE
  {
    assert before * (supply + 1) == before * supply + before;
  }

  lemma ProbeStep(held: nat, after: nat, before: nat, drop: nat, supply: nat)
    requires 0 < supply && before * supply < (after + 1) * supply + drop * ONE
    ensures (held * before / ONE - 1 - held * after / ONE) * supply * ONE < held * (drop * ONE + supply) || held == 0
    ensures held == 0 ==> held * before / ONE == 0
  {
    if held > 0 {
      var p, q := held * before / ONE, held * after / ONE;
      DivBounds(held * before, ONE);
      DivBounds(held * after, ONE);
      StrictMul(held, before * supply, (after + 1) * supply + drop * ONE);
      assert held * (before * supply) == held * before * supply;
      assert held * ((after + 1) * supply + drop * ONE) == held * after * supply + held * (drop * ONE + supply);
      MulMono(p * ONE, held * before, supply);
      MulMono(held * after, (q + 1) * ONE, supply);
      assert p * ONE * supply - (q + 1) * ONE * supply == (p - 1 - q) * supply * ONE;
    } else {
      assert held * before == 0;
    }
  }

  lemma LackBound(lack: int, most: int, supply: nat)
    requires lack <= most
    ensures lack * supply * ONE <= most * supply * ONE
  {
    IntMulMono(lack, most, supply);
    assert supply * lack == lack * supply && supply * most == most * supply;
  }

  /** With nothing withdrawn it is short by at most pool / 10^18. */
  lemma RoundedShortAtOnce(st: PositionState)
    requires st.WellFormed() && st.mirrorAssetShortAmount < st.mirrorAssetLongAmount
    ensures var ratio := FromRatio(st.lpTokenAmount, st.lpTokenTotalSupply);
            && ratio.Ok?
            && var lack := st.mirrorAssetShortAmount - LongBeforeSwap(AfterWithdrawal(st, 0).value, ratio.value);
               lack * ONE <= st.poolMirrorAsset
  {
    WithdrawalRatio(st, 0);
    var lp, supply, pool := st.lpTokenAmount, st.lpTokenTotalSupply, st.poolMirrorAsset;
    OneFloorLow(pool, lp, supply);
    assert LongBeforeSwap(AfterWithdrawal(st, 0).value, FromRatio(lp, supply).value)
        == st.mirrorAssetBalance + TwoFloors(pool, lp, supply);
    LackAtOnce(st.mirrorAssetShortAmount, st.mirrorAssetBalance,
               OneFloor(pool, lp, supply), TwoFloors(pool, lp, supply), pool);
  }

  lemma LackAtOnce(short: nat, balance: nat, one: nat, two: nat, pool: nat)
    requires short < balance + one && one * ONE <= (two + 1) * ONE + pool
    ensures (short - (balance + two)) * ONE <= pool
  {}

  lemma OneFloorLow(pool: nat, lp: nat, supply: nat)
    requires 0 < supply
    ensures OneFloor(pool, lp, supply) * ONE <= (TwoFloors(pool, lp, supply) + 1) * ONE + pool
  {
    var ratio := lp * ONE / supply;
    DivBounds(lp * ONE, supply);
    DivBounds(pool * ratio, ONE);
    DivBounds(lp * pool, supply);
    OneFloorAlgebra(pool, lp, supply, ratio, TwoFloors(pool, lp, supply), OneFloor(pool, lp, supply));
  }

  /** A share of the pool at one floor. */
  function OneFloor(pool: nat, lp: nat, supply: nat): nat
    requires 0 < supply
  {
    lp * pool / supply
  }

  lemma OneFloorAlgebra(pool: nat, lp: nat, supply: nat, ratio: nat, two: nat, one: nat)
    requires 0 < supply && lp * ONE < (ratio + 1) * supply && pool * ratio < (two + 1) * ONE
    requires one * supply <= lp * pool
    ensures one * ONE <= (two + 1) * ONE + pool
  {
    MulMono(lp * ONE, (ratio + 1) * supply, pool);
    assert lp * ONE * pool == lp * pool * ONE;
    assert (ratio + 1) * supply * pool == (pool * ratio + pool) * supply;
    MulMono(pool * ratio + pool, (two + 1) * ONE + pool, supply);
    MulMono(one * supply, lp * pool, ONE);
    assert one * supply * ONE == one * ONE * supply;
    Cancel(one * ONE, (two + 1) * ONE + pool, supply);
  }

  // ----- Why the first searches find a boundary and not the least amount. -----

  /** A farm and a pool where withdrawing one LP token is enough and withdrawing two is not. */
  lemma ProbeNotMonotone()
    ensures var st := PositionState(0, 0, 6, 9, 4, 5, 12, 1, 2, 20, PoolInfo(10, 0));
            && st.WellFormed() && st.mirrorAssetLongAmount > st.mirrorAssetShortAmount
            && NoLongerLong(st, 1) && StillLong(st, 2)
  {
    var st := PositionState(0, 0, 6, 9, 4, 5, 12, 1, 2, 20, PoolInfo(10, 0));
    ProbedUnbonds();
    ProbeValue(st, 1, ONE / 2, 6);
    ProbeValue(st, 2, 666_666_666_666_666_666, 7);
  }

  lemma ProbeValue(st: PositionState, w: nat, ratio: nat, long: nat)
    requires 0 < w && st.LpAfterUnbond(w).Ok? && st.poolMirrorAsset + st.mirrorAssetBalance <= U128_MAX
    requires w < st.lpTokenTotalSupply && ratio <= ONE && long <= st.poolMirrorAsset + st.mirrorAssetBalance
    requires st.LpAfterUnbond(w).value * ONE / (st.lpTokenTotalSupply - w) == ratio
    requires (st.poolMirrorAsset + st.mirrorAssetBalance) * ratio / ONE == long
    ensures NetLongProbe(st, w) == Ok(long)
  {}

  lemma ProbedUnbonds()
    ensures SimulateUnbond(20, PoolInfo(10, 0), 2, 1) == Ok(2) && SimulateUnbond(20, PoolInfo(10, 0), 2, 2) == Ok(2)
  {
    assert BurnedShare(20, PoolInfo(10, 0), 1) == Ok(1);
    assert BurnedShare(20, PoolInfo(10, 0), 2) == Ok(1);
    assert PoolInfo(9, 0).UserAutoBalance(19, 1) == Ok(2) && PoolInfo(9, 0).UserAutoBalance(18, 1) == Ok(2);
  }

  // ----- Where the first search of the long side does find the least amount. -----

  /** The farm backs each share with one LP token. */
  predicate OnePerShare(st: PositionState) {
    st.farm.totalAutoBondShare == st.farmLpBalance - st.farm.totalStakeBondAmount
  }

  /** Unbonding from such a farm takes exactly what is withdrawn. */
  lemma OnePerShareLeft(st: PositionState, w: nat)
    requires st.WellFormed() && OnePerShare(st) && w <= st.lpTokenAmount
    ensures LpLeft(st, w) == Ok(st.lpTokenAmount - w)
  {
    if 0 < w {
      var t, share := st.farm.totalAutoBondShare, st.autoCompoundShare;
      WorthOfAll(t, share);
      BurnsOneEach(st.farmLpBalance, st.farm, w);
      if w < t {
        WorthOfAll(t - w, share - w);
      }
    }
  }

  lemma WorthOfAll(t: nat, share: nat)
    requires 0 < t
    ensures t * share / t == share
  {
    var n := t * share;
    DivAtMostExact(n, t, share);
    DivAtLeast(n, t, share);
  }

  lemma BurnsOneEach(lpBalance: nat, pool: PoolInfo, w: nat)
    requires pool.totalStakeBondAmount + pool.totalAutoBondShare == lpBalance <= U128_MAX
    requires 0 < pool.totalAutoBondShare && w <= pool.totalAutoBondShare
    ensures BurnedShare(lpBalance, pool, w) == Ok(w)
  {
    WorthOfAll(pool.totalAutoBondShare, w);
    assert w * pool.totalAutoBondShare == pool.totalAutoBondShare * w;
  }

  lemma RatioFalls(lp: nat, supply: nat, v: nat, w: nat)
    requires v <= w <= lp < supply
    ensures (lp - w) * ONE / (supply - w) <= (lp - v) * ONE / (supply - v)
  {
    var q := (lp - w) * ONE / (supply - w);
    DivBounds((lp - w) * ONE, supply - w);
    FractionAtMost(ONE, lp - w, supply - w);
    assert ONE * (lp - w) == (lp - w) * ONE;
    FallsBack(q, lp - w, supply - w, w - v);
    DivAtLeast((lp - v) * ONE, supply - v, q);
  }

  lemma FallsBack(q: nat, left: nat, supply: nat, more: nat)
    requires q * supply <= left * ONE && q <= ONE
    ensures q * (supply + more) <= (left + more) * ONE
  {
    MulMono(q, ONE, more);
  }

  /** There the long amount that the search probes does not rise with the withdrawal. */
  lemma LongProbeAntitone(st: PositionState, v: nat, w: nat)
    requires st.WellFormed() && OnePerShare(st) && v <= w <= st.lpTokenAmount
    requires st.poolMirrorAsset + st.mirrorAssetBalance <= U128_MAX
    ensures NetLongProbe(st, v).Ok? && NetLongProbe(st, w).Ok?
    ensures NetLongProbe(st, w).value <= NetLongProbe(st, v).value
  {
    ProbeOnePerShare(st, v);
    ProbeOnePerShare(st, w);
    TwoFloorsFall(st.poolMirrorAsset + st.mirrorAssetBalance, st.lpTokenAmount, st.lpTokenTotalSupply, v, w);
  }

  lemma ProbeOnePerShare(st: PositionState, w: nat)
    requires st.WellFormed() && OnePerShare(st) && w <= st.lpTokenAmount
    requires st.poolMirrorAsset + st.mirrorAssetBalance <= U128_MAX
    ensures NetLongProbe(st, w)
         == Ok(TwoFloors(st.poolMirrorAsset + st.mirrorAssetBalance, st.lpTokenAmount - w, st.lpTokenTotalSupply - w))
  {
    LongProbesSucceed(st);
    OnePerShareLeft(st, w);
  }

  lemma TwoFloorsFall(pool: nat, lp: nat, supply: nat, v: nat, w: nat)
    requires v <= w <= lp < supply
    ensures TwoFloors(pool, lp - w, supply - w) <= TwoFloors(pool, lp - v, supply - v)
  {
    RatioFalls(lp, supply, v, w);
    var before, after := (lp - v) * ONE / (supply - v), (lp - w) * ONE / (supply - w);
    MulMono(after, before, pool);
    DivMono(pool * after, pool * before, ONE);
  }

  /** There the boundary is the least sufficient withdrawal. */
  lemma BoundaryIsLeast(st: PositionState, w: nat)
    requires st.WellFormed() && OnePerShare(st) && w <= st.lpTokenAmount
    requires NoLongerLong(st, w) && (0 < w ==> StillLong(st, w - 1))
    ensures forall v: nat :: v <= st.lpTokenAmount ==> (NoLongerLong(st, v) <==> w <= v)
  {
    forall v: nat | v <= st.lpTokenAmount
      ensures NoLongerLong(st, v) <==> w <= v
    {
      if w <= v {
        LongProbeAntitone(st, w, v);
      } else {
        LongProbeAntitone(st, v, w - 1);
      }
    }
  }

  // ----- Dispatch. -----

  method AchieveDeltaNeutralFromState(st: PositionState) returns (r: Result<seq<Message>>, ghost plan: Plan)
    requires st.WellFormed()
    ensures r.Ok? ==> r.value == plan.messages
    ensures r.Ok? && st.mirrorAssetLongAmount > st.mirrorAssetShortAmount ==> NetLongOutcome(st, plan)
    ensures r.Ok? && st.mirrorAssetLongAmount < st.mirrorAssetShortAmount ==> NetShortOutcome(st, plan)
    ensures st.mirrorAssetLongAmount == st.mirrorAssetShortAmount ==> r == Ok([])
    ensures InRange(st) && 0 < st.poolUusd && st.mirrorAssetLongAmount > st.mirrorAssetShortAmount ==> r.Ok?
    ensures InRange(st) && 0 < st.poolUusd && NoLongerShort(st, st.lpTokenAmount) ==> r.Ok?
  {
    plan := Plan(0, 0, []);
    if st.mirrorAssetLongAmount > st.mirrorAssetShortAmount {
      var p :- RebalanceNetLong(st);
      plan := p;
      r := Ok(p.messages);
    } else if st.mirrorAssetLongAmount < st.mirrorAssetShortAmount {
      var p :- RebalanceNetShort(st);
      plan := p;
      r := Ok(p.messages);
    } else {
      r := Ok([]);
    }
  }
}
