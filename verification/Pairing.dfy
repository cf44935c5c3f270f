/** Pairing the liquid uusd and mAsset of a position to provide liquidity. */
module Pairing {
  import opened Results
  import opened FixedPoint
  import opened Terraswap
  import opened Rebalance

  datatype Pool = Pool(uusd: nat, mirrorAsset: nat, lpSupply: nat)

  /** Amounts to provide and LP tokens to stake; all zero when there is nothing to pair. */
  datatype Provision = Provision(uusd: nat, mirrorAsset: nat, lp: nat)

  const NOTHING := Provision(0, 0, 0)

  function Pair(pool: Pool, uusdBalance: nat, mirrorAssetBalance: nat, farmExists: bool): Result<Provision> {
    if mirrorAssetBalance == 0 || uusdBalance == 0 || !farmExists then Ok(NOTHING)
    else
      var uusdRatio :- FromRatio(uusdBalance, pool.uusd);
      var mirrorAssetRatio :- FromRatio(mirrorAssetBalance, pool.mirrorAsset);
      var ratio := Min(uusdRatio, mirrorAssetRatio);
      var uusd :- MulDecimal(pool.uusd, ratio);
      var mirrorAsset :- MulDecimal(pool.mirrorAsset, ratio);
      if uusd == 0 || mirrorAsset == 0 then Ok(NOTHING)
      else
        var lp :- LiquidityTokenMintAmount(uusd, mirrorAsset, pool.uusd, pool.mirrorAsset, pool.lpSupply);
        if lp == 0 then Ok(NOTHING) else Ok(Provision(uusd, mirrorAsset, lp))
  }

  /** The pool once a provision has been made. */
  function Provided(pool: Pool, p: Provision): Pool {
    Pool(pool.uusd + p.uusd, pool.mirrorAsset + p.mirrorAsset, pool.lpSupply + p.lp)
  }

  lemma PortionWithinBalance(balance: nat, pool: nat, ratio: nat)
    requires 0 < pool && ratio <= balance * ONE / pool
    ensures pool * ratio / ONE <= balance
  {
    DivBounds(balance * ONE, pool);
    assert pool * ratio <= balance * ONE by {
      MulMono(ratio, balance * ONE / pool, pool);
      assert ratio * pool == pool * ratio;
    }
    DivAtMostExact(pool * ratio, ONE, balance);
  }

  /** What the pair mints never exceeds either side's proportion of the supply. */
  lemma MintedWithin(provide: nat, pool: nat, supply: nat, lp: nat)
    requires 0 < pool && lp <= provide * supply / pool
    ensures lp * pool <= provide * supply
  {
    DivBounds(provide * supply, pool);
    MulMono(lp, provide * supply / pool, pool);
  }

  /** The largest ratio of the pool that both balances can match. */
  predicate IsRatio(pool: Pool, uusdBalance: nat, mirrorAssetBalance: nat, ratio: nat) {
    && ratio * pool.uusd <= uusdBalance * ONE && ratio * pool.mirrorAsset <= mirrorAssetBalance * ONE
    && (uusdBalance * ONE < (ratio + 1) * pool.uusd || mirrorAssetBalance * ONE < (ratio + 1) * pool.mirrorAsset)
  }

  /** That ratio of either reserve, rounded down, for the largest amount of LP tokens in proportion. */
  predicate IsProvision(pool: Pool, ratio: nat, p: Provision) {
    && p.uusd * ONE <= pool.uusd * ratio < (p.uusd + 1) * ONE
    && p.mirrorAsset * ONE <= pool.mirrorAsset * ratio < (p.mirrorAsset + 1) * ONE
    && p.lp * pool.uusd <= p.uusd * pool.lpSupply && p.lp * pool.mirrorAsset <= p.mirrorAsset * pool.lpSupply
    && (p.uusd * pool.lpSupply < (p.lp + 1) * pool.uusd
        || p.mirrorAsset * pool.lpSupply < (p.lp + 1) * pool.mirrorAsset)
  }

  /** What is paired is just that, unless some amount is zero: then it is nothing. */
  lemma PairExact(pool: Pool, uusdBalance: nat, mirrorAssetBalance: nat, farmExists: bool, ratio: nat, p: Provision)
    requires 0 < pool.lpSupply && Pair(pool, uusdBalance, mirrorAssetBalance, farmExists).Ok?
    requires IsRatio(pool, uusdBalance, mirrorAssetBalance, ratio) && IsProvision(pool, ratio, p)
    ensures Pair(pool, uusdBalance, mirrorAssetBalance, farmExists) ==
            if !farmExists || uusdBalance == 0 || mirrorAssetBalance == 0
               || p.uusd == 0 || p.mirrorAsset == 0 || p.lp == 0
            then Ok(NOTHING) else Ok(p)
  {
    if farmExists && 0 < uusdBalance && 0 < mirrorAssetBalance {
      WithinQuotient(uusdBalance * ONE, pool.uusd, ratio);
      WithinQuotient(uusdBalance * ONE, pool.uusd, ratio + 1);
      WithinQuotient(mirrorAssetBalance * ONE, pool.mirrorAsset, ratio);
      WithinQuotient(mirrorAssetBalance * ONE, pool.mirrorAsset, ratio + 1);
      WithinQuotient(pool.uusd * ratio, ONE, p.uusd);
      WithinQuotient(pool.uusd * ratio, ONE, p.uusd + 1);
      WithinQuotient(pool.mirrorAsset * ratio, ONE, p.mirrorAsset);
      WithinQuotient(pool.mirrorAsset * ratio, ONE, p.mirrorAsset + 1);
      if 0 < p.uusd && 0 < p.mirrorAsset {
        MintIsLargest(p.uusd, p.mirrorAsset, pool.uusd, pool.mirrorAsset, pool.lpSupply, p.lp);
        MintIsLargest(p.uusd, p.mirrorAsset, pool.uusd, pool.mirrorAsset, pool.lpSupply, p.lp + 1);
      }
    }
  }

  /** A provision never uses more than is held, and never lowers either reserve per LP token. */
  lemma PairingIsFair(pool: Pool, uusdBalance: nat, mirrorAssetBalance: nat, farmExists: bool)
    requires 0 < pool.lpSupply && Pair(pool, uusdBalance, mirrorAssetBalance, farmExists).Ok?
    ensures var p := Pair(pool, uusdBalance, mirrorAssetBalance, farmExists).value;
            var after := Provided(pool, p);
            && p.uusd <= uusdBalance && p.mirrorAsset <= mirrorAssetBalance
            && (p == NOTHING || (0 < p.uusd && 0 < p.mirrorAsset && 0 < p.lp))
            && p.lp * pool.uusd <= p.uusd * pool.lpSupply
            && p.lp * pool.mirrorAsset <= p.mirrorAsset * pool.lpSupply
            && after.uusd * pool.lpSupply >= pool.uusd * after.lpSupply
            && after.mirrorAsset * pool.lpSupply >= pool.mirrorAsset * after.lpSupply
  {
    var p := Pair(pool, uusdBalance, mirrorAssetBalance, farmExists).value;
    if p == NOTHING {
    } else {
      var ratio := Min(FromRatio(uusdBalance, pool.uusd).value, FromRatio(mirrorAssetBalance, pool.mirrorAsset).value);
      PortionWithinBalance(uusdBalance, pool.uusd, ratio);
      PortionWithinBalance(mirrorAssetBalance, pool.mirrorAsset, ratio);
      MintedWithin(p.uusd, pool.uusd, pool.lpSupply, p.lp);
      MintedWithin(p.mirrorAsset, pool.mirrorAsset, pool.lpSupply, p.lp);
      ReservePerToken(pool.uusd, p.uusd, pool.lpSupply, p.lp);
      ReservePerToken(pool.mirrorAsset, p.mirrorAsset, pool.lpSupply, p.lp);
    }
  }

  lemma ReservePerToken(pool: nat, provide: nat, supply: nat, lp: nat)
    requires lp * pool <= provide * supply
    ensures (pool + provide) * supply >= pool * (supply + lp)
  {
    assert (pool + provide) * supply == pool * supply + provide * supply;
    assert pool * (supply + lp) == pool * supply + lp * pool;
  }

  /** Redeeming all that a provision minted returns no more of either asset than it put in. */
  lemma ProvideThenWithdraw(pool: Pool, uusdBalance: nat, mirrorAssetBalance: nat, farmExists: bool)
    requires 0 < pool.lpSupply && Pair(pool, uusdBalance, mirrorAssetBalance, farmExists).Ok?
    ensures var p := Pair(pool, uusdBalance, mirrorAssetBalance, farmExists).value;
            var after := Provided(pool, p);
            && (Redeemed(after.uusd, p.lp, after.lpSupply).Ok? ==>
                  Redeemed(after.uusd, p.lp, after.lpSupply).value <= p.uusd)
            && (Redeemed(after.mirrorAsset, p.lp, after.lpSupply).Ok? ==>
                  Redeemed(after.mirrorAsset, p.lp, after.lpSupply).value <= p.mirrorAsset)
  {
    PairingIsFair(pool, uusdBalance, mirrorAssetBalance, farmExists);
    var p := Pair(pool, uusdBalance, mirrorAssetBalance, farmExists).value;
    NoMoreBack(pool.uusd, p.uusd, pool.lpSupply, p.lp);
    NoMoreBack(pool.mirrorAsset, p.mirrorAsset, pool.lpSupply, p.lp);
  }

  lemma NoMoreBack(pool: nat, provide: nat, supply: nat, lp: nat)
    requires 0 < supply && lp * pool <= provide * supply
    ensures (pool + provide) * (lp * ONE / (supply + lp)) / ONE <= provide
  {
    var all := supply + lp;
    var ratio := lp * ONE / all;
    DivBounds(lp * ONE, all);
    assert (pool + provide) * ratio <= provide * ONE by {
      WithinShare(pool, provide, supply, lp, ratio);
    }
    DivAtMostExact((pool + provide) * ratio, ONE, provide);
  }

  lemma WithinShare(pool: nat, provide: nat, supply: nat, lp: nat, ratio: nat)
    requires 0 < supply && lp * pool <= provide * supply && ratio * (supply + lp) <= lp * ONE
    ensures (pool + provide) * ratio <= provide * ONE
  {
    var all := supply + lp;
    var back := (pool + provide) * ratio;
    assert (pool + provide) * lp <= provide * all by {
      assert (pool + provide) * lp == lp * pool + provide * lp;
      assert provide * all == provide * supply + provide * lp;
    }
    assert back * all <= (pool + provide) * lp * ONE by {
      MulMono(ratio * all, lp * ONE, pool + provide);
      assert back * all == ratio * all * (pool + provide);
      assert lp * ONE * (pool + provide) == (pool + provide) * lp * ONE;
    }
    assert provide * all * ONE == provide * ONE * all;
    if back > provide * ONE {
      StrictMul(all, provide * ONE, back);
      assert false;
    }
  }
}
