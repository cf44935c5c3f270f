/** Share accounting of the Spectrum farm: auto-compound shares against the LP tokens
    that back them. */
module Spectrum {
  import opened Results
  import opened FixedPoint

  /** The farm's pool: auto-compound shares in all, and the LP amount of its auto-stake side. */
  datatype PoolInfo = PoolInfo(totalAutoBondShare: nat, totalStakeBondAmount: nat) {

    /** Shares worth `amount` LP tokens, rounded down. */
    function AutoBondShare(amount: nat, lpBalance: nat): Result<nat> {
      var totalAutoBondAmount :- Sub(lpBalance, totalStakeBondAmount);
      if totalAutoBondShare == 0 || totalAutoBondAmount == 0 then Ok(amount)
      else MulRatio(amount, totalAutoBondShare, totalAutoBondAmount)
    }

    /** LP tokens worth `share` shares, rounded down. */
    function UserAutoBalance(lpBalance: nat, share: nat): Result<nat> {
      if totalAutoBondShare == 0 then Ok(0)
      else
        var totalAutoBondAmount :- Sub(lpBalance, totalStakeBondAmount);
        MulRatio(totalAutoBondAmount, share, totalAutoBondShare)
    }
  }

  /** The shares an unbond of `withdraw` burns. */
  function BurnedShare(lpBalance: nat, pool: PoolInfo, withdraw: nat): Result<nat> {
    var share :- pool.AutoBondShare(withdraw, lpBalance);
    var worth :- pool.UserAutoBalance(lpBalance, share);
    if worth < withdraw then Add(share, 1) else Ok(share)
  }

  /** LP tokens left to a staker of `userShare` shares after unbonding `withdraw`. */
  function SimulateUnbond(lpBalance: nat, pool: PoolInfo, userShare: nat, withdraw: nat): Result<nat> {
    var burned :- BurnedShare(lpBalance, pool, withdraw);
    var totalShare :- Sub(pool.totalAutoBondShare, burned);
    var balance :- Sub(lpBalance, withdraw);
    var share :- Sub(userShare, burned);
    pool.(totalAutoBondShare := totalShare).UserAutoBalance(balance, share)
  }

  // ----- The farm in terms of its backing. -----

  /** A farm whose `shares` auto-compound shares are backed by `backing` LP tokens. */
  datatype Backing = Backing(backing: nat, shares: nat) {

    /** LP tokens behind `share` of the shares. */
    function Worth(share: nat): nat {
      if shares == 0 then 0 else backing * share / shares
    }

    /** The fewest shares that are worth at least `withdraw`. */
    function Cost(withdraw: nat): (c: nat)
      requires 0 < backing
      ensures withdraw * shares <= c * backing < withdraw * shares + backing
    {
      var n := withdraw * shares;
      DivBounds(n + (backing - 1), backing);
      var c := (n + (backing - 1)) / backing;
      assert (c + 1) * backing == c * backing + backing;
      c
    }

    predicate CanUnbond(withdraw: nat) {
      0 < backing && withdraw <= backing && Cost(withdraw) <= shares
    }

    function Unbond(withdraw: nat): Backing
      requires CanUnbond(withdraw)
    {
      Backing(backing - withdraw, shares - Cost(withdraw))
    }
  }

  lemma CeilFromFloor(w: nat, t: nat, a: nat, c: nat)
    requires 0 < a && w * t <= c * a < w * t + a
    ensures var q := w * t / a;
            c == if q * a < w * t then q + 1 else q
  {
    var q := w * t / a;
    DivBounds(w * t, a);
    assert (q + 1) * a == q * a + a;
    if c < q {
      assert (c + 1) * a == c * a + a;
      MulMono(c + 1, q, a);
      assert false;
    } else if c > q + 1 {
      assert (q + 2) * a == q * a + a + a;
      MulMono(q + 2, c, a);
      assert false;
    } else if c == q + 1 && q * a == w * t {
      assert false;
    }
  }

  lemma FloorBelow(n: nat, t: nat, w: nat)
    requires 0 < t && n <= w * t
    ensures n / t <= w && (n / t < w <==> n < w * t)
  {
    DivAtMostExact(n, t, w);
    if n / t < w {
      DivBounds(n, t);
      MulMono(n / t + 1, w, t);
    } else {
      DivBounds(n, t);
    }
  }

  /** Shares worth `w` rounded down are worth less than `w` exactly when there was something to
      round. */
  lemma FloorWorth(w: nat, t: nat, a: nat)
    requires 0 < a && 0 < t
    ensures var q := w * t / a;
            a * q / t <= w && (a * q / t < w <==> q * a < w * t)
  {
    var n, q := w * t, w * t / a;
    DivBounds(n, a);
    var m := a * q;
    assert m == q * a;
    FloorBelow(m, t, w);
  }

  /** An unbond burns exactly ceil(withdraw * shares / backing) shares. */
  lemma BurnsCeiling(lpBalance: nat, pool: PoolInfo, withdraw: nat)
    requires pool.totalStakeBondAmount < lpBalance && 0 < pool.totalAutoBondShare
    requires lpBalance < U128_MAX
    requires var farm := Backing(lpBalance - pool.totalStakeBondAmount, pool.totalAutoBondShare);
             withdraw <= farm.backing && farm.Cost(withdraw) <= U128_MAX
    ensures var farm := Backing(lpBalance - pool.totalStakeBondAmount, pool.totalAutoBondShare);
            BurnedShare(lpBalance, pool, withdraw) == Ok(farm.Cost(withdraw))
  {
    var a := lpBalance - pool.totalStakeBondAmount;
    var t := pool.totalAutoBondShare;
    var c := Backing(a, t).Cost(withdraw);
    var q := withdraw * t / a;
    CeilFromFloor(withdraw, t, a, c);
    FloorWorth(withdraw, t, a);
    assert pool.AutoBondShare(withdraw, lpBalance) == MulRatio(withdraw, t, a) == Ok(q);
    assert pool.UserAutoBalance(lpBalance, q) == MulRatio(a, q, t) == Ok(a * q / t);
  }

  /** The share price `backing / shares` does not fall when shares are burned for LP tokens. */
  lemma UnbondKeepsPrice(farm: Backing, withdraw: nat)
    requires farm.CanUnbond(withdraw)
    ensures var after := farm.Unbond(withdraw);
            after.backing * farm.shares >= farm.backing * after.shares
  {
    var c := farm.Cost(withdraw);
    assert (farm.backing - withdraw) * farm.shares == farm.backing * farm.shares - withdraw * farm.shares;
    assert farm.backing * (farm.shares - c) == farm.backing * farm.shares - c * farm.backing;
  }

  /** A better price is worth at least as much for the same shares. */
  lemma WorthByPrice(before: Backing, after: Backing, share: nat)
    requires after.backing * before.shares >= before.backing * after.shares
    requires 0 < after.shares
    ensures before.Worth(share) <= after.Worth(share)
  {
    if before.shares > 0 {
      var q := before.Worth(share);
      DivBounds(before.backing * share, before.shares);
      PriceAlgebra(before.backing, before.shares, after.backing, after.shares, share, q);
      DivAtLeast(after.backing * share, after.shares, q);
    }
  }

  lemma PriceAlgebra(a: nat, t: nat, a': nat, t': nat, s: nat, q: nat)
    requires 0 < t && a' * t >= a * t' && q * t <= a * s
    ensures q * t' <= a' * s
  {
    if q * t' > a' * s {
      assert q * t' * t == q * t * t';
      assert a * s * t' == a * t' * s;
      assert a' * t * s == a' * s * t;
      MulMono(q * t, a * s, t');
      MulMono(a * t', a' * t, s);
      StrictMul(t, a' * s, q * t');
      assert false;
    }
  }

  /** A farm after unbonding the amounts of `withdrawals` in turn. */
  function UnbondAll(farm: Backing, withdrawals: seq<nat>): Option<Backing>
    decreases |withdrawals|
  {
    if |withdrawals| == 0 then Some(farm)
    else if !farm.CanUnbond(withdrawals[0]) then None
    else UnbondAll(farm.Unbond(withdrawals[0]), withdrawals[1..])
  }

  /** Over any sequence of unbonds the LP value per remaining share never falls, so that
      whoever keeps their shares keeps at least their LP balance. */
  lemma {:induction false} PriceNeverFalls(farm: Backing, withdrawals: seq<nat>, share: nat)
    requires UnbondAll(farm, withdrawals).Some?
    ensures var after := UnbondAll(farm, withdrawals).value;
            && after.backing * farm.shares >= farm.backing * after.shares
            && (share <= after.shares ==> farm.Worth(share) <= after.Worth(share))
    decreases |withdrawals|
  {
    if |withdrawals| > 0 {
      var next := farm.Unbond(withdrawals[0]);
      UnbondKeepsPrice(farm, withdrawals[0]);
      PriceNeverFalls(next, withdrawals[1..], share);
      var after := UnbondAll(farm, withdrawals).value;
      if next.shares == 0 {
        UnbondLowersShares(next, withdrawals[1..]);
      } else {
        PriceAlgebra(farm.backing, farm.shares, next.backing, next.shares, 0, 0);
        PriceTransitive(farm, next, after);
      }
      if 0 < share <= after.shares {
        WorthByPrice(farm, after, share);
      }
    }
  }

  lemma {:induction false} UnbondLowersShares(farm: Backing, withdrawals: seq<nat>)
    requires UnbondAll(farm, withdrawals).Some?
    ensures UnbondAll(farm, withdrawals).value.shares <= farm.shares
    decreases |withdrawals|
  {
    if |withdrawals| > 0 {
      UnbondLowersShares(farm.Unbond(withdrawals[0]), withdrawals[1..]);
    }
  }

  lemma PriceTransitive(x: Backing, y: Backing, z: Backing)
    requires 0 < y.shares
    requires y.backing * x.shares >= x.backing * y.shares
    requires z.backing * y.shares >= y.backing * z.shares
    ensures z.backing * x.shares >= x.backing * z.shares
  {
    if z.backing * x.shares < x.backing * z.shares {
      assert z.backing * x.shares * y.shares == z.backing * y.shares * x.shares;
      assert x.backing * z.shares * y.shares == x.backing * y.shares * z.shares;
      assert y.backing * z.shares * x.shares == y.backing * x.shares * z.shares;
      MulMono(y.backing * z.shares, z.backing * y.shares, x.shares);
      MulMono(x.backing * y.shares, y.backing * x.shares, z.shares);
      StrictMul(y.shares, z.backing * x.shares, x.backing * z.shares);
      assert false;
    }
  }

  // ----- One staker's unbond. -----

  /** A staker's view of the farm: at least one LP token behind every share, and a balance
      that is the floor of the shares' worth. */
  ghost predicate Staked(lpBalance: nat, pool: PoolInfo, share: nat, lpAmount: nat) {
    && pool.totalStakeBondAmount <= lpBalance < U128_MAX
    && share <= pool.totalAutoBondShare <= lpBalance - pool.totalStakeBondAmount
    && lpAmount == Backing(lpBalance - pool.totalStakeBondAmount, pool.totalAutoBondShare).Worth(share)
  }

  lemma CostWithin(farm: Backing, share: nat, w: nat)
    requires 0 < farm.backing && w * farm.shares <= farm.backing * share
    ensures farm.Cost(w) <= share
  {
    var c := farm.Cost(w);
    if c > share {
      assert (share + 1) * farm.backing == farm.backing * share + farm.backing;
      MulMono(share + 1, c, farm.backing);
      assert false;
    }
  }

  /** Unbonding up to one's balance succeeds, burns the ceiling, and leaves the floor of
      what the remaining shares are worth: no more than the balance less `withdraw`. */
  lemma UnbondWithinBalance(lpBalance: nat, pool: PoolInfo, share: nat, lpAmount: nat, withdraw: nat)
    requires Staked(lpBalance, pool, share, lpAmount) && withdraw <= lpAmount && 0 < lpAmount
    ensures var farm := Backing(lpBalance - pool.totalStakeBondAmount, pool.totalAutoBondShare);
            && farm.CanUnbond(withdraw) && farm.Cost(withdraw) <= share
            && var rest := farm.Unbond(withdraw).Worth(share - farm.Cost(withdraw));
               && SimulateUnbond(lpBalance, pool, share, withdraw) == Ok(rest)
               && rest <= lpAmount - withdraw
  {
    var farm := Backing(lpBalance - pool.totalStakeBondAmount, pool.totalAutoBondShare);
    var a, t := farm.backing, farm.shares;
    assert 0 < t;
    assert 0 < a;
    assert lpAmount <= a by {
      assert a * share <= a * t by { MulMono(share, t, a); }
      DivAtMostExact(a * share, t, a);
    }
    assert withdraw * t <= a * share by {
      DivBounds(a * share, t);
      MulMono(withdraw, lpAmount, t);
    }
    CostWithin(farm, share, withdraw);
    BurnsCeiling(lpBalance, pool, withdraw);
    var c := farm.Cost(withdraw);
    var after := farm.Unbond(withdraw);
    if after.shares > 0 {
      var rest := after.Worth(share - c);
      DivBounds(after.backing * (share - c), after.shares);
      RestAlgebra(a, t, share, withdraw, c, rest);
      DivAtLeast(a * share, t, rest + withdraw);
      assert rest <= lpAmount;
    }
  }

  lemma RestAlgebra(a: nat, t: nat, s: nat, w: nat, c: nat, rest: nat)
    requires c <= s <= t && w <= a && c < t
    requires w * t <= c * a
    requires rest * (t - c) <= (a - w) * (s - c)
    ensures (rest + w) * t <= a * s
  {
    // The others' e shares are worth as many tokens as before, or more.
    var p, x, e := a - w, t - c, t - s;
    var d := p - rest;
    assert d * x >= p * e by {
      assert d * x == p * x - rest * x;
      assert p * (s - c) == p * x - p * e;
    }
    assert p * t >= a * x by {
      assert p * t == a * t - w * t;
      assert a * x == a * t - c * a;
    }
    OthersKeep(a, t, p, x, e, d);
    assert (rest + w) * t == a * t - d * t;
    assert a * s == a * t - a * e;
  }

  lemma OthersKeep(a: nat, t: nat, p: nat, x: nat, e: nat, d: int)
    requires 0 < x && d * x >= p * e && p * t >= a * x
    ensures d * t >= a * e
  {
    assert d * x * t >= p * e * t;
    assert p * t * e >= a * x * e by { MulMono(a * x, p * t, e); }
    assert p * e * t == p * t * e;
    assert d * x * t == (d * t) * x;
    assert a * x * e == (a * e) * x;
    Cancel(a * e, d * t, x);
  }

  /** Unbonding the whole balance empties the position. */
  lemma UnbondEverything(lpBalance: nat, pool: PoolInfo, share: nat, lpAmount: nat)
    requires Staked(lpBalance, pool, share, lpAmount) && 0 < lpAmount
    ensures BurnedShare(lpBalance, pool, lpAmount) == Ok(share)
    ensures SimulateUnbond(lpBalance, pool, share, lpAmount) == Ok(0)
  {
    UnbondWithinBalance(lpBalance, pool, share, lpAmount, lpAmount);
    var farm := Backing(lpBalance - pool.totalStakeBondAmount, pool.totalAutoBondShare);
    var c := farm.Cost(lpAmount);
    DivBounds(farm.backing * share, farm.shares);
    CostOfAll(farm.backing, farm.shares, share, lpAmount, c);
    BurnsCeiling(lpBalance, pool, lpAmount);
    assert farm.Unbond(lpAmount).Worth(0) == 0;
  }

  lemma CostOfAll(a: nat, t: nat, s: nat, lp: nat, c: nat)
    requires 0 < t <= a && c <= s && a * s < (lp + 1) * t && lp * t <= c * a
    ensures c == s
  {
    if c < s {
      assert (lp + 1) * t == lp * t + t;
      assert (c + 1) * a == c * a + a;
      assert s * a == a * s;
      MulMono(c + 1, s, a);
      assert false;
    }
  }

  /** The more is unbonded, the less is left. */
  lemma UnbondMono(lpBalance: nat, pool: PoolInfo, share: nat, lpAmount: nat, w: nat, v: nat)
    requires Staked(lpBalance, pool, share, lpAmount) && 0 < lpAmount && w <= v <= lpAmount
    ensures SimulateUnbond(lpBalance, pool, share, w).Ok? && SimulateUnbond(lpBalance, pool, share, v).Ok?
    ensures SimulateUnbond(lpBalance, pool, share, v).value <= SimulateUnbond(lpBalance, pool, share, w).value
  {
    UnbondWithinBalance(lpBalance, pool, share, lpAmount, w);
    UnbondWithinBalance(lpBalance, pool, share, lpAmount, v);
    var farm := Backing(lpBalance - pool.totalStakeBondAmount, pool.totalAutoBondShare);
    var a, t := farm.backing, farm.shares;
    var c, d := farm.Cost(w), farm.Cost(v);
    CostMono(farm, w, v);
    if t - d > 0 {
      RestMono(a, t, share, w, v, c, d);
    }
  }

  lemma RestMono(a: nat, t: nat, s: nat, w: nat, v: nat, c: nat, d: nat)
    requires w <= v <= a && c <= d <= s <= t && d < t
    ensures (a - v) * (s - d) / (t - d) <= (a - w) * (s - c) / (t - c)
  {
    var q := (a - v) * (s - d) / (t - d);
    DivBounds((a - v) * (s - d), t - d);
    MonoAlgebra(a, t, s, w, v, c, d, q);
    DivAtLeast((a - w) * (s - c), t - c, q);
  }

  lemma CostMono(farm: Backing, w: nat, v: nat)
    requires 0 < farm.backing && w <= v
    ensures farm.Cost(w) <= farm.Cost(v)
  {
    MulMono(w, v, farm.shares);
    var c, d := farm.Cost(w), farm.Cost(v);
    if d < c {
      assert (d + 1) * farm.backing == d * farm.backing + farm.backing;
      MulMono(d + 1, c, farm.backing);
      assert false;
    }
  }

  lemma MonoAlgebra(a: nat, t: nat, s: nat, w: nat, v: nat, c: nat, d: nat, q: nat)
    requires w <= v <= a && c <= d <= s <= t && d < t
    requires q * (t - d) <= (a - v) * (s - d)
    ensures q * (t - c) <= (a - w) * (s - c)
  {
    // q <= (a - v)(s - d)/(t - d) <= a - v, so the d - c shares put back add no more to
    // the left side than to the right.
    assert q <= a - v by {
      MulMono(s - d, t - d, a - v);
      if q > a - v {
        StrictMul(t - d, a - v, q);
        assert false;
      }
    }
    assert q * (t - c) == q * (t - d) + q * (d - c);
    assert q * (d - c) <= (a - v) * (d - c) by { MulMono(q, a - v, d - c); }
    assert (a - v) * (s - d) + (a - v) * (d - c) == (a - v) * (s - c);
    MulMono(a - v, a - w, s - c);
  }

  /** Unbonding one LP token more burns at most one share more. */
  lemma CostStep(farm: Backing, w: nat)
    requires 0 < farm.backing && farm.shares <= farm.backing
    ensures farm.Cost(w) <= farm.Cost(w + 1) <= farm.Cost(w) + 1
  {
    CostMono(farm, w, w + 1);
    var a, t, c, d := farm.backing, farm.shares, farm.Cost(w), farm.Cost(w + 1);
    assert (w + 1) * t == w * t + t;
    if d > c + 1 {
      assert (c + 2) * a == c * a + 2 * a;
      MulMono(c + 2, d, a);
      assert false;
    }
  }

  /** What is left by unbonding, as the worth of the remaining shares. */
  lemma LeftIsWorth(lpBalance: nat, pool: PoolInfo, share: nat, lpAmount: nat, w: nat)
    requires Staked(lpBalance, pool, share, lpAmount) && w <= lpAmount && 0 < lpAmount
    ensures var farm := Backing(lpBalance - pool.totalStakeBondAmount, pool.totalAutoBondShare);
            && farm.CanUnbond(w) && farm.Cost(w) <= share <= farm.shares <= farm.backing && w <= farm.backing
            && SimulateUnbond(lpBalance, pool, share, w)
               == Ok(Backing(farm.backing - w, farm.shares - farm.Cost(w)).Worth(share - farm.Cost(w)))
  {
    UnbondWithinBalance(lpBalance, pool, share, lpAmount, w);
  }

  /** Unbonding one LP token more leaves less by at most two tokens and the worth of one share. */
  lemma UnbondStep(lpBalance: nat, pool: PoolInfo, share: nat, lpAmount: nat, w: nat)
    requires Staked(lpBalance, pool, share, lpAmount) && w < lpAmount
    ensures SimulateUnbond(lpBalance, pool, share, w).Ok? && SimulateUnbond(lpBalance, pool, share, w + 1).Ok?
    ensures var farm := Backing(lpBalance - pool.totalStakeBondAmount, pool.totalAutoBondShare);
            && 0 < farm.backing
            && var shares := farm.shares - farm.Cost(w);
               var left := SimulateUnbond(lpBalance, pool, share, w);
               var next := SimulateUnbond(lpBalance, pool, share, w + 1);
               (left.value - next.value) * shares <= farm.backing - w + 2 * shares
  {
    LeftIsWorth(lpBalance, pool, share, lpAmount, w);
    LeftIsWorth(lpBalance, pool, share, lpAmount, w + 1);
    var farm := Backing(lpBalance - pool.totalStakeBondAmount, pool.totalAutoBondShare);
    CostStep(farm, w);
    WorthStep(farm.backing - w, farm.shares - farm.Cost(w), share - farm.Cost(w), farm.Cost(w + 1) - farm.Cost(w));
  }

  /** One token and at most one share less, of `s` shares of a farm. */
  lemma WorthStep(a: nat, t: nat, s: nat, e: nat)
    requires 0 < a && e <= 1 && e <= s <= t
    ensures (Backing(a, t).Worth(s) - Backing(a - 1, t - e).Worth(s - e)) * t <= a + 2 * t
  {
    var p, q := Backing(a, t).Worth(s), Backing(a - 1, t - e).Worth(s - e);
    if 0 < t {
      DivBounds(a * s, t);
      if t == e {
        assert p * t <= a * s;
      } else {
        DivBounds((a - 1) * (s - e), t - e);
        if e == 0 {
          SameShares(a, t, s, p, q);
        } else {
          ShareLess(a, t, s, p, q);
        }
      }
    }
  }

  lemma SameShares(a: nat, t: nat, s: nat, p: nat, q: nat)
    requires 0 < a && s <= t && p * t <= a * s && (a - 1) * s < (q + 1) * t
    ensures (p - q) * t <= a + 2 * t
  {
    assert (a - 1) * s == a * s - s && (q + 1) * t == q * t + t && (p - q) * t == p * t - q * t;
  }

  lemma ShareLess(a: nat, t: nat, s: nat, p: nat, q: nat)
    requires 0 < a && 0 < s <= t && 1 < t && p * t <= a * s && (a - 1) * (s - 1) < (q + 1) * (t - 1)
    ensures (p - q) * t <= a + 2 * t
  {
    var k, n := Product(a, s), Product(a - 1, s - 1);
    CrossProducts(a, t, s);
    ScaledUp(a, t, t - 1, p, q, k, n);
  }

  function Product(x: nat, y: nat): nat {
    x * y
  }

  lemma ScaledUp(a: nat, t: nat, x: nat, p: nat, q: nat, k: nat, n: nat)
    requires 0 < t && 0 < x && p * t <= k && n < (q + 1) * x && k * x <= n * t + a * x + x * t
    ensures (p - q) * t <= a + 2 * t
  {
    MulMono(p * t, k, x);
    StrictMul(t, n, (q + 1) * x);
    assert n * t == t * n;
    ShareLessSum(a, t, x, p, q, t * n);
  }

  lemma CrossProducts(a: nat, t: nat, s: nat)
    requires 0 < a && 0 < s <= t
    ensures a * s * (t - 1) <= (a - 1) * (s - 1) * t + a * (t - 1) + (t - 1) * t
  {
    assert a * s * (t - 1) == a * s * t - a * s;
    assert (a - 1) * (s - 1) == a * s - a - (s - 1);
    assert (a * s - a - (s - 1)) * t == a * s * t - a * t - (s - 1) * t;
    MulMono(1, s, a);
    MulMono(s - 1, t - 1, t);
  }

  lemma ShareLessSum(a: nat, t: nat, x: nat, p: nat, q: nat, n: nat)
    requires 0 < x && p * t * x <= n + a * x + x * t && n < t * ((q + 1) * x)
    ensures (p - q) * t <= a + 2 * t
  {
    assert t * ((q + 1) * x) == q * t * x + t * x;
    assert (p - q) * t * x == p * t * x - q * t * x;
    assert (a + 2 * t) * x == a * x + 2 * (t * x);
    Cancel((p - q) * t, a + 2 * t, x);
  }
}
