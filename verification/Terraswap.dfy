/** The Terraswap pair: a constant-product pool with a 0.3% commission, simulated in
    floor-rounded 18-digit fixed point, and the search that inverts the simulation. */
module Terraswap {
  import opened Results
  import opened FixedPoint

  /** 3 / 1000 as a `Decimal256`. */
  const COMMISSION: nat := 3_000_000_000_000_000

  /** `ask - cp / (offer pool after)` as the pair computes it: the quotient is a decimal
      rounded down, so the difference is rounded up before its integer part is taken. */
  function GrossReturn(offerPool: nat, askPool: nat, offer: nat): (g: nat)
    requires offerPool + offer > 0
    ensures g <= askPool
  {
    var remaining := offerPool * askPool * ONE / (offerPool + offer);
    QuotientOfPool(offerPool, askPool, offer);
    DivAtMostExact(askPool * ONE - remaining, ONE, askPool);
    (askPool * ONE - remaining) / ONE
  }

  /** What is left of a gross return after the commission, itself rounded down. */
  function NetOfCommission(gross: nat): (n: nat)
    ensures n <= gross
  {
    FractionAtMost(gross, COMMISSION, ONE);
    gross - gross * COMMISSION / ONE
  }

  function SwapReturn(offerPool: nat, askPool: nat, offer: nat): (r: nat)
    requires offerPool + offer > 0
    ensures r <= askPool
  {
    NetOfCommission(GrossReturn(offerPool, askPool, offer))
  }

  datatype Swap = Swap(offerPoolAfter: nat, askPoolAfter: nat, returned: nat)

  function SimulateSwap(offerPool: nat, askPool: nat, offer: nat): Result<Swap> {
    var after :- Add(offerPool, offer);
    if after == 0 then Err(DivideByZero)
    else
      var returned := SwapReturn(offerPool, askPool, offer);
      Ok(Swap(after, askPool - returned, returned))
  }

  // ----- What a swap returns, without division. -----

  /** `kept` is the least amount whose value in decimals is at least the quotient, rounded down. */
  predicate IsKept(product: nat, after: nat, kept: nat) {
    && product < (kept * ONE + 1) * after
    && (0 < kept ==> ((kept - 1) * ONE + 1) * after <= product)
  }

  /** What the roundings make of the constant product: `g` is the largest amount whose removal
      leaves at least the decimal quotient in the pool. */
  predicate IsGross(offerPool: nat, askPool: nat, offer: nat, g: nat) {
    g <= askPool && IsKept(offerPool * askPool * ONE, offerPool + offer, askPool - g)
  }

  /** The gross return is that amount and no other. */
  lemma GrossReturnExact(offerPool: nat, askPool: nat, offer: nat, g: nat)
    requires offerPool + offer > 0
    ensures g == GrossReturn(offerPool, askPool, offer) <==> IsGross(offerPool, askPool, offer, g)
  {
    var n, after := offerPool * askPool * ONE, offerPool + offer;
    QuotientOfPool(offerPool, askPool, offer);
    KeptOfQuotient(askPool, n, after);
    if IsGross(offerPool, askPool, offer, g) {
      KeptUnique(askPool - g, askPool - GrossReturn(offerPool, askPool, offer), n, after);
    }
  }

  lemma KeptOfQuotient(askPool: nat, n: nat, after: nat)
    requires 0 < after && n / after <= askPool * ONE
    ensures var g := (askPool * ONE - n / after) / ONE;
            g <= askPool && IsKept(n, after, askPool - g)
  {
    var q := n / after;
    var g := (askPool * ONE - q) / ONE;
    DivBounds(n, after);
    DivBounds(askPool * ONE - q, ONE);
    DivAtMostExact(askPool * ONE - q, ONE, askPool);
    var kept := askPool - g;
    KeptIs(kept, n, after, q);
  }

  lemma KeptIs(kept: nat, n: nat, after: nat, q: nat)
    requires q * after <= n < (q + 1) * after && (kept - 1) * ONE < q <= kept * ONE
    ensures IsKept(n, after, kept)
  {
    MulMono(q + 1, kept * ONE + 1, after);
    if 0 < kept {
      MulMono((kept - 1) * ONE + 1, q, after);
    }
  }

  lemma KeptUnique(a: nat, b: nat, n: nat, after: nat)
    requires IsKept(n, after, a) && IsKept(n, after, b)
    ensures a == b
  {
    if a < b {
      MulMono(a * ONE + 1, (b - 1) * ONE + 1, after);
    } else if b < a {
      MulMono(b * ONE + 1, (a - 1) * ONE + 1, after);
    }
  }

  /** The commission is 3/1000 of the gross return, rounded down. */
  lemma CommissionExact(gross: nat, net: nat)
    ensures net == NetOfCommission(gross) <==> 997 * gross <= 1000 * net < 997 * gross + 1000
  {
    DivBounds(gross * COMMISSION, ONE);
  }

  /** A simulated swap succeeds unless its pool is empty or out of range, moves the whole offer
      into the pool, and takes out what it returns: the gross return less its commission. */
  lemma SwapSimulated(offerPool: nat, askPool: nat, offer: nat, gross: nat)
    requires 0 < offerPool + offer ==> IsGross(offerPool, askPool, offer, gross)
    ensures SimulateSwap(offerPool, askPool, offer).Ok? <==> 0 < offerPool + offer <= U128_MAX
    ensures SimulateSwap(offerPool, askPool, offer).Ok? ==>
      var s := SimulateSwap(offerPool, askPool, offer).value;
      && s.offerPoolAfter == offerPool + offer && s.askPoolAfter + s.returned == askPool
      && 997 * gross <= 1000 * s.returned < 997 * gross + 1000
  {
    if 0 < offerPool + offer {
      GrossReturnExact(offerPool, askPool, offer, gross);
      CommissionExact(gross, NetOfCommission(gross));
    }
  }

  // ----- How the return moves with the offer. -----

  lemma QuotientOfPool(offerPool: nat, askPool: nat, offer: nat)
    requires offerPool + offer > 0
    ensures offerPool * askPool * ONE / (offerPool + offer) <= askPool * ONE
  {
    var n := offerPool * askPool * ONE;
    var q := askPool * ONE;
    assert n <= q * (offerPool + offer) by {
      assert n == offerPool * q;
      MulMono(offerPool, offerPool + offer, q);
    }
    DivAtMostExact(n, offerPool + offer, q);
  }

  lemma NetMoves(g: nat, k: nat)
    ensures NetOfCommission(g) <= NetOfCommission(g + k) <= NetOfCommission(g) + k
  {
    FractionStep(g, k, COMMISSION, ONE);
  }

  lemma SwapReturnMono(offerPool: nat, askPool: nat, x: nat, y: nat)
    requires 0 < offerPool + x && x <= y
    ensures SwapReturn(offerPool, askPool, x) <= SwapReturn(offerPool, askPool, y)
  {
    var n := offerPool * askPool * ONE;
    DivAntitone(n, offerPool + x, offerPool + y);
    QuotientOfPool(offerPool, askPool, x);
    DivMono(askPool * ONE - n / (offerPool + x), askPool * ONE - n / (offerPool + y), ONE);
    var g := GrossReturn(offerPool, askPool, x);
    NetMoves(g, GrossReturn(offerPool, askPool, y) - g);
  }

  /** An offer of nothing returns nothing. */
  lemma SwapNothing(offerPool: nat, askPool: nat)
    requires offerPool > 0
    ensures SwapReturn(offerPool, askPool, 0) == 0
  {
    var q := askPool * ONE;
    assert offerPool * askPool * ONE == q * offerPool;
    assert (q + 1) * offerPool == q * offerPool + offerPool;
    DivAtLeast(q * offerPool, offerPool, q);
    QuotientOfPool(offerPool, askPool, 0);
  }

  lemma PoolStepAlgebra(n: nat, pool: nat, o: nat, q: nat, k: nat)
    requires 0 < pool <= o && 0 < k && n <= k * pool * pool
    requires q * (o + 1) <= n < (q + 1) * (o + 1)
    ensures n < (q + k + 1) * o
  {
    assert q < k * o by {
      if q >= k * o {
        assert n <= k * o * o by {
          MulMono(pool, o, k * pool);
          MulMono(k * pool, k * o, o);
        }
        assert k * o * o < k * o * (o + 1) by { StrictMul(k * o, o, o + 1); }
        MulMono(k * o, q, o + 1);
        assert false;
      }
    }
    assert (q + 1) * (o + 1) == (q + 1) * o + (q + 1);
    assert (q + k + 1) * o == (q + 1) * o + k * o;
  }

  lemma PoolSquare(offerPool: nat, askPool: nat, k: nat)
    requires askPool <= k * offerPool
    ensures offerPool * askPool * ONE <= k * ONE * offerPool * offerPool
  {
    var p := offerPool * ONE;
    MulMono(askPool, k * offerPool, p);
    assert offerPool * askPool * ONE == askPool * p;
    assert k * ONE * offerPool * offerPool == k * offerPool * p;
  }

  lemma PoolQuotientStep(offerPool: nat, askPool: nat, x: nat, k: nat)
    requires 0 < offerPool && 0 < k && askPool <= k * offerPool
    ensures offerPool * askPool * ONE / (offerPool + x)
         <= offerPool * askPool * ONE / (offerPool + x + 1) + k * ONE
  {
    var n := offerPool * askPool * ONE;
    var o := offerPool + x;
    var q := n / (o + 1);
    PoolSquare(offerPool, askPool, k);
    DivBounds(n, o + 1);
    PoolStepAlgebra(n, offerPool, o, q, k * ONE);
    DivAtMost(n, o, q + k * ONE);
  }

  /** One more unit offered returns at most `k` more, when the ask pool holds no more than
      `k` times the offer pool. */
  lemma SwapReturnStep(offerPool: nat, askPool: nat, x: nat, k: nat)
    requires 0 < offerPool && 0 < k && askPool <= k * offerPool
    ensures SwapReturn(offerPool, askPool, x + 1) <= SwapReturn(offerPool, askPool, x) + k
  {
    var n := offerPool * askPool * ONE;
    var q0 := n / (offerPool + x);
    var q1 := n / (offerPool + x + 1);
    PoolQuotientStep(offerPool, askPool, x, k);
    QuotientOfPool(offerPool, askPool, x);
    QuotientOfPool(offerPool, askPool, x + 1);
    DivMono(askPool * ONE - q1, askPool * ONE - q0 + k * ONE, ONE);
    DivShift(askPool * ONE - q0, ONE, k);
    var g := GrossReturn(offerPool, askPool, x);
    var g' := GrossReturn(offerPool, askPool, x + 1);
    assert g' <= g + k;
    if g <= g' {
      NetMoves(g, g' - g);
    } else {
      NetMoves(g', g - g');
    }
  }

  // ----- What a swap does to the constant product. -----

  /** Before its commission a swap lowers the product of the two reserves by less than
      (offer pool after) / 10^18. */
  lemma GrossProductLoss(offerPool: nat, askPool: nat, offer: nat)
    requires offerPool + offer > 0
    ensures var after := offerPool + offer;
            var kept := askPool - GrossReturn(offerPool, askPool, offer);
            offerPool * askPool * ONE < after * kept * ONE + after
  {
    var after := offerPool + offer;
    var n := offerPool * askPool * ONE;
    var q := n / after;
    QuotientOfPool(offerPool, askPool, offer);
    var kept := askPool - GrossReturn(offerPool, askPool, offer);
    assert q <= kept * ONE by { DivBounds(askPool * ONE - q, ONE); }
    assert n < (q + 1) * after by { DivBounds(n, after); }
    MulMono(q + 1, kept * ONE + 1, after);
    assert (kept * ONE + 1) * after == after * kept * ONE + after;
  }

  /** A swap lowers the product of the two reserves by less than
      (offer pool after) / 10^18, hence not at all while that reserve is at most 10^18. */
  lemma ProductLoss(offerPool: nat, askPool: nat, offer: nat)
    requires offerPool + offer > 0
    ensures var after := offerPool + offer;
            var kept := askPool - SwapReturn(offerPool, askPool, offer);
            && offerPool * askPool * ONE < after * kept * ONE + after
            && (after <= ONE ==> offerPool * askPool <= after * kept)
  {
    var after := offerPool + offer;
    var kept := askPool - SwapReturn(offerPool, askPool, offer);
    var keptGross := askPool - GrossReturn(offerPool, askPool, offer);
    GrossProductLoss(offerPool, askPool, offer);
    assert after * keptGross <= after * kept by { MulMono(keptGross, kept, after); }
    if after <= ONE {
      LossBelowOne(offerPool * askPool, after * kept, after);
    }
  }

  lemma LossBelowOne(before: nat, later: nat, slack: nat)
    requires before * ONE < later * ONE + slack && slack <= ONE
    ensures before <= later
  {}

  /** A gross return is the exact quotient to within one unit. */
  lemma GrossReturnAtLeast(offerPool: nat, askPool: nat, offer: nat)
    requires offerPool + offer > 0
    ensures askPool * offer < (GrossReturn(offerPool, askPool, offer) + 1) * (offerPool + offer)
  {
    var after := offerPool + offer;
    var n := offerPool * askPool * ONE;
    var q := n / after;
    QuotientOfPool(offerPool, askPool, offer);
    var g := GrossReturn(offerPool, askPool, offer);
    assert askPool * ONE < q + (g + 1) * ONE by { DivBounds(askPool * ONE - q, ONE); }
    assert q * after <= n by { DivBounds(n, after); }
    StrictMul(after, askPool * ONE, q + (g + 1) * ONE);
    assert askPool * ONE * after == n + askPool * offer * ONE;
    assert (q + (g + 1) * ONE) * after == q * after + (g + 1) * after * ONE;
  }

  /** Selling `x` of one asset and buying at least `x` back never turns a profit, whatever
      the two reserves: where the decimal rounding gives something away, the commission
      takes more. The sale returns `y` and leaves the reserves `sold` and `other`. */
  lemma RoundTripCosts(soldPool: nat, otherPool: nat, x: nat, y: nat, sold: nat, other: nat, offer: nat)
    requires 0 < soldPool && y == SwapReturn(soldPool, otherPool, x)
    requires sold == soldPool + x && other + y == otherPool
    requires 0 < other + offer && SwapReturn(other, sold, offer) >= x
    ensures y <= offer
  {
    var g1 := GrossReturn(soldPool, otherPool, x);
    var g2 := GrossReturn(other, sold, offer);
    CommissionBounds(g1);
    CommissionBounds(g2);
    if x == 0 {
      SwapNothing(soldPool, otherPool);
    } else {
      GrossProductLoss(soldPool, otherPool, x);
      GrossProductLoss(other, sold, offer);
      GrossReturnAtLeast(soldPool, otherPool, x);
      NoProfit(soldPool, otherPool, x, sold, g1, g1 - y, other, offer, g2, g2 - SwapReturn(other, sold, offer));
    }
  }

  lemma CommissionBounds(gross: nat)
    ensures var c := gross - NetOfCommission(gross);
            1000 * c <= 3 * gross < 1000 * (c + 1)
  {
    CommissionExact(gross, NetOfCommission(gross));
  }

  /** The round trip in terms of the gross returns `g1` and `g2` and the commissions on them. */
  lemma NoProfit(m: nat, u: nat, x: nat, s: nat, g1: nat, c1: nat, other: nat, offer: nat, g2: nat, c2: nat)
    requires 0 < m && 0 < x && s == m + x && c1 <= g1 <= u && x + c2 <= g2 <= s && other == u - g1 + c1
    requires 3 * g1 < 1000 * (c1 + 1) && 3 * g2 < 1000 * (c2 + 1)
    requires m * u * ONE < s * (u - g1) * ONE + s && u * x < (g1 + 1) * s
    requires other * s * ONE < (other + offer) * (s - g2) * ONE + (other + offer)
    ensures g1 - c1 <= offer
  {
    if offer < g1 - c1 {
      RoundTripAlgebra(m, u, s, u - g1, c1, other + offer, s - g2, c2);
      if c2 > 0 {
        LargeRoundTrip(m, u, x, c1, c2);
      } else {
        SmallRoundTrip(m, u, x, g1, c1);
      }
      assert false;
    }
  }

  /** What a profitable round trip would say of the reserves and the two commissions:
      `s` is the sold reserve after the sale, `r0` the other reserve less the gross return, `k2` the
      sold reserve less what was bought back gross. */
  lemma RoundTripAlgebra(m: nat, u: nat, s: nat, r0: nat, c1: nat, o: nat, k2: nat, c2: nat)
    requires o < u && k2 + c2 <= m
    requires m * u * ONE < s * r0 * ONE + s
    requires (r0 + c1) * s * ONE < o * k2 * ONE + o
    ensures m * ONE + c2 * (u - 1) * ONE + s * c1 * ONE < u - 1 + s
  {
    SplitProduct(r0, c1, s);
    BoundKept(m, u, o, k2, c2);
    RoundTripSum(m, m * u, s, o, u - 1, s * r0, s * c1, o * k2, c2 * (u - 1));
  }

  lemma SplitProduct(a: nat, b: nat, c: nat)
    ensures (a + b) * c == c * a + c * b
  {}

  lemma BoundKept(m: nat, u: nat, o: nat, k2: nat, c2: nat)
    requires k2 + c2 <= m && o < u
    ensures o * k2 <= m * u - m - c2 * (u - 1)
  {
    MulMono(k2, m - c2, o);
    MulMono(o, u - 1, m - c2);
    assert (u - 1) * (m - c2) == m * u - m - c2 * (u - 1);
  }

  lemma RoundTripSum(m: nat, mu: int, o1: nat, o2: nat, rest: int, p0: int, p1: int, p2: int, p3: int)
    requires mu * ONE < p0 * ONE + o1 && (p0 + p1) * ONE < p2 * ONE + o2
    requires p2 <= mu - m - p3 && o2 <= rest
    ensures m * ONE + p3 * ONE + p1 * ONE < rest + o1
  {}

  lemma LargeRoundTrip(m: nat, u: nat, x: nat, c1: nat, c2: nat)
    requires 0 < m && 0 < u && 0 < c2 && 3 * x < 1000 * (m + 1)
    ensures m * ONE + c2 * (u - 1) * ONE + (m + x) * c1 * ONE >= u - 1 + m + x
  {
    MulMono(1, c2, u - 1);
    LargeBuyBack(m, u - 1, x, c2 * (u - 1), (m + x) * c1);
  }

  lemma SmallRoundTrip(m: nat, u: nat, x: nat, g1: nat, c1: nat)
    requires 0 < m && 0 < x && 3 * x < 1000 && 3 * g1 < 1000 * (c1 + 1) && u * x < (g1 + 1) * (m + x)
    ensures m * ONE + (m + x) * c1 * ONE >= u + m + x
  {
    SmallBuyBackPrice(u, x, g1, c1, m + x);
    SmallBuyBack(m, u, x, (m + x) * c1);
  }

  lemma SmallBuyBackPrice(u: nat, x: nat, g1: nat, c1: nat, o: nat)
    requires 0 < x && 3 * g1 < 1000 * (c1 + 1) && u * x < (g1 + 1) * o
    ensures 3 * u <= 1000 * (o * c1) + 1003 * o
  {
    MulMono(1, x, u);
    MulMono(3 * (g1 + 1), 1000 * c1 + 1003, o);
    assert (1000 * c1 + 1003) * o == 1000 * (o * c1) + 1003 * o;
    assert 3 * (g1 + 1) * o == 3 * ((g1 + 1) * o);
  }

  lemma LargeBuyBack(m: nat, rest: nat, x: nat, p: nat, w: nat)
    requires 0 < m && 3 * x < 1000 * (m + 1) && rest <= p
    ensures m * ONE + p * ONE + w * ONE >= rest + m + x
  {}

  lemma SmallBuyBack(m: nat, u: nat, x: nat, w: nat)
    requires 0 < m && 3 * x < 1000 && 3 * u <= 1000 * w + 1003 * (m + x)
    ensures m * ONE + w * ONE >= u + m + x
  {}

  // ----- Inverting the simulation. -----

  /** `x` is the least offer that attains `ask`, or the largest 128-bit amount when no
      smaller offer does. */
  ghost predicate IsLeastOffer(offerPool: nat, askPool: nat, ask: nat, x: nat) {
    && x <= U128_MAX
    && (forall y: nat :: y < x && 0 < offerPool + y ==> SwapReturn(offerPool, askPool, y) < ask)
    && (x < U128_MAX ==> 0 < offerPool + x && SwapReturn(offerPool, askPool, x) >= ask)
  }

  /** Against an empty offer pool every offer returns the same. */
  lemma EmptyPoolReturns(askPool: nat, x: nat, y: nat)
    requires 0 < x && 0 < y
    ensures SwapReturn(0, askPool, x) == SwapReturn(0, askPool, y)
  {
    assert 0 * askPool * ONE == 0;
    DivAtMostExact(0, x, 0);
    DivAtMostExact(0, y, 0);
  }

  method ComputeOfferAmount(askPool: nat, offerPool: nat, ask: nat) returns (r: Result<nat>)
    ensures r == Err(Generic("insufficient liquidity")) <==> ask >= askPool
    ensures r.Err? ==> ask >= askPool || r.error == DivideByZero
    ensures r.Ok? ==> IsLeastOffer(offerPool, askPool, ask, r.value)
    ensures r.Ok? && r.value < U128_MAX ==> 0 < offerPool
    ensures ask < askPool && 0 < offerPool ==> r.Ok?
  {
    if ask >= askPool {
      return Err(Generic("insufficient liquidity"));
    }
    var a, b := 0, U128_MAX;
    while a < b
      invariant 0 <= a <= b <= U128_MAX
      invariant forall y: nat :: y < a && 0 < offerPool + y ==> SwapReturn(offerPool, askPool, y) < ask
      invariant b < U128_MAX ==> 0 < offerPool + b && SwapReturn(offerPool, askPool, b) >= ask
      invariant 0 < a ==> 0 < offerPool + (a - 1)
    {
      var offer := (a + b) / 2;
      if offerPool + offer == 0 {
        return Err(DivideByZero);
      }
      QuotientOfPool(offerPool, askPool, offer);
      var gross := (askPool * ONE - offerPool * askPool * ONE / (offerPool + offer)) / ONE;
      FractionAtMost(gross, COMMISSION, ONE);
      var simulated := gross - gross * COMMISSION / ONE;
      assert simulated == SwapReturn(offerPool, askPool, offer);
      if simulated < ask {
        forall y: nat | y < offer + 1 && 0 < offerPool + y
          ensures SwapReturn(offerPool, askPool, y) < ask
        {
          SwapReturnMono(offerPool, askPool, y, offer);
        }
        a := offer + 1;
      } else {
        b := offer;
      }
    }
    if offerPool == 0 && 1 < a {
      EmptyPoolReturns(askPool, a - 1, a);
    }
    return Ok(a);
  }

  /** The least offer overshoots the ask by less than `k` when the ask pool holds no more
      than `k` times the offer pool; with `k` = 1 it returns the ask exactly. */
  lemma LeastOfferOvershoot(offerPool: nat, askPool: nat, ask: nat, x: nat, k: nat)
    requires IsLeastOffer(offerPool, askPool, ask, x) && x < U128_MAX
    requires 0 < offerPool && 0 < k && askPool <= k * offerPool
    ensures ask <= SwapReturn(offerPool, askPool, x) <= ask + k - 1
  {
    if x == 0 {
      SwapNothing(offerPool, askPool);
    } else {
      SwapReturnStep(offerPool, askPool, x - 1, k);
    }
  }

  /** An ask below the pool that no offer attains, because of the commission: the answer is the
      initial upper bound. */
  lemma UnattainableAsk()
    ensures IsLeastOffer(1, 1_000, 999, U128_MAX)
  {
    forall y: nat
      ensures SwapReturn(1, 1_000, y) < 999
    {
      var g := GrossReturn(1, 1_000, y);
      NetMoves(g, 1_000 - g);
      assert NetOfCommission(1_000) == 997;
    }
  }

  /** An ask that some offer `y` attains within a budget is attained by the least offer
      within the same budget, and conversely. */
  lemma LeastOfferWithinBudget(offerPool: nat, askPool: nat, ask: nat, x: nat, budget: nat)
    requires 0 < offerPool && budget < U128_MAX
    requires IsLeastOffer(offerPool, askPool, ask, x)
    ensures x <= budget <==> SwapReturn(offerPool, askPool, budget) >= ask
  {
    if x <= budget {
      SwapReturnMono(offerPool, askPool, x, budget);
    }
  }

  // ----- Providing liquidity. -----

  /** The integer square root, by which an empty pair prices its first deposit. */
  function IntegerSqrt(n: nat): (r: nat)
    ensures r * r <= n < (r + 1) * (r + 1)
  {
    if n == 0 then 0
    else
      var r := IntegerSqrt(n - 1);
      if (r + 1) * (r + 1) <= n then r + 1 else r
  }

  /** A later deposit mints the largest amount that is in proportion to neither side too much. */
  lemma MintIsLargest(provideA: nat, provideB: nat, poolA: nat, poolB: nat, supply: nat, lp: nat)
    requires 0 < supply && LiquidityTokenMintAmount(provideA, provideB, poolA, poolB, supply).Ok?
    ensures lp <= LiquidityTokenMintAmount(provideA, provideB, poolA, poolB, supply).value
       <==> lp * poolA <= provideA * supply && lp * poolB <= provideB * supply
  {
    WithinQuotient(provideA * supply, poolA, lp);
    WithinQuotient(provideB * supply, poolB, lp);
  }

  /** A first deposit mints the largest amount whose square is within the product. */
  lemma FirstMintIsLargest(provideA: nat, provideB: nat, poolA: nat, poolB: nat, lp: nat)
    requires LiquidityTokenMintAmount(provideA, provideB, poolA, poolB, 0).Ok?
    ensures lp <= LiquidityTokenMintAmount(provideA, provideB, poolA, poolB, 0).value
       <==> lp * lp <= provideA * provideB
  {
    var r := LiquidityTokenMintAmount(provideA, provideB, poolA, poolB, 0).value;
    if lp <= r {
      SquareMono(lp, r);
    } else {
      SquareMono(r + 1, lp);
    }
  }

  lemma SquareMono(a: nat, b: nat)
    requires a <= b
    ensures a * a <= b * b
  {
    MulMono(a, b, a);
    MulMono(a, b, b);
  }

  lemma WithinQuotient(n: nat, d: nat, q: nat)
    requires 0 < d
    ensures q <= n / d <==> q * d <= n
  {
    DivBounds(n, d);
    if q <= n / d {
      MulMono(q, n / d, d);
    } else {
      MulMono(n / d + 1, q, d);
    }
  }

  function Min(a: nat, b: nat): nat {
    if a <= b then a else b
  }

  function LiquidityTokenMintAmount(provideA: nat, provideB: nat, poolA: nat, poolB: nat, supply: nat): Result<nat> {
    if supply == 0 then
      if provideA * provideB <= U128_MAX then Ok(IntegerSqrt(provideA * provideB)) else Err(Overflow)
    else
      var a :- MulRatio(provideA, supply, poolA);
      var b :- MulRatio(provideB, supply, poolB);
      Ok(Min(a, b))
  }
}
