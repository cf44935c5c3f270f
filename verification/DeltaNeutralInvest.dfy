/** Opening or growing a position: splitting a uusd budget into collateral for a short and a
    swap that buys the shorted amount back. */
module DeltaNeutralInvest {
  import opened Results
  import opened FixedPoint
  import opened Terraswap
  import opened MirrorMath
  import opened SafeRatio

  /** Everything the split is computed from. */
  datatype Market = Market(
    poolMirrorAsset: nat,
    poolUusd: nat,
    anchorRate: nat,
    oracleRate: nat,
    collateralRatio: nat)

  /** What posting some collateral leads to: the aUST posted, the mAsset minted, and the pool
      once Mirror has sold it. */
  datatype Short = Short(anchorUst: nat, mint: nat, poolMirrorAsset: nat, poolUusd: nat)

  function MintAmount(m: Market, anchorUst: nat): Result<nat> {
    var price :- DecimalDivision(m.anchorRate, m.oracleRate);
    var worth :- MulDecimal(anchorUst, price);
    var reverse :- ReverseDecimal(m.collateralRatio);
    MulDecimal(worth, reverse)
  }

  function ShortFor(m: Market, collateral: nat): Result<Short> {
    var anchorUst :- MulRatio(collateral, ONE, m.anchorRate);
    var mint :- MintAmount(m, anchorUst);
    var swap :- SimulateSwap(m.poolMirrorAsset, m.poolUusd, mint);
    Ok(Short(anchorUst, mint, swap.offerPoolAfter, swap.askPoolAfter))
  }

  // ----- What is posted and minted, without division. -----

  /** Depositing `collateral` uusd buys `anchorUst` aUST, rounded down. */
  predicate IsPosted(m: Market, collateral: nat, anchorUst: nat) {
    anchorUst * m.anchorRate <= collateral * ONE < (anchorUst + 1) * m.anchorRate
  }

  /** The three roundings between aUST and mAsset: its price in mAsset, what it is worth, and the
      reciprocal of the collateral ratio, all from decimals cut to nine digits. */
  predicate IsMinted(m: Market, anchorUst: nat, price: nat, worth: nat, reverse: nat, mint: nat) {
    && price * (m.oracleRate / NINE) <= m.anchorRate / NINE * ONE < (price + 1) * (m.oracleRate / NINE)
    && worth * ONE <= anchorUst * price < (worth + 1) * ONE
    && reverse * (m.collateralRatio / NINE) <= NINE * ONE < (reverse + 1) * (m.collateralRatio / NINE)
    && mint * ONE <= worth * reverse < (mint + 1) * ONE
  }

  /** Only the amount minted satisfies them. */
  lemma MintExact(m: Market, anchorUst: nat, price: nat, worth: nat, reverse: nat, mint: nat)
    requires MintAmount(m, anchorUst).Ok? && IsMinted(m, anchorUst, price, worth, reverse, mint)
    ensures MintAmount(m, anchorUst) == Ok(mint)
  {
    NineDigits(m.anchorRate);
    NineDigits(m.oracleRate);
    NineDigits(m.collateralRatio);
    QuotientIs(m.anchorRate / NINE * ONE, m.oracleRate / NINE, price);
    QuotientIs(anchorUst * price, ONE, worth);
    QuotientIs(NINE * ONE, m.collateralRatio / NINE, reverse);
    QuotientIs(worth * reverse, ONE, mint);
  }

  lemma QuotientIs(n: nat, d: nat, q: nat)
    requires 0 < d && q * d <= n < (q + 1) * d
    ensures n / d == q
  {
    DivAtLeast(n, d, q);
    DivAtMost(n, d, q);
  }

  /** And the amount minted always does. */
  lemma MintSteps(m: Market, anchorUst: nat) returns (price: nat, worth: nat, reverse: nat)
    requires MintAmount(m, anchorUst).Ok?
    ensures 0 < m.oracleRate / NINE && 0 < m.collateralRatio / NINE
    ensures IsMinted(m, anchorUst, price, worth, reverse, MintAmount(m, anchorUst).value)
  {
    price := DecimalDivision(m.anchorRate, m.oracleRate).value;
    worth := MulDecimal(anchorUst, price).value;
    reverse := ReverseDecimal(m.collateralRatio).value;
    DivisionError(m.anchorRate, m.oracleRate);
    ReverseError(m.collateralRatio);
    DivBounds(anchorUst * price, ONE);
    DivBounds(worth * reverse, ONE);
  }

  /** An amount that is posted is minted against at the collateral ratio and the two prices: no
      more than that, and less by no more than what the roundings lose. */
  predicate AtTargetRatio(m: Market, anchorUst: nat, mint: nat) {
    var a, o, c := m.anchorRate / NINE, m.oracleRate / NINE, m.collateralRatio / NINE;
    && mint * c * o <= anchorUst * a * NINE
    && anchorUst * a * NINE * ONE < (mint + 1) * c * o * ONE + anchorUst * a * c + (anchorUst + ONE) * NINE * o
  }

  lemma MintedAtTargetRatio(m: Market, anchorUst: nat)
    requires MintAmount(m, anchorUst).Ok?
    ensures AtTargetRatio(m, anchorUst, MintAmount(m, anchorUst).value)
  {
    var price, worth, reverse := MintSteps(m, anchorUst);
    var a, o, c := m.anchorRate / NINE, m.oracleRate / NINE, m.collateralRatio / NINE;
    var mint := MintAmount(m, anchorUst).value;
    WorthWithin(anchorUst, a, o, price, worth);
    MintWithin(anchorUst * a, o, c, worth, reverse, mint);
  }

  lemma WorthWithin(u: nat, a: nat, o: nat, price: nat, worth: nat)
    requires price * o <= a * ONE < (price + 1) * o && worth * ONE <= u * price < (worth + 1) * ONE
    ensures worth * o <= u * a && u * a * ONE < (worth * ONE + ONE + u) * o
  {
    MulMono(worth * ONE, u * price, o);
    MulMono(price * o, a * ONE, u);
    assert worth * ONE * o == worth * o * ONE;
    assert u * price * o == price * o * u && a * ONE * u == u * a * ONE;
    WorthLow(u, a, o, price, worth);
  }

  lemma WorthLow(u: nat, a: nat, o: nat, price: nat, worth: nat)
    requires a * ONE < (price + 1) * o && u * price < (worth + 1) * ONE
    ensures u * a * ONE < (worth * ONE + ONE + u) * o
  {
    IntMulMono(a * ONE, (price + 1) * o, u);
    assert u * (a * ONE) == u * a * ONE && u * ((price + 1) * o) == (u * price + u) * o;
    StrictMul(o, u * price + u, (worth + 1) * ONE + u);
    assert o * (u * price + u) == (u * price + u) * o;
    assert o * ((worth + 1) * ONE + u) == (worth * ONE + ONE + u) * o;
  }

  lemma MintWithin(ua: nat, o: nat, c: nat, worth: nat, reverse: nat, mint: nat)
    requires worth * o <= ua
    requires reverse * c <= NINE * ONE < (reverse + 1) * c && mint * ONE <= worth * reverse < (mint + 1) * ONE
    ensures mint * c * o <= ua * NINE
    ensures worth * NINE * ONE < ((mint + 1) * ONE + worth) * c
    ensures worth * NINE * ONE * o <= (mint + 1) * c * o * ONE + ua * c
  {
    MulMono(mint * ONE, worth * reverse, c);
    MulMono(reverse * c, NINE * ONE, worth);
    assert mint * ONE * c == mint * c * ONE && worth * reverse * c == reverse * c * worth;
    assert mint * c <= worth * NINE;
    MulMono(mint * c, worth * NINE, o);
    assert worth * NINE * o == worth * o * NINE;
    IntMulMono(NINE * ONE, (reverse + 1) * c, worth);
    assert worth * ((reverse + 1) * c) == (worth * reverse + worth) * c;
    StrictMul(c, worth * reverse + worth, (mint + 1) * ONE + worth);
    assert c * (worth * reverse + worth) == (worth * reverse + worth) * c;
    assert c * ((mint + 1) * ONE + worth) == ((mint + 1) * ONE + worth) * c;
    MulMono(worth * NINE * ONE, ((mint + 1) * ONE + worth) * c, o);
    assert ((mint + 1) * ONE + worth) * c * o == (mint + 1) * c * o * ONE + worth * o * c;
    MulMono(worth * o, ua, c);
  }

  /** The CDP of an opening, at the prices it was minted at. */
  function OpenedCdp(m: Market, anchorUst: nat, mint: nat): Cdp {
    Cdp(anchorUst, m.anchorRate, mint, m.oracleRate)
  }

  /** Its collateral is worth the target ratio times its debt, but for the last nine digits of
      ratio and price. */
  lemma OpenedRatio(m: Market, anchorUst: nat)
    requires MintAmount(m, anchorUst).Ok?
    ensures MintAmount(m, anchorUst).value * ((m.collateralRatio - (NINE - 1)) * (m.oracleRate - (NINE - 1)))
         <= anchorUst * m.anchorRate * ONE
  {
    var mint := MintAmount(m, anchorUst).value;
    var a, o, c := m.anchorRate / NINE, m.oracleRate / NINE, m.collateralRatio / NINE;
    var _, _, _ := MintSteps(m, anchorUst);
    MintedAtTargetRatio(m, anchorUst);
    NineDigits(m.anchorRate);
    NineDigits(m.oracleRate);
    NineDigits(m.collateralRatio);
    CutProduct(m.collateralRatio, m.oracleRate, c, o);
    IntMulMono((m.collateralRatio - (NINE - 1)) * (m.oracleRate - (NINE - 1)), c * o * ONE, mint);
    MulMono(a * NINE, m.anchorRate, anchorUst);
    ScaledByNines(mint, c, o, anchorUst, a, m.anchorRate);
  }

  /** What is cut off two decimals costs their product no more than this. */
  lemma CutProduct(x: nat, y: nat, c: nat, o: nat)
    requires x < c * NINE + NINE && y < o * NINE + NINE && 0 < c && 0 < o && c * NINE <= x && o * NINE <= y
    ensures (x - (NINE - 1)) * (y - (NINE - 1)) <= c * o * ONE
  {
    var p: nat, q: nat := x - (NINE - 1), y - (NINE - 1);
    MulMono(p, c * NINE, q);
    MulMono(q, o * NINE, c * NINE);
    assert c * NINE * (o * NINE) == c * o * ONE;
  }

  lemma ScaledByNines(mint: nat, c: nat, o: nat, u: nat, a: nat, rate: nat)
    requires mint * c * o <= u * a * NINE && a * NINE * u <= rate * u
    ensures mint * (c * o * ONE) <= u * rate * ONE
  {
    assert mint * (c * o * ONE) == mint * c * o * ONE;
    assert u * a * NINE == a * NINE * u && rate * u == u * rate;
  }

  /** A debt large enough for the slack between the midpoint and the lower end to pay for one
      uusd and the lost digits. */
  predicate LargeMint(m: Market, range: Range, mint: nat) {
    ONE * ONE <= mint * ((m.collateralRatio - (NINE - 1)) * (m.oracleRate - (NINE - 1)) - range.min * m.oracleRate)
  }

  /** Minted at the midpoint of a range, such a CDP covers the range's lower end. */
  lemma OpensCovered(m: Market, range: Range, anchorUst: nat)
    requires MintAmount(m, anchorUst).Ok? && LargeMint(m, range, MintAmount(m, anchorUst).value)
    ensures OpenedCdp(m, anchorUst, MintAmount(m, anchorUst).value).Covers(range.min)
  {
    OpenedRatio(m, anchorUst);
    CoveredByMint(MintAmount(m, anchorUst).value, (m.collateralRatio - (NINE - 1)) * (m.oracleRate - (NINE - 1)),
                  range.min, m.oracleRate, anchorUst * m.anchorRate);
  }

  lemma CoveredByMint(mint: nat, p: int, min: nat, price: nat, worth: nat)
    requires mint * p <= worth * ONE && ONE * ONE <= mint * (p - min * price)
    ensures min * (mint * price / ONE) <= worth / ONE * ONE
  {
    var debt := mint * price;
    DivBounds(worth, ONE);
    DivBounds(debt, ONE);
    assert mint * (p - min * price) == mint * p - min * debt;
    MulMono(debt / ONE * ONE, debt, min);
    assert debt / ONE * ONE * min == min * (debt / ONE) * ONE && debt * min == min * debt;
    CoveredSum(worth, worth / ONE, min * (debt / ONE), min * debt, mint * p);
  }

  lemma CoveredSum(worth: nat, value: nat, owed: nat, debt: nat, p: int)
    requires worth < (value + 1) * ONE && owed * ONE <= debt && ONE * ONE <= p - debt && p <= worth * ONE
    ensures owed <= value * ONE
  {}

  /** Some offer within the rest of the budget buys back at least what is minted. */
  ghost predicate BuysBack(s: Short, budget: nat, collateral: nat, offer: nat) {
    && collateral + offer <= budget
    && 0 < s.poolUusd + offer
    && SwapReturn(s.poolUusd, s.poolMirrorAsset, offer) >= s.mint
  }

  ghost predicate Feasible(m: Market, budget: nat, collateral: nat) {
    && ShortFor(m, collateral).Ok?
    && var s := ShortFor(m, collateral).value;
       s.mint < s.poolMirrorAsset && exists offer: nat :: BuysBack(s, budget, collateral, offer)
  }

  ghost predicate Infeasible(m: Market, budget: nat, collateral: nat) {
    ShortFor(m, collateral).Ok? && !Feasible(m, budget, collateral)
  }

  /** While the pool has uusd, spending all that is left is the test of feasibility. */
  lemma FeasibleBySpendingAll(m: Market, budget: nat, collateral: nat)
    requires ShortFor(m, collateral).Ok? && 0 < ShortFor(m, collateral).value.poolUusd && collateral <= budget
    ensures var s := ShortFor(m, collateral).value;
            Feasible(m, budget, collateral) <==>
              s.mint < s.poolMirrorAsset && SwapReturn(s.poolUusd, s.poolMirrorAsset, budget - collateral) >= s.mint
  {
    var s := ShortFor(m, collateral).value;
    if Feasible(m, budget, collateral) {
      var offer: nat :| BuysBack(s, budget, collateral, offer);
      SwapReturnMono(s.poolUusd, s.poolMirrorAsset, offer, budget - collateral);
    } else {
      assert BuysBack(s, budget, collateral, budget - collateral)
        <==> SwapReturn(s.poolUusd, s.poolMirrorAsset, budget - collateral) >= s.mint;
    }
  }

  /** Posting nothing mints nothing. */
  lemma NothingPosted(m: Market)
    requires ShortFor(m, 0).Ok?
    ensures ShortFor(m, 0).value.anchorUst == 0 && ShortFor(m, 0).value.mint == 0
  {
    assert 0 * ONE / m.anchorRate == 0;
    var price := DecimalDivision(m.anchorRate, m.oracleRate).value;
    assert 0 * price / ONE == 0;
    var reverse := ReverseDecimal(m.collateralRatio).value;
    assert 0 * reverse / ONE == 0;
  }

  /** A probe at `collateral` answers, rather than abort: there is nothing to buy back from, or
      some offer attains the mint and can be added to the collateral. */
  predicate Answers(m: Market, collateral: nat) {
    && ShortFor(m, collateral).Ok?
    && var s := ShortFor(m, collateral).value;
       s.mint >= s.poolMirrorAsset || (0 < s.poolUusd && Attained(s, collateral))
  }

  predicate Attained(s: Short, collateral: nat)
    requires 0 < s.poolUusd
  {
    collateral <= U128_MAX && SwapReturn(s.poolUusd, s.poolMirrorAsset, U128_MAX - collateral) >= s.mint
  }

  /** What is minted for `collateral` can be bought back. */
  predicate EndAnswers(m: Market, collateral: nat) {
    && ShortFor(m, collateral).Ok?
    && var s := ShortFor(m, collateral).value;
       0 < s.poolUusd && s.mint < s.poolMirrorAsset
  }

  /** The least swap that buys back the minted amount; an unattainable one overflows the sum
      with any collateral, and so aborts. */
  method LongSwapFor(m: Market, budget: nat, collateral: nat) returns (r: Result<Option<nat>>)
    requires budget <= U128_MAX
    ensures r.Ok? ==> ShortFor(m, collateral).Ok?
    ensures r.Ok? && r.value.Some? ==>
      var s := ShortFor(m, collateral).value;
      && IsLeastOffer(s.poolUusd, s.poolMirrorAsset, s.mint, r.value.value)
      && s.mint < s.poolMirrorAsset
      && (r.value.value < U128_MAX ==> 0 < s.poolUusd)
    ensures r.Ok? && r.value.None? ==> Infeasible(m, budget, collateral)
    ensures ShortFor(m, collateral).Ok? ==>
      var s := ShortFor(m, collateral).value;
      && (s.mint >= s.poolMirrorAsset <==> r == Ok(None))
      && (0 < s.poolUusd ==> r.Ok?)
    ensures EndAnswers(m, collateral) ==> r.Ok? && r.value.Some?
  {
    var s :- ShortFor(m, collateral);
    var offer := ComputeOfferAmount(s.poolMirrorAsset, s.poolUusd, s.mint);
    if offer.Ok? {
      return Ok(Some(offer.value));
    } else if offer.error.Generic? {
      return Ok(None);
    } else {
      return Err(offer.error);
    }
  }

  lemma AffordableIsFeasible(m: Market, budget: nat, collateral: nat, long: nat)
    requires ShortFor(m, collateral).Ok? && budget <= U128_MAX
    requires var s := ShortFor(m, collateral).value;
             IsLeastOffer(s.poolUusd, s.poolMirrorAsset, s.mint, long) && s.mint < s.poolMirrorAsset
    ensures collateral + long <= budget <==> Feasible(m, budget, collateral)
  {
    var s := ShortFor(m, collateral).value;
    var returned := SwapReturn(s.poolUusd, s.poolMirrorAsset, 1);
    if collateral + long > budget {
      assert forall offer: nat :: !BuysBack(s, budget, collateral, offer);
    } else if long < U128_MAX {
      assert BuysBack(s, budget, collateral, long);
    } else {
      NothingPosted(m);
      assert false;
    }
  }

  method IsFeasible(m: Market, budget: nat, collateral: nat) returns (r: Result<bool>)
    requires budget <= U128_MAX
    ensures r.Ok? ==> if r.value then Feasible(m, budget, collateral) else Infeasible(m, budget, collateral)
    ensures 0 < collateral ==> (r.Ok? <==> Answers(m, collateral))
  {
    var long :- LongSwapFor(m, budget, collateral);
    if long.None? {
      return Ok(false);
    }
    AffordableIsFeasible(m, budget, collateral, long.value);
    if 0 < collateral {
      AddsUp(m, collateral, long.value);
    }
    var spent :- Add(collateral, long.value);
    return Ok(spent <= budget);
  }

  /** The least swap can be added to the collateral exactly when the probe answers. */
  lemma AddsUp(m: Market, collateral: nat, long: nat)
    requires 0 < collateral && ShortFor(m, collateral).Ok?
    requires var s := ShortFor(m, collateral).value;
             && IsLeastOffer(s.poolUusd, s.poolMirrorAsset, s.mint, long) && s.mint < s.poolMirrorAsset
             && (long < U128_MAX ==> 0 < s.poolUusd)
    ensures collateral + long <= U128_MAX <==> Answers(m, collateral)
  {
    var s := ShortFor(m, collateral).value;
    if 0 < s.poolUusd && collateral <= U128_MAX {
      LeastOfferWithinBudget(s.poolUusd, s.poolMirrorAsset, s.mint, long, U128_MAX - collateral);
    }
  }

  datatype Message =
    | DepositStable(uusd: nat)
    | OpenPosition(anchorUst: nat, collateralRatio: nat)
    | Deposit(idx: nat, anchorUst: nat)
    | Mint(idx: nat, mirrorAsset: nat)
    | BuyMirrorAsset(uusd: nat)

  function OpenOrIncreaseCdp(collateralRatio: nat, s: Short, cdpIdx: Option<nat>): seq<Message> {
    match cdpIdx
    case None => [OpenPosition(s.anchorUst, collateralRatio)]
    case Some(idx) => [Deposit(idx, s.anchorUst), Mint(idx, s.mint)]
  }

  /** Mirror's conditions on the asset and on the target range. */
  datatype Terms = Terms(delisted: bool, minCollateralRatio: nat, safetyMargin: nat)

  function CheckTerms(terms: Terms, range: Range): Result<nat> {
    if terms.delisted then Err(Generic("mAsset is delisted"))
    else
      var required :- Add(terms.minCollateralRatio, terms.safetyMargin);
      if range.min < required then Err(Generic("target_min_collateral_ratio too small"))
      else
        var least :- Add(range.min, MIN_WIDTH);
        if range.max < least then Err(Generic("target_max_collateral_ratio too small"))
        else range.Midpoint()
  }

  /** How a budget was split. */
  datatype Split = Split(collateral: nat, longSwap: nat)

  /** The messages that split a budget: buy aUST, post it, mint against it at the target ratio,
      and buy mAsset with the rest. Opening a CDP leaves the minting to Mirror. */
  predicate Opens(m: Market, split: Split, s: Short, cdpIdx: Option<nat>, messages: seq<Message>) {
    && IsPosted(m, split.collateral, s.anchorUst) && AtTargetRatio(m, s.anchorUst, s.mint)
    && match cdpIdx
       case None => messages == [DepositStable(split.collateral), OpenPosition(s.anchorUst, m.collateralRatio),
                                 BuyMirrorAsset(split.longSwap)]
       case Some(idx) => messages == [DepositStable(split.collateral), Deposit(idx, s.anchorUst), Mint(idx, s.mint),
                                      BuyMirrorAsset(split.longSwap)]
  }

  ghost predicate GoodSplit(m: Market, budget: nat, split: Split) {
    && split.collateral + split.longSwap <= budget
    && Feasible(m, budget, split.collateral)
    && (Infeasible(m, budget, split.collateral + 1) || split.collateral + 1 >= budget)
    && var s := ShortFor(m, split.collateral).value;
       && IsLeastOffer(s.poolUusd, s.poolMirrorAsset, s.mint, split.longSwap)
       && split.longSwap < U128_MAX && 0 < s.poolUusd
  }

  /** Every amount that the search can probe answers, and so does posting nothing. */
  ghost predicate AllAnswer(m: Market, budget: nat) {
    && budget <= U128_MAX / 2 && 0 < m.poolMirrorAsset && 0 < m.poolUusd
    && forall collateral: nat :: collateral == 0 || collateral < budget ==> Answers(m, collateral)
  }

  /** Every amount that the search probes between `a` and `b` answers, and so does its end. */
  ghost predicate PathAnswers(m: Market, budget: nat, a: nat, b: nat)
    decreases if a < b then b - a else 0
  {
    if b <= a + 1 then EndAnswers(m, a)
    else
      var middle := (a + b) / 2;
      && a + b <= U128_MAX
      && Answers(m, middle)
      && (if Feasible(m, budget, middle) then PathAnswers(m, budget, middle, b) else PathAnswers(m, budget, a, middle))
  }

  /** What the search ends at can be bought back. */
  lemma EndIsBoughtBack(m: Market, budget: nat, collateral: nat)
    requires AllAnswer(m, budget) && (collateral == 0 || (collateral < budget && Feasible(m, budget, collateral)))
    ensures EndAnswers(m, collateral)
  {
    assert Answers(m, collateral);
    if collateral == 0 {
      NothingPosted(m);
      SwapNothing(m.poolMirrorAsset, m.poolUusd);
    }
  }

  /** Where every amount answers, so does every path. */
  lemma {:induction false} AllPathsAnswer(m: Market, budget: nat, a: nat, b: nat)
    requires AllAnswer(m, budget) && a <= b <= budget
    requires a == 0 || (a < budget && Feasible(m, budget, a))
    ensures PathAnswers(m, budget, a, b)
    decreases b - a
  {
    if b <= a + 1 {
      EndIsBoughtBack(m, budget, a);
    } else {
      var middle := (a + b) / 2;
      if Feasible(m, budget, middle) {
        AllPathsAnswer(m, budget, middle, b);
      } else {
        AllPathsAnswer(m, budget, a, middle);
      }
    }
  }

  lemma PathProbes(m: Market, budget: nat, a: nat, b: nat)
    requires a + 1 < b && PathAnswers(m, budget, a, b)
    ensures a + b <= U128_MAX && Answers(m, (a + b) / 2)
  {}

  /** An answered probe leaves the path of the half that is searched on. */
  lemma PathNarrows(m: Market, budget: nat, a: nat, b: nat, middle: nat, feasible: bool)
    requires a + 1 < b && a + b <= U128_MAX && middle == (a + b) / 2 && Answers(m, middle)
    requires feasible <==> Feasible(m, budget, middle)
    ensures feasible ==> EndAnswers(m, middle) && PathAnswers(m, budget, a, b) == PathAnswers(m, budget, middle, b)
    ensures !feasible ==> PathAnswers(m, budget, a, b) == PathAnswers(m, budget, a, middle)
  {}

  /** The path is answered if every amount is, and not if its first probe is not. */
  lemma PathVerdicts(m: Market, budget: nat)
    ensures AllAnswer(m, budget) ==> PathAnswers(m, budget, 0, budget)
    ensures 2 <= budget && !Answers(m, budget / 2) ==> !PathAnswers(m, budget, 0, budget)
  {
    if AllAnswer(m, budget) {
      AllPathsAnswer(m, budget, 0, budget);
    }
  }

  /** The search for the collateral. Feasibility need not be monotone in it, so what is found
      is a boundary: a feasible amount whose successor is infeasible or the whole budget. It is
      found exactly when every amount on the way there answers. */
  method SplitBudget(m: Market, budget: nat) returns (r: Result<Split>)
    requires budget <= U128_MAX
    ensures r.Ok? ==> GoodSplit(m, budget, r.value)
    ensures r.Ok? <==> PathAnswers(m, budget, 0, budget)
  {
    ghost var answers := PathAnswers(m, budget, 0, budget);
    var a, b := 0, budget;
    while b > a + 1
      invariant 0 <= a <= b <= budget
      invariant a < b || budget == 0
      invariant b < budget ==> Infeasible(m, budget, b)
      invariant 0 < a ==> Feasible(m, budget, a) && EndAnswers(m, a)
      invariant answers <==> PathAnswers(m, budget, a, b)
      decreases b - a
    {
      if answers {
        PathProbes(m, budget, a, b);
      }
      var sum :- Add(a, b);
      var collateral := sum / 2;
      var feasible :- IsFeasible(m, budget, collateral);
      PathNarrows(m, budget, a, b, collateral, feasible);
      if feasible {
        a := collateral;
      } else {
        b := collateral;
      }
    }
    assert answers <==> EndAnswers(m, a);
    var long :- LongSwapFor(m, budget, a);
    if long.None? {
      return Err(Generic("insufficient liquidity"));
    }
    EndIsAffordable(m, budget, a, long.value);
    return Ok(Split(a, long.value));
  }

  /** The search ends where the least swap, if there is one, fits the budget. */
  lemma EndIsAffordable(m: Market, budget: nat, a: nat, long: nat)
    requires a <= budget <= U128_MAX && ShortFor(m, a).Ok?
    requires var s := ShortFor(m, a).value;
             && IsLeastOffer(s.poolUusd, s.poolMirrorAsset, s.mint, long) && s.mint < s.poolMirrorAsset
             && (long < U128_MAX ==> 0 < s.poolUusd)
    requires 0 < a ==> Feasible(m, budget, a) && EndAnswers(m, a)
    ensures EndAnswers(m, a) && Feasible(m, budget, a) && a + long <= budget && long < U128_MAX
  {
    if a == 0 {
      NothingPosted(m);
      NothingToBuy(ShortFor(m, 0).value, long);
    }
    AffordableIsFeasible(m, budget, a, long);
  }

  lemma NothingToBuy(s: Short, long: nat)
    requires s.mint == 0 && IsLeastOffer(s.poolUusd, s.poolMirrorAsset, 0, long)
    requires long < U128_MAX ==> 0 < s.poolUusd
    ensures long == 0
  {
    var one := SwapReturn(s.poolUusd, s.poolMirrorAsset, 1);
    if 0 < s.poolUusd {
      var nothing := SwapReturn(s.poolUusd, s.poolMirrorAsset, 0);
    }
  }

  method Invest(pool: Market, terms: Terms, range: Range, budget: nat, cdpIdx: Option<nat>)
    returns (r: Result<seq<Message>>, split: Split)
    requires budget <= U128_MAX
    ensures r.Ok? ==> !terms.delisted && terms.minCollateralRatio + terms.safetyMargin <= range.min && range.Wide()
    ensures r.Ok? ==>
      && range.Midpoint().Ok?
      && var m := pool.(collateralRatio := range.Midpoint().value);
         && GoodSplit(m, budget, split)
         && r.value == [DepositStable(split.collateral)]
                       + OpenOrIncreaseCdp(m.collateralRatio, ShortFor(m, split.collateral).value, cdpIdx)
                       + [BuyMirrorAsset(split.longSwap)]
         && Opens(m, split, ShortFor(m, split.collateral).value, cdpIdx, r.value)
    ensures CheckTerms(terms, range).Err? ==> r.Err?
    ensures CheckTerms(terms, range).Ok? ==>
      var m := pool.(collateralRatio := range.Midpoint().value);
      && (r.Ok? <==> PathAnswers(m, budget, 0, budget))
      && (AllAnswer(m, budget) ==> r.Ok?)
      && (2 <= budget && !Answers(m, budget / 2) ==> r.Err?)
  {
    split := Split(0, 0);
    var collateralRatio :- CheckTerms(terms, range);
    var m := pool.(collateralRatio := collateralRatio);
    PathVerdicts(m, budget);
    split :- SplitBudget(m, budget);
    var s := ShortFor(m, split.collateral).value;
    var messages := [DepositStable(split.collateral)];
    messages := messages + OpenOrIncreaseCdp(collateralRatio, s, cdpIdx);
    messages := messages + [BuyMirrorAsset(split.longSwap)];
    ShortIsAtTarget(m, split.collateral);
    r := Ok(messages);
  }

  lemma ShortIsAtTarget(m: Market, collateral: nat)
    requires ShortFor(m, collateral).Ok?
    ensures var s := ShortFor(m, collateral).value;
            && IsPosted(m, collateral, s.anchorUst) && AtTargetRatio(m, s.anchorUst, s.mint)
            && MintAmount(m, s.anchorUst) == Ok(s.mint)
  {
    var s := ShortFor(m, collateral).value;
    DivBounds(collateral * ONE, m.anchorRate);
    MintedAtTargetRatio(m, s.anchorUst);
  }

  /** The terms pass exactly when the asset is listed and the range is wide and meets the margin,
      as far as the sums are representable. */
  lemma TermsPassExactly(terms: Terms, range: Range)
    ensures CheckTerms(terms, range).Ok? <==>
            && !terms.delisted && terms.minCollateralRatio + terms.safetyMargin <= range.min && range.Wide()
            && range.min + range.max <= U128_MAX
    ensures CheckTerms(terms, range).Ok? ==>
            var mid := CheckTerms(terms, range).value; 2 * mid <= range.min + range.max <= 2 * mid + 1
  {}

  // ----- When an opening goes through. -----

  /** More collateral mints no less. */
  lemma MintMono(m: Market, less: nat, more: nat)
    requires less <= more && 0 < m.poolMirrorAsset && ShortFor(m, more).Ok?
    ensures ShortFor(m, less).Ok? && ShortFor(m, less).value.mint <= ShortFor(m, more).value.mint
    ensures var s := ShortFor(m, less).value;
            && s.poolMirrorAsset == m.poolMirrorAsset + s.mint
            && s.poolUusd == m.poolUusd - SwapReturn(m.poolMirrorAsset, m.poolUusd, s.mint)
  {
    var a, b := MulRatio(less, ONE, m.anchorRate), MulRatio(more, ONE, m.anchorRate);
    PostedMono(less, more, m.anchorRate);
    WorthMono(m, a.value, b.value);
    var mint := MintAmount(m, a.value).value;
    assert m.poolMirrorAsset + mint <= U128_MAX;
    assert SimulateSwap(m.poolMirrorAsset, m.poolUusd, mint).Ok?;
  }

  lemma PostedMono(less: nat, more: nat, rate: nat)
    requires less <= more && MulRatio(more, ONE, rate).Ok?
    ensures MulRatio(less, ONE, rate).Ok? && MulRatio(less, ONE, rate).value <= MulRatio(more, ONE, rate).value
  {
    DivMono(less * ONE, more * ONE, rate);
  }

  lemma WorthMono(m: Market, less: nat, more: nat)
    requires less <= more && MintAmount(m, more).Ok?
    ensures MintAmount(m, less).Ok? && MintAmount(m, less).value <= MintAmount(m, more).value
  {
    var price := DecimalDivision(m.anchorRate, m.oracleRate).value;
    var reverse := ReverseDecimal(m.collateralRatio).value;
    ScaledMono(less, more, price);
    ScaledMono(less * price / ONE, more * price / ONE, reverse);
  }

  lemma ScaledMono(less: nat, more: nat, factor: nat)
    requires less <= more
    ensures less * factor / ONE <= more * factor / ONE
  {
    MulMono(less, more, factor);
    DivMono(less * factor, more * factor, ONE);
  }

  /** A pool deep enough for the largest short: it holds at least 3/997 of the mint, and the
      reserves are small beside the largest offer. */
  predicate Deep(m: Market, budget: nat) {
    && budget <= U128_MAX / 2 && 0 < m.poolMirrorAsset && 0 < m.poolUusd
    && ShortFor(m, budget).Ok?
    && var mint := ShortFor(m, budget).value.mint;
       3 * mint <= 997 * (m.poolMirrorAsset - 1) && m.poolUusd * (m.poolMirrorAsset + mint) + budget <= U128_MAX
  }

  /** In a deep pool every probe answers, so that an opening on good terms goes through. */
  lemma DeepPoolAnswers(m: Market, budget: nat)
    requires Deep(m, budget)
    ensures AllAnswer(m, budget)
  {
    forall collateral: nat | collateral == 0 || collateral < budget
      ensures Answers(m, collateral)
    {
      DeepProbeAnswers(m, budget, collateral);
    }
  }

  lemma DeepProbeAnswers(m: Market, budget: nat, collateral: nat)
    requires Deep(m, budget) && collateral <= budget
    ensures Answers(m, collateral)
  {
    MintMono(m, collateral, budget);
    var s, mint := ShortFor(m, collateral).value, ShortFor(m, budget).value.mint;
    UusdRemains(m.poolMirrorAsset, m.poolUusd, s.mint);
    SmallerReserves(s.poolUusd, m.poolUusd, s.poolMirrorAsset, m.poolMirrorAsset + mint);
    LargeOfferAttains(s.poolUusd, s.poolMirrorAsset, s.mint, U128_MAX - collateral);
  }

  lemma SmallerReserves(u: nat, v: nat, m: nat, n: nat)
    requires u <= v && m <= n
    ensures u * m <= v * n
  {
    MulMono(u, v, m);
    MulMono(m, n, v);
  }

  lemma UusdRemains(poolMirrorAsset: nat, poolUusd: nat, mint: nat)
    requires 0 < poolUusd && 3 * mint <= 997 * (poolMirrorAsset - 1)
    ensures SwapReturn(poolMirrorAsset, poolUusd, mint) < poolUusd
  {
    var after := poolMirrorAsset + mint;
    var n := poolMirrorAsset * poolUusd * ONE;
    assert after <= n by {
      MulMono(1, poolUusd, poolMirrorAsset);
      MulMono(poolMirrorAsset, poolMirrorAsset * poolUusd, ONE);
    }
    DivAtLeast(n, after, 1);
    QuotientOfPool(poolMirrorAsset, poolUusd, mint);
  }

  lemma LargeOfferAttains(offerPool: nat, askPool: nat, ask: nat, offer: nat)
    requires 0 < offerPool && offerPool * askPool <= offer && 1000 * ask <= 997 * (askPool - 1)
    ensures SwapReturn(offerPool, askPool, offer) >= ask
  {
    var n := offerPool * askPool * ONE;
    MulMono(offerPool * askPool, offerPool + offer, ONE);
    assert (offerPool + offer) * ONE == ONE * (offerPool + offer);
    DivAtMostExact(n, offerPool + offer, ONE);
    QuotientOfPool(offerPool, askPool, offer);
    var g := GrossReturn(offerPool, askPool, offer);
    assert askPool - 1 <= g;
    NetMoves(askPool - 1, g - (askPool - 1));
    DivBounds((askPool - 1) * COMMISSION, ONE);
  }

  /** More than 332 times as much minted as the pool holds cannot be bought back by any offer,
      and the probe aborts instead of answering that it is infeasible. */
  lemma BeyondPoolAborts(m: Market, collateral: nat)
    requires ShortFor(m, collateral).Ok?
    requires var s := ShortFor(m, collateral).value;
             NetOfCommission(s.poolMirrorAsset) < s.mint < s.poolMirrorAsset
    ensures !Answers(m, collateral)
  {
    var s := ShortFor(m, collateral).value;
    if 0 < s.poolUusd && collateral <= U128_MAX {
      var g := GrossReturn(s.poolUusd, s.poolMirrorAsset, U128_MAX - collateral);
      NetMoves(g, s.poolMirrorAsset - g);
    }
  }

  /** So an opening can abort although a smaller amount of collateral is feasible. */
  lemma FeasibleButAborts() returns (m: Market, budget: nat, collateral: nat)
    ensures 0 < m.poolMirrorAsset && 0 < m.poolUusd && budget <= U128_MAX
    ensures 0 < collateral < budget / 2 && Feasible(m, budget, collateral) && !Answers(m, budget / 2)
  {
    m, budget, collateral := Market(10, 10, ONE, ONE, 2 * ONE), 16_000, 10;
    assert MulDecimal(NINE, ONE) == Ok(NINE) && DecimalDivision(ONE, ONE) == Ok(ONE);
    assert MulDecimal(NINE, 2 * ONE) == Ok(2 * NINE) && ReverseDecimal(2 * ONE) == Ok(ONE / 2);
    assert MintAmount(m, 10) == Ok(5) && MintAmount(m, 8_000) == Ok(4_000);
    assert 10 * 10 * ONE / 15 == 6_666_666_666_666_666_666 && SwapReturn(10, 10, 5) == 3;
    assert ShortFor(m, 10) == Ok(Short(10, 5, 15, 7));
    assert 7 * 15 * ONE / 11 == 9_545_454_545_454_545_454 && SwapReturn(7, 15, 4) == 5;
    assert BuysBack(Short(10, 5, 15, 7), 16_000, 10, 4);
    assert ShortFor(m, 8_000).Ok? && ShortFor(m, 8_000).value.poolMirrorAsset == 4_010;
    assert NetOfCommission(4_010) == 3_998;
    BeyondPoolAborts(m, 8_000);
  }

  // ----- Neutrality of what is opened. -----

  /** The check that ends an opening: a short CDP for exactly the mAsset held. */
  predicate SanityCheck(isShort: bool, mirrorAssetBalance: nat, cdpShort: nat) {
    isShort && mirrorAssetBalance == cdpShort
  }

  /** The mAsset an opening buys, in the pool that Mirror's short sale leaves. */
  function Bought(m: Market, split: Split): nat
    requires ShortFor(m, split.collateral).Ok? && 0 < ShortFor(m, split.collateral).value.poolUusd
  {
    var s := ShortFor(m, split.collateral).value;
    SwapReturn(s.poolUusd, s.poolMirrorAsset, split.longSwap)
  }

  /** The long leg returns what was minted, or up to `k` - 1 more where the pool holds up to
      `k` times as much mAsset as uusd after the short sale. With `k` = 1 the sanity check
      passes. */
  lemma OpensNeutral(m: Market, budget: nat, split: Split, k: nat)
    requires GoodSplit(m, budget, split)
    requires var s := ShortFor(m, split.collateral).value;
             0 < k && s.poolMirrorAsset <= k * s.poolUusd
    ensures var s := ShortFor(m, split.collateral).value;
            && s.mint <= Bought(m, split) <= s.mint + k - 1
            && (k == 1 ==> SanityCheck(true, Bought(m, split), s.mint))
  {
    var s := ShortFor(m, split.collateral).value;
    LeastOfferOvershoot(s.poolUusd, s.poolMirrorAsset, s.mint, split.longSwap, k);
  }

  /** Selling the minted amount short never raises more uusd than buying it back costs. */
  lemma OpeningCosts(m: Market, budget: nat, split: Split)
    requires GoodSplit(m, budget, split) && 0 < m.poolMirrorAsset
    ensures var s := ShortFor(m, split.collateral).value;
            m.poolUusd - s.poolUusd <= split.longSwap
  {
    var s := ShortFor(m, split.collateral).value;
    RoundTripCosts(m.poolMirrorAsset, m.poolUusd, s.mint, m.poolUusd - s.poolUusd, s.poolMirrorAsset, s.poolUusd,
                   split.longSwap);
  }
}
