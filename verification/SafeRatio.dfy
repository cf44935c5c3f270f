/** Keeping the collateral ratio inside the target range: raising the range, repaying debt
    below it, releasing collateral above it. */
module SafeRatio {
  import opened Results
  import opened FixedPoint
  import opened MirrorMath

  /** The least width of a target range, 0.4. */
  const MIN_WIDTH: nat := 400_000_000_000_000_000

  datatype Range = Range(min: nat, max: nat) {

    function Midpoint(): Result<nat> {
      var sum :- Add(min, max);
      Ok(sum / 2)
    }

    predicate Wide() {
      min + MIN_WIDTH <= max
    }
  }

  /** The range once its lower end meets the requirement `required`. */
  function Raised(range: Range, required: nat): Result<Range> {
    if range.min < required then
      var least :- Add(required, MIN_WIDTH);
      Ok(Range(required, if range.max < least then least else range.max))
    else Ok(range)
  }

  /** A wide range stays wide, and neither end ever falls. */
  lemma RaisedOnlyRises(range: Range, required: nat)
    requires Raised(range, required).Ok?
    ensures var raised := Raised(range, required).value;
            && raised.min >= range.min && raised.max >= range.max && raised.min >= required
            && (range.Wide() ==> raised.Wide())
  {}

  /** A wide range is raised no further than it has to be. */
  lemma RaisedLeast(range: Range, required: nat, other: Range)
    requires range.Wide() && Raised(range, required).Ok?
    requires other.Wide() && other.min >= range.min && other.max >= range.max && other.min >= required
    ensures var raised := Raised(range, required).value;
            raised.min <= other.min && raised.max <= other.max
  {}

  /** A CDP and the prices it is valued at. */
  datatype Cdp = Cdp(collateral: nat, collateralPrice: nat, short: nat, shortPrice: nat) {

    function CollateralValue(): Result<nat> {
      MulDecimal(collateral, collateralPrice)
    }

    /** What the short amount is worth in uusd, rounded down. */
    function Obligation(): Result<nat> {
      MulDecimal(short, shortPrice)
    }

    function Ratio(): Result<nat> {
      var value :- CollateralValue();
      var obligation :- Obligation();
      FromRatio(value, obligation)
    }

    /** At least `ratio` in uusd of collateral for each uusd owed. */
    predicate Covers(ratio: nat) {
      ratio * (short * shortPrice / ONE) <= collateral * collateralPrice / ONE * ONE
    }
  }

  /** Covering a ratio is the recomputed ratio being at least that. */
  lemma CoversIsRatio(cdp: Cdp, least: nat)
    requires cdp.Ratio().Ok?
    ensures cdp.Covers(least) <==> least <= cdp.Ratio().value
  {
    var value, owed := cdp.CollateralValue().value, cdp.Obligation().value;
    DivBounds(value * ONE, owed);
    if least * owed <= value * ONE {
      DivAtLeast(value * ONE, owed, least);
    } else {
      DivAtMost(value * ONE, owed, least - 1);
    }
  }

  datatype Adjustment = Keep | Burn(mirrorAsset: nat) | Release(collateral: nat)

  function TargetShort(cdp: Cdp, range: Range): Result<nat> {
    var value :- cdp.CollateralValue();
    var midpoint :- range.Midpoint();
    var price :- DecimalMultiplication(midpoint, cdp.shortPrice);
    var reverse :- ReverseDecimal(price);
    MulDecimal(value, reverse)
  }

  function TargetCollateral(cdp: Cdp, range: Range): Result<nat> {
    var obligation :- cdp.Obligation();
    var midpoint :- range.Midpoint();
    var ratio :- DecimalDivision(midpoint, cdp.collateralPrice);
    MulDecimal(obligation, ratio)
  }

  /** What to do to the CDP; collateral stays put while short proceeds are locked in it. */
  function Adjust(cdp: Cdp, range: Range, lockedUusd: nat): Result<Adjustment> {
    var ratio :- cdp.Ratio();
    if ratio < range.min then
      var target :- TargetShort(cdp, range);
      var burn :- Sub(cdp.short, target);
      Ok(Burn(burn))
    else if ratio > range.max then
      if lockedUusd != 0 then Ok(Keep)
      else
        var target :- TargetCollateral(cdp, range);
        var release :- Sub(cdp.collateral, target);
        Ok(Release(release))
    else Ok(Keep)
  }

  function After(cdp: Cdp, adjustment: Adjustment): Cdp
    requires adjustment.Burn? ==> adjustment.mirrorAsset <= cdp.short
    requires adjustment.Release? ==> adjustment.collateral <= cdp.collateral
  {
    match adjustment
    case Keep => cdp
    case Burn(mirrorAsset) => cdp.(short := cdp.short - mirrorAsset)
    case Release(collateral) => cdp.(collateral := cdp.collateral - collateral)
  }

  lemma MidpointInside(range: Range)
    requires range.Wide() && range.Midpoint().Ok?
    ensures var mid := range.Midpoint().value;
            && range.min + MIN_WIDTH / 2 <= mid && mid + MIN_WIDTH / 2 <= range.max
            && 2 * mid <= range.min + range.max <= 2 * mid + 1
  {}

  /** A CDP is left alone exactly inside the range, or above it while short proceeds are locked. */
  lemma KeptExactly(cdp: Cdp, range: Range, lockedUusd: nat)
    requires cdp.Ratio().Ok?
    ensures Adjust(cdp, range, lockedUusd) == Ok(Keep)
       <==> range.min <= cdp.Ratio().value && (cdp.Ratio().value <= range.max || 0 < lockedUusd)
    ensures Adjust(cdp, range, lockedUusd).Ok? && cdp.Ratio().value < range.min ==>
              Adjust(cdp, range, lockedUusd).value.Burn?
    ensures Adjust(cdp, range, lockedUusd).Ok? && cdp.Ratio().value > range.max >= range.min && lockedUusd == 0 ==>
              Adjust(cdp, range, lockedUusd).value.Release?
  {}

  // ----- Below the range. -----

  lemma TargetShortBounds(cdp: Cdp, range: Range)
    requires range.Wide() && cdp.shortPrice >= 10_000_000_000 && TargetShort(cdp, range).Ok?
    ensures var value := cdp.collateral * cdp.collateralPrice / ONE;
            var target := TargetShort(cdp, range).value;
            exists q: nat :: target * q <= value * NINE && range.min * cdp.shortPrice <= q * NINE * ONE
  {
    var value := cdp.CollateralValue().value;
    var mid := range.Midpoint().value;
    var nine := mid / NINE;
    var q := nine * cdp.shortPrice / ONE;
    MidpointInside(range);
    var price := DecimalMultiplication(mid, cdp.shortPrice).value;
    MultiplicationError(mid, cdp.shortPrice);
    assert price == q * NINE;
    assert price / NINE == q by { DivAtLeast(price, NINE, q); DivAtMost(price, NINE, q); }
    var reverse := ReverseDecimal(price).value;
    ReverseError(price);
    assert reverse * q <= NINE * ONE;
    var target := TargetShort(cdp, range).value;
    DivBounds(value * reverse, ONE);
    TargetTimesQ(value, reverse, q, target);
    NineDigits(mid);
    DivBounds(nine * cdp.shortPrice, ONE);
    PriceFloor(range.min, mid, nine, cdp.shortPrice, q);
  }

  lemma TargetTimesQ(value: nat, reverse: nat, q: nat, target: nat)
    requires reverse * q <= NINE * ONE && target * ONE <= value * reverse
    ensures target * q <= value * NINE
  {
    MulMono(target * ONE, value * reverse, q);
    MulMono(reverse * q, NINE * ONE, value);
    assert target * ONE * q == target * q * ONE;
    assert value * reverse * q == reverse * q * value;
  }

  lemma PriceFloor(min: nat, mid: nat, nine: nat, price: nat, q: nat)
    requires min + MIN_WIDTH / 2 <= mid && price >= 10_000_000_000
    requires nine * NINE <= mid < nine * NINE + NINE
    requires nine * price < (q + 1) * ONE
    ensures min * price <= q * NINE * ONE
  {
    MulMono(min + MIN_WIDTH / 2 - NINE, nine * NINE, price);
    assert nine * NINE * price == nine * price * NINE;
    assert (min + MIN_WIDTH / 2 - NINE) * price == min * price + (MIN_WIDTH / 2 - NINE) * price;
  }

  /** The roundings between the collateral's worth and the debt it is to cover at the midpoint `mid`:
      `q` is the nine-digit worth of midpoint and price, `reverse` its reciprocal. */
  predicate IsLeft(value: nat, mid: nat, shortPrice: nat, q: nat, reverse: nat, left: nat) {
    && q * ONE <= mid / NINE * shortPrice < (q + 1) * ONE
    && reverse * q <= NINE * ONE < (reverse + 1) * q
    && left * ONE <= value * reverse < (left + 1) * ONE
  }

  lemma LeftSteps(cdp: Cdp, range: Range) returns (q: nat, reverse: nat)
    requires TargetShort(cdp, range).Ok?
    ensures IsLeft(cdp.CollateralValue().value, range.Midpoint().value, cdp.shortPrice, q, reverse,
                   TargetShort(cdp, range).value)
  {
    var mid := range.Midpoint().value;
    var price := DecimalMultiplication(mid, cdp.shortPrice).value;
    q := mid / NINE * cdp.shortPrice / ONE;
    MultiplicationError(mid, cdp.shortPrice);
    DivBounds(mid / NINE * cdp.shortPrice, ONE);
    WholeNines(q);
    reverse := ReverseDecimal(price).value;
    ReverseError(price);
    DivBounds(cdp.CollateralValue().value * reverse, ONE);
  }

  lemma WholeNines(q: nat)
    ensures q * NINE / NINE == q
  {
    DivAtLeast(q * NINE, NINE, q);
    DivAtMost(q * NINE, NINE, q);
  }

  /** Below the range what is burned leaves the debt that the roundings say, and no other. */
  lemma BurnExact(cdp: Cdp, range: Range, lockedUusd: nat, q: nat, reverse: nat, left: nat)
    requires Adjust(cdp, range, lockedUusd).Ok? && Adjust(cdp, range, lockedUusd).value.Burn?
    requires IsLeft(cdp.CollateralValue().value, range.Midpoint().value, cdp.shortPrice, q, reverse, left)
    ensures left <= cdp.short && Adjust(cdp, range, lockedUusd) == Ok(Burn(cdp.short - left))
  {
    var other, back := LeftSteps(cdp, range);
    LeftUnique(cdp.CollateralValue().value, range.Midpoint().value, cdp.shortPrice, q, reverse, left, other, back,
               TargetShort(cdp, range).value);
  }

  lemma LeftUnique(value: nat, mid: nat, price: nat, q: nat, r: nat, left: nat, q': nat, r': nat, left': nat)
    requires IsLeft(value, mid, price, q, r, left) && IsLeft(value, mid, price, q', r', left')
    ensures left == left'
  {
    SameQuotient(mid / NINE * price, ONE, q, q');
    SameQuotient(NINE * ONE, q, r, r');
    SameQuotient(value * r, ONE, left, left');
  }

  lemma SameQuotient(n: nat, d: nat, q: nat, r: nat)
    requires q * d <= n < (q + 1) * d && r * d <= n < (r + 1) * d
    ensures q == r
  {
    if q < r {
      MulMono(q + 1, r, d);
    } else if r < q {
      MulMono(r + 1, q, d);
    }
  }

  /** Below the range no more is burned than the midpoint asks for, and no less: but for the lost
      digits, the debt that is left is covered at the midpoint and one unit more would not be. */
  lemma BurnReachesMidpoint(cdp: Cdp, range: Range, lockedUusd: nat) returns (value: nat, mid: nat, left: nat)
    requires Adjust(cdp, range, lockedUusd).Ok? && Adjust(cdp, range, lockedUusd).value.Burn?
    ensures cdp.CollateralValue() == Ok(value) && range.Midpoint() == Ok(mid)
    ensures left <= cdp.short && Adjust(cdp, range, lockedUusd) == Ok(Burn(cdp.short - left))
    ensures left * (mid / NINE * cdp.shortPrice - ONE) <= value * NINE * ONE
    ensures value * ONE * ONE * ONE < ((left + 1) * ONE + value) * (mid * cdp.shortPrice)
  {
    var q, reverse := LeftSteps(cdp, range);
    value, mid, left := cdp.CollateralValue().value, range.Midpoint().value, TargetShort(cdp, range).value;
    LeftAtMost(value, q, reverse, left, mid / NINE * cdp.shortPrice);
    NineDigits(mid);
    LeftAtLeast(value, q, reverse, left, mid / NINE, mid, cdp.shortPrice);
  }

  lemma LeftAtMost(value: nat, q: nat, r: nat, left: nat, n: nat)
    requires r * q <= NINE * ONE && left * ONE <= value * r && n < (q + 1) * ONE
    ensures left * (n - ONE) <= value * NINE * ONE
  {
    TargetTimesQ(value, r, q, left);
    IntMulMono(n - ONE, q * ONE, left);
    assert left * (q * ONE) == left * q * ONE;
  }

  lemma LeftAtLeast(value: nat, q: nat, r: nat, left: nat, nine: nat, mid: nat, price: nat)
    requires NINE * ONE < (r + 1) * q && value * r < (left + 1) * ONE
    requires q * ONE <= nine * price && nine * NINE <= mid
    ensures value * ONE * ONE * ONE < ((left + 1) * ONE + value) * (mid * price)
  {
    var all := (left + 1) * ONE + value;
    IntMulMono(NINE * ONE, (r + 1) * q, value);
    assert value * ((r + 1) * q) == (value * r + value) * q;
    StrictMul(q, value * r + value, all);
    assert q * (value * r + value) == (value * r + value) * q && q * all == all * q;
    assert value * (NINE * ONE) < all * q;
    MidTimesPrice(q, nine, mid, price);
    IntMulMono(q * NINE * ONE, mid * price, all);
    assert all * (q * NINE * ONE) == all * q * NINE * ONE;
    assert value * (NINE * ONE) * NINE * ONE == value * ONE * ONE * ONE;
  }

  lemma MidTimesPrice(q: nat, nine: nat, mid: nat, price: nat)
    requires q * ONE <= nine * price && nine * NINE <= mid
    ensures q * NINE * ONE <= mid * price
  {
    MulMono(nine * NINE, mid, price);
    assert nine * NINE * price == nine * price * NINE;
  }

  /** Below the range, with prices of at least 10^-8, the amount to burn never underflows, and
      burning it brings the recomputed ratio back to the range's lower end or above. */
  lemma BurnRestoresRatio(cdp: Cdp, range: Range, lockedUusd: nat)
    requires range.Wide() && cdp.shortPrice >= 10_000_000_000
    requires cdp.Ratio().Ok? && cdp.Ratio().value < range.min
    ensures var adjusted := Adjust(cdp, range, lockedUusd);
            && (TargetShort(cdp, range).Ok? ==> adjusted.Ok?)
            && (adjusted.Err? ==> adjusted.error == Overflow)
            && (adjusted.Ok? ==>
                  && adjusted.value.Burn? && adjusted.value.mirrorAsset <= cdp.short
                  && After(cdp, adjusted.value).Covers(range.min)
                  && var after := After(cdp, adjusted.value).Ratio();
                     after.Ok? ==> after.value >= range.min)
  {
    TargetShortOverflows(cdp, range);
    if TargetShort(cdp, range).Ok? {
      var target := TargetShort(cdp, range).value;
      var value := cdp.CollateralValue().value;
      var owed := cdp.Obligation().value;
      TargetShortBounds(cdp, range);
      var q: nat :| target * q <= value * NINE && range.min * cdp.shortPrice <= q * NINE * ONE;
      DivBounds(cdp.short * cdp.shortPrice, ONE);
      DivBounds(value * ONE, owed);
      BurnFits(value, owed, cdp.short, cdp.shortPrice, range.min, target, q);
      var left := target * cdp.shortPrice / ONE;
      DivBounds(target * cdp.shortPrice, ONE);
      LeftCovered(value, target, cdp.shortPrice, range.min, q, left);
      var after := After(cdp, Burn(cdp.short - target));
      if after.Ratio().Ok? {
        CoversIsRatio(after, range.min);
      }
    }
  }

  /** At such prices the target amount fails to compute only by overflow. */
  lemma TargetShortOverflows(cdp: Cdp, range: Range)
    requires range.Wide() && cdp.shortPrice >= 10_000_000_000 && cdp.Ratio().Ok?
    ensures TargetShort(cdp, range).Err? ==> TargetShort(cdp, range).error == Overflow
  {
    if range.Midpoint().Ok? && DecimalMultiplication(range.Midpoint().value, cdp.shortPrice).Ok? {
      var mid := range.Midpoint().value;
      MidpointInside(range);
      MultiplicationError(mid, cdp.shortPrice);
      NineDigits(mid);
      var nine, price := mid / NINE, DecimalMultiplication(mid, cdp.shortPrice).value;
      var q := nine * cdp.shortPrice / ONE;
      MulMono(10_000_000_000, cdp.shortPrice, nine);
      DivAtLeast(nine * cdp.shortPrice, ONE, 1);
      NineDigits(price);
      DivAtLeast(price, NINE, q);
    }
  }

  lemma BurnFits(value: nat, owed: nat, short: nat, price: nat, min: nat, target: nat, q: nat)
    requires 0 < owed && value * ONE < (value * ONE / owed + 1) * owed && value * ONE / owed < min
    requires owed * ONE <= short * price
    requires target * q <= value * NINE && min * price <= q * NINE * ONE
    ensures target <= short
  {
    var ratio := value * ONE / owed;
    assert value * ONE < min * owed by { MulMono(ratio + 1, min, owed); }
    DebtAboveValue(value, owed, short, price, min, q);
    if short < target {
      MulMono(short, target, q);
      assert false;
    }
  }

  lemma DebtAboveValue(value: nat, owed: nat, short: nat, price: nat, min: nat, q: nat)
    requires value * ONE < min * owed && owed * ONE <= short * price && min * price <= q * NINE * ONE
    ensures value * NINE < short * q
  {
    MulMono(owed * ONE, short * price, min);
    assert owed * ONE * min == min * owed * ONE;
    assert short * price * min == min * price * short;
    MulMono(min * price, q * NINE * ONE, short);
    assert q * NINE * ONE * short == short * q * NINE * ONE;
  }

  lemma LeftCovered(value: nat, target: nat, price: nat, min: nat, q: nat, left: nat)
    requires target * q <= value * NINE && min * price <= q * NINE * ONE
    requires left * ONE <= target * price
    ensures min * left <= value * ONE
  {
    MulMono(left * ONE, target * price, min);
    assert left * ONE * min == min * left * ONE;
    assert target * price * min == min * price * target;
    MulMono(min * price, q * NINE * ONE, target);
    assert q * NINE * ONE * target == target * q * NINE * ONE;
  }

  // ----- Above the range. -----

  /** The collateral tokens to keep for each uusd owed. */
  function TokensPerUusd(range: Range, collateralPrice: nat): Result<nat> {
    var midpoint :- range.Midpoint();
    DecimalDivision(midpoint, collateralPrice)
  }

  predicate Representable(cdp: Cdp) {
    cdp.collateral <= U128_MAX && cdp.collateralPrice <= U128_MAX && cdp.short <= U128_MAX && cdp.shortPrice <= U128_MAX
  }

  /** No CDP above the range, at this collateral price, has less collateral than its target. */
  ghost predicate NeverUnderflows(range: Range, collateralPrice: nat) {
    forall cdp: Cdp :: cdp.collateralPrice == collateralPrice && Representable(cdp) && AboveRange(cdp, range) ==>
      Adjust(cdp, range, 0) != Err(Underflow)
  }

  predicate AboveRange(cdp: Cdp, range: Range) {
    cdp.Ratio().Ok? && cdp.Ratio().value > range.max
  }

  /** Above the range the collateral released never underflows where the tokens kept for each
      uusd are worth no more than the range's upper end. */
  lemma ReleaseFits(cdp: Cdp, range: Range, tokens: nat)
    requires range.Wide() && AboveRange(cdp, range) && TokensPerUusd(range, cdp.collateralPrice) == Ok(tokens)
    requires tokens * cdp.collateralPrice <= (range.max + 1) * ONE
    ensures TargetCollateral(cdp, range).Ok? ==>
      && TargetCollateral(cdp, range).value <= cdp.collateral
      && Adjust(cdp, range, 0) == Ok(Release(cdp.collateral - TargetCollateral(cdp, range).value))
    ensures TargetCollateral(cdp, range).Err? ==> Adjust(cdp, range, 0) == Err(Overflow)
  {
    var price := cdp.collateralPrice;
    var value, owed := cdp.CollateralValue().value, cdp.Obligation().value;
    DivBounds(value * ONE, owed);
    DivBounds(cdp.collateral * price, ONE);
    var ratio := value * ONE / owed;
    assert (range.max + 1) * owed <= cdp.collateral * price by { MulMono(range.max + 1, ratio, owed); }
    var target := owed * tokens / ONE;
    DivBounds(owed * tokens, ONE);
    DivisionError(range.Midpoint().value, price);
    TargetWithin(owed, tokens, price, range.max + 1, cdp.collateral, target);
  }

  lemma TargetWithin(owed: nat, tokens: nat, price: nat, bound: nat, collateral: nat, target: nat)
    requires 0 < price && target * ONE <= owed * tokens
    requires tokens * price <= bound * ONE && bound * owed <= collateral * price
    ensures target <= collateral
  {
    MulMono(target * ONE, owed * tokens, price);
    MulMono(tokens * price, bound * ONE, owed);
    assert owed * tokens * price == tokens * price * owed;
    assert bound * ONE * owed == bound * owed * ONE;
    assert target * ONE * price == target * price * ONE;
    Cancel(target, collateral, price);
  }

  /** The CDP that is hardest to release from: one token less than its target. */
  function Hardest(price: nat, tokens: nat): Cdp
    requires 0 < price * tokens
  {
    Cdp(price * tokens - 1, price, price * ONE, ONE)
  }

  /** Where the tokens are worth more than the upper end, the price is tiny. */
  lemma OnlyTinyPrices(range: Range, price: nat, tokens: nat)
    requires range.Wide() && TokensPerUusd(range, price) == Ok(tokens)
    requires tokens * price > (range.max + 1) * ONE && tokens * price <= U128_MAX
    ensures price <= ONE
  {
    var mid := range.Midpoint().value;
    MidpointInside(range);
    DivisionError(mid, price);
    assert tokens * (price - (NINE - 1)) == tokens * price - tokens * (NINE - 1);
    assert tokens * (NINE - 1) > MIN_WIDTH / 2 * ONE;
    if price > ONE {
      MulMono(ONE, price, tokens);
      assert false;
    }
  }

  lemma HardestUnderflows(range: Range, price: nat, tokens: nat)
    requires range.Wide() && TokensPerUusd(range, price) == Ok(tokens)
    requires tokens * price > (range.max + 1) * ONE && tokens * price <= U128_MAX
    ensures 0 < price * tokens
    ensures var cdp := Hardest(price, tokens);
            Representable(cdp) && AboveRange(cdp, range) && Adjust(cdp, range, 0) == Err(Underflow)
  {
    OnlyTinyPrices(range, price, tokens);
    assert price * tokens == tokens * price;
    var cdp := Hardest(price, tokens);
    WholeOnes(price * ONE);
    HardestRatio(price, cdp.collateral, range.max);
    assert cdp.Obligation() == Ok(price * ONE);
    assert price * ONE * tokens == price * tokens * ONE;
    WholeOnes(price * tokens);
    assert TargetCollateral(cdp, range) == Ok(price * tokens);
  }

  lemma WholeOnes(n: nat)
    ensures n * ONE / ONE == n
  {
    DivAtLeast(n * ONE, ONE, n);
    DivAtMostExact(n * ONE, ONE, n);
  }

  lemma HardestRatio(price: nat, collateral: nat, max: nat)
    requires 0 < price <= ONE && (max + 1) * ONE <= collateral <= U128_MAX
    ensures var value := collateral * price / ONE;
            value <= U128_MAX && max < value * ONE / (price * ONE) <= U128_MAX
  {
    var value := collateral * price / ONE;
    FractionAtMost(collateral, price, ONE);
    assert (max + 1) * price <= value by {
      MulMono((max + 1) * ONE, collateral, price);
      assert (max + 1) * ONE * price == (max + 1) * price * ONE;
      DivAtLeast(collateral * price, ONE, (max + 1) * price);
    }
    assert (max + 1) * (price * ONE) == (max + 1) * price * ONE;
    DivAtLeast(value * ONE, price * ONE, max + 1);
    assert value * ONE <= value * (price * ONE) by { MulMono(ONE, price * ONE, value); }
    DivAtMostExact(value * ONE, price * ONE, value);
  }

  /** Releasing never underflows exactly where the tokens kept for each uusd are worth no more
      than the range's upper end. The product is that of the amounts in the hardest CDP. */
  lemma ReleaseFitsExactly(range: Range, price: nat, tokens: nat)
    requires range.Wide() && TokensPerUusd(range, price) == Ok(tokens) && tokens * price <= U128_MAX
    ensures NeverUnderflows(range, price) <==> tokens * price <= (range.max + 1) * ONE
  {
    if tokens * price <= (range.max + 1) * ONE {
      forall cdp: Cdp | cdp.collateralPrice == price && Representable(cdp) && AboveRange(cdp, range)
        ensures Adjust(cdp, range, 0) != Err(Underflow)
      {
        ReleaseFits(cdp, range, tokens);
      }
    } else {
      HardestUnderflows(range, price, tokens);
      var cdp := Hardest(price, tokens);
      assert Adjust(cdp, range, 0) == Err(Underflow);
    }
  }

  lemma TokensWorth(range: Range, price: nat, tokens: nat)
    requires TokensPerUusd(range, price) == Ok(tokens)
    ensures var mid := range.Midpoint().value;
            && 0 < price / NINE && tokens * NINE * (price / NINE) <= mid * ONE
            && tokens * price <= mid * ONE + tokens * NINE
  {
    var mid := range.Midpoint().value;
    DivisionError(mid, price);
    NineDigits(mid);
    assert tokens * (price - (NINE - 1)) == tokens * price - tokens * (NINE - 1);
    assert tokens * NINE * (price / NINE) == tokens * (price / NINE) * NINE;
    MulMono(mid / NINE * NINE, mid, ONE);
    assert mid / NINE * ONE * NINE == mid / NINE * NINE * ONE;
  }

  /** The product is representable for every range of up to 170. */
  lemma UsualRanges(range: Range, price: nat, tokens: nat)
    requires range.Wide() && range.max <= 170 * ONE && TokensPerUusd(range, price) == Ok(tokens)
    ensures tokens * price <= U128_MAX
  {
    MidpointInside(range);
    TokensWorth(range, price, tokens);
    MulMono(1, price / NINE, tokens * NINE);
  }

  /** It is enough that the price, cut to nine digits, is at least midpoint / (max - midpoint). */
  lemma NineDigitsSuffice(range: Range, price: nat, tokens: nat)
    requires range.Wide() && TokensPerUusd(range, price) == Ok(tokens)
    requires var mid := range.Midpoint().value;
             mid <= (range.max - mid) * (price / NINE)
    ensures tokens * price <= (range.max + 1) * ONE
  {
    var mid, nine := range.Midpoint().value, price / NINE;
    MidpointInside(range);
    TokensWorth(range, price, tokens);
    MulMono(mid, (range.max - mid) * nine, ONE);
    assert (range.max - mid) * nine * ONE == (range.max - mid) * ONE * nine;
    Cancel(tokens * NINE, (range.max - mid) * ONE, nine);
  }

  /** The condition holds whenever a token of collateral is worth at least 1 uusd and the
      range stays below 10^8. */
  lemma CollateralAboveOne(range: Range, price: nat, tokens: nat)
    requires range.Wide() && TokensPerUusd(range, price) == Ok(tokens) && price >= ONE
    requires range.max <= 100_000_000 * ONE
    ensures tokens * price <= (range.max + 1) * ONE
  {
    MidpointInside(range);
    var mid := range.Midpoint().value;
    DivAtLeast(price, NINE, NINE);
    MulMono(MIN_WIDTH / 2, range.max - mid, price / NINE);
    MulMono(NINE, price / NINE, MIN_WIDTH / 2);
    NineDigitsSuffice(range, price, tokens);
  }

  /** What is kept for an obligation is worth, rounded down to tokens and then to uusd. */
  function KeptWorth(owed: nat, tokens: nat, price: nat): nat {
    owed * tokens / ONE * price / ONE
  }

  /** However much collateral there was above the range, the ratio recomputed after the release is
      at least the lower end exactly if what is kept for the obligation is worth it. */
  lemma ReleaseKeepsExactly(cdp: Cdp, range: Range, tokens: nat)
    requires Adjust(cdp, range, 0).Ok? && Adjust(cdp, range, 0).value.Release?
    requires TokensPerUusd(range, cdp.collateralPrice) == Ok(tokens)
    ensures var after, owed := After(cdp, Adjust(cdp, range, 0).value), cdp.Obligation().value;
            var kept := range.min * owed <= KeptWorth(owed, tokens, cdp.collateralPrice) * ONE;
            (after.Covers(range.min) <==> kept) && (after.Ratio().Ok? ==> (after.Ratio().value >= range.min <==> kept))
  {
    var after := After(cdp, Adjust(cdp, range, 0).value);
    assert after == cdp.(collateral := TargetCollateral(cdp, range).value);
    if after.Ratio().Ok? {
      CoversIsRatio(after, range.min);
    }
  }

  /** Above the range no more is released than the midpoint allows, and no less: `tokens` for each
      uusd owed, at the midpoint's nine-digit price, and the collateral kept are both rounded down. */
  lemma ReleaseExact(cdp: Cdp, range: Range, tokens: nat, kept: nat)
    requires Adjust(cdp, range, 0).Ok? && Adjust(cdp, range, 0).value.Release?
    requires var mid, price, owed := range.Midpoint().value, cdp.collateralPrice, cdp.Obligation().value;
             && tokens * (price / NINE) <= mid / NINE * ONE < (tokens + 1) * (price / NINE)
             && kept * ONE <= owed * tokens < (kept + 1) * ONE
    ensures kept <= cdp.collateral && Adjust(cdp, range, 0) == Ok(Release(cdp.collateral - kept))
  {
    var mid, price, owed := range.Midpoint().value, cdp.collateralPrice, cdp.Obligation().value;
    DivisionError(mid, price);
    SameQuotient(mid / NINE * ONE, price / NINE, tokens, DecimalDivision(mid, price).value);
    DivBounds(owed * tokens, ONE);
    SameQuotient(owed * tokens, ONE, kept, TargetCollateral(cdp, range).value);
  }

  /** What is kept is worth the midpoint times the obligation, but for the lost digits. */
  lemma ReleaseReachesMidpoint(cdp: Cdp, range: Range) returns (owed: nat, mid: nat, kept: nat)
    requires Adjust(cdp, range, 0).Ok? && Adjust(cdp, range, 0).value.Release?
    ensures cdp.Obligation() == Ok(owed) && range.Midpoint() == Ok(mid)
    ensures kept <= cdp.collateral && Adjust(cdp, range, 0) == Ok(Release(cdp.collateral - kept))
    ensures kept * (cdp.collateralPrice - (NINE - 1)) <= owed * mid
    ensures owed * (mid - NINE) * ONE
         <= kept * cdp.collateralPrice * ONE + cdp.collateralPrice * owed + ONE * cdp.collateralPrice
  {
    var price := cdp.collateralPrice;
    mid, owed, kept := range.Midpoint().value, cdp.Obligation().value, TargetCollateral(cdp, range).value;
    var ratio := DecimalDivision(mid, price).value;
    DivisionError(mid, price);
    ReleasedValue(owed, mid, price, ratio, kept);
    DivBounds(owed * ratio, ONE);
    KeptAtMost(owed, ratio, kept, price - (NINE - 1), mid);
  }

  lemma KeptAtMost(owed: nat, ratio: nat, kept: nat, price: int, mid: nat)
    requires kept * ONE <= owed * ratio && ratio * price <= mid * ONE
    ensures kept * price <= owed * mid
  {
    if 0 <= price {
      MulMono(kept * ONE, owed * ratio, price);
      assert kept * ONE * price == kept * price * ONE && owed * ratio * price == owed * (ratio * price);
      IntMulMono(ratio * price, mid * ONE, owed);
      assert owed * (mid * ONE) == owed * mid * ONE;
    } else {
      assert kept * price <= 0;
    }
  }

  /** An obligation large enough for the slack between midpoint and lower end to pay for one
      token, one uusd and the lost digits. */
  predicate LargeObligation(range: Range, mid: nat, price: nat, owed: nat) {
    (price + ONE) * ONE <= owed * ((mid - range.min - NINE) * ONE - price)
  }

  /** Above the range, releasing keeps the recomputed ratio at the range's lower end or above
      for every large enough obligation. */
  lemma ReleaseKeepsRatio(cdp: Cdp, range: Range)
    requires range.Wide() && Adjust(cdp, range, 0).Ok? && Adjust(cdp, range, 0).value.Release?
    requires LargeObligation(range, range.Midpoint().value, cdp.collateralPrice, cdp.Obligation().value)
    ensures var after := After(cdp, Adjust(cdp, range, 0).value);
            after.Covers(range.min) && (after.Ratio().Ok? ==> after.Ratio().value >= range.min)
  {
    var mid, price, owed := range.Midpoint().value, cdp.collateralPrice, cdp.Obligation().value;
    ReleasedCovers(range, owed, mid, price, DecimalDivision(mid, price).value);
    var after := After(cdp, Adjust(cdp, range, 0).value);
    if after.Ratio().Ok? {
      CoversIsRatio(after, range.min);
    }
  }

  /** Ten times 1 + collateral price is large enough for any range. */
  lemma TenfoldObligation(range: Range, mid: nat, price: nat, owed: nat)
    requires range.min + MIN_WIDTH / 2 <= mid && price <= 10_000_000_000_000_000 * ONE
    requires price + ONE <= MIN_WIDTH / 4 * owed
    ensures LargeObligation(range, mid, price, owed)
  {
    IntMulMono(MIN_WIDTH / 4 * ONE, (mid - range.min - NINE) * ONE - price, owed);
    assert MIN_WIDTH / 4 * owed * ONE == owed * (MIN_WIDTH / 4 * ONE);
    MulMono(price + ONE, MIN_WIDTH / 4 * owed, ONE);
  }

  lemma ReleasedCovers(range: Range, owed: nat, mid: nat, price: nat, ratio: nat)
    requires DecimalDivision(mid, price) == Ok(ratio) && LargeObligation(range, mid, price, owed)
    ensures range.min * owed <= owed * ratio / ONE * price / ONE * ONE
  {
    var target := owed * ratio / ONE;
    ReleasedValue(owed, mid, price, ratio, target);
    DivBounds(target * price, ONE);
    KeepValue(owed, range.min, mid, price, target, target * price / ONE);
  }

  lemma ReleasedValue(owed: nat, mid: nat, price: nat, ratio: nat, target: nat)
    requires DecimalDivision(mid, price) == Ok(ratio) && target == owed * ratio / ONE
    ensures owed * (mid - NINE) * ONE <= target * price * ONE + price * owed + ONE * price
  {
    DivisionError(mid, price);
    NineDigits(mid);
    NineDigits(price);
    DivBounds(owed * ratio, ONE);
    KeepTarget(owed, ratio, mid, mid / NINE, price, price / NINE, target);
  }

  lemma KeepTarget(owed: nat, ratio: nat, mid: nat, nineMid: nat, price: nat, nine: nat, target: nat)
    requires mid < nineMid * NINE + NINE && nine * NINE <= price
    requires nineMid * ONE < (ratio + 1) * nine && owed * ratio < (target + 1) * ONE
    ensures owed * (mid - NINE) * ONE <= target * price * ONE + price * owed + ONE * price
  {
    KeepDivision(owed, ratio, nineMid, nine, target);
    KeepPrice(owed, mid, nineMid, price, nine, target);
  }

  lemma KeepValue(owed: nat, min: nat, mid: nat, price: nat, target: nat, value: nat)
    requires owed * (mid - NINE) * ONE <= target * price * ONE + price * owed + ONE * price
    requires target * price < (value + 1) * ONE
    requires (price + ONE) * ONE <= owed * ((mid - min - NINE) * ONE - price)
    ensures min * owed <= value * ONE
  {
    assert owed * ((mid - min - NINE) * ONE - price) == owed * (mid - NINE) * ONE - min * owed * ONE - price * owed;
  }

  lemma KeepDivision(owed: nat, ratio: nat, nineMid: nat, nine: nat, target: nat)
    requires nineMid * ONE < (ratio + 1) * nine && owed * ratio < (target + 1) * ONE
    ensures owed * nineMid * ONE <= target * nine * ONE + (owed + ONE) * nine
  {
    MulMono(nineMid * ONE, (ratio + 1) * nine, owed);
    assert nineMid * ONE * owed == owed * nineMid * ONE;
    assert (ratio + 1) * nine * owed == owed * ratio * nine + owed * nine;
    MulMono(owed * ratio, (target + 1) * ONE, nine);
    assert (target + 1) * ONE * nine == target * nine * ONE + ONE * nine;
    assert (owed + ONE) * nine == owed * nine + ONE * nine;
  }

  lemma KeepPrice(owed: nat, mid: nat, nineMid: nat, price: nat, nine: nat, target: nat)
    requires mid < nineMid * NINE + NINE && nine * NINE <= price
    requires owed * nineMid * ONE <= target * nine * ONE + (owed + ONE) * nine
    ensures owed * (mid - NINE) * ONE <= target * price * ONE + price * owed + ONE * price
  {
    MulMono(nine * NINE, price, target);
    assert nine * NINE * target == target * nine * NINE;
    MulMono(nine * NINE, price, owed + ONE);
    assert nine * NINE * (owed + ONE) == (owed + ONE) * nine * NINE;
    assert price * (owed + ONE) == price * owed + ONE * price;
    IntMulMono(mid - NINE, nineMid * NINE, owed);
    assert owed * (nineMid * NINE) == owed * nineMid * NINE;
  }

  /** Smaller obligations can be left far below the range: owing 1 uusd against a target of
      2.0, collateral worth 1.6 a token is released down to a single token. */
  lemma SmallObligationFallsShort()
    ensures var cdp := Cdp(100, 1_600_000_000_000_000_000, 1, ONE);
            var range := Range(1_800_000_000_000_000_000, 2_200_000_000_000_000_000);
            && Adjust(cdp, range, 0) == Ok(Release(99))
            && !After(cdp, Release(99)).Covers(range.min)
  {
    SmallObligationTarget();
    var cdp := Cdp(100, 1_600_000_000_000_000_000, 1, ONE);
    assert After(cdp, Release(99)) == Cdp(1, 1_600_000_000_000_000_000, 1, ONE);
    assert 1 * 1_600_000_000_000_000_000 / ONE == 1;
    assert 1 * ONE / ONE == 1;
  }

  lemma SmallObligationTarget()
    ensures var cdp := Cdp(100, 1_600_000_000_000_000_000, 1, ONE);
            var range := Range(1_800_000_000_000_000_000, 2_200_000_000_000_000_000);
            cdp.Ratio() == Ok(160 * ONE) && TargetCollateral(cdp, range) == Ok(1)
  {
    var cdp := Cdp(100, 1_600_000_000_000_000_000, 1, ONE);
    var range := Range(1_800_000_000_000_000_000, 2_200_000_000_000_000_000);
    assert cdp.CollateralValue() == Ok(160) && cdp.Obligation() == Ok(1);
    assert range.Midpoint() == Ok(2 * ONE);
    assert MulDecimal(NINE, 2 * ONE) == Ok(2 * NINE) && MulDecimal(NINE, cdp.collateralPrice) == Ok(1_600_000_000);
    assert DecimalDivision(2 * ONE, cdp.collateralPrice) == Ok(1_250_000_000_000_000_000);
  }

  /** A collateral price below its last nine digits' resolution makes the release underflow. */
  lemma TinyPriceUnderflows()
    ensures var cdp := Cdp(1_500_000_000_000, 1_999_999_999, 1_000, ONE);
            var range := Range(1_800_000_000_000_000_000, 2_200_000_000_000_000_000);
            Adjust(cdp, range, 0) == Err(Underflow)
  {
    var cdp := Cdp(1_500_000_000_000, 1_999_999_999, 1_000, ONE);
    var range := Range(1_800_000_000_000_000_000, 2_200_000_000_000_000_000);
    assert cdp.CollateralValue() == Ok(2_999) && cdp.Obligation() == Ok(1_000);
    assert range.Midpoint() == Ok(2 * ONE);
    assert DecimalDivision(2 * ONE, cdp.collateralPrice) == Ok(2_000_000_000 * ONE);
    assert TargetCollateral(cdp, range) == Ok(2_000_000_000_000);
  }

  /** The bound on obligations is reached: here 20 uusd are enough, and with 19 the ratio falls
      from above the range to below its lower end of 1.95. */
  lemma ObligationBoundReached()
    ensures var cdp := Cdp(100, 2_920_000_000_000_000_000, 19, ONE);
            var range := Range(1_950_000_000_000_000_000, 2_350_000_000_000_000_000);
            && range.Midpoint().Ok? && LargeObligation(range, range.Midpoint().value, cdp.collateralPrice, 20)
            && Adjust(cdp, range, 0) == Ok(Release(87))
            && !After(cdp, Release(87)).Covers(range.min)
  {
    var cdp := Cdp(100, 2_920_000_000_000_000_000, 19, ONE);
    var range := Range(1_950_000_000_000_000_000, 2_350_000_000_000_000_000);
    BoundReachedTarget();
    assert cdp.Ratio() == Ok(292 * ONE / 19);
    assert 292 * ONE / 19 > range.max;
    assert After(cdp, Release(87)).CollateralValue() == Ok(37);
  }

  lemma BoundReachedTarget()
    ensures var cdp := Cdp(100, 2_920_000_000_000_000_000, 19, ONE);
            var range := Range(1_950_000_000_000_000_000, 2_350_000_000_000_000_000);
            && cdp.CollateralValue() == Ok(292) && cdp.Obligation() == Ok(19)
            && range.Midpoint() == Ok(2_150_000_000_000_000_000) && TargetCollateral(cdp, range) == Ok(13)
  {
    var cdp := Cdp(100, 2_920_000_000_000_000_000, 19, ONE);
    var range := Range(1_950_000_000_000_000_000, 2_350_000_000_000_000_000);
    var mid := 2_150_000_000_000_000_000;
    assert cdp.CollateralValue() == Ok(292) && cdp.Obligation() == Ok(19);
    assert range.Midpoint() == Ok(mid);
    assert MulDecimal(NINE, mid) == Ok(2_150_000_000) && MulDecimal(NINE, cdp.collateralPrice) == Ok(2_920_000_000);
    assert DecimalDivision(mid, cdp.collateralPrice) == Ok(736_301_369_863_013_698);
    assert MulDecimal(19, 736_301_369_863_013_698) == Ok(13);
  }

  /** A release can underflow above a price of 10^-8 too. */
  lemma UnderflowsAboveTenNanos()
    ensures var range := Range(2_800_000_000_000_000_000, 3_200_000_000_000_000_000);
            !NeverUnderflows(range, 10_999_999_999)
  {
    var range := Range(2_800_000_000_000_000_000, 3_200_000_000_000_000_000);
    TokensAtTenNanos(10_999_999_999);
    ReleaseFitsExactly(range, 10_999_999_999, 300_000_000_000_000_000_000_000_000);
  }

  lemma TokensAtTenNanos(price: nat)
    requires 10_000_000_000 <= price < 11_000_000_000
    ensures var range := Range(2_800_000_000_000_000_000, 3_200_000_000_000_000_000);
            TokensPerUusd(range, price) == Ok(300_000_000_000_000_000_000_000_000)
  {
    var range := Range(2_800_000_000_000_000_000, 3_200_000_000_000_000_000);
    assert range.Midpoint() == Ok(3 * ONE);
    NineDigits(price);
    assert price / NINE == 10;
    assert MulDecimal(NINE, 3 * ONE) == Ok(3 * NINE) && MulDecimal(NINE, price) == Ok(10);
  }

  /** And the exact condition holds where the nine-digit one does not. */
  lemma NineDigitsNotNeeded()
    ensures var range := Range(2_800_000_000_000_000_000, 3_200_000_000_000_000_000);
            && NeverUnderflows(range, 10_000_000_000)
            && range.Midpoint() == Ok(3 * ONE) && 3 * ONE > (range.max - 3 * ONE) * (10_000_000_000 / NINE)
  {
    var range := Range(2_800_000_000_000_000_000, 3_200_000_000_000_000_000);
    TokensAtTenNanos(10_000_000_000);
    ReleaseFitsExactly(range, 10_000_000_000, 300_000_000_000_000_000_000_000_000);
  }
}
