/** What a whole transaction of a position sends and stores, message by message, once it commits. */
module LifecycleOutcomes {
  import opened Results
  import opened FixedPoint
  import opened Instruction
  import opened SafeRatio
  import opened Lifecycle
  import Invest = DeltaNeutralInvest
  import LifecycleRuns

  // ----- Delivering the head of a stack. -----

  ghost predicate AllAccept(answers: nat -> Answers) {
    forall n :: answers(n).accepted
  }

  /** What is left of a transaction, by the state, the messages on the stack and the next answer. */
  type Drain = (State, seq<Message>, nat) -> Result<State>

  ghost predicate DrainsAt(f: Drain, answers: nat -> Answers, s: State, message: Message, rest: seq<Message>, k: nat) {
    var next := Delivered(s, message, answers(k));
    f(s, [message] + rest, k) == if next.Err? then Err(next.error) else f(next.value.0, next.value.1 + rest, k + 1)
  }

  /** `f` delivers the messages of a stack, each with all it leads to before the next. */
  ghost predicate Drains(f: Drain, answers: nat -> Answers) {
    && (forall s, message, rest, k :: DrainsAt(f, answers, s, message, rest, k))
    && forall s, k :: f(s, [], k) == Ok(s)
  }

  lemma DrainedDrains(answers: nat -> Answers) returns (f: Drain)
    ensures Drains(f, answers)
    ensures forall s, stack, k :: f(s, stack, k) == Drained(s, stack, answers, k)
  {
    f := (s: State, stack: seq<Message>, k: nat) => Drained(s, stack, answers, k);
    forall s: State, message: Message, rest: seq<Message>, k: nat
      ensures DrainsAt(f, answers, s, message, rest, k)
    {
      assert ([message] + rest)[1..] == rest;
    }
  }

  /** A transaction is its call and then all that the call leads to. */
  lemma TransactionDrains(s: State, t: Transaction) returns (f: Drain)
    requires Authorized(t.sender, t.msg)
    ensures Drains(f, t.answers)
    ensures var first := Executed(s.(uusd := t.uusd), t.msg, t.answers(0));
            Transacted(s, t) == if first.Err? then Err(first.error) else f(first.value.0, first.value.1, 1)
  {
    f := DrainedDrains(t.answers);
  }

  lemma DrainHead(f: Drain, s: State, message: Message, rest: seq<Message>, answers: nat -> Answers, k: nat)
    requires Drains(f, answers)
    ensures var next := Delivered(s, message, answers(k));
            f(s, [message] + rest, k)
            == if next.Err? then Err(next.error) else f(next.value.0, next.value.1 + rest, k + 1)
  {
    assert DrainsAt(f, answers, s, message, rest, k);
  }

  /** The last message of a transaction, which leads to `next.1`. */
  lemma DrainLast(f: Drain, s: State, message: Message, answers: nat -> Answers, k: nat)
    requires Drains(f, answers)
    ensures var next := Delivered(s, message, answers(k));
            f(s, [message], k)
            == if next.Err? then Err(next.error)
               else if next.value.1 == [] then Ok(next.value.0) else f(next.value.0, next.value.1, k + 1)
  {
    var none: seq<Message> := [];
    assert [message] + none == [message];
    DrainHead(f, s, message, none, answers, k);
    var next := Delivered(s, message, answers(k));
    if next.Ok? {
      assert next.value.1 + none == next.value.1;
    }
  }

  lemma SplitOthers(n: nat, rest: seq<Message>, sent: seq<Message>)
    requires 0 < n
    ensures Others(n) + rest == Others(n - 1) + ([Do(Other)] + rest)
    ensures sent + Others(n - 1) + [Do(Other)] == sent + Others(n)
  {}

  /** Calls that carry no payment go out one after the other. */
  lemma {:induction false} DrainOthers(f: Drain, s: State, n: nat, rest: seq<Message>, answers: nat -> Answers, k: nat)
    returns (t: State)
    requires Drains(f, answers) && (f(s, Others(n) + rest, k).Ok? || AllAccept(answers))
    ensures t == s.(uusd := t.uusd, sent := s.sent + Others(n))
    ensures f(s, Others(n) + rest, k) == f(t, rest, k + n)
    decreases n
  {
    if n == 0 {
      assert Others(0) + rest == rest && s.sent + Others(0) == s.sent;
      t := s;
    } else {
      SplitOthers(n, rest, s.sent);
      var u := DrainOthers(f, s, n - 1, [Do(Other)] + rest, answers, k);
      t := DrainCall(f, u, Other, rest, answers, k + n - 1);
    }
  }

  lemma DrainOnlyOthers(f: Drain, s: State, n: nat, answers: nat -> Answers, k: nat) returns (t: State)
    requires Drains(f, answers) && f(s, Others(n), k).Ok?
    ensures t == s.(uusd := t.uusd, sent := s.sent + Others(n))
    ensures f(s, Others(n), k) == Ok(t)
  {
    var none: seq<Message> := [];
    assert Others(n) + none == Others(n);
    t := DrainOthers(f, s, n, none, answers, k);
  }

  lemma DrainCall(f: Drain, s: State, trade: Trade, rest: seq<Message>, answers: nat -> Answers, k: nat)
    returns (t: State)
    requires !trade.DepositStable?
    requires Drains(f, answers) && (f(s, [Do(trade)] + rest, k).Ok? || AllAccept(answers))
    ensures t == s.(uusd := t.uusd, sent := s.sent + [Do(trade)])
    ensures f(s, [Do(trade)] + rest, k) == f(t, rest, k + 1)
  {
    DrainHead(f, s, Do(trade), rest, answers, k);
    t := s.(uusd := answers(k).uusdAfter, sent := s.sent + [Do(trade)]);
    assert [] + rest == rest;
  }

  // ----- Closing the CDP. -----

  /** What closing the CDP `idx` sends: its whole debt is burned, with mAsset topped up before, and
      then all of its collateral withdrawn and redeemed. A CDP without debt is left alone. */
  function Repayment(idx: nat, debt: nat, topUp: nat, collateral: nat): seq<Message> {
    if debt == 0 then []
    else Others(topUp) + [Do(BurnDebt(idx, debt)), Do(WithdrawCollateral(idx, collateral)),
                          Do(RedeemAnchorUst(collateral))]
  }

  /** Half-open floors, without division. */
  predicate IsFloor(q: nat, n: nat, d: nat) {
    q * d <= n < (q + 1) * d
  }

  /** The fee on the gain since `last`: the gain times the rate, rounded down, where the position's
      value is that of the collateral, rounded down, with the uusd at hand, in the farm and locked. */
  predicate IsFee(s: State, last: nat, a: Answers, fee: Fee) {
    var atHand := s.uusd + a.longFarmUusd + (if a.lock.Some? then a.lock.value.amount else 0);
    && fee.rate == a.performanceRate && atHand <= fee.value
    && IsFloor(fee.value - atHand, (if a.cdpAnswers then a.cdp.collateral else 0) * a.cdp.collateralPrice, ONE)
    && IsFloor(fee.amount, (if last < fee.value then fee.value - last else 0) * fee.rate, ONE)
  }

  lemma FeeIsDue(s: State, last: nat, a: Answers)
    requires FeeDue(s, last, a).Ok?
    ensures IsFee(s, last, a, FeeDue(s, last, a).value)
  {
    var fee := FeeDue(s, last, a).value;
    DivBounds(a.SeenCdp().collateral * a.SeenCdp().collateralPrice, ONE);
    DivBounds(Gain(last, fee.value) * fee.rate, ONE);
  }

  /** All of an amount is the whole of it. */
  lemma WholeAmount(n: nat)
    ensures MulDecimal(n, ONE).Ok? ==> MulDecimal(n, ONE).value == n
  {
    DivAtLeast(n * ONE, ONE, n);
    DivAtMostExact(n * ONE, ONE, n);
  }

  /** The withdrawal that a closing asks for takes all the collateral that the CDP then reports. */
  lemma DrainWithdrawal(f: Drain, s: State, rest: seq<Message>, answers: nat -> Answers, k: nat) returns (t: State)
    requires Drains(f, answers)
    requires f(s, [Self(WithdrawCollateralAndRedeemForUusd(ONE))] + rest, k).Ok?
    ensures s.cdpIdx.Some? && answers(k).cdpAnswers
    ensures var x := answers(k).cdp.collateral;
            t == s.(uusd := t.uusd,
                    sent := s.sent + [Do(WithdrawCollateral(s.cdpIdx.value, x)), Do(RedeemAnchorUst(x))])
    ensures f(s, [Self(WithdrawCollateralAndRedeemForUusd(ONE))] + rest, k)
         == f(t, rest, k + 3)
  {
    DrainHead(f, s, Self(WithdrawCollateralAndRedeemForUusd(ONE)), rest, answers, k);
    var x := answers(k).cdp.collateral;
    WholeAmount(x);
    var take, redeem := WithdrawCollateral(s.cdpIdx.value, x), RedeemAnchorUst(x);
    assert ReleaseMessages(s.cdpIdx.value, x) + rest == [Do(take)] + ([Do(redeem)] + rest);
    var u := DrainCall(f, s, take, [Do(redeem)] + rest, answers, k + 1);
    t := DrainCall(f, u, redeem, rest, answers, k + 2);
    assert u.sent + [Do(redeem)] == s.sent + [Do(take), Do(redeem)];
  }

  lemma DrainRepayment(f: Drain, s: State, rest: seq<Message>, answers: nat -> Answers, k: nat, idx: nat, a: Answers)
    returns (t: State, collateral: nat)
    requires Drains(f, answers)
    requires s.cdpIdx == Some(idx)
    requires f(s, ClosingMessages(idx, a) + rest, k).Ok?
    ensures t == s.(uusd := t.uusd, sent := s.sent + Repayment(idx, a.SeenCdp().short, a.topUp, collateral))
    ensures 0 < a.SeenCdp().short ==>
              answers(k + a.topUp + 1).cdpAnswers && collateral == answers(k + a.topUp + 1).cdp.collateral
    ensures f(s, ClosingMessages(idx, a) + rest, k)
         == f(t, rest, if a.SeenCdp().short == 0 then k else k + a.topUp + 4)
  {
    if a.SeenCdp().short == 0 {
      assert [] + rest == rest && s.sent + [] == s.sent;
      t, collateral := s, 0;
    } else {
      var burn, withdraw := BurnDebt(idx, a.SeenCdp().short), Self(WithdrawCollateralAndRedeemForUusd(ONE));
      assert ClosingMessages(idx, a) + rest == Others(a.topUp) + ([Do(burn)] + ([withdraw] + rest));
      var u := DrainOthers(f, s, a.topUp, [Do(burn)] + ([withdraw] + rest), answers, k);
      var v := DrainCall(f, u, burn, [withdraw] + rest, answers, k + a.topUp);
      t := DrainWithdrawal(f, v, rest, answers, k + a.topUp + 1);
      collateral := answers(k + a.topUp + 1).cdp.collateral;
      assert t.sent == s.sent + Repayment(idx, a.SeenCdp().short, a.topUp, collateral);
    }
  }

  lemma DrainFee(f: Drain, s: State, fee: Fee, rest: seq<Message>, answers: nat -> Answers, k: nat) returns (t: State)
    requires Drains(f, answers)
    requires f(s, Payments(fee) + rest, k).Ok?
    ensures t == s.(uusd := t.uusd, sent := s.sent + Payments(fee),
                    fees := if fee.amount == 0 then s.fees else s.fees + [fee])
    ensures t.uusd == s.uusd - fee.amount
    ensures f(s, Payments(fee) + rest, k)
         == f(t, rest, if fee.amount == 0 then k else k + 1)
  {
    if fee.amount == 0 {
      assert [] + rest == rest && s.sent + [] == s.sent;
      t := s;
    } else {
      DrainHead(f, s, PayFee(fee), rest, answers, k);
      t := Delivered(s, PayFee(fee), answers(k)).value.0;
      assert [] + rest == rest;
    }
  }

  /** Where a closing of the CDP was seen, what it repaid and charged, and the state it left. */
  datatype Collection = Collection(seen: Answers, collateral: nat, fee: Fee, done: State)

  /** The CDP was closed as `seen` reports it: its debt burned, the collateral then reported taken
      and redeemed, and the fee on the gain paid and noted. */
  ghost predicate Collects(s: State, c: Collection, answers: nat -> Answers, k: nat) {
    && c.seen == answers(k) && s.cdpIdx.Some? && s.lastFeeValue.Some?
    && IsFee(s, s.lastFeeValue.value, c.seen, c.fee) && c.fee.amount <= c.fee.value
    && var debt := if c.seen.cdpAnswers then c.seen.cdp.short else 0;
       && (0 < debt ==> var b := answers(k + c.seen.topUp + 2); b.cdpAnswers && c.collateral == b.cdp.collateral)
       && c.done == s.(uusd := c.done.uusd,
                       lastFeeValue := if c.fee.amount == 0 then s.lastFeeValue else Some(c.fee.value - c.fee.amount),
                       fees := if c.fee.amount == 0 then s.fees else s.fees + [c.fee],
                       sent := s.sent + Repayment(s.cdpIdx.value, debt, c.seen.topUp, c.collateral)
                               + (if c.fee.amount == 0 then [] else [PayFee(c.fee)]))
  }

  lemma CollectionDrains(f: Drain, s: State, internal: Internal, next: Internal, answers: nat -> Answers, k: nat)
    returns (c: Collection, m: nat)
    requires Drains(f, answers)
    requires Handled(s, internal, answers(k)) == CollectedThen(s, answers(k), next)
    requires f(s, [Self(internal)], k).Ok?
    ensures Collects(s, c, answers, k)
    ensures f(s, [Self(internal)], k) == f(c.done, [Self(next)], m)
  {
    var a := answers(k);
    DrainLast(f, s, Self(internal), answers, k);
    var idx, fee := s.cdpIdx.value, FeeDue(s, s.lastFeeValue.value, a).value;
    FeeIsDue(s, s.lastFeeValue.value, a);
    var collected := Collected(s, a).value;
    var begun := collected.0;
    assert collected.1 + [Self(next)] == ClosingMessages(idx, a) + (Payments(fee) + [Self(next)]);
    var t, collateral := DrainRepayment(f, begun, Payments(fee) + [Self(next)], answers, k + 1, idx, a);
    var j := if a.SeenCdp().short == 0 then k + 1 else k + 1 + a.topUp + 4;
    var done := DrainFee(f, t, fee, [Self(next)], answers, j);
    m := if fee.amount == 0 then j else j + 1;
    c := Collection(a, collateral, fee, done);
  }

  // ----- Closing a position. -----

  /** Sending everything out to `recipient`, if there is anything. */
  function Farewell(uusd: nat, recipient: Recipient): seq<Message> {
    if uusd == 0 then [] else [TransferOut(uusd, recipient)]
  }

  lemma DrainFarewell(f: Drain, s: State, recipient: Recipient, answers: nat -> Answers, k: nat)
    requires Drains(f, answers)
    requires f(s, [Self(SendUusdToRecipient(ONE, recipient))], k).Ok?
    ensures f(s, [Self(SendUusdToRecipient(ONE, recipient))], k)
         == Ok(s.(closeInfo := Some(s.uusd), uusd := 0, sent := s.sent + Farewell(s.uusd, recipient)))
  {
    DrainLast(f, s, Self(SendUusdToRecipient(ONE, recipient)), answers, k);
    WholeAmount(s.uusd);
    var closed := s.(closeInfo := Some(s.uusd));
    if s.uusd == 0 {
      assert s.sent + [] == s.sent;
    } else {
      DrainLast(f, closed, TransferOut(s.uusd, recipient), answers, k + 1);
    }
  }

  /** A committed closing of an active CDP makes the position neutral, burns the debt that the CDP
      then reports, withdraws and redeems the collateral that it reports after that, pays the fee on
      the gain, and sends all uusd to the recipient, in this order and nothing else. */
  lemma ClosingSends(s: State, t: Transaction) returns (c: Collection, balance: nat)
    requires t.msg.ClosePosition? && s.cdpIdx.Some? && !s.cdpPreemptivelyClosed && Transacted(s, t).Ok?
    ensures t.sender.Manager? && s.closeInfo.None? && t.answers(0).neutral.Ok?
    ensures var n := t.answers(0).neutral.value;
            && Collects(s.(uusd := balance, sent := s.sent + Others(n)), c, t.answers, n + 1)
            && Transacted(s, t) == Ok(c.done.(closeInfo := Some(c.done.uusd), uusd := 0,
                                              sent := c.done.sent + Farewell(c.done.uusd, t.msg.recipient)))
  {
    var f := TransactionDrains(s, t);
    var n, close := t.answers(0).neutral.value, CloseCdpAndDisburseUusd(t.msg.recipient);
    var u := DrainOthers(f, s.(uusd := t.uusd), n, [Self(close)], t.answers, 1);
    balance := u.uusd;
    var m;
    c, m := CollectionDrains(f, u, close, SendUusdToRecipient(ONE, t.msg.recipient), t.answers, n + 1);
    DrainFarewell(f, c.done, t.msg.recipient, t.answers, m);
  }

  /** Without an active CDP a closing redeems the aUST at hand and sends all uusd. */
  lemma ClosingWithoutCdpSends(s: State, t: Transaction) returns (balance: nat)
    requires t.msg.ClosePosition? && (s.cdpIdx.None? || s.cdpPreemptivelyClosed) && Transacted(s, t).Ok?
    ensures t.sender.Manager? && s.closeInfo.None?
    ensures Transacted(s, t) == Ok(s.(closeInfo := Some(balance), uusd := 0,
                                      sent := s.sent + [Do(RedeemAnchorUst(t.answers(0).anchorUst))]
                                              + Farewell(balance, t.msg.recipient)))
  {
    var f := TransactionDrains(s, t);
    var redeem, send := RedeemAnchorUst(t.answers(0).anchorUst), Self(SendUusdToRecipient(ONE, t.msg.recipient));
    assert [Do(redeem), send] == [Do(redeem)] + [send];
    var u := DrainCall(f, s.(uusd := t.uusd), redeem, [send], t.answers, 1);
    balance := u.uusd;
    DrainFarewell(f, u, t.msg.recipient, t.answers, 2);
  }

  // ----- Rebalancing. -----

  /** An active CDP that does not answer, or whose asset is to be closed at a fresh price, is closed
      ahead of time: as in a closing, but the uusd goes to Anchor, and the closing is marked. */
  lemma PreemptiveClosingSends(s: State, t: Transaction) returns (c: Collection, balance: nat)
    requires t.msg.RebalanceAndReinvest? && s.cdpIdx.Some? && s.closeInfo.None? && !s.cdpPreemptivelyClosed
    requires var a := t.answers(0); !a.cdpAnswers || (a.freshRate.Some? && a.ShouldClose())
    requires Transacted(s, t).Ok?
    ensures (t.sender.Controller? || t.sender.Contract?) && t.answers(0).neutral.Ok?
    ensures var n := t.answers(0).neutral.value;
            && Collects(s.(cdpPreemptivelyClosed := true, uusd := balance, sent := s.sent + Others(n)), c, t.answers,
                        n + 1)
            && Transacted(s, t) == Ok(c.done.(uusd := 0, sent := c.done.sent + [Do(DepositStable(c.done.uusd))]))
  {
    var f := TransactionDrains(s, t);
    var n, close := t.answers(0).neutral.value, CloseCdpAndDepositToAnchorEarn;
    var begun := s.(uusd := t.uusd, cdpPreemptivelyClosed := true);
    var u := DrainOthers(f, begun, n, [Self(close)], t.answers, 1);
    balance := u.uusd;
    var m;
    c, m := CollectionDrains(f, u, close, DepositUusdBalanceToAnchorEarn, t.answers, n + 1);
    DrainDeposit(f, c.done, t.answers, m);
  }

  lemma DrainDeposit(f: Drain, s: State, answers: nat -> Answers, k: nat)
    requires Drains(f, answers)
    requires f(s, [Self(DepositUusdBalanceToAnchorEarn)], k).Ok?
    ensures f(s, [Self(DepositUusdBalanceToAnchorEarn)], k)
         == Ok(s.(uusd := 0, sent := s.sent + [Do(DepositStable(s.uusd))]))
  {
    DrainLast(f, s, Self(DepositUusdBalanceToAnchorEarn), answers, k);
    DrainLast(f, s, Do(DepositStable(s.uusd)), answers, k + 1);
  }

  /** While the price is stale an active CDP is only made neutral. */
  lemma StaleRebalanceSends(s: State, t: Transaction) returns (balance: nat)
    requires t.msg.RebalanceAndReinvest? && s.cdpIdx.Some? && s.closeInfo.None? && !s.cdpPreemptivelyClosed
    requires t.answers(0).cdpAnswers && t.answers(0).freshRate.None? && Transacted(s, t).Ok?
    ensures t.answers(0).neutral.Ok?
    ensures Transacted(s, t) == Ok(s.(uusd := balance, sent := s.sent + Others(t.answers(0).neutral.value)))
  {
    var f := TransactionDrains(s, t);
    var n := t.answers(0).neutral.value;
    var u := DrainOnlyOthers(f, s.(uusd := t.uusd), n, t.answers, 1);
    balance := u.uusd;
  }

  /** What bringing the CDP back into its range sends. */
  function Restoration(idx: nat, topUp: nat, adjustment: Adjustment): seq<Message> {
    match adjustment
    case Keep => []
    case Burn(mirrorAsset) => Others(topUp) + [Do(BurnDebt(idx, mirrorAsset))]
    case Release(collateral) => [Do(WithdrawCollateral(idx, collateral)), Do(RedeemAnchorUst(collateral))]
  }

  lemma DrainRestoration(f: Drain, s: State, rest: seq<Message>, answers: nat -> Answers, k: nat)
    returns (t: State, adjustment: Adjustment, m: nat)
    requires Drains(f, answers)
    requires f(s, [Self(AchieveSafeCollateralRatio)] + rest, k).Ok?
    ensures s.cdpIdx.Some? && s.range.Some? && t.range.Some?
    ensures var a := answers(k);
            && Raised(s.range.value, a.terms.minCollateralRatio + a.terms.safetyMargin) == Ok(t.range.value)
            && Adjust(a.SeenCdp(), t.range.value, if a.lock.Some? then a.lock.value.amount else 0) == Ok(adjustment)
            && t == s.(uusd := t.uusd, range := t.range,
                       sent := s.sent + Restoration(s.cdpIdx.value, a.topUp, adjustment))
    ensures f(s, [Self(AchieveSafeCollateralRatio)] + rest, k) == f(t, rest, m)
  {
    var a := answers(k);
    DrainHead(f, s, Self(AchieveSafeCollateralRatio), rest, answers, k);
    var safe := MadeSafe(s, a).value;
    var idx, u := s.cdpIdx.value, safe.0;
    adjustment := Adjust(a.SeenCdp(), u.range.value, a.Locked()).value;
    assert safe.1 == Restoration(idx, a.topUp, adjustment);
    t, m := DrainAdjustment(f, u, idx, a.topUp, adjustment, rest, answers, k + 1);
  }

  lemma DrainAdjustment(f: Drain, s: State, idx: nat, topUp: nat, adjustment: Adjustment, rest: seq<Message>,
                        answers: nat -> Answers, k: nat)
    returns (t: State, m: nat)
    requires Drains(f, answers) && f(s, Restoration(idx, topUp, adjustment) + rest, k).Ok?
    ensures t == s.(uusd := t.uusd, sent := s.sent + Restoration(idx, topUp, adjustment))
    ensures f(s, Restoration(idx, topUp, adjustment) + rest, k) == f(t, rest, m)
  {
    match adjustment {
      case Keep =>
        assert [] + rest == rest && s.sent + [] == s.sent;
        t, m := s, k;
      case Burn(x) =>
        assert Restoration(idx, topUp, adjustment) + rest == Others(topUp) + ([Do(BurnDebt(idx, x))] + rest);
        var v := DrainOthers(f, s, topUp, [Do(BurnDebt(idx, x))] + rest, answers, k);
        t := DrainCall(f, v, BurnDebt(idx, x), rest, answers, k + topUp);
        m := k + topUp + 1;
        assert t.sent == s.sent + Restoration(idx, topUp, adjustment);
      case Release(x) =>
        var take, redeem := Do(WithdrawCollateral(idx, x)), Do(RedeemAnchorUst(x));
        assert Restoration(idx, topUp, adjustment) + rest == [take] + ([redeem] + rest);
        var v := DrainCall(f, s, take.trade, [redeem] + rest, answers, k);
        t := DrainCall(f, v, redeem.trade, rest, answers, k + 1);
        m := k + 2;
        assert t.sent == s.sent + Restoration(idx, topUp, adjustment);
    }
  }

  /** Pairing and reinvesting go out as so many calls, the latter from a balance that is worth it. */
  lemma DrainReinvestment(f: Drain, s: State, rate: nat, answers: nat -> Answers, k: nat) returns (t: State, n: nat)
    requires Drains(f, answers)
    requires f(s, [Self(PairUusdWithMirrorAsset), Self(DeltaNeutralReinvest(rate))], k).Ok?
    ensures answers(k).pairing.Ok? && n >= answers(k).pairing.value
    ensures var p := answers(k).pairing.value;
            var a := answers(k + 1 + p);
            n > p ==> s.range.Some? && Invest.CheckTerms(a.terms, s.range.value).Ok? && a.invest == Ok(n - p)
    ensures t == s.(uusd := t.uusd, sent := s.sent + Others(n))
    ensures f(s, [Self(PairUusdWithMirrorAsset), Self(DeltaNeutralReinvest(rate))], k) == Ok(t)
  {
    var pair, reinvest := Self(PairUusdWithMirrorAsset), Self(DeltaNeutralReinvest(rate));
    assert [pair, reinvest] == [pair] + [reinvest];
    DrainHead(f, s, pair, [reinvest], answers, k);
    var p := answers(k).pairing.value;
    var u := DrainOthers(f, s, p, [reinvest], answers, k + 1);
    DrainLast(f, u, reinvest, answers, k + 1 + p);
    var a := answers(k + 1 + p);
    if u.uusd < a.minReinvest {
      t, n := u, p;
    } else {
      var q := a.invest.value;
      assert f(u, [reinvest], k + 1 + p) == f(u, Others(q), k + 2 + p);
      t := DrainOnlyOthers(f, u, q, answers, k + 2 + p);
      n := p + q;
      OthersJoin(p, q);
      assert s.sent + Others(p) + Others(q) == s.sent + Others(n);
    }
  }

  lemma {:induction false} OthersJoin(m: nat, n: nat)
    ensures Others(m) + Others(n) == Others(m + n)
  {
    if n > 0 {
      OthersJoin(m, n - 1);
    }
  }

  /** Otherwise a rebalance makes the position neutral, raises the range to the requirement, adjusts
      the CDP then reported to that range, and, unless its short proceeds are still locked, pairs
      and reinvests. */
  lemma RebalanceSends(s: State, t: Transaction) returns (adjustment: Adjustment, more: nat, done: State)
    requires t.msg.RebalanceAndReinvest? && s.cdpIdx.Some? && s.closeInfo.None? && !s.cdpPreemptivelyClosed
    requires var a := t.answers(0); a.cdpAnswers && a.freshRate.Some? && !a.ShouldClose()
    requires Transacted(s, t).Ok?
    ensures t.sender.Controller? || t.sender.Contract?
    ensures t.answers(0).neutral.Ok? && s.range.Some? && done.range.Some? && Transacted(s, t) == Ok(done)
    ensures var n, idx := t.answers(0).neutral.value, s.cdpIdx.value;
            var a := t.answers(n + 1);
            && Raised(s.range.value, a.terms.minCollateralRatio + a.terms.safetyMargin) == Ok(done.range.value)
            && Adjust(a.SeenCdp(), done.range.value, if a.lock.Some? then a.lock.value.amount else 0) == Ok(adjustment)
            && done == s.(uusd := done.uusd, range := done.range,
                          sent := s.sent + Others(n) + Restoration(idx, a.topUp, adjustment) + Others(more))
    ensures var lock := t.answers(0).lock; lock.Some? && lock.value.amount != 0 && !lock.value.unlocked ==> more == 0
  {
    var f := TransactionDrains(s, t);
    var first := t.answers(0);
    var n, reinvest := first.neutral.value, ReinvestMessages(first, first.freshRate.value);
    var rest := [Self(AchieveSafeCollateralRatio)] + reinvest;
    assert Others(n) + [Self(AchieveSafeCollateralRatio)] + reinvest == Others(n) + rest;
    var u := DrainOthers(f, s.(uusd := t.uusd), n, rest, t.answers, 1);
    var v, m;
    v, adjustment, m := DrainRestoration(f, u, reinvest, t.answers, n + 1);
    if reinvest == [] {
      done, more := v, 0;
      assert v.sent + Others(0) == v.sent;
    } else {
      done, more := DrainReinvestment(f, v, first.freshRate.value, t.answers, m);
    }
  }

  /** A position whose CDP is still to be opened sends nothing in a rebalance that commits; at a fresh
      price it is then to be closed, and marked so. */
  lemma PendingRebalanceSends(s: State, t: Transaction)
    requires t.msg.RebalanceAndReinvest? && s.cdpIdx.None? && s.closeInfo.None? && !s.cdpPreemptivelyClosed
    requires Transacted(s, t).Ok?
    ensures s.openInfo.Some? && (t.answers(0).freshRate.Some? ==> t.answers(0).ShouldClose())
    ensures Transacted(s, t) == Ok(s.(uusd := t.uusd, cdpPreemptivelyClosed := t.answers(0).freshRate.Some?))
  {
    if t.answers(0).freshRate.Some? && !t.answers(0).ShouldClose() {
      LifecycleRuns.PendingNeverOpens(s, t);
    }
  }

  // ----- Opening. -----

  /** The messages of an opening at a stale price: the service fee, if any, and the rest to Anchor. */
  function Parking(uusd: nat, serviceFee: nat): seq<Message> {
    (if serviceFee == 0 then [] else [PayServiceFee(serviceFee)])
    + [Do(DepositStable(if serviceFee <= uusd then uusd - serviceFee else 0))]
  }

  /** An opening at a stale price, where the caller asks for that: it needs a new position, the least
      amount and the service fee, and parks all the rest. */
  lemma OffMarketOpening(s: State, t: Transaction)
    requires t.msg.OpenPosition? && t.answers(0).freshRate.None? && AllAccept(t.answers)
    ensures var a, params := t.answers(0), t.msg.params;
            && (Transacted(s, t).Ok? <==>
                  && t.sender.Manager? && s.openInfo.None? && params.allowOffMarketOpen
                  && a.minOpen <= t.uusd && a.serviceFee <= t.uusd)
            && (Transacted(s, t).Ok? ==>
                  Transacted(s, t) == Ok(s.(openInfo := Some(t.uusd), lastFeeValue := Some(t.uusd),
                                            range := Some(params.range), uusd := 0,
                                            sent := s.sent + Parking(t.uusd, a.serviceFee))))
  {
    var a, params := t.answers(0), t.msg.params;
    if t.sender.Manager? && Opened(s.(uusd := t.uusd), params, a).Ok? {
      var f := TransactionDrains(s, t);
      var begun := Opened(s.(uusd := t.uusd), params, a).value.0;
      DrainParking(f, begun, a.serviceFee, t.answers);
    }
  }

  lemma DrainParking(f: Drain, s: State, serviceFee: nat, answers: nat -> Answers)
    requires Drains(f, answers) && AllAccept(answers) && serviceFee <= s.uusd
    ensures f(s, Parking(s.uusd, serviceFee), 1) == Ok(s.(uusd := 0, sent := s.sent + Parking(s.uusd, serviceFee)))
  {
    var deposit := Do(DepositStable(s.uusd - serviceFee));
    assert [] + [deposit] == [deposit];
    if serviceFee == 0 {
      DrainLast(f, s, deposit, answers, 1);
    } else {
      var paid := s.(uusd := s.uusd - serviceFee, sent := s.sent + [PayServiceFee(serviceFee)]);
      DrainHead(f, s, PayServiceFee(serviceFee), [deposit], answers, 1);
      DrainLast(f, paid, deposit, answers, 2);
      assert paid.sent + [deposit] == s.sent + Parking(s.uusd, serviceFee);
    }
  }

  /** An opening at a fresh price: it needs a new position, the least amount and good terms, and it
      commits only if the CDP it set up is then short by just the mAsset held. */
  lemma FreshOpening(s: State, t: Transaction)
    requires t.msg.OpenPosition? && t.answers(0).freshRate.Some? && AllAccept(t.answers)
    ensures var a, params := t.answers(0), t.msg.params;
            && (Transacted(s, t).Ok? <==>
                  && t.sender.Manager? && s.openInfo.None? && a.minOpen <= t.uusd
                  && Invest.CheckTerms(a.terms, params.range).Ok? && a.invest.Ok?
                  && var last := t.answers(a.invest.value + 1);
                     last.cdpAnswers && last.isShort && last.mirrorAssetBalance == last.cdp.short)
            && (Transacted(s, t).Ok? ==>
                  var done := Transacted(s, t).value;
                  done == s.(openInfo := Some(t.uusd), lastFeeValue := Some(t.uusd), range := Some(params.range),
                             cdpIdx := Some(a.nextCdpIdx), uusd := done.uusd, sent := s.sent + Others(a.invest.value)))
  {
    var a, params := t.answers(0), t.msg.params;
    var check := Self(OpenPositionSanityCheck);
    if t.sender.Manager? && Opened(s.(uusd := t.uusd), params, a).Ok? {
      var f := TransactionDrains(s, t);
      var begun, n := Opened(s.(uusd := t.uusd), params, a).value.0, a.invest.value;
      var u := DrainOthers(f, begun, n, [check], t.answers, 1);
      DrainLast(f, u, check, t.answers, n + 1);
    }
  }

  /** A reinvestment needs the least balance, and then good terms. */
  lemma ReinvestsFromLeast(s: State, a: Answers, rate: nat)
    requires s.cdpIdx.Some? && s.range.Some?
    ensures var r := Handled(s, DeltaNeutralReinvest(rate), a);
            && (s.uusd < a.minReinvest ==> r == Ok((s, [])))
            && (a.minReinvest <= s.uusd && Invest.CheckTerms(a.terms, s.range.value).Ok? && a.invest.Ok? ==>
                  r == Ok((s, Others(a.invest.value))))
            && (a.minReinvest <= s.uusd && Invest.CheckTerms(a.terms, s.range.value).Err? ==> r.Err?)
  {}

  // ----- Proportions. -----

  /** Part of the collateral, rounded down, is withdrawn and redeemed alike. */
  lemma PartRedeemed(s: State, a: Answers, proportion: nat, x: nat)
    requires Handled(s, WithdrawCollateralAndRedeemForUusd(proportion), a).Ok?
    requires IsFloor(x, a.cdp.collateral * proportion, ONE)
    ensures s.cdpIdx.Some?
    ensures Handled(s, WithdrawCollateralAndRedeemForUusd(proportion), a)
         == Ok((s, [Do(WithdrawCollateral(s.cdpIdx.value, x)), Do(RedeemAnchorUst(x))]))
  {
    Invest.QuotientIs(a.cdp.collateral * proportion, ONE, x);
  }

  /** Part of the uusd, rounded down, is sent out; only sending all of it closes the position. */
  lemma PartSent(s: State, a: Answers, proportion: nat, recipient: Recipient, x: nat)
    requires Handled(s, SendUusdToRecipient(proportion, recipient), a).Ok? && IsFloor(x, s.uusd * proportion, ONE)
    ensures Handled(s, SendUusdToRecipient(proportion, recipient), a)
         == Ok((if proportion == ONE then s.(closeInfo := Some(s.uusd)) else s, Farewell(x, recipient)))
  {
    Invest.QuotientIs(s.uusd * proportion, ONE, x);
    WholeAmount(s.uusd);
  }
}
