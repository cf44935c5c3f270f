/** The life of a position: what its contract stores, the messages that it sends to itself, and
    transactions that run those messages depth first and commit or roll back as a whole. */
module Lifecycle {
  import opened Results
  import opened FixedPoint
  import opened Instruction
  import opened SafeRatio
  import Invest = DeltaNeutralInvest

  // ----- Storage and messages. -----

  /** A performance fee, with the value and the rate it was computed from. */
  datatype Fee = Fee(amount: nat, value: nat, rate: nat)

  /** The contract's storage, its uusd balance, the performance fees it has paid, and every message
      that it has sent to others. */
  datatype State = State(
    openInfo: Option<nat>,
    closeInfo: Option<nat>,
    cdpIdx: Option<nat>,
    cdpPreemptivelyClosed: bool,
    range: Option<Range>,
    lastFeeValue: Option<nat>,
    uusd: nat,
    fees: seq<Fee>,
    sent: seq<Message>)

  datatype Trade =
    | Other
    | BurnDebt(idx: nat, mirrorAsset: nat)
    | WithdrawCollateral(idx: nat, anchorUst: nat)
    | RedeemAnchorUst(anchorUst: nat)
    | DepositStable(uusd: nat)

  datatype Internal =
    | AchieveSafeCollateralRatio
    | CloseCdpAndDisburseUusd(recipient: Recipient)
    | CloseCdpAndDepositToAnchorEarn
    | DepositUusdBalanceToAnchorEarn
    | WithdrawCollateralAndRedeemForUusd(proportion: nat)
    | SendUusdToRecipient(proportion: nat, recipient: Recipient)
    | PairUusdWithMirrorAsset
    | DeltaNeutralReinvest(rate: nat)
    | OpenPositionSanityCheck

  datatype Message =
    | Do(trade: Trade)
    | PayFee(fee: Fee)
    | PayServiceFee(uusd: nat)
    | TransferOut(uusd: nat, to: Recipient)
    | Self(internal: Internal)

  datatype Params = Params(range: Range, allowOffMarketOpen: bool)

  datatype ExecuteMsg =
    | OpenPosition(params: Params)
    | ClosePosition(recipient: Recipient)
    | RebalanceAndReinvest
    | Inner(internal: Internal)

  datatype Sender = Manager | Controller | Contract | Anyone

  predicate Authorized(sender: Sender, msg: ExecuteMsg) {
    match msg
    case RebalanceAndReinvest => sender.Controller? || sender.Contract?
    case Inner(_) => sender.Contract?
    case _ => sender.Manager?
  }

  datatype Lock = Lock(amount: nat, unlocked: bool)

  /** What the rest of the chain answers while one message is handled: whether another contract
      accepts it and the uusd balance it leaves, the configuration, the oracle, the CDP and its
      lock, and what the subroutines modelled elsewhere return, as a number of messages. */
  datatype Answers = Answers(
    accepted: bool, uusdAfter: nat,
    minOpen: nat, minReinvest: nat, performanceRate: nat, serviceFee: nat,
    freshRate: Option<nat>, listedToClose: bool, terms: Invest.Terms, nextCdpIdx: nat,
    stateKnown: bool, cdpAnswers: bool, cdp: Cdp, isShort: bool, lock: Option<Lock>,
    mirrorAssetBalance: nat, longFarmUusd: nat, anchorUst: nat,
    neutral: Result<nat>, topUp: nat, invest: Result<nat>, pairing: Result<nat>)
  {
    predicate ShouldClose() {
      listedToClose || terms.delisted
    }

    /** A CDP that does not answer counts as empty. */
    function SeenCdp(): Cdp {
      if cdpAnswers then cdp else cdp.(collateral := 0, short := 0)
    }

    function Locked(): nat {
      if lock.Some? then lock.value.amount else 0
    }
  }

  type Outcome = Result<(State, seq<Message>)>

  function Others(n: nat): seq<Message> {
    if n == 0 then [] else Others(n - 1) + [Do(Other)]
  }

  // ----- Handlers. -----

  function InvestMessages(a: Answers, range: Range): Result<seq<Message>> {
    var midpoint :- Invest.CheckTerms(a.terms, range);
    var n :- a.invest;
    Ok(Others(n))
  }

  function Opened(s: State, params: Params, a: Answers): Outcome {
    if s.openInfo.Some? then Err(Generic("position is already open"))
    else if s.uusd < a.minOpen then Err(Generic("UST amount too small to open a delta-neutral position"))
    else
      var begun := s.(lastFeeValue := Some(s.uusd), openInfo := Some(s.uusd), range := Some(params.range));
      if a.freshRate.Some? then
        var messages :- InvestMessages(a, params.range);
        Ok((begun.(cdpIdx := Some(a.nextCdpIdx)), messages + [Self(OpenPositionSanityCheck)]))
      else if params.allowOffMarketOpen then
        var rest :- Sub(s.uusd, a.serviceFee);
        Ok((begun, (if a.serviceFee == 0 then [] else [PayServiceFee(a.serviceFee)]) + [Do(DepositStable(rest))]))
      else Err(Generic("oracle price stale; off-market position open service not requested"))
  }

  function ReinvestMessages(a: Answers, rate: nat): seq<Message> {
    if a.lock.Some? && a.lock.value.amount != 0 && !a.lock.value.unlocked then []
    else [Self(PairUusdWithMirrorAsset), Self(DeltaNeutralReinvest(rate))]
  }

  /** Reinvesting an active CDP, once the messages `neutral` have made the position neutral. */
  function RebalancedActive(s: State, a: Answers, neutral: seq<Message>): (State, seq<Message>) {
    var close := neutral + [Self(CloseCdpAndDepositToAnchorEarn)];
    if !a.cdpAnswers then (s.(cdpPreemptivelyClosed := true), close)
    else if a.freshRate.None? then (s, neutral)
    else if a.ShouldClose() then (s.(cdpPreemptivelyClosed := true), close)
    else (s, neutral + [Self(AchieveSafeCollateralRatio)] + ReinvestMessages(a, a.freshRate.value))
  }

  /** A position whose CDP is still to be opened. */
  function RebalancedPending(s: State, a: Answers): Outcome {
    if s.openInfo.None? then Err(Panic)
    else if a.freshRate.None? then Ok((s, []))
    else if a.ShouldClose() then Ok((s.(cdpPreemptivelyClosed := true), []))
    else if s.range.None? then Err(Panic)
    else
      var messages :- InvestMessages(a, s.range.value);
      Ok((s, [Do(RedeemAnchorUst(a.anchorUst))] + messages + [Self(OpenPositionSanityCheck)]))
  }

  function Rebalanced(s: State, a: Answers): Outcome {
    if s.closeInfo.Some? || s.cdpPreemptivelyClosed then Ok((s, []))
    else if s.cdpIdx.Some? then
      var n :- a.neutral;
      if s.openInfo.None? then Err(Panic)
      else Ok(RebalancedActive(s, a, Others(n)))
    else RebalancedPending(s, a)
  }

  function Closed(s: State, recipient: Recipient, a: Answers): Outcome {
    if s.closeInfo.Some? then Err(Generic("position is already closed"))
    else if s.cdpIdx.None? || s.cdpPreemptivelyClosed then
      Ok((s, [Do(RedeemAnchorUst(a.anchorUst)), Self(SendUusdToRecipient(ONE, recipient))]))
    else
      var n :- a.neutral;
      Ok((s, Others(n) + [Self(CloseCdpAndDisburseUusd(recipient))]))
  }

  function MadeSafe(s: State, a: Answers): Outcome {
    if s.cdpIdx.None? || s.range.None? || !a.stateKnown then Err(Panic)
    else
      var required :- Add(a.terms.minCollateralRatio, a.terms.safetyMargin);
      var raised :- Raised(s.range.value, required);
      var adjustment :- Adjust(a.SeenCdp(), raised, a.Locked());
      Ok((s.(range := Some(raised)),
          match adjustment
          case Keep => []
          case Burn(mirrorAsset) => Others(a.topUp) + [Do(BurnDebt(s.cdpIdx.value, mirrorAsset))]
          case Release(anchorUst) => ReleaseMessages(s.cdpIdx.value, anchorUst)))
  }

  function ReleaseMessages(idx: nat, anchorUst: nat): seq<Message> {
    [Do(WithdrawCollateral(idx, anchorUst)), Do(RedeemAnchorUst(anchorUst))]
  }

  /** The position's value: collateral, uusd at hand and in the farm, and locked short proceeds. */
  function PositionValue(s: State, a: Answers): Result<nat> {
    var collateral :- a.SeenCdp().CollateralValue();
    var withUusd :- Add(collateral, s.uusd);
    var withFarm :- Add(withUusd, a.longFarmUusd);
    Add(withFarm, a.Locked())
  }

  function ClosingMessages(idx: nat, a: Answers): seq<Message> {
    if a.SeenCdp().short == 0 then []
    else Others(a.topUp) + [Do(BurnDebt(idx, a.SeenCdp().short)), Self(WithdrawCollateralAndRedeemForUusd(ONE))]
  }

  function Gain(last: nat, value: nat): nat {
    if last < value then value - last else 0
  }

  /** The performance fee on the gain since the last one. */
  function FeeDue(s: State, last: nat, a: Answers): Result<Fee> {
    var value :- PositionValue(s, a);
    var amount :- MulDecimal(Gain(last, value), a.performanceRate);
    Ok(Fee(amount, value, a.performanceRate))
  }

  function Payments(fee: Fee): seq<Message> {
    if fee.amount == 0 then [] else [PayFee(fee)]
  }

  function Collected(s: State, a: Answers): Outcome {
    if s.cdpIdx.None? || s.lastFeeValue.None? || !a.stateKnown then Err(Panic)
    else
      var fee :- FeeDue(s, s.lastFeeValue.value, a);
      var rest :- Sub(fee.value, fee.amount);
      Ok((if fee.amount == 0 then s else s.(lastFeeValue := Some(rest)),
          ClosingMessages(s.cdpIdx.value, a) + Payments(fee)))
  }

  function CollectedThen(s: State, a: Answers, next: Internal): Outcome {
    var collected :- Collected(s, a);
    Ok((collected.0, collected.1 + [Self(next)]))
  }

  function SentUusd(s: State, proportion: nat, recipient: Recipient): Outcome {
    var amount :- MulDecimal(s.uusd, proportion);
    Ok((if proportion == ONE then s.(closeInfo := Some(amount)) else s,
        if amount == 0 then [] else [TransferOut(amount, recipient)]))
  }

  function Redeemed(s: State, a: Answers, proportion: nat): Outcome {
    if s.cdpIdx.None? || !a.cdpAnswers then Err(Panic)
    else
      var anchorUst :- MulDecimal(a.cdp.collateral, proportion);
      Ok((s, ReleaseMessages(s.cdpIdx.value, anchorUst)))
  }

  function Paired(s: State, a: Answers): Outcome {
    if s.cdpIdx.None? then Err(Panic)
    else
      var n :- a.pairing;
      Ok((s, Others(n)))
  }

  function Reinvested(s: State, a: Answers): Outcome {
    if s.cdpIdx.None? || s.range.None? then Err(Panic)
    else if s.uusd < a.minReinvest then Ok((s, []))
    else
      var messages :- InvestMessages(a, s.range.value);
      Ok((s, messages))
  }

  function Checked(s: State, a: Answers): Outcome {
    if s.cdpIdx.None? || !a.cdpAnswers then Err(Panic)
    else if Invest.SanityCheck(a.isShort, a.mirrorAssetBalance, a.cdp.short) then Ok((s, []))
    else Err(Generic("unexpected non-neutral position opened"))
  }

  function Handled(s: State, internal: Internal, a: Answers): Outcome {
    match internal
    case AchieveSafeCollateralRatio => MadeSafe(s, a)
    case CloseCdpAndDisburseUusd(recipient) => CollectedThen(s, a, SendUusdToRecipient(ONE, recipient))
    case CloseCdpAndDepositToAnchorEarn => CollectedThen(s, a, DepositUusdBalanceToAnchorEarn)
    case DepositUusdBalanceToAnchorEarn => Ok((s, [Do(DepositStable(s.uusd))]))
    case WithdrawCollateralAndRedeemForUusd(proportion) => Redeemed(s, a, proportion)
    case SendUusdToRecipient(proportion, recipient) => SentUusd(s, proportion, recipient)
    case PairUusdWithMirrorAsset => Paired(s, a)
    case DeltaNeutralReinvest(_) => Reinvested(s, a)
    case OpenPositionSanityCheck => Checked(s, a)
  }

  function Executed(s: State, msg: ExecuteMsg, a: Answers): Outcome {
    match msg
    case OpenPosition(params) => Opened(s, params, a)
    case ClosePosition(recipient) => Closed(s, recipient, a)
    case RebalanceAndReinvest => Rebalanced(s, a)
    case Inner(internal) => Handled(s, internal, a)
  }

  // ----- Transactions. -----

  /** The uusd that sending a message to others leaves: payments and deposits take just their
      amount, other calls leave what they leave. */
  function Left(s: State, message: Message, a: Answers): Result<nat> {
    match message
    case PayFee(fee) => Sub(s.uusd, fee.amount)
    case PayServiceFee(uusd) => Sub(s.uusd, uusd)
    case TransferOut(uusd, _) => Sub(s.uusd, uusd)
    case Do(DepositStable(uusd)) => Sub(s.uusd, uusd)
    case _ => Ok(a.uusdAfter)
  }

  /** One message: a call of another contract's, a payment, or a message to itself. */
  function Delivered(s: State, message: Message, a: Answers): Outcome {
    if message.Self? then Handled(s, message.internal, a)
    else if !a.accepted then Err(Panic)
    else
      var left :- Left(s, message, a);
      Ok((s.(uusd := left, sent := s.sent + [message],
             fees := if message.PayFee? then s.fees + [message.fee] else s.fees), []))
  }

  function Sum(weight: Message -> nat, messages: seq<Message>): nat {
    if |messages| == 0 then 0 else weight(messages[0]) + Sum(weight, messages[1..])
  }

  /** How deep the messages that a message leads to can nest. */
  function Rank(message: Message): nat {
    if !message.Self? then 0
    else if message.internal.CloseCdpAndDisburseUusd? || message.internal.CloseCdpAndDepositToAnchorEarn? then 3
    else 1
  }

  lemma {:induction false} SumConcat(weight: Message -> nat, x: seq<Message>, y: seq<Message>)
    ensures Sum(weight, x + y) == Sum(weight, x) + Sum(weight, y)
  {
    if |x| == 0 {
      assert x + y == y;
    } else {
      SumConcat(weight, x[1..], y);
      assert (x + y)[1..] == x[1..] + y;
    }
  }

  lemma SumOne(weight: Message -> nat, message: Message)
    ensures Sum(weight, [message]) == weight(message)
  {
    assert [message][1..] == [];
  }

  lemma {:induction false} SumOthers(weight: Message -> nat, n: nat)
    requires weight(Do(Other)) == 0
    ensures Sum(weight, Others(n)) == 0
  {
    if n > 0 {
      SumOthers(weight, n - 1);
      SumConcat(weight, Others(n - 1), [Do(Other)]);
      SumOne(weight, Do(Other));
    }
  }

  lemma {:induction false} OnlyOthers(n: nat)
    ensures forall message :: message in Others(n) ==> message == Do(Other)
  {
    if n > 0 {
      OnlyOthers(n - 1);
    }
  }

  predicate AllDo(messages: seq<Message>) {
    forall message :: message in messages ==> message.Do?
  }

  lemma {:induction false} SumDo(weight: Message -> nat, messages: seq<Message>)
    requires AllDo(messages) && forall message :: message in messages ==> weight(message) == 0
    ensures Sum(weight, messages) == 0
  {
    if |messages| > 0 {
      assert messages[0] in messages;
      SumDo(weight, messages[1..]);
    }
  }

  lemma ClosingSum(weight: Message -> nat, idx: nat, a: Answers)
    requires forall trade :: weight(Do(trade)) == 0
    ensures Sum(weight, ClosingMessages(idx, a))
         == if a.SeenCdp().short == 0 then 0 else weight(Self(WithdrawCollateralAndRedeemForUusd(ONE)))
  {
    if a.SeenCdp().short != 0 {
      var burn, withdraw := Do(BurnDebt(idx, a.SeenCdp().short)), Self(WithdrawCollateralAndRedeemForUusd(ONE));
      assert ClosingMessages(idx, a) == Others(a.topUp) + ([burn] + [withdraw]);
      SumConcat(weight, Others(a.topUp), [burn] + [withdraw]);
      SumConcat(weight, [burn], [withdraw]);
      SumOthers(weight, a.topUp);
      SumOne(weight, burn);
      SumOne(weight, withdraw);
    }
  }

  lemma PaymentsSum(weight: Message -> nat, fee: Fee)
    ensures Sum(weight, Payments(fee)) == if fee.amount == 0 then 0 else weight(PayFee(fee))
  {
    SumOne(weight, PayFee(fee));
  }

  /** Collecting fees leads to closing the CDP, at most one fee, and the message that follows. */
  lemma CollectedSum(weight: Message -> nat, s: State, a: Answers, next: Internal)
    requires forall trade :: weight(Do(trade)) == 0
    requires CollectedThen(s, a, next).Ok?
    ensures s.cdpIdx.Some? && s.lastFeeValue.Some? && FeeDue(s, s.lastFeeValue.value, a).Ok?
    ensures Sum(weight, CollectedThen(s, a, next).value.1)
         == Sum(weight, ClosingMessages(s.cdpIdx.value, a))
            + Sum(weight, Payments(FeeDue(s, s.lastFeeValue.value, a).value)) + weight(Self(next))
  {
    var closing, payments := ClosingMessages(s.cdpIdx.value, a), Payments(FeeDue(s, s.lastFeeValue.value, a).value);
    SumConcat(weight, closing, payments);
    SumConcat(weight, closing + payments, [Self(next)]);
    SumOne(weight, Self(next));
  }

  /** Messages to itself other than the two that collect fees lead only to calls of others. */
  lemma OnlyCalls(s: State, internal: Internal, a: Answers)
    requires Handled(s, internal, a).Ok? && Rank(Self(internal)) == 1 && !internal.SendUusdToRecipient?
    ensures AllDo(Handled(s, internal, a).value.1)
  {
    OnlyOthers(a.topUp);
    if a.invest.Ok? {
      OnlyOthers(a.invest.value);
    }
    if a.pairing.Ok? {
      OnlyOthers(a.pairing.value);
    }
  }

  /** A message leads only to messages that nest less deeply. */
  lemma NestsLess(s: State, message: Message, a: Answers)
    requires Delivered(s, message, a).Ok?
    ensures var messages := Delivered(s, message, a).value.1;
            if message.Self? then Sum(Rank, messages) < Rank(message) else messages == []
  {
    if message.Self? {
      match message.internal
      case CloseCdpAndDisburseUusd(recipient) => CollectedNestsLess(s, a, SendUusdToRecipient(ONE, recipient));
      case CloseCdpAndDepositToAnchorEarn => CollectedNestsLess(s, a, DepositUusdBalanceToAnchorEarn);
      case SendUusdToRecipient(proportion, recipient) =>
        SumOne(Rank, TransferOut(MulDecimal(s.uusd, proportion).value, recipient));
      case _ =>
        OnlyCalls(s, message.internal, a);
        SumDo(Rank, Handled(s, message.internal, a).value.1);
    }
  }

  lemma CollectedNestsLess(s: State, a: Answers, next: Internal)
    requires CollectedThen(s, a, next).Ok? && Rank(Self(next)) == 1
    ensures Sum(Rank, CollectedThen(s, a, next).value.1) <= 2
  {
    CollectedSum(Rank, s, a, next);
    ClosingSum(Rank, s.cdpIdx.value, a);
    PaymentsSum(Rank, FeeDue(s, s.lastFeeValue.value, a).value);
  }

  lemma StackShrinks(s: State, stack: seq<Message>, a: Answers)
    requires |stack| > 0 && Delivered(s, stack[0], a).Ok?
    ensures var rest := Delivered(s, stack[0], a).value.1 + stack[1..];
            Sum(Rank, rest) < Sum(Rank, stack) || (Sum(Rank, rest) == Sum(Rank, stack) && |rest| < |stack|)
  {
    NestsLess(s, stack[0], a);
    SumConcat(Rank, Delivered(s, stack[0], a).value.1, stack[1..]);
  }

  /** Delivers the messages of a stack, each with all it leads to before the next. */
  function Drained(s: State, stack: seq<Message>, answers: nat -> Answers, n: nat): Result<State>
    decreases Sum(Rank, stack), |stack|
  {
    if |stack| == 0 then Ok(s)
    else
      var next :- Delivered(s, stack[0], answers(n));
      StackShrinks(s, stack, answers(n));
      Drained(next.0, next.1 + stack[1..], answers, n + 1)
  }

  /** A call from outside, the uusd balance when it starts, and what the chain answers each message. */
  datatype Transaction = Transaction(sender: Sender, msg: ExecuteMsg, uusd: nat, answers: nat -> Answers)

  function Transacted(s: State, t: Transaction): Result<State> {
    if !Authorized(t.sender, t.msg) then Err(Generic("unauthorized"))
    else
      var first :- Executed(s.(uusd := t.uusd), t.msg, t.answers(0));
      Drained(first.0, first.1, t.answers, 1)
  }

  // ----- The contract. -----

  class PositionContract {
    var openInfo: Option<nat>
    var closeInfo: Option<nat>
    var cdpIdx: Option<nat>
    var cdpPreemptivelyClosed: bool
    var range: Option<Range>
    var lastFeeValue: Option<nat>
    var uusd: nat
    var fees: seq<Fee>
    var sent: seq<Message>

    function Value(): State
      reads this
    {
      State(openInfo, closeInfo, cdpIdx, cdpPreemptivelyClosed, range, lastFeeValue, uusd, fees, sent)
    }

    constructor ()
      ensures Value() == State(None, None, None, false, None, None, 0, [], [])
    {
      openInfo, closeInfo, cdpIdx, cdpPreemptivelyClosed := None, None, None, false;
      range, lastFeeValue, uusd, fees, sent := None, None, 0, [], [];
    }

    method Open(params: Params, a: Answers) returns (r: Result<seq<Message>>)
      modifies this
      ensures r.Ok? <==> Opened(old(Value()), params, a).Ok?
      ensures r.Ok? ==> Ok((Value(), r.value)) == Opened(old(Value()), params, a)
    {
      if openInfo.Some? {
        return Err(Generic("position is already open"));
      }
      if uusd < a.minOpen {
        return Err(Generic("UST amount too small to open a delta-neutral position"));
      }
      lastFeeValue := Some(uusd);
      openInfo := Some(uusd);
      range := Some(params.range);
      if a.freshRate.Some? {
        cdpIdx := Some(a.nextCdpIdx);
        var messages :- InvestMessages(a, params.range);
        return Ok(messages + [Self(OpenPositionSanityCheck)]);
      } else if params.allowOffMarketOpen {
        var messages := if a.serviceFee == 0 then [] else [PayServiceFee(a.serviceFee)];
        var rest :- Sub(uusd, a.serviceFee);
        return Ok(messages + [Do(DepositStable(rest))]);
      } else {
        return Err(Generic("oracle price stale; off-market position open service not requested"));
      }
    }

    method Close(recipient: Recipient, a: Answers) returns (r: Result<seq<Message>>)
      ensures r.Ok? <==> Closed(Value(), recipient, a).Ok?
      ensures r.Ok? ==> Ok((Value(), r.value)) == Closed(Value(), recipient, a)
    {
      if closeInfo.Some? {
        return Err(Generic("position is already closed"));
      }
      if cdpIdx.None? || cdpPreemptivelyClosed {
        return Ok([Do(RedeemAnchorUst(a.anchorUst)), Self(SendUusdToRecipient(ONE, recipient))]);
      }
      var n :- a.neutral;
      return Ok(Others(n) + [Self(CloseCdpAndDisburseUusd(recipient))]);
    }

    method Rebalance(a: Answers) returns (r: Result<seq<Message>>)
      modifies this`cdpPreemptivelyClosed
      ensures r.Ok? <==> Rebalanced(old(Value()), a).Ok?
      ensures r.Ok? ==> Ok((Value(), r.value)) == Rebalanced(old(Value()), a)
    {
      if closeInfo.Some? || cdpPreemptivelyClosed {
        return Ok([]);
      }
      if openInfo.None? {
        return Err(Generic("mirror_asset_cw20_addr not found"));
      }
      var messages := [];
      if cdpIdx.Some? {
        var n :- a.neutral;
        messages := Others(n);
        if !a.cdpAnswers {
          cdpPreemptivelyClosed := true;
          return Ok(messages + [Self(CloseCdpAndDepositToAnchorEarn)]);
        }
      }
      if a.freshRate.None? {
        return Ok(messages);
      }
      if cdpIdx.Some? {
        if a.ShouldClose() {
          cdpPreemptivelyClosed := true;
          return Ok(messages + [Self(CloseCdpAndDepositToAnchorEarn)]);
        }
        return Ok(messages + [Self(AchieveSafeCollateralRatio)] + ReinvestMessages(a, a.freshRate.value));
      }
      if a.ShouldClose() {
        cdpPreemptivelyClosed := true;
        return Ok(messages);
      }
      if range.None? {
        return Err(Generic("target_collateral_ratio_range not found"));
      }
      var invest :- InvestMessages(a, range.value);
      return Ok([Do(RedeemAnchorUst(a.anchorUst))] + invest + [Self(OpenPositionSanityCheck)]);
    }

    method AchieveSafeCollateralRatios(a: Answers) returns (r: Result<seq<Message>>)
      modifies this`range
      ensures r.Ok? <==> MadeSafe(old(Value()), a).Ok?
      ensures r.Ok? ==> Ok((Value(), r.value)) == MadeSafe(old(Value()), a)
    {
      if cdpIdx.None? || range.None? || !a.stateKnown {
        return Err(Panic);
      }
      var required :- Add(a.terms.minCollateralRatio, a.terms.safetyMargin);
      var raised :- Raised(range.value, required);
      if raised != range.value {
        range := Some(raised);
      }
      var adjustment :- Adjust(a.SeenCdp(), raised, a.Locked());
      match adjustment
      case Keep => return Ok([]);
      case Burn(mirrorAsset) => return Ok(Others(a.topUp) + [Do(BurnDebt(cdpIdx.value, mirrorAsset))]);
      case Release(anchorUst) => return Ok(ReleaseMessages(cdpIdx.value, anchorUst));
    }

    method CloseCdpAndCollectFees(a: Answers) returns (r: Result<seq<Message>>)
      modifies this`lastFeeValue
      ensures r.Ok? <==> Collected(old(Value()), a).Ok?
      ensures r.Ok? ==> Ok((Value(), r.value)) == Collected(old(Value()), a)
    {
      if cdpIdx.None? || lastFeeValue.None? || !a.stateKnown {
        return Err(Panic);
      }
      var value :- PositionValue(Value(), a);
      var gain := if lastFeeValue.value < value then value - lastFeeValue.value else 0;
      var amount :- MulDecimal(gain, a.performanceRate);
      var messages := [];
      if a.SeenCdp().short != 0 {
        messages := messages + Others(a.topUp);
        messages := messages + [Do(BurnDebt(cdpIdx.value, a.SeenCdp().short))];
        messages := messages + [Self(WithdrawCollateralAndRedeemForUusd(ONE))];
        assert messages == ClosingMessages(cdpIdx.value, a);
      }
      var rest :- Sub(value, amount);
      if amount != 0 {
        messages := messages + [PayFee(Fee(amount, value, a.performanceRate))];
        lastFeeValue := Some(rest);
      } else {
        assert messages + [] == messages;
      }
      return Ok(messages);
    }

    method CloseCdpAnd(a: Answers, next: Internal) returns (r: Result<seq<Message>>)
      modifies this`lastFeeValue
      ensures r.Ok? <==> CollectedThen(old(Value()), a, next).Ok?
      ensures r.Ok? ==> Ok((Value(), r.value)) == CollectedThen(old(Value()), a, next)
    {
      var messages :- CloseCdpAndCollectFees(a);
      return Ok(messages + [Self(next)]);
    }

    method SendUusd(proportion: nat, recipient: Recipient) returns (r: Result<seq<Message>>)
      modifies this`closeInfo
      ensures r.Ok? <==> SentUusd(old(Value()), proportion, recipient).Ok?
      ensures r.Ok? ==> Ok((Value(), r.value)) == SentUusd(old(Value()), proportion, recipient)
    {
      var amount :- MulDecimal(uusd, proportion);
      if proportion == ONE {
        closeInfo := Some(amount);
      }
      if amount == 0 {
        return Ok([]);
      }
      return Ok([TransferOut(amount, recipient)]);
    }

    method HandleInternal(internal: Internal, a: Answers) returns (r: Result<seq<Message>>)
      modifies this
      ensures r.Ok? <==> Handled(old(Value()), internal, a).Ok?
      ensures r.Ok? ==> Ok((Value(), r.value)) == Handled(old(Value()), internal, a)
    {
      match internal
      case AchieveSafeCollateralRatio => r := AchieveSafeCollateralRatios(a);
      case CloseCdpAndDisburseUusd(recipient) => r := CloseCdpAnd(a, SendUusdToRecipient(ONE, recipient));
      case CloseCdpAndDepositToAnchorEarn => r := CloseCdpAnd(a, DepositUusdBalanceToAnchorEarn);
      case SendUusdToRecipient(proportion, recipient) => r := SendUusd(proportion, recipient);
      case DepositUusdBalanceToAnchorEarn => r := Ok([Do(DepositStable(uusd))]);
      case WithdrawCollateralAndRedeemForUusd(proportion) => r := MessagesOf(Redeemed(Value(), a, proportion));
      case PairUusdWithMirrorAsset => r := MessagesOf(Paired(Value(), a));
      case DeltaNeutralReinvest(_) => r := MessagesOf(Reinvested(Value(), a));
      case OpenPositionSanityCheck => r := MessagesOf(Checked(Value(), a));
    }

    /** The messages of a handler that only reads storage. */
    static function MessagesOf(outcome: Outcome): Result<seq<Message>> {
      match outcome
      case Ok(done) => Ok(done.1)
      case Err(error) => Err(error)
    }

    method Deliver(message: Message, a: Answers) returns (r: Result<seq<Message>>)
      modifies this
      ensures r.Ok? <==> Delivered(old(Value()), message, a).Ok?
      ensures r.Ok? ==> Ok((Value(), r.value)) == Delivered(old(Value()), message, a)
    {
      if message.Self? {
        r := HandleInternal(message.internal, a);
        return;
      }
      if !a.accepted {
        return Err(Panic);
      }
      match message {
        case Do(DepositStable(amount)) => uusd :- Sub(uusd, amount);
        case Do(_) => uusd := a.uusdAfter;
        case PayFee(fee) =>
          uusd :- Sub(uusd, fee.amount);
          fees := fees + [fee];
        case PayServiceFee(amount) => uusd :- Sub(uusd, amount);
        case TransferOut(amount, _) => uusd :- Sub(uusd, amount);
      }
      sent := sent + [message];
      return Ok([]);
    }

    method Execute(msg: ExecuteMsg, a: Answers) returns (r: Result<seq<Message>>)
      modifies this
      ensures r.Ok? <==> Executed(old(Value()), msg, a).Ok?
      ensures r.Ok? ==> Ok((Value(), r.value)) == Executed(old(Value()), msg, a)
    {
      match msg
      case OpenPosition(params) => r := Open(params, a);
      case ClosePosition(recipient) => r := Close(recipient, a);
      case RebalanceAndReinvest => r := Rebalance(a);
      case Inner(internal) => r := HandleInternal(internal, a);
    }

    /** Runs a call with every message it leads to, depth first; any failure undoes it all. */
    method Transact(t: Transaction) returns (ok: bool)
      modifies this
      ensures ok == Transacted(old(Value()), t).Ok?
      ensures Value() == if ok then Transacted(old(Value()), t).value else old(Value())
    {
      if !Authorized(t.sender, t.msg) {
        return false;
      }
      var saved := Value();
      uusd := t.uusd;
      var first := Execute(t.msg, t.answers(0));
      ok := first.Ok?;
      var stack: seq<Message>, n := [], 1;
      if ok {
        stack := first.value;
      }
      while ok && |stack| > 0
        invariant ok ==> Transacted(saved, t) == Drained(Value(), stack, t.answers, n)
        invariant !ok ==> Transacted(saved, t).Err?
        decreases ok, Sum(Rank, stack), |stack|
      {
        ghost var before := Value();
        var next := Deliver(stack[0], t.answers(n));
        if next.Ok? {
          StackShrinks(before, stack, t.answers(n));
          stack, n := next.value + stack[1..], n + 1;
        } else {
          ok := false;
        }
      }
      if !ok {
        Restore(saved);
      }
    }

    method Restore(saved: State)
      modifies this
      ensures Value() == saved
    {
      openInfo, closeInfo, cdpIdx := saved.openInfo, saved.closeInfo, saved.cdpIdx;
      cdpPreemptivelyClosed, range := saved.cdpPreemptivelyClosed, saved.range;
      lastFeeValue, uusd, fees, sent := saved.lastFeeValue, saved.uusd, saved.fees, saved.sent;
    }
  }
}
