/** What every run of a position's transactions keeps. */
module LifecycleRuns {
  import opened Results
  import opened FixedPoint
  import opened Instruction
  import opened SafeRatio
  import opened Lifecycle
  import Invest = DeltaNeutralInvest

  function After(s: State, t: Transaction): State {
    var done := Transacted(s, t);
    if done.Ok? then done.value else s
  }

  function Run(s: State, ts: seq<Transaction>): State {
    if |ts| == 0 then s else After(Run(s, ts[..|ts| - 1]), ts[|ts| - 1])
  }

  /** Contracts do not start transactions. */
  ghost predicate FromOutside(ts: seq<Transaction>) {
    forall t :: t in ts ==> !t.sender.Contract?
  }

  // ----- The invariant. -----

  /** Messages that pay the performance fee, or will lead to paying it. */
  function FeeWeight(message: Message): nat {
    if message.PayFee? || (message.Self? && Rank(message) == 3) then 1 else 0
  }

  function PaymentWeight(message: Message): nat {
    if message.PayFee? then 1 else 0
  }

  predicate SendsAll(message: Message) {
    message.Self? && message.internal.SendUusdToRecipient? && message.internal.proportion == ONE
  }

  /** Messages that close the position, or will lead to closing it. */
  function CloseWeight(message: Message): nat {
    if SendsAll(message) || (message.Self? && message.internal.CloseCdpAndDisburseUusd?) then 1 else 0
  }

  /** A fee of at most the rate times the gain over the opening deposit. */
  predicate Due(s: State, fee: Fee) {
    s.openInfo.Some? && s.openInfo.value < fee.value && fee.amount * ONE <= fee.rate * (fee.value - s.openInfo.value)
  }

  predicate Stored(s: State) {
    && (s.openInfo.None? ==> s.cdpIdx.None? && s.lastFeeValue.None?)
    && (s.openInfo.Some? ==> s.range.Some? && s.lastFeeValue.Some?)
    && (s.cdpIdx.Some? ==> s.range.value.Wide())
  }

  predicate FeesDue(s: State, stack: seq<Message>) {
    && (forall fee :: fee in s.fees ==> Due(s, fee))
    && forall message :: message in stack && message.PayFee? ==> Due(s, message.fee)
  }

  /** What holds between any two messages of a transaction. */
  ghost predicate During(s: State, stack: seq<Message>) {
    var fees, closings := |s.fees| + Sum(FeeWeight, stack), Sum(CloseWeight, stack);
    && Stored(s)
    && fees <= 1
    && (fees == 1 ==> s.cdpIdx.Some? && (s.cdpPreemptivelyClosed || s.closeInfo.Some? || closings == 1))
    && closings <= 1 && (s.closeInfo.Some? ==> closings == 0)
    && (s.openInfo.Some? && s.fees == [] && Sum(PaymentWeight, stack) == 0 ==> s.lastFeeValue == s.openInfo)
    && FeesDue(s, stack)
  }

  /** What holds between transactions. */
  ghost predicate Settled(s: State) {
    During(s, [])
  }

  predicate Rises(r: Range, later: Range) {
    r.min <= later.min && r.max <= later.max
  }

  /** Nothing that was recorded is undone: a fee paid, an opening, a CDP, a closing; and the
      target range of an open position only rises. */
  predicate Keeps(s: State, t: State) {
    && (s.openInfo.Some? ==> t.openInfo == s.openInfo && t.cdpIdx == s.cdpIdx && t.range.Some?)
    && (s.openInfo.Some? && s.range.Some? ==> Rises(s.range.value, t.range.value))
    && (s.closeInfo.Some? ==> t.closeInfo == s.closeInfo)
    && (s.cdpPreemptivelyClosed ==> t.cdpPreemptivelyClosed)
    && s.fees <= t.fees && s.sent <= t.sent
  }

  // ----- One message. -----

  lemma {:induction false} NoneWeighs(weight: Message -> nat, messages: seq<Message>)
    requires Sum(weight, messages) == 0
    ensures forall message :: message in messages ==> weight(message) == 0
  {
    if |messages| > 0 {
      NoneWeighs(weight, messages[1..]);
    }
  }

  /** How the weights of a stack change when its head is replaced by `messages`. */
  lemma Replaced(stack: seq<Message>, messages: seq<Message>)
    requires |stack| > 0
    ensures Sum(FeeWeight, messages + stack[1..])
         == Sum(FeeWeight, stack) - FeeWeight(stack[0]) + Sum(FeeWeight, messages)
    ensures Sum(CloseWeight, messages + stack[1..])
         == Sum(CloseWeight, stack) - CloseWeight(stack[0]) + Sum(CloseWeight, messages)
    ensures Sum(PaymentWeight, messages + stack[1..])
         == Sum(PaymentWeight, stack) - PaymentWeight(stack[0]) + Sum(PaymentWeight, messages)
  {
    SumConcat(FeeWeight, messages, stack[1..]);
    SumConcat(CloseWeight, messages, stack[1..]);
    SumConcat(PaymentWeight, messages, stack[1..]);
  }

  lemma CallsWeighNothing(messages: seq<Message>)
    requires AllDo(messages)
    ensures Sum(FeeWeight, messages) == 0 && Sum(CloseWeight, messages) == 0 && Sum(PaymentWeight, messages) == 0
  {
    SumDo(FeeWeight, messages);
    SumDo(CloseWeight, messages);
    SumDo(PaymentWeight, messages);
  }

  lemma FeeBound(opening: nat, value: nat, rate: nat)
    ensures Gain(opening, value) * rate / ONE > 0 ==>
              opening < value && Gain(opening, value) * rate / ONE * ONE <= rate * (value - opening)
  {
    DivBounds(Gain(opening, value) * rate, ONE);
  }

  /** Weights of what collecting the fee leads to. */
  lemma CollectedWeights(s: State, a: Answers, next: Internal)
    requires CollectedThen(s, a, next).Ok? && Rank(Self(next)) == 1
    ensures s.lastFeeValue.Some? && FeeDue(s, s.lastFeeValue.value, a).Ok?
    ensures var messages, fee := CollectedThen(s, a, next).value.1, FeeDue(s, s.lastFeeValue.value, a).value;
            var payments := if fee.amount == 0 then 0 else 1;
            && Sum(FeeWeight, messages) == payments && Sum(PaymentWeight, messages) == payments
            && Sum(CloseWeight, messages) == CloseWeight(Self(next))
            && forall message :: message in messages && message.PayFee? ==> message.fee == fee && 0 < fee.amount
  {
    var fee := FeeDue(s, s.lastFeeValue.value, a).value;
    CollectedSum(FeeWeight, s, a, next);
    ClosingSum(FeeWeight, s.cdpIdx.value, a);
    PaymentsSum(FeeWeight, fee);
    CollectedSum(PaymentWeight, s, a, next);
    ClosingSum(PaymentWeight, s.cdpIdx.value, a);
    PaymentsSum(PaymentWeight, fee);
    CollectedSum(CloseWeight, s, a, next);
    ClosingSum(CloseWeight, s.cdpIdx.value, a);
    PaymentsSum(CloseWeight, fee);
    OnlyOthers(a.topUp);
  }

  lemma CollectKeeps(s: State, stack: seq<Message>, a: Answers, next: Internal)
    requires During(s, stack) && |stack| > 0 && Rank(stack[0]) == 3
    requires CollectedThen(s, a, next).Ok? && Rank(Self(next)) == 1 && CloseWeight(Self(next)) == CloseWeight(stack[0])
    ensures var done := CollectedThen(s, a, next).value;
            During(done.0, done.1 + stack[1..]) && Keeps(s, done.0)
  {
    var done := CollectedThen(s, a, next).value;
    CollectedWeights(s, a, next);
    Replaced(stack, done.1);
    NoneWeighs(FeeWeight, stack[1..]);
    var fee := FeeDue(s, s.lastFeeValue.value, a).value;
    FeeBound(s.openInfo.value, fee.value, fee.rate);
    NoPayment(stack);
    assert s.lastFeeValue == s.openInfo;
    NoneWeighs(PaymentWeight, stack[1..]);
    assert forall message :: message in done.1 + stack[1..] ==> message in done.1 || message in stack[1..];
  }

  /** Where the fee is still to be computed, none is waiting to be paid. */
  lemma NoPayment(stack: seq<Message>)
    requires |stack| > 0 && Rank(stack[0]) == 3 && Sum(FeeWeight, stack) <= 1
    ensures Sum(PaymentWeight, stack) == 0
  {
    LessWeight(stack[1..]);
  }

  lemma {:induction false} LessWeight(messages: seq<Message>)
    ensures Sum(PaymentWeight, messages) <= Sum(FeeWeight, messages)
  {
    if |messages| > 0 {
      LessWeight(messages[1..]);
    }
  }

  lemma SendKeeps(s: State, stack: seq<Message>, a: Answers)
    requires During(s, stack) && |stack| > 0 && stack[0].Self? && stack[0].internal.SendUusdToRecipient?
    requires Delivered(s, stack[0], a).Ok?
    ensures var done := Delivered(s, stack[0], a).value;
            During(done.0, done.1 + stack[1..]) && Keeps(s, done.0)
  {
    var done := Delivered(s, stack[0], a).value;
    Replaced(stack, done.1);
    if |done.1| > 0 {
      SumOne(FeeWeight, done.1[0]);
      SumOne(CloseWeight, done.1[0]);
      SumOne(PaymentWeight, done.1[0]);
    }
  }

  lemma PaymentKeeps(s: State, stack: seq<Message>, a: Answers)
    requires During(s, stack) && |stack| > 0 && stack[0].PayFee? && Delivered(s, stack[0], a).Ok?
    ensures var done := Delivered(s, stack[0], a).value;
            During(done.0, done.1 + stack[1..]) && Keeps(s, done.0)
  {
    Replaced(stack, []);
  }

  lemma SafeRangeRises(s: State, a: Answers)
    requires Stored(s) && MadeSafe(s, a).Ok?
    ensures var done := MadeSafe(s, a).value.0;
            done == s.(range := done.range) && Stored(done) && Keeps(s, done)
  {
    RaisedOnlyRises(s.range.value, a.terms.minCollateralRatio + a.terms.safetyMargin);
  }

  predicate LeadsToCalls(message: Message) {
    !message.PayFee? && (message.Self? ==> Rank(message) == 1 && !message.internal.SendUusdToRecipient?)
  }

  /** Messages that lead only to calls of others change nothing but the balance, the range and what
      was sent. */
  lemma CallChanges(s: State, message: Message, a: Answers)
    requires Stored(s) && LeadsToCalls(message) && Delivered(s, message, a).Ok?
    ensures var done := Delivered(s, message, a).value;
            && done.0 == s.(uusd := done.0.uusd, range := done.0.range, sent := done.0.sent)
            && Stored(done.0) && Keeps(s, done.0) && AllDo(done.1)
  {
    if message.Self? {
      OnlyCalls(s, message.internal, a);
      if message.internal.AchieveSafeCollateralRatio? {
        SafeRangeRises(s, a);
      }
    }
  }

  lemma CallKeeps(s: State, stack: seq<Message>, a: Answers)
    requires During(s, stack) && |stack| > 0 && LeadsToCalls(stack[0]) && Delivered(s, stack[0], a).Ok?
    ensures var done := Delivered(s, stack[0], a).value;
            During(done.0, done.1 + stack[1..]) && Keeps(s, done.0)
  {
    var done := Delivered(s, stack[0], a).value;
    CallChanges(s, stack[0], a);
    StillDuring(s, done.0, stack, done.1);
  }

  lemma StillDuring(s: State, t: State, stack: seq<Message>, calls: seq<Message>)
    requires During(s, stack) && |stack| > 0 && LeadsToCalls(stack[0]) && AllDo(calls)
    requires t == s.(uusd := t.uusd, range := t.range, sent := t.sent) && Stored(t)
    ensures During(t, calls + stack[1..])
  {
    CallsWeighNothing(calls);
    Replaced(stack, calls);
    assert forall message :: message in calls + stack[1..] ==> message in calls || message in stack;
  }

  lemma DeliveryKeeps(s: State, stack: seq<Message>, a: Answers)
    requires During(s, stack) && |stack| > 0 && Delivered(s, stack[0], a).Ok?
    ensures var done := Delivered(s, stack[0], a).value;
            During(done.0, done.1 + stack[1..]) && Keeps(s, done.0)
  {
    if stack[0].PayFee? {
      PaymentKeeps(s, stack, a);
    } else if !stack[0].Self? {
      CallKeeps(s, stack, a);
    } else {
      match stack[0].internal
      case CloseCdpAndDisburseUusd(recipient) => CollectKeeps(s, stack, a, SendUusdToRecipient(ONE, recipient));
      case CloseCdpAndDepositToAnchorEarn => CollectKeeps(s, stack, a, DepositUusdBalanceToAnchorEarn);
      case SendUusdToRecipient(_, _) => SendKeeps(s, stack, a);
      case _ => CallKeeps(s, stack, a);
    }
  }

  lemma {:induction false} DrainKeeps(s: State, stack: seq<Message>, answers: nat -> Answers, n: nat)
    requires During(s, stack) && Drained(s, stack, answers, n).Ok?
    ensures Settled(Drained(s, stack, answers, n).value) && Keeps(s, Drained(s, stack, answers, n).value)
    decreases Sum(Rank, stack), |stack|
  {
    if |stack| > 0 {
      DeliveryKeeps(s, stack, answers(n));
      var next := Delivered(s, stack[0], answers(n)).value;
      StackShrinks(s, stack, answers(n));
      DrainKeeps(next.0, next.1 + stack[1..], answers, n + 1);
    }
  }

  // ----- The calls that start transactions. -----

  lemma CallsThenOne(messages: seq<Message>, last: Message)
    requires AllDo(messages)
    ensures Sum(FeeWeight, messages + [last]) == FeeWeight(last)
    ensures Sum(CloseWeight, messages + [last]) == CloseWeight(last)
    ensures Sum(PaymentWeight, messages + [last]) == PaymentWeight(last)
  {
    CallsWeighNothing(messages);
    SumConcat(FeeWeight, messages, [last]);
    SumConcat(CloseWeight, messages, [last]);
    SumConcat(PaymentWeight, messages, [last]);
    SumOne(FeeWeight, last);
    SumOne(CloseWeight, last);
    SumOne(PaymentWeight, last);
  }

  lemma TwoWeigh(x: Message, y: Message)
    ensures Sum(FeeWeight, [x, y]) == FeeWeight(x) + FeeWeight(y)
    ensures Sum(CloseWeight, [x, y]) == CloseWeight(x) + CloseWeight(y)
    ensures Sum(PaymentWeight, [x, y]) == PaymentWeight(x) + PaymentWeight(y)
  {
    SumTwo(FeeWeight, x, y);
    SumTwo(CloseWeight, x, y);
    SumTwo(PaymentWeight, x, y);
  }

  lemma SumTwo(weight: Message -> nat, x: Message, y: Message)
    ensures Sum(weight, [x, y]) == weight(x) + weight(y)
  {
    assert [x, y] == [x] + [y];
    SumConcat(weight, [x], [y]);
    SumOne(weight, x);
    SumOne(weight, y);
  }

  lemma OpenKeeps(s: State, params: Params, a: Answers)
    requires Settled(s) && Opened(s, params, a).Ok?
    ensures var done := Opened(s, params, a).value;
            During(done.0, done.1) && Keeps(s, done.0)
  {
    var done := Opened(s, params, a).value;
    if a.freshRate.Some? {
      OnlyOthers(a.invest.value);
      CallsThenOne(Others(a.invest.value), Self(OpenPositionSanityCheck));
    } else if a.serviceFee == 0 {
      assert done.1 == [done.1[0]];
      CallsWeighNothing(done.1);
    } else {
      TwoWeigh(done.1[0], done.1[1]);
      assert done.1 == [done.1[0], done.1[1]];
    }
  }

  lemma CloseKeeps(s: State, recipient: Recipient, a: Answers)
    requires Settled(s) && Closed(s, recipient, a).Ok?
    ensures var done := Closed(s, recipient, a).value;
            During(done.0, done.1) && Keeps(s, done.0)
  {
    var done := Closed(s, recipient, a).value;
    if s.cdpIdx.None? || s.cdpPreemptivelyClosed {
      assert done.1 == [Do(RedeemAnchorUst(a.anchorUst))] + [Self(SendUusdToRecipient(ONE, recipient))];
      CallsThenOne([Do(RedeemAnchorUst(a.anchorUst))], Self(SendUusdToRecipient(ONE, recipient)));
    } else {
      OnlyOthers(a.neutral.value);
      CallsThenOne(Others(a.neutral.value), Self(CloseCdpAndDisburseUusd(recipient)));
    }
  }

  lemma ReinvestWeighsNothing(a: Answers, rate: nat)
    ensures var messages := ReinvestMessages(a, rate);
            && Sum(FeeWeight, messages) == 0 && Sum(CloseWeight, messages) == 0 && Sum(PaymentWeight, messages) == 0
            && forall message :: message in messages ==> !message.PayFee?
  {
    if |ReinvestMessages(a, rate)| > 0 {
      TwoWeigh(Self(PairUusdWithMirrorAsset), Self(DeltaNeutralReinvest(rate)));
    }
  }

  lemma RebalanceActiveKeeps(s: State, a: Answers, neutral: seq<Message>)
    requires Settled(s) && s.closeInfo.None? && !s.cdpPreemptivelyClosed && s.cdpIdx.Some? && AllDo(neutral)
    ensures var done := RebalancedActive(s, a, neutral);
            During(done.0, done.1) && Keeps(s, done.0)
  {
    CallsWeighNothing(neutral);
    CallsThenOne(neutral, Self(CloseCdpAndDepositToAnchorEarn));
    if a.cdpAnswers && a.freshRate.Some? && !a.ShouldClose() {
      var safe, reinvest := neutral + [Self(AchieveSafeCollateralRatio)], ReinvestMessages(a, a.freshRate.value);
      CallsThenOne(neutral, Self(AchieveSafeCollateralRatio));
      ReinvestWeighsNothing(a, a.freshRate.value);
      SumConcat(FeeWeight, safe, reinvest);
      SumConcat(CloseWeight, safe, reinvest);
      SumConcat(PaymentWeight, safe, reinvest);
    }
  }

  lemma RebalanceKeeps(s: State, a: Answers)
    requires Settled(s) && Rebalanced(s, a).Ok?
    ensures var done := Rebalanced(s, a).value;
            During(done.0, done.1) && Keeps(s, done.0)
  {
    if s.closeInfo.Some? || s.cdpPreemptivelyClosed {
    } else if s.cdpIdx.Some? {
      OnlyOthers(a.neutral.value);
      RebalanceActiveKeeps(s, a, Others(a.neutral.value));
    } else {
      PendingKeeps(s, a);
    }
  }

  lemma PendingKeeps(s: State, a: Answers)
    requires Settled(s) && s.cdpIdx.None? && RebalancedPending(s, a).Ok?
    ensures var done := RebalancedPending(s, a).value;
            During(done.0, done.1) && Keeps(s, done.0)
  {
    if a.freshRate.Some? && !a.ShouldClose() {
      OnlyOthers(a.invest.value);
      CallsThenOne([Do(RedeemAnchorUst(a.anchorUst))] + Others(a.invest.value), Self(OpenPositionSanityCheck));
    }
  }

  lemma TransactionKeeps(s: State, t: Transaction)
    requires Settled(s) && !t.sender.Contract?
    ensures Settled(After(s, t)) && Keeps(s, After(s, t))
  {
    if Transacted(s, t).Ok? {
      var start := s.(uusd := t.uusd);
      var first := Executed(start, t.msg, t.answers(0)).value;
      match t.msg {
        case OpenPosition(params) => OpenKeeps(start, params, t.answers(0));
        case ClosePosition(recipient) => CloseKeeps(start, recipient, t.answers(0));
        case RebalanceAndReinvest => RebalanceKeeps(start, t.answers(0));
      }
      DrainKeeps(first.0, first.1, t.answers, 1);
    }
  }

  /** Over every run: the performance fee is paid at most once, within its bound; the range of an
      active CDP stays wide and only rises; and an opening, a CDP and a closing, once recorded,
      stay as they are. */
  lemma {:induction false} AlwaysSettled(s: State, ts: seq<Transaction>)
    requires Settled(s) && FromOutside(ts)
    ensures Settled(Run(s, ts)) && Keeps(s, Run(s, ts))
    ensures |Run(s, ts).fees| <= 1 && forall fee :: fee in Run(s, ts).fees ==> Due(Run(s, ts), fee)
    ensures Run(s, ts).cdpIdx.Some? ==> Run(s, ts).range.Some? && Run(s, ts).range.value.Wide()
  {
    if |ts| > 0 {
      AlwaysSettled(s, ts[..|ts| - 1]);
      TransactionKeeps(Run(s, ts[..|ts| - 1]), ts[|ts| - 1]);
    }
  }

  lemma StartsSettled()
    ensures Settled(State(None, None, None, false, None, None, 0, [], []))
  {}

  // ----- Closed positions stay at rest. -----

  /** Once closed, or with its CDP closed, a position is not rebalanced on any later run, and a
      closed one cannot be closed again. */
  lemma NeverRebalancedAgain(s: State, ts: seq<Transaction>, t: Transaction)
    requires Settled(s) && FromOutside(ts) && (s.closeInfo.Some? || s.cdpPreemptivelyClosed)
    requires t.msg.RebalanceAndReinvest? || (t.msg.ClosePosition? && s.closeInfo.Some?)
    ensures t.msg.RebalanceAndReinvest? && t.sender.Controller? ==>
              Transacted(Run(s, ts), t) == Ok(Run(s, ts).(uusd := t.uusd))
    ensures t.msg.ClosePosition? ==> Transacted(Run(s, ts), t).Err?
  {
    AlwaysSettled(s, ts);
  }

  // ----- Closing leaves no uusd. -----

  /** The rest of a closing: sending everything comes last, or is done. */
  predicate EndsEmpty(s: State, stack: seq<Message>) {
    if |stack| == 0 then s.uusd == 0 && s.closeInfo.Some?
    else
      var last := stack[|stack| - 1];
      CloseWeight(last) == 1 || (|stack| == 1 && last.TransferOut? && last.uusd == s.uusd && s.closeInfo.Some?)
  }

  lemma SendsEverything(s: State, recipient: Recipient)
    requires SentUusd(s, ONE, recipient).Ok?
    ensures var done := SentUusd(s, ONE, recipient).value;
            EndsEmpty(done.0, done.1)
  {
    DivAtLeast(s.uusd * ONE, ONE, s.uusd);
    DivAtMostExact(s.uusd * ONE, ONE, s.uusd);
  }

  lemma {:induction false} DrainEmpties(s: State, stack: seq<Message>, answers: nat -> Answers, n: nat)
    requires EndsEmpty(s, stack) && Drained(s, stack, answers, n).Ok?
    ensures EndsEmpty(Drained(s, stack, answers, n).value, [])
    decreases Sum(Rank, stack), |stack|
  {
    if |stack| > 0 {
      var next := Delivered(s, stack[0], answers(n)).value;
      var rest := next.1 + stack[1..];
      StackShrinks(s, stack, answers(n));
      if |stack| > 1 {
        assert rest[|rest| - 1] == stack[|stack| - 1];
      } else {
        assert rest == next.1;
        if SendsAll(stack[0]) {
          SendsEverything(s, stack[0].internal.recipient);
        }
      }
      DrainEmpties(next.0, rest, answers, n + 1);
    }
  }

  /** A closing that commits records it and leaves no uusd in the contract. */
  lemma ClosingEmpties(s: State, t: Transaction)
    requires t.msg.ClosePosition? && Transacted(s, t).Ok?
    ensures Transacted(s, t).value.uusd == 0 && Transacted(s, t).value.closeInfo.Some?
  {
    var first := Executed(s.(uusd := t.uusd), t.msg, t.answers(0)).value;
    DrainEmpties(first.0, first.1, t.answers, 1);
  }

  // ----- A position opened off market never gets its CDP. -----

  lemma {:induction false} CheckFails(s: State, stack: seq<Message>, answers: nat -> Answers, n: nat)
    requires s.cdpIdx.None? && |stack| > 0 && stack[|stack| - 1] == Self(OpenPositionSanityCheck)
    ensures Drained(s, stack, answers, n).Err?
    decreases Sum(Rank, stack), |stack|
  {
    if Delivered(s, stack[0], answers(n)).Ok? {
      var next := Delivered(s, stack[0], answers(n)).value;
      var rest := next.1 + stack[1..];
      StackShrinks(s, stack, answers(n));
      if |stack| > 1 {
        assert rest[|rest| - 1] == stack[|stack| - 1];
        CheckFails(next.0, rest, answers, n + 1);
      }
    }
  }

  /** Setting up the CDP of a position that was opened while the oracle price was stale never
      commits: the check that ends it looks for an index that nothing stored. */
  lemma PendingNeverOpens(s: State, t: Transaction)
    requires s.cdpIdx.None? && s.closeInfo.None? && !s.cdpPreemptivelyClosed
    requires t.msg.RebalanceAndReinvest? && t.answers(0).freshRate.Some? && !t.answers(0).ShouldClose()
    ensures Transacted(s, t).Err?
  {
    var start := s.(uusd := t.uusd);
    if Executed(start, t.msg, t.answers(0)).Ok? {
      var first := Executed(start, t.msg, t.answers(0)).value;
      CheckFails(first.0, first.1, t.answers, 1);
    }
  }

  /** So it has no CDP, and pays no performance fee, on any run. */
  lemma PendingStaysPending(s: State, ts: seq<Transaction>)
    requires Settled(s) && FromOutside(ts) && s.openInfo.Some? && s.cdpIdx.None?
    ensures Run(s, ts).cdpIdx.None? && Run(s, ts).fees == []
  {
    AlwaysSettled(s, ts);
  }

  // ----- The guards of a reinvestment cannot fire. -----

  predicate GuardError(error: Error) {
    || error == Generic("mAsset is delisted")
    || error == Generic("target_min_collateral_ratio too small")
    || error == Generic("target_max_collateral_ratio too small")
  }

  predicate Meets(range: Range, terms: Invest.Terms) {
    terms.minCollateralRatio + terms.safetyMargin <= range.min && range.Wide()
  }

  /** Terms that hold all through a transaction, whose subroutines fail for reasons of their own. */
  ghost predicate Steady(answers: nat -> Answers, terms: Invest.Terms) {
    forall n :: answers(n).terms == terms && OwnErrors(answers(n))
  }

  predicate OwnErrors(a: Answers) {
    && (a.invest.Err? ==> !GuardError(a.invest.error)) && (a.pairing.Err? ==> !GuardError(a.pairing.error))
    && (a.neutral.Err? ==> !GuardError(a.neutral.error))
  }

  /** Any reinvestment on the stack comes behind a restoration of the ratio, or meets the terms. */
  predicate Guarded(s: State, stack: seq<Message>, terms: Invest.Terms) {
    && Stored(s) && s.cdpIdx.Some?
    && (Ready(s, terms) || Restoring(stack))
  }

  predicate Ready(s: State, terms: Invest.Terms) {
    s.range.Some? && Meets(s.range.value, terms)
  }

  predicate Restoring(stack: seq<Message>) {
    |stack| > 0 && (stack[0] == Self(AchieveSafeCollateralRatio) || (stack[0].Do? && Restoring(stack[1..])))
  }

  predicate Reinvesting(stack: seq<Message>) {
    forall message :: message in stack && message.Self? ==>
      || message.internal.AchieveSafeCollateralRatio?
      || message.internal.PairUusdWithMirrorAsset?
      || message.internal.DeltaNeutralReinvest?
  }

  lemma TermsPass(terms: Invest.Terms, range: Range)
    requires !terms.delisted && Meets(range, terms)
    ensures Invest.CheckTerms(terms, range).Err? ==> !GuardError(Invest.CheckTerms(terms, range).error)
  {}

  lemma SafeMeets(s: State, a: Answers)
    requires Stored(s) && s.cdpIdx.Some?
    ensures MadeSafe(s, a).Ok? ==> Ready(MadeSafe(s, a).value.0, a.terms)
    ensures MadeSafe(s, a).Err? ==> !GuardError(MadeSafe(s, a).error)
  {
    var required := Add(a.terms.minCollateralRatio, a.terms.safetyMargin);
    if required.Ok? && Raised(s.range.value, required.value).Ok? {
      AdjustErrors(a.SeenCdp(), Raised(s.range.value, required.value).value, a.Locked());
    }
  }

  /** The adjustment fails only on arithmetic. */
  lemma AdjustErrors(cdp: Cdp, range: Range, locked: nat)
    ensures Adjust(cdp, range, locked).Err? ==> !Adjust(cdp, range, locked).error.Generic?
  {
    assert cdp.Ratio().Err? ==> !cdp.Ratio().error.Generic?;
    assert TargetShort(cdp, range).Err? ==> !TargetShort(cdp, range).error.Generic?;
    assert TargetCollateral(cdp, range).Err? ==> !TargetCollateral(cdp, range).error.Generic?;
  }

  lemma DeliveryGuarded(s: State, stack: seq<Message>, a: Answers)
    requires |stack| > 0 && Guarded(s, stack, a.terms) && Reinvesting(stack) && !a.terms.delisted && OwnErrors(a)
    ensures var r := Delivered(s, stack[0], a);
            if r.Err? then !GuardError(r.error)
            else Guarded(r.value.0, r.value.1 + stack[1..], a.terms) && Reinvesting(r.value.1 + stack[1..])
  {
    if stack[0] == Self(AchieveSafeCollateralRatio) {
      SafeMeets(s, a);
      if MadeSafe(s, a).Ok? {
        SafeRangeRises(s, a);
      }
    }
    if Ready(s, a.terms) {
      TermsPass(a.terms, s.range.value);
    }
    if Delivered(s, stack[0], a).Ok? {
      var next := Delivered(s, stack[0], a).value;
      if stack[0].Self? {
        OnlyCalls(s, stack[0].internal, a);
      }
      if stack[0].Do? {
        assert next.1 + stack[1..] == stack[1..];
      }
    }
  }

  lemma {:induction false} DrainGuarded(s: State, stack: seq<Message>, answers: nat -> Answers, n: nat,
                                        terms: Invest.Terms)
    requires Guarded(s, stack, terms) && Reinvesting(stack) && !terms.delisted && Steady(answers, terms)
    ensures Drained(s, stack, answers, n).Err? ==> !GuardError(Drained(s, stack, answers, n).error)
    decreases Sum(Rank, stack), |stack|
  {
    if |stack| > 0 {
      assert answers(n).terms == terms;
      DeliveryGuarded(s, stack, answers(n));
      if Delivered(s, stack[0], answers(n)).Ok? {
        var next := Delivered(s, stack[0], answers(n)).value;
        StackShrinks(s, stack, answers(n));
        DrainGuarded(next.0, next.1 + stack[1..], answers, n + 1, terms);
      }
    }
  }

  lemma {:induction false} CallsThenRestore(calls: seq<Message>, rest: seq<Message>)
    requires AllDo(calls)
    ensures Restoring(calls + [Self(AchieveSafeCollateralRatio)] + rest)
  {
    var stack := calls + [Self(AchieveSafeCollateralRatio)] + rest;
    if |calls| > 0 {
      CallsThenRestore(calls[1..], rest);
      assert stack[1..] == calls[1..] + [Self(AchieveSafeCollateralRatio)] + rest;
    }
  }

  /** Rebalancing an active CDP whose asset is not to be closed restores the ratio before it
      reinvests, so that the reinvestment meets the delisting and range guards it is checked by. */
  lemma ReinvestmentPassesGuards(s: State, t: Transaction, terms: Invest.Terms)
    requires Settled(s) && s.closeInfo.None? && !s.cdpPreemptivelyClosed && s.cdpIdx.Some?
    requires t.msg.RebalanceAndReinvest? && Steady(t.answers, terms)
    requires t.answers(0).cdpAnswers && t.answers(0).freshRate.Some? && !t.answers(0).ShouldClose()
    ensures Transacted(s, t).Err? ==> !GuardError(Transacted(s, t).error)
  {
    var a := t.answers(0);
    assert a.terms == terms && OwnErrors(a);
    var start := s.(uusd := t.uusd);
    if Authorized(t.sender, t.msg) && a.neutral.Ok? {
      var calls, rest := Others(a.neutral.value), ReinvestMessages(a, a.freshRate.value);
      OnlyOthers(a.neutral.value);
      CallsThenRestore(calls, rest);
      var stack := calls + [Self(AchieveSafeCollateralRatio)] + rest;
      assert Executed(start, t.msg, a) == Ok((start, stack));
      DrainGuarded(start, stack, t.answers, 1, terms);
    }
  }
}
