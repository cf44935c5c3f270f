/** The ledger of aUST that the Anchor Earn proxy holds for each position. */
module AnchorEarnProxy {
  import opened Results
  import opened FixedPoint
  import opened Instruction
  import opened TokenUtil

  const U256_MAX: nat := (U128_MAX + 1) * (U128_MAX + 1) - 1

  type Ledger = map<Position, nat>

  datatype Sent =
    | DepositStable(amount: nat)
    | RedeemStable(amount: nat)
    | Disburse(amount: nat, recipient: Recipient)

  function Balance(ledger: Ledger, position: Position): nat {
    if position in ledger then ledger[position] else 0
  }

  function Fits(x: nat): Result<nat> {
    if x <= U256_MAX then Ok(x) else Err(Overflow)
  }

  /** `Uint256 / Decimal256`. */
  function DivideByRate(amount: nat, rate: nat): Result<nat> {
    if rate == 0 then Err(DivideByZero)
    else
      var scaled :- Fits(amount * ONE);
      Ok(scaled / rate)
  }

  /** `Uint256 * Decimal256`. */
  function TimesDecimal(amount: nat, factor: nat): Result<nat> {
    var product :- Fits(amount * factor);
    Ok(product / ONE)
  }

  function ToUint128(x: nat): Result<nat> {
    if x <= U128_MAX then Ok(x) else Err(Overflow)
  }

  /** The one native uusd asset of a deposit, sent along in full. */
  function Deposit(call: Call, assets: seq<Asset>): Result<nat> {
    if && |assets| == 1 && assets[0].info == NativeToken("uusd")
       && 0 < assets[0].amount && assets[0].amount == call.Sent("uusd")
    then Ok(assets[0].amount)
    else Err(Generic("invalid assets"))
  }

  // ----- What each call does to the ledger. -----

  /** What a call leaves: the ledger, the aUST minted and redeemed, and the messages. */
  datatype Effect = Effect(ledger: Ledger, minted: nat, redeemed: nat, sent: seq<Sent>)

  function Deposited(ledger: Ledger, position: Position, call: Call, assets: seq<Asset>, rate: nat): Result<Effect> {
    var uusd :- Deposit(call, assets);
    var mint :- DivideByRate(uusd, rate);
    var sum :- Fits(Balance(ledger, position) + mint);
    Ok(Effect(ledger[position := sum], mint, 0, [DepositStable(uusd)]))
  }

  function Withdrawn(ledger: Ledger, position: Position, proportion: nat, recipient: Recipient,
                     rate: nat): Result<Effect> {
    if proportion == 0 || proportion > ONE then Err(Generic("invalid proportion"))
    else if position !in ledger then Err(Panic)
    else
      var held := ledger[position];
      var redeem :- TimesDecimal(held, proportion);
      if redeem == 0 || redeem > held then Err(Generic("invalid redeem_anchor_ust_amount"))
      else
        var value :- TimesDecimal(redeem, rate);
        var uusd :- ToUint128(value);
        var amount :- ToUint128(redeem);
        Ok(Effect(ledger[position := held - redeem], 0, redeem, [RedeemStable(amount), Disburse(uusd, recipient)]))
  }

  function Performed(ledger: Ledger, authorized: bool, position: Position, action: Action, call: Call,
                     assets: seq<Asset>, rate: nat)
    : Result<Effect>
  {
    if !authorized then Err(Generic("unauthorized"))
    else match action
      case OpenPosition(_) => Deposited(ledger, position, call, assets, rate)
      case IncreasePosition(_) => Deposited(ledger, position, call, assets, rate)
      case DecreasePosition(proportion, recipient) => Withdrawn(ledger, position, proportion, recipient, rate)
      case ClosePosition(recipient) => Withdrawn(ledger, position, ONE, recipient, rate)
  }

  // ----- The same, without division and case by case. -----

  predicate IsFloor(q: nat, n: nat, d: nat) {
    q * d <= n < (q + 1) * d
  }

  lemma FloorIs(q: nat, n: nat, d: nat)
    requires 0 < d && IsFloor(q, n, d)
    ensures n / d == q
  {
    DivAtLeast(n, d, q);
    DivAtMost(n, d, q);
  }

  /** Opening and increasing deposit all the uusd sent, if it is the one asset listed, and add the aUST
      it buys, rounded down, to the position's balance. Nothing else fails but arithmetic. */
  lemma DepositExact(ledger: Ledger, position: Position, action: Action, call: Call, assets: seq<Asset>, rate: nat,
                     minted: nat)
    requires action.OpenPosition? || action.IncreasePosition?
    requires 0 < rate ==> IsFloor(minted, call.Sent("uusd") * ONE, rate)
    ensures var sent, held := call.Sent("uusd"), Balance(ledger, position);
            var r := Performed(ledger, true, position, action, call, assets, rate);
            && (r.Ok? <==> assets == [Asset(NativeToken("uusd"), sent)] && 0 < sent && 0 < rate
                           && sent * ONE <= U256_MAX && held + minted <= U256_MAX)
            && (r.Ok? ==> r.value == Effect(ledger[position := held + minted], minted, 0, [DepositStable(sent)]))
  {
    if 0 < rate {
      FloorIs(minted, call.Sent("uusd") * ONE, rate);
    }
  }

  /** Decreasing and closing redeem a proportion of the balance, rounded down, and pay out its value at
      the rate, rounded down. They need a positive proportion of at most one of a known position, and
      something to redeem. */
  lemma WithdrawExact(ledger: Ledger, position: Position, action: Action, call: Call, assets: seq<Asset>, rate: nat,
                      redeemed: nat, value: nat)
    requires action.DecreasePosition? || action.ClosePosition?
    requires IsFloor(value, redeemed * rate, ONE)
    requires var proportion := if action.ClosePosition? then ONE else action.proportion;
             IsFloor(redeemed, Balance(ledger, position) * proportion, ONE)
    ensures var proportion := if action.ClosePosition? then ONE else action.proportion;
            var held := Balance(ledger, position);
            var r := Performed(ledger, true, position, action, call, assets, rate);
            && (r.Ok? <==> 0 < proportion <= ONE && position in ledger && 0 < redeemed
                           && held * proportion <= U256_MAX && redeemed * rate <= U256_MAX
                           && value <= U128_MAX && redeemed <= U128_MAX)
            && (r.Ok? ==> redeemed <= held
                          && r.value == Effect(ledger[position := held - redeemed], 0, redeemed,
                                               [RedeemStable(redeemed), Disburse(value, action.recipient)]))
  {
    var proportion := if action.ClosePosition? then ONE else action.proportion;
    var held := Balance(ledger, position);
    FloorIs(redeemed, held * proportion, ONE);
    FloorIs(value, redeemed * rate, ONE);
    if proportion <= ONE {
      FractionAtMost(held, proportion, ONE);
    }
  }

  /** Nobody but the manager changes anything. */
  lemma OnlyManagerPerforms(ledger: Ledger, position: Position, action: Action, call: Call, assets: seq<Asset>,
                            rate: nat)
    ensures Performed(ledger, false, position, action, call, assets, rate).Err?
  {}

  // ----- The contract. -----

  class EarnProxy {
    var terraManager: string
    var amounts: Ledger

    constructor (manager: string)
      ensures terraManager == manager && amounts == map[]
    {
      terraManager, amounts := manager, map[];
    }

    method DepositStable(position: Position, call: Call, assets: seq<Asset>, rate: nat) returns (r: Result<seq<Sent>>)
      modifies this`amounts
      ensures r.Ok? <==> Deposited(old(amounts), position, call, assets, rate).Ok?
      ensures r.Ok? ==> amounts == Deposited(old(amounts), position, call, assets, rate).value.ledger
      ensures r.Ok? ==> r.value == Deposited(old(amounts), position, call, assets, rate).value.sent
    {
      var uusd :- Deposit(call, assets);
      var mint :- DivideByRate(uusd, rate);
      var held := Balance(amounts, position);
      var sum :- Fits(held + mint);
      amounts := amounts[position := sum];
      return Ok([Sent.DepositStable(uusd)]);
    }

    method Withdraw(position: Position, proportion: nat, recipient: Recipient, rate: nat) returns (r: Result<seq<Sent>>)
      modifies this`amounts
      ensures r.Ok? <==> Withdrawn(old(amounts), position, proportion, recipient, rate).Ok?
      ensures r.Ok? ==> amounts == Withdrawn(old(amounts), position, proportion, recipient, rate).value.ledger
      ensures r.Ok? ==> r.value == Withdrawn(old(amounts), position, proportion, recipient, rate).value.sent
    {
      if proportion == 0 || proportion > ONE {
        return Err(Generic("invalid proportion"));
      }
      if position !in amounts {
        return Err(Generic("position not found"));
      }
      var held := amounts[position];
      var redeem :- TimesDecimal(held, proportion);
      if redeem == 0 || redeem > held {
        return Err(Generic("invalid redeem_anchor_ust_amount"));
      }
      amounts := amounts[position := held - redeem];
      var value :- TimesDecimal(redeem, rate);
      var uusd :- ToUint128(value);
      var amount :- ToUint128(redeem);
      return Ok([RedeemStable(amount), Disburse(uusd, recipient)]);
    }

    /** A failing call is undone as a whole. */
    method PerformAction(sender: string, position: Position, action: Action, call: Call, assets: seq<Asset>, rate: nat)
      returns (r: Result<seq<Sent>>)
      modifies this`amounts
      ensures var effect := Performed(old(amounts), sender == terraManager, position, action, call, assets, rate);
              && (r.Ok? <==> effect.Ok?) && amounts == (if effect.Ok? then effect.value.ledger else old(amounts))
              && (r.Ok? ==> r.value == effect.value.sent)
    {
      if sender != terraManager {
        return Err(Generic("unauthorized"));
      }
      var saved := amounts;
      match action {
        case OpenPosition(_) => r := DepositStable(position, call, assets, rate);
        case IncreasePosition(_) => r := DepositStable(position, call, assets, rate);
        case DecreasePosition(proportion, recipient) => r := Withdraw(position, proportion, recipient, rate);
        case ClosePosition(recipient) => r := Withdraw(position, ONE, recipient, rate);
      }
      if r.Err? {
        amounts := saved;
      }
    }
  }

  // ----- The ledger adds up on every run. -----

  ghost function Sum(ledger: Ledger): nat
    decreases |ledger|
  {
    if ledger == map[] then 0
    else
      var position :| position in ledger;
      ledger[position] + Sum(ledger - {position})
  }

  lemma {:induction false} SumWithout(ledger: Ledger, position: Position)
    requires position in ledger
    ensures Sum(ledger) == ledger[position] + Sum(ledger - {position})
    decreases |ledger|
  {
    var first :| first in ledger && Sum(ledger) == ledger[first] + Sum(ledger - {first});
    if first != position {
      SumWithout(ledger - {first}, position);
      SumWithout(ledger - {position}, first);
      assert ledger - {first} - {position} == ledger - {position} - {first};
    }
  }

  lemma SumUpdate(ledger: Ledger, position: Position, amount: nat)
    ensures Sum(ledger[position := amount]) + Balance(ledger, position) == Sum(ledger) + amount
  {
    var updated := ledger[position := amount];
    SumWithout(updated, position);
    assert updated - {position} == ledger - {position};
    if position in ledger {
      SumWithout(ledger, position);
    } else {
      assert ledger - {position} == ledger;
    }
  }

  /** The proxy with all the aUST it ever had minted and redeemed. */
  datatype Account = Account(ledger: Ledger, minted: nat, redeemed: nat)

  datatype Event = Event(authorized: bool, position: Position, action: Action, call: Call, assets: seq<Asset>,
                         rate: nat, succeeds: bool)

  function Step(a: Account, e: Event): Account {
    var effect := Performed(a.ledger, e.authorized, e.position, e.action, e.call, e.assets, e.rate);
    if effect.Err? || !e.succeeds then a
    else Account(effect.value.ledger, a.minted + effect.value.minted, a.redeemed + effect.value.redeemed)
  }

  function Run(a: Account, events: seq<Event>): Account {
    if |events| == 0 then a
    else Step(Run(a, events[..|events| - 1]), events[|events| - 1])
  }

  ghost predicate Covered(a: Account) {
    Sum(a.ledger) + a.redeemed == a.minted
  }

  lemma StepCovers(a: Account, e: Event)
    requires Covered(a)
    ensures Covered(Step(a, e))
    ensures forall other :: other != e.position ==> Balance(Step(a, e).ledger, other) == Balance(a.ledger, other)
  {
    var effect := Performed(a.ledger, e.authorized, e.position, e.action, e.call, e.assets, e.rate);
    if effect.Ok? {
      SumUpdate(a.ledger, e.position, effect.value.ledger[e.position]);
    }
  }

  /** On every run the positions' balances make up exactly the aUST minted and not redeemed. */
  lemma {:induction false} AlwaysCovered(a: Account, events: seq<Event>)
    requires Covered(a)
    ensures Covered(Run(a, events))
  {
    if |events| > 0 {
      AlwaysCovered(a, events[..|events| - 1]);
      StepCovers(Run(a, events[..|events| - 1]), events[|events| - 1]);
    }
  }

  // ----- Depositing and closing. -----

  function Value(amount: nat, rate: nat): nat {
    amount * rate / ONE
  }

  /** What a withdrawal pays. */
  function PaidOut(effect: Effect): nat
    requires |effect.sent| == 2 && effect.sent[1].Disburse?
  {
    effect.sent[1].amount
  }

  lemma WholeIsAll(amount: nat)
    ensures amount * ONE / ONE == amount
  {
    DivAtLeast(amount * ONE, ONE, amount);
    DivAtMostExact(amount * ONE, ONE, amount);
  }

  /** Closing redeems the whole balance at its value; it succeeds when there is one to redeem. */
  lemma Closes(ledger: Ledger, position: Position, recipient: Recipient, rate: nat)
    requires Balance(ledger, position) <= U128_MAX && Value(Balance(ledger, position), rate) <= U128_MAX
    requires Balance(ledger, position) * rate <= U256_MAX
    ensures var r := Withdrawn(ledger, position, ONE, recipient, rate);
            && (r.Ok? <==> 0 < Balance(ledger, position))
            && (r.Ok? ==> PaidOut(r.value) == Value(Balance(ledger, position), rate))
            && (r.Ok? ==> Balance(r.value.ledger, position) == 0)
  {
    var held := Balance(ledger, position);
    WholeIsAll(held);
    assert held * ONE <= U256_MAX by { MulMono(held, U128_MAX, ONE); }
  }

  lemma MintedWorth(uusd: nat, rate: nat, later: nat)
    requires 0 < rate <= later
    ensures uusd * ONE < Value(uusd * ONE / rate, later) * ONE + rate + ONE
    ensures Value(uusd * ONE / rate, rate) <= uusd
  {
    var m := uusd * ONE / rate;
    DivBounds(uusd * ONE, rate);
    assert (m + 1) * rate == m * rate + rate;
    DivBounds(m * later, ONE);
    assert (Value(m, later) + 1) * ONE == Value(m, later) * ONE + ONE;
    assert m * rate <= m * later by { IntMulMono(rate, later, m); }
    DivAtMostExact(m * rate, ONE, uusd);
  }

  /** A deposit into an empty position, closed when the rate is no lower, pays back the deposit less
      under one unit and the worth of one aUST; at the same rate it pays no more than the deposit. */
  lemma DepositThenClose(ledger: Ledger, position: Position, call: Call, assets: seq<Asset>, recipient: Recipient,
                         rate: nat, later: nat)
    requires Balance(ledger, position) == 0 && rate <= later
    requires Deposited(ledger, position, call, assets, rate).Ok?
    requires Withdrawn(Deposited(ledger, position, call, assets, rate).value.ledger,
                       position, ONE, recipient, later).Ok?
    ensures var paid := PaidOut(Withdrawn(Deposited(ledger, position, call, assets, rate).value.ledger,
                                          position, ONE, recipient, later).value);
            && call.Sent("uusd") * ONE < paid * ONE + rate + ONE
            && (later == rate ==> paid <= call.Sent("uusd"))
  {
    var uusd := call.Sent("uusd");
    MintedWorth(uusd, rate, later);
    WholeIsAll(uusd * ONE / rate);
  }

  // ----- Closing in steps. -----

  lemma FloorsAdd(x: nat, y: nat, rate: nat)
    ensures Value(x, rate) + Value(y, rate) <= Value(x + y, rate) <= Value(x, rate) + Value(y, rate) + 1
  {
    var p, q := Value(x, rate), Value(y, rate);
    DivBounds(x * rate, ONE);
    DivBounds(y * rate, ONE);
    assert (x + y) * rate == x * rate + y * rate;
    assert (p + q) * ONE == p * ONE + q * ONE;
    DivAtLeast((x + y) * rate, ONE, p + q);
    DivAtMost((x + y) * rate, ONE, p + q + 1);
  }

  /** What withdrawing each proportion in turn, at one rate, pays in all. */
  function Steps(ledger: Ledger, position: Position, proportions: seq<nat>, recipient: Recipient,
                 rate: nat): Result<(Ledger, nat)>
    decreases |proportions|
  {
    if |proportions| == 0 then Ok((ledger, 0))
    else
      var first :- Withdrawn(ledger, position, proportions[0], recipient, rate);
      var rest :- Steps(first.ledger, position, proportions[1..], recipient, rate);
      Ok((rest.0, PaidOut(first) + rest.1))
  }

  /** Closing in k steps pays no more than closing at once, and less by at most k - 1. */
  lemma {:induction false} CloseInSteps(ledger: Ledger, position: Position, proportions: seq<nat>, recipient: Recipient,
                                        rate: nat)
    requires |proportions| > 0 && proportions[|proportions| - 1] == ONE
    requires Steps(ledger, position, proportions, recipient, rate).Ok?
    ensures var done := Steps(ledger, position, proportions, recipient, rate).value;
            && Balance(done.0, position) == 0
            && done.1 <= Value(Balance(ledger, position), rate) <= done.1 + |proportions| - 1
    decreases |proportions|
  {
    var held := Balance(ledger, position);
    var first := Withdrawn(ledger, position, proportions[0], recipient, rate).value;
    var redeemed := first.redeemed;
    if |proportions| == 1 {
      WholeIsAll(held);
    } else {
      CloseInSteps(first.ledger, position, proportions[1..], recipient, rate);
      FloorsAdd(redeemed, held - redeemed, rate);
    }
  }
}
