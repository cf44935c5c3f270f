/** Sending assets out of the manager: directly on Terra, or through the token bridge less a
    fee, with a disbursement instruction that names the transfer. */
module OutgoingTransfer {
  import opened Results
  import opened FixedPoint
  import opened Bytes
  import opened Instruction
  import opened TokenUtil

  datatype Config = Config(feeRate: nat, feeCollector: string, managers: map<u16, seq<byte>>)

  function FeeAmount(amount: nat, rate: nat): nat {
    amount * rate / ONE
  }

  function AfterFee(amount: nat, rate: nat): nat {
    if FeeAmount(amount, rate) <= amount then amount - FeeAmount(amount, rate) else 0
  }

  /** The fee is representable and within the amount. */
  predicate Chargeable(asset: Asset, rate: nat) {
    FeeAmount(asset.amount, rate) <= U128_MAX && FeeAmount(asset.amount, rate) <= asset.amount
  }

  predicate AllChargeable(assets: seq<Asset>, rate: nat) {
    forall k :: 0 <= k < |assets| ==> Chargeable(assets[k], rate)
  }

  function Charge(asset: Asset, rate: nat): (r: Result<(nat, nat)>)
    ensures r.Ok? <==> Chargeable(asset, rate)
    ensures r.Ok? ==> r.value == (FeeAmount(asset.amount, rate), AfterFee(asset.amount, rate))
  {
    var fee :- MulDecimal(asset.amount, rate);
    var rest :- Sub(asset.amount, fee);
    Ok((fee, rest))
  }

  function Nonzero(info: AssetInfo, amount: nat): seq<Asset> {
    if amount == 0 then [] else [Asset(info, amount)]
  }

  function Fees(assets: seq<Asset>, rate: nat): seq<Asset> {
    if |assets| == 0 then []
    else
      var asset := assets[|assets| - 1];
      Fees(assets[..|assets| - 1], rate) + Nonzero(asset.info, FeeAmount(asset.amount, rate))
  }

  function Bridged(assets: seq<Asset>, rate: nat): seq<Asset> {
    if |assets| == 0 then []
    else
      var asset := assets[|assets| - 1];
      Bridged(assets[..|assets| - 1], rate) + Nonzero(asset.info, AfterFee(asset.amount, rate))
  }

  method SplitFees(assets: seq<Asset>, rate: nat) returns (r: Result<(seq<Asset>, seq<Asset>)>)
    ensures r.Ok? <==> AllChargeable(assets, rate)
    ensures r.Ok? ==> r.value == (Fees(assets, rate), Bridged(assets, rate))
  {
    var fees: seq<Asset>, bridged: seq<Asset> := [], [];
    for i := 0 to |assets|
      invariant forall k :: 0 <= k < i ==> Chargeable(assets[k], rate)
      invariant fees == Fees(assets[..i], rate) && bridged == Bridged(assets[..i], rate)
    {
      var asset := assets[i];
      assert assets[..i + 1][..i] == assets[..i];
      assert fees + [] == fees && bridged + [] == bridged;
      var parts :- Charge(asset, rate);
      if parts.0 != 0 {
        fees := fees + [Asset(asset.info, parts.0)];
      }
      if parts.1 != 0 {
        bridged := bridged + [Asset(asset.info, parts.1)];
      }
    }
    assert assets[..|assets|] == assets;
    return Ok((fees, bridged));
  }

  /** The manager of another chain. */
  datatype Target = Target(chain: u16, manager: seq<byte>)

  function BridgeMessages(asset: Asset, to: Target): seq<Message> {
    var transfer := InitiateTransfer(asset, to.chain, to.manager);
    match asset.info
    case NativeToken(denom) => [DepositTokens(Coin(denom, asset.amount)), transfer]
    case Token(contract) => [IncreaseAllowance(contract, asset.amount), transfer]
  }

  /** The messages of an external transfer whose one bridged asset is `asset`. */
  function ExternalMessages(config: Config, assets: seq<Asset>, payload: seq<byte>, asset: Asset,
                            to: Target): seq<Message> {
    Pulls(assets) + SendAll(Fees(assets, config.feeRate), config.feeCollector) + [PostMessage(payload)]
    + BridgeMessages(asset, to)
  }

  ghost predicate Accepted(call: Call, assets: seq<Asset>) {
    forall asset :: asset in assets ==> call.Covers(asset)
  }

  /** What a transfer sends out, with `next` the token bridge's next sequence number. */
  ghost function Outgoing(json: Json, config: Config, call: Call, next: u64, assets: seq<Asset>, recipient: Recipient)
    : Result<seq<Message>>
  {
    if !Accepted(call, assets) then Err(Panic)
    else match recipient
      case TerraChain(address) => Ok(Pulls(assets) + SendAll(assets, address))
      case ExternalChain(chain, address, swap) =>
        if !AllChargeable(assets, config.feeRate) then Err(Overflow)
        else if |address| != 32 then Err(Panic)
        else
          var payload :- Encoded(json, SingleTokenDisbursement(next, chain, address, swap));
          var bridged := Bridged(assets, config.feeRate);
          if |bridged| != 1 || chain !in config.managers then Err(Panic)
          else Ok(ExternalMessages(config, assets, payload, bridged[0], Target(chain, config.managers[chain])))
  }

  method InitiateOutgoingTokenTransfer(json: Json, config: Config, call: Call, next: u64, assets: seq<Asset>,
                                       recipient: Recipient)
    returns (r: Result<seq<Message>>)
    ensures r.Ok? <==> Outgoing(json, config, call, next, assets, recipient).Ok?
    ensures r.Ok? ==> r == Outgoing(json, config, call, next, assets, recipient)
  {
    var messages :- ValidateAndAccept(call, assets);
    match recipient
    case TerraChain(address) =>
      messages := Send(messages, assets, address);
      r := Ok(messages);
    case ExternalChain(chain, address, swap) =>
      var parts :- SplitFees(assets, config.feeRate);
      messages := Send(messages, parts.0, config.feeCollector);
      if |address| != 32 {
        return Err(Generic("invalid recipient address length"));
      }
      var payload :- Serialize(json, SingleTokenDisbursement(next, chain, address, swap));
      messages := messages + [PostMessage(payload)];
      if |parts.1| != 1 {
        return Err(Generic("only single-token cross-chain disbursement is supported at this time"));
      }
      if chain !in config.managers {
        return Err(Generic("manager not registered"));
      }
      messages := messages + BridgeMessages(parts.1[0], Target(chain, config.managers[chain]));
      r := Ok(messages);
  }

  method Send(messages: seq<Message>, assets: seq<Asset>, recipient: string) returns (r: seq<Message>)
    ensures r == messages + SendAll(assets, recipient)
  {
    var funds, transfers := ForwardAssetsDirect(assets, recipient);
    r := messages + transfers;
    if funds != [] {
      r := r + [BankSend(recipient, funds)];
    }
  }

  // ----- Conservation. -----

  lemma TotalAppend(front: seq<Asset>, info: AssetInfo, last: AssetInfo, amount: nat)
    ensures Total(front + Nonzero(last, amount), info) == Total(front, info) + (if last == info then amount else 0)
  {
    if amount == 0 {
      assert front + [] == front;
    } else {
      assert (front + [Asset(last, amount)])[..|front|] == front;
    }
  }

  /** Fees and bridged amounts make up the incoming assets, asset by asset. */
  lemma {:induction false} SplitConserves(assets: seq<Asset>, rate: nat, info: AssetInfo)
    requires AllChargeable(assets, rate)
    ensures Total(assets, info) == Total(Fees(assets, rate), info) + Total(Bridged(assets, rate), info)
  {
    if |assets| > 0 {
      var front, last := assets[..|assets| - 1], assets[|assets| - 1];
      SplitConserves(front, rate, info);
      TotalAppend(Fees(front, rate), info, last.info, FeeAmount(last.amount, rate));
      TotalAppend(Bridged(front, rate), info, last.info, AfterFee(last.amount, rate));
    }
  }

  lemma BridgePays(asset: Asset, to: Target, info: AssetInfo)
    ensures Paid(BridgeMessages(asset, to), info) == Total([asset], info)
  {
    var messages := BridgeMessages(asset, to);
    assert messages == [messages[0]] + [messages[1]];
    PaidConcat([messages[0]], [messages[1]], info);
    PaidOne(messages[0], info);
    PaidOne(messages[1], info);
    assert [asset][..0] == [];
  }

  /** Every successful transfer pays out exactly what was handed in, asset by asset. */
  lemma TransferConserves(json: Json, config: Config, call: Call, next: u64, assets: seq<Asset>, recipient: Recipient,
                          info: AssetInfo)
    requires Outgoing(json, config, call, next, assets, recipient).Ok?
    ensures Paid(Outgoing(json, config, call, next, assets, recipient).value, info) == Total(assets, info)
  {
    match recipient
    case TerraChain(address) =>
      PullsPayNothing(assets, info);
      SendAllPays(assets, address, info);
      PaidConcat(Pulls(assets), SendAll(assets, address), info);
    case ExternalChain(chain, address, swap) =>
      var bridged := Bridged(assets, config.feeRate);
      var payload := Encoded(json, SingleTokenDisbursement(next, chain, address, swap)).value;
      SplitConserves(assets, config.feeRate, info);
      assert bridged == [bridged[0]];
      ExternalPays(config, assets, payload, bridged[0], Target(chain, config.managers[chain]), info);
  }

  lemma ExternalPays(config: Config, assets: seq<Asset>, payload: seq<byte>, asset: Asset, to: Target, info: AssetInfo)
    ensures Paid(ExternalMessages(config, assets, payload, asset, to), info)
         == Total(Fees(assets, config.feeRate), info) + Total([asset], info)
  {
    var fees := Fees(assets, config.feeRate);
    PullsPayNothing(assets, info);
    SendAllPays(fees, config.feeCollector, info);
    BridgePays(asset, to, info);
    PaidOne(PostMessage(payload), info);
    PaidInFour(Pulls(assets), SendAll(fees, config.feeCollector), [PostMessage(payload)], BridgeMessages(asset, to),
               info);
  }

  lemma PaidInFour(a: seq<Message>, b: seq<Message>, c: seq<Message>, d: seq<Message>, info: AssetInfo)
    ensures Paid(a + b + c + d, info) == Paid(a, info) + Paid(b, info) + Paid(c, info) + Paid(d, info)
  {
    PaidConcat(a, b, info);
    PaidConcat(a + b, c, info);
    PaidConcat(a + b + c, d, info);
  }

  /** One asset of an external transfer carries all of its value: the others are zero. */
  lemma OneAssetBridged(json: Json, config: Config, call: Call, next: u64, assets: seq<Asset>, recipient: Recipient)
    returns (k: nat)
    requires recipient.ExternalChain? && Outgoing(json, config, call, next, assets, recipient).Ok?
    ensures config.feeRate < ONE
    ensures k < |assets| && 0 < assets[k].amount
    ensures forall j :: 0 <= j < |assets| && j != k ==> assets[j].amount == 0
    ensures Bridged(assets, config.feeRate) == [Asset(assets[k].info, AfterFee(assets[k].amount, config.feeRate))]
  {
    SomethingBridged(assets, config.feeRate);
    k := OnlyOne(assets, config.feeRate);
  }

  /** A transfer pays out of a native token what was sent of it, as often as the list names it. */
  lemma PaysWhatWasSent(json: Json, config: Config, call: Call, next: u64, assets: seq<Asset>, recipient: Recipient,
                        denom: string)
    requires Outgoing(json, config, call, next, assets, recipient).Ok?
    ensures Paid(Outgoing(json, config, call, next, assets, recipient).value, NativeToken(denom))
         == Listings(assets, NativeToken(denom)) * call.Sent(denom)
  {
    TransferConserves(json, config, call, next, assets, recipient, NativeToken(denom));
    NativeTotal(call, assets, denom);
  }

  /** An external transfer names a token that was sent at most once, so that fee and bridged
      amount come out of what the caller brought along. */
  lemma ExternalSpendsReceived(json: Json, config: Config, call: Call, next: u64, assets: seq<Asset>,
                               recipient: Recipient)
    requires recipient.ExternalChain? && Outgoing(json, config, call, next, assets, recipient).Ok?
    ensures var messages := Outgoing(json, config, call, next, assets, recipient).value;
            && (forall denom :: Paid(messages, NativeToken(denom)) <= call.Sent(denom))
            && forall token :: Paid(messages, Token(token)) == Pulled(Pulls(assets), token)
  {
    var k := OneAssetBridged(json, config, call, next, assets, recipient);
    forall denom
      ensures Paid(Outgoing(json, config, call, next, assets, recipient).value, NativeToken(denom)) <= call.Sent(denom)
    {
      PaysWhatWasSent(json, config, call, next, assets, recipient, denom);
      ListedOrUnsent(call, assets, denom, k);
    }
    forall token
      ensures Paid(Outgoing(json, config, call, next, assets, recipient).value, Token(token))
           == Pulled(Pulls(assets), token)
    {
      TransferConserves(json, config, call, next, assets, recipient, Token(token));
      PullsTotal(assets, token);
    }
  }

  lemma ListedOrUnsent(call: Call, assets: seq<Asset>, denom: string, k: nat)
    requires Accepted(call, assets)
    requires forall j :: 0 <= j < |assets| && j != k ==> assets[j].amount == 0
    ensures Listings(assets, NativeToken(denom)) * call.Sent(denom) <= call.Sent(denom)
  {
    if 0 < call.Sent(denom) {
      ListedWherePositive(call, assets, denom, k);
      MulMono(Listings(assets, NativeToken(denom)), 1, call.Sent(denom));
    }
  }

  lemma ListedWherePositive(call: Call, assets: seq<Asset>, denom: string, k: nat)
    requires Accepted(call, assets) && 0 < call.Sent(denom)
    requires forall j :: 0 <= j < |assets| && j != k ==> assets[j].amount == 0
    ensures Listings(assets, NativeToken(denom)) <= 1
  {
    forall j | 0 <= j < |assets| && assets[j].info == NativeToken(denom)
      ensures j == k
    {
      assert assets[j] in assets;
    }
    ListedAtMostOnce(assets, NativeToken(denom), k);
  }

  lemma {:induction false} SomethingBridged(assets: seq<Asset>, rate: nat)
    requires AllChargeable(assets, rate)
    ensures rate >= ONE ==> Bridged(assets, rate) == []
  {
    if |assets| > 0 && rate >= ONE {
      var last := assets[|assets| - 1];
      SomethingBridged(assets[..|assets| - 1], rate);
      MulMono(ONE, rate, last.amount);
      DivAtLeast(last.amount * rate, ONE, last.amount);
    }
  }

  lemma SomethingLeft(amount: nat, rate: nat)
    requires rate < ONE && 0 < amount
    ensures FeeAmount(amount, rate) < amount
  {
    StrictMul(amount, rate, ONE);
    DivAtMost(amount * rate, ONE, amount - 1);
  }

  lemma {:induction false} NothingBridged(assets: seq<Asset>, rate: nat)
    requires rate < ONE
    ensures Bridged(assets, rate) == [] ==> forall j :: 0 <= j < |assets| ==> assets[j].amount == 0
  {
    if |assets| > 0 {
      var last := assets[|assets| - 1];
      NothingBridged(assets[..|assets| - 1], rate);
      if 0 < last.amount {
        SomethingLeft(last.amount, rate);
      }
    }
  }

  lemma {:induction false} OnlyOne(assets: seq<Asset>, rate: nat) returns (k: nat)
    requires rate < ONE
    requires |Bridged(assets, rate)| == 1
    ensures k < |assets| && 0 < assets[k].amount
    ensures forall j :: 0 <= j < |assets| && j != k ==> assets[j].amount == 0
    ensures Bridged(assets, rate) == [Asset(assets[k].info, AfterFee(assets[k].amount, rate))]
  {
    var front, last := assets[..|assets| - 1], assets[|assets| - 1];
    if last.amount == 0 {
      assert FeeAmount(0, rate) == 0;
      k := OnlyOne(front, rate);
    } else {
      SomethingLeft(last.amount, rate);
      NothingBridged(front, rate);
      k := |assets| - 1;
    }
  }

  /** A transfer first pulls what it lists, and brings nothing in after that. */
  lemma PullsThenSpends(json: Json, config: Config, call: Call, next: u64, assets: seq<Asset>, recipient: Recipient)
    returns (rest: seq<Message>)
    requires Outgoing(json, config, call, next, assets, recipient).Ok?
    ensures Outgoing(json, config, call, next, assets, recipient).value == Pulls(assets) + rest
    ensures forall message :: message in rest ==> Spends(message)
  {
    match recipient
    case TerraChain(address) =>
      rest := SendAll(assets, address);
      OnlyTransfers(assets, address);
    case ExternalChain(chain, address, swap) =>
      var payload := Encoded(json, SingleTokenDisbursement(next, chain, address, swap)).value;
      var fees := Fees(assets, config.feeRate);
      OnlyTransfers(fees, config.feeCollector);
      rest := SendAll(fees, config.feeCollector) + [PostMessage(payload)]
        + BridgeMessages(Bridged(assets, config.feeRate)[0], Target(chain, config.managers[chain]));
  }

  // ----- What is sent to whom. -----

  /** The fee is the rate's part of an amount, rounded down. */
  lemma FeeExact(amount: nat, rate: nat, fee: nat)
    ensures fee == FeeAmount(amount, rate) <==> fee * ONE <= amount * rate < (fee + 1) * ONE
  {
    DivBounds(amount * rate, ONE);
    if fee * ONE <= amount * rate < (fee + 1) * ONE {
      DivAtLeast(amount * rate, ONE, fee);
      DivAtMost(amount * rate, ONE, fee);
    }
  }

  /** A transfer on Terra pays the recipient exactly the assets listed, and nobody else anything. */
  lemma TerraTransferPays(json: Json, config: Config, call: Call, next: u64, assets: seq<Asset>, recipient: Recipient,
                          to: string, info: AssetInfo)
    requires recipient.TerraChain?
    ensures Outgoing(json, config, call, next, assets, recipient).Ok? <==> Accepted(call, assets)
    ensures Accepted(call, assets) ==>
              PaidTo(Outgoing(json, config, call, next, assets, recipient).value, to, info)
              == if to == recipient.recipient then Total(assets, info) else 0
  {
    PullsPayNobody(assets, to, info);
    SendAllPaysTo(assets, recipient.recipient, to, info);
    PaidToConcat(Pulls(assets), SendAll(assets, recipient.recipient), to, info);
  }

  /** Paying one amount of one asset. */
  function Payment(info: AssetInfo, amount: nat, to: string): seq<Message> {
    if amount == 0 then []
    else match info
      case NativeToken(denom) => [BankSend(to, [Coin(denom, amount)])]
      case Token(contract) => [Transfer(contract, to, amount)]
  }

  /** Making one amount of one asset available to the token bridge. */
  function Provide(asset: Asset): Message {
    match asset.info
    case NativeToken(denom) => DepositTokens(Coin(denom, asset.amount))
    case Token(contract) => IncreaseAllowance(contract, asset.amount)
  }

  /** Of the assets only the one at `k` is positive. */
  predicate OnlyPositive(assets: seq<Asset>, k: nat) {
    k < |assets| && 0 < assets[k].amount && forall j :: 0 <= j < |assets| && j != k ==> assets[j].amount == 0
  }

  lemma {:induction false} AllZero(assets: seq<Asset>, rate: nat)
    requires forall j :: 0 <= j < |assets| ==> assets[j].amount == 0
    ensures Fees(assets, rate) == [] && Bridged(assets, rate) == []
  {
    if |assets| > 0 {
      assert FeeAmount(0, rate) == 0;
      AllZero(assets[..|assets| - 1], rate);
    }
  }

  lemma {:induction false} OneCharged(assets: seq<Asset>, rate: nat, k: nat)
    requires OnlyPositive(assets, k)
    ensures Fees(assets, rate) == Nonzero(assets[k].info, FeeAmount(assets[k].amount, rate))
    ensures Bridged(assets, rate) == Nonzero(assets[k].info, AfterFee(assets[k].amount, rate))
  {
    var front := assets[..|assets| - 1];
    if k == |assets| - 1 {
      AllZero(front, rate);
      assert [] + Fees(assets, rate) == Fees(assets, rate);
    } else {
      assert FeeAmount(0, rate) == 0;
      OneCharged(front, rate, k);
    }
  }

  lemma OneSent(info: AssetInfo, amount: nat, to: string)
    ensures SendAll(Nonzero(info, amount), to) == Payment(info, amount, to)
  {
    var one := [Asset(info, amount)];
    assert one[..0] == [];
    assert [] + TransfersOf(one, to) == TransfersOf(one, to) && [] + CoinsOf(one) == CoinsOf(one);
    if amount > 0 {
      match info {
        case NativeToken(denom) => assert CoinsOf(one) == [Coin(denom, amount)] && TransfersOf(one, to) == [];
        case Token(contract) => assert CoinsOf(one) == [] && TransfersOf(one, to) == [Transfer(contract, to, amount)];
      }
    }
  }

  /** A transfer to another chain goes out exactly if its assets are covered, one of them alone is
      positive, the fee rate is below one, the addresses have 32 bytes, and the chain is known. */
  lemma ExternalTransferExactly(json: Json, config: Config, call: Call, next: u64, assets: seq<Asset>,
                                recipient: Recipient)
    requires recipient.ExternalChain? && forall asset :: asset in assets ==> asset.amount <= U128_MAX
    ensures Outgoing(json, config, call, next, assets, recipient).Ok? <==>
      && Accepted(call, assets) && config.feeRate < ONE && recipient.chain in config.managers
      && |recipient.recipientBytes| == 32
      && (recipient.swap.Some? ==> |recipient.swap.value.desiredToken| == 32)
      && exists k: nat :: OnlyPositive(assets, k)
  {
    if Outgoing(json, config, call, next, assets, recipient).Ok? {
      var k := OneAssetBridged(json, config, call, next, assets, recipient);
      assert OnlyPositive(assets, k);
    } else if k: nat :| OnlyPositive(assets, k) {
      if config.feeRate < ONE {
        OneCharged(assets, config.feeRate, k);
        SomethingLeft(assets[k].amount, config.feeRate);
        AllCharged(assets, config.feeRate);
      }
    }
  }

  lemma AllCharged(assets: seq<Asset>, rate: nat)
    requires rate < ONE && forall asset :: asset in assets ==> asset.amount <= U128_MAX
    ensures AllChargeable(assets, rate)
  {
    forall j | 0 <= j < |assets|
      ensures Chargeable(assets[j], rate)
    {
      assert assets[j] in assets;
      FractionAtMost(assets[j].amount, rate, ONE);
    }
  }

  /** It pulls its assets, pays the fee to the collector, announces the disbursement under the next
      sequence number, and bridges all the rest to the manager of that chain. */
  lemma ExternalTransferSends(json: Json, config: Config, call: Call, next: u64, assets: seq<Asset>,
                              recipient: Recipient)
    returns (k: nat, fee: nat, payload: seq<byte>)
    requires recipient.ExternalChain? && Outgoing(json, config, call, next, assets, recipient).Ok?
    ensures OnlyPositive(assets, k) && recipient.chain in config.managers
    ensures fee * ONE <= assets[k].amount * config.feeRate < (fee + 1) * ONE && fee < assets[k].amount
    ensures Encoded(json, SingleTokenDisbursement(next, recipient.chain, recipient.recipientBytes, recipient.swap))
         == Ok(payload)
    ensures var rest := Asset(assets[k].info, assets[k].amount - fee);
            Outgoing(json, config, call, next, assets, recipient).value
            == Pulls(assets) + Payment(assets[k].info, fee, config.feeCollector)
               + [PostMessage(payload), Provide(rest),
                  InitiateTransfer(rest, recipient.chain, config.managers[recipient.chain])]
  {
    k := OneAssetBridged(json, config, call, next, assets, recipient);
    fee := FeeAmount(assets[k].amount, config.feeRate);
    FeeExact(assets[k].amount, config.feeRate, fee);
    SomethingLeft(assets[k].amount, config.feeRate);
    OneCharged(assets, config.feeRate, k);
    OneSent(assets[k].info, fee, config.feeCollector);
    payload := Encoded(json, SingleTokenDisbursement(next, recipient.chain, recipient.recipientBytes,
                                                     recipient.swap)).value;
    var rest := Asset(assets[k].info, assets[k].amount - fee);
    var to := Target(recipient.chain, config.managers[recipient.chain]);
    assert BridgeMessages(rest, to) == [Provide(rest), InitiateTransfer(rest, to.chain, to.manager)];
    assert [PostMessage(payload)] + BridgeMessages(rest, to)
        == [PostMessage(payload), Provide(rest), InitiateTransfer(rest, to.chain, to.manager)];
  }

  // ----- Sequence numbers over any run. -----

  /** The token bridge's next sequence number, with the numbers that the manager's
      instructions name and the ones its transfers were then assigned. */
  datatype Bridge = Bridge(next: u64, named: seq<u64>, given: seq<u64>)

  function Deliver(b: Bridge, message: Message): Result<Bridge> {
    match message
    case PostMessage(payload) =>
      // A receiver finds the sequence number behind the version and the type.
      if |payload| < 10 then Err(Panic) else Ok(b.(named := b.named + [GetU64(payload, 2)]))
    case InitiateTransfer(_, _, _) =>
      if b.next + 1 < 0x1_0000_0000_0000_0000 then Ok(b.(next := b.next + 1, given := b.given + [b.next]))
      else Err(Overflow)
    case _ => Ok(b)
  }

  function DeliverAll(b: Bridge, messages: seq<Message>): Result<Bridge> {
    if |messages| == 0 then Ok(b)
    else
      var before :- DeliverAll(b, messages[..|messages| - 1]);
      Deliver(before, messages[|messages| - 1])
  }

  /** A transfer of the manager's, or anyone else's use of the token bridge. */
  datatype Event =
    | Ours(config: Config, call: Call, assets: seq<Asset>, recipient: Recipient)
    | Others

  /** A call either commits with all its messages or changes nothing. */
  ghost function Step(json: Json, b: Bridge, event: Event): Bridge {
    match event
    case Others => if b.next + 1 < 0x1_0000_0000_0000_0000 then b.(next := b.next + 1) else b
    case Ours(config, call, assets, recipient) =>
      var messages := Outgoing(json, config, call, b.next, assets, recipient);
      if messages.Err? then b
      else
        var done := DeliverAll(b, messages.value);
        if done.Err? then b else done.value
  }

  ghost function Run(json: Json, b: Bridge, events: seq<Event>): Bridge {
    if |events| == 0 then b
    else Step(json, Run(json, b, events[..|events| - 1]), events[|events| - 1])
  }

  /** Every instruction names the number its transfer got, and no number is used twice. */
  ghost predicate Paired(b: Bridge) {
    && b.named == b.given
    && (forall i, j :: 0 <= i < j < |b.given| ==> b.given[i] < b.given[j])
    && forall i :: 0 <= i < |b.given| ==> b.given[i] < b.next
  }

  lemma {:induction false} DeliverConcat(b: Bridge, x: seq<Message>, y: seq<Message>)
    ensures DeliverAll(b, x + y)
         == if DeliverAll(b, x).Ok? then DeliverAll(DeliverAll(b, x).value, y) else DeliverAll(b, x)
    decreases |y|
  {
    if |y| == 0 {
      assert x + y == x;
    } else {
      DeliverConcat(b, x, y[..|y| - 1]);
      assert (x + y)[..|x + y| - 1] == x + y[..|y| - 1];
    }
  }

  predicate Inert(message: Message) {
    !message.PostMessage? && !message.InitiateTransfer?
  }

  lemma {:induction false} InertKeeps(b: Bridge, messages: seq<Message>)
    requires forall message :: message in messages ==> Inert(message)
    ensures DeliverAll(b, messages) == Ok(b)
  {
    if |messages| > 0 {
      assert messages[|messages| - 1] in messages;
      InertKeeps(b, messages[..|messages| - 1]);
    }
  }

  lemma {:induction false} PullsInert(assets: seq<Asset>)
    ensures forall message :: message in Pulls(assets) ==> Inert(message)
  {
    if |assets| > 0 {
      PullsInert(assets[..|assets| - 1]);
    }
  }

  lemma DeliverOne(b: Bridge, message: Message)
    ensures DeliverAll(b, [message]) == Deliver(b, message)
  {
    assert [message][..0] == [];
  }

  /** Executing an external transfer names the number it is then assigned. */
  lemma ExternalPairs(json: Json, b: Bridge, config: Config, assets: seq<Asset>, asset: Asset, to: Target, chain: u16,
                      address: seq<byte>, swap: Option<SwapInfo>)
    requires |address| == 32 && Encoded(json, SingleTokenDisbursement(b.next, chain, address, swap)).Ok?
    ensures var payload := Encoded(json, SingleTokenDisbursement(b.next, chain, address, swap)).value;
            var done := DeliverAll(b, ExternalMessages(config, assets, payload, asset, to));
            done.Ok? ==>
              && b.next + 1 < 0x1_0000_0000_0000_0000
              && done.value == Bridge(b.next + 1, b.named + [b.next], b.given + [b.next])
  {
    var payload := Encoded(json, SingleTokenDisbursement(b.next, chain, address, swap)).value;
    NamedSequence(json, b.next, chain, address, swap);
    var fees := Fees(assets, config.feeRate);
    var first := Pulls(assets) + SendAll(fees, config.feeCollector);
    PullsInert(assets);
    OnlyTransfers(fees, config.feeCollector);
    InertKeeps(b, first);
    DeliverConcat(b, first, [PostMessage(payload)]);
    DeliverOne(b, PostMessage(payload));
    var posted := b.(named := b.named + [b.next]);
    DeliverConcat(b, first + [PostMessage(payload)], BridgeMessages(asset, to));
    BridgeAssigns(posted, asset, to);
  }

  /** The bridge messages take one sequence number. */
  lemma BridgeAssigns(b: Bridge, asset: Asset, to: Target)
    ensures DeliverAll(b, BridgeMessages(asset, to)) == Deliver(b, InitiateTransfer(asset, to.chain, to.manager))
  {
    var last := BridgeMessages(asset, to);
    assert last == [last[0]] + [last[1]];
    DeliverConcat(b, [last[0]], [last[1]]);
    DeliverOne(b, last[0]);
    DeliverOne(b, last[1]);
  }

  lemma NamedSequence(json: Json, sequence: u64, chain: u16, address: seq<byte>, swap: Option<SwapInfo>)
    requires Encoded(json, SingleTokenDisbursement(sequence, chain, address, swap)).Ok?
    ensures var payload := Encoded(json, SingleTokenDisbursement(sequence, chain, address, swap)).value;
            |payload| >= 10 && GetU64(payload, 2) == sequence
  {
    var payload := Encoded(json, SingleTokenDisbursement(sequence, chain, address, swap)).value;
    var head: seq<byte> := [VERSION, TYPE_SINGLE_TOKEN_DISBURSEMENT];
    var bytes := ToBigEndian(sequence, 8);
    U64Back(sequence);
    assert head + bytes <= payload;
    assert Slice(payload, 2, 8) == bytes == Slice(bytes, 0, 8);
  }

  lemma StepPairs(json: Json, b: Bridge, event: Event)
    requires Paired(b)
    ensures Paired(Step(json, b, event))
  {
    match event
    case Others =>
    case Ours(config, call, assets, recipient) =>
      var messages := Outgoing(json, config, call, b.next, assets, recipient);
      if messages.Ok? {
        match recipient
        case TerraChain(address) =>
          PullsInert(assets);
          OnlyTransfers(assets, address);
          InertKeeps(b, messages.value);
        case ExternalChain(chain, address, swap) =>
          ExternalPairs(json, b, config, assets, Bridged(assets, config.feeRate)[0],
                        Target(chain, config.managers[chain]), chain, address, swap);
      }
  }

  /** Over any run of transfers, mixed with anyone else's, each instruction of the manager
      names exactly the number that its own transfer was assigned. */
  lemma {:induction false} AlwaysPaired(json: Json, b: Bridge, events: seq<Event>)
    requires Paired(b)
    ensures Paired(Run(json, b, events))
  {
    if |events| > 0 {
      AlwaysPaired(json, b, events[..|events| - 1]);
      StepPairs(json, Run(json, b, events[..|events| - 1]), events[|events| - 1]);
    }
  }
}
