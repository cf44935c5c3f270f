/** Accepting and forwarding lists of native and cw20 assets. */
module TokenUtil {
  import opened Results
  import opened Bytes
  import opened Instruction

  datatype AssetInfo = NativeToken(denom: string) | Token(contract: string)

  datatype Asset = Asset(info: AssetInfo, amount: nat)

  datatype Coin = Coin(denom: string, amount: nat)

  /** A position on the chain of its holder. */
  datatype Position = Position(chain: u16, id: u128)

  datatype Message =
    | TransferFrom(token: string, amount: nat)
    | Transfer(token: string, recipient: string, amount: nat)
    | BankSend(recipient: string, coins: seq<Coin>)
    | PostMessage(payload: seq<byte>)
    | DepositTokens(coin: Coin)
    | IncreaseAllowance(token: string, amount: nat)
    | InitiateTransfer(asset: Asset, chain: u16, target: seq<byte>)
    | SubmitVaa(vaa: seq<byte>)
    | PerformAction(manager: string, position: Position, action: Action, assets: seq<Asset>, coins: seq<Coin>)

  /** The amount of `info` among `assets`. */
  function Total(assets: seq<Asset>, info: AssetInfo): nat {
    if |assets| == 0 then 0
    else Total(assets[..|assets| - 1], info)
         + (if assets[|assets| - 1].info == info then assets[|assets| - 1].amount else 0)
  }

  /** A call's native funds and the caller's cw20 allowances; absent entries are zero. */
  datatype Call = Call(funds: map<string, nat>, allowances: map<string, nat>) {

    function Sent(denom: string): nat {
      if denom in funds then funds[denom] else 0
    }

    function Allowance(token: string): nat {
      if token in allowances then allowances[token] else 0
    }

    predicate Covers(asset: Asset) {
      match asset.info
      case NativeToken(denom) => asset.amount == Sent(denom)
      case Token(contract) => asset.amount <= Allowance(contract)
    }
  }

  function Pulls(assets: seq<Asset>): seq<Message> {
    if |assets| == 0 then []
    else
      var asset := assets[|assets| - 1];
      Pulls(assets[..|assets| - 1])
      + (if asset.info.Token? then [TransferFrom(asset.info.contract, asset.amount)] else [])
  }

  /** Succeeds exactly when every native amount was sent and every cw20 amount is allowed. */
  method ValidateAndAccept(call: Call, assets: seq<Asset>) returns (r: Result<seq<Message>>)
    ensures r.Ok? <==> forall asset :: asset in assets ==> call.Covers(asset)
    ensures r.Ok? ==> forall k :: 0 <= k < |assets| ==>
              match assets[k].info
              case NativeToken(denom) => assets[k].amount == call.Sent(denom)
              case Token(contract) => assets[k].amount <= call.Allowance(contract)
    ensures r.Ok? ==> r.value == Pulls(assets)
  {
    var messages := [];
    var insufficientAllowance := false;
    ghost var lacking := 0;
    for i := 0 to |assets|
      invariant insufficientAllowance ==> lacking < i && !call.Covers(assets[lacking])
      invariant !insufficientAllowance ==> forall k :: 0 <= k < i ==> call.Covers(assets[k])
      invariant !insufficientAllowance ==> messages == Pulls(assets[..i])
    {
      var asset := assets[i];
      assert asset in assets;
      assert assets[..i + 1][..i] == assets[..i];
      match asset.info
      case NativeToken(denom) =>
        if asset.amount != call.Sent(denom) {
          return Err(Generic("Native token balance mismatch between the argument and the transferred"));
        }
      case Token(contract) =>
        if call.Allowance(contract) < asset.amount {
          insufficientAllowance := true;
          lacking := i;
        } else {
          messages := messages + [TransferFrom(contract, asset.amount)];
        }
    }
    if insufficientAllowance {
      assert assets[lacking] in assets;
      return Err(Generic("insufficient cw20 token allowance"));
    }
    assert assets[..|assets|] == assets;
    return Ok(messages);
  }

  function CoinsOf(assets: seq<Asset>): seq<Coin> {
    if |assets| == 0 then []
    else
      var asset := assets[|assets| - 1];
      CoinsOf(assets[..|assets| - 1]) + (if asset.info.NativeToken? then [Coin(asset.info.denom, asset.amount)] else [])
  }

  function TransfersOf(assets: seq<Asset>, recipient: string): seq<Message> {
    if |assets| == 0 then []
    else
      var asset := assets[|assets| - 1];
      TransfersOf(assets[..|assets| - 1], recipient)
      + (if asset.info.Token? then [Transfer(asset.info.contract, recipient, asset.amount)] else [])
  }

  /** Splits assets into coins to attach and cw20 transfers to make. */
  method ForwardAssetsDirect(assets: seq<Asset>, recipient: string) returns (funds: seq<Coin>, messages: seq<Message>)
    ensures funds == CoinsOf(assets) && messages == TransfersOf(assets, recipient)
  {
    funds, messages := [], [];
    for i := 0 to |assets|
      invariant funds == CoinsOf(assets[..i]) && messages == TransfersOf(assets[..i], recipient)
    {
      var asset := assets[i];
      assert assets[..i + 1][..i] == assets[..i];
      match asset.info
      case NativeToken(denom) => funds := funds + [Coin(denom, asset.amount)];
      case Token(contract) => messages := messages + [Transfer(contract, recipient, asset.amount)];
    }
    assert assets[..|assets|] == assets;
  }

  // ----- What messages pay out. -----

  function TotalCoins(coins: seq<Coin>, denom: string): nat {
    if |coins| == 0 then 0
    else TotalCoins(coins[..|coins| - 1], denom)
         + (if coins[|coins| - 1].denom == denom then coins[|coins| - 1].amount else 0)
  }

  /** What one message takes of `info` from the contract that sends it. A bridged native token
      leaves with its deposit, a bridged cw20 with the transfer that uses its allowance. */
  function PaidBy(message: Message, info: AssetInfo): nat {
    match message
    case Transfer(token, _, amount) => if info == Token(token) then amount else 0
    case BankSend(_, coins) => if info.NativeToken? then TotalCoins(coins, info.denom) else 0
    case PerformAction(_, _, _, _, coins) => if info.NativeToken? then TotalCoins(coins, info.denom) else 0
    case DepositTokens(coin) => if info == NativeToken(coin.denom) then coin.amount else 0
    case InitiateTransfer(asset, _, _) => if asset.info.Token? && info == asset.info then asset.amount else 0
    case _ => 0
  }

  function Paid(messages: seq<Message>, info: AssetInfo): nat {
    if |messages| == 0 then 0
    else Paid(messages[..|messages| - 1], info) + PaidBy(messages[|messages| - 1], info)
  }

  lemma {:induction false} PaidConcat(a: seq<Message>, b: seq<Message>, info: AssetInfo)
    ensures Paid(a + b, info) == Paid(a, info) + Paid(b, info)
    decreases |b|
  {
    if |b| == 0 {
      assert a + b == a;
    } else {
      PaidConcat(a, b[..|b| - 1], info);
      assert (a + b)[..|a + b| - 1] == a + b[..|b| - 1];
    }
  }

  lemma PaidOne(message: Message, info: AssetInfo)
    ensures Paid([message], info) == PaidBy(message, info)
  {
    assert [message][..0] == [];
  }

  lemma {:induction false} CoinsTotal(assets: seq<Asset>, denom: string)
    ensures TotalCoins(CoinsOf(assets), denom) == Total(assets, NativeToken(denom))
  {
    if |assets| > 0 {
      var front := assets[..|assets| - 1];
      CoinsTotal(front, denom);
      var coins := CoinsOf(assets);
      if assets[|assets| - 1].info.NativeToken? {
        assert coins[..|coins| - 1] == CoinsOf(front);
      } else {
        assert coins == CoinsOf(front);
      }
    }
  }

  lemma {:induction false} TransfersTotal(assets: seq<Asset>, recipient: string, info: AssetInfo)
    ensures Paid(TransfersOf(assets, recipient), info) == if info.Token? then Total(assets, info) else 0
  {
    if |assets| > 0 {
      var front, last := assets[..|assets| - 1], assets[|assets| - 1];
      TransfersTotal(front, recipient, info);
      if last.info.Token? {
        var message := Transfer(last.info.contract, recipient, last.amount);
        PaidConcat(TransfersOf(front, recipient), [message], info);
        PaidOne(message, info);
      } else {
        assert TransfersOf(assets, recipient) == TransfersOf(front, recipient);
      }
    }
  }

  lemma {:induction false} OnlyTransfers(assets: seq<Asset>, recipient: string)
    ensures forall message :: message in TransfersOf(assets, recipient) ==> message.Transfer?
  {
    if |assets| > 0 {
      OnlyTransfers(assets[..|assets| - 1], recipient);
    }
  }

  /** Messages that bring nothing in. */
  predicate Spends(message: Message) {
    !message.TransferFrom? && !message.SubmitVaa?
  }

  /** Messages that send `assets` to `recipient`, as both uses of the split make them. */
  function SendAll(assets: seq<Asset>, recipient: string): seq<Message> {
    TransfersOf(assets, recipient)
    + (if CoinsOf(assets) == [] then [] else [BankSend(recipient, CoinsOf(assets))])
  }

  /** Sending pays out exactly the assets sent. */
  lemma SendAllPays(assets: seq<Asset>, recipient: string, info: AssetInfo)
    ensures Paid(SendAll(assets, recipient), info) == Total(assets, info)
  {
    TransfersTotal(assets, recipient, info);
    if info.NativeToken? {
      CoinsTotal(assets, info.denom);
    }
    if CoinsOf(assets) == [] {
      assert SendAll(assets, recipient) == TransfersOf(assets, recipient);
    } else {
      PaidConcat(TransfersOf(assets, recipient), [BankSend(recipient, CoinsOf(assets))], info);
      PaidOne(BankSend(recipient, CoinsOf(assets)), info);
    }
  }

  // ----- Who is paid. -----

  function PaidToBy(message: Message, to: string, info: AssetInfo): nat {
    match message
    case Transfer(token, recipient, amount) => if recipient == to && info == Token(token) then amount else 0
    case BankSend(recipient, coins) =>
      if recipient == to && info.NativeToken? then TotalCoins(coins, info.denom) else 0
    case _ => 0
  }

  /** What messages pay directly to an address. */
  function PaidTo(messages: seq<Message>, to: string, info: AssetInfo): nat {
    if |messages| == 0 then 0
    else PaidTo(messages[..|messages| - 1], to, info) + PaidToBy(messages[|messages| - 1], to, info)
  }

  lemma {:induction false} PaidToConcat(a: seq<Message>, b: seq<Message>, to: string, info: AssetInfo)
    ensures PaidTo(a + b, to, info) == PaidTo(a, to, info) + PaidTo(b, to, info)
    decreases |b|
  {
    if |b| == 0 {
      assert a + b == a;
    } else {
      PaidToConcat(a, b[..|b| - 1], to, info);
      assert (a + b)[..|a + b| - 1] == a + b[..|b| - 1];
    }
  }

  lemma PaidToOne(message: Message, to: string, info: AssetInfo)
    ensures PaidTo([message], to, info) == PaidToBy(message, to, info)
  {
    assert [message][..0] == [];
  }

  lemma {:induction false} TransfersTo(assets: seq<Asset>, recipient: string, to: string, info: AssetInfo)
    ensures PaidTo(TransfersOf(assets, recipient), to, info)
         == if info.Token? && to == recipient then Total(assets, info) else 0
  {
    if |assets| > 0 {
      var front, last := assets[..|assets| - 1], assets[|assets| - 1];
      TransfersTo(front, recipient, to, info);
      if last.info.Token? {
        var message := Transfer(last.info.contract, recipient, last.amount);
        PaidToConcat(TransfersOf(front, recipient), [message], to, info);
        PaidToOne(message, to, info);
      } else {
        assert TransfersOf(assets, recipient) == TransfersOf(front, recipient);
      }
    }
  }

  /** Sending pays the recipient exactly the assets sent, and nobody else anything. */
  lemma SendAllPaysTo(assets: seq<Asset>, recipient: string, to: string, info: AssetInfo)
    ensures PaidTo(SendAll(assets, recipient), to, info) == if to == recipient then Total(assets, info) else 0
  {
    TransfersTo(assets, recipient, to, info);
    if info.NativeToken? {
      CoinsTotal(assets, info.denom);
    }
    if CoinsOf(assets) == [] {
      assert SendAll(assets, recipient) == TransfersOf(assets, recipient);
    } else {
      PaidToConcat(TransfersOf(assets, recipient), [BankSend(recipient, CoinsOf(assets))], to, info);
      PaidToOne(BankSend(recipient, CoinsOf(assets)), to, info);
    }
  }

  lemma {:induction false} PullsPayNobody(assets: seq<Asset>, to: string, info: AssetInfo)
    ensures PaidTo(Pulls(assets), to, info) == 0
  {
    if |assets| > 0 {
      var front, last := assets[..|assets| - 1], assets[|assets| - 1];
      PullsPayNobody(front, to, info);
      if last.info.Token? {
        var message := TransferFrom(last.info.contract, last.amount);
        PaidToConcat(Pulls(front), [message], to, info);
        PaidToOne(message, to, info);
      } else {
        assert Pulls(assets) == Pulls(front);
      }
    }
  }

  lemma {:induction false} PullsPayNothing(assets: seq<Asset>, info: AssetInfo)
    ensures Paid(Pulls(assets), info) == 0
  {
    if |assets| > 0 {
      var front, last := assets[..|assets| - 1], assets[|assets| - 1];
      PullsPayNothing(front, info);
      if last.info.Token? {
        PaidConcat(Pulls(front), [TransferFrom(last.info.contract, last.amount)], info);
        PaidOne(TransferFrom(last.info.contract, last.amount), info);
      } else {
        assert Pulls(assets) == Pulls(front);
      }
    }
  }

  // ----- What was received. -----

  /** How often a list names `info`. */
  function Listings(assets: seq<Asset>, info: AssetInfo): nat {
    if |assets| == 0 then 0
    else Listings(assets[..|assets| - 1], info) + (if assets[|assets| - 1].info == info then 1 else 0)
  }

  /** The cw20 amount that messages pull from the caller. */
  function Pulled(messages: seq<Message>, token: string): nat {
    if |messages| == 0 then 0
    else
      var last := messages[|messages| - 1];
      Pulled(messages[..|messages| - 1], token) + (if last.TransferFrom? && last.token == token then last.amount else 0)
  }

  /** An accepted list pulls every cw20 amount that it names. */
  lemma {:induction false} PullsTotal(assets: seq<Asset>, token: string)
    ensures Pulled(Pulls(assets), token) == Total(assets, Token(token))
  {
    if |assets| > 0 {
      var front, last := assets[..|assets| - 1], assets[|assets| - 1];
      PullsTotal(front, token);
      if last.info.Token? {
        assert Pulls(assets)[..|Pulls(assets)| - 1] == Pulls(front);
      } else {
        assert Pulls(assets) == Pulls(front);
      }
    }
  }

  /** The native amounts an accepted list names were sent once, however often it names them. */
  lemma {:induction false} NativeTotal(call: Call, assets: seq<Asset>, denom: string)
    requires forall asset :: asset in assets ==> call.Covers(asset)
    ensures Total(assets, NativeToken(denom)) == Listings(assets, NativeToken(denom)) * call.Sent(denom)
  {
    if |assets| > 0 {
      var front, last := assets[..|assets| - 1], assets[|assets| - 1];
      NativeTotal(call, front, denom);
      assert last in assets;
      var n, sent := Listings(front, NativeToken(denom)), call.Sent(denom);
      assert (n + 1) * sent == n * sent + sent;
    }
  }

  /** A list that names `info` nowhere but at `k` names it at most once. */
  lemma {:induction false} ListedAtMostOnce(assets: seq<Asset>, info: AssetInfo, k: nat)
    requires forall j :: 0 <= j < |assets| && assets[j].info == info ==> j == k
    ensures Listings(assets, info) <= 1 && (|assets| <= k ==> Listings(assets, info) == 0)
  {
    if |assets| > 0 {
      ListedAtMostOnce(assets[..|assets| - 1], info, k);
    }
  }
}
