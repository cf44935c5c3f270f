/** The Terra manager: positions and their holders, and instructions from other chains. */
module Manager {
  import opened Results
  import opened FixedPoint
  import opened Bytes
  import opened Instruction
  import opened TokenUtil

  const TERRA_CHAIN_ID: u16 := 3
  const TRANSFER: byte := 1
  const NATIVE_TOKEN_INDICATOR: byte := 1
  const MAX_POSITION_ID: u128 := U128_MAX

  datatype Strategy = Strategy(chain: u16, id: u64)

  datatype StrategyLocation = TerraStrategy(id: u64) | ExternalStrategy(chain: u16)

  /** A message that the guardians of the Wormhole network signed; `stamp` is the rest of what
      they hash (time, nonce, consistency level). */
  datatype Vaa = Vaa(emitterChain: u16, emitterAddress: seq<byte>, sequence: u64, payload: seq<byte>, stamp: seq<byte>)

  /** What the core bridge answers about raw bytes: the signed message, or nothing. */
  type Verify = seq<byte> -> Option<Vaa>

  /** JSON, text and address conversions, the hash of signed messages, and this contract's address. */
  datatype Host = Host(json: Json, self: seq<byte>, humanize: seq<byte> -> string, utf8: seq<byte> -> Option<string>,
                       hash: Vaa -> seq<byte>)

  // ----- Storage. -----

  datatype State = State(
    nextPositionId: u128,
    holders: map<u128, string>,
    pairs: set<(string, seq<byte>)>,
    locations: map<Position, StrategyLocation>,
    strategies: map<u64, string>,
    managers: map<u16, seq<byte>>,
    completed: set<seq<byte>>)

  function PositionKey(id: u128): seq<byte> {
    ToBigEndian(id, 16)
  }

  // ----- Strategy calls. -----

  /** Hands assets to the strategy's manager and asks it for the action. A call from Terra brings
      the assets along; those of an instruction are already here. */
  ghost function StrategyMessages(s: State, call: Option<Call>, position: Position, action: Action, assets: seq<Asset>)
    : Result<seq<Message>>
  {
    if position !in s.locations then Err(Panic)
    else match s.locations[position]
      case ExternalStrategy(_) => Err(Panic)
      case TerraStrategy(id) =>
        if id !in s.strategies then Err(Panic)
        else if call.Some? && exists asset :: asset in assets && !call.value.Covers(asset) then Err(Panic)
        else Ok((if call.Some? then Pulls(assets) else [])
                + TransfersOf(assets, s.strategies[id])
                + [PerformAction(s.strategies[id], position, action, assets, CoinsOf(assets))])
  }

  ghost function Opened(s: State, call: Option<Call>, position: Position, strategyId: u64, data: Option<seq<byte>>,
                        assets: seq<Asset>)
    : Result<(State, seq<Message>)>
  {
    var located := s.(locations := s.locations[position := TerraStrategy(strategyId)]);
    var messages :- StrategyMessages(located, call, position, OpenPosition(data), assets);
    Ok((located, messages))
  }

  // ----- Incoming instructions. -----

  function Verified(verify: Verify, raw: seq<byte>): Result<Vaa> {
    var vaa := verify(raw);
    if vaa.None? then Err(Generic("invalid vaa")) else Ok(vaa.value)
  }

  function NonzeroBytes(bytes: seq<byte>): seq<byte> {
    if |bytes| == 0 then []
    else (if bytes[0] == 0 then [] else [bytes[0]]) + NonzeroBytes(bytes[1..])
  }

  /** The Terra asset at a token bridge address: a denomination marked by a leading 1, or the
      address of a cw20 contract in the last 20 bytes. */
  function BridgedInfo(host: Host, token: seq<byte>): Result<AssetInfo>
    requires |token| == 32
  {
    if token[0] == NATIVE_TOKEN_INDICATOR then
      var denom := host.utf8(NonzeroBytes(token[1..]));
      if denom.None? then Err(Generic("invalid utf8")) else Ok(NativeToken(denom.value))
    else Ok(Token(host.humanize(Slice(token, 12, 20))))
  }

  /** The token bridge's transfer; of the 256-bit amount and fee only the low halves are used. */
  datatype TransferInfo = TransferInfo(amount: u128, token: seq<byte>, tokenChain: u16, recipient: seq<byte>,
                                       recipientChain: u16, fee: u128)

  function ReadTransfer(data: seq<byte>): (info: TransferInfo)
    requires |data| >= 132
    ensures |info.token| == 32
  {
    TransferInfo(GetU256(data, 0).1, Slice(data, 32, 32), GetU16(data, 64), Slice(data, 66, 32),
                 GetU16(data, 98), GetU256(data, 100).1)
  }

  function TransferredAsset(host: Host, info: TransferInfo): Result<Asset>
    requires |info.token| == 32
  {
    if info.recipientChain != TERRA_CHAIN_ID || info.recipient != ExtendTo32(host.self) then
      Err(Generic("unexpected token transfer recipient"))
    else if info.tokenChain != TERRA_CHAIN_ID then Err(Generic("transferred token is not a Terra token"))
    else if info.amount < info.fee then Err(Panic)
    else
      var token :- BridgedInfo(host, info.token);
      Ok(Asset(token, info.amount - info.fee))
  }

  /** What a transfer message brings to this contract. */
  function TransferAsset(host: Host, payload: seq<byte>): Result<Asset> {
    if |payload| == 0 then Err(Panic)
    else if payload[0] != TRANSFER then Err(Generic("unexpected token transfer action"))
    else if |payload| < 133 then Err(Panic)
    else TransferredAsset(host, ReadTransfer(payload[1..]))
  }

  /** A transfer that an instruction from `chain` lists under `sequence`. */
  function ListedTransfer(host: Host, verify: Verify, chain: u16, sequence: u64, raw: seq<byte>): Result<Asset> {
    var vaa :- Verified(verify, raw);
    if vaa.emitterChain != chain then Err(Generic("unexpected token transfer emitter chain"))
    else if vaa.sequence != sequence then Err(Generic("unexpected token transfer sequence"))
    else TransferAsset(host, vaa.payload)
  }

  function ListedTransfers(host: Host, verify: Verify, chain: u16, sequences: seq<u64>,
                           raws: seq<seq<byte>>): Result<seq<Asset>>
    requires |sequences| == |raws|
  {
    if |raws| == 0 then Ok([])
    else
      var n := |raws| - 1;
      var front :- ListedTransfers(host, verify, chain, sequences[..n], raws[..n]);
      var last :- ListedTransfer(host, verify, chain, sequences[n], raws[n]);
      Ok(front + [last])
  }

  function Submits(raws: seq<seq<byte>>): seq<Message> {
    if |raws| == 0 then [] else Submits(raws[..|raws| - 1]) + [SubmitVaa(raws[|raws| - 1])]
  }

  /** The instruction in a message of a registered manager that was not processed before. */
  function Admitted(host: Host, verify: Verify, s: State, instruction: seq<byte>): Result<Vaa> {
    var vaa :- Verified(verify, instruction);
    if vaa.emitterChain !in s.managers then Err(Panic)
    else if vaa.emitterAddress != s.managers[vaa.emitterChain] then
      Err(Generic("unexpected instruction emitter address"))
    else if host.hash(vaa) in s.completed then Err(Generic("instruction already completed"))
    else Ok(vaa)
  }

  /** An instruction addressed to Terra, with as many transfers as it lists. */
  function ForTerra(json: Json, payload: seq<byte>, transfers: nat): Result<Instruction> {
    var i :- Decoded(json, payload);
    if i.SingleTokenDisbursement? then Err(Panic)
    else if i.info.strategyChain != TERRA_CHAIN_ID then Err(Generic("instruction not intended for Terra chain"))
    else if |i.info.sequences| != transfers then Err(Generic("unexpected token_transfer_vaas length"))
    else Ok(i)
  }

  ghost function Performed(s: State, i: Instruction, position: Position, assets: seq<Asset>): Result<(State,
                           seq<Message>)>
    requires !i.SingleTokenDisbursement?
  {
    match i
    case PositionOpen(_, strategyId, data) => Opened(s, None, position, strategyId, data, assets)
    case ExecuteStrategy(_, action) =>
      var messages :- StrategyMessages(s, None, position, action, assets);
      Ok((s, messages))
  }

  ghost function Processed(host: Host, verify: Verify, s: State, instruction: seq<byte>, raws: seq<seq<byte>>)
    : Result<(State, seq<Message>)>
  {
    var vaa :- Admitted(host, verify, s, instruction);
    var i :- ForTerra(host.json, vaa.payload, |raws|);
    var assets :- ListedTransfers(host, verify, vaa.emitterChain, i.info.sequences, raws);
    var marked := s.(completed := s.completed + {host.hash(vaa)});
    var done :- Performed(marked, i, Position(vaa.emitterChain, i.info.positionId), assets);
    Ok((done.0, Submits(raws) + done.1))
  }

  // ----- Calls. -----

  datatype Command =
    | Create(sender: string, call: Call, strategy: Strategy, data: Option<seq<byte>>, assets: seq<Asset>)
    | Act(sender: string, call: Call, positionId: u128, action: Action, assets: seq<Asset>)
    | Process(verify: Verify, instruction: seq<byte>, raws: seq<seq<byte>>)
    | Configure(strategies: map<u64, string>, managers: map<u16, seq<byte>>)

  ghost function Created(s: State, sender: string, call: Call, strategy: Strategy, data: Option<seq<byte>>,
                         assets: seq<Asset>)
    : Result<(State, seq<Message>)>
  {
    if strategy.chain != TERRA_CHAIN_ID then Err(Generic("external chain strategy not yet supported"))
    else if s.nextPositionId == MAX_POSITION_ID then Err(Overflow)
    else
      var id := s.nextPositionId;
      var held := s.(nextPositionId := id + 1, holders := s.holders[id := sender],
                     pairs := s.pairs + {(sender, PositionKey(id))});
      Opened(held, Some(call), Position(TERRA_CHAIN_ID, id), strategy.id, data, assets)
  }

  ghost function Acted(s: State, sender: string, call: Call, positionId: u128, action: Action, assets: seq<Asset>)
    : Result<(State, seq<Message>)>
  {
    if positionId !in s.holders then Err(Panic)
    else if s.holders[positionId] != sender then Err(Generic("unauthorized"))
    else if action.OpenPosition? then Err(Generic("open-position action on an existing position is disallowed"))
    else
      var messages :- StrategyMessages(s, Some(call), Position(TERRA_CHAIN_ID, positionId), action, assets);
      Ok((s, messages))
  }

  ghost function Handle(host: Host, s: State, command: Command): Result<(State, seq<Message>)> {
    match command
    case Create(sender, call, strategy, data, assets) => Created(s, sender, call, strategy, data, assets)
    case Act(sender, call, positionId, action, assets) => Acted(s, sender, call, positionId, action, assets)
    case Process(verify, instruction, raws) => Processed(host, verify, s, instruction, raws)
    case Configure(strategies, managers) => Ok((s.(strategies := strategies, managers := managers), []))
  }

  ghost function Committed(host: Host, s: State, command: Command): State {
    var r := Handle(host, s, command);
    if r.Ok? then r.value.0 else s
  }

  // ----- The contract. -----

  class TerraManager {
    var nextPositionId: u128
    var holders: map<u128, string>
    var pairs: set<(string, seq<byte>)>
    var locations: map<Position, StrategyLocation>
    var strategies: map<u64, string>
    var managers: map<u16, seq<byte>>
    var completed: set<seq<byte>>

    function Value(): State
      reads this
    {
      State(nextPositionId, holders, pairs, locations, strategies, managers, completed)
    }

    constructor ()
      ensures Value() == State(0, map[], {}, map[], map[], map[], {})
    {
      nextPositionId, holders, pairs, locations := 0, map[], {}, map[];
      strategies, managers, completed := map[], map[], {};
    }

    method CreateExecuteStrategyMessages(call: Option<Call>, position: Position, action: Action, assets: seq<Asset>)
      returns (r: Result<seq<Message>>)
      ensures r.Ok? <==> StrategyMessages(Value(), call, position, action, assets).Ok?
      ensures r.Ok? ==> r == StrategyMessages(Value(), call, position, action, assets)
    {
      if position !in locations {
        return Err(Generic("strategy location not found"));
      }
      match locations[position]
      case ExternalStrategy(_) =>
        return Err(Generic("Cross-chain action not yet supported"));
      case TerraStrategy(id) =>
        if id !in strategies {
          return Err(Generic("strategy not found"));
        }
        var messages: seq<Message> := [];
        if call.Some? {
          messages :- ValidateAndAccept(call.value, assets);
        }
        var funds, transfers := ForwardAssetsDirect(assets, strategies[id]);
        messages := messages + transfers;
        messages := messages + [PerformAction(strategies[id], position, action, assets, funds)];
        return Ok(messages);
    }

    method SaveNewPositionInfoAndOpenIt(call: Option<Call>, position: Position, strategyId: u64,
                                        data: Option<seq<byte>>,
                                        assets: seq<Asset>)
      returns (r: Result<seq<Message>>)
      modifies this`locations
      ensures r.Ok? <==> Opened(old(Value()), call, position, strategyId, data, assets).Ok?
      ensures r.Ok? ==> Ok((Value(), r.value)) == Opened(old(Value()), call, position, strategyId, data, assets)
    {
      locations := locations[position := TerraStrategy(strategyId)];
      r := CreateExecuteStrategyMessages(call, position, OpenPosition(data), assets);
    }

    method CreatePosition(sender: string, call: Call, strategy: Strategy, data: Option<seq<byte>>, assets: seq<Asset>)
      returns (r: Result<seq<Message>>)
      modifies this
      ensures r.Ok? <==> Created(old(Value()), sender, call, strategy, data, assets).Ok?
      ensures r.Ok? ==> Ok((Value(), r.value)) == Created(old(Value()), sender, call, strategy, data, assets)
    {
      if strategy.chain != TERRA_CHAIN_ID {
        return Err(Generic("external chain strategy not yet supported"));
      }
      var id := nextPositionId;
      if id == MAX_POSITION_ID {
        return Err(Overflow);
      }
      nextPositionId := id + 1;
      holders := holders[id := sender];
      pairs := pairs + {(sender, PositionKey(id))};
      r := SaveNewPositionInfoAndOpenIt(Some(call), Position(TERRA_CHAIN_ID, id), strategy.id, data, assets);
    }

    method Execute(sender: string, call: Call, positionId: u128, action: Action, assets: seq<Asset>)
      returns (r: Result<seq<Message>>)
      ensures r.Ok? <==> Acted(Value(), sender, call, positionId, action, assets).Ok?
      ensures r.Ok? ==> Ok((Value(), r.value)) == Acted(Value(), sender, call, positionId, action, assets)
    {
      if positionId !in holders {
        return Err(Generic("position not found"));
      }
      if holders[positionId] != sender {
        return Err(Generic("unauthorized"));
      }
      if action.OpenPosition? {
        return Err(Generic("open-position action on an existing position is disallowed"));
      }
      r := CreateExecuteStrategyMessages(Some(call), Position(TERRA_CHAIN_ID, positionId), action, assets);
    }

    method ProcessCrossChainInstruction(host: Host, verify: Verify, instruction: seq<byte>, raws: seq<seq<byte>>)
      returns (r: Result<seq<Message>>)
      modifies this
      ensures r.Ok? <==> Processed(host, verify, old(Value()), instruction, raws).Ok?
      ensures r.Ok? ==> Ok((Value(), r.value)) == Processed(host, verify, old(Value()), instruction, raws)
    {
      var vaa :- Admitted(host, verify, Value(), instruction);
      completed := completed + {host.hash(vaa)};
      var i :- ForTerra(host.json, vaa.payload, |raws|);
      ghost var marked := Value();
      var sequences := i.info.sequences;
      var messages: seq<Message>, assets: seq<Asset> := [], [];
      for k := 0 to |raws|
        invariant Value() == marked
        invariant ListedTransfers(host, verify, vaa.emitterChain, sequences[..k], raws[..k]) == Ok(assets)
        invariant messages == Submits(raws[..k])
      {
        assert sequences[..k + 1][..k] == sequences[..k] && raws[..k + 1][..k] == raws[..k];
        var asset := ListedTransfer(host, verify, vaa.emitterChain, sequences[k], raws[k]);
        if asset.Err? {
          PrefixFails(host, verify, vaa.emitterChain, sequences, raws, k + 1);
          return Err(asset.error);
        }
        assets := assets + [asset.value];
        messages := messages + [SubmitVaa(raws[k])];
      }
      assert sequences[..|raws|] == sequences && raws[..|raws|] == raws;
      var position := Position(vaa.emitterChain, i.info.positionId);
      var performed: seq<Message>;
      match i
      case PositionOpen(_, strategyId, data) =>
        performed :- SaveNewPositionInfoAndOpenIt(None, position, strategyId, data, assets);
        r := Ok(messages + performed);
      case ExecuteStrategy(_, action) =>
        performed :- CreateExecuteStrategyMessages(None, position, action, assets);
        r := Ok(messages + performed);
    }

    /** The virtual machine undoes what a failing call wrote. */
    method Transact(host: Host, command: Command) returns (r: Result<seq<Message>>)
      modifies this
      ensures r.Ok? <==> Handle(host, old(Value()), command).Ok?
      ensures r.Ok? ==> r.value == Handle(host, old(Value()), command).value.1
      ensures Value() == Committed(host, old(Value()), command)
    {
      var saved := Value();
      match command {
        case Create(sender, call, strategy, data, assets) => r := CreatePosition(sender, call, strategy, data, assets);
        case Act(sender, call, positionId, action, assets) => r := Execute(sender, call, positionId, action, assets);
        case Process(verify, instruction, raws) => r := ProcessCrossChainInstruction(host, verify, instruction, raws);
        case Configure(newStrategies, newManagers) =>
          strategies, managers := newStrategies, newManagers;
          r := Ok([]);
      }
      if r.Err? {
        nextPositionId, holders, pairs := saved.nextPositionId, saved.holders, saved.pairs;
        locations, strategies := saved.locations, saved.strategies;
        managers, completed := saved.managers, saved.completed;
      }
    }
  }

  lemma FrontFails(host: Host, verify: Verify, chain: u16, sequences: seq<u64>, raws: seq<seq<byte>>)
    requires 0 < |sequences| == |raws|
    requires ListedTransfers(host, verify, chain, sequences[..|raws| - 1], raws[..|raws| - 1]).Err?
    ensures ListedTransfers(host, verify, chain, sequences, raws).Err?
  {}

  lemma {:induction false} PrefixFails(host: Host, verify: Verify, chain: u16, sequences: seq<u64>,
                                       raws: seq<seq<byte>>, n: nat)
    requires |sequences| == |raws| && n <= |raws|
    requires ListedTransfers(host, verify, chain, sequences[..n], raws[..n]).Err?
    ensures ListedTransfers(host, verify, chain, sequences, raws).Err?
  {
    if n == |raws| {
      assert sequences[..n] == sequences && raws[..n] == raws;
    } else {
      var last := |raws| - 1;
      assert sequences[..last][..n] == sequences[..n] && raws[..last][..n] == raws[..n];
      PrefixFails(host, verify, chain, sequences[..last], raws[..last], n);
      FrontFails(host, verify, chain, sequences, raws);
    }
  }

  // ----- The token bridge's transfer format. -----

  /** A transfer as the token bridge publishes it. */
  function TransferPayload(amount: nat, token: seq<byte>, tokenChain: u16, recipient: seq<byte>, recipientChain: u16,
                           fee: nat)
    : seq<byte>
  {
    [TRANSFER] + ToBigEndian(amount, 32) + token + ToBigEndian(tokenChain, 2) + recipient
    + ToBigEndian(recipientChain, 2) + ToBigEndian(fee, 32)
  }

  /** A Terra token sent here arrives less its fee, both cut to their low 128 bits. */
  lemma TransferReadsBack(host: Host, amount: nat, token: seq<byte>, fee: nat)
    requires |host.self| == 20 && |token| == 32
    ensures var payload := TransferPayload(amount, token, TERRA_CHAIN_ID, ExtendTo32(host.self), TERRA_CHAIN_ID, fee);
            var low, lowFee := amount % (U128_MAX + 1), fee % (U128_MAX + 1);
            TransferAsset(host, payload) ==
              if low < lowFee then Err(Panic)
              else if BridgedInfo(host, token).Err? then Err(BridgedInfo(host, token).error)
              else Ok(Asset(BridgedInfo(host, token).value, low - lowFee))
  {
    var recipient := ExtendTo32(host.self);
    var a, c, f := ToBigEndian(amount, 32), ToBigEndian(TERRA_CHAIN_ID, 2), ToBigEndian(fee, 32);
    var data := a + token + c + recipient + c + f;
    var payload := TransferPayload(amount, token, TERRA_CHAIN_ID, recipient, TERRA_CHAIN_ID, fee);
    assert payload == [TRANSFER] + data;
    assert payload[1..] == data;
    Fields(a, token, c, recipient, f);
    ReadsFields(data, amount, token, recipient, fee);
  }

  lemma ReadsFields(data: seq<byte>, amount: nat, token: seq<byte>, recipient: seq<byte>, fee: nat)
    requires |data| == 132
    requires Slice(data, 0, 32) == ToBigEndian(amount, 32) && Slice(data, 32, 32) == token
    requires Slice(data, 64, 2) == Slice(data, 98, 2) == ToBigEndian(TERRA_CHAIN_ID, 2)
    requires Slice(data, 66, 32) == recipient && Slice(data, 100, 32) == ToBigEndian(fee, 32)
    ensures ReadTransfer(data)
         == TransferInfo(amount % (U128_MAX + 1), token, TERRA_CHAIN_ID,
                         recipient, TERRA_CHAIN_ID, fee % (U128_MAX + 1))
  {
    U16Back(TERRA_CHAIN_ID);
    SliceAll(ToBigEndian(TERRA_CHAIN_ID, 2));
    LowHalf(amount, ToBigEndian(amount, 32), data, 0);
    LowHalf(fee, ToBigEndian(fee, 32), data, 100);
  }

  lemma Fields(a: seq<byte>, token: seq<byte>, c: seq<byte>, recipient: seq<byte>, f: seq<byte>)
    requires |a| == |token| == |recipient| == |f| == 32 && |c| == 2
    ensures var data := a + token + c + recipient + c + f;
            && Slice(data, 0, 32) == a && Slice(data, 32, 32) == token && Slice(data, 64, 2) == c
            && Slice(data, 66, 32) == recipient && Slice(data, 98, 2) == c && Slice(data, 100, 32) == f
  {}

  lemma LowHalf(v: nat, bytes: seq<byte>, data: seq<byte>, index: nat)
    requires bytes == ToBigEndian(v, 32) && index + 32 <= |data| && Slice(data, index, 32) == bytes
    ensures GetU128(data, index + 16) == v % (U128_MAX + 1)
  {
    var high, low := GetU128(data, index), GetU128(data, index + 16);
    U256Halves(data, index);
    WriteThenRead(v, 32);
    WidthValues();
    DoubleWidth();
    LowDigits(v, Pow256(16), high, low);
    assert v % (U128_MAX + 1) == low;
  }

  lemma DoubleWidth()
    ensures Pow256(32) == Pow256(16) * Pow256(16)
  {
    PowSplit(16, 16);
  }

  lemma {:induction false} PowSplit(m: nat, n: nat)
    ensures Pow256(m + n) == Pow256(m) * Pow256(n)
  {
    if m > 0 {
      PowSplit(m - 1, n);
      assert 256 * (Pow256(m - 1) * Pow256(n)) == (256 * Pow256(m - 1)) * Pow256(n);
    }
  }

  lemma LowDigits(v: nat, p: nat, high: nat, low: nat)
    requires 0 < p && low < p && v % (p * p) == high * p + low
    ensures v % p == low
  {
    var q := v / (p * p);
    assert v == q * (p * p) + (high * p + low);
    assert q * (p * p) == (q * p) * p;
    assert (q * p) * p + high * p == (q * p + high) * p;
    ModOf(v, p, q * p + high, low);
  }
}
