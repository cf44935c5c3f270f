/** Which position a call acts on, with what, and on whose behalf; and that nobody else's
    position is touched on any run. */
module Positions {
  import opened Results
  import opened Bytes
  import opened Instruction
  import opened TokenUtil
  import opened Manager
  import opened HolderIndex

  // ----- What a call asks a strategy for. -----

  /** The requests to strategies among messages. */
  function Requests(messages: seq<Message>): seq<Message> {
    if |messages| == 0 then []
    else
      var last := messages[|messages| - 1];
      Requests(messages[..|messages| - 1]) + (if last.PerformAction? then [last] else [])
  }

  lemma {:induction false} RequestsConcat(a: seq<Message>, b: seq<Message>)
    ensures Requests(a + b) == Requests(a) + Requests(b)
    decreases |b|
  {
    if |b| == 0 {
      assert a + b == a;
    } else {
      RequestsConcat(a, b[..|b| - 1]);
      assert (a + b)[..|a + b| - 1] == a + b[..|b| - 1];
    }
  }

  lemma {:induction false} NoRequests(messages: seq<Message>)
    requires forall message :: message in messages ==> !message.PerformAction?
    ensures Requests(messages) == []
  {
    if |messages| > 0 {
      assert messages[|messages| - 1] in messages;
      NoRequests(messages[..|messages| - 1]);
    }
  }

  lemma {:induction false} PullsOnlyPull(assets: seq<Asset>)
    ensures forall message :: message in Pulls(assets) ==> message.TransferFrom?
  {
    if |assets| > 0 {
      PullsOnlyPull(assets[..|assets| - 1]);
    }
  }

  lemma {:induction false} SubmitsOnlySubmit(raws: seq<seq<byte>>)
    ensures forall message :: message in Submits(raws) ==> message.SubmitVaa?
  {
    if |raws| > 0 {
      SubmitsOnlySubmit(raws[..|raws| - 1]);
    }
  }

  /** The position lives at strategy `id`, and `manager` runs that strategy. */
  predicate RunBy(s: State, position: Position, id: u64, manager: string) {
    && position in s.locations && s.locations[position] == TerraStrategy(id)
    && id in s.strategies && s.strategies[id] == manager
  }

  /** A strategy call asks the manager of the position's strategy for one action, on that position
      and with those assets. It succeeds exactly when there is such a manager, and a caller's
      assets are covered. */
  lemma AsksOnce(s: State, call: Option<Call>, position: Position, action: Action, assets: seq<Asset>, id: u64,
                 manager: string)
    requires RunBy(s, position, id, manager)
    ensures var r := StrategyMessages(s, call, position, action, assets);
            && (r.Ok? <==> call.None? || forall asset :: asset in assets ==> call.value.Covers(asset))
            && (r.Ok? ==> Requests(r.value) == [PerformAction(manager, position, action, assets, CoinsOf(assets))])
  {
    var pulls, transfers := if call.Some? then Pulls(assets) else [], TransfersOf(assets, manager);
    var request := PerformAction(manager, position, action, assets, CoinsOf(assets));
    PullsOnlyPull(assets);
    OnlyTransfers(assets, manager);
    OneRequest(pulls, transfers, request);
  }

  lemma OneRequest(pulls: seq<Message>, transfers: seq<Message>, request: Message)
    requires forall message :: message in pulls ==> message.TransferFrom?
    requires forall message :: message in transfers ==> message.Transfer?
    requires request.PerformAction?
    ensures Requests(pulls + transfers + [request]) == [request]
  {
    NoRequests(pulls);
    NoRequests(transfers);
    RequestsConcat(pulls, transfers);
    RequestsConcat(pulls + transfers, [request]);
    assert [request][..0] == [] && Requests([request]) == [request];
    assert [] + [request] == [request];
  }

  /** The cw20 assets go to that manager, and to nobody else. */
  lemma PaysManager(s: State, call: Option<Call>, position: Position, action: Action, assets: seq<Asset>, id: u64,
                    manager: string, to: string, token: string)
    requires RunBy(s, position, id, manager) && StrategyMessages(s, call, position, action, assets).Ok?
    ensures PaidTo(StrategyMessages(s, call, position, action, assets).value, to, Token(token))
         == if to == manager then Total(assets, Token(token)) else 0
  {
    var pulls, transfers := if call.Some? then Pulls(assets) else [], TransfersOf(assets, manager);
    var request := PerformAction(manager, position, action, assets, CoinsOf(assets));
    PullsPayNobody(assets, to, Token(token));
    TransfersTo(assets, manager, to, Token(token));
    PaidToConcat(pulls, transfers, to, Token(token));
    PaidToConcat(pulls + transfers, [request], to, Token(token));
    PaidToOne(request, to, Token(token));
  }

  lemma NobodyToAsk(s: State, call: Option<Call>, position: Position, action: Action, assets: seq<Asset>)
    requires forall id: u64, manager :: !RunBy(s, position, id, manager)
    ensures StrategyMessages(s, call, position, action, assets).Err?
  {
    if position in s.locations && s.locations[position].TerraStrategy? && s.locations[position].id in s.strategies {
      assert RunBy(s, position, s.locations[position].id, s.strategies[s.locations[position].id]);
    }
  }

  // ----- Instructions. -----

  /** A message that the manager may act on: from the manager registered for its chain, not processed
      before, and a strategy instruction for Terra that lists `transfers` transfers. */
  predicate Admissible(host: Host, s: State, vaa: Vaa, transfers: nat) {
    && vaa.emitterChain in s.managers && vaa.emitterAddress == s.managers[vaa.emitterChain]
    && host.hash(vaa) !in s.completed
    && var i := Decoded(host.json, vaa.payload);
       && i.Ok? && !i.value.SingleTokenDisbursement?
       && i.value.info.strategyChain == TERRA_CHAIN_ID && |i.value.info.sequences| == transfers
  }

  /** The transfers behind raw bytes come from `chain`, carry the listed sequences, and bring `assets`. */
  predicate Brings(host: Host, verify: Verify, chain: u16, sequences: seq<u64>, raws: seq<seq<byte>>,
                   assets: seq<Asset>) {
    && |sequences| == |raws| == |assets|
    && forall k :: 0 <= k < |raws| ==> BringsOne(host, verify(raws[k]), chain, sequences[k], assets[k])
  }

  predicate BringsOne(host: Host, vaa: Option<Vaa>, chain: u16, sequence: u64, asset: Asset) {
    && vaa.Some? && vaa.value.emitterChain == chain && vaa.value.sequence == sequence
    && TransferAsset(host, vaa.value.payload) == Ok(asset)
  }

  lemma {:induction false} BroughtIsListed(host: Host, verify: Verify, chain: u16, sequences: seq<u64>,
                                           raws: seq<seq<byte>>, assets: seq<Asset>)
    requires |sequences| == |raws|
    ensures ListedTransfers(host, verify, chain, sequences, raws) == Ok(assets)
       <==> Brings(host, verify, chain, sequences, raws, assets)
  {
    if |raws| > 0 {
      var n := |raws| - 1;
      ListedLast(host, verify, chain, sequences, raws, assets);
      if |assets| > 0 {
        BroughtIsListed(host, verify, chain, sequences[..n], raws[..n], assets[..|assets| - 1]);
      }
      if |assets| == |raws| {
        BringsLast(host, verify, chain, sequences, raws, assets);
      }
    }
  }

  lemma ListedLast(host: Host, verify: Verify, chain: u16, sequences: seq<u64>, raws: seq<seq<byte>>,
                   assets: seq<Asset>)
    requires 0 < |sequences| == |raws|
    ensures var n, m := |raws| - 1, |assets| - 1;
            ListedTransfers(host, verify, chain, sequences, raws) == Ok(assets)
            <==> 0 < |assets| && ListedTransfers(host, verify, chain, sequences[..n], raws[..n]) == Ok(assets[..m])
                 && BringsOne(host, verify(raws[n]), chain, sequences[n], assets[m])
  {
    var n := |raws| - 1;
    if 0 < |assets| {
      var m := |assets| - 1;
      assert assets == assets[..m] + [assets[m]];
      OneListed(host, verify, chain, sequences[n], raws[n], assets[m]);
    }
  }

  lemma OneListed(host: Host, verify: Verify, chain: u16, sequence: u64, raw: seq<byte>, asset: Asset)
    ensures ListedTransfer(host, verify, chain, sequence, raw) == Ok(asset)
       <==> BringsOne(host, verify(raw), chain, sequence, asset)
  {}

  lemma BringsLast(host: Host, verify: Verify, chain: u16, sequences: seq<u64>, raws: seq<seq<byte>>,
                   assets: seq<Asset>)
    requires 0 < |raws| == |assets| == |sequences|
    ensures var n := |raws| - 1;
            Brings(host, verify, chain, sequences, raws, assets)
            <==> Brings(host, verify, chain, sequences[..n], raws[..n], assets[..n])
                 && BringsOne(host, verify(raws[n]), chain, sequences[n], assets[n])
  {
    var n := |raws| - 1;
    if Brings(host, verify, chain, sequences[..n], raws[..n], assets[..n]) {
      forall k | 0 <= k < n
        ensures BringsOne(host, verify(raws[k]), chain, sequences[k], assets[k])
      {
        assert BringsOne(host, verify(raws[..n][k]), chain, sequences[..n][k], assets[..n][k]);
      }
    }
    if Brings(host, verify, chain, sequences, raws, assets) {
      forall k | 0 <= k < n
        ensures BringsOne(host, verify(raws[..n][k]), chain, sequences[..n][k], assets[..n][k])
      {
        assert BringsOne(host, verify(raws[k]), chain, sequences[k], assets[k]);
      }
    }
  }

  /** The position an instruction from `chain` names: always one of that chain. */
  function Named(chain: u16, i: Instruction): Position
    requires !i.SingleTokenDisbursement?
  {
    Position(chain, i.info.positionId)
  }

  /** Storage once an instruction is marked and, if it opens a position, that position is located. */
  function Noted(s: State, hash: seq<byte>, chain: u16, i: Instruction): State
    requires !i.SingleTokenDisbursement?
  {
    var marked := s.(completed := s.completed + {hash});
    if i.PositionOpen? then marked.(locations := s.locations[Named(chain, i) := TerraStrategy(i.strategyId)])
    else marked
  }

  /** A processed instruction was admissible, its transfers are the listed ones, and the one request
      it makes is for its action, with their assets, on the position of its own chain that it names,
      to the manager of that position's strategy. No location but that position's changes. */
  lemma InstructionActs(host: Host, verify: Verify, s: State, instruction: seq<byte>, raws: seq<seq<byte>>)
    returns (assets: seq<Asset>, id: u64, manager: string)
    requires Processed(host, verify, s, instruction, raws).Ok?
    ensures verify(instruction).Some? && Admissible(host, s, verify(instruction).value, |raws|)
    ensures var vaa := verify(instruction).value;
            var i := Decoded(host.json, vaa.payload).value;
            var done, messages := Processed(host, verify, s, instruction, raws).value.0,
                                  Processed(host, verify, s, instruction, raws).value.1;
            && Brings(host, verify, vaa.emitterChain, i.info.sequences, raws, assets)
            && done == Noted(s, host.hash(vaa), vaa.emitterChain, i)
            && RunBy(done, Named(vaa.emitterChain, i), id, manager)
            && Requests(messages) == [PerformAction(manager, Named(vaa.emitterChain, i),
                                                    if i.PositionOpen? then OpenPosition(i.data) else i.action,
                                                    assets, CoinsOf(assets))]
  {
    var vaa := verify(instruction).value;
    var i := Decoded(host.json, vaa.payload).value;
    assets := ListedTransfers(host, verify, vaa.emitterChain, i.info.sequences, raws).value;
    BroughtIsListed(host, verify, vaa.emitterChain, i.info.sequences, raws, assets);
    var done := Noted(s, host.hash(vaa), vaa.emitterChain, i);
    id, manager := PerformedActs(s, host.hash(vaa), vaa.emitterChain, i, assets);
    var messages := Performed(s.(completed := s.completed + {host.hash(vaa)}), i, Named(vaa.emitterChain, i),
                              assets).value.1;
    SubmitsOnlySubmit(raws);
    NoRequests(Submits(raws));
    RequestsConcat(Submits(raws), messages);
    assert [] + Requests(messages) == Requests(messages);
  }

  lemma PerformedActs(s: State, hash: seq<byte>, chain: u16, i: Instruction, assets: seq<Asset>)
    returns (id: u64, manager: string)
    requires !i.SingleTokenDisbursement?
    requires Performed(s.(completed := s.completed + {hash}), i, Named(chain, i), assets).Ok?
    ensures var done := Performed(s.(completed := s.completed + {hash}), i, Named(chain, i), assets).value;
            && done.0 == Noted(s, hash, chain, i) && RunBy(done.0, Named(chain, i), id, manager)
            && Requests(done.1) == [PerformAction(manager, Named(chain, i),
                                                  if i.PositionOpen? then OpenPosition(i.data) else i.action,
                                                  assets, CoinsOf(assets))]
  {
    var done := Noted(s, hash, chain, i);
    var action := if i.PositionOpen? then OpenPosition(i.data) else i.action;
    assert StrategyMessages(done, None, Named(chain, i), action, assets).Ok?;
    id := done.locations[Named(chain, i)].id;
    manager := done.strategies[id];
    AsksOnce(done, None, Named(chain, i), action, assets, id, manager);
  }

  /** Nothing else is needed: an admissible instruction with its transfers is processed if somebody
      runs the strategy of its position. */
  lemma InstructionProceeds(host: Host, verify: Verify, s: State, instruction: seq<byte>, raws: seq<seq<byte>>,
                            assets: seq<Asset>, id: u64, manager: string)
    requires verify(instruction).Some? && Admissible(host, s, verify(instruction).value, |raws|)
    requires var vaa := verify(instruction).value;
             var i := Decoded(host.json, vaa.payload).value;
             && Brings(host, verify, vaa.emitterChain, i.info.sequences, raws, assets)
             && RunBy(Noted(s, host.hash(vaa), vaa.emitterChain, i), Named(vaa.emitterChain, i), id, manager)
    ensures Processed(host, verify, s, instruction, raws).Ok?
  {
    var vaa := verify(instruction).value;
    var i := Decoded(host.json, vaa.payload).value;
    BroughtIsListed(host, verify, vaa.emitterChain, i.info.sequences, raws, assets);
    var done := Noted(s, host.hash(vaa), vaa.emitterChain, i);
    AsksOnce(done, None, Named(vaa.emitterChain, i), if i.PositionOpen? then OpenPosition(i.data) else i.action, assets,
             id, manager);
  }

  // ----- Calls of Terra users. -----

  /** Creating a position gives the caller the next id and asks the chosen strategy to open it. */
  lemma CreateActs(s: State, sender: string, call: Call, strategy: Strategy, data: Option<seq<byte>>,
                   assets: seq<Asset>)
    requires Created(s, sender, call, strategy, data, assets).Ok?
    ensures s.nextPositionId < MAX_POSITION_ID && strategy.id in s.strategies
    ensures var id := s.nextPositionId;
            var position := Position(TERRA_CHAIN_ID, id);
            var done, messages := Created(s, sender, call, strategy, data, assets).value.0,
                                  Created(s, sender, call, strategy, data, assets).value.1;
            && done == s.(nextPositionId := id + 1, holders := s.holders[id := sender],
                          pairs := s.pairs + {(sender, PositionKey(id))},
                          locations := s.locations[position := TerraStrategy(strategy.id)])
            && Requests(messages) == [PerformAction(s.strategies[strategy.id], position, OpenPosition(data), assets,
                                                    CoinsOf(assets))]
  {
    var done := Created(s, sender, call, strategy, data, assets).value.0;
    AsksOnce(done, Some(call), Position(TERRA_CHAIN_ID, s.nextPositionId), OpenPosition(data), assets, strategy.id,
             s.strategies[strategy.id]);
  }

  /** A caller acts on a position exactly if it is the caller's own, somebody runs its strategy, the
      action does not open it again, and the assets are covered. Only that position is acted on. */
  lemma ActActs(s: State, sender: string, call: Call, positionId: u128, action: Action, assets: seq<Asset>)
    ensures var r := Acted(s, sender, call, positionId, action, assets);
            var position := Position(TERRA_CHAIN_ID, positionId);
            && (r.Ok? <==>
                  && positionId in s.holders && s.holders[positionId] == sender && !action.OpenPosition?
                  && (exists id: u64, manager :: RunBy(s, position, id, manager))
                  && forall asset :: asset in assets ==> call.Covers(asset))
            && (r.Ok? ==> r.value.0 == s && exists id: u64, manager ::
                  && RunBy(s, position, id, manager)
                  && Requests(r.value.1) == [PerformAction(manager, position, action, assets, CoinsOf(assets))])
  {
    var position := Position(TERRA_CHAIN_ID, positionId);
    if id: u64, manager :| RunBy(s, position, id, manager) {
      AsksOnce(s, Some(call), position, action, assets, id, manager);
    } else {
      NobodyToAsk(s, Some(call), position, action, assets);
    }
  }

  // ----- Runs. -----

  /** The call is no instruction from `chain`. */
  ghost predicate NotFrom(chain: u16, command: Command) {
    command.Process? && command.verify(command.instruction).Some? ==>
      command.verify(command.instruction).value.emitterChain != chain
  }

  lemma StepLeaves(host: Host, s: State, attempt: Attempt, position: Position)
    requires Indexed(s) && NotFrom(position.chain, attempt.command) && position in s.locations
    requires position.chain == TERRA_CHAIN_ID ==> position.id in s.holders
    ensures var done := Step(host, s, attempt);
            && position in done.locations && done.locations[position] == s.locations[position]
            && (position.chain == TERRA_CHAIN_ID ==> position.id in done.holders)
  {
    StepKeepsIndex(host, s, attempt);
    if attempt.succeeds && Handle(host, s, attempt.command).Ok? {
      match attempt.command
      case Create(_, _, _, _, _) =>
      case Act(_, _, _, _, _) =>
      case Process(verify, instruction, raws) =>
        var _, _, _ := InstructionActs(host, verify, s, instruction, raws);
      case Configure(_, _) =>
    }
  }

  /** On every run, the strategy of a position changes at most by instructions from its own chain.
      So instructions from elsewhere never move a Terra position, or that of a third chain. */
  lemma {:induction false} OthersLeaveIt(host: Host, s: State, attempts: seq<Attempt>, position: Position)
    requires Indexed(s) && position in s.locations
    requires position.chain == TERRA_CHAIN_ID ==> position.id in s.holders
    requires forall attempt :: attempt in attempts ==> NotFrom(position.chain, attempt.command)
    ensures var done := Run(host, s, attempts);
            && position in done.locations && done.locations[position] == s.locations[position]
            && (position.chain == TERRA_CHAIN_ID ==> position.id in done.holders)
  {
    if |attempts| > 0 {
      var front, last := attempts[..|attempts| - 1], attempts[|attempts| - 1];
      assert last in attempts;
      AlwaysIndexed(host, s, front);
      OthersLeaveIt(host, s, front, position);
      StepLeaves(host, Run(host, s, front), last, position);
    }
  }

  // ----- Transfers to the manager. -----

  /** A payload brings an asset exactly if it is a transfer to this contract on Terra of a Terra token
      with a fee within its amount, each field where the token bridge puts it; of amount and fee only
      the low 128 bits are read. */
  lemma TransferAccepted(host: Host, payload: seq<byte>, asset: Asset)
    ensures TransferAsset(host, payload) == Ok(asset) <==>
      && 133 <= |payload| && payload[0] == 1
      && payload[67..99] == ExtendTo32(host.self) && FromBigEndian(payload[99..101]) == 3
      && FromBigEndian(payload[65..67]) == 3
      && FromBigEndian(payload[17..33]) == FromBigEndian(payload[117..133]) + asset.amount
      && BridgedInfo(host, payload[33..65]) == Ok(asset.info)
  {
    if 133 <= |payload| {
      var data := payload[1..];
      PartOf(payload, 16, 16);
      PartOf(payload, 32, 32);
      PartOf(payload, 64, 2);
      PartOf(payload, 66, 32);
      PartOf(payload, 98, 2);
      PartOf(payload, 116, 16);
      assert ReadTransfer(data) == TransferInfo(FromBigEndian(payload[17..33]), payload[33..65],
                                                FromBigEndian(payload[65..67]), payload[67..99],
                                                FromBigEndian(payload[99..101]), FromBigEndian(payload[117..133]));
    }
  }

  lemma PartOf(payload: seq<byte>, index: nat, width: nat)
    requires 1 + index + width <= |payload|
    ensures Slice(payload[1..], index, width) == payload[1 + index..1 + index + width]
  {}

  /** The token bridge writes a cw20 contract as its padded address, and a native denomination as its
      text behind a leading 1 and zeros. Both are read back. */
  lemma BridgedTokens(host: Host, address: seq<byte>, denom: seq<byte>, padding: nat)
    requires |address| == 20 && padding + |denom| == 31 && forall c :: c in denom ==> c != 0
    ensures BridgedInfo(host, ExtendTo32(address)) == Ok(Token(host.humanize(address)))
    ensures var text := host.utf8(denom);
            BridgedInfo(host, [1] + Zeros(padding) + denom)
              == if text.None? then Err(Generic("invalid utf8")) else Ok(NativeToken(text.value))
  {
    assert Slice(ExtendTo32(address), 12, 20) == address;
    var token := [1] + Zeros(padding) + denom;
    assert token[1..] == Zeros(padding) + denom;
    ZerosDropped(padding, denom);
  }

  function Zeros(n: nat): (bytes: seq<byte>)
    ensures |bytes| == n
  {
    if n == 0 then [] else [0] + Zeros(n - 1)
  }

  lemma {:induction false} ZerosDropped(n: nat, denom: seq<byte>)
    requires forall c :: c in denom ==> c != 0
    ensures NonzeroBytes(Zeros(n) + denom) == denom
  {
    if n > 0 {
      ZerosDropped(n - 1, denom);
      assert (Zeros(n) + denom)[1..] == Zeros(n - 1) + denom;
    } else {
      assert Zeros(0) + denom == denom;
      NothingDropped(denom);
    }
  }

  lemma {:induction false} NothingDropped(denom: seq<byte>)
    requires forall c :: c in denom ==> c != 0
    ensures NonzeroBytes(denom) == denom
  {
    if |denom| > 0 {
      assert denom[0] in denom && forall c :: c in denom[1..] ==> c in denom;
      NothingDropped(denom[1..]);
    }
  }
}
