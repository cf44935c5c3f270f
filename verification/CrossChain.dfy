/** Runs of the manager beside the token bridge: instructions are processed, transfers are
    submitted by the manager or by anyone else, and users call the manager, in any order. */
module CrossChain {
  import opened Results
  import opened Bytes
  import opened Instruction
  import opened TokenUtil
  import opened Manager
  import OutgoingTransfer

  const SUBMIT_VAA_ID: nat := 0
  const ALREADY_EXECUTED := "Generic error: VaaAlreadyExecuted: execute wasm contract failed"

  /** A call that a Terra user makes, with the assets it lists. */
  datatype Carried = Carried(call: Call, assets: seq<Asset>)

  /** The manager's storage and holdings, the transfers that the bridge executed, the instructions
      that committed, the transfers whose assets were handed to a strategy, and the calls of Terra
      users that committed. */
  datatype World = World(manager: State, balance: map<AssetInfo, int>, executed: seq<Vaa>, committed: seq<Vaa>,
                         forwarded: seq<Vaa>, calls: seq<Carried>) {

    function Held(info: AssetInfo): int {
      if info in balance then balance[info] else 0
    }

    function Gain(info: AssetInfo, amount: nat): World {
      this.(balance := balance[info := Held(info) + amount])
    }

    function Spend(info: AssetInfo, amount: nat): World {
      this.(balance := balance[info := Held(info) - amount])
    }

    /** The native funds of a call arrive before it runs. */
    function Receive(call: Call): World {
      this.(balance := map info | info in balance.Keys + (set denom | denom in call.funds :: NativeToken(denom))
                         :: Held(info) + SentOf(call, info))
    }
  }

  function SentOf(call: Call, info: AssetInfo): nat {
    if info.NativeToken? then call.Sent(info.denom) else 0
  }

  datatype Event =
    | Instruct(verify: Verify, instruction: seq<byte>, raws: seq<seq<byte>>, accepts: bool)
    | Submit(vaa: Vaa)
    | Local(command: Command, accepts: bool)
    | Send(config: OutgoingTransfer.Config, carried: Carried, next: u64, recipient: Recipient, accepts: bool)

  // ----- The bridge. -----

  ghost predicate Known(host: Host, w: World, vaa: Vaa) {
    exists v :: v in w.executed && host.hash(v) == host.hash(vaa)
  }

  /** Emitters that the token bridge has registered, by chain. */
  type Registered = map<u16, seq<byte>>

  predicate Genuine(registered: Registered, vaa: Vaa) {
    vaa.emitterChain in registered && registered[vaa.emitterChain] == vaa.emitterAddress
  }

  function Credit(host: Host, w: World, vaa: Vaa): World {
    var asset := TransferAsset(host, vaa.payload);
    var noted := w.(executed := w.executed + [vaa]);
    if asset.Ok? then noted.Gain(asset.value.info, asset.value.amount) else noted
  }

  /** Executes a transfer once; a failure carries the error text that the submitter sees. */
  ghost function Submitted(host: Host, registered: Registered, w: World, vaa: Vaa): Result<World> {
    if Known(host, w, vaa) then Err(Generic(ALREADY_EXECUTED))
    else if !Genuine(registered, vaa) then Err(Generic("unregistered emitter"))
    else Ok(Credit(host, w, vaa))
  }

  /** The reply to a submission: success is not replied to, and a transfer that was executed
      before counts as success. */
  function Reply(id: nat, result: Result<World>): Result<()> {
    if id != SUBMIT_VAA_ID then Err(Generic("unexpected reply id"))
    else match result
      case Err(error) => if error == Generic(ALREADY_EXECUTED) then Ok(()) else Err(error)
      case Ok(_) => Err(Generic("unexpected success reply msg"))
  }

  function SpendCoins(w: World, coins: seq<Coin>): World {
    if |coins| == 0 then w
    else
      var last := coins[|coins| - 1];
      SpendCoins(w, coins[..|coins| - 1]).Spend(NativeToken(last.denom), last.amount)
  }

  ghost function Deliver(host: Host, registered: Registered, verify: Verify, accepts: bool, w: World,
                         message: Message): Result<World> {
    match message
    case SubmitVaa(raw) =>
      var vaa :- Verified(verify, raw);
      var submitted := Submitted(host, registered, w, vaa);
      if submitted.Ok? then submitted
      else
        var _ :- Reply(SUBMIT_VAA_ID, submitted);
        Ok(w)
    case TransferFrom(token, amount) => if accepts then Ok(w.Gain(Token(token), amount)) else Err(Panic)
    case Transfer(token, _, amount) => Ok(w.Spend(Token(token), amount))
    case BankSend(_, coins) => Ok(SpendCoins(w, coins))
    case PerformAction(_, _, _, _, coins) => if accepts then Ok(SpendCoins(w, coins)) else Err(Panic)
    case DepositTokens(coin) => Ok(w.Spend(NativeToken(coin.denom), coin.amount))
    case InitiateTransfer(asset, _, _) =>
      if !accepts then Err(Panic)
      else if asset.info.Token? then Ok(w.Spend(asset.info, asset.amount))
      else Ok(w)
    case _ => Ok(w)
  }

  ghost function DeliverAll(host: Host, registered: Registered, verify: Verify, accepts: bool, w: World,
                            messages: seq<Message>)
    : Result<World>
  {
    if |messages| == 0 then Ok(w)
    else
      var before :- DeliverAll(host, registered, verify, accepts, w, messages[..|messages| - 1]);
      Deliver(host, registered, verify, accepts, before, messages[|messages| - 1])
  }

  /** The messages behind raw bytes that verify. */
  function Signed(verify: Verify, raws: seq<seq<byte>>): seq<Vaa> {
    if |raws| == 0 then []
    else
      var last := verify(raws[|raws| - 1]);
      Signed(verify, raws[..|raws| - 1]) + (if last.Some? then [last.value] else [])
  }

  // ----- Transactions. -----

  /** Processing an instruction, with every message it sends, in one transaction. */
  ghost function Instructed(host: Host, registered: Registered, w: World, verify: Verify, instruction: seq<byte>,
                            raws: seq<seq<byte>>, accepts: bool): Result<World>
  {
    var handled :- Processed(host, verify, w.manager, instruction, raws);
    var vaa :- Verified(verify, instruction);
    var done :- DeliverAll(host, registered, verify, accepts, w.(manager := handled.0), handled.1);
    Ok(done.(committed := done.committed + [vaa], forwarded := done.forwarded + Signed(verify, raws)))
  }

  /** What a user's command brings along; configuring brings nothing. */
  function Brings(command: Command): Option<Carried> {
    match command
    case Create(_, call, _, _, assets) => Some(Carried(call, assets))
    case Act(_, call, _, _, assets) => Some(Carried(call, assets))
    case _ => None
  }

  function NothingSigned(raw: seq<byte>): Option<Vaa> {
    None
  }

  /** A user's call that leaves `s` in storage and sends `messages`, in one transaction. */
  ghost function Called(host: Host, registered: Registered, w: World, s: State, carried: Carried,
                        messages: seq<Message>, accepts: bool): Result<World>
  {
    var start := w.(manager := s).Receive(carried.call);
    var done :- DeliverAll(host, registered, NothingSigned, accepts, start, messages);
    Ok(done.(calls := done.calls + [carried]))
  }

  /** A command other than processing an instruction, with every message it sends. */
  ghost function Locally(host: Host, registered: Registered, w: World, command: Command, accepts: bool)
    : Result<World>
    requires !command.Process?
  {
    var handled :- Handle(host, w.manager, command);
    match Brings(command)
    case None => Ok(w.(manager := handled.0))
    case Some(carried) => Called(host, registered, w, handled.0, carried, handled.1, accepts)
  }

  /** A transfer out of Terra or on it, with every message it sends. */
  ghost function SentOut(host: Host, registered: Registered, w: World, config: OutgoingTransfer.Config,
                         carried: Carried, next: u64, recipient: Recipient, accepts: bool): Result<World>
  {
    var messages :- OutgoingTransfer.Outgoing(host.json, config, carried.call, next, carried.assets, recipient);
    Called(host, registered, w, w.manager, carried, messages, accepts)
  }

  ghost function Step(host: Host, registered: Registered, w: World, event: Event): World {
    match event
    case Instruct(verify, instruction, raws, accepts) =>
      var done := Instructed(host, registered, w, verify, instruction, raws, accepts);
      if done.Ok? then done.value else w
    case Submit(vaa) =>
      var done := Submitted(host, registered, w, vaa);
      if done.Ok? then done.value else w
    case Local(command, accepts) =>
      if command.Process? then w
      else
        var done := Locally(host, registered, w, command, accepts);
        if done.Ok? then done.value else w
    case Send(config, carried, next, recipient, accepts) =>
      var done := SentOut(host, registered, w, config, carried, next, recipient, accepts);
      if done.Ok? then done.value else w
  }

  ghost function Run(host: Host, registered: Registered, w: World, events: seq<Event>): World {
    if |events| == 0 then w
    else Step(host, registered, Run(host, registered, w, events[..|events| - 1]), events[|events| - 1])
  }

  // ----- Each instruction commits at most once. -----

  predicate DistinctHashes(host: Host, vaas: seq<Vaa>) {
    forall i, j :: 0 <= i < j < |vaas| ==> host.hash(vaas[i]) != host.hash(vaas[j])
  }

  ghost predicate CommittedOnce(host: Host, w: World) {
    && DistinctHashes(host, w.committed)
    && forall v :: v in w.committed ==> host.hash(v) in w.manager.completed
  }

  lemma {:induction false} DeliverKeeps(host: Host, registered: Registered, verify: Verify, accepts: bool, w: World,
                                        messages: seq<Message>)
    requires DeliverAll(host, registered, verify, accepts, w, messages).Ok?
    ensures var done := DeliverAll(host, registered, verify, accepts, w, messages).value;
            && done.manager == w.manager && done.committed == w.committed && done.forwarded == w.forwarded
            && done.calls == w.calls
  {
    if |messages| > 0 {
      DeliverKeeps(host, registered, verify, accepts, w, messages[..|messages| - 1]);
      var before := DeliverAll(host, registered, verify, accepts, w, messages[..|messages| - 1]).value;
      var last := messages[|messages| - 1];
      if last.PerformAction? || last.BankSend? {
        SpendKeeps(before, last.coins);
      }
    }
  }

  lemma {:induction false} SpendKeeps(w: World, coins: seq<Coin>)
    ensures SpendCoins(w, coins) == w.(balance := SpendCoins(w, coins).balance)
    ensures forall info: AssetInfo ::
              SpendCoins(w, coins).Held(info)
              == w.Held(info) - (if info.NativeToken? then TotalCoins(coins, info.denom) else 0)
  {
    if |coins| > 0 {
      SpendKeeps(w, coins[..|coins| - 1]);
    }
  }

  /** What an instruction that is processed leaves in storage. */
  lemma ProcessedMarks(host: Host, verify: Verify, s: State, instruction: seq<byte>, raws: seq<seq<byte>>)
    requires Processed(host, verify, s, instruction, raws).Ok?
    ensures verify(instruction).Some?
    ensures var h := host.hash(verify(instruction).value);
            h !in s.completed && Processed(host, verify, s, instruction, raws).value.0.completed == s.completed + {h}
  {}

  /** Nothing but processing touches the marks. */
  lemma LocalKeepsMarks(host: Host, s: State, command: Command)
    requires !command.Process?
    ensures Committed(host, s, command).completed == s.completed
  {}

  lemma CalledCommitsOnce(host: Host, registered: Registered, w: World, s: State, carried: Carried,
                          messages: seq<Message>, accepts: bool)
    requires CommittedOnce(host, w) && s.completed == w.manager.completed
    requires Called(host, registered, w, s, carried, messages, accepts).Ok?
    ensures CommittedOnce(host, Called(host, registered, w, s, carried, messages, accepts).value)
  {
    var start := w.(manager := s).Receive(carried.call);
    DeliverKeeps(host, registered, NothingSigned, accepts, start, messages);
  }

  lemma InstructCommitsOnce(host: Host, registered: Registered, w: World, verify: Verify, instruction: seq<byte>,
                            raws: seq<seq<byte>>, accepts: bool)
    requires CommittedOnce(host, w) && Instructed(host, registered, w, verify, instruction, raws, accepts).Ok?
    ensures CommittedOnce(host, Instructed(host, registered, w, verify, instruction, raws, accepts).value)
  {
    var handled := Processed(host, verify, w.manager, instruction, raws).value;
    ProcessedMarks(host, verify, w.manager, instruction, raws);
    DeliverKeeps(host, registered, verify, accepts, w.(manager := handled.0), handled.1);
  }

  lemma StepCommitsOnce(host: Host, registered: Registered, w: World, event: Event)
    requires CommittedOnce(host, w)
    ensures CommittedOnce(host, Step(host, registered, w, event))
  {
    match event
    case Instruct(verify, instruction, raws, accepts) =>
      if Instructed(host, registered, w, verify, instruction, raws, accepts).Ok? {
        InstructCommitsOnce(host, registered, w, verify, instruction, raws, accepts);
      }
    case Submit(_) =>
    case Local(command, accepts) =>
      if !command.Process? && Locally(host, registered, w, command, accepts).Ok? {
        LocalKeepsMarks(host, w.manager, command);
        var handled := Handle(host, w.manager, command).value;
        if Brings(command).Some? {
          CalledCommitsOnce(host, registered, w, handled.0, Brings(command).value, handled.1, accepts);
        }
      }
    case Send(config, carried, next, recipient, accepts) =>
      if SentOut(host, registered, w, config, carried, next, recipient, accepts).Ok? {
        var messages := OutgoingTransfer.Outgoing(host.json, config, carried.call, next, carried.assets, recipient);
        CalledCommitsOnce(host, registered, w, w.manager, carried, messages.value, accepts);
      }
  }

  /** Over every run, no two committed instructions have the same hash. */
  lemma {:induction false} NoReplay(host: Host, registered: Registered, w: World, events: seq<Event>)
    requires CommittedOnce(host, w)
    ensures CommittedOnce(host, Run(host, registered, w, events))
  {
    if |events| > 0 {
      NoReplay(host, registered, w, events[..|events| - 1]);
      StepCommitsOnce(host, registered, Run(host, registered, w, events[..|events| - 1]), events[|events| - 1]);
    }
  }

  // ----- Bridged assets are conserved and forwarded at most once. -----

  function CreditOf(host: Host, vaa: Vaa, info: AssetInfo): nat {
    var asset := TransferAsset(host, vaa.payload);
    if asset.Ok? && asset.value.info == info then asset.value.amount else 0
  }

  function Credits(host: Host, vaas: seq<Vaa>, info: AssetInfo): nat {
    if |vaas| == 0 then 0
    else Credits(host, vaas[..|vaas| - 1], info) + CreditOf(host, vaas[|vaas| - 1], info)
  }

  /** The instruction `i` lists the transfer `v`. */
  predicate Lists(json: Json, i: Vaa, v: Vaa) {
    var decoded := Decoded(json, i.payload);
    && decoded.Ok? && !decoded.value.SingleTokenDisbursement?
    && i.emitterChain == v.emitterChain && v.sequence in decoded.value.info.sequences
  }

  predicate DistinctSequences(sequences: seq<u64>) {
    forall i, j :: 0 <= i < j < |sequences| ==> sequences[i] != sequences[j]
  }

  /** What managers on other chains promise: a transfer is listed by one instruction, and once in it. */
  ghost predicate ListedOnce(json: Json, issued: iset<Vaa>) {
    && (forall i, j, v :: i in issued && j in issued && Lists(json, i, v) && Lists(json, j, v) ==> i == j)
    && forall i :: i in issued && ReadsAsStrategy(json, i) ==>
         DistinctSequences(Decoded(json, i.payload).value.info.sequences)
  }

  /** The message reads as one of the two instructions for a strategy. */
  predicate ReadsAsStrategy(json: Json, i: Vaa) {
    Decoded(json, i.payload).Ok? && !Decoded(json, i.payload).value.SingleTokenDisbursement?
  }

  /** Only issued instructions verify. */
  ghost predicate FromIssued(issued: iset<Vaa>, event: Event) {
    event.Instruct? ==> (event.verify(event.instruction).Some? ==> event.verify(event.instruction).value in issued)
  }

  ghost predicate Collisionless(host: Host) {
    forall v, w :: host.hash(v) == host.hash(w) ==> v == w
  }

  predicate Distinct(vaas: seq<Vaa>) {
    forall i, j :: 0 <= i < j < |vaas| ==> vaas[i] != vaas[j]
  }

  /** What a user's call leaves behind: of a native token it brings one share and forwards one
      for every time that it lists the token; cw20 tokens are pulled and forwarded alike. */
  function Surplus(carried: Carried, info: AssetInfo): int {
    SentOf(carried.call, info) - Listings(carried.assets, info) * SentOf(carried.call, info)
  }

  function LeftOver(calls: seq<Carried>, info: AssetInfo): int {
    if |calls| == 0 then 0 else LeftOver(calls[..|calls| - 1], info) + Surplus(calls[|calls| - 1], info)
  }

  ghost predicate Balanced(host: Host, w: World) {
    forall info ::
      w.Held(info) == Credits(host, w.executed, info) - Credits(host, w.forwarded, info) + LeftOver(w.calls, info)
  }

  ghost predicate Sound(host: Host, issued: iset<Vaa>, w: World) {
    && CommittedOnce(host, w)
    && Balanced(host, w)
    && Distinct(w.forwarded) && (forall v :: v in w.forwarded ==> v in w.executed)
    && (forall i :: i in w.committed ==> i in issued)
    && forall v :: v in w.forwarded ==> exists i :: i in w.committed && Lists(host.json, i, v)
  }

  lemma {:induction false} CreditsConcat(host: Host, a: seq<Vaa>, b: seq<Vaa>, info: AssetInfo)
    ensures Credits(host, a + b, info) == Credits(host, a, info) + Credits(host, b, info)
    decreases |b|
  {
    if |b| == 0 {
      assert a + b == a;
    } else {
      CreditsConcat(host, a, b[..|b| - 1], info);
      assert (a + b)[..|a + b| - 1] == a + b[..|b| - 1];
    }
  }

  lemma CreditsOne(host: Host, vaa: Vaa, info: AssetInfo)
    ensures Credits(host, [vaa], info) == CreditOf(host, vaa, info)
  {
    assert [vaa][..0] == [];
  }

  /** A list without repetitions is worth no more than a list that holds all of it. */
  lemma {:induction false} PartWorthLess(host: Host, part: seq<Vaa>, whole: seq<Vaa>, info: AssetInfo)
    requires Distinct(part) && forall v :: v in part ==> v in whole
    ensures Credits(host, part, info) <= Credits(host, whole, info)
  {
    if |part| > 0 {
      var front, last := part[..|part| - 1], part[|part| - 1];
      assert last in whole;
      var k :| 0 <= k < |whole| && whole[k] == last;
      var a, b := whole[..k], whole[k + 1..];
      assert whole == a + [last] + b;
      forall v | v in front
        ensures v in a + b
      {
        assert v in whole && v != last;
      }
      PartWorthLess(host, front, a + b, info);
      CreditsConcat(host, a, b, info);
      CreditsConcat(host, a + [last], b, info);
      CreditsConcat(host, a, [last], info);
      CreditsOne(host, last, info);
    }
  }

  ghost predicate Accounted(host: Host, w: World, done: World) {
    forall info ::
      done.Held(info) - Credits(host, done.executed, info) == w.Held(info) - Credits(host, w.executed, info)
  }

  lemma CreditAccounted(host: Host, w: World, vaa: Vaa)
    ensures Accounted(host, w, Credit(host, w, vaa))
  {
    forall info
      ensures Credit(host, w, vaa).Held(info) == w.Held(info) + CreditOf(host, vaa, info)
      ensures Credits(host, w.executed + [vaa], info) == Credits(host, w.executed, info) + CreditOf(host, vaa, info)
    {
      CreditsConcat(host, w.executed, [vaa], info);
      CreditsOne(host, vaa, info);
    }
  }

  lemma SubmitOne(host: Host, registered: Registered, verify: Verify, accepts: bool, w: World, raw: seq<byte>)
    requires Collisionless(host)
    ensures Deliver(host, registered, verify, accepts, w, SubmitVaa(raw)).Ok?
       <==> Submittable(host, registered, verify, w, raw)
    ensures Submittable(host, registered, verify, w, raw) ==>
              var done := Deliver(host, registered, verify, accepts, w, SubmitVaa(raw)).value;
              Accounted(host, w, done) && w.executed <= done.executed && verify(raw).value in done.executed
  {
    if verify(raw).Some? {
      CreditAccounted(host, w, verify(raw).value);
    }
  }

  lemma SubmitsLast(host: Host, registered: Registered, verify: Verify, accepts: bool, w: World, raws: seq<seq<byte>>)
    requires |raws| > 0
    ensures var front := DeliverAll(host, registered, verify, accepts, w, Submits(raws[..|raws| - 1]));
            DeliverAll(host, registered, verify, accepts, w, Submits(raws))
              == if front.Err? then front
                 else Deliver(host, registered, verify, accepts, front.value, SubmitVaa(raws[|raws| - 1]))
  {
    var messages := Submits(raws);
    assert messages[..|messages| - 1] == Submits(raws[..|raws| - 1]);
  }

  /** Submissions that all succeed, or were executed before, leave every transfer executed and
      credited exactly once. */
  lemma {:induction false} SubmitsDelivered(host: Host, registered: Registered, verify: Verify, accepts: bool, w: World,
                                            raws: seq<seq<byte>>)
    requires Collisionless(host)
    requires DeliverAll(host, registered, verify, accepts, w, Submits(raws)).Ok?
    ensures var done := DeliverAll(host, registered, verify, accepts, w, Submits(raws)).value;
            && Accounted(host, w, done) && w.executed <= done.executed
            && forall v :: v in Signed(verify, raws) ==> v in done.executed
  {
    if |raws| > 0 {
      var n := |raws| - 1;
      SubmitsLast(host, registered, verify, accepts, w, raws);
      SubmitsDelivered(host, registered, verify, accepts, w, raws[..n]);
      var before := DeliverAll(host, registered, verify, accepts, w, Submits(raws[..n])).value;
      SubmitOne(host, registered, verify, accepts, before, raws[n]);
    }
  }

  lemma SpendDelivered(host: Host, registered: Registered, verify: Verify, accepts: bool, w: World, message: Message)
    requires Spends(message) && Deliver(host, registered, verify, accepts, w, message).Ok?
    ensures var done := Deliver(host, registered, verify, accepts, w, message).value;
            done.executed == w.executed && forall info :: done.Held(info) == w.Held(info) - PaidBy(message, info)
  {
    if message.PerformAction? || message.BankSend? {
      SpendKeeps(w, message.coins);
    }
  }

  lemma {:induction false} SpendsDelivered(host: Host, registered: Registered, verify: Verify, accepts: bool, w: World,
                                           messages: seq<Message>)
    requires forall message :: message in messages ==> Spends(message)
    requires DeliverAll(host, registered, verify, accepts, w, messages).Ok?
    ensures var done := DeliverAll(host, registered, verify, accepts, w, messages).value;
            done.executed == w.executed && forall info :: done.Held(info) == w.Held(info) - Paid(messages, info)
  {
    if |messages| > 0 {
      var front, last := messages[..|messages| - 1], messages[|messages| - 1];
      assert Spends(last);
      SpendsDelivered(host, registered, verify, accepts, w, front);
      var before := DeliverAll(host, registered, verify, accepts, w, front).value;
      SpendDelivered(host, registered, verify, accepts, before, last);
    }
  }

  lemma {:induction false} PullsDelivered(host: Host, registered: Registered, verify: Verify, accepts: bool, w: World,
                                          assets: seq<Asset>)
    requires DeliverAll(host, registered, verify, accepts, w, Pulls(assets)).Ok?
    ensures var done := DeliverAll(host, registered, verify, accepts, w, Pulls(assets)).value;
            && done.executed == w.executed
            && forall info :: done.Held(info) == w.Held(info) + (if info.Token? then Total(assets, info) else 0)
  {
    if |assets| > 0 {
      var front, last := assets[..|assets| - 1], assets[|assets| - 1];
      if last.info.Token? {
        assert Pulls(assets)[..|Pulls(assets)| - 1] == Pulls(front);
      } else {
        assert Pulls(assets) == Pulls(front);
      }
      PullsDelivered(host, registered, verify, accepts, w, front);
    }
  }

  lemma {:induction false} DeliverConcat(host: Host, registered: Registered, verify: Verify, accepts: bool, w: World,
                                         x: seq<Message>, y: seq<Message>)
    ensures var first := DeliverAll(host, registered, verify, accepts, w, x);
            DeliverAll(host, registered, verify, accepts, w, x + y)
              == if first.Ok? then DeliverAll(host, registered, verify, accepts, first.value, y) else first
    decreases |y|
  {
    if |y| == 0 {
      assert x + y == x;
    } else {
      DeliverConcat(host, registered, verify, accepts, w, x, y[..|y| - 1]);
      assert (x + y)[..|x + y| - 1] == x + y[..|y| - 1];
    }
  }

  /** The strategy is handed exactly the assets it is told about, after pulling those that a
      caller brings along. */
  lemma HandsOver(s: State, call: Option<Call>, position: Position, action: Action, assets: seq<Asset>)
    returns (rest: seq<Message>)
    requires StrategyMessages(s, call, position, action, assets).Ok?
    ensures StrategyMessages(s, call, position, action, assets).value
         == (if call.Some? then Pulls(assets) else []) + rest
    ensures forall message :: message in rest ==> Spends(message)
    ensures forall info :: Paid(rest, info) == Total(assets, info)
  {
    var manager := s.strategies[s.locations[position].id];
    var transfers := TransfersOf(assets, manager);
    var perform := PerformAction(manager, position, action, assets, CoinsOf(assets));
    rest := transfers + [perform];
    OnlyTransfers(assets, manager);
    forall info
      ensures Paid(rest, info) == Total(assets, info)
    {
      HandsOverEach(manager, assets, perform, info);
    }
  }

  /** An instruction hands over what it lists, which is here already. */
  lemma HandsOverListed(s: State, position: Position, action: Action, assets: seq<Asset>)
    returns (messages: seq<Message>)
    requires StrategyMessages(s, None, position, action, assets).Ok?
    ensures StrategyMessages(s, None, position, action, assets) == Ok(messages)
    ensures forall message :: message in messages ==> Spends(message)
    ensures forall info :: Paid(messages, info) == Total(assets, info)
  {
    messages := HandsOver(s, None, position, action, assets);
    assert [] + messages == messages;
  }

  /** A caller's own call pays out of a native token what was sent of it, as often as the list
      names it, and of a cw20 token what it pulled. */
  lemma HandsOverWhatCame(s: State, call: Call, position: Position, action: Action, assets: seq<Asset>)
    requires StrategyMessages(s, Some(call), position, action, assets).Ok?
    ensures var messages := StrategyMessages(s, Some(call), position, action, assets).value;
            && (forall denom :: Paid(messages, NativeToken(denom))
                                == Listings(assets, NativeToken(denom)) * call.Sent(denom))
            && forall token :: Paid(messages, Token(token)) == Pulled(Pulls(assets), token)
  {
    var rest := HandsOver(s, Some(call), position, action, assets);
    forall info
      ensures Paid(Pulls(assets) + rest, info) == Total(assets, info)
    {
      PaidConcat(Pulls(assets), rest, info);
      PullsPayNothing(assets, info);
    }
    forall denom
      ensures Total(assets, NativeToken(denom)) == Listings(assets, NativeToken(denom)) * call.Sent(denom)
    {
      NativeTotal(call, assets, denom);
    }
    forall token
      ensures Total(assets, Token(token)) == Pulled(Pulls(assets), token)
    {
      PullsTotal(assets, token);
    }
  }

  lemma HandsOverEach(manager: string, assets: seq<Asset>, perform: Message, info: AssetInfo)
    requires perform.PerformAction? && perform.coins == CoinsOf(assets)
    ensures Paid(TransfersOf(assets, manager) + [perform], info) == Total(assets, info)
  {
    PaidConcat(TransfersOf(assets, manager), [perform], info);
    PaidOne(perform, info);
    TransfersTotal(assets, manager, info);
    if info.NativeToken? {
      CoinsTotal(assets, info.denom);
    }
  }

  lemma ListedTransferSigned(host: Host, verify: Verify, chain: u16, sequence: u64, raw: seq<byte>)
    requires ListedTransfer(host, verify, chain, sequence, raw).Ok?
    ensures verify(raw).Some? && verify(raw).value.emitterChain == chain && verify(raw).value.sequence == sequence
    ensures TransferAsset(host, verify(raw).value.payload) == ListedTransfer(host, verify, chain, sequence, raw)
  {}

  lemma ListedSplit(host: Host, verify: Verify, chain: u16, sequences: seq<u64>, raws: seq<seq<byte>>)
    requires 0 < |sequences| == |raws| && ListedTransfers(host, verify, chain, sequences, raws).Ok?
    ensures var n := |raws| - 1;
            && ListedTransfers(host, verify, chain, sequences[..n], raws[..n]).Ok?
            && ListedTransfer(host, verify, chain, sequences[n], raws[n]).Ok?
            && ListedTransfers(host, verify, chain, sequences, raws).value
               == ListedTransfers(host, verify, chain, sequences[..n], raws[..n]).value
                  + [ListedTransfer(host, verify, chain, sequences[n], raws[n]).value]
  {}

  lemma {:induction false} ListedWorth(host: Host, verify: Verify, chain: u16, sequences: seq<u64>,
                                       raws: seq<seq<byte>>, info: AssetInfo)
    requires |sequences| == |raws| && ListedTransfers(host, verify, chain, sequences, raws).Ok?
    ensures Total(ListedTransfers(host, verify, chain, sequences, raws).value, info)
         == Credits(host, Signed(verify, raws), info)
  {
    if |raws| > 0 {
      var n := |raws| - 1;
      ListedSplit(host, verify, chain, sequences, raws);
      ListedTransferSigned(host, verify, chain, sequences[n], raws[n]);
      ListedWorth(host, verify, chain, sequences[..n], raws[..n], info);
      var assets := ListedTransfers(host, verify, chain, sequences, raws).value;
      assert assets[..|assets| - 1] == ListedTransfers(host, verify, chain, sequences[..n], raws[..n]).value;
      CreditsConcat(host, Signed(verify, raws[..n]), [verify(raws[n]).value], info);
      CreditsOne(host, verify(raws[n]).value, info);
    }
  }

  lemma {:induction false} ListedLength(host: Host, verify: Verify, chain: u16, sequences: seq<u64>,
                                        raws: seq<seq<byte>>)
    requires |sequences| == |raws| && ListedTransfers(host, verify, chain, sequences, raws).Ok?
    ensures |ListedTransfers(host, verify, chain, sequences, raws).value| == |raws|
  {
    if |raws| > 0 {
      ListedSplit(host, verify, chain, sequences, raws);
      ListedLength(host, verify, chain, sequences[..|raws| - 1], raws[..|raws| - 1]);
    }
  }

  /** The messages come from `chain` and carry `sequences`, in order. */
  predicate Carries(vaas: seq<Vaa>, chain: u16, sequences: seq<u64>) {
    && |vaas| == |sequences|
    && forall k :: 0 <= k < |vaas| ==> vaas[k].emitterChain == chain && vaas[k].sequence == sequences[k]
  }

  lemma CarriesOneMore(vaas: seq<Vaa>, chain: u16, sequences: seq<u64>, last: Vaa)
    requires |sequences| == |vaas| + 1 && Carries(vaas, chain, sequences[..|vaas|])
    requires last.emitterChain == chain && last.sequence == sequences[|vaas|]
    ensures Carries(vaas + [last], chain, sequences)
  {}

  lemma SignedLast(verify: Verify, raws: seq<seq<byte>>)
    requires 0 < |raws| && verify(raws[|raws| - 1]).Some?
    ensures Signed(verify, raws) == Signed(verify, raws[..|raws| - 1]) + [verify(raws[|raws| - 1]).value]
  {}

  lemma {:induction false} ListedSequences(host: Host, verify: Verify, chain: u16, sequences: seq<u64>,
                                           raws: seq<seq<byte>>)
    requires |sequences| == |raws| && ListedTransfers(host, verify, chain, sequences, raws).Ok?
    ensures Carries(Signed(verify, raws), chain, sequences)
  {
    if |raws| > 0 {
      var n := |raws| - 1;
      ListedSplit(host, verify, chain, sequences, raws);
      ListedTransferSigned(host, verify, chain, sequences[n], raws[n]);
      ListedSequences(host, verify, chain, sequences[..n], raws[..n]);
      SignedLast(verify, raws);
      CarriesOneMore(Signed(verify, raws[..n]), chain, sequences, verify(raws[n]).value);
    }
  }

  /** Transfers that match their listing carry the sequences listed and bring the assets counted. */
  lemma ListedTransfersSigned(host: Host, verify: Verify, chain: u16, sequences: seq<u64>, raws: seq<seq<byte>>)
    requires |sequences| == |raws| && ListedTransfers(host, verify, chain, sequences, raws).Ok?
    ensures var vaas := Signed(verify, raws);
            && |ListedTransfers(host, verify, chain, sequences, raws).value| == |raws|
            && Carries(vaas, chain, sequences)
            && forall info ::
                 Total(ListedTransfers(host, verify, chain, sequences, raws).value, info) == Credits(host, vaas, info)
  {
    ListedLength(host, verify, chain, sequences, raws);
    ListedSequences(host, verify, chain, sequences, raws);
    forall info
      ensures Total(ListedTransfers(host, verify, chain, sequences, raws).value, info)
           == Credits(host, Signed(verify, raws), info)
    {
      ListedWorth(host, verify, chain, sequences, raws, info);
    }
  }

  /** The messages of a processed instruction: submit its transfers, then hand their assets over. */
  lemma ProcessedParts(host: Host, verify: Verify, s: State, instruction: seq<byte>, raws: seq<seq<byte>>)
    returns (messages: seq<Message>, sequences: seq<u64>)
    requires Processed(host, verify, s, instruction, raws).Ok?
    ensures Processed(host, verify, s, instruction, raws).value.1 == Submits(raws) + messages
    ensures forall message :: message in messages ==> Spends(message)
    ensures forall info :: Paid(messages, info) == Credits(host, Signed(verify, raws), info)
    ensures verify(instruction).Some?
    ensures Decoded(host.json, verify(instruction).value.payload).Ok?
    ensures !Decoded(host.json, verify(instruction).value.payload).value.SingleTokenDisbursement?
    ensures sequences == Decoded(host.json, verify(instruction).value.payload).value.info.sequences
    ensures Carries(Signed(verify, raws), verify(instruction).value.emitterChain, sequences)
  {
    var vaa := verify(instruction).value;
    var i := Decoded(host.json, vaa.payload).value;
    sequences := i.info.sequences;
    ListedTransfersSigned(host, verify, vaa.emitterChain, sequences, raws);
    var assets := ListedTransfers(host, verify, vaa.emitterChain, sequences, raws).value;
    var marked := s.(completed := s.completed + {host.hash(vaa)});
    var position := Position(vaa.emitterChain, i.info.positionId);
    match i {
      case PositionOpen(_, strategyId, data) =>
        var located := marked.(locations := marked.locations[position := TerraStrategy(strategyId)]);
        messages := HandsOverListed(located, position, OpenPosition(data), assets);
      case ExecuteStrategy(_, action) =>
        messages := HandsOverListed(marked, position, action, assets);
    }
  }

  /** The transfers of a newly admitted instruction are distinct and were not forwarded before. */
  lemma FreshTransfers(host: Host, issued: iset<Vaa>, w: World, i: Vaa, sequences: seq<u64>, vaas: seq<Vaa>)
    requires ListedOnce(host.json, issued) && Sound(host, issued, w) && i in issued
    requires host.hash(i) !in w.manager.completed
    requires Decoded(host.json, i.payload).Ok? && !Decoded(host.json, i.payload).value.SingleTokenDisbursement?
    requires sequences == Decoded(host.json, i.payload).value.info.sequences
    requires Carries(vaas, i.emitterChain, sequences)
    ensures Distinct(w.forwarded + vaas)
    ensures forall v :: v in vaas ==> Lists(host.json, i, v)
  {
    forall v | v in vaas
      ensures Lists(host.json, i, v) && v !in w.forwarded
    {
      var k :| 0 <= k < |vaas| && vaas[k] == v;
      assert sequences[k] in sequences;
      if v in w.forwarded {
        ForwardedMeansDone(host, issued, w, i, v);
      }
    }
    assert DistinctSequences(sequences);
    DistinctJoin(w.forwarded, vaas, sequences);
  }

  lemma ForwardedMeansDone(host: Host, issued: iset<Vaa>, w: World, i: Vaa, v: Vaa)
    requires ListedOnce(host.json, issued) && Sound(host, issued, w) && i in issued
    requires Lists(host.json, i, v) && v in w.forwarded
    ensures host.hash(i) in w.manager.completed
  {
    var j :| j in w.committed && Lists(host.json, j, v);
    assert i == j;
  }

  lemma DistinctJoin(a: seq<Vaa>, b: seq<Vaa>, sequences: seq<u64>)
    requires Distinct(a) && DistinctSequences(sequences) && |b| == |sequences|
    requires forall k :: 0 <= k < |b| ==> b[k].sequence == sequences[k] && b[k] !in a
    ensures Distinct(a + b)
  {}

  /** Submitting transfers and then spending what they brought. */
  lemma SubmitThenSpend(host: Host, registered: Registered, verify: Verify, accepts: bool, w: World,
                        raws: seq<seq<byte>>,
                        messages: seq<Message>)
    requires Collisionless(host) && forall message :: message in messages ==> Spends(message)
    requires forall info :: Paid(messages, info) == Credits(host, Signed(verify, raws), info)
    requires DeliverAll(host, registered, verify, accepts, w, Submits(raws) + messages).Ok?
    ensures var done := DeliverAll(host, registered, verify, accepts, w, Submits(raws) + messages).value;
            && w.executed <= done.executed && (forall v :: v in Signed(verify, raws) ==> v in done.executed)
            && forall info :: done.Held(info) == w.Held(info) + Credits(host, done.executed, info)
                 - Credits(host, w.executed, info) - Credits(host, Signed(verify, raws), info)
  {
    DeliverConcat(host, registered, verify, accepts, w, Submits(raws), messages);
    SubmitsDelivered(host, registered, verify, accepts, w, raws);
    var middle := DeliverAll(host, registered, verify, accepts, w, Submits(raws)).value;
    SpendsDelivered(host, registered, verify, accepts, middle, messages);
  }

  lemma CreditsJoin(host: Host, a: seq<Vaa>, b: seq<Vaa>)
    ensures forall info :: Credits(host, a + b, info) == Credits(host, a, info) + Credits(host, b, info)
  {
    forall info
      ensures Credits(host, a + b, info) == Credits(host, a, info) + Credits(host, b, info)
    {
      CreditsConcat(host, a, b, info);
    }
  }

  lemma InstructBalanced(host: Host, registered: Registered, w: World, verify: Verify, instruction: seq<byte>,
                         raws: seq<seq<byte>>, accepts: bool)
    requires Collisionless(host) && Balanced(host, w)
    requires Instructed(host, registered, w, verify, instruction, raws, accepts).Ok?
    ensures var done := Instructed(host, registered, w, verify, instruction, raws, accepts).value;
            && verify(instruction).Some? && done.committed == w.committed + [verify(instruction).value]
            && done.forwarded == w.forwarded + Signed(verify, raws) && done.calls == w.calls && Balanced(host, done)
            && w.executed <= done.executed && forall v :: v in Signed(verify, raws) ==> v in done.executed
  {
    var handled := Processed(host, verify, w.manager, instruction, raws).value;
    var messages, _ := ProcessedParts(host, verify, w.manager, instruction, raws);
    var start := w.(manager := handled.0);
    DeliverKeeps(host, registered, verify, accepts, start, handled.1);
    SubmitThenSpend(host, registered, verify, accepts, start, raws, messages);
    CreditsJoin(host, w.forwarded, Signed(verify, raws));
  }

  lemma InstructSound(host: Host, registered: Registered, issued: iset<Vaa>, w: World, verify: Verify,
                      instruction: seq<byte>, raws: seq<seq<byte>>, accepts: bool)
    requires Collisionless(host) && ListedOnce(host.json, issued) && Sound(host, issued, w)
    requires verify(instruction).Some? ==> verify(instruction).value in issued
    requires Instructed(host, registered, w, verify, instruction, raws, accepts).Ok?
    ensures Sound(host, issued, Instructed(host, registered, w, verify, instruction, raws, accepts).value)
  {
    ProcessedMarks(host, verify, w.manager, instruction, raws);
    var _, sequences := ProcessedParts(host, verify, w.manager, instruction, raws);
    InstructBalanced(host, registered, w, verify, instruction, raws, accepts);
    var i, vaas := verify(instruction).value, Signed(verify, raws);
    FreshTransfers(host, issued, w, i, sequences, vaas);
    InstructCommitsOnce(host, registered, w, verify, instruction, raws, accepts);
    var done := Instructed(host, registered, w, verify, instruction, raws, accepts).value;
    forall v | v in done.forwarded
      ensures exists j :: j in done.committed && Lists(host.json, j, v)
    {
      if v in vaas {
        assert i in done.committed;
      }
    }
  }

  /** Pulling assets and then spending as much leaves the native amounts short of what is listed. */
  lemma PullThenSpend(host: Host, registered: Registered, accepts: bool, w: World, assets: seq<Asset>,
                      rest: seq<Message>)
    requires DeliverAll(host, registered, NothingSigned, accepts, w, Pulls(assets) + rest).Ok?
    requires forall message :: message in rest ==> Spends(message)
    requires forall info :: Paid(rest, info) == Total(assets, info)
    ensures var done := DeliverAll(host, registered, NothingSigned, accepts, w, Pulls(assets) + rest).value;
            && done.executed == w.executed
            && forall info :: done.Held(info) == w.Held(info) - (if info.Token? then 0 else Total(assets, info))
  {
    DeliverConcat(host, registered, NothingSigned, accepts, w, Pulls(assets), rest);
    PullsDelivered(host, registered, NothingSigned, accepts, w, assets);
    var middle := DeliverAll(host, registered, NothingSigned, accepts, w, Pulls(assets)).value;
    SpendsDelivered(host, registered, NothingSigned, accepts, middle, rest);
  }

  /** A call changes the holdings by its surplus and nothing else of what is accounted for. */
  lemma CalledBalances(host: Host, registered: Registered, w: World, s: State, carried: Carried, rest: seq<Message>,
                       accepts: bool)
    requires Called(host, registered, w, s, carried, Pulls(carried.assets) + rest, accepts).Ok?
    requires OutgoingTransfer.Accepted(carried.call, carried.assets)
    requires forall message :: message in rest ==> Spends(message)
    requires forall info :: Paid(rest, info) == Total(carried.assets, info)
    ensures var done := Called(host, registered, w, s, carried, Pulls(carried.assets) + rest, accepts).value;
            && done == w.(manager := s, balance := done.balance, calls := w.calls + [carried])
            && forall info :: done.Held(info) == w.Held(info) + Surplus(carried, info)
  {
    var start := w.(manager := s).Receive(carried.call);
    DeliverKeeps(host, registered, NothingSigned, accepts, start, Pulls(carried.assets) + rest);
    PullThenSpend(host, registered, accepts, start, carried.assets, rest);
    forall info
      ensures start.Held(info) - (if info.Token? then 0 else Total(carried.assets, info))
           == w.Held(info) + Surplus(carried, info)
    {
      Received(w.(manager := s), carried.call, info);
      SurplusIsUnspent(carried, info);
    }
  }

  lemma Received(w: World, call: Call, info: AssetInfo)
    ensures w.Receive(call).Held(info) == w.Held(info) + SentOf(call, info)
  {}

  lemma SurplusIsUnspent(carried: Carried, info: AssetInfo)
    requires OutgoingTransfer.Accepted(carried.call, carried.assets)
    ensures Surplus(carried, info)
         == SentOf(carried.call, info) - (if info.Token? then 0 else Total(carried.assets, info))
  {
    if info.NativeToken? {
      NativeTotal(carried.call, carried.assets, info.denom);
    }
  }

  lemma LocallyBalances(host: Host, registered: Registered, w: World, command: Command, accepts: bool)
    requires !command.Process? && Brings(command).Some? && Locally(host, registered, w, command, accepts).Ok?
    ensures var done := Locally(host, registered, w, command, accepts).value;
            && done == w.(manager := done.manager, balance := done.balance, calls := w.calls + [Brings(command).value])
            && forall info :: done.Held(info) == w.Held(info) + Surplus(Brings(command).value, info)
  {
    var handled := Handle(host, w.manager, command).value;
    var carried := Brings(command).value;
    var rest: seq<Message>;
    match command {
      case Create(sender, call, strategy, data, assets) =>
        var id := w.manager.nextPositionId;
        var position := Position(TERRA_CHAIN_ID, id);
        rest := HandsOver(handled.0, Some(call), position, OpenPosition(data), assets);
      case Act(sender, call, positionId, action, assets) =>
        rest := HandsOver(w.manager, Some(call), Position(TERRA_CHAIN_ID, positionId), action, assets);
    }
    CalledBalances(host, registered, w, handled.0, carried, rest, accepts);
  }

  lemma SendBalances(host: Host, registered: Registered, w: World, config: OutgoingTransfer.Config, carried: Carried,
                     next: u64, recipient: Recipient, accepts: bool)
    requires SentOut(host, registered, w, config, carried, next, recipient, accepts).Ok?
    ensures var done := SentOut(host, registered, w, config, carried, next, recipient, accepts).value;
            && done == w.(balance := done.balance, calls := w.calls + [carried])
            && forall info :: done.Held(info) == w.Held(info) + Surplus(carried, info)
  {
    var call, assets := carried.call, carried.assets;
    var rest := OutgoingTransfer.PullsThenSpends(host.json, config, call, next, assets, recipient);
    forall info
      ensures Paid(rest, info) == Total(assets, info)
    {
      OutgoingTransfer.TransferConserves(host.json, config, call, next, assets, recipient, info);
      PaidConcat(Pulls(assets), rest, info);
      PullsPayNothing(assets, info);
    }
    CalledBalances(host, registered, w, w.manager, carried, rest, accepts);
  }

  /** A call that changes the holdings by its surplus keeps the account. */
  lemma SurplusSound(host: Host, issued: iset<Vaa>, w: World, done: World, carried: Carried)
    requires Sound(host, issued, w) && CommittedOnce(host, done)
    requires done == w.(manager := done.manager, balance := done.balance, calls := w.calls + [carried])
    requires forall info :: done.Held(info) == w.Held(info) + Surplus(carried, info)
    ensures Sound(host, issued, done)
  {
    assert done.calls[..|done.calls| - 1] == w.calls;
    assert forall info :: LeftOver(done.calls, info) == LeftOver(w.calls, info) + Surplus(carried, info);
  }

  lemma StepSound(host: Host, registered: Registered, issued: iset<Vaa>, w: World, event: Event)
    requires Collisionless(host) && ListedOnce(host.json, issued) && Sound(host, issued, w) && FromIssued(issued, event)
    ensures Sound(host, issued, Step(host, registered, w, event))
  {
    match event
    case Instruct(verify, instruction, raws, accepts) =>
      if Instructed(host, registered, w, verify, instruction, raws, accepts).Ok? {
        InstructSound(host, registered, issued, w, verify, instruction, raws, accepts);
      }
    case Submit(vaa) =>
      CreditAccounted(host, w, vaa);
    case Local(command, accepts) =>
      if !command.Process? && Locally(host, registered, w, command, accepts).Ok? {
        LocalSound(host, registered, issued, w, command, accepts);
      }
    case Send(config, carried, next, recipient, accepts) =>
      if SentOut(host, registered, w, config, carried, next, recipient, accepts).Ok? {
        SendSound(host, registered, issued, w, config, carried, next, recipient, accepts);
      }
  }

  lemma LocalSound(host: Host, registered: Registered, issued: iset<Vaa>, w: World, command: Command, accepts: bool)
    requires Sound(host, issued, w)
    requires !command.Process? && Locally(host, registered, w, command, accepts).Ok?
    ensures Sound(host, issued, Locally(host, registered, w, command, accepts).value)
  {
    StepCommitsOnce(host, registered, w, Local(command, accepts));
    if Brings(command).Some? {
      LocallyBalances(host, registered, w, command, accepts);
      var done := Locally(host, registered, w, command, accepts).value;
      SurplusSound(host, issued, w, done, Brings(command).value);
    }
  }

  lemma SendSound(host: Host, registered: Registered, issued: iset<Vaa>, w: World, config: OutgoingTransfer.Config,
                  carried: Carried, next: u64, recipient: Recipient, accepts: bool)
    requires Sound(host, issued, w)
    requires SentOut(host, registered, w, config, carried, next, recipient, accepts).Ok?
    ensures Sound(host, issued, SentOut(host, registered, w, config, carried, next, recipient, accepts).value)
  {
    StepCommitsOnce(host, registered, w, Send(config, carried, next, recipient, accepts));
    SendBalances(host, registered, w, config, carried, next, recipient, accepts);
    var done := SentOut(host, registered, w, config, carried, next, recipient, accepts).value;
    SurplusSound(host, issued, w, done, carried);
  }

  // ----- Which calls leave the holdings whole. -----

  /** A call lists no native token twice that it sends. */
  ghost predicate NamedOnce(carried: Carried) {
    forall denom :: Listings(carried.assets, NativeToken(denom)) <= 1 || carried.call.Sent(denom) == 0
  }

  /** A call takes from nobody else's assets if and only if it lists no token it sends twice. */
  lemma WholeIfNamedOnce(carried: Carried)
    ensures NamedOnce(carried) <==> forall info :: Surplus(carried, info) >= 0
  {
    forall denom
      ensures (Listings(carried.assets, NativeToken(denom)) <= 1 || carried.call.Sent(denom) == 0)
         <==> Surplus(carried, NativeToken(denom)) >= 0
    {
      ShareLeft(Listings(carried.assets, NativeToken(denom)), carried.call.Sent(denom));
    }
    if NamedOnce(carried) {
      forall info
        ensures Surplus(carried, info) >= 0
      {
        assert info.NativeToken? ==> info == NativeToken(info.denom);
      }
    }
  }

  lemma ShareLeft(n: nat, sent: nat)
    ensures n <= 1 || sent == 0 <==> sent - n * sent >= 0
  {
    assert sent - n * sent == (1 - n) * sent;
  }

  /** What a user's event brings along. */
  function UserCall(event: Event): Option<Carried> {
    match event
    case Local(command, _) => Brings(command)
    case Send(_, carried, _, _, _) => Some(carried)
    case _ => None
  }

  /** A user's call that commits leaves every holding at least as large as before if and only if
      it lists no native token twice that it sends. */
  lemma CallSparesHoldings(host: Host, registered: Registered, w: World, event: Event)
    requires UserCall(event).Some? && Step(host, registered, w, event).calls != w.calls
    ensures NamedOnce(UserCall(event).value)
       <==> forall info :: Step(host, registered, w, event).Held(info) >= w.Held(info)
  {
    var done, carried := Step(host, registered, w, event), UserCall(event).value;
    match event {
      case Local(command, accepts) =>
        LocallyBalances(host, registered, w, command, accepts);
      case Send(config, _, next, recipient, accepts) =>
        SendBalances(host, registered, w, config, carried, next, recipient, accepts);
    }
    assert forall info :: done.Held(info) == w.Held(info) + Surplus(carried, info);
    SurplusAlike(w, done, carried);
    WholeIfNamedOnce(carried);
  }

  lemma SurplusAlike(w: World, done: World, carried: Carried)
    requires forall info :: done.Held(info) == w.Held(info) + Surplus(carried, info)
    ensures (forall info :: Surplus(carried, info) >= 0) <==> forall info :: done.Held(info) >= w.Held(info)
  {
    if forall info :: done.Held(info) >= w.Held(info) {
      forall info
        ensures Surplus(carried, info) >= 0
      {
        assert done.Held(info) >= w.Held(info);
      }
    }
  }

  /** An external transfer needs no such care: it is refused unless it spends only what it brought. */
  lemma ExternalNamesOnce(host: Host, config: OutgoingTransfer.Config, carried: Carried, next: u64,
                          recipient: Recipient)
    requires recipient.ExternalChain?
    requires OutgoingTransfer.Outgoing(host.json, config, carried.call, next, carried.assets, recipient).Ok?
    ensures NamedOnce(carried)
  {
    var call, assets := carried.call, carried.assets;
    OutgoingTransfer.ExternalSpendsReceived(host.json, config, call, next, assets, recipient);
    forall denom
      ensures Listings(assets, NativeToken(denom)) <= 1 || call.Sent(denom) == 0
    {
      OutgoingTransfer.PaysWhatWasSent(host.json, config, call, next, assets, recipient, denom);
      ShareLeft(Listings(assets, NativeToken(denom)), call.Sent(denom));
    }
  }

  /** The list of coins that the bank accepts: no denomination twice. */
  predicate DistinctCoins(coins: seq<Coin>) {
    forall i, j :: 0 <= i < j < |coins| ==> coins[i].denom != coins[j].denom
  }

  /** Coins of distinct denominations come from a list that names each native token once. */
  lemma {:induction false} DistinctCoinsNameOnce(assets: seq<Asset>, denom: string)
    requires DistinctCoins(CoinsOf(assets))
    ensures Listings(assets, NativeToken(denom)) <= 1
    ensures Listings(assets, NativeToken(denom)) == 0
       <==> forall coin :: coin in CoinsOf(assets) ==> coin.denom != denom
  {
    if |assets| > 0 {
      var front, last := assets[..|assets| - 1], assets[|assets| - 1];
      if last.info.NativeToken? {
        var coins := CoinsOf(assets);
        assert coins[..|coins| - 1] == CoinsOf(front);
        assert coins[|coins| - 1].denom == last.info.denom;
      } else {
        assert CoinsOf(assets) == CoinsOf(front);
      }
      DistinctCoinsNameOnce(front, denom);
    }
  }

  /** What the bank would refuse to forward is all that can overdraw. */
  lemma BankSuffices(carried: Carried)
    requires DistinctCoins(CoinsOf(carried.assets))
    ensures NamedOnce(carried)
  {
    forall denom
      ensures Listings(carried.assets, NativeToken(denom)) <= 1
    {
      DistinctCoinsNameOnce(carried.assets, denom);
    }
  }

  /** The user names no native token twice that the call sends, or it is an external transfer. */
  ghost predicate Careful(event: Event) {
    UserCall(event).Some? && !(event.Send? && event.recipient.ExternalChain?) ==> NamedOnce(UserCall(event).value)
  }

  lemma CallsGrow(host: Host, registered: Registered, w: World, event: Event)
    requires Careful(event) && forall carried :: carried in w.calls ==> NamedOnce(carried)
    ensures forall carried :: carried in Step(host, registered, w, event).calls ==> NamedOnce(carried)
  {
    match event
    case Instruct(verify, instruction, raws, accepts) =>
      if Instructed(host, registered, w, verify, instruction, raws, accepts).Ok? {
        var handled := Processed(host, verify, w.manager, instruction, raws).value;
        DeliverKeeps(host, registered, verify, accepts, w.(manager := handled.0), handled.1);
      }
    case Submit(_) =>
    case Local(command, accepts) =>
      if UserCall(event).Some? && Locally(host, registered, w, command, accepts).Ok? {
        LocallyBalances(host, registered, w, command, accepts);
      }
    case Send(config, carried, next, recipient, accepts) =>
      if SentOut(host, registered, w, config, carried, next, recipient, accepts).Ok? {
        SendBalances(host, registered, w, config, carried, next, recipient, accepts);
        if recipient.ExternalChain? {
          ExternalNamesOnce(host, config, carried, next, recipient);
        }
      }
  }

  /** If every user is careful, every call that commits names each token it sends once. */
  lemma {:induction false} CarefulRuns(host: Host, registered: Registered, w: World, events: seq<Event>)
    requires forall carried :: carried in w.calls ==> NamedOnce(carried)
    requires forall event :: event in events ==> Careful(event)
    ensures forall carried :: carried in Run(host, registered, w, events).calls ==> NamedOnce(carried)
  {
    if |events| > 0 {
      var front, last := events[..|events| - 1], events[|events| - 1];
      assert last in events;
      CarefulRuns(host, registered, w, front);
      CallsGrow(host, registered, Run(host, registered, w, front), last);
    }
  }

  const FIVE_TWICE: seq<Asset> := [Asset(NativeToken("uusd"), 5), Asset(NativeToken("uusd"), 5)]
  const FIVE_SENT: Call := Call(map["uusd" := 5], map[])
  const ONE_STRATEGY: State := State(0, map[], {}, map[], map[7 := "strategy"], map[], {})
  const LIST_TWICE: Command := Create("holder", FIVE_SENT, Strategy(TERRA_CHAIN_ID, 7), None, FIVE_TWICE)

  lemma ListsTwice(host: Host) returns (message: Message)
    ensures Handle(host, ONE_STRATEGY, LIST_TWICE).Ok?
    ensures message.PerformAction? && Handle(host, ONE_STRATEGY, LIST_TWICE).value.1 == [message]
    ensures Surplus(Carried(FIVE_SENT, FIVE_TWICE), NativeToken("uusd")) == -5
  {
    TwoNatives(FIVE_TWICE);
    message := PerformAction("strategy", Position(TERRA_CHAIN_ID, 0), OpenPosition(None), FIVE_TWICE,
                             CoinsOf(FIVE_TWICE));
    assert [] + [] + [message] == [message];
    assert Handle(host, ONE_STRATEGY, LIST_TWICE).value.1 == [message];
  }

  /** A user sends 5 and lists them twice; the call forwards 10 and the manager is 5 short. */
  lemma NamedTwiceOverdraws(host: Host, registered: Registered)
    ensures var w := World(ONE_STRATEGY, map[], [], [], [], []);
            && Locally(host, registered, w, LIST_TWICE, true).Ok?
            && Run(host, registered, w, [Local(LIST_TWICE, true)]).Held(NativeToken("uusd")) == -5
  {
    var w := World(ONE_STRATEGY, map[], [], [], [], []);
    var message := ListsTwice(host);
    var handled := Handle(host, ONE_STRATEGY, LIST_TWICE).value;
    DeliverOne(host, registered, w.(manager := handled.0).Receive(FIVE_SENT), message);
    LocallyBalances(host, registered, w, LIST_TWICE, true);
    var events := [Local(LIST_TWICE, true)];
    assert events[..0] == [];
    assert Run(host, registered, w, events[..0]) == w;
  }

  lemma DeliverOne(host: Host, registered: Registered, w: World, message: Message)
    ensures DeliverAll(host, registered, NothingSigned, true, w, [message])
         == Deliver(host, registered, NothingSigned, true, w, message)
  {
    assert [message][..0] == [];
  }

  lemma TwoNatives(assets: seq<Asset>)
    requires |assets| == 2 && assets[0].info.NativeToken? && assets[0].info == assets[1].info
    ensures Pulls(assets) == [] && Listings(assets, assets[0].info) == 2
    ensures forall recipient :: TransfersOf(assets, recipient) == []
  {
    var one := assets[..1];
    assert one[..0] == [] && one[0] == assets[0];
    assert Pulls(one) == [];
    assert Listings(one[..0], assets[0].info) == 0 && Listings(one, assets[0].info) == 1;
    assert forall recipient :: TransfersOf(one, recipient) == [];
  }

  lemma {:induction false} NeverShort(calls: seq<Carried>, info: AssetInfo)
    requires forall carried :: carried in calls ==> NamedOnce(carried)
    ensures LeftOver(calls, info) >= 0
  {
    if |calls| > 0 {
      NeverShort(calls[..|calls| - 1], info);
      assert calls[|calls| - 1] in calls;
      WholeIfNamedOnce(calls[|calls| - 1]);
    }
  }

  /** Over any interleaving of instructions, submissions, users' calls and outgoing transfers, the
      manager holds exactly what was credited and not yet forwarded plus what the calls left over;
      every transfer is forwarded at most once; and no holding is negative as long as the committed
      calls list no native token twice that they send. */
  lemma {:induction false} AlwaysFunded(host: Host, registered: Registered, issued: iset<Vaa>, w: World,
                                        events: seq<Event>)
    requires Collisionless(host) && ListedOnce(host.json, issued) && Sound(host, issued, w)
    requires forall event :: event in events ==> FromIssued(issued, event)
    ensures Sound(host, issued, Run(host, registered, w, events))
    ensures (forall carried :: carried in Run(host, registered, w, events).calls ==> NamedOnce(carried)) ==>
              forall info :: Run(host, registered, w, events).Held(info) >= 0
  {
    if |events| > 0 {
      AlwaysFunded(host, registered, issued, w, events[..|events| - 1]);
      assert events[|events| - 1] in events;
      StepSound(host, registered, issued, Run(host, registered, w, events[..|events| - 1]), events[|events| - 1]);
    }
    var last := Run(host, registered, w, events);
    if forall carried :: carried in last.calls ==> NamedOnce(carried) {
      forall info
        ensures last.Held(info) >= 0
      {
        PartWorthLess(host, last.forwarded, last.executed, info);
        NeverShort(last.calls, info);
      }
    }
  }

  /** The manager before any bridged asset arrives. */
  lemma StartsSound(host: Host, issued: iset<Vaa>, s: State)
    ensures Sound(host, issued, World(s, map[], [], [], [], []))
  {}

  // ----- Anyone may submit a transfer first. -----

  ghost predicate Submittable(host: Host, registered: Registered, verify: Verify, w: World, raw: seq<byte>) {
    verify(raw).Some? && (Known(host, w, verify(raw).value) || Genuine(registered, verify(raw).value))
  }

  ghost predicate AllSubmittable(host: Host, registered: Registered, verify: Verify, w: World, raws: seq<seq<byte>>) {
    forall raw :: raw in raws ==> Submittable(host, registered, verify, w, raw)
  }

  lemma AllSubmittableSplit(host: Host, registered: Registered, verify: Verify, w: World, front: seq<seq<byte>>,
                            raw: seq<byte>)
    ensures AllSubmittable(host, registered, verify, w, front + [raw])
       <==> AllSubmittable(host, registered, verify, w, front) && Submittable(host, registered, verify, w, raw)
  {
    assert raw in front + [raw];
    assert forall other :: other in front ==> other in front + [raw];
  }

  /** Submissions go through exactly when each transfer was executed before or can be now. */
  lemma {:induction false} SubmitsSucceed(host: Host, registered: Registered, verify: Verify, accepts: bool, w: World,
                                          raws: seq<seq<byte>>)
    requires Collisionless(host)
    ensures DeliverAll(host, registered, verify, accepts, w, Submits(raws)).Ok?
       <==> AllSubmittable(host, registered, verify, w, raws)
  {
    if |raws| > 0 {
      var n := |raws| - 1;
      SubmitsLast(host, registered, verify, accepts, w, raws);
      SubmitsSucceed(host, registered, verify, accepts, w, raws[..n]);
      assert raws == raws[..n] + [raws[n]];
      AllSubmittableSplit(host, registered, verify, w, raws[..n], raws[n]);
      var before := DeliverAll(host, registered, verify, accepts, w, Submits(raws[..n]));
      if before.Ok? {
        StillKnown(host, registered, verify, accepts, w, raws[..n], raws[n]);
        SubmitOne(host, registered, verify, accepts, before.value, raws[n]);
      }
    }
  }

  lemma {:induction false} StillKnown(host: Host, registered: Registered, verify: Verify, accepts: bool, w: World,
                                      raws: seq<seq<byte>>, raw: seq<byte>)
    requires Collisionless(host)
    requires DeliverAll(host, registered, verify, accepts, w, Submits(raws)).Ok?
    ensures var done := DeliverAll(host, registered, verify, accepts, w, Submits(raws)).value;
            Submittable(host, registered, verify, done, raw) <==> Submittable(host, registered, verify, w, raw)
  {
    if |raws| > 0 {
      SubmitsLast(host, registered, verify, accepts, w, raws);
      StillKnown(host, registered, verify, accepts, w, raws[..|raws| - 1], raw);
      var before := DeliverAll(host, registered, verify, accepts, w, Submits(raws[..|raws| - 1])).value;
      SubmitKnows(host, registered, verify, accepts, before, raws[|raws| - 1], raw);
    }
  }

  lemma SubmitKnows(host: Host, registered: Registered, verify: Verify, accepts: bool, w: World, raw: seq<byte>,
                    other: seq<byte>)
    requires Collisionless(host) && Deliver(host, registered, verify, accepts, w, SubmitVaa(raw)).Ok?
    ensures var done := Deliver(host, registered, verify, accepts, w, SubmitVaa(raw)).value;
            Submittable(host, registered, verify, done, other) <==> Submittable(host, registered, verify, w, other)
  {}

  lemma {:induction false} SpendsAlike(host: Host, registered: Registered, verify: Verify, accepts: bool, w: World,
                                       other: World,
                                       messages: seq<Message>)
    requires forall message :: message in messages ==> Spends(message)
    ensures DeliverAll(host, registered, verify, accepts, w, messages).Ok?
       <==> DeliverAll(host, registered, verify, accepts, other, messages).Ok?
  {
    if |messages| > 0 {
      SpendsAlike(host, registered, verify, accepts, w, other, messages[..|messages| - 1]);
      assert Spends(messages[|messages| - 1]);
    }
  }

  lemma SameSubmittable(host: Host, registered: Registered, verify: Verify, w: World, first: World,
                        raws: seq<seq<byte>>)
    requires forall v :: (Known(host, first, v) || Genuine(registered, v))
                    <==> (Known(host, w, v) || Genuine(registered, v))
    ensures AllSubmittable(host, registered, verify, w, raws) <==> AllSubmittable(host, registered, verify, first, raws)
  {
    forall raw
      ensures Submittable(host, registered, verify, w, raw) <==> Submittable(host, registered, verify, first, raw)
    {
      if verify(raw).Some? {
        var v := verify(raw).value;
        assert (Known(host, first, v) || Genuine(registered, v)) <==> (Known(host, w, v) || Genuine(registered, v));
      }
    }
  }

  /** Executing some transfer beforehand neither prevents an instruction from being processed nor
      lets it through. */
  lemma SubmittedFirst(host: Host, registered: Registered, w: World, vaa: Vaa, verify: Verify, instruction: seq<byte>,
                       raws: seq<seq<byte>>, accepts: bool)
    requires Collisionless(host) && Submitted(host, registered, w, vaa).Ok?
    ensures var first := Submitted(host, registered, w, vaa).value;
            Instructed(host, registered, first, verify, instruction, raws, accepts).Ok?
            <==> Instructed(host, registered, w, verify, instruction, raws, accepts).Ok?
  {
    var first := Submitted(host, registered, w, vaa).value;
    var processed := Processed(host, verify, w.manager, instruction, raws);
    if processed.Ok? {
      var a, b := w.(manager := processed.value.0), first.(manager := processed.value.0);
      var messages, _ := ProcessedParts(host, verify, w.manager, instruction, raws);
      ExecutedFirst(host, registered, a, vaa, b);
      SameSubmittable(host, registered, verify, a, b, raws);
      SubmitsSucceed(host, registered, verify, accepts, a, raws);
      SubmitsSucceed(host, registered, verify, accepts, b, raws);
      DeliverConcat(host, registered, verify, accepts, a, Submits(raws), messages);
      DeliverConcat(host, registered, verify, accepts, b, Submits(raws), messages);
      if AllSubmittable(host, registered, verify, a, raws) {
        SpendsAlike(host, registered, verify, accepts,
                    DeliverAll(host, registered, verify, accepts, a, Submits(raws)).value,
                    DeliverAll(host, registered, verify, accepts, b, Submits(raws)).value, messages);
      }
    }
  }

  lemma ExecutedFirst(host: Host, registered: Registered, w: World, vaa: Vaa, first: World)
    requires Collisionless(host) && Genuine(registered, vaa) && first.executed == w.executed + [vaa]
    ensures forall v :: (Known(host, first, v) || Genuine(registered, v))
                   <==> (Known(host, w, v) || Genuine(registered, v))
  {
    forall v
      ensures (Known(host, first, v) || Genuine(registered, v)) <==> (Known(host, w, v) || Genuine(registered, v))
    {
      if Known(host, w, v) {
        var u :| u in w.executed && host.hash(u) == host.hash(v);
        assert u in first.executed;
      }
    }
  }
}
