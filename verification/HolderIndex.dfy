/** The index of positions by holder, and the query that pages through it. */
module HolderIndex {
  import opened Results
  import opened Bytes
  import opened Instruction
  import opened TokenUtil
  import opened Manager

  const DEFAULT_LIMIT: u32 := 10
  const MAX_LIMIT: u32 := 30

  // ----- The index on every run. -----

  /** Every position below the next id has a holder and a strategy, and the pairs say the same. */
  ghost predicate Indexed(s: State) {
    && (forall id: u128 :: id in s.holders <==> id < s.nextPositionId)
    && (forall holder, key :: (holder, key) in s.pairs <==> HasKey(s, holder, key))
    && forall id: u128 :: id < s.nextPositionId ==> Position(TERRA_CHAIN_ID, id) in s.locations
  }

  ghost predicate HasKey(s: State, holder: string, key: seq<byte>) {
    exists id: u128 :: id in s.holders && s.holders[id] == holder && PositionKey(id) == key
  }

  /** A call, and whether the messages it sends go through. */
  datatype Attempt = Attempt(command: Command, succeeds: bool)

  ghost function Step(host: Host, s: State, attempt: Attempt): State {
    if attempt.succeeds then Committed(host, s, attempt.command) else s
  }

  ghost function Run(host: Host, s: State, attempts: seq<Attempt>): State {
    if |attempts| == 0 then s
    else Step(host, Run(host, s, attempts[..|attempts| - 1]), attempts[|attempts| - 1])
  }

  lemma KeyInjective(a: u128, b: u128)
    ensures PositionKey(a) == PositionKey(b) <==> a == b
  {
    WidthValues();
    Exact(a, 16);
    Exact(b, 16);
  }

  lemma CreateKeepsIndex(s: State, id: u128, sender: string, held: State)
    requires Indexed(s) && id == s.nextPositionId < MAX_POSITION_ID
    requires held.nextPositionId == id + 1 && held.holders == s.holders[id := sender]
    requires held.pairs == s.pairs + {(sender, PositionKey(id))}
    requires held.locations.Keys == s.locations.Keys + {Position(TERRA_CHAIN_ID, id)}
    ensures Indexed(held)
  {
    forall holder, key
      ensures (holder, key) in held.pairs <==> HasKey(held, holder, key)
    {
      if HasKey(s, holder, key) {
        var other: u128 :| other in s.holders && s.holders[other] == holder && PositionKey(other) == key;
        assert held.holders[other] == holder;
      }
      if holder == sender && key == PositionKey(id) {
        assert held.holders[id] == holder;
      }
    }
  }

  lemma StepKeepsIndex(host: Host, s: State, attempt: Attempt)
    requires Indexed(s)
    ensures Indexed(Step(host, s, attempt))
    ensures forall id: u128 :: id in s.holders ==>
              id in Step(host, s, attempt).holders && Step(host, s, attempt).holders[id] == s.holders[id]
  {
    if attempt.succeeds && Handle(host, s, attempt.command).Ok? {
      var done := Handle(host, s, attempt.command).value.0;
      match attempt.command
      case Create(sender, _, _, _, _) => CreateKeepsIndex(s, s.nextPositionId, sender, done);
      case Act(_, _, _, _, _) =>
      case Process(_, _, _) =>
        ProcessKeepsHolders(host, s, attempt.command);
        SameIndex(s, done);
      case Configure(_, _) =>
        SameIndex(s, done);
    }
  }

  lemma ProcessKeepsHolders(host: Host, s: State, command: Command)
    requires command.Process? && Handle(host, s, command).Ok?
    ensures var done := Handle(host, s, command).value.0;
            && done.nextPositionId == s.nextPositionId && done.holders == s.holders && done.pairs == s.pairs
            && forall position :: position in s.locations ==> position in done.locations
  {
    var Process(verify, instruction, raws) := command;
    var vaa := Admitted(host, verify, s, instruction).value;
    var i := ForTerra(host.json, vaa.payload, |raws|).value;
    var assets := ListedTransfers(host, verify, vaa.emitterChain, i.info.sequences, raws).value;
    var marked := s.(completed := s.completed + {host.hash(vaa)});
    PerformedKeeps(marked, i, Position(vaa.emitterChain, i.info.positionId), assets);
  }

  lemma PerformedKeeps(s: State, i: Instruction, position: Position, assets: seq<Asset>)
    requires !i.SingleTokenDisbursement? && Performed(s, i, position, assets).Ok?
    ensures var done := Performed(s, i, position, assets).value.0;
            done == s.(locations := done.locations) && s.locations.Keys <= done.locations.Keys
  {}

  lemma SameIndex(s: State, other: State)
    requires Indexed(s) && other.nextPositionId == s.nextPositionId && other.holders == s.holders
    requires other.pairs == s.pairs
    requires forall position :: position in s.locations ==> position in other.locations
    ensures Indexed(other)
  {
    forall holder, key
      ensures HasKey(other, holder, key) <==> HasKey(s, holder, key)
    {}
  }

  /** On every run the pairs are exactly the holders' positions, and no position changes hands. */
  lemma {:induction false} AlwaysIndexed(host: Host, s: State, attempts: seq<Attempt>)
    requires Indexed(s)
    ensures Indexed(Run(host, s, attempts))
    ensures forall id: u128 :: id in s.holders ==>
              id in Run(host, s, attempts).holders && Run(host, s, attempts).holders[id] == s.holders[id]
  {
    if |attempts| > 0 {
      AlwaysIndexed(host, s, attempts[..|attempts| - 1]);
      StepKeepsIndex(host, Run(host, s, attempts[..|attempts| - 1]), attempts[|attempts| - 1]);
    }
  }

  lemma StartsIndexed()
    ensures Indexed(State(0, map[], {}, map[], map[], map[], {}))
  {}

  // ----- Pages. -----

  /** The positions of `holder` from `from` up, in order. */
  ghost function IdsOf(s: State, holder: string, from: nat): (ids: seq<u128>)
    decreases s.nextPositionId - from
  {
    if from >= s.nextPositionId then []
    else (if from in s.holders && s.holders[from] == holder then [from] else []) + IdsOf(s, holder, from + 1)
  }

  predicate Holds(s: State, holder: string, id: u128) {
    id in s.holders && s.holders[id] == holder
  }

  predicate Ascending(ids: seq<nat>) {
    forall i, j :: 0 <= i < j < |ids| ==> ids[i] < ids[j]
  }

  /** They are all there, each once. */
  lemma {:induction false} IdsOfExact(s: State, holder: string, from: nat)
    requires Indexed(s)
    ensures forall id: u128 :: id in IdsOf(s, holder, from) <==> from <= id && Holds(s, holder, id)
    ensures Ascending(IdsOf(s, holder, from))
    decreases s.nextPositionId - from
  {
    if from < s.nextPositionId {
      IdsOfExact(s, holder, from + 1);
      var rest := IdsOf(s, holder, from + 1);
      forall i | 0 <= i < |rest|
        ensures from < rest[i]
      {
        assert rest[i] in rest;
      }
    }
  }

  /** What the storage iterates: the holder's keys behind `after`, in byte order. */
  ghost predicate IsRange(pairs: set<(string, seq<byte>)>, holder: string, after: Option<seq<byte>>,
                          keys: seq<seq<byte>>) {
    && (forall key :: key in keys <==> (holder, key) in pairs && (after.Some? ==> Before(after.value, key)))
    && forall i, j :: 0 <= i < j < |keys| ==> Before(keys[i], keys[j])
  }

  function After(startAfter: Option<u128>): Option<seq<byte>> {
    if startAfter.None? then None else Some(PositionKey(startAfter.value))
  }

  function From(startAfter: Option<u128>): nat {
    if startAfter.None? then 0 else startAfter.value + 1
  }

  function Ids(keys: seq<seq<byte>>): (ids: seq<u128>)
    requires forall key :: key in keys ==> |key| == 16
    ensures |ids| == |keys| && forall k :: 0 <= k < |keys| ==> ids[k] == GetU128(keys[k], 0)
  {
    if |keys| == 0 then [] else Ids(keys[..|keys| - 1]) + [GetU128(keys[|keys| - 1], 0)]
  }

  lemma {:induction false} SameAscending(a: seq<nat>, b: seq<nat>)
    requires Ascending(a) && Ascending(b) && forall x :: x in a <==> x in b
    ensures a == b
  {
    assert |b| > 0 ==> b[0] in b;
    if |a| > 0 {
      assert a[|a| - 1] in b;
      var m, n := |a| - 1, |b| - 1;
      assert b[n] in a;
      assert a[m] == b[n];
      forall x
        ensures x in a[..m] <==> x in b[..n]
      {
        assert x in a[..m] <==> x in a && x != a[m];
        assert x in b[..n] <==> x in b && x != b[n];
      }
      SameAscending(a[..m], b[..n]);
    }
  }

  lemma KeysDecode(s: State, holder: string, startAfter: Option<u128>, keys: seq<seq<byte>>)
    requires Indexed(s) && IsRange(s.pairs, holder, After(startAfter), keys)
    ensures forall key :: key in keys ==> |key| == 16
    ensures forall id: u128 :: PositionKey(id) in keys <==> From(startAfter) <= id && Holds(s, holder, id)
  {
    forall key | key in keys
      ensures |key| == 16
    {
      assert HasKey(s, holder, key);
    }
    forall id: u128
      ensures PositionKey(id) in keys <==> From(startAfter) <= id && Holds(s, holder, id)
    {
      if HasKey(s, holder, PositionKey(id)) {
        var other: u128 :| other in s.holders && s.holders[other] == holder && PositionKey(other) == PositionKey(id);
        KeyInjective(other, id);
      }
      if startAfter.Some? {
        KeyOrder(startAfter.value, id);
      }
    }
  }

  lemma KeyOrder(a: u128, b: u128)
    ensures Before(PositionKey(a), PositionKey(b)) <==> a < b
  {
    OrderIsNumeric(PositionKey(a), PositionKey(b));
    WidthValues();
    Exact(a, 16);
    Exact(b, 16);
  }

  lemma KeyOf(key: seq<byte>)
    requires |key| == 16
    ensures PositionKey(GetU128(key, 0)) == key && GetU128(key, 0) == FromBigEndian(key)
  {
    SliceAll(key);
    ReadThenWrite(key);
  }

  /** Byte order is the order of ids, so the storage iterates the holder's positions in order. */
  lemma RangeIsIds(s: State, holder: string, startAfter: Option<u128>, keys: seq<seq<byte>>)
    requires Indexed(s) && IsRange(s.pairs, holder, After(startAfter), keys)
    ensures forall key :: key in keys ==> |key| == 16
    ensures Ids(keys) == IdsOf(s, holder, From(startAfter))
  {
    KeysDecode(s, holder, startAfter, keys);
    var ids := Ids(keys);
    forall i, j | 0 <= i < j < |ids|
      ensures ids[i] < ids[j]
    {
      assert keys[i] in keys && keys[j] in keys;
      KeyOf(keys[i]);
      KeyOf(keys[j]);
      OrderIsNumeric(keys[i], keys[j]);
    }
    IdsOfExact(s, holder, From(startAfter));
    forall id: u128
      ensures id in ids <==> id in IdsOf(s, holder, From(startAfter))
    {
      IdIsListed(keys, id);
    }
    SameAscending(ids, IdsOf(s, holder, From(startAfter)));
  }

  lemma IdIsListed(keys: seq<seq<byte>>, id: u128)
    requires forall key :: key in keys ==> |key| == 16
    ensures id in Ids(keys) <==> PositionKey(id) in keys
  {
    var ids := Ids(keys);
    if id in ids {
      var k :| 0 <= k < |ids| && ids[k] == id;
      assert keys[k] in keys;
      KeyOf(keys[k]);
    }
    if PositionKey(id) in keys {
      var k :| 0 <= k < |keys| && keys[k] == PositionKey(id);
      U128Back(id);
      assert ids[k] == id;
    }
  }

  function PageSize(limit: Option<u32>): u32 {
    var wanted := if limit.None? then DEFAULT_LIMIT else limit.value;
    if wanted < MAX_LIMIT then wanted else MAX_LIMIT
  }

  ghost function Page(s: State, holder: string, startAfter: Option<u128>, limit: Option<u32>): seq<u128> {
    var ids := IdsOf(s, holder, From(startAfter));
    if PageSize(limit) < |ids| then ids[..PageSize(limit)] else ids
  }

  predicate Located(m: TerraManager, id: u128)
    reads m
  {
    Position(TERRA_CHAIN_ID, id) in m.locations
  }

  function LocationOf(m: TerraManager, id: u128): StrategyLocation
    requires Located(m, id)
    reads m
  {
    m.locations[Position(TERRA_CHAIN_ID, id)]
  }

  method LoadOne(m: TerraManager, key: seq<byte>, ghost id: u128) returns (r: Result<(u128, StrategyLocation)>)
    requires |key| == 16 && GetU128(key, 0) == id
    ensures r.Ok? <==> Located(m, id)
    ensures r.Ok? ==> r.value == (id, LocationOf(m, id))
  {
    var read: u128 := GetU128(key, 0);
    if !Located(m, read) {
      return Err(Generic("strategy location not found"));
    }
    return Ok((read, LocationOf(m, read)));
  }

  /** Loads the positions behind the keys, whose ids are `all`, until the limit or the end, and
      fails on one without a location. */
  method LoadPage(m: TerraManager, limit: u32, keys: seq<seq<byte>>, ghost all: seq<u128>)
    returns (r: Result<(seq<u128>, seq<StrategyLocation>)>)
    requires |all| == |keys|
    requires forall k {:trigger keys[k]} :: 0 <= k < |keys| ==> |keys[k]| == 16 && GetU128(keys[k], 0) == all[k]
    ensures r.Ok? <==> forall k :: 0 <= k < |keys| && k < limit ==> Located(m, all[k])
    ensures r.Ok? ==> r.value.0 == (if limit < |all| then all[..limit] else all) && |r.value.1| == |r.value.0|
    ensures r.Ok? ==> forall k :: 0 <= k < |r.value.0| ==> r.value.1[k] == LocationOf(m, r.value.0[k])
  {
    var ids: seq<u128>, found: seq<StrategyLocation> := [], [];
    var remaining: u32 := limit;
    for i := 0 to |keys|
      invariant i + remaining == limit && |found| == i
      invariant ids == all[..i]
      invariant forall k :: 0 <= k < i ==> Located(m, all[k]) && found[k] == LocationOf(m, all[k])
    {
      if remaining == 0 {
        break;
      }
      remaining := remaining - 1;
      var one :- LoadOne(m, keys[i], all[i]);
      ids := ids + [one.0];
      found := found + [one.1];
    }
    assert all[..|all|] == all;
    return Ok((ids, found));
  }

  /** The query answers with the next page; `keys` is what the storage yields for the holder and
      the bound. */
  method GetPositionsByHolder(m: TerraManager, holder: string, startAfter: Option<u128>, limit: Option<u32>,
                              keys: seq<seq<byte>>)
    returns (r: Result<(seq<u128>, seq<StrategyLocation>)>)
    requires Indexed(m.Value()) && IsRange(m.pairs, holder, After(startAfter), keys)
    ensures r.Ok? && r.value.0 == Page(m.Value(), holder, startAfter, limit) && |r.value.1| == |r.value.0|
    ensures var ids := IdsOf(m.Value(), holder, From(startAfter));
            var most := if limit.None? then 10 else if limit.value < 30 then limit.value else 30;
            r.value.0 <= ids && |r.value.0| == (if |ids| < most then |ids| else most)
    ensures forall k :: 0 <= k < |r.value.0| ==> Located(m, r.value.0[k]) && r.value.1[k] == LocationOf(m, r.value.0[k])
  {
    RangeIsIds(m.Value(), holder, startAfter, keys);
    ghost var all := IdsOf(m.Value(), holder, From(startAfter));
    AllLocated(m, holder, From(startAfter));
    r := LoadPage(m, PageSize(limit), keys, all);
  }

  lemma AllLocated(m: TerraManager, holder: string, from: nat)
    requires Indexed(m.Value())
    ensures forall k :: 0 <= k < |IdsOf(m.Value(), holder, from)| ==> Located(m, IdsOf(m.Value(), holder, from)[k])
  {
    var ids := IdsOf(m.Value(), holder, from);
    IdsOfExact(m.Value(), holder, from);
    forall k | 0 <= k < |ids|
      ensures Located(m, ids[k])
    {
      assert ids[k] in ids;
    }
  }

  // ----- All pages. -----

  /** What a client collects that asks for page after page until one is empty. */
  ghost function Pages(s: State, holder: string, startAfter: Option<u128>, limit: Option<u32>): seq<u128>
    requires Indexed(s)
    decreases s.nextPositionId - From(startAfter)
  {
    var page := Page(s, holder, startAfter, limit);
    if |page| == 0 then []
    else
      PageAdvances(s, holder, startAfter, limit);
      page + Pages(s, holder, Some(page[|page| - 1]), limit)
  }

  lemma PageAdvances(s: State, holder: string, startAfter: Option<u128>, limit: Option<u32>)
    requires Indexed(s)
    ensures var page := Page(s, holder, startAfter, limit);
            |page| > 0 ==> From(startAfter) <= page[|page| - 1] < s.nextPositionId
  {
    IdsOfExact(s, holder, From(startAfter));
    var page := Page(s, holder, startAfter, limit);
    if |page| > 0 {
      assert page[|page| - 1] in IdsOf(s, holder, From(startAfter));
    }
  }

  lemma {:induction false} IdsSkip(s: State, holder: string, from: nat, k: nat, id: nat)
    requires Indexed(s) && k < |IdsOf(s, holder, from)| && id == IdsOf(s, holder, from)[k]
    ensures IdsOf(s, holder, id + 1) == IdsOf(s, holder, from)[k + 1..]
    decreases s.nextPositionId - from
  {
    var rest := IdsOf(s, holder, from + 1);
    if from in s.holders && s.holders[from] == holder {
      assert IdsOf(s, holder, from) == [from] + rest;
      if k > 0 {
        IdsSkip(s, holder, from + 1, k - 1, id);
      }
    } else {
      assert IdsOf(s, holder, from) == rest;
      IdsSkip(s, holder, from + 1, k, id);
    }
  }

  lemma PageIsPrefix(s: State, holder: string, startAfter: Option<u128>, limit: Option<u32>)
    requires PageSize(limit) >= 1
    ensures var ids, page := IdsOf(s, holder, From(startAfter)), Page(s, holder, startAfter, limit);
            |page| <= |ids| && page == ids[..|page|] && (|page| == 0 ==> ids == [])
  {}

  lemma PagesUnfold(s: State, holder: string, startAfter: Option<u128>, limit: Option<u32>)
    requires Indexed(s) && |Page(s, holder, startAfter, limit)| > 0
    ensures var page := Page(s, holder, startAfter, limit);
            Pages(s, holder, startAfter, limit) == page + Pages(s, holder, Some(page[|page| - 1]), limit)
  {
    PageAdvances(s, holder, startAfter, limit);
  }

  lemma PageThenRest(ids: seq<u128>, page: seq<u128>)
    requires |page| <= |ids| && page == ids[..|page|]
    ensures page + ids[|page|..] == ids
  {}

  /** With a limit of at least one the pages together list every position once, in order. */
  lemma {:induction false} PagesListAll(s: State, holder: string, startAfter: Option<u128>, limit: Option<u32>)
    requires Indexed(s) && PageSize(limit) >= 1
    ensures Pages(s, holder, startAfter, limit) == IdsOf(s, holder, From(startAfter))
    decreases s.nextPositionId - From(startAfter)
  {
    var ids, page := IdsOf(s, holder, From(startAfter)), Page(s, holder, startAfter, limit);
    PageIsPrefix(s, holder, startAfter, limit);
    if |page| > 0 {
      var n, last := |page|, page[|page| - 1];
      PageAdvances(s, holder, startAfter, limit);
      IdsSkip(s, holder, From(startAfter), n - 1, last);
      PagesListAll(s, holder, Some(last), limit);
      PagesUnfold(s, holder, startAfter, limit);
      PageThenRest(ids, page);
    }
  }

  /** A limit of zero lists nothing. */
  lemma ZeroLimitListsNothing(s: State, holder: string, startAfter: Option<u128>)
    requires Indexed(s)
    ensures Pages(s, holder, startAfter, Some(0)) == []
  {}
}
