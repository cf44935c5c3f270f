/** The binary format of the instructions that Aperture managers send each other. */
module Instruction {
  import opened Results
  import opened Bytes
  import Base64

  const VERSION: byte := 0
  const TYPE_POSITION_OPEN: byte := 0
  const TYPE_EXECUTE_STRATEGY: byte := 1
  const TYPE_SINGLE_TOKEN_DISBURSEMENT: byte := 2

  datatype SwapInfo = SwapInfo(desiredToken: seq<byte>, minimumAmount: nat)

  datatype Recipient =
    | TerraChain(recipient: string)
    | ExternalChain(chain: u16, recipientBytes: seq<byte>, swap: Option<SwapInfo>)

  datatype Action =
    | OpenPosition(data: Option<seq<byte>>)
    | ClosePosition(recipient: Recipient)
    | IncreasePosition(data: Option<seq<byte>>)
    | DecreasePosition(proportion: nat, recipient: Recipient)

  /** The JSON text of an action, taken as given. */
  datatype Json = Json(encode: Action -> seq<byte>, decode: seq<byte> -> Option<Action>) {
    ghost predicate Inverse() {
      forall action: Action :: decode(encode(action)) == Some(action)
    }
  }

  datatype StrategyInfo = StrategyInfo(positionId: u128, strategyChain: u16, sequences: seq<u64>)

  datatype Instruction =
    | PositionOpen(info: StrategyInfo, strategyId: u64, data: Option<seq<byte>>)
    | ExecuteStrategy(info: StrategyInfo, action: Action)
    | SingleTokenDisbursement(sequence: u64, chain: u16, recipient: seq<byte>, swap: Option<SwapInfo>)

  // ----- Writing. -----

  function SequenceBytes(sequences: seq<u64>): (bytes: seq<byte>)
    ensures |bytes| == 8 * |sequences|
  {
    if |sequences| == 0 then []
    else SequenceBytes(sequences[..|sequences| - 1]) + ToBigEndian(sequences[|sequences| - 1], 8)
  }

  /** Position, chain and transfer count; the count is cast to 32 bits. */
  function FixedPart(info: StrategyInfo): seq<byte> {
    ToBigEndian(info.positionId, 16) + ToBigEndian(info.strategyChain, 2) + ToBigEndian(|info.sequences|, 4)
  }

  function DataText(data: Option<seq<byte>>): seq<byte> {
    if data.None? then [] else Base64.Encode(data.value)
  }

  /** Version, type, and the part the two strategy instructions share. */
  function Header(instructionType: byte, info: StrategyInfo): seq<byte> {
    [VERSION, instructionType] + FixedPart(info) + SequenceBytes(info.sequences)
  }

  /** Text behind its length, which is cast to 32 bits. */
  function WithText(bytes: seq<byte>, text: seq<byte>): seq<byte> {
    bytes + ToBigEndian(|text|, 4) + text
  }

  function Encoded(json: Json, i: Instruction): Result<seq<byte>> {
    match i
    case PositionOpen(info, strategyId, data) =>
      Ok(WithText(Header(TYPE_POSITION_OPEN, info), DataText(data)) + ToBigEndian(strategyId, 8))
    case ExecuteStrategy(info, action) =>
      Ok(WithText(Header(TYPE_EXECUTE_STRATEGY, info), Base64.Encode(json.encode(action))))
    case SingleTokenDisbursement(sequence, chain, recipient, swap) =>
      var head := [VERSION, TYPE_SINGLE_TOKEN_DISBURSEMENT]
                  + ToBigEndian(sequence, 8) + ToBigEndian(chain, 2) + recipient;
      if swap.None? then Ok(head)
      else if |swap.value.desiredToken| != 32 then Err(Generic("invalid desired token address length"))
      else Ok(head + swap.value.desiredToken + ToBigEndian(swap.value.minimumAmount, 32))
  }

  method Serialize(json: Json, i: Instruction) returns (r: Result<seq<byte>>)
    ensures r == Encoded(json, i)
  {
    match i
    case PositionOpen(info, strategyId, data) =>
      var bytes := ExtendWithSequences([VERSION, TYPE_POSITION_OPEN] + FixedPart(info), info.sequences);
      if data.Some? {
        var text := Base64.Encode(data.value);
        bytes := bytes + ToBigEndian(|text|, 4);
        bytes := bytes + text;
      } else {
        bytes := bytes + ToBigEndian(0, 4);
        assert bytes + [] == bytes;
      }
      bytes := bytes + ToBigEndian(strategyId, 8);
      r := Ok(bytes);
    case ExecuteStrategy(info, action) =>
      var bytes := ExtendWithSequences([VERSION, TYPE_EXECUTE_STRATEGY] + FixedPart(info), info.sequences);
      var text := Base64.Encode(json.encode(action));
      bytes := bytes + ToBigEndian(|text|, 4);
      bytes := bytes + text;
      r := Ok(bytes);
    case SingleTokenDisbursement(sequence, chain, recipient, swap) =>
      var bytes := [VERSION, TYPE_SINGLE_TOKEN_DISBURSEMENT]
                   + ToBigEndian(sequence, 8) + ToBigEndian(chain, 2) + recipient;
      if swap.Some? {
        if |swap.value.desiredToken| != 32 {
          return Err(Generic("invalid desired token address length"));
        }
        bytes := bytes + swap.value.desiredToken;
        bytes := bytes + ToBigEndian(swap.value.minimumAmount, 32);
      }
      r := Ok(bytes);
  }

  method ExtendWithSequences(prefix: seq<byte>, sequences: seq<u64>) returns (bytes: seq<byte>)
    ensures bytes == prefix + SequenceBytes(sequences)
  {
    bytes := prefix;
    for i := 0 to |sequences|
      invariant bytes == prefix + SequenceBytes(sequences[..i])
    {
      bytes := bytes + ToBigEndian(sequences[i], 8);
      assert sequences[..i + 1][..i] == sequences[..i];
    }
    assert sequences[..|sequences|] == sequences;
  }

  // ----- Reading. -----

  /** `split_at`, which panics past the end. */
  function SplitAt(payload: seq<byte>, n: nat): Result<(seq<byte>, seq<byte>)> {
    if n <= |payload| then Ok((payload[..n], payload[n..])) else Err(Panic)
  }

  /** The 64-bit integers of the next `n` transfers, and what follows them. */
  function ReadSequences(payload: seq<byte>, n: nat): Result<(seq<u64>, seq<byte>)> {
    if n == 0 then Ok(([], payload))
    else
      var split :- SplitAt(payload, 8);
      var rest :- ReadSequences(split.1, n - 1);
      Ok(([GetU64(split.0, 0)] + rest.0, rest.1))
  }

  function ReadInfo(payload: seq<byte>): Result<(StrategyInfo, seq<byte>)> {
    var position :- SplitAt(payload, 16);
    var chain :- SplitAt(position.1, 2);
    var count :- SplitAt(chain.1, 4);
    var sequences :- ReadSequences(count.1, FromBigEndian(count.0));
    Ok((StrategyInfo(GetU128(position.0, 0), GetU16(chain.0, 0), sequences.0), sequences.1))
  }

  /** A length-prefixed text and what follows it. */
  function ReadPrefixed(payload: seq<byte>): Result<(seq<byte>, seq<byte>)> {
    var length :- SplitAt(payload, 4);
    SplitAt(length.1, FromBigEndian(length.0))
  }

  function DecodeText(text: seq<byte>): Result<seq<byte>> {
    var data := Base64.Decode(text);
    if data.None? then Err(Generic("invalid base64")) else Ok(data.value)
  }

  function ReadOpen(info: StrategyInfo, payload: seq<byte>): Result<Instruction> {
    var text :- ReadPrefixed(payload);
    var data :- if |text.0| == 0 then Ok(None)
                else (var bytes :- DecodeText(text.0); Ok(Some(bytes)));
    if |text.1| != 8 then Err(Generic("invalid instruction payload length"))
    else Ok(PositionOpen(info, GetU64(text.1, 0), data))
  }

  function ReadExecute(json: Json, info: StrategyInfo, payload: seq<byte>): Result<Instruction> {
    var text :- ReadPrefixed(payload);
    var bytes :- DecodeText(text.0);
    var action := json.decode(bytes);
    if action.None? then Err(Generic("invalid action"))
    else if |text.1| != 0 then Err(Generic("invalid instruction payload length"))
    else if action.value.OpenPosition? then Err(Generic("open-position action on an existing position is disallowed"))
    else Ok(ExecuteStrategy(info, action.value))
  }

  function Decoded(json: Json, payload: seq<byte>): Result<Instruction> {
    if |payload| == 0 then Err(Panic)
    else if payload[0] != VERSION then Err(Generic("invalid or unsupported version"))
    else if |payload| == 1 then Err(Panic)
    else if payload[1] != TYPE_POSITION_OPEN && payload[1] != TYPE_EXECUTE_STRATEGY then
      Err(Generic("unsupported instruction type for deserialization"))
    else
      var info :- ReadInfo(payload[2..]);
      if payload[1] == TYPE_POSITION_OPEN then ReadOpen(info.0, info.1)
      else ReadExecute(json, info.0, info.1)
  }

  method ReadAllSequences(payload: seq<byte>, n: nat) returns (r: Result<(seq<u64>, seq<byte>)>)
    ensures r == ReadSequences(payload, n)
  {
    var rest := payload;
    var sequences: seq<u64> := [];
    assert ReadSequences(payload, n).Ok? ==>
      [] + ReadSequences(payload, n).value.0 == ReadSequences(payload, n).value.0;
    for i := 0 to n
      invariant ReadSequences(payload, n) == Resume(sequences, ReadSequences(rest, n - i))
    {
      ghost var before := sequences;
      ghost var later := ReadSequences(rest, n - i);
      var split :- SplitAt(rest, 8);
      rest := split.1;
      sequences := sequences + [GetU64(split.0, 0)];
      assert later.Ok? ==> before + later.value.0 == sequences + ReadSequences(rest, n - i - 1).value.0;
    }
    assert sequences + [] == sequences;
    r := Ok((sequences, rest));
  }

  /** The outcome of a read that had already collected `sequences`. */
  ghost function Resume(sequences: seq<u64>, later: Result<(seq<u64>, seq<byte>)>): Result<(seq<u64>, seq<byte>)> {
    if later.Ok? then Ok((sequences + later.value.0, later.value.1)) else later
  }

  method Deserialize(json: Json, payload: seq<byte>) returns (r: Result<Instruction>)
    ensures r == Decoded(json, payload)
  {
    if |payload| == 0 {
      return Err(Panic);
    }
    if payload[0] != VERSION {
      return Err(Generic("invalid or unsupported version"));
    }
    if |payload| == 1 {
      return Err(Panic);
    }
    var instructionType := payload[1];
    if instructionType != TYPE_POSITION_OPEN && instructionType != TYPE_EXECUTE_STRATEGY {
      return Err(Generic("unsupported instruction type for deserialization"));
    }
    var position :- SplitAt(payload[2..], 16);
    var chain :- SplitAt(position.1, 2);
    var count :- SplitAt(chain.1, 4);
    var sequences :- ReadAllSequences(count.1, FromBigEndian(count.0));
    var info := StrategyInfo(GetU128(position.0, 0), GetU16(chain.0, 0), sequences.0);
    if instructionType == TYPE_POSITION_OPEN {
      r := ReadOpen(info, sequences.1);
    } else {
      r := ReadExecute(json, info, sequences.1);
    }
  }

  // ----- Writing, then reading. -----

  lemma SplitConcat(a: seq<byte>, b: seq<byte>)
    ensures SplitAt(a + b, |a|) == Ok((a, b))
  {
    assert (a + b)[..|a|] == a && (a + b)[|a|..] == b;
  }

  lemma SplitInside(text: seq<byte>, n: nat, tail: seq<byte>)
    requires n <= |text|
    ensures SplitAt(text + tail, n) == Ok((text[..n], text[n..] + tail))
  {
    assert (text + tail)[..n] == text[..n] && (text + tail)[n..] == text[n..] + tail;
  }

  /** The first `n` of the sequences written are read back, whatever follows. */
  lemma {:induction false} SequencesBack(sequences: seq<u64>, n: nat, tail: seq<byte>)
    requires n <= |sequences|
    ensures ReadSequences(SequenceBytes(sequences) + tail, n)
            == Ok((sequences[..n], SequenceBytes(sequences[n..]) + tail))
    decreases n
  {
    var bytes := SequenceBytes(sequences);
    if n == 0 {
      assert sequences[0..] == sequences;
    } else {
      var first := ToBigEndian(sequences[0], 8);
      SequencesFromFront(sequences);
      assert bytes + tail == first + (SequenceBytes(sequences[1..]) + tail);
      SplitConcat(first, SequenceBytes(sequences[1..]) + tail);
      U64Back(sequences[0]);
      SequencesBack(sequences[1..], n - 1, tail);
      assert sequences[1..][..n - 1] == sequences[1..n] && sequences[1..][n - 1..] == sequences[n..];
      assert [sequences[0]] + sequences[1..n] == sequences[..n];
    }
  }

  lemma {:induction false} SequencesFromFront(sequences: seq<u64>)
    requires |sequences| > 0
    ensures SequenceBytes(sequences) == ToBigEndian(sequences[0], 8) + SequenceBytes(sequences[1..])
  {
    var n := |sequences|;
    if n == 1 {
      assert sequences[..0] == [] && sequences[1..] == [];
    } else {
      var front := sequences[..n - 1];
      SequencesFromFront(front);
      assert front[1..] == sequences[1..][..n - 2];
    }
  }

  /** The strategy part is read back, with as many sequences as the 32-bit count says. */
  lemma InfoBack(info: StrategyInfo, tail: seq<byte>)
    ensures var n := Cast32(|info.sequences|);
            ReadInfo(FixedPart(info) + SequenceBytes(info.sequences) + tail)
            == Ok((info.(sequences := info.sequences[..n]), SequenceBytes(info.sequences[n..]) + tail))
  {
    var n := Cast32(|info.sequences|);
    var position, chain := ToBigEndian(info.positionId, 16), ToBigEndian(info.strategyChain, 2);
    var count, bytes := ToBigEndian(|info.sequences|, 4), SequenceBytes(info.sequences);
    var rest1 := count + (bytes + tail);
    var rest0 := chain + rest1;
    assert FixedPart(info) + bytes + tail == position + rest0;
    SplitConcat(position, rest0);
    SplitConcat(chain, rest1);
    SplitConcat(count, bytes + tail);
    U128Back(info.positionId);
    U16Back(info.strategyChain);
    SequencesBack(info.sequences, n, tail);
  }

  lemma PrefixedSplits(length: seq<byte>, text: seq<byte>, n: nat, tail: seq<byte>)
    requires |length| == 4 && FromBigEndian(length) == n && n <= |text|
    ensures ReadPrefixed(length + text + tail) == Ok((text[..n], text[n..] + tail))
  {
    assert length + text + tail == length + (text + tail);
    SplitConcat(length, text + tail);
    SplitInside(text, n, tail);
  }

  /** A prefixed text is read back as far as its 32-bit length says. */
  lemma PrefixedBack(text: seq<byte>, tail: seq<byte>)
    ensures var n := Cast32(|text|);
            ReadPrefixed(ToBigEndian(|text|, 4) + text + tail) == Ok((text[..n], text[n..] + tail))
  {
    PrefixedSplits(ToBigEndian(|text|, 4), text, Cast32(|text|), tail);
  }

  lemma WholePrefixedBack(text: seq<byte>, tail: seq<byte>)
    requires |text| < 0x1_0000_0000
    ensures ReadPrefixed(ToBigEndian(|text|, 4) + text + tail) == Ok((text, tail))
  {
    U32Cast(|text|);
    WholePrefixSplits(ToBigEndian(|text|, 4), text, tail);
  }

  lemma WholePrefixSplits(length: seq<byte>, text: seq<byte>, tail: seq<byte>)
    requires |length| == 4 && FromBigEndian(length) == |text|
    ensures ReadPrefixed(length + text + tail) == Ok((text, tail))
  {
    assert length + text + tail == length + (text + tail);
    SplitConcat(length, text + tail);
    SplitConcat(text, tail);
  }

  /** Where an encoded instruction's text starts. */
  lemma PayloadOf(json: Json, i: Instruction)
    requires !i.SingleTokenDisbursement?
    ensures var bytes := Encoded(json, i).value;
            var instructionType := if i.PositionOpen? then TYPE_POSITION_OPEN else TYPE_EXECUTE_STRATEGY;
            && |bytes| >= 2 && bytes[0] == VERSION && bytes[1] == instructionType
            && bytes[2..] == FixedPart(i.info) + SequenceBytes(i.info.sequences) + TextPart(json, i)
  {
    var h := [VERSION, if i.PositionOpen? then TYPE_POSITION_OPEN else TYPE_EXECUTE_STRATEGY];
    var fixed, sequences := FixedPart(i.info), SequenceBytes(i.info.sequences);
    if i.PositionOpen? {
      var text := DataText(i.data);
      Regroup(h, fixed, sequences, ToBigEndian(|text|, 4), text, ToBigEndian(i.strategyId, 8));
    } else {
      var text := ActionText(json, i);
      Regroup(h, fixed, sequences, ToBigEndian(|text|, 4), text, []);
    }
  }

  lemma Regroup(h: seq<byte>, f: seq<byte>, s: seq<byte>, l: seq<byte>, t: seq<byte>, u: seq<byte>)
    requires |h| == 2
    ensures h + f + s + l + t + u == h + (f + s + (l + t + u))
    ensures (h + f + s + l + t + u)[..2] == h && (h + f + s + l + t + u)[2..] == f + s + (l + t + u)
    ensures u == [] ==> h + f + s + l + t + u == h + f + s + l + t && l + t + u == l + t
  {
    var rest := f + s + (l + t + u);
    assert h + f + s + l + t + u == h + rest;
    assert (h + rest)[..2] == h && (h + rest)[2..] == rest;
  }

  /** `bytes` is the big-endian integer `v` at that width. */
  predicate IsNumber(bytes: seq<byte>, width: nat, v: nat) {
    |bytes| == width && FromBigEndian(bytes) == v
  }

  /** One 64-bit integer after the other. */
  predicate AreNumbers(bytes: seq<byte>, numbers: seq<u64>) {
    && |bytes| == 8 * |numbers|
    && forall k :: 0 <= k < |numbers| ==> FromBigEndian(Slice(bytes, 8 * k, 8)) == numbers[k]
  }

  /** A strategy instruction is, one after the other: version, type, position, chain, the count of
      sequences, the sequences, and the text behind its length, with the strategy behind that if it
      opens a position. Count and length are cut to 32 bits. */
  lemma StrategyLayout(json: Json, i: Instruction)
    returns (position: seq<byte>, chain: seq<byte>, count: seq<byte>, sequences: seq<byte>, length: seq<byte>,
             text: seq<byte>, strategy: seq<byte>)
    requires !i.SingleTokenDisbursement?
    ensures Encoded(json, i) == Ok([0, if i.PositionOpen? then 0 else 1] + position + chain + count + sequences
                                   + length + text + strategy)
    ensures IsNumber(position, 16, i.info.positionId) && IsNumber(chain, 2, i.info.strategyChain)
    ensures IsNumber(count, 4, |i.info.sequences| % 0x1_0000_0000) && AreNumbers(sequences, i.info.sequences)
    ensures IsNumber(length, 4, |text| % 0x1_0000_0000)
    ensures i.PositionOpen? ==> IsNumber(strategy, 8, i.strategyId)
    ensures i.PositionOpen? ==> text == if i.data.None? then [] else Base64.Encode(i.data.value)
    ensures i.ExecuteStrategy? ==> text == Base64.Encode(json.encode(i.action)) && strategy == []
  {
    position, chain := ToBigEndian(i.info.positionId, 16), ToBigEndian(i.info.strategyChain, 2);
    count, sequences := ToBigEndian(|i.info.sequences|, 4), SequenceBytes(i.info.sequences);
    text := if i.PositionOpen? then DataText(i.data) else ActionText(json, i);
    strategy := if i.PositionOpen? then ToBigEndian(i.strategyId, 8) else [];
    length := ToBigEndian(|text|, 4);
    NumbersWritten(i);
    U32Cast(|text|);
    SequencesWritten(i.info.sequences);
    var h: seq<byte> := [0, if i.PositionOpen? then 0 else 1];
    Grouped(h, position, chain, count, sequences + length + text);
    Grouped(h, position, chain, count, sequences);
    assert h + position + chain + count + sequences + length + text + []
        == h + position + chain + count + sequences + length + text;
  }

  lemma Grouped(h: seq<byte>, p: seq<byte>, c: seq<byte>, n: seq<byte>, rest: seq<byte>)
    ensures h + (p + c + n) + rest == h + p + c + n + rest
  {}

  lemma NumbersWritten(i: Instruction)
    requires !i.SingleTokenDisbursement?
    ensures IsNumber(ToBigEndian(i.info.positionId, 16), 16, i.info.positionId)
    ensures IsNumber(ToBigEndian(i.info.strategyChain, 2), 2, i.info.strategyChain)
    ensures IsNumber(ToBigEndian(|i.info.sequences|, 4), 4, |i.info.sequences| % 0x1_0000_0000)
    ensures i.PositionOpen? ==> IsNumber(ToBigEndian(i.strategyId, 8), 8, i.strategyId)
  {
    WidthValues();
    Exact(i.info.positionId, 16);
    Exact(i.info.strategyChain, 2);
    U32Cast(|i.info.sequences|);
    if i.PositionOpen? {
      Exact(i.strategyId, 8);
    }
  }

  lemma {:induction false} SequencesWritten(sequences: seq<u64>)
    ensures AreNumbers(SequenceBytes(sequences), sequences)
  {
    if |sequences| > 0 {
      var n := |sequences| - 1;
      SequencesWritten(sequences[..n]);
      WidthValues();
      Exact(sequences[n], 8);
      OneNumberMore(SequenceBytes(sequences[..n]), sequences, ToBigEndian(sequences[n], 8));
    }
  }

  lemma OneNumberMore(front: seq<byte>, numbers: seq<u64>, last: seq<byte>)
    requires 0 < |numbers| && AreNumbers(front, numbers[..|numbers| - 1])
    requires IsNumber(last, 8, numbers[|numbers| - 1])
    ensures AreNumbers(front + last, numbers)
  {
    var n := |numbers| - 1;
    forall k | 0 <= k < |numbers|
      ensures FromBigEndian(Slice(front + last, 8 * k, 8)) == numbers[k]
    {
      if k < n {
        assert Slice(front + last, 8 * k, 8) == Slice(front, 8 * k, 8);
        assert numbers[..n][k] == numbers[k];
      } else {
        assert Slice(front + last, 8 * k, 8) == last;
      }
    }
  }

  /** What follows the strategy part of an instruction. */
  function TextPart(json: Json, i: Instruction): seq<byte>
    requires !i.SingleTokenDisbursement?
  {
    if i.PositionOpen? then ToBigEndian(|DataText(i.data)|, 4) + DataText(i.data) + ToBigEndian(i.strategyId, 8)
    else ToBigEndian(|ActionText(json, i)|, 4) + ActionText(json, i)
  }

  function ActionText(json: Json, i: Instruction): seq<byte>
    requires i.ExecuteStrategy?
  {
    Base64.Encode(json.encode(i.action))
  }

  /** The instructions that survive the trip: counts and lengths within 32 bits, data that is
      not an empty byte string, and no position opening disguised as an execution. */
  predicate Transportable(json: Json, i: Instruction) {
    match i
    case PositionOpen(info, _, data) =>
      |info.sequences| < 0x1_0000_0000 && |DataText(data)| < 0x1_0000_0000 && data != Some([])
    case ExecuteStrategy(info, action) =>
      |info.sequences| < 0x1_0000_0000 && |ActionText(json, i)| < 0x1_0000_0000 && !action.OpenPosition?
    case SingleTokenDisbursement(_, _, _, _) => false
  }

  lemma DecodedParts(json: Json, i: Instruction)
    requires !i.SingleTokenDisbursement?
    ensures var n := Cast32(|i.info.sequences|);
            var info := i.info.(sequences := i.info.sequences[..n]);
            var rest := SequenceBytes(i.info.sequences[n..]) + TextPart(json, i);
            Decoded(json, Encoded(json, i).value) ==
              if i.PositionOpen? then ReadOpen(info, rest) else ReadExecute(json, info, rest)
  {
    PayloadOf(json, i);
    InfoBack(i.info, TextPart(json, i));
  }

  lemma OpenBack(json: Json, i: Instruction)
    requires i.PositionOpen? && Transportable(json, i)
    ensures ReadOpen(i.info, TextPart(json, i)) == Ok(i)
  {
    var text, tail := DataText(i.data), ToBigEndian(i.strategyId, 8);
    WholePrefixedBack(text, tail);
    U64Back(i.strategyId);
    if i.data.Some? {
      Base64.EncodeThenDecode(i.data.value);
      Base64.EncodedLength(i.data.value);
    }
  }

  lemma ExecuteBack(json: Json, i: Instruction)
    requires json.Inverse() && i.ExecuteStrategy? && Transportable(json, i)
    ensures ReadExecute(json, i.info, TextPart(json, i)) == Ok(i)
  {
    var text := ActionText(json, i);
    WholePrefixedBack(text, []);
    assert ToBigEndian(|text|, 4) + text + [] == TextPart(json, i);
    Base64.EncodeThenDecode(json.encode(i.action));
  }

  /** With its sequences intact, an instruction that is not transportable is not read back. */
  lemma TextLost(json: Json, i: Instruction)
    requires json.Inverse() && !i.SingleTokenDisbursement? && |i.info.sequences| < 0x1_0000_0000
    requires !Transportable(json, i)
    ensures Decoded(json, Encoded(json, i).value) != Ok(i)
  {
    DecodedParts(json, i);
    assert i.info.sequences[..|i.info.sequences|] == i.info.sequences;
    assert i.info.sequences[|i.info.sequences|..] == [];
    assert [] + TextPart(json, i) == TextPart(json, i);
    if i.PositionOpen? {
      OpenLost(json, i);
    } else {
      ExecuteLost(json, i);
    }
  }

  lemma OpenLost(json: Json, i: Instruction)
    requires i.PositionOpen? && |i.info.sequences| < 0x1_0000_0000 && !Transportable(json, i)
    ensures ReadOpen(i.info, TextPart(json, i)) != Ok(i)
  {
    PrefixedBack(DataText(i.data), ToBigEndian(i.strategyId, 8));
  }

  lemma ExecuteLost(json: Json, i: Instruction)
    requires json.Inverse() && i.ExecuteStrategy? && |i.info.sequences| < 0x1_0000_0000 && !Transportable(json, i)
    ensures ReadExecute(json, i.info, TextPart(json, i)) != Ok(i)
  {
    var text := ActionText(json, i);
    PrefixedBack(text, []);
    assert ToBigEndian(|text|, 4) + text + [] == TextPart(json, i);
    if |text| < 0x1_0000_0000 {
      assert text[..|text|] == text;
      Base64.EncodeThenDecode(json.encode(i.action));
    }
  }

  /** Reading back what was written returns the instruction exactly when it is transportable. */
  lemma RoundTrip(json: Json, i: Instruction)
    requires json.Inverse() && !i.SingleTokenDisbursement?
    ensures Decoded(json, Encoded(json, i).value) == Ok(i) <==> Transportable(json, i)
  {
    DecodedParts(json, i);
    if |i.info.sequences| >= 0x1_0000_0000 {
      InfoKept(json, i);
    } else if Transportable(json, i) {
      assert i.info.sequences[..|i.info.sequences|] == i.info.sequences;
      assert i.info.sequences[|i.info.sequences|..] == [];
      assert [] + TextPart(json, i) == TextPart(json, i);
      if i.PositionOpen? {
        OpenBack(json, i);
      } else {
        ExecuteBack(json, i);
      }
    } else {
      TextLost(json, i);
    }
  }

  /** Whatever is read carries the strategy part that was read first. */
  lemma InfoKept(json: Json, i: Instruction)
    requires !i.SingleTokenDisbursement?
    ensures var d := Decoded(json, Encoded(json, i).value);
            d.Ok? ==> !d.value.SingleTokenDisbursement? && |d.value.info.sequences| == Cast32(|i.info.sequences|)
  {
    DecodedParts(json, i);
    var n := Cast32(|i.info.sequences|);
    ReadersKeepInfo(json, i.info.(sequences := i.info.sequences[..n]),
                    SequenceBytes(i.info.sequences[n..]) + TextPart(json, i));
  }

  lemma ReadersKeepInfo(json: Json, info: StrategyInfo, payload: seq<byte>)
    ensures ReadOpen(info, payload).Ok? ==>
      ReadOpen(info, payload).value.PositionOpen? && ReadOpen(info, payload).value.info == info
    ensures ReadExecute(json, info, payload).Ok? ==>
      ReadExecute(json, info, payload).value.ExecuteStrategy? && ReadExecute(json, info, payload).value.info == info
  {}

  // ----- Reading, then writing. -----

  lemma SplitJoins(payload: seq<byte>, n: nat)
    requires SplitAt(payload, n).Ok?
    ensures var split := SplitAt(payload, n).value;
            |split.0| == n && payload == split.0 + split.1
  {}

  lemma {:induction false} SequencesReadJoin(payload: seq<byte>, n: nat)
    requires ReadSequences(payload, n).Ok?
    ensures var read := ReadSequences(payload, n).value;
            |read.0| == n && payload == SequenceBytes(read.0) + read.1
    decreases n
  {
    if n > 0 {
      var split := SplitAt(payload, 8).value;
      SplitJoins(payload, 8);
      SequencesReadJoin(split.1, n - 1);
      var rest, sequences := ReadSequences(split.1, n - 1).value, ReadSequences(payload, n).value.0;
      SliceAll(split.0);
      ReadThenWrite(split.0);
      assert sequences[1..] == rest.0;
      SequencesFromFront(sequences);
      assert split.0 + (SequenceBytes(rest.0) + rest.1) == split.0 + SequenceBytes(rest.0) + rest.1;
    }
  }

  lemma InfoReadJoins(payload: seq<byte>)
    requires ReadInfo(payload).Ok?
    ensures var read := ReadInfo(payload).value;
            && |read.0.sequences| < 0x1_0000_0000
            && payload == FixedPart(read.0) + SequenceBytes(read.0.sequences) + read.1
  {
    var position := SplitAt(payload, 16).value;
    var chain := SplitAt(position.1, 2).value;
    var count := SplitAt(chain.1, 4).value;
    var n := FromBigEndian(count.0);
    SplitJoins(payload, 16);
    SplitJoins(position.1, 2);
    SplitJoins(chain.1, 4);
    SequencesReadJoin(count.1, n);
    WidthValues();
    SliceAll(position.0);
    SliceAll(chain.0);
    ReadThenWrite(position.0);
    ReadThenWrite(chain.0);
    ReadThenWrite(count.0);
    var read := ReadInfo(payload).value;
    Regrouped(position.0, chain.0, count.0, SequenceBytes(read.0.sequences), read.1);
  }

  lemma Regrouped(p: seq<byte>, c: seq<byte>, n: seq<byte>, s: seq<byte>, rest: seq<byte>)
    ensures p + (c + (n + (s + rest))) == p + c + n + s + rest
  {}

  lemma TextReadJoins(payload: seq<byte>)
    requires ReadPrefixed(payload).Ok?
    ensures var read := ReadPrefixed(payload).value;
            && |read.0| < 0x1_0000_0000
            && payload == ToBigEndian(|read.0|, 4) + read.0 + read.1
  {
    var length := SplitAt(payload, 4).value;
    SplitJoins(payload, 4);
    WidthValues();
    ReadThenWrite(length.0);
    var read := ReadPrefixed(payload).value;
    SplitJoins(length.1, |read.0|);
    assert length.0 + (read.0 + read.1) == length.0 + read.0 + read.1;
  }

  /** An opening is read from nothing but what writing it produces. */
  lemma OpeningReadIsWritten(json: Json, payload: seq<byte>, i: Instruction)
    requires Decoded(json, payload) == Ok(i) && i.PositionOpen?
    ensures Encoded(json, i) == Ok(payload) && Transportable(json, i)
  {
    var read := ReadInfo(payload[2..]).value;
    InfoReadJoins(payload[2..]);
    var length, tail := OpenPartsBack(read.0, read.1, i);
    ReadThenWrite(length);
    ReadThenWrite(tail);
    PayloadOf(json, i);
    SameTail(payload, Encoded(json, i).value);
  }

  lemma OpenPartsBack(info: StrategyInfo, payload: seq<byte>, i: Instruction)
    returns (length: seq<byte>, tail: seq<byte>)
    requires ReadOpen(info, payload) == Ok(i)
    ensures i.PositionOpen? && i.info == info && |DataText(i.data)| < 0x1_0000_0000 && i.data != Some([])
    ensures payload == length + DataText(i.data) + tail
    ensures IsNumber(length, 4, |DataText(i.data)|) && IsNumber(tail, 8, i.strategyId)
  {
    TextReadJoins(payload);
    var text := ReadPrefixed(payload).value;
    length, tail := ToBigEndian(|text.0|, 4), text.1;
    U32Cast(|text.0|);
    OpenTextBack(text.0, i.data);
    SliceAll(tail);
  }

  lemma SameTail(a: seq<byte>, b: seq<byte>)
    requires |a| >= 2 && |b| >= 2 && a[0] == b[0] && a[1] == b[1] && a[2..] == b[2..]
    ensures a == b
  {
    assert a == [a[0], a[1]] + a[2..] && b == [b[0], b[1]] + b[2..];
  }

  lemma OpenTextBack(text: seq<byte>, data: Option<seq<byte>>)
    requires if |text| == 0 then data == None else Base64.Decode(text).Some? && data == Some(Base64.Decode(text).value)
    ensures DataText(data) == text && data != Some([])
  {
    if |text| > 0 {
      Base64.DecodeThenEncode(text);
    }
  }

  /** A request for an action is read from nothing but a text for that action, written like one; only
      the JSON of the action may differ from what writing it produces. */
  lemma RequestReadIsWritten(json: Json, payload: seq<byte>, i: Instruction) returns (text: seq<byte>)
    requires Decoded(json, payload) == Ok(i) && i.ExecuteStrategy?
    ensures payload == WithText(Header(TYPE_EXECUTE_STRATEGY, i.info), Base64.Encode(text))
    ensures json.decode(text) == Some(i.action) && !i.action.OpenPosition?
    ensures |i.info.sequences| < 0x1_0000_0000 && |Base64.Encode(text)| < 0x1_0000_0000
  {
    var read := ReadInfo(payload[2..]).value;
    InfoReadJoins(payload[2..]);
    TextReadJoins(read.1);
    var prefixed := ReadPrefixed(read.1).value;
    text := Base64.Decode(prefixed.0).value;
    Base64.DecodeThenEncode(prefixed.0);
    RequestJoins(payload, i.info, prefixed.0, prefixed.1);
  }

  lemma RequestJoins(payload: seq<byte>, info: StrategyInfo, text: seq<byte>, nothing: seq<byte>)
    requires |payload| >= 2 && payload[0] == VERSION && payload[1] == TYPE_EXECUTE_STRATEGY && nothing == []
    requires payload[2..] == FixedPart(info) + SequenceBytes(info.sequences)
                             + (ToBigEndian(|text|, 4) + text + nothing)
    ensures payload == WithText(Header(TYPE_EXECUTE_STRATEGY, info), text)
  {
    var h: seq<byte> := [VERSION, TYPE_EXECUTE_STRATEGY];
    Regroup(h, FixedPart(info), SequenceBytes(info.sequences), ToBigEndian(|text|, 4), text, nothing);
    SameTail(payload, h + FixedPart(info) + SequenceBytes(info.sequences) + ToBigEndian(|text|, 4) + text + nothing);
  }

  // ----- No two instructions are written alike. -----

  /** Instructions whose counts and lengths fit, and whose data is not an empty byte string. */
  predicate Representable(json: Json, i: Instruction) {
    match i
    case PositionOpen(info, _, data) =>
      |info.sequences| < 0x1_0000_0000 && |DataText(data)| < 0x1_0000_0000 && data != Some([])
    case ExecuteStrategy(info, action) =>
      |info.sequences| < 0x1_0000_0000 && |ActionText(json, i)| < 0x1_0000_0000
    case SingleTokenDisbursement(_, _, recipient, swap) =>
      |recipient| == 32
      && (swap.Some? ==> |swap.value.desiredToken| == 32 && swap.value.minimumAmount < Pow256(32))
  }

  /** The strategy parts and the texts of two equal encodings are equal. */
  lemma SameParts(json: Json, i: Instruction, j: Instruction)
    requires !i.SingleTokenDisbursement? && !j.SingleTokenDisbursement?
    requires |i.info.sequences| < 0x1_0000_0000 && |j.info.sequences| < 0x1_0000_0000
    requires Encoded(json, i) == Encoded(json, j)
    ensures i.PositionOpen? == j.PositionOpen? && i.info == j.info && TextPart(json, i) == TextPart(json, j)
  {
    PayloadOf(json, i);
    PayloadOf(json, j);
    WholeInfoBack(i.info, TextPart(json, i));
    WholeInfoBack(j.info, TextPart(json, j));
  }

  lemma WholeInfoBack(info: StrategyInfo, tail: seq<byte>)
    requires |info.sequences| < 0x1_0000_0000
    ensures ReadInfo(FixedPart(info) + SequenceBytes(info.sequences) + tail) == Ok((info, tail))
  {
    InfoBack(info, tail);
    assert info.sequences[..|info.sequences|] == info.sequences && info.sequences[|info.sequences|..] == [];
    assert [] + tail == tail;
  }

  lemma SameTexts(a: seq<byte>, b: seq<byte>, tailA: seq<byte>, tailB: seq<byte>)
    requires |a| < 0x1_0000_0000 && |b| < 0x1_0000_0000
    requires ToBigEndian(|a|, 4) + a + tailA == ToBigEndian(|b|, 4) + b + tailB
    ensures a == b && tailA == tailB
  {
    WholePrefixedBack(a, tailA);
    WholePrefixedBack(b, tailB);
  }

  lemma SameDisbursements(json: Json, i: Instruction, j: Instruction)
    requires i.SingleTokenDisbursement? && j.SingleTokenDisbursement?
    requires Representable(json, i) && Representable(json, j) && Encoded(json, i) == Encoded(json, j)
    ensures i == j
  {
    DisbursementParts(json, i);
    DisbursementParts(json, j);
    U64Back(i.sequence);
    U64Back(j.sequence);
    U16Back(i.chain);
    U16Back(j.chain);
    if i.swap.Some? {
      Exact(i.swap.value.minimumAmount, 32);
      Exact(j.swap.value.minimumAmount, 32);
    }
  }

  lemma DisbursementParts(json: Json, i: Instruction)
    requires i.SingleTokenDisbursement? && Representable(json, i)
    ensures var bytes := Encoded(json, i).value;
            && |bytes| == (if i.swap.None? then 44 else 108)
            && bytes[2..10] == ToBigEndian(i.sequence, 8) && bytes[10..12] == ToBigEndian(i.chain, 2)
            && bytes[12..44] == i.recipient
            && (i.swap.Some? ==>
                  && bytes[44..76] == i.swap.value.desiredToken
                  && bytes[76..108] == ToBigEndian(i.swap.value.minimumAmount, 32))
  {
    var h: seq<byte> := [VERSION, TYPE_SINGLE_TOKEN_DISBURSEMENT];
    HeadParts(h, ToBigEndian(i.sequence, 8), ToBigEndian(i.chain, 2), i.recipient);
    var head := h + ToBigEndian(i.sequence, 8) + ToBigEndian(i.chain, 2) + i.recipient;
    if i.swap.Some? {
      TailParts(head, i.swap.value.desiredToken, ToBigEndian(i.swap.value.minimumAmount, 32));
    }
  }

  /** Where the parts of a disbursement lie: version, type, sequence, chain and recipient, and the
      token and least amount of a swap if there is one. */
  lemma DisbursementLayout(json: Json, i: Instruction)
    requires i.SingleTokenDisbursement? && Representable(json, i)
    ensures Encoded(json, i).Ok?
    ensures var bytes := Encoded(json, i).value;
            && |bytes| == (if i.swap.None? then 44 else 108)
            && bytes[0] == 0 && bytes[1] == 2
            && FromBigEndian(bytes[2..10]) == i.sequence && FromBigEndian(bytes[10..12]) == i.chain
            && bytes[12..44] == i.recipient
            && (i.swap.Some? ==>
                  && bytes[44..76] == i.swap.value.desiredToken
                  && FromBigEndian(bytes[76..108]) == i.swap.value.minimumAmount)
  {
    DisbursementParts(json, i);
    U64Back(i.sequence);
    SliceAll(ToBigEndian(i.sequence, 8));
    U16Back(i.chain);
    SliceAll(ToBigEndian(i.chain, 2));
    if i.swap.Some? {
      Exact(i.swap.value.minimumAmount, 32);
    }
  }

  lemma HeadParts(h: seq<byte>, s: seq<byte>, c: seq<byte>, r: seq<byte>)
    requires |h| == 2 && |s| == 8 && |c| == 2 && |r| == 32
    ensures var head := h + s + c + r;
            head[2..10] == s && head[10..12] == c && head[12..44] == r
  {}

  lemma TailParts(head: seq<byte>, t: seq<byte>, m: seq<byte>)
    requires |head| == 44 && |t| == 32 && |m| == 32
    ensures var bytes := head + t + m;
            && bytes[44..76] == t && bytes[76..108] == m
            && bytes[2..10] == head[2..10] && bytes[10..12] == head[10..12] && bytes[12..44] == head[12..44]
  {}

  /** Serialization is injective across all three kinds of instruction. */
  lemma SerializeInjective(json: Json, i: Instruction, j: Instruction)
    requires json.Inverse() && Representable(json, i) && Representable(json, j)
    requires Encoded(json, i) == Encoded(json, j)
    ensures i == j
  {
    TypeByte(json, i);
    TypeByte(json, j);
    if i.SingleTokenDisbursement? {
      SameDisbursements(json, i, j);
    } else {
      SameParts(json, i, j);
      if i.PositionOpen? {
        SameTexts(DataText(i.data), DataText(j.data), ToBigEndian(i.strategyId, 8), ToBigEndian(j.strategyId, 8));
        SameData(i.data, j.data);
        U64Back(i.strategyId);
        U64Back(j.strategyId);
      } else {
        assert TextPart(json, i) + [] == TextPart(json, i) && TextPart(json, j) + [] == TextPart(json, j);
        SameTexts(ActionText(json, i), ActionText(json, j), [], []);
        Base64.EncodeInjective(json.encode(i.action), json.encode(j.action));
        assert json.decode(json.encode(i.action)) == Some(i.action);
        assert json.decode(json.encode(j.action)) == Some(j.action);
      }
    }
  }

  lemma TypeByte(json: Json, i: Instruction)
    requires Representable(json, i)
    ensures Encoded(json, i).Ok? && |Encoded(json, i).value| >= 2
    ensures Encoded(json, i).value[1] ==
            if i.PositionOpen? then TYPE_POSITION_OPEN
            else if i.ExecuteStrategy? then TYPE_EXECUTE_STRATEGY
            else TYPE_SINGLE_TOKEN_DISBURSEMENT
  {
    if !i.SingleTokenDisbursement? {
      PayloadOf(json, i);
    }
  }

  lemma SameData(a: Option<seq<byte>>, b: Option<seq<byte>>)
    requires DataText(a) == DataText(b) && a != Some([]) && b != Some([])
    ensures a == b
  {
    if a.Some? {
      Base64.EncodedLength(a.value);
    }
    if b.Some? {
      Base64.EncodedLength(b.value);
    }
    if a.Some? && b.Some? {
      Base64.EncodeInjective(a.value, b.value);
    }
  }

  /** Without the condition on data the format conflates two openings. */
  lemma EmptyDataConflated(json: Json, info: StrategyInfo, strategyId: u64)
    ensures Encoded(json, PositionOpen(info, strategyId, Some([])))
         == Encoded(json, PositionOpen(info, strategyId, None))
  {}
}
