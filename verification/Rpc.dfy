/**
 The RPC request stream: the packed 57-byte header, building and sending requests, and the server
 loop that takes them off a byte stream. A receive comes back short only at the end of the stream.
 Multi-byte fields are little-endian, as on the supported hosts.
 */
module Rpc {
  import opened Bytes
  import opened CircularBuffer
  import opened MemoryStream

  const MAGIC: nat := 0xDEADBEEF
  const MAX_PARAM_COUNT: nat := 6
  const HEADER_SIZE: nat := 57

  /** RpcExecutionRequest: magic, functionId, params[6], paramCount. */
  datatype Header = Header(magic: nat, functionId: nat, sizes: seq<nat>, paramCount: nat)

  predicate Fits(h: Header) {
    && h.magic < 0x1_0000_0000 && h.functionId < 0x1_0000_0000 && h.paramCount < 256
    && |h.sizes| == MAX_PARAM_COUNT && forall i: nat :: i < |h.sizes| ==> h.sizes[i] < WORD
  }

  predicate CheckIntegrity(h: Header) {
    h.magic == MAGIC && h.paramCount < MAX_PARAM_COUNT
  }

  function EncodeSizes(sizes: seq<nat>): (s: seq<byte>)
    ensures |s| == 8 * |sizes|
  {
    if sizes == [] then [] else LittleEndian(sizes[0], 8) + EncodeSizes(sizes[1..])
  }

  function DecodeSizes(s: seq<byte>, n: nat): (sizes: seq<nat>)
    requires |s| == 8 * n
    ensures |sizes| == n
    decreases n, s
  {
    if n == 0 then [] else [FromLittleEndian(s[..8])] + DecodeSizes(s[8..], n - 1)
  }

  function EncodeHeader(h: Header): (s: seq<byte>)
    requires |h.sizes| == MAX_PARAM_COUNT
    ensures |s| == HEADER_SIZE
  {
    LittleEndian(h.magic, 4) + LittleEndian(h.functionId, 4) + EncodeSizes(h.sizes) + LittleEndian(h.paramCount, 1)
  }

  function DecodeHeader(s: seq<byte>): (h: Header)
    requires |s| == HEADER_SIZE
    ensures |h.sizes| == MAX_PARAM_COUNT
  {
    Header(FromLittleEndian(s[..4]), FromLittleEndian(s[4..8]),
           DecodeSizes(s[8..56], MAX_PARAM_COUNT), FromLittleEndian(s[56..]))
  }

  lemma {:induction false} SizesRoundTrip(sizes: seq<nat>)
    requires forall i: nat :: i < |sizes| ==> sizes[i] < WORD
    ensures DecodeSizes(EncodeSizes(sizes), |sizes|) == sizes
  {
    if sizes != [] {
      Pow256Values();
      DecodeEncode(sizes[0], 8);
      SizesRoundTrip(sizes[1..]);
      var s := EncodeSizes(sizes);
      assert s[..8] == LittleEndian(sizes[0], 8) && s[8..] == EncodeSizes(sizes[1..]);
    }
  }

  lemma {:induction false} SizesDecodeEncode(s: seq<byte>, n: nat)
    requires |s| == 8 * n
    ensures EncodeSizes(DecodeSizes(s, n)) == s
    ensures forall i: nat :: i < n ==> DecodeSizes(s, n)[i] < WORD
    decreases n
  {
    if n > 0 {
      Pow256Values();
      EncodeDecode(s[..8]);
      SizesDecodeEncode(s[8..], n - 1);
      var sizes := DecodeSizes(s, n);
      assert sizes[1..] == DecodeSizes(s[8..], n - 1);
      assert s == s[..8] + s[8..];
    }
  }

  lemma SplitFour(a: seq<byte>, b: seq<byte>, c: seq<byte>, d: seq<byte>)
    requires |a| == 4 && |b| == 4 && |c| == 48 && |d| == 1
    ensures var s := a + b + c + d; s[..4] == a && s[4..8] == b && s[8..56] == c && s[56..] == d
  {
  }

  /** The packed header is a faithful picture: decoding undoes encoding ... */
  lemma DecodeUndoesEncode(h: Header)
    requires Fits(h)
    ensures DecodeHeader(EncodeHeader(h)) == h
  {
    Pow256Values();
    DecodeEncode(h.magic, 4);
    DecodeEncode(h.functionId, 4);
    SizesRoundTrip(h.sizes);
    DecodeEncode(h.paramCount, 1);
    SplitFour(LittleEndian(h.magic, 4), LittleEndian(h.functionId, 4),
              EncodeSizes(h.sizes), LittleEndian(h.paramCount, 1));
  }

  /** ... and every 57 bytes decode to a header that encodes back to them. */
  lemma EncodeUndoesDecode(s: seq<byte>)
    requires |s| == HEADER_SIZE
    ensures Fits(DecodeHeader(s)) && EncodeHeader(DecodeHeader(s)) == s
  {
    Pow256Values();
    EncodeDecode(s[..4]);
    EncodeDecode(s[4..8]);
    SizesDecodeEncode(s[8..56], MAX_PARAM_COUNT);
    EncodeDecode(s[56..]);
    JoinFour(s);
  }

  lemma JoinFour(s: seq<byte>)
    requires |s| == HEADER_SIZE
    ensures s == s[..4] + s[4..8] + s[8..56] + s[56..]
  {
  }

  /** Where each field is: magic, function id, the six sizes and the count, without padding. */
  lemma HeaderLayout(h: Header, i: nat)
    requires Fits(h) && i < MAX_PARAM_COUNT
    ensures EncodeHeader(h)[..4] == LittleEndian(h.magic, 4)
    ensures EncodeHeader(h)[4..8] == LittleEndian(h.functionId, 4)
    ensures EncodeHeader(h)[8 + 8 * i..16 + 8 * i] == LittleEndian(h.sizes[i], 8)
    ensures EncodeHeader(h)[56] == h.paramCount
  {
    var sizes := EncodeSizes(h.sizes);
    SplitFour(LittleEndian(h.magic, 4), LittleEndian(h.functionId, 4), sizes, LittleEndian(h.paramCount, 1));
    SizeInPlace(h.sizes, i);
    assert EncodeHeader(h)[8..56][8 * i..8 * i + 8] == EncodeHeader(h)[8 + 8 * i..16 + 8 * i];
  }

  lemma {:induction false} SizeInPlace(sizes: seq<nat>, i: nat)
    requires i < |sizes|
    ensures EncodeSizes(sizes)[8 * i..8 * i + 8] == LittleEndian(sizes[i], 8)
  {
    var first, later := LittleEndian(sizes[0], 8), EncodeSizes(sizes[1..]);
    if i > 0 {
      SizeInPlace(sizes[1..], i - 1);
      assert (first + later)[8 * i..8 * i + 8] == later[8 * (i - 1)..8 * (i - 1) + 8];
    }
  }

  lemma MagicBytes()
    ensures LittleEndian(MAGIC, 4) == [0xEF, 0xBE, 0xAD, 0xDE]
  {
    assert LittleEndian(0xDE, 1) == [0xDE] + LittleEndian(0, 0);
    assert LittleEndian(0xDEAD, 2) == [0xAD] + LittleEndian(0xDE, 1);
    assert LittleEndian(0xDEADBE, 3) == [0xBE] + LittleEndian(0xDEAD, 2);
    assert LittleEndian(MAGIC, 4) == [0xEF] + LittleEndian(0xDEADBE, 3);
  }

  /** Any 57 bytes pass the integrity check iff they begin with the magic and end with a count below 6. */
  lemma IntegrityIff(s: seq<byte>)
    requires |s| == HEADER_SIZE
    ensures CheckIntegrity(DecodeHeader(s)) <==> s[..4] == [0xEF, 0xBE, 0xAD, 0xDE] && s[56] < 6
  {
    var h := DecodeHeader(s);
    EncodeUndoesDecode(s);
    HeaderLayout(h, 0);
    MagicBytes();
    Pow256Values();
    DecodeEncode(h.magic, 4);
    DecodeEncode(MAGIC, 4);
  }

  // ----- building and sending -----

  /** The sizes of the arguments, then zeros. */
  function ParamSizes(args: seq<seq<byte>>): (sizes: seq<nat>)
    requires |args| <= MAX_PARAM_COUNT
    ensures |sizes| == MAX_PARAM_COUNT
    ensures forall i: nat :: i < MAX_PARAM_COUNT ==> sizes[i] == if i < |args| then |args[i]| else 0
  {
    seq(MAX_PARAM_COUNT, i => if 0 <= i < |args| then |args[i]| else 0)
  }

  function BuiltHeader(functionId: nat, args: seq<seq<byte>>): Header
    requires |args| <= MAX_PARAM_COUNT
  {
    Header(MAGIC, functionId, ParamSizes(args), |args|)
  }

  /** What one call puts on the wire. */
  function Wire(functionId: nat, args: seq<seq<byte>>): seq<byte>
    requires |args| <= MAX_PARAM_COUNT
  {
    EncodeHeader(BuiltHeader(functionId, args)) + Concat(args)
  }

  lemma {:induction false} ConcatLengths(args: seq<seq<byte>>, n: nat)
    requires n <= |args|
    ensures |Concat(args[..n])| <= |Concat(args)|
    ensures forall i: nat :: i < n ==> |args[i]| <= |Concat(args)|
  {
    ConcatAppend(args[..n], args[n..]);
    assert args == args[..n] + args[n..];
    forall i: nat | i < n
      ensures |args[i]| <= |Concat(args)|
    {
      ConcatSplit(args, i);
    }
  }

  /** RerBuilding::build on serialized arguments: sizes first, then one write per argument. */
  method Build(functionId: nat, args: seq<seq<byte>>) returns (rer: Header, paramsDump: seq<byte>)
    requires |args| <= MAX_PARAM_COUNT
    ensures rer == BuiltHeader(functionId, args) && paramsDump == Concat(args)
  {
    var sizes := seq(MAX_PARAM_COUNT, _ => 0);
    if |args| == 0 {
      assert sizes == ParamSizes(args);
      return Header(MAGIC, functionId, sizes, 0), [];
    }
    var totalSize: nat := 0;
    for i := 0 to |args|
      invariant |sizes| == MAX_PARAM_COUNT && totalSize == |Concat(args[..i])|
      invariant forall k: nat :: k < MAX_PARAM_COUNT ==> sizes[k] == if k < i then |args[k]| else 0
    {
      ConcatSplit(args, i);
      sizes := sizes[i := |args[i]|];
      totalSize := totalSize + |args[i]|;
    }
    assert args[..|args|] == args && sizes == ParamSizes(args);
    var buffer := new byte[totalSize];
    var stream := new MemoryStreamBuf(buffer);
    for i := 0 to |args|
      invariant stream.Valid() && stream.ok && stream.buffer == buffer && fresh(buffer) && fresh(stream)
      invariant stream.pos == |Concat(args[..i])| <= buffer.Length == |Concat(args)|
      invariant buffer[..stream.pos] == Concat(args[..i])
    {
      ConcatSplit(args, i);
      ConcatLengths(args, i + 1);
      stream.Write(args[i]);
    }
    rer, paramsDump := Header(MAGIC, functionId, sizes, |args|), buffer[..];
  }

  // ----- the server -----

  datatype Reason = IntegrityCheckFailed | InvalidFunctionId | BadParameters

  type RpcFunction = (Header, seq<byte>) -> seq<byte>

  datatype Outcome =
    | Served(request: Header, params: seq<byte>, reply: seq<byte>)
    | Refused(request: Header, reason: Reason)
    | Closed

  /** The parameter sizes added up in a size_t. */
  function TotalSize(sizes: seq<nat>, n: nat): nat
    requires n <= |sizes|
  {
    if n == 0 then 0 else WrapAdd(TotalSize(sizes, n - 1), sizes[n - 1])
  }

  /** One round of the server on the bytes still to come: what happens, and the bytes left. */
  function OneShotSpec(input: seq<byte>, store: map<nat, RpcFunction>): (r: (Outcome, seq<byte>))
    ensures r.0 != Closed ==> |r.1| < |input|
  {
    if |input| < HEADER_SIZE then (Closed, [])
    else
      var h, rest := DecodeHeader(input[..HEADER_SIZE]), input[HEADER_SIZE..];
      if !CheckIntegrity(h) then (Refused(h, IntegrityCheckFailed), rest)
      else if h.functionId !in store then (Refused(h, InvalidFunctionId), rest)
      else
        var total := TotalSize(h.sizes, h.paramCount);
        if |rest| < total then (Refused(h, BadParameters), [])
        else (Served(h, rest[..total], store[h.functionId](h, rest[..total])), rest[total..])
  }

  /** The invalid-request handler answers, or throws (as the default one does). */
  datatype Verdict = Throws | Answers(goOn: bool)

  datatype Ending = ConnectionClosed | HandlerStopped | HandlerThrew

  /** What the loop does after a round: None goes on, Some ends it. */
  function After(outcome: Outcome, handler: (Header, Reason) -> Verdict): Option<Ending> {
    match outcome
    case Served(_, _, _) => None
    case Closed => Some(ConnectionClosed)
    case Refused(h, reason) =>
      match handler(h, reason)
      case Throws => Some(HandlerThrew)
      case Answers(goOn) => if goOn then None else Some(HandlerStopped)
  }

  function Shown(outcome: Outcome): seq<Outcome> {
    if outcome == Closed then [] else [outcome]
  }

  /** A round: what happens on the bytes still to come, and the bytes left. */
  type Round = seq<byte> -> (Outcome, seq<byte>)

  /** Every round but the last one takes bytes off the input. */
  ghost predicate Shrinks(round: Round) {
    forall input {:trigger round(input)} :: round(input).0 != Closed ==> |round(input).1| < |input|
  }

  function RoundOf(store: map<nat, RpcFunction>): (round: Round)
    ensures Shrinks(round)
    ensures forall input :: round(input) == OneShotSpec(input, store)
  {
    (input: seq<byte>) => OneShotSpec(input, store)
  }

  /**
   The whole server loop: the rounds in order, how it ends, and the bytes left. Before its k-th round
   the loop asks whether the connection is up; `connected` is what it is told.
   */
  function RunSpec(input: seq<byte>, round: Round, handler: (Header, Reason) -> Verdict, connected: nat -> bool, k: nat)
    : (seq<Outcome>, Ending, seq<byte>)
    requires Shrinks(round)
    decreases |input|
  {
    if !connected(k) then ([], ConnectionClosed, input)
    else
      var (outcome, rest) := round(input);
      match After(outcome, handler)
      case Some(ending) => (Shown(outcome), ending, rest)
      case None => Behind([outcome], RunSpec(rest, round, handler, connected, k + 1))
  }

  /** A run whose first rounds are already known. */
  function Behind(rounds: seq<Outcome>, r: (seq<Outcome>, Ending, seq<byte>)): (seq<Outcome>, Ending, seq<byte>) {
    (rounds + r.0, r.1, r.2)
  }

  /** The replies a list of rounds has sent. */
  function Replies(rounds: seq<Outcome>): seq<byte> {
    if rounds == [] then []
    else (if rounds[0].Served? then rounds[0].reply else []) + Replies(rounds[1..])
  }

  // ----- client and server together -----

  datatype RpcCall = RpcCall(functionId: nat, args: seq<seq<byte>>)

  /** A call that RpcClient can make: at most 6 parameters, a 32-bit id, a dump that fits memory. */
  predicate Buildable(c: RpcCall) {
    |c.args| <= MAX_PARAM_COUNT && c.functionId < 0x1_0000_0000 && |Concat(c.args)| < WORD
  }

  lemma BuiltHeaderFits(c: RpcCall)
    requires Buildable(c)
    ensures Fits(BuiltHeader(c.functionId, c.args))
  {
    ConcatLengths(c.args, |c.args|);
  }

  lemma {:induction false} TotalSizeOfArgs(args: seq<seq<byte>>, n: nat)
    requires n <= |args| <= MAX_PARAM_COUNT && |Concat(args)| < WORD
    ensures TotalSize(ParamSizes(args), n) == |Concat(args[..n])|
  {
    if n > 0 {
      TotalSizeOfArgs(args, n - 1);
      ConcatSplit(args, n - 1);
      ConcatLengths(args, n);
    }
  }

  /** The round a served call ought to be. */
  function ServedCall(c: RpcCall, store: map<nat, RpcFunction>): Outcome
    requires |c.args| <= MAX_PARAM_COUNT && c.functionId in store
  {
    var h := BuiltHeader(c.functionId, c.args);
    Served(h, Concat(c.args), store[c.functionId](h, Concat(c.args)))
  }

  lemma HeaderThenRest(header: seq<byte>, dump: seq<byte>, tail: seq<byte>)
    requires |header| == HEADER_SIZE
    ensures (header + dump + tail)[..HEADER_SIZE] == header
    ensures (header + dump + tail)[HEADER_SIZE..] == dump + tail
  {
    AppendAssociative(header, dump, tail);
  }

  /** What the server parses off a built request. */
  lemma ParseBuilt(c: RpcCall, tail: seq<byte>)
    requires Buildable(c)
    ensures var h, dump, input := BuiltHeader(c.functionId, c.args), Concat(c.args), Wire(c.functionId, c.args) + tail;
            && |input| >= HEADER_SIZE
            && DecodeHeader(input[..HEADER_SIZE]) == h
            && input[HEADER_SIZE..] == dump + tail
            && TotalSize(h.sizes, h.paramCount) == |dump|
  {
    var h := BuiltHeader(c.functionId, c.args);
    var input := Wire(c.functionId, c.args) + tail;
    BuiltHeaderFits(c);
    DecodeUndoesEncode(h);
    HeaderThenRest(EncodeHeader(h), Concat(c.args), tail);
    TotalSizeOfArgs(c.args, |c.args|);
    assert c.args[..|c.args|] == c.args;
  }

  /**
   A built request is dispatched iff it has at most 5 parameters (the constructor allows 6) and a
   registered id; then exactly its bytes are consumed and its function gets exactly its header
   and dump. Otherwise only the header is consumed, so the stream stays aligned on the next
   request iff the dump is empty.
   */
  lemma DispatchIff(c: RpcCall, tail: seq<byte>, store: map<nat, RpcFunction>)
    requires Buildable(c)
    ensures var (outcome, rest) := OneShotSpec(Wire(c.functionId, c.args) + tail, store);
            && (outcome.Served? <==> |c.args| <= 5 && c.functionId in store)
            && (outcome.Served? ==> outcome == ServedCall(c, store) && rest == tail)
            && (!outcome.Served? ==>
                  && rest == Concat(c.args) + tail
                  && outcome == Refused(BuiltHeader(c.functionId, c.args),
                                        if |c.args| == 6 then IntegrityCheckFailed else InvalidFunctionId))
            && (rest == tail <==> outcome.Served? || Concat(c.args) == [])
  {
    var dump := Concat(c.args);
    ParseBuilt(c, tail);
    assert (dump + tail)[..|dump|] == dump && (dump + tail)[|dump|..] == tail;
    assert |dump + tail| == |dump| + |tail|;
  }

  predicate Dispatchable(c: RpcCall, store: map<nat, RpcFunction>) {
    |c.args| <= 5 && c.functionId in store
  }

  /**
   The first round on any input at all: closed iff it has no header; else refused for integrity iff
   the header does not begin with the magic or counts 6 or more; else refused for its id iff no
   function has it; else refused for its parameters, with nothing left, iff they are cut off.
   */
  lemma RoundIff(input: seq<byte>, store: map<nat, RpcFunction>)
    ensures var (outcome, rest) := OneShotSpec(input, store);
            if |input| < 57 then outcome == Closed && rest == []
            else
              var h := DecodeHeader(input[..57]);
              && !outcome.Closed? && outcome.request == h
              && (outcome == Refused(h, IntegrityCheckFailed) <==>
                    !(input[..4] == [0xEF, 0xBE, 0xAD, 0xDE] && input[56] < 6))
              && (outcome.Served? || outcome == Refused(h, BadParameters) ==> h.functionId in store)
              && (outcome == Refused(h, InvalidFunctionId) ==> h.functionId !in store)
              && (outcome.Refused? && outcome.reason != BadParameters ==> rest == input[57..])
              && (outcome == Refused(h, BadParameters) ==>
                    rest == [] && |input| - 57 < TotalSize(h.sizes, h.paramCount))
              && (outcome.Served? ==>
                    && input == input[..57] + outcome.params + rest
                    && |outcome.params| == TotalSize(h.sizes, h.paramCount)
                    && outcome.reply == store[h.functionId](h, outcome.params))
  {
    if |input| >= 57 {
      IntegrityIff(input[..57]);
      assert input[..57][..4] == input[..4];
      var (outcome, rest) := OneShotSpec(input, store);
      if outcome.Served? {
        assert input[57..] == outcome.params + rest;
        assert input == input[..57] + input[57..];
        AppendAssociative(input[..57], outcome.params, rest);
      }
    }
  }

  /** A dispatchable request cut off inside its header is nothing; cut off inside its dump it is refused. */
  lemma CutRequest(c: RpcCall, n: nat, store: map<nat, RpcFunction>)
    requires Buildable(c) && Dispatchable(c, store) && n < |Wire(c.functionId, c.args)|
    ensures OneShotSpec(Wire(c.functionId, c.args)[..n], store) ==
            (if n < HEADER_SIZE then Closed else Refused(BuiltHeader(c.functionId, c.args), BadParameters), [])
  {
    if n >= HEADER_SIZE {
      var whole := Wire(c.functionId, c.args);
      ParseBuilt(c, []);
      assert whole + [] == whole && Concat(c.args) + [] == Concat(c.args);
      assert whole[..n][..HEADER_SIZE] == whole[..HEADER_SIZE];
    }
  }

  predicate AllDispatchable(calls: seq<RpcCall>, store: map<nat, RpcFunction>) {
    forall i: nat :: i < |calls| ==> Buildable(calls[i]) && Dispatchable(calls[i], store)
  }

  /** What each call puts on the wire. */
  function WireList(calls: seq<RpcCall>): (wires: seq<seq<byte>>)
    requires forall i: nat :: i < |calls| ==> Buildable(calls[i])
    ensures |wires| == |calls| && forall i: nat :: i < |calls| ==>
              Buildable(calls[i]) && wires[i] == Wire(calls[i].functionId, calls[i].args)
  {
    seq(|calls|, i =>
          if 0 <= i < |calls| then assert Buildable(calls[i]); Wire(calls[i].functionId, calls[i].args) else [])
  }

  /** The bytes of a list of calls, one after the other. */
  function Wires(calls: seq<RpcCall>): seq<byte>
    requires forall i: nat :: i < |calls| ==> Buildable(calls[i])
  {
    Concat(WireList(calls))
  }

  function ServedCalls(calls: seq<RpcCall>, store: map<nat, RpcFunction>): (rounds: seq<Outcome>)
    requires AllDispatchable(calls, store)
    ensures |rounds| == |calls| && forall i: nat :: i < |calls| ==> rounds[i] == ServedCall(calls[i], store)
  {
    if calls == [] then [] else [ServedCall(calls[0], store)] + ServedCalls(calls[1..], store)
  }

  lemma WiresAppend(a: seq<RpcCall>, b: seq<RpcCall>)
    requires forall i: nat :: i < |a| ==> Buildable(a[i])
    requires forall i: nat :: i < |b| ==> Buildable(b[i])
    ensures forall i: nat :: i < |a + b| ==> Buildable((a + b)[i])
    ensures Wires(a + b) == Wires(a) + Wires(b)
  {
    assert WireList(a + b) == WireList(a) + WireList(b);
    ConcatAppend(WireList(a), WireList(b));
  }

  /** One round after which the loop goes on, when what happens on the rest is known. */
  lemma GoesOn(
      input: seq<byte>, round: Round, handler: (Header, Reason) -> Verdict, connected: nat -> bool, k: nat,
      next: (seq<Outcome>, Ending, seq<byte>))
    requires Shrinks(round) && connected(k) && After(round(input).0, handler) == None
    requires RunSpec(round(input).1, round, handler, connected, k + 1) == next
    ensures RunSpec(input, round, handler, connected, k) == Behind([round(input).0], next)
  {
  }

  /** The round takes exactly this piece off the front of any input. */
  ghost predicate Takes(round: Round, piece: seq<byte>, outcome: Outcome) {
    forall tail: seq<byte> :: round(piece + tail) == (outcome, tail)
  }

  ghost predicate AllTaken(
      round: Round, handler: (Header, Reason) -> Verdict, pieces: seq<seq<byte>>, outcomes: seq<Outcome>)
  {
    && |pieces| == |outcomes|
    && forall i: nat :: i < |pieces| ==> After(outcomes[i], handler) == None && Takes(round, pieces[i], outcomes[i])
  }

  /** Pieces that are taken one by one: then the loop goes on with whatever is behind them. */
  lemma {:induction false} ServesThenGoesOn(
      pieces: seq<seq<byte>>, outcomes: seq<Outcome>, tail: seq<byte>,
      round: Round, handler: (Header, Reason) -> Verdict, connected: nat -> bool, k: nat)
    requires Shrinks(round) && AllTaken(round, handler, pieces, outcomes)
    requires forall j: nat :: k <= j < k + |pieces| ==> connected(j)
    ensures RunSpec(Concat(pieces) + tail, round, handler, connected, k) ==
            Behind(outcomes, RunSpec(tail, round, handler, connected, k + |pieces|))
    decreases |pieces|
  {
    var next := RunSpec(tail, round, handler, connected, k + |pieces|);
    if pieces == [] {
      assert Concat(pieces) + tail == tail;
      BehindNothing(next);
      assert outcomes == [];
    } else {
      var rest := Concat(pieces[1..]) + tail;
      AppendAssociative(pieces[0], Concat(pieces[1..]), tail);
      assert Takes(round, pieces[0], outcomes[0]) && round(pieces[0] + rest) == (outcomes[0], rest);
      ServesThenGoesOn(pieces[1..], outcomes[1..], tail, round, handler, connected, k + 1);
      GoesOn(Concat(pieces) + tail, round, handler, connected, k, Behind(outcomes[1..], next));
      BehindBoth(outcomes, next);
    }
  }

  lemma BehindBoth(outcomes: seq<Outcome>, next: (seq<Outcome>, Ending, seq<byte>))
    requires outcomes != []
    ensures Behind([outcomes[0]], Behind(outcomes[1..], next)) == Behind(outcomes, next)
  {
    assert [outcomes[0]] + (outcomes[1..] + next.0) == outcomes + next.0;
  }

  function RefusalOf(c: RpcCall): Reason {
    if |c.args| == 6 then IntegrityCheckFailed else InvalidFunctionId
  }

  /** The round of any call: served, or refused for its reason. */
  function RoundFor(c: RpcCall, store: map<nat, RpcFunction>): Outcome
    requires Buildable(c)
  {
    if Dispatchable(c, store) then ServedCall(c, store) else Refused(BuiltHeader(c.functionId, c.args), RefusalOf(c))
  }

  function RoundsFor(calls: seq<RpcCall>, store: map<nat, RpcFunction>): (rounds: seq<Outcome>)
    requires forall i: nat :: i < |calls| ==> Buildable(calls[i])
    ensures |rounds| == |calls|
    ensures forall i: nat :: i < |calls| ==> Buildable(calls[i]) && rounds[i] == RoundFor(calls[i], store)
  {
    seq(|calls|, i => if 0 <= i < |calls| then assert Buildable(calls[i]); RoundFor(calls[i], store) else Closed)
  }

  /** A call behind which the loop goes on with the next request: served, or refused with nothing left behind it. */
  predicate KeepsAligned(c: RpcCall, store: map<nat, RpcFunction>, handler: (Header, Reason) -> Verdict) {
    && Buildable(c)
    && (Dispatchable(c, store)
        || (Concat(c.args) == [] && handler(BuiltHeader(c.functionId, c.args), RefusalOf(c)) == Answers(true)))
  }

  predicate AllKeepAligned(calls: seq<RpcCall>, store: map<nat, RpcFunction>, handler: (Header, Reason) -> Verdict) {
    forall i: nat :: i < |calls| ==> KeepsAligned(calls[i], store, handler)
  }

  lemma CallsAreTaken(calls: seq<RpcCall>, store: map<nat, RpcFunction>, handler: (Header, Reason) -> Verdict)
    requires AllKeepAligned(calls, store, handler)
    ensures forall i: nat :: i < |calls| ==> Buildable(calls[i])
    ensures AllTaken(RoundOf(store), handler, WireList(calls), RoundsFor(calls, store))
  {
    forall i: nat | i < |calls|
      ensures Buildable(calls[i])
    {
      assert KeepsAligned(calls[i], store, handler);
    }
    forall i: nat, tail: seq<byte> | i < |calls|
      ensures After(RoundsFor(calls, store)[i], handler) == None
      ensures RoundOf(store)(WireList(calls)[i] + tail) == (RoundsFor(calls, store)[i], tail)
    {
      assert KeepsAligned(calls[i], store, handler);
      DispatchIff(calls[i], tail, store);
    }
  }

  /** The loop ends on a closed connection, or with less than a header to come. */
  lemma EndsWithoutARound(
      tail: seq<byte>, store: map<nat, RpcFunction>, handler: (Header, Reason) -> Verdict,
      connected: nat -> bool, k: nat)
    requires |tail| < HEADER_SIZE || !connected(k)
    ensures RunSpec(tail, RoundOf(store), handler, connected, k) ==
            ([], ConnectionClosed, if connected(k) then [] else tail)
  {
  }

  lemma BehindNoMore(outcomes: seq<Outcome>, ending: Ending, left: seq<byte>)
    ensures Behind(outcomes, ([], ending, left)) == (outcomes, ending, left)
  {
    assert outcomes + [] == outcomes;
  }

  lemma ServesToTheEnd(
      pieces: seq<seq<byte>>, outcomes: seq<Outcome>, tail: seq<byte>,
      round: Round, handler: (Header, Reason) -> Verdict, connected: nat -> bool, k: nat, left: seq<byte>)
    requires Shrinks(round) && AllTaken(round, handler, pieces, outcomes)
    requires forall j: nat :: k <= j < k + |pieces| ==> connected(j)
    requires RunSpec(tail, round, handler, connected, k + |pieces|) == ([], ConnectionClosed, left)
    ensures RunSpec(Concat(pieces) + tail, round, handler, connected, k) == (outcomes, ConnectionClosed, left)
  {
    ServesThenGoesOn(pieces, outcomes, tail, round, handler, connected, k);
    BehindNoMore(outcomes, ConnectionClosed, left);
  }

  /** The same for the wire form of calls. */
  lemma CallsServedToTheEnd(
      calls: seq<RpcCall>, outcomes: seq<Outcome>, tail: seq<byte>, round: Round, handler: (Header, Reason) -> Verdict,
      connected: nat -> bool, k: nat, left: seq<byte>)
    requires forall i: nat :: i < |calls| ==> Buildable(calls[i])
    requires Shrinks(round) && AllTaken(round, handler, WireList(calls), outcomes)
    requires forall j: nat :: k <= j < k + |calls| ==> connected(j)
    requires RunSpec(tail, round, handler, connected, k + |calls|) == ([], ConnectionClosed, left)
    ensures RunSpec(Wires(calls) + tail, round, handler, connected, k) == (outcomes, ConnectionClosed, left)
  {
    ServesToTheEnd(WireList(calls), outcomes, tail, round, handler, connected, k, left);
  }

  /**
   For every list of calls of which each is dispatchable, or refused with an empty dump by a handler
   that lets the server go on, the loop does exactly one round per call it finds the connection open
   for, in order: it serves the dispatchable ones and refuses the others for their reasons. It ends
   there if it then finds the connection closed, and leaves what is behind the calls; or if only an
   unfinished request is behind them, which closes the connection and disturbs nothing.
   */
  lemma ServerAnswersCallsInOrder(
      calls: seq<RpcCall>, tail: seq<byte>, store: map<nat, RpcFunction>, handler: (Header, Reason) -> Verdict,
      connected: nat -> bool, k: nat)
    requires AllKeepAligned(calls, store, handler) && forall j: nat :: k <= j < k + |calls| ==> connected(j)
    requires |tail| < HEADER_SIZE || !connected(k + |calls|)
    ensures forall i: nat :: i < |calls| ==> Buildable(calls[i])
    ensures RunSpec(Wires(calls) + tail, RoundOf(store), handler, connected, k) ==
            (RoundsFor(calls, store), ConnectionClosed, if connected(k + |calls|) then [] else tail)
  {
    CallsAreTaken(calls, store, handler);
    EndsWithoutARound(tail, store, handler, connected, k + |calls|);
    CallsServedToTheEnd(calls, RoundsFor(calls, store), tail, RoundOf(store), handler, connected, k,
                        if connected(k + |calls|) then [] else tail);
  }

  lemma DispatchableRounds(calls: seq<RpcCall>, store: map<nat, RpcFunction>, handler: (Header, Reason) -> Verdict)
    requires AllDispatchable(calls, store)
    ensures AllKeepAligned(calls, store, handler) && RoundsFor(calls, store) == ServedCalls(calls, store)
  {
  }

  /** Lists of dispatchable calls only: all of them are served, each once, with its own header and dump. */
  lemma ServerServesCallsInOrder(
      calls: seq<RpcCall>, tail: seq<byte>, store: map<nat, RpcFunction>, handler: (Header, Reason) -> Verdict,
      connected: nat -> bool, k: nat)
    requires AllDispatchable(calls, store) && forall j: nat :: k <= j < k + |calls| ==> connected(j)
    requires |tail| < HEADER_SIZE || !connected(k + |calls|)
    ensures RunSpec(Wires(calls) + tail, RoundOf(store), handler, connected, k) ==
            (ServedCalls(calls, store), ConnectionClosed, if connected(k + |calls|) then [] else tail)
  {
    DispatchableRounds(calls, store, handler);
    ServerAnswersCallsInOrder(calls, tail, store, handler, connected, k);
  }

  /** What a call ought to be answered. */
  function ReplyTo(c: RpcCall, store: map<nat, RpcFunction>): seq<byte>
    requires |c.args| <= MAX_PARAM_COUNT && c.functionId in store
  {
    store[c.functionId](BuiltHeader(c.functionId, c.args), Concat(c.args))
  }

  function RepliesTo(calls: seq<RpcCall>, store: map<nat, RpcFunction>): (replies: seq<seq<byte>>)
    requires AllDispatchable(calls, store)
    ensures |replies| == |calls| && forall i: nat :: i < |calls| ==> replies[i] == ReplyTo(calls[i], store)
  {
    if calls == [] then [] else [ReplyTo(calls[0], store)] + RepliesTo(calls[1..], store)
  }

  /** The replies go out in the order of the calls. */
  lemma {:induction false} RepliesInOrder(calls: seq<RpcCall>, store: map<nat, RpcFunction>)
    requires AllDispatchable(calls, store)
    ensures Replies(ServedCalls(calls, store)) == Concat(RepliesTo(calls, store))
  {
    if calls != [] {
      RepliesInOrder(calls[1..], store);
      var rounds, replies := ServedCalls(calls, store), RepliesTo(calls, store);
      assert rounds[1..] == ServedCalls(calls[1..], store) && replies[1..] == RepliesTo(calls[1..], store);
    }
  }

  /** The round on a request that is refused: its dump, and all that is behind it, is still to come. */
  lemma RefusedRound(c: RpcCall, tail: seq<byte>, rest: seq<byte>, store: map<nat, RpcFunction>)
    requires Buildable(c) && (|c.args| == 6 || c.functionId !in store) && rest == Concat(c.args) + tail
    ensures RoundOf(store)(Wire(c.functionId, c.args) + tail) ==
            (Refused(BuiltHeader(c.functionId, c.args), RefusalOf(c)), rest)
  {
    DispatchIff(c, tail, store);
  }

  lemma GoesOnWith(
      input: seq<byte>, outcome: Outcome, rest: seq<byte>, round: Round, handler: (Header, Reason) -> Verdict,
      connected: nat -> bool, k: nat, next: (seq<Outcome>, Ending, seq<byte>))
    requires Shrinks(round) && connected(k) && round(input) == (outcome, rest) && After(outcome, handler) == None
    requires RunSpec(rest, round, handler, connected, k + 1) == next
    ensures RunSpec(input, round, handler, connected, k) == Behind([outcome], next)
  {
    GoesOn(input, round, handler, connected, k, next);
  }

  lemma ServesRest(
      rest: seq<byte>, calls: seq<RpcCall>, cutOff: seq<byte>, store: map<nat, RpcFunction>,
      handler: (Header, Reason) -> Verdict, connected: nat -> bool, k: nat)
    requires AllDispatchable(calls, store) && rest == Wires(calls) + cutOff && |cutOff| < HEADER_SIZE
    requires forall j: nat :: connected(j)
    ensures RunSpec(rest, RoundOf(store), handler, connected, k) == (ServedCalls(calls, store), ConnectionClosed, [])
  {
    ServerServesCallsInOrder(calls, cutOff, store, handler, connected, k);
  }

  /** A round after which the loop goes on, with the wire form of calls still to come. */
  /**
   A refused call ends the run right there, unless its handler answers true: all calls before it have
   had their rounds, its dump and everything behind it are left unread, and nobody is served again.
   */
  lemma RefusalEndsTheRun(
      calls: seq<RpcCall>, c: RpcCall, rest: seq<byte>, store: map<nat, RpcFunction>,
      handler: (Header, Reason) -> Verdict, connected: nat -> bool, k: nat)
    requires AllKeepAligned(calls, store, handler)
    requires Buildable(c) && (|c.args| == 6 || c.functionId !in store)
    requires handler(BuiltHeader(c.functionId, c.args), RefusalOf(c)) != Answers(true)
    requires forall j: nat :: connected(j)
    ensures forall i: nat :: i < |calls| ==> Buildable(calls[i])
    ensures RunSpec(Wires(calls) + (Wire(c.functionId, c.args) + rest), RoundOf(store), handler, connected, k) ==
            (RoundsFor(calls, store) + [Refused(BuiltHeader(c.functionId, c.args), RefusalOf(c))],
             if handler(BuiltHeader(c.functionId, c.args), RefusalOf(c)) == Throws then HandlerThrew
             else HandlerStopped,
             Concat(c.args) + rest)
  {
    var input := Wire(c.functionId, c.args) + rest;
    CallsAreTaken(calls, store, handler);
    RefusedRound(c, rest, Concat(c.args) + rest, store);
    EndsOnRefusal(input, Refused(BuiltHeader(c.functionId, c.args), RefusalOf(c)), Concat(c.args) + rest,
                  RoundOf(store), handler, connected, k + |calls|);
    ServesThenGoesOn(WireList(calls), RoundsFor(calls, store), input, RoundOf(store), handler, connected, k);
  }

  lemma EndsOnRefusal(
      input: seq<byte>, outcome: Outcome, rest: seq<byte>, round: Round,
      handler: (Header, Reason) -> Verdict, connected: nat -> bool, k: nat)
    requires Shrinks(round) && connected(k) && round(input) == (outcome, rest)
    requires outcome.Refused? && handler(outcome.request, outcome.reason) != Answers(true)
    ensures RunSpec(input, round, handler, connected, k) ==
            ([outcome],
             if handler(outcome.request, outcome.reason) == Throws then HandlerThrew else HandlerStopped,
             rest)
  {
  }

  lemma RoundThenServes(
      input: seq<byte>, outcome: Outcome, rest: seq<byte>, calls: seq<RpcCall>, cutOff: seq<byte>,
      store: map<nat, RpcFunction>, handler: (Header, Reason) -> Verdict, connected: nat -> bool, k: nat)
    requires RoundOf(store)(input) == (outcome, rest) && After(outcome, handler) == None
    requires AllDispatchable(calls, store) && rest == Wires(calls) + cutOff && |cutOff| < HEADER_SIZE
    requires forall j: nat :: connected(j)
    ensures RunSpec(input, RoundOf(store), handler, connected, k) ==
            Behind([outcome], (ServedCalls(calls, store), ConnectionClosed, []))
  {
    ServesRest(rest, calls, cutOff, store, handler, connected, k + 1);
    GoesOnWith(input, outcome, rest, RoundOf(store), handler, connected, k,
               (ServedCalls(calls, store), ConnectionClosed, []));
  }

  lemma DumpThenLater(dump: seq<byte>, inner: seq<RpcCall>, later: seq<RpcCall>, cutOff: seq<byte>)
    requires forall i: nat :: i < |inner| ==> Buildable(inner[i])
    requires forall i: nat :: i < |later| ==> Buildable(later[i])
    requires dump == Wires(inner)
    ensures forall i: nat :: i < |inner + later| ==> Buildable((inner + later)[i])
    ensures Wires(inner + later) + cutOff == dump + (Wires(later) + cutOff)
  {
    WiresAppend(inner, later);
    AppendBehind(Wires(inner + later), dump, Wires(later), cutOff);
  }

  /**
   A handler that lets the server go on after a refusal leaves it reading the refused request's dump
   as requests: if the dump is the wire form of some calls `inner`, the server serves these, which
   nobody made, before the calls behind the refused one. Only an empty dump leaves it aligned.
   */
  lemma RefusedDumpIsServedAsCalls(
      c: RpcCall, inner: seq<RpcCall>, later: seq<RpcCall>, cutOff: seq<byte>,
      store: map<nat, RpcFunction>, handler: (Header, Reason) -> Verdict, connected: nat -> bool)
    requires Buildable(c) && (|c.args| == 6 || c.functionId !in store)
    requires AllDispatchable(inner, store) && AllDispatchable(later, store) && |cutOff| < HEADER_SIZE
    requires Concat(c.args) == Wires(inner)
    requires handler(BuiltHeader(c.functionId, c.args), RefusalOf(c)) == Answers(true)
    requires forall k: nat :: connected(k)
    ensures AllDispatchable(inner + later, store)
    ensures RunSpec(Wire(c.functionId, c.args) + (Wires(later) + cutOff), RoundOf(store), handler, connected, 0) ==
            Behind([Refused(BuiltHeader(c.functionId, c.args), RefusalOf(c))],
                   (ServedCalls(inner + later, store), ConnectionClosed, []))
  {
    DumpThenLater(Concat(c.args), inner, later, cutOff);
    RefusedRound(c, Wires(later) + cutOff, Wires(inner + later) + cutOff, store);
    RoundThenServes(Wire(c.functionId, c.args) + (Wires(later) + cutOff),
                    Refused(BuiltHeader(c.functionId, c.args), RefusalOf(c)), Wires(inner + later) + cutOff,
                    inner + later, cutOff, store, handler, connected, 0);
  }

  /** Registering a function serves the calls with its id from then on, and leaves all others as they were. */
  lemma RegisteredFunctionServes(
      rpcFunction: RpcFunction, functionId: nat, store: map<nat, RpcFunction>, c: RpcCall, tail: seq<byte>)
    requires Buildable(c)
    ensures var input, store' := Wire(c.functionId, c.args) + tail, store[functionId := rpcFunction];
            var h, dump := BuiltHeader(c.functionId, c.args), Concat(c.args);
            && (c.functionId == functionId && |c.args| <= 5 ==>
                  OneShotSpec(input, store') == (Served(h, dump, rpcFunction(h, dump)), tail))
            && (c.functionId != functionId ==> OneShotSpec(input, store') == OneShotSpec(input, store))
  {
    DispatchIff(c, tail, store);
    DispatchIff(c, tail, store[functionId := rpcFunction]);
  }

  // ----- the server and client objects -----

  class RpcClient {
    var sent: seq<byte>         // the request stream, as the peer receives it

    constructor ()
      ensures sent == []
    {
      sent := [];
    }

    /** Header and dump in one buffer and one send. */
    method SendExeRequest(rer: Header, paramsDump: seq<byte>)
      requires |rer.sizes| == MAX_PARAM_COUNT
      modifies this
      ensures sent == old(sent) + EncodeHeader(rer) + paramsDump
    {
      var header := EncodeHeader(rer);
      var buffer := new byte[HEADER_SIZE + |paramsDump|];
      for i := 0 to HEADER_SIZE
        invariant sent == old(sent) && buffer[..i] == header[..i]
      {
        buffer[i] := header[i];
      }
      for i := 0 to |paramsDump|
        invariant sent == old(sent) && buffer[..HEADER_SIZE] == header
        invariant buffer[HEADER_SIZE..HEADER_SIZE + i] == paramsDump[..i]
      {
        buffer[HEADER_SIZE + i] := paramsDump[i];
      }
      assert buffer[..] == buffer[..HEADER_SIZE] + buffer[HEADER_SIZE..];
      assert buffer[HEADER_SIZE..] == paramsDump[..|paramsDump|] == paramsDump;
      AppendAssociative(sent, header, paramsDump);
      sent := sent + buffer[..];
    }

    method Call(functionId: nat, args: seq<seq<byte>>)
      requires |args| <= MAX_PARAM_COUNT
      modifies this
      ensures sent == old(sent) + Wire(functionId, args)
    {
      var rer, paramsDump := Build(functionId, args);
      AppendAssociative(sent, EncodeHeader(rer), paramsDump);
      SendExeRequest(rer, paramsDump);
    }
  }

  class RpcServer {
    var funStore: map<nat, RpcFunction>
    var input: seq<byte>        // bytes still to be received
    var output: seq<byte>       // bytes sent
    var handler: (Header, Reason) -> Verdict
    var asked: nat              // how often isConnected has been asked
    const connected: nat -> bool

    constructor (input: seq<byte>, connected: nat -> bool)
      ensures this.input == input && output == [] && funStore == map[] && asked == 0 && this.connected == connected
      ensures forall h, reason :: handler(h, reason) == Throws
    {
      this.funStore := map[];
      this.input := input;
      this.output := [];
      this.asked := 0;
      this.connected := connected;
      this.handler := (h, reason) => Throws;
    }

    method RegisterRpcFunction(rpcFunction: RpcFunction, functionId: nat)
      modifies this`funStore
      ensures funStore == old(funStore)[functionId := rpcFunction]
    {
      funStore := funStore[functionId := rpcFunction];
    }

    method Receive(size: nat) returns (data: seq<byte>)
      modifies this`input
      ensures data == old(input)[..Min(size, |old(input)|)] && input == old(input)[Min(size, |old(input)|)..]
    {
      var n := Min(size, |input|);
      data := input[..n];
      input := input[n..];
    }

    method OneShot() returns (outcome: Outcome)
      modifies this`input, this`output
      ensures (outcome, input) == OneShotSpec(old(input), funStore)
      ensures output == old(output) + (if outcome.Served? then outcome.reply else [])
    {
      var serExeRequest := Receive(HEADER_SIZE);
      if |serExeRequest| != HEADER_SIZE {
        return Closed;
      }
      var exeRequest := DecodeHeader(serExeRequest);
      if !CheckIntegrity(exeRequest) {
        return Refused(exeRequest, IntegrityCheckFailed);
      }
      if exeRequest.functionId !in funStore {
        return Refused(exeRequest, InvalidFunctionId);
      }
      var totalParametersSize: nat := 0;
      for i := 0 to exeRequest.paramCount
        invariant totalParametersSize == TotalSize(exeRequest.sizes, i)
      {
        totalParametersSize := WrapAdd(totalParametersSize, exeRequest.sizes[i]);
      }
      var allParametersBuffer := [];
      if totalParametersSize > 0 {
        allParametersBuffer := Receive(totalParametersSize);
        if |allParametersBuffer| != totalParametersSize {
          return Refused(exeRequest, BadParameters);
        }
      }
      var result := funStore[exeRequest.functionId](exeRequest, allParametersBuffer);
      output := output + result;
      outcome := Served(exeRequest, allParametersBuffer, result);
    }

    /** One turn of the loop: the rounds so far grow by one, and the rest of the run is unchanged. */
    method Turn(rounds: seq<Outcome>) returns (rounds': seq<Outcome>, after: Option<Ending>)
      modifies this`input, this`output, this`asked
      ensures Behind(rounds, RunSpec(old(input), RoundOf(funStore), handler, connected, old(asked))) ==
              (match after
               case Some(ending) => (rounds', ending, input)
               case None => Behind(rounds', RunSpec(input, RoundOf(funStore), handler, connected, asked)))
      ensures after == None ==> |input| < |old(input)|
      ensures forall sent :: old(output) == sent + Replies(rounds) ==> output == sent + Replies(rounds')
    {
      var isConnected := connected(asked);
      asked := asked + 1;
      if !isConnected {
        assert rounds + [] == rounds;
        return rounds, Some(ConnectionClosed);
      }
      var outcome := OneShot();
      RepliesGrow(old(output), output, rounds, outcome);
      BehindOneMore(rounds, old(input), RoundOf(funStore), handler, connected, old(asked));
      rounds', after := rounds + Shown(outcome), After(outcome, handler);
    }

    method Run() returns (rounds: seq<Outcome>, ending: Ending)
      modifies this`input, this`output, this`asked
      ensures (rounds, ending, input) == RunSpec(old(input), RoundOf(funStore), handler, connected, old(asked))
      ensures output == old(output) + Replies(rounds)
    {
      rounds := [];
      var after := None;
      BehindNothing(RunSpec(input, RoundOf(funStore), handler, connected, asked));
      while after == None
        invariant RunSpec(old(input), RoundOf(funStore), handler, connected, old(asked)) ==
                  (match after
                   case Some(e) => (rounds, e, input)
                   case None => Behind(rounds, RunSpec(input, RoundOf(funStore), handler, connected, asked)))
        invariant output == old(output) + Replies(rounds)
        decreases after == None, |input|
      {
        rounds, after := Turn(rounds);
      }
      ending := after.value;
    }
  }

  /**
   Client and server together: what a client has sent for a list of dispatchable calls makes the
   server answer them all, in order.
   */
  method CallAndServe(client: RpcClient, server: RpcServer, calls: seq<RpcCall>)
    requires client.sent == [] && AllDispatchable(calls, server.funStore)
    requires forall k: nat :: server.connected(k)
    modifies client, server
    ensures server.funStore == old(server.funStore) && AllDispatchable(calls, server.funStore)
    ensures server.output == old(server.output) + Concat(RepliesTo(calls, server.funStore)) && server.input == []
  {
    ghost var store := server.funStore;
    for i := 0 to |calls|
      invariant server.funStore == store && server.output == old(server.output)
      invariant client.sent == Wires(calls[..i])
    {
      WiresSnoc(calls, i);
      client.Call(calls[i].functionId, calls[i].args);
    }
    assert calls[..|calls|] == calls;
    server.input := client.sent;
    ghost var start := server.asked;
    var rounds, ending := server.Run();
    assert Wires(calls) + [] == Wires(calls);
    ServerServesCallsInOrder(calls, [], store, server.handler, server.connected, start);
    RepliesInOrder(calls, store);
  }

  /** What the round on a call's own bytes does. */
  lemma OwnRound(c: RpcCall, input: seq<byte>, store: map<nat, RpcFunction>)
    requires Buildable(c) && Dispatchable(c, store) && input == Wire(c.functionId, c.args)
    ensures OneShotSpec(input, store) == (ServedCall(c, store), [])
  {
    DispatchIff(c, [], store);
    assert input + [] == input;
  }

  /** One call of a client that then waits for its reply, which the server sends before its next receive. */
  method CallAndWait(client: RpcClient, server: RpcServer, c: RpcCall) returns (reply: seq<byte>)
    requires server.input == [] && Buildable(c) && Dispatchable(c, server.funStore)
    modifies client, server
    ensures server.funStore == old(server.funStore) && server.input == []
    ensures reply == ReplyTo(c, server.funStore)
    ensures server.output == old(server.output) + reply
  {
    var before := |client.sent|;
    client.Call(c.functionId, c.args);
    server.input := client.sent[before..];
    OwnRound(c, server.input, server.funStore);
    var answered := |server.output|;
    var outcome := server.OneShot();
    reply := server.output[answered..];
  }

  /** The same with a client that waits for each reply before its next call: every call gets its own reply. */
  method CallOneByOne(client: RpcClient, server: RpcServer, calls: seq<RpcCall>) returns (replies: seq<seq<byte>>)
    requires server.input == [] && AllDispatchable(calls, server.funStore)
    modifies client, server
    ensures server.funStore == old(server.funStore) && AllDispatchable(calls, server.funStore)
    ensures replies == RepliesTo(calls, server.funStore) && server.input == []
    ensures server.output == old(server.output) + Concat(replies)
  {
    replies := [];
    ghost var store := server.funStore;
    for i := 0 to |calls|
      invariant server.funStore == store && server.input == []
      invariant |replies| == i && forall j: nat :: j < i ==> replies[j] == ReplyTo(calls[j], store)
      invariant server.output == old(server.output) + Concat(replies)
    {
      var reply := CallAndWait(client, server, calls[i]);
      ConcatSnoc(replies, reply);
      AppendAssociative(old(server.output), Concat(replies), reply);
      replies := replies + [reply];
    }
  }

  lemma WiresSnoc(calls: seq<RpcCall>, i: nat)
    requires i < |calls| && forall k: nat :: k < |calls| ==> Buildable(calls[k])
    ensures Wires(calls[..i + 1]) == Wires(calls[..i]) + Wire(calls[i].functionId, calls[i].args)
  {
    assert WireList(calls[..i + 1]) == WireList(calls[..i]) + [Wire(calls[i].functionId, calls[i].args)];
    ConcatSnoc(WireList(calls[..i]), Wire(calls[i].functionId, calls[i].args));
  }

  lemma RepliesShown(rounds: seq<Outcome>, outcome: Outcome)
    ensures Replies(rounds + Shown(outcome)) == Replies(rounds) + (if outcome.Served? then outcome.reply else [])
  {
    RepliesAppend(rounds, Shown(outcome));
    assert Replies([outcome]) == (if outcome.Served? then outcome.reply else []) + Replies([]);
  }

  /** Output that ends with the replies of the rounds still does after one more round. */
  lemma RepliesGrow(before: seq<byte>, after: seq<byte>, rounds: seq<Outcome>, outcome: Outcome)
    requires after == before + (if outcome.Served? then outcome.reply else [])
    ensures forall sent :: before == sent + Replies(rounds) ==> after == sent + Replies(rounds + Shown(outcome))
  {
    RepliesShown(rounds, outcome);
    forall sent | before == sent + Replies(rounds)
      ensures after == sent + Replies(rounds + Shown(outcome))
    {
      AppendAssociative(sent, Replies(rounds), if outcome.Served? then outcome.reply else []);
    }
  }

  lemma BehindNothing(r: (seq<Outcome>, Ending, seq<byte>))
    ensures Behind([], r) == r
  {
    assert [] + r.0 == r.0;
  }

  lemma BehindOneMore(
      rounds: seq<Outcome>, input: seq<byte>, round: Round, handler: (Header, Reason) -> Verdict,
      connected: nat -> bool, k: nat)
    requires Shrinks(round) && connected(k)
    ensures var (outcome, rest) := round(input);
            Behind(rounds, RunSpec(input, round, handler, connected, k)) ==
            match After(outcome, handler)
            case Some(ending) => (rounds + Shown(outcome), ending, rest)
            case None => Behind(rounds + Shown(outcome), RunSpec(rest, round, handler, connected, k + 1))
  {
    var (outcome, rest) := round(input);
    if After(outcome, handler) == None {
      var later := RunSpec(rest, round, handler, connected, k + 1).0;
      assert rounds + ([outcome] + later) == (rounds + [outcome]) + later;
    }
  }

  lemma RepliesHead(outcome: Outcome, rounds: seq<Outcome>)
    ensures Replies([outcome] + rounds) == (if outcome.Served? then outcome.reply else []) + Replies(rounds)
  {
    assert ([outcome] + rounds)[1..] == rounds;
  }

  lemma {:induction false} RepliesAppend(a: seq<Outcome>, b: seq<Outcome>)
    ensures Replies(a + b) == Replies(a) + Replies(b)
  {
    if a == [] {
      assert a + b == b;
    } else {
      var first, rest := a[0], a[1..];
      RepliesAppend(rest, b);
      assert a + b == [first] + (rest + b);
      RepliesHead(first, rest + b);
      AppendAssociative(if first.Served? then first.reply else [], Replies(rest), Replies(b));
    }
  }
}
