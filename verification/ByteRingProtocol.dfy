/**
 ByteRing as an interleaved protocol of one producer and one consumer.

 Every load or store of a shared index, every byte copied and every return of the wait policy is
 a step of its own. A chunk's bytes may be copied in any order, and the wait policy may return
 at any time (no-op and spurious policies included); signals have no effect at this level.
 The last fields of `State` are history variables: no step reads them.
 */
module ByteRingProtocol {
  import opened Bytes
  import opened CircularBuffer
  import opened RingMemory

  datatype Producer =
    | PIdle
    | PTop(data: seq<byte>)                     // head of the while loop of push, data = bytes left
    | PCheck(data: seq<byte>)                   // about to test the free space on the snapshot
    | PLoad(data: seq<byte>)                    // about to load tail into cachedTail
    | PTest(data: seq<byte>)                    // about to test the condition of the wait loop
    | PWait(data: seq<byte>)                    // inside the wait policy
    | PCopy(data: seq<byte>, done: set<nat>)    // copying the chunk, `done` bytes are written
    | PSignal(data: seq<byte>)                  // head is stored, about to signal
    | PSizing(h: nat)                           // freeSpace(): head is loaded, tail is not yet

  datatype Consumer =
    | CIdle
    | CTop(want: nat, got: seq<byte>)           // head of the while loop of pop
    | CCheck(want: nat, got: seq<byte>)
    | CLoad(want: nat, got: seq<byte>)
    | CTest(want: nat, got: seq<byte>)
    | CWait(want: nat, got: seq<byte>)
    | CCopy(want: nat, got: seq<byte>, out: map<nat, byte>)
    | CSignal(want: nat, got: seq<byte>)
    | CSizing(h: nat)                           // size(): head is loaded, tail is not yet

  /** The producer's side: its program counter, its snapshot of tail, and what freeSpace() told it. */
  datatype ProducerSide = ProducerSide(
    pc: Producer, cachedTail: nat,
    snapshot: nat,            // history: stream position of cachedTail
    freeSeen: nat)            // history: last freeSpace() since the last push (else 0)

  datatype ConsumerSide = ConsumerSide(
    pc: Consumer, cachedHead: nat,
    snapshot: nat,            // history: stream position of cachedHead
    sizing: nat,              // history: stream position of the head loaded by a running size()
    sizeSeen: nat)            // history: last size() since the last pop (else 0)

  /** The streams, all of them history. */
  datatype Log = Log(
    given: seq<byte>,         // all bytes ever passed to push
    pushed: seq<byte>,        // bytes published by a store of head
    popped: seq<byte>,        // bytes released by a store of tail
    returned: seq<byte>)      // bytes handed back by finished pop calls

  datatype State = State(ring: Ring, p: ProducerSide, c: ConsumerSide, log: Log)

  datatype Action =
    | PushCall(data: seq<byte>) | FreeSpaceCall | AttachProducer
    | ProducerLocal | ProducerByte(i: nat) | Publish
    | PopCall(n: nat) | SizeCall | AttachConsumer
    | ConsumerLocal | ConsumerByte(i: nat) | Release

  ghost predicate Init(s: State) {
    && 2 <= s.ring.cap && 2 * s.ring.cap <= WORD && |s.ring.buf| == s.ring.cap
    && s.ring.head == s.ring.tail == 0
    && s.p == ProducerSide(PIdle, 0, 0, 0)
    && s.c == ConsumerSide(CIdle, 0, 0, 0, 0)
    && s.log == Log([], [], [], [])
  }

  /** The chunk the producer is moving. */
  ghost function PChunk(cap: nat, pc: Producer): nat {
    if cap < 2 || pc.PIdle? || pc.PSizing? then 0 else Chunk(cap, |pc.data|)
  }

  /** The chunk the consumer is moving. */
  ghost function CChunk(cap: nat, pc: Consumer): nat {
    if cap < 2 || pc.CIdle? || pc.CSizing? then 0 else Chunk(cap, pc.want)
  }

  ghost predicate Enabled(s: State, a: Action) {
    match a
    case PushCall(_) => s.p.pc.PIdle?
    case FreeSpaceCall => s.p.pc.PIdle?
    case AttachProducer => s.p.pc.PIdle?
    case ProducerLocal => !s.p.pc.PIdle? && !s.p.pc.PCopy?
    case ProducerByte(i) => s.p.pc.PCopy? && i < PChunk(s.ring.cap, s.p.pc) && i !in s.p.pc.done
    case Publish => s.p.pc.PCopy? && forall k: nat :: k < PChunk(s.ring.cap, s.p.pc) ==> k in s.p.pc.done
    case PopCall(_) => s.c.pc.CIdle?
    case SizeCall => s.c.pc.CIdle?
    case AttachConsumer => s.c.pc.CIdle?
    case ConsumerLocal => !s.c.pc.CIdle? && !s.c.pc.CCopy?
    case ConsumerByte(i) => s.c.pc.CCopy? && i < CChunk(s.ring.cap, s.c.pc) && i !in s.c.pc.out
    case Release => s.c.pc.CCopy? && forall k: nat :: k < CChunk(s.ring.cap, s.c.pc) ==> k in s.c.pc.out
  }

  ghost predicate InRange(s: State) {
    var cap := s.ring.cap;
    && 2 <= cap == |s.ring.buf|
    && s.ring.head < cap && s.ring.tail < cap && s.p.cachedTail < cap && s.c.cachedHead < cap
    && (s.p.pc.PSizing? ==> s.p.pc.h < cap)
    && (s.c.pc.CSizing? ==> s.c.pc.h < cap)
  }

  ghost function Next(s: State, a: Action): State
    requires InRange(s) && Enabled(s, a)
  {
    var ring, log := s.ring, s.log;
    match a
    case PushCall(data) =>
      s.(p := s.p.(pc := PTop(data), freeSeen := 0), log := log.(given := log.given + data))
    case FreeSpaceCall => s.(p := s.p.(pc := PSizing(ring.head)))
    case AttachProducer => s.(p := s.p.(cachedTail := ring.tail, snapshot := |log.popped|))
    case ProducerLocal => s.(p := ProducerNext(s))
    case ProducerByte(i) =>
      var cell := SegmentCell(ring.cap, ring.head, PChunk(ring.cap, s.p.pc), i);
      s.(ring := ring.(buf := ring.buf[cell := s.p.pc.data[i]]),
         p := s.p.(pc := s.p.pc.(done := s.p.pc.done + {i})))
    case Publish =>
      var n := PChunk(ring.cap, s.p.pc);
      s.(ring := ring.(head := NextBySubtraction(ring.cap, ring.head, n)),
         p := s.p.(pc := PSignal(s.p.pc.data[n..])),
         log := log.(pushed := log.pushed + s.p.pc.data[..n]))
    case PopCall(n) => s.(c := s.c.(pc := CTop(n, []), sizeSeen := 0))
    case SizeCall => s.(c := s.c.(pc := CSizing(ring.head), sizing := |log.pushed|))
    case AttachConsumer => s.(c := s.c.(cachedHead := ring.head, snapshot := |log.pushed|))
    case ConsumerLocal =>
      var returned := if s.c.pc.CTop? && s.c.pc.want == 0 then s.c.pc.got else [];
      s.(c := ConsumerNext(s), log := log.(returned := log.returned + returned))
    case ConsumerByte(i) =>
      var cell := SegmentCell(ring.cap, ring.tail, CChunk(ring.cap, s.c.pc), i);
      s.(c := s.c.(pc := s.c.pc.(out := s.c.pc.out[i := ring.buf[cell]])))
    case Release =>
      var n := CChunk(ring.cap, s.c.pc);
      var bytes := Collected(s.c.pc.out, n);
      s.(ring := ring.(tail := NextBySubtraction(ring.cap, ring.tail, n)),
         c := s.c.(pc := CSignal(s.c.pc.want - n, s.c.pc.got + bytes)),
         log := log.(popped := log.popped + bytes))
  }

  /** The steps of push and freeSpace that write nothing shared. */
  ghost function ProducerNext(s: State): ProducerSide
    requires InRange(s) && Enabled(s, ProducerLocal)
  {
    var p, cap := s.p, s.ring.cap;
    match p.pc
    case PTop(data) => p.(pc := if data == [] then PIdle else PCheck(data))
    case PCheck(data) =>
      var enough := FreeSpace(cap, s.ring.head, p.cachedTail) >= PChunk(cap, p.pc);
      p.(pc := if enough then PCopy(data, {}) else PLoad(data))
    case PLoad(data) => p.(cachedTail := s.ring.tail, snapshot := |s.log.popped|, pc := PTest(data))
    case PTest(data) =>
      var enough := FreeSpace(cap, s.ring.head, p.cachedTail) >= PChunk(cap, p.pc);
      p.(pc := if enough then PCopy(data, {}) else PWait(data))
    case PWait(data) => p.(pc := PLoad(data))
    case PSignal(data) => p.(pc := PTop(data))
    case PSizing(h) => p.(freeSeen := FreeSpace(cap, h, s.ring.tail), pc := PIdle)
  }

  /** The steps of pop and size that write nothing shared. */
  ghost function ConsumerNext(s: State): ConsumerSide
    requires InRange(s) && Enabled(s, ConsumerLocal)
  {
    var c, cap := s.c, s.ring.cap;
    match c.pc
    case CTop(want, got) => c.(pc := if want == 0 then CIdle else CCheck(want, got))
    case CCheck(want, got) =>
      var enough := Size(cap, c.cachedHead, s.ring.tail) >= CChunk(cap, c.pc);
      c.(pc := if enough then CCopy(want, got, map[]) else CLoad(want, got))
    case CLoad(want, got) => c.(cachedHead := s.ring.head, snapshot := |s.log.pushed|, pc := CTest(want, got))
    case CTest(want, got) =>
      var enough := Size(cap, c.cachedHead, s.ring.tail) >= CChunk(cap, c.pc);
      c.(pc := if enough then CCopy(want, got, map[]) else CWait(want, got))
    case CWait(want, got) => c.(pc := CLoad(want, got))
    case CSignal(want, got) => c.(pc := CTop(want, got))
    case CSizing(h) => c.(sizeSeen := Size(cap, h, s.ring.tail), pc := CIdle)
  }

  // ----- the invariant -----

  /** The bytes taken so far are those of the stream behind position T. */
  ghost predicate Taken(stream: seq<byte>, T: nat, n: nat, out: map<nat, byte>) {
    forall k {:trigger k in out} :: k in out ==> k < n && T + k < |stream| && out[k] == stream[T + k]
  }

  ghost function ByteAt(out: map<nat, byte>, k: nat): byte {
    if k in out then out[k] else 0
  }

  /** The chunk as the consumer's memory holds it once every byte is copied. */
  ghost function Collected(out: map<nat, byte>, n: nat): (r: seq<byte>)
    ensures |r| == n && forall k: nat :: k < n ==> r[k] == ByteAt(out, k)
  {
    seq(n, k => if k < 0 then 0 else ByteAt(out, k))
  }

  lemma CollectChunk(stream: seq<byte>, T: nat, n: nat, out: map<nat, byte>)
    requires T + n <= |stream| && Taken(stream, T, n, out)
    requires forall k: nat :: k < n ==> k in out
    ensures Collected(out, n) == stream[T..T + n]
  {
  }

  ghost function BytesLeft(pc: Producer): seq<byte> {
    if pc.PIdle? || pc.PSizing? then [] else pc.data
  }

  ghost function BytesGot(pc: Consumer): seq<byte> {
    if pc.CIdle? || pc.CSizing? then [] else pc.got
  }

  ghost predicate ProducerInv(r: Ring, log: Log, p: ProducerSide)
    requires RingInv(r, log.pushed, log.popped)
  {
    var H := |log.pushed|;
    && p.snapshot <= |log.popped| && H <= p.snapshot + r.cap - 1
    && p.cachedTail == Cell(r.cap, p.snapshot)
    && log.given == log.pushed + BytesLeft(p.pc)
    && p.freeSeen <= (if p.pc.PIdle? || p.pc.PSizing? then r.cap - 1 - (H - |log.popped|) else 0)
    && (p.pc.PSizing? ==> p.pc.h == r.head)
    && (p.pc.PCheck? || p.pc.PLoad? || p.pc.PTest? || p.pc.PWait? || p.pc.PCopy? ==> p.pc.data != [])
    && (p.pc.PCopy? ==>
          && H + PChunk(r.cap, p.pc) <= p.snapshot + r.cap - 1
          && Written(r.cap, r.buf, H, p.pc.data[..PChunk(r.cap, p.pc)], p.pc.done))
  }

  ghost predicate ConsumerInv(r: Ring, log: Log, c: ConsumerSide)
    requires RingInv(r, log.pushed, log.popped)
  {
    var T := |log.popped|;
    && T <= c.snapshot <= |log.pushed|
    && c.cachedHead == Cell(r.cap, c.snapshot)
    && log.popped == log.returned + BytesGot(c.pc)
    && c.sizeSeen <= (if c.pc.CIdle? || c.pc.CSizing? then |log.pushed| - T else 0)
    && (c.pc.CSizing? ==> T <= c.sizing <= |log.pushed| && c.pc.h == Cell(r.cap, c.sizing))
    && (c.pc.CCheck? || c.pc.CLoad? || c.pc.CTest? || c.pc.CWait? || c.pc.CCopy? ==> c.pc.want > 0)
    && (c.pc.CCopy? ==>
          && T + CChunk(r.cap, c.pc) <= c.snapshot
          && Taken(log.pushed, T, CChunk(r.cap, c.pc), c.pc.out))
  }

  ghost predicate Inv(s: State) {
    RingInv(s.ring, s.log.pushed, s.log.popped) && ProducerInv(s.ring, s.log, s.p) && ConsumerInv(s.ring, s.log, s.c)
  }

  lemma InvInRange(s: State)
    requires Inv(s)
    ensures InRange(s)
  {
  }

  lemma SnapshotSizes(s: State)
    requires Inv(s)
    ensures FreeSpace(s.ring.cap, s.ring.head, s.p.cachedTail) == s.ring.cap - 1 - (|s.log.pushed| - s.p.snapshot)
    ensures FreeSpace(s.ring.cap, s.ring.head, s.ring.tail) == s.ring.cap - 1 - (|s.log.pushed| - |s.log.popped|)
    ensures Size(s.ring.cap, s.c.cachedHead, s.ring.tail) == s.c.snapshot - |s.log.popped|
    ensures Size(s.ring.cap, s.ring.head, s.ring.tail) == |s.log.pushed| - |s.log.popped|
  {
    SizeAtPositions(s.ring.cap, |s.log.pushed|, s.p.snapshot);
    SizeAtPositions(s.ring.cap, |s.log.pushed|, |s.log.popped|);
    SizeAtPositions(s.ring.cap, s.c.snapshot, |s.log.popped|);
  }

  lemma ProducerByteKeepsInv(s: State, i: nat)
    requires Inv(s) && Enabled(s, ProducerByte(i))
    ensures Inv(Next(s, ProducerByte(i)))
  {
    var cap, H, n := s.ring.cap, |s.log.pushed|, PChunk(s.ring.cap, s.p.pc);
    SegmentFollowsPosition(cap, H, n, i);
    WriteCell(s.ring, s.log.pushed, s.log.popped, s.p.pc.data[..n], s.p.pc.done, i);
  }

  lemma ConsumerByteKeepsInv(s: State, i: nat)
    requires Inv(s) && Enabled(s, ConsumerByte(i))
    ensures Inv(Next(s, ConsumerByte(i)))
  {
    SegmentFollowsPosition(s.ring.cap, |s.log.popped|, CChunk(s.ring.cap, s.c.pc), i);
  }

  lemma PublishKeepsRing(s: State)
    requires Inv(s) && Enabled(s, Publish)
    ensures RingInv(Next(s, Publish).ring, Next(s, Publish).log.pushed, s.log.popped)
  {
    var cap, H, n := s.ring.cap, |s.log.pushed|, PChunk(s.ring.cap, s.p.pc);
    IndexFollowsPosition(cap, H, n);
    AdvanceHead(s.ring, s.log.pushed, s.log.popped, s.p.pc.data[..n], s.p.pc.done);
  }

  /** Publishing more never disturbs the consumer's side. */
  lemma LongerStreamKeepsConsumer(r: Ring, log: Log, c: ConsumerSide, r': Ring, log': Log)
    requires RingInv(r, log.pushed, log.popped) && RingInv(r', log'.pushed, log'.popped) && ConsumerInv(r, log, c)
    requires r'.cap == r.cap && log.pushed <= log'.pushed
    requires log'.popped == log.popped && log'.returned == log.returned
    ensures ConsumerInv(r', log', c)
  {
  }

  lemma PublishKeepsInv(s: State)
    requires Inv(s) && Enabled(s, Publish)
    ensures Inv(Next(s, Publish))
  {
    PublishKeepsRing(s);
    var s' := Next(s, Publish);
    LongerStreamKeepsConsumer(s.ring, s.log, s.c, s'.ring, s'.log);
    AppendSplit(s.log.pushed, s.p.pc.data, PChunk(s.ring.cap, s.p.pc));
  }

  lemma ReleaseKeepsInv(s: State)
    requires Inv(s) && Enabled(s, Release)
    ensures Inv(Next(s, Release))
  {
    var cap, T, n := s.ring.cap, |s.log.popped|, CChunk(s.ring.cap, s.c.pc);
    IndexFollowsPosition(cap, T, n);
    var bytes := Collected(s.c.pc.out, n);
    CollectChunk(s.log.pushed, T, n, s.c.pc.out);
    AdvanceTail(s.ring, s.log.pushed, s.log.popped, bytes);
    AppendAssociative(s.log.returned, s.c.pc.got, bytes);
  }

  lemma ProducerLocalKeepsInv(s: State)
    requires Inv(s) && Enabled(s, ProducerLocal)
    ensures Inv(Next(s, ProducerLocal))
  {
    SnapshotSizes(s);
    var p' := ProducerNext(s);
    assert ProducerInv(s.ring, s.log, p') by {
      match s.p.pc
      case PCheck(data) =>
      case PTest(data) =>
      case _ =>
    }
  }

  lemma ConsumerLocalKeepsInv(s: State)
    requires Inv(s) && Enabled(s, ConsumerLocal)
    ensures Inv(Next(s, ConsumerLocal))
  {
    SnapshotSizes(s);
    if s.c.pc.CSizing? {
      SizeAtPositions(s.ring.cap, s.c.sizing, |s.log.popped|);
    }
    var s' := Next(s, ConsumerLocal);
    assert s'.log.popped == s'.log.returned + BytesGot(s'.c.pc);
    assert ConsumerInv(s'.ring, s'.log, s'.c) by {
      match s.c.pc
      case CCheck(want, got) =>
      case CTest(want, got) =>
      case _ =>
    }
  }

  lemma NextKeepsInv(s: State, a: Action)
    requires Inv(s) && Enabled(s, a)
    ensures Inv(Next(s, a))
  {
    match a
    case ProducerByte(i) => ProducerByteKeepsInv(s, i);
    case Publish => PublishKeepsInv(s);
    case ConsumerByte(i) => ConsumerByteKeepsInv(s, i);
    case Release => ReleaseKeepsInv(s);
    case PushCall(data) => assert s.log.given == s.log.pushed;
    case ProducerLocal => ProducerLocalKeepsInv(s);
    case ConsumerLocal => ConsumerLocalKeepsInv(s);
    case _ =>
  }

  // ----- runs -----

  ghost predicate IsRun(run: seq<State>, acts: seq<Action>) {
    && |run| == |acts| + 1
    && Init(run[0])
    && forall i: nat :: i < |acts| ==>
         InRange(run[i]) && Enabled(run[i], acts[i]) && run[i + 1] == Next(run[i], acts[i])
  }

  lemma {:induction false} RunKeepsInv(run: seq<State>, acts: seq<Action>, i: nat)
    requires IsRun(run, acts) && i < |run|
    ensures Inv(run[i])
  {
    if i > 0 {
      RunKeepsInv(run, acts, i - 1);
      NextKeepsInv(run[i - 1], acts[i - 1]);
    }
  }

  /** The range condition in IsRun never cuts a run short: every enabled step can be appended. */
  lemma RunsNeverLeaveTheRange(run: seq<State>, acts: seq<Action>, a: Action)
    requires IsRun(run, acts) && Enabled(run[|acts|], a)
    ensures InRange(run[|acts|])
    ensures IsRun(run + [Next(run[|acts|], a)], acts + [a])
  {
    RunKeepsInv(run, acts, |acts|);
    InvInRange(run[|acts|]);
  }

  /** FIFO in every interleaving: what came out is a prefix of what went in, and no byte is lost. */
  lemma FifoInEveryRun(run: seq<State>, acts: seq<Action>, i: nat)
    requires IsRun(run, acts) && i < |run|
    ensures var s := run[i];
            && s.log.returned + BytesGot(s.c.pc) == s.log.popped <= s.log.pushed <= s.log.given
            && s.log.given == s.log.pushed + BytesLeft(s.p.pc)
            && |s.log.pushed| - |s.log.popped| <= s.ring.cap - 1
            && (s.p.pc.PIdle? ==> s.log.pushed == s.log.given)
            && (s.c.pc.CIdle? ==> s.log.returned == s.log.popped)
  {
    RunKeepsInv(run, acts, i);
  }

  /**
   The stale snapshots keep the chain CT <= T <= CH <= H <= CT + capacity - 1, every physical
   index is its position's cell, and what a snapshot reports never exceeds the truth.
   */
  lemma SnapshotChainInEveryRun(run: seq<State>, acts: seq<Action>, i: nat)
    requires IsRun(run, acts) && i < |run|
    ensures InRange(run[i])
    ensures var s := run[i]; var cap := s.ring.cap; var H, T := |s.log.pushed|, |s.log.popped|;
            && s.p.snapshot <= T <= s.c.snapshot <= H <= s.p.snapshot + cap - 1
            && s.ring.head == H % cap && s.ring.tail == T % cap
            && s.c.cachedHead == s.c.snapshot % cap && s.p.cachedTail == s.p.snapshot % cap
            && Size(cap, s.c.cachedHead, s.ring.tail) <= H - T == Size(cap, s.ring.head, s.ring.tail)
            && FreeSpace(cap, s.ring.head, s.p.cachedTail) <= cap - 1 - (H - T)
  {
    RunKeepsInv(run, acts, i);
    var s := run[i];
    SnapshotSizes(s);
    CellIsRemainder(s.ring.cap, |s.log.pushed|);
    CellIsRemainder(s.ring.cap, |s.log.popped|);
    CellIsRemainder(s.ring.cap, s.c.snapshot);
    CellIsRemainder(s.ring.cap, s.p.snapshot);
  }

  /** The cells the producer has still to write of its current chunk. */
  ghost function CellsBeingWritten(s: State): set<nat>
    requires InRange(s)
  {
    if !s.p.pc.PCopy? then {}
    else set i: nat | i < PChunk(s.ring.cap, s.p.pc) && i !in s.p.pc.done
           :: SegmentCell(s.ring.cap, s.ring.head, PChunk(s.ring.cap, s.p.pc), i)
  }

  /** The cells the consumer may still read: all that is published, and all of its current chunk. */
  ghost function CellsReadable(s: State): set<nat>
    requires InRange(s)
  {
    (set j: nat | |s.log.popped| <= j < |s.log.pushed| :: Cell(s.ring.cap, j)) +
    (if !s.c.pc.CCopy? then {}
     else set i: nat | i < CChunk(s.ring.cap, s.c.pc)
            :: SegmentCell(s.ring.cap, s.ring.tail, CChunk(s.ring.cap, s.c.pc), i))
  }

  /** Writer and reader never meet in a cell, even when both regions wrap around. */
  lemma WriterAndReaderDisjoint(run: seq<State>, acts: seq<Action>, i: nat)
    requires IsRun(run, acts) && i < |run|
    ensures InRange(run[i]) && CellsBeingWritten(run[i]) !! CellsReadable(run[i])
  {
    RunKeepsInv(run, acts, i);
    var s := run[i];
    var cap, H, T := s.ring.cap, |s.log.pushed|, |s.log.popped|;
    if s.p.pc.PCopy? {
      forall k: nat, j: nat | k < PChunk(cap, s.p.pc) && T <= j < H
        ensures SegmentCell(cap, s.ring.head, PChunk(cap, s.p.pc), k) != Cell(cap, j)
      {
        SegmentFollowsPosition(cap, H, PChunk(cap, s.p.pc), k);
        CellInjective(cap, j, H + k);
      }
      if s.c.pc.CCopy? {
        forall m: nat | m < CChunk(cap, s.c.pc)
          ensures SegmentCell(cap, s.ring.tail, CChunk(cap, s.c.pc), m) == Cell(cap, T + m) && T <= T + m < H
        {
          SegmentFollowsPosition(cap, T, CChunk(cap, s.c.pc), m);
        }
      }
    }
  }

  /**
   size() seen by the consumer stays a lower bound of the bytes available until its next pop;
   freeSpace() seen by the producer stays a lower bound of the free space until its next push.
   */
  lemma SizesStaySound(run: seq<State>, acts: seq<Action>, i: nat)
    requires IsRun(run, acts) && i < |run|
    ensures run[i].c.sizeSeen <= |run[i].log.pushed| - |run[i].log.popped|
    ensures run[i].p.freeSeen <= run[i].ring.cap - 1 - (|run[i].log.pushed| - |run[i].log.popped|)
  {
    RunKeepsInv(run, acts, i);
  }
}
