/**
 SPSCQueue: the byte ring together with its two Signals, one producer and one consumer.

 The producer pushes the byte strings of a list one after the other; the consumer's next request
 may depend on every reply it has had so far. Each access to a shared index, each byte copied and
 each step of a Signal is a step of its own. Only the Signal of the other side can block a side.
 */
module SpscQueue {
  import opened Bytes
  import opened CircularBuffer
  import opened RingMemory
  import opened Signal

  datatype Side = Prod | Cons

  /** pop(n), or pop(n, timeout); `quick` is a timeout of 0 ms. */
  datatype Request = Pop(n: nat) | TimedPop(n: nat, quick: bool)

  datatype Reply = Got(bytes: seq<byte>) | TimedOut

  datatype Env = Env(cap: nat, pushes: seq<seq<byte>>, policy: seq<Reply> -> Option<Request>)

  datatype ProducerPc =
    | PNext                                      // between two pushes
    | PTop(data: seq<byte>)                      // head of the while loop, data = bytes left
    | PTest(data: seq<byte>)                     // about to read freeSpace() and compare
    | PWait(data: seq<byte>, w: WaitPc)          // in dataFreeEvent.wait()
    | PCopy(data: seq<byte>, i: nat)             // i bytes of the chunk are copied
    | PSig(data: seq<byte>, g: SignalPc)         // head is stored, in dataPresentEvent.signal()

  /** What is left of a pop: `stage` counts the waits of a timed pop. */
  datatype Job =
    | Blocking(want: nat, got: seq<byte>)
    | Timed(n: nat, quick: bool, stage: nat)

  datatype ConsumerPc =
    | CNext
    | CTop(job: Job)
    | CTest(job: Job)                            // about to read size() and compare
    | CWait(job: Job, w: WaitPc)                 // in dataPresentEvent.wait(...)
    | CCopy(job: Job, out: seq<byte>)
    | CSig(job: Job, g: SignalPc)                // tail is stored, in dataFreeEvent.signal()

  datatype Producer = Producer(pc: ProducerPc, taken: nat)

  datatype Consumer = Consumer(pc: ConsumerPc, asked: seq<Request>, replies: seq<Reply>)

  /** History: the bytes published by stores of head, and released by stores of tail. */
  datatype Log = Log(pushed: seq<byte>, popped: seq<byte>)

  datatype State = State(
    ring: Ring, present: Shared<Side>, free: Shared<Side>, p: Producer, c: Consumer, log: Log)

  datatype Action =
    | ProdMove | ProdWrite | ProdPublish | ProdSignal
    | ConsMove | ConsRead | ConsRelease | ConsSignal
    | ProdSpurious | ConsSpurious | ConsTimeout

  ghost predicate Init(env: Env, s: State) {
    && 2 <= env.cap && 2 * env.cap <= WORD
    && s.ring.cap == env.cap == |s.ring.buf| && s.ring.head == s.ring.tail == 0
    && s.present == s.free == Shared(false, None)
    && s.p == Producer(PNext, 0) && s.c == Consumer(CNext, [], []) && s.log == Log([], [])
  }

  /** The bytes one round needs before it may copy. */
  function Need(cap: nat, job: Job): nat
    requires cap >= 2
  {
    match job
    case Blocking(want, _) => Chunk(cap, want)
    case Timed(n, _, _) => n
  }

  /** The waits of a timed pop: first a try, then one wait with the caller's timeout. */
  function PatienceOf(job: Job): Patience {
    match job
    case Blocking(_, _) => Forever
    case Timed(_, quick, stage) => if stage <= 1 || quick then TryOnly else Deadline
  }

  ghost predicate InRange(s: State) {
    && 2 <= s.ring.cap == |s.ring.buf| && s.ring.head < s.ring.cap && s.ring.tail < s.ring.cap
    && (s.p.pc.PCopy? ==> s.p.pc.i <= Chunk(s.ring.cap, |s.p.pc.data|))
    && (s.c.pc.CCopy? ==> |s.c.pc.out| <= Need(s.ring.cap, s.c.pc.job))
    && (s.p.pc.PWait? ==> !s.p.pc.w.Done?) && (s.c.pc.CWait? ==> !s.c.pc.w.Done?)
  }

  ghost predicate Enabled(env: Env, s: State, a: Action)
    requires InRange(s)
  {
    var ppc, cpc := s.p.pc, s.c.pc;
    match a
    case ProdMove =>
      || (ppc.PNext? && s.p.taken < |env.pushes|) || ppc.PTop? || ppc.PTest?
      || (ppc.PWait? && WaitReady(s.free, ppc.w))
    case ProdWrite => ppc.PCopy? && ppc.i < Chunk(s.ring.cap, |ppc.data|)
    case ProdPublish => ppc.PCopy? && ppc.i == Chunk(s.ring.cap, |ppc.data|)
    case ProdSignal => ppc.PSig? && SignalReady(s.present, ppc.g)
    case ConsMove =>
      || (cpc.CNext? && env.policy(s.c.replies).Some?) || cpc.CTop? || cpc.CTest?
      || (cpc.CWait? && WaitReady(s.present, cpc.w))
    case ConsRead => cpc.CCopy? && |cpc.out| < Need(s.ring.cap, cpc.job)
    case ConsRelease => cpc.CCopy? && |cpc.out| == Need(s.ring.cap, cpc.job)
    case ConsSignal => cpc.CSig? && SignalReady(s.free, cpc.g)
    case ProdSpurious => ppc.PWait? && ppc.w.Asleep?
    case ConsSpurious => cpc.CWait? && cpc.w.Asleep?
    case ConsTimeout => cpc.CWait? && cpc.w.Asleep? && PatienceOf(cpc.job).Deadline?
  }

  ghost function Next(env: Env, s: State, a: Action): State
    requires InRange(s) && Enabled(env, s, a)
  {
    match a
    case ProdMove =>
      var (free, p) := ProducerMove(env, s);
      s.(free := free, p := p)
    case ProdWrite =>
      var cell := ModuloCell(s.ring.cap, s.ring.head, s.p.pc.i);
      s.(ring := s.ring.(buf := s.ring.buf[cell := s.p.pc.data[s.p.pc.i]]),
         p := s.p.(pc := s.p.pc.(i := s.p.pc.i + 1)))
    case ProdPublish =>
      var n := s.p.pc.i;
      s.(ring := s.ring.(head := NextByModulo(s.ring.cap, s.ring.head, n)),
         p := s.p.(pc := PSig(s.p.pc.data[n..], Store)),
         log := s.log.(pushed := s.log.pushed + s.p.pc.data[..n]))
    case ProdSignal =>
      var (present, g) := SignalStep(s.present, Prod, s.p.pc.g);
      s.(present := present,
         p := s.p.(pc := if g.Finished? then PTop(s.p.pc.data) else PSig(s.p.pc.data, g)),
         c := if s.p.pc.g.Notify? then WakeConsumer(s.c) else s.c)
    case ConsMove =>
      var (present, c) := ConsumerMove(env, s);
      s.(present := present, c := c)
    case ConsRead =>
      var cell := ModuloCell(s.ring.cap, s.ring.tail, |s.c.pc.out|);
      s.(c := s.c.(pc := s.c.pc.(out := s.c.pc.out + [s.ring.buf[cell]])))
    case ConsRelease =>
      var out := s.c.pc.out;
      s.(ring := s.ring.(tail := NextByModulo(s.ring.cap, s.ring.tail, |out|)),
         c := s.c.(pc := CSig(AfterChunk(s.c.pc.job, out), Store)),
         log := s.log.(popped := s.log.popped + out))
    case ConsSignal =>
      var (free, g) := SignalStep(s.free, Cons, s.c.pc.g);
      s.(free := free,
         c := s.c.(pc := if g.Finished? then CTop(s.c.pc.job) else CSig(s.c.pc.job, g)),
         p := if s.c.pc.g.Notify? then WakeProducer(s.p) else s.p)
    case ProdSpurious => s.(p := WakeProducer(s.p))
    case ConsSpurious => s.(c := WakeConsumer(s.c))
    case ConsTimeout => s.(c := s.c.(pc := s.c.pc.(w := Woken(true))))
  }

  ghost function WakeProducer(p: Producer): Producer {
    if p.pc.PWait? then p.(pc := p.pc.(w := WakeUp(p.pc.w))) else p
  }

  ghost function WakeConsumer(c: Consumer): Consumer {
    if c.pc.CWait? then c.(pc := c.pc.(w := WakeUp(c.pc.w))) else c
  }

  /** The job behind a chunk whose tail store is done; a timed pop has no second chunk. */
  ghost function AfterChunk(job: Job, out: seq<byte>): Job
    requires job.Blocking? ==> |out| <= job.want
  {
    match job
    case Blocking(want, got) => Blocking(want - |out|, got + out)
    case Timed(_, _, _) => Blocking(0, out)
  }

  ghost function ProducerMove(env: Env, s: State): (Shared<Side>, Producer)
    requires InRange(s) && Enabled(env, s, ProdMove)
  {
    match s.p.pc
    case PNext => (s.free, Producer(PTop(env.pushes[s.p.taken]), s.p.taken + 1))
    case PTop(data) => (s.free, s.p.(pc := if data == [] then PNext else PTest(data)))
    case PTest(data) =>
      var enough := FreeSpace(s.ring.cap, s.ring.head, s.ring.tail) >= Chunk(s.ring.cap, |data|);
      (s.free, s.p.(pc := if enough then PCopy(data, 0) else PWait(data, FastLoad)))
    case PWait(data, w) =>
      var (free, w') := WaitStep(s.free, Prod, Forever, w);
      (free, s.p.(pc := if w'.Done? then PTest(data) else PWait(data, w')))
  }

  ghost function StartJob(r: Request): Job {
    match r
    case Pop(n) => Blocking(n, [])
    case TimedPop(n, quick) => Timed(n, quick, 0)
  }

  ghost function ConsumerMove(env: Env, s: State): (Shared<Side>, Consumer)
    requires InRange(s) && Enabled(env, s, ConsMove)
  {
    match s.c.pc
    case CNext =>
      var r := env.policy(s.c.replies).value;
      (s.present, s.c.(pc := CTop(StartJob(r)), asked := s.c.asked + [r]))
    case CTop(job) =>
      (s.present,
       match job
       case Blocking(want, got) =>
         if want == 0 then s.c.(pc := CNext, replies := s.c.replies + [Got(got)]) else s.c.(pc := CTest(job))
       case Timed(n, _, _) =>
         if n > s.ring.cap - 1 then s.c.(pc := CNext, replies := s.c.replies + [TimedOut]) else s.c.(pc := CTest(job)))
    case CTest(job) =>
      (s.present,
       if Size(s.ring.cap, s.ring.head, s.ring.tail) >= Need(s.ring.cap, job) then s.c.(pc := CCopy(job, []))
       else match job
         case Blocking(_, _) => s.c.(pc := CWait(job, FastLoad))
         case Timed(n, quick, stage) =>
           if stage >= 2 then s.c.(pc := CNext, replies := s.c.replies + [TimedOut])
           else s.c.(pc := CWait(Timed(n, quick, stage + 1), FastLoad)))
    case CWait(job, w) =>
      var (present, w') := WaitStep(s.present, Cons, PatienceOf(job), w);
      (present, s.c.(pc := if w'.Done? then CTest(job) else CWait(job, w')))
  }

  // ----- invariants -----

  ghost function BytesLeft(pc: ProducerPc): seq<byte> {
    if pc.PNext? then [] else pc.data
  }

  ghost predicate ProducerInv(env: Env, r: Ring, log: Log, p: Producer)
    requires 2 <= r.cap == |r.buf|
  {
    && p.taken <= |env.pushes|
    && Concat(env.pushes[..p.taken]) == log.pushed + BytesLeft(p.pc)
    && (p.pc.PTest? || p.pc.PWait? || p.pc.PCopy? ==> p.pc.data != [])
    && (p.pc.PWait? ==> !p.pc.w.Done?) && (p.pc.PSig? ==> !p.pc.g.Finished?)
    && (p.pc.PCopy? ==>
          var n := Chunk(r.cap, |p.pc.data|);
          && p.pc.i <= n && |log.pushed| + n <= |log.popped| + r.cap - 1
          && Written(r.cap, r.buf, |log.pushed|, p.pc.data[..n], FirstN(p.pc.i)))
  }

  ghost function Payload(r: Reply): seq<byte> {
    if r.Got? then r.bytes else []
  }

  ghost function Payloads(rs: seq<Reply>): (ss: seq<seq<byte>>)
    ensures |ss| == |rs| && forall k: nat :: k < |rs| ==> ss[k] == Payload(rs[k])
  {
    seq(|rs|, k => if 0 <= k < |rs| then Payload(rs[k]) else [])
  }

  /** All bytes the finished pops have handed out. */
  ghost function Delivered(rs: seq<Reply>): seq<byte> {
    Concat(Payloads(rs))
  }

  lemma DeliveredSnoc(rs: seq<Reply>, r: Reply)
    ensures Delivered(rs + [r]) == Delivered(rs) + Payload(r)
  {
    assert Payloads(rs + [r]) == Payloads(rs) + [Payload(r)];
    ConcatSnoc(Payloads(rs), Payload(r));
  }

  /** The bytes of the running pop that are already taken off the ring. */
  ghost function InHand(pc: ConsumerPc): seq<byte> {
    if pc.CNext? || pc.job.Timed? then [] else pc.job.got
  }

  ghost predicate Answers(q: Request, r: Reply) {
    match r
    case Got(bytes) => |bytes| == q.n
    case TimedOut => q.TimedPop?
  }

  ghost predicate JobOf(q: Request, job: Job) {
    match job
    case Blocking(want, got) => |got| + want == q.n
    case Timed(n, quick, _) => q == TimedPop(n, quick)
  }

  ghost predicate ConsumerInv(r: Ring, log: Log, c: Consumer)
    requires 2 <= r.cap
  {
    && Delivered(c.replies) + InHand(c.pc) == log.popped
    && |c.asked| == |c.replies| + (if c.pc.CNext? then 0 else 1)
    && (forall k: nat {:trigger c.replies[k]} :: k < |c.replies| ==> Answers(c.asked[k], c.replies[k]))
    && (!c.pc.CNext? ==> JobOf(c.asked[|c.replies|], c.pc.job))
    && (c.pc.CWait? ==> !c.pc.w.Done?)
    && (c.pc.CSig? ==> !c.pc.g.Finished? && c.pc.job.Blocking?)
    && (c.pc.CTest? || c.pc.CWait? || c.pc.CCopy? ==>
          if c.pc.job.Blocking? then c.pc.job.want > 0 else c.pc.job.n < r.cap)
    && (c.pc.CCopy? ==>
          var T, n, out := |log.popped|, Need(r.cap, c.pc.job), c.pc.out;
          && |out| <= n && T + n <= |log.pushed| && out == log.pushed[T..T + |out|])
  }

  /** Each mutex is held by exactly the side inside its critical section. */
  ghost predicate MutexInv(s: State) {
    && (s.present.owner == Some(Cons) <==> s.c.pc.CWait? && WaitHolds(s.c.pc.w))
    && (s.present.owner == Some(Prod) <==> s.p.pc.PSig? && SignalHolds(s.p.pc.g))
    && (s.free.owner == Some(Prod) <==> s.p.pc.PWait? && WaitHolds(s.p.pc.w))
    && (s.free.owner == Some(Cons) <==> s.c.pc.CSig? && SignalHolds(s.c.pc.g))
  }

  /**
   A waiter about to sleep, or asleep, on a set flag has its notify coming; and as long as it has
   not consumed the flag, enough data (`ready`) means the flag is set or about to be.
   */
  ghost predicate Wakeable(sh: Shared<Side>, w: WaitPc, signaling: bool, g: SignalPc, ready: bool) {
    && ((w.Block? || w.Asleep?) && sh.e ==> signaling && (g.NeedLock? || g.Notify?))
    && (w != Unlock(true) && ready ==> sh.e || (signaling && g.Store?))
  }

  ghost function SignalPcOf(p: ProducerPc): SignalPc {
    if p.PSig? then p.g else Finished
  }

  ghost function SignalPcOfCons(c: ConsumerPc): SignalPc {
    if c.CSig? then c.g else Finished
  }

  ghost predicate WakeInv(s: State)
    requires 2 <= s.ring.cap
  {
    var used := |s.log.pushed| - |s.log.popped|;
    && (s.c.pc.CWait? ==>
          Wakeable(s.present, s.c.pc.w, s.p.pc.PSig?, SignalPcOf(s.p.pc), used >= Need(s.ring.cap, s.c.pc.job)))
    && (s.p.pc.PWait? ==>
          Wakeable(s.free, s.p.pc.w, s.c.pc.CSig?, SignalPcOfCons(s.c.pc),
                   s.ring.cap - 1 - used >= Chunk(s.ring.cap, |s.p.pc.data|)))
  }

  ghost predicate Inv(env: Env, s: State) {
    && s.ring.cap == env.cap
    && RingInv(s.ring, s.log.pushed, s.log.popped)
    && ProducerInv(env, s.ring, s.log, s.p)
    && ConsumerInv(s.ring, s.log, s.c)
    && MutexInv(s) && WakeInv(s)
  }

  lemma InvInRange(env: Env, s: State)
    requires Inv(env, s)
    ensures InRange(s)
  {
  }

  lemma ProdMoveKeepsProducer(env: Env, s: State)
    requires Inv(env, s) && Enabled(env, s, ProdMove)
    ensures ProducerInv(env, s.ring, s.log, ProducerMove(env, s).1)
  {
    RingSizes(s.ring, s.log.pushed, s.log.popped);
    match s.p.pc
    case PNext => ConcatSplit(env.pushes, s.p.taken);
    case PTop(data) =>
    case PTest(data) =>
    case PWait(data, w) =>
  }

  lemma ProdMoveKeepsWakeups(env: Env, s: State)
    requires Inv(env, s) && Enabled(env, s, ProdMove)
    ensures MutexInv(Next(env, s, ProdMove)) && WakeInv(Next(env, s, ProdMove))
  {
    RingSizes(s.ring, s.log.pushed, s.log.popped);
    match s.p.pc
    case PWait(data, w) =>
    case _ =>
  }

  lemma ProdMoveKeepsInv(env: Env, s: State)
    requires Inv(env, s) && Enabled(env, s, ProdMove)
    ensures Inv(env, Next(env, s, ProdMove))
  {
    ProdMoveKeepsProducer(env, s);
    ProdMoveKeepsWakeups(env, s);
  }

  /** One more byte of the chunk is written. */
  lemma OneMoreWritten(r: Ring, log: Log, data: seq<byte>, i: nat)
    requires RingInv(r, log.pushed, log.popped) && i < Chunk(r.cap, |data|)
    requires |log.pushed| + Chunk(r.cap, |data|) <= |log.popped| + r.cap - 1
    requires Written(r.cap, r.buf, |log.pushed|, data[..Chunk(r.cap, |data|)], FirstN(i))
    ensures var r' := r.(buf := r.buf[ModuloCell(r.cap, r.head, i) := data[i]]);
            && RingInv(r', log.pushed, log.popped)
            && Written(r.cap, r'.buf, |log.pushed|, data[..Chunk(r.cap, |data|)], FirstN(i + 1))
  {
    var chunk := data[..Chunk(r.cap, |data|)];
    IndexFollowsPosition(r.cap, |log.pushed|, i);
    WriteCell(r, log.pushed, log.popped, chunk, FirstN(i), i);
    FirstNStep(i);
  }

  lemma ProdWriteKeepsRing(env: Env, s: State)
    requires Inv(env, s) && Enabled(env, s, ProdWrite)
    ensures var s' := Next(env, s, ProdWrite);
            RingInv(s'.ring, s.log.pushed, s.log.popped) && ProducerInv(env, s'.ring, s.log, s'.p)
  {
    OneMoreWritten(s.ring, s.log, s.p.pc.data, s.p.pc.i);
  }

  lemma ProdWriteKeepsInv(env: Env, s: State)
    requires Inv(env, s) && Enabled(env, s, ProdWrite)
    ensures Inv(env, Next(env, s, ProdWrite))
  {
    ProdWriteKeepsRing(env, s);
  }

  /** Publishing more never disturbs the consumer's own facts. */
  lemma LongerStreamKeepsConsumer(r: Ring, log: Log, c: Consumer, r': Ring, log': Log)
    requires 2 <= r.cap == r'.cap && ConsumerInv(r, log, c)
    requires log'.popped == log.popped && log.pushed <= log'.pushed
    ensures ConsumerInv(r', log', c)
  {
  }

  lemma ProdPublishKeepsInv(env: Env, s: State)
    requires Inv(env, s) && Enabled(env, s, ProdPublish)
    ensures Inv(env, Next(env, s, ProdPublish))
  {
    var H, n := |s.log.pushed|, s.p.pc.i;
    var chunk := s.p.pc.data[..n];
    IndexFollowsPosition(s.ring.cap, H, n);
    AdvanceHead(s.ring, s.log.pushed, s.log.popped, chunk, FirstN(n));
    AppendSplit(s.log.pushed, s.p.pc.data, n);
    var s' := Next(env, s, ProdPublish);
    assert s'.log.pushed == s.log.pushed + chunk;
    LongerStreamKeepsConsumer(s.ring, s.log, s.c, s'.ring, s'.log);
  }

  lemma ProdSignalKeepsInv(env: Env, s: State)
    requires Inv(env, s) && Enabled(env, s, ProdSignal)
    ensures Inv(env, Next(env, s, ProdSignal))
  {
  }

  /** Handing out a finished reply keeps the consumer's books. */
  lemma ReplyKeepsConsumer(r: Ring, log: Log, c: Consumer, reply: Reply)
    requires 2 <= r.cap && ConsumerInv(r, log, c) && !c.pc.CNext?
    requires Answers(c.asked[|c.replies|], reply) && Payload(reply) == InHand(c.pc)
    ensures ConsumerInv(r, log, c.(pc := CNext, replies := c.replies + [reply]))
  {
    DeliveredSnoc(c.replies, reply);
    var c' := c.(pc := CNext, replies := c.replies + [reply]);
    assert Delivered(c'.replies) + InHand(c'.pc) == Delivered(c'.replies);
  }

  lemma ConsMoveKeepsConsumer(env: Env, s: State)
    requires Inv(env, s) && Enabled(env, s, ConsMove)
    ensures ConsumerInv(s.ring, s.log, ConsumerMove(env, s).1)
  {
    var c, c' := s.c, ConsumerMove(env, s).1;
    if c.pc.CNext? {
      assert InHand(c'.pc) == InHand(c.pc);
    } else if c'.pc.CNext? {
      ReplyKeepsConsumer(s.ring, s.log, c, if c.pc.job.Blocking? then Got(c.pc.job.got) else TimedOut);
    } else {
      RingSizes(s.ring, s.log.pushed, s.log.popped);
      assert InHand(c'.pc) == InHand(c.pc) && c'.asked == c.asked && c'.replies == c.replies;
    }
  }

  lemma ConsMoveKeepsWakeups(env: Env, s: State)
    requires Inv(env, s) && Enabled(env, s, ConsMove)
    ensures MutexInv(Next(env, s, ConsMove)) && WakeInv(Next(env, s, ConsMove))
  {
    RingSizes(s.ring, s.log.pushed, s.log.popped);
    match s.c.pc
    case CWait(job, w) =>
    case _ =>
  }

  lemma ConsMoveKeepsInv(env: Env, s: State)
    requires Inv(env, s) && Enabled(env, s, ConsMove)
    ensures Inv(env, Next(env, s, ConsMove))
  {
    ConsMoveKeepsConsumer(env, s);
    ConsMoveKeepsWakeups(env, s);
  }

  /** The next byte read is the next byte of the stream. */
  lemma ReadsNextByte(r: Ring, log: Log, k: nat)
    requires RingInv(r, log.pushed, log.popped) && |log.popped| + k < |log.pushed|
    ensures var T := |log.popped|;
            ModuloCell(r.cap, r.tail, k) < r.cap
            && log.pushed[T..T + k] + [r.buf[ModuloCell(r.cap, r.tail, k)]] == log.pushed[T..T + k + 1]
  {
    var T := |log.popped|;
    IndexFollowsPosition(r.cap, T, k);
    assert r.buf[Cell(r.cap, T + k)] == log.pushed[T + k];
  }

  lemma ConsReadKeepsInv(env: Env, s: State)
    requires Inv(env, s) && Enabled(env, s, ConsRead)
    ensures Inv(env, Next(env, s, ConsRead))
  {
    ConsReadKeepsConsumer(env, s);
  }

  lemma ConsReadKeepsConsumer(env: Env, s: State)
    requires Inv(env, s) && Enabled(env, s, ConsRead)
    ensures ConsumerInv(s.ring, s.log, Next(env, s, ConsRead).c)
  {
    ReadsNextByte(s.ring, s.log, |s.c.pc.out|);
  }

  lemma ConsReleaseKeepsStream(env: Env, s: State)
    requires Inv(env, s) && Enabled(env, s, ConsRelease)
    ensures var s' := Next(env, s, ConsRelease);
            RingInv(s'.ring, s'.log.pushed, s'.log.popped) && ConsumerInv(s'.ring, s'.log, s'.c)
  {
    var T, out := |s.log.popped|, s.c.pc.out;
    IndexFollowsPosition(s.ring.cap, T, |out|);
    AdvanceTail(s.ring, s.log.pushed, s.log.popped, out);
    AppendAssociative(Delivered(s.c.replies), InHand(s.c.pc), out);
  }

  lemma ConsReleaseKeepsInv(env: Env, s: State)
    requires Inv(env, s) && Enabled(env, s, ConsRelease)
    ensures Inv(env, Next(env, s, ConsRelease))
  {
    ConsReleaseKeepsStream(env, s);
  }

  lemma ConsSignalKeepsInv(env: Env, s: State)
    requires Inv(env, s) && Enabled(env, s, ConsSignal)
    ensures Inv(env, Next(env, s, ConsSignal))
  {
  }

  lemma WakeupsKeepInv(env: Env, s: State, a: Action)
    requires Inv(env, s) && Enabled(env, s, a)
    requires a.ProdSpurious? || a.ConsSpurious? || a.ConsTimeout?
    ensures Inv(env, Next(env, s, a))
  {
  }

  lemma NextKeepsInv(env: Env, s: State, a: Action)
    requires Inv(env, s) && Enabled(env, s, a)
    ensures Inv(env, Next(env, s, a))
  {
    match a
    case ProdMove => ProdMoveKeepsInv(env, s);
    case ProdWrite => ProdWriteKeepsInv(env, s);
    case ProdPublish => ProdPublishKeepsInv(env, s);
    case ProdSignal => ProdSignalKeepsInv(env, s);
    case ConsMove => ConsMoveKeepsInv(env, s);
    case ConsRead => ConsReadKeepsInv(env, s);
    case ConsRelease => ConsReleaseKeepsInv(env, s);
    case ConsSignal => ConsSignalKeepsInv(env, s);
    case _ => WakeupsKeepInv(env, s, a);
  }

  // ----- runs -----

  ghost predicate IsRun(env: Env, run: seq<State>, acts: seq<Action>) {
    && |run| == |acts| + 1
    && Init(env, run[0])
    && forall i: nat :: i < |acts| ==>
         InRange(run[i]) && Enabled(env, run[i], acts[i]) && run[i + 1] == Next(env, run[i], acts[i])
  }

  lemma {:induction false} RunKeepsInv(env: Env, run: seq<State>, acts: seq<Action>, i: nat)
    requires IsRun(env, run, acts) && i < |run|
    ensures Inv(env, run[i])
  {
    if i > 0 {
      RunKeepsInv(env, run, acts, i - 1);
      NextKeepsInv(env, run[i - 1], acts[i - 1]);
    }
  }

  /** FIFO in every interleaving, whatever is asked for. */
  lemma FifoInEveryRun(env: Env, run: seq<State>, acts: seq<Action>, i: nat)
    requires IsRun(env, run, acts) && i < |run|
    ensures var s := run[i];
            && Delivered(s.c.replies) <= s.log.popped <= s.log.pushed
            && s.p.taken <= |env.pushes|
            && s.log.pushed + BytesLeft(s.p.pc) == Concat(env.pushes[..s.p.taken])
            && |s.log.pushed| - |s.log.popped| <= env.cap - 1
  {
    RunKeepsInv(env, run, acts, i);
  }

  /**
   A pop is all or nothing: between two moments outside a pop at which one more reply is known,
   a timed-out pop has not moved tail, and any other pop has handed out exactly the next q.n
   bytes of the stream and moved tail behind them.
   */
  lemma PopIsAllOrNothing(env: Env, run: seq<State>, acts: seq<Action>, m: nat, n: nat, reply: Reply)
    requires IsRun(env, run, acts) && m <= n < |run|
    requires run[m].c.pc.CNext? && run[n].c.pc.CNext?
    requires run[n].c.replies == run[m].c.replies + [reply]
    ensures |run[n].c.asked| == |run[m].c.replies| + 1
    ensures var q, s, s' := run[n].c.asked[|run[m].c.replies|], run[m], run[n];
            match reply
            case TimedOut =>
              q.TimedPop? && s'.log.popped == s.log.popped && s'.ring.tail == s.ring.tail
            case Got(bytes) =>
              && |bytes| == q.n && |s.log.popped| + q.n <= |s'.log.pushed|
              && bytes == s'.log.pushed[|s.log.popped|..|s.log.popped| + q.n]
              && s'.ring.tail == (|s.log.popped| + q.n) % env.cap
  {
    RunKeepsInv(env, run, acts, m);
    RunKeepsInv(env, run, acts, n);
    PopFromTo(env, run[m], run[n], reply);
  }

  lemma PopFromTo(env: Env, s: State, s': State, reply: Reply)
    requires Inv(env, s) && Inv(env, s')
    requires s.c.pc.CNext? && s'.c.pc.CNext? && s'.c.replies == s.c.replies + [reply]
    ensures |s'.c.asked| == |s.c.replies| + 1 && Answers(s'.c.asked[|s.c.replies|], reply)
    ensures reply.TimedOut? ==> s'.log.popped == s.log.popped && s'.ring.tail == s.ring.tail
    ensures reply.Got? ==>
              && |s.log.popped| + |reply.bytes| <= |s'.log.pushed|
              && reply.bytes == s'.log.pushed[|s.log.popped|..|s.log.popped| + |reply.bytes|]
              && s'.ring.tail == (|s.log.popped| + |reply.bytes|) % env.cap
  {
    OneMoreReply(s, s', reply);
    if reply.Got? {
      LastPiece(s'.ring, s'.log, s.log.popped, reply.bytes);
    }
  }

  /** Between two moments outside a pop, one more reply accounts for all that was released. */
  lemma OneMoreReply(s: State, s': State, reply: Reply)
    requires 2 <= s.ring.cap && 2 <= s'.ring.cap
    requires ConsumerInv(s.ring, s.log, s.c) && ConsumerInv(s'.ring, s'.log, s'.c)
    requires s.c.pc.CNext? && s'.c.pc.CNext? && s'.c.replies == s.c.replies + [reply]
    ensures |s'.c.asked| == |s.c.replies| + 1 && Answers(s'.c.asked[|s.c.replies|], reply)
    ensures s'.log.popped == s.log.popped + Payload(reply)
  {
    DeliveredSnoc(s.c.replies, reply);
    assert s'.c.replies[|s.c.replies|] == reply;
  }

  /** The bytes released last are the next ones of the stream, and tail is behind them. */
  lemma LastPiece(r: Ring, log: Log, before: seq<byte>, piece: seq<byte>)
    requires RingInv(r, log.pushed, log.popped) && log.popped == before + piece
    ensures |before| + |piece| <= |log.pushed|
    ensures piece == log.pushed[|before|..|before| + |piece|]
    ensures r.tail == (|before| + |piece|) % r.cap
  {
    assert piece == log.popped[|before|..];
    CellIsRemainder(r.cap, |log.popped|);
  }

  /**
   No lost wakeup, consumer side: asleep although enough bytes are published, the producer is
   between its store of head and its notify_all. The same for a producer asleep on free space.
   */
  lemma NoLostWakeup(env: Env, run: seq<State>, acts: seq<Action>, i: nat)
    requires IsRun(env, run, acts) && i < |run|
    ensures InRange(run[i])
    ensures var s := run[i]; var used := |s.log.pushed| - |s.log.popped|;
            && (s.c.pc.CWait? && s.c.pc.w.Asleep? && used >= Need(env.cap, s.c.pc.job)
                ==> s.p.pc.PSig? && !s.p.pc.g.Release?)
            && (s.p.pc.PWait? && s.p.pc.w.Asleep? && env.cap - 1 - used >= Chunk(env.cap, |s.p.pc.data|)
                ==> s.c.pc.CSig? && !s.c.pc.g.Release?)
  {
    RunKeepsInv(env, run, acts, i);
  }

  // ----- size() and freeSpace() called between pushes and pops -----

  lemma StepExtendsLog(env: Env, s: State, a: Action)
    requires InRange(s) && Enabled(env, s, a)
    ensures s.log.pushed <= Next(env, s, a).log.pushed && s.log.popped <= Next(env, s, a).log.popped
  {
  }

  lemma {:induction false} LogOnlyGrows(env: Env, run: seq<State>, acts: seq<Action>, m: nat, n: nat)
    requires IsRun(env, run, acts) && m <= n < |run|
    ensures run[m].log.pushed <= run[n].log.pushed && run[m].log.popped <= run[n].log.popped
  {
    if m < n {
      LogOnlyGrows(env, run, acts, m, n - 1);
      StepExtendsLog(env, run[n - 1], acts[n - 1]);
    }
  }

  /**
   size() loads head at moment h and tail at a later moment t. What it tells the consumer is really
   there at every moment until its next release of bytes, whatever the producer does meanwhile.
   */
  lemma SizeStaysSound(env: Env, run: seq<State>, acts: seq<Action>, h: nat, t: nat, n: nat)
    requires IsRun(env, run, acts) && h <= t <= n < |run|
    requires run[n].log.popped == run[h].log.popped
    ensures run[h].ring.head < env.cap && run[t].ring.tail < env.cap
    ensures Size(env.cap, run[h].ring.head, run[t].ring.tail) <= |run[n].log.pushed| - |run[n].log.popped|
  {
    RunKeepsInv(env, run, acts, h);
    RunKeepsInv(env, run, acts, t);
    LogOnlyGrows(env, run, acts, h, t);
    LogOnlyGrows(env, run, acts, t, n);
    SizeAtPositions(env.cap, |run[h].log.pushed|, |run[t].log.popped|);
  }

  /** What freeSpace() tells the producer stays free until its next store of head. */
  lemma FreeSpaceStaysSound(env: Env, run: seq<State>, acts: seq<Action>, h: nat, t: nat, n: nat)
    requires IsRun(env, run, acts) && h <= t <= n < |run|
    requires run[n].log.pushed == run[h].log.pushed
    ensures run[h].ring.head < env.cap && run[t].ring.tail < env.cap
    ensures FreeSpace(env.cap, run[h].ring.head, run[t].ring.tail)
            <= env.cap - 1 - (|run[n].log.pushed| - |run[n].log.popped|)
  {
    RunKeepsInv(env, run, acts, h);
    RunKeepsInv(env, run, acts, t);
    LogOnlyGrows(env, run, acts, h, t);
    LogOnlyGrows(env, run, acts, t, n);
    SizeAtPositions(env.cap, |run[h].log.pushed|, |run[t].log.popped|);
  }

  // ----- blocking -----

  ghost predicate IsWork(a: Action) {
    !a.ProdSpurious? && !a.ConsSpurious? && !a.ConsTimeout?
  }

  /** Nothing can move any more without a spurious wakeup or a timeout. */
  ghost predicate Stuck(env: Env, s: State)
    requires InRange(s)
  {
    forall a :: IsWork(a) ==> !Enabled(env, s, a)
  }

  ghost predicate ProducerDone(env: Env, s: State) {
    s.p.pc.PNext? && s.p.taken >= |env.pushes|
  }

  ghost predicate ConsumerDone(env: Env, s: State) {
    s.c.pc.CNext? && env.policy(s.c.replies) == None
  }

  /** Asleep with too little room, or with too little data. */
  ghost predicate ProducerStarved(s: State)
    requires InRange(s)
  {
    && s.p.pc.PWait? && s.p.pc.w.Asleep?
    && s.ring.cap - 1 - (|s.log.pushed| - |s.log.popped|) < Chunk(s.ring.cap, |s.p.pc.data|)
  }

  ghost predicate ConsumerStarved(s: State)
    requires InRange(s)
  {
    && s.c.pc.CWait? && s.c.pc.w.Asleep?
    && |s.log.pushed| - |s.log.popped| < Need(s.ring.cap, s.c.pc.job)
  }

  lemma OwnerCases(o: Option<Side>)
    ensures o == None || o == Some(Prod) || o == Some(Cons)
  {
    match o
    case None =>
    case Some(side) => assert side == Prod || side == Cons;
  }

  /** The holder of a mutex can always move, so in a stuck state nobody holds one. */
  lemma NobodyHoldsAMutex(env: Env, s: State)
    requires Inv(env, s) && Stuck(env, s)
    ensures s.present.owner == None && s.free.owner == None
  {
    assert !Enabled(env, s, ProdMove) && !Enabled(env, s, ProdSignal);
    assert !Enabled(env, s, ConsMove) && !Enabled(env, s, ConsSignal);
    OwnerCases(s.present.owner);
    OwnerCases(s.free.owner);
  }

  lemma StuckSides(env: Env, s: State)
    requires Inv(env, s) && Stuck(env, s)
    ensures ProducerDone(env, s) || ProducerStarved(s)
    ensures ConsumerDone(env, s) || ConsumerStarved(s)
  {
    assert !Enabled(env, s, ProdMove) && !Enabled(env, s, ProdWrite);
    assert !Enabled(env, s, ProdPublish) && !Enabled(env, s, ProdSignal);
    assert !Enabled(env, s, ConsMove) && !Enabled(env, s, ConsRead);
    assert !Enabled(env, s, ConsRelease) && !Enabled(env, s, ConsSignal);
    NobodyHoldsAMutex(env, s);
    assert !s.p.pc.PSig? && !s.c.pc.CSig?;
    assert s.p.pc.PNext? || (s.p.pc.PWait? && s.p.pc.w.Asleep?);
    assert s.c.pc.CNext? || (s.c.pc.CWait? && s.c.pc.w.Asleep?);
  }

  /**
   A run only ever stops with each side finished or short of data or room; and both are short
   only when the two pending chunks together exceed the capacity.
   */
  lemma StuckOnlyOnMismatch(env: Env, run: seq<State>, acts: seq<Action>, i: nat)
    requires IsRun(env, run, acts) && i < |run| && InRange(run[i]) && Stuck(env, run[i])
    ensures ProducerDone(env, run[i]) || ProducerStarved(run[i])
    ensures ConsumerDone(env, run[i]) || ConsumerStarved(run[i])
    ensures ProducerStarved(run[i]) && ConsumerStarved(run[i])
            ==> Chunk(env.cap, |run[i].p.pc.data|) + Need(env.cap, run[i].c.pc.job) > env.cap
  {
    RunKeepsInv(env, run, acts, i);
    StuckSides(env, run[i]);
  }

  /** With `used` bytes on the ring, a push chunk of a and a pop chunk of b both have to wait. */
  predicate BothStarve(cap: nat, a: nat, b: nat, used: int) {
    used < cap && cap - 1 - used < a && used < b
  }

  /** The bound is exact: some fill level starves both sides iff the chunks exceed the capacity. */
  lemma BothStarveIff(cap: nat, a: nat, b: nat)
    requires 2 <= cap && 1 <= a < cap && 1 <= b < cap
    ensures (exists used: nat :: BothStarve(cap, a, b, used)) <==> a + b > cap
  {
    if a + b > cap {
      assert BothStarve(cap, a, b, b - 1);
    }
  }
}
