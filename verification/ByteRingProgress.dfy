/**
 Progress on a ByteRing, for any wait policy: a side waits only when it has just found too little room
 or too few bytes, leaves the wait as soon as there is enough, never stands still inside a call, and
 apart from its waits does a bounded number of steps.
 */
module ByteRingProgress {
  import opened Bytes
  import opened CircularBuffer
  import opened RingMemory
  import opened ByteRingProtocol

  predicate ProducerAct(a: Action) {
    a.PushCall? || a.FreeSpaceCall? || a.AttachProducer? || a.ProducerLocal? || a.ProducerByte? || a.Publish?
  }

  predicate ConsumerAct(a: Action) {
    !ProducerAct(a)
  }

  ghost function Room(s: State): int {
    s.ring.cap - 1 - (|s.log.pushed| - |s.log.popped|)
  }

  ghost function Data(s: State): int {
    |s.log.pushed| - |s.log.popped|
  }

  /** What an action of the other side leaves alone. */
  lemma ConsumerLeavesProducer(s: State, a: Action)
    requires Inv(s) && Enabled(s, a) && ConsumerAct(a)
    ensures Next(s, a).p == s.p && Next(s, a).log.pushed == s.log.pushed && Next(s, a).ring.cap == s.ring.cap
    ensures |Next(s, a).log.popped| >= |s.log.popped|
  {
  }

  lemma ProducerLeavesConsumer(s: State, a: Action)
    requires Inv(s) && Enabled(s, a) && ProducerAct(a)
    ensures Next(s, a).c == s.c && Next(s, a).log.popped == s.log.popped && Next(s, a).ring.cap == s.ring.cap
    ensures |Next(s, a).log.pushed| >= |s.log.pushed|
  {
  }

  // ----- a fresh ring, and what each side can do -----

  /** Every capacity from 2 on, up to half the index word, has a fresh ring. */
  lemma FreshRing(cap: nat) returns (s: State)
    requires 2 <= cap && 2 * cap <= WORD
    ensures Init(s) && s.ring.cap == cap && IsRun([s], [])
  {
    s := State(Ring(cap, seq(cap, _ => 0), 0, 0), ProducerSide(PIdle, 0, 0, 0), ConsumerSide(CIdle, 0, 0, 0, 0),
               Log([], [], [], []));
  }

  /** An idle side can make any of its calls. */
  lemma IdleSideCanCall(s: State, data: seq<byte>, n: nat)
    ensures s.p.pc.PIdle? ==> Enabled(s, PushCall(data)) && Enabled(s, FreeSpaceCall) && Enabled(s, AttachProducer)
    ensures s.c.pc.CIdle? ==> Enabled(s, PopCall(n)) && Enabled(s, SizeCall) && Enabled(s, AttachConsumer)
  {
  }

  lemma ProducerCanMove(s: State)
    requires !s.p.pc.PIdle?
    ensures exists a :: ProducerAct(a) && Enabled(s, a)
  {
    if !s.p.pc.PCopy? {
      assert Enabled(s, ProducerLocal);
    } else if k: nat :| k < PChunk(s.ring.cap, s.p.pc) && k !in s.p.pc.done {
      assert Enabled(s, ProducerByte(k));
    } else {
      assert Enabled(s, Publish);
    }
  }

  lemma ConsumerCanMove(s: State)
    requires !s.c.pc.CIdle?
    ensures exists a :: ConsumerAct(a) && Enabled(s, a)
  {
    if !s.c.pc.CCopy? {
      assert Enabled(s, ConsumerLocal);
    } else if k: nat :| k < CChunk(s.ring.cap, s.c.pc) && k !in s.c.pc.out {
      assert Enabled(s, ConsumerByte(k));
    } else {
      assert Enabled(s, Release);
    }
  }

  // ----- a wait begins only when there really was too little -----

  /** The step from the test of the wait loop into the wait policy. */
  ghost predicate ProducerWaits(s: State, a: Action, s': State) {
    a.ProducerLocal? && s.p.pc.PTest? && s'.p.pc.PWait?
  }

  ghost predicate ConsumerWaits(s: State, a: Action, s': State) {
    a.ConsumerLocal? && s.c.pc.CTest? && s'.c.pc.CWait?
  }

  lemma WaitsOnSmallSnapshot(s: State, a: Action)
    requires Inv(s) && Enabled(s, a)
    ensures ProducerWaits(s, a, Next(s, a)) ==>
              s.ring.cap - 1 - (|s.log.pushed| - s.p.snapshot) < Chunk(s.ring.cap, |s.p.pc.data|)
    ensures ConsumerWaits(s, a, Next(s, a)) ==> s.c.snapshot - |s.log.popped| < Chunk(s.ring.cap, s.c.pc.want)
  {
    SnapshotSizes(s);
  }

  /** At the test the snapshot is the one that the step of this side before it has loaded. */
  ghost predicate LoadsForTest(s: State, a: Action, s': State) {
    && a.ProducerLocal? && s.p.pc.PLoad? && s'.p.pc == PTest(s.p.pc.data)
    && s'.p.snapshot == |s.log.popped| && s'.log.pushed == s.log.pushed
  }

  ghost predicate LoadsForTestCons(s: State, a: Action, s': State) {
    && a.ConsumerLocal? && s.c.pc.CLoad? && s'.c.pc == CTest(s.c.pc.want, s.c.pc.got)
    && s'.c.snapshot == |s.log.pushed| && s'.log.popped == s.log.popped
  }

  ghost predicate TestStep(s: State, a: Action, s': State) {
    && (s'.p.pc.PTest? ==> (s.p == s'.p && s.log.pushed == s'.log.pushed) || LoadsForTest(s, a, s'))
    && (s'.c.pc.CTest? ==> (s.c == s'.c && s.log.popped == s'.log.popped) || LoadsForTestCons(s, a, s'))
    && s'.ring.cap == s.ring.cap
  }

  lemma NextIsTestStep(s: State, a: Action)
    requires Inv(s) && Enabled(s, a)
    ensures TestStep(s, a, Next(s, a))
  {
  }

  ghost predicate TestSteps(run: seq<State>, acts: seq<Action>) {
    && |run| == |acts| + 1
    && forall e: nat {:trigger acts[e]} :: e < |acts| ==> TestStep(run[e], acts[e], run[e + 1])
  }

  lemma RunHasTestSteps(run: seq<State>, acts: seq<Action>)
    requires IsRun(run, acts)
    ensures TestSteps(run, acts)
  {
    forall e: nat | e < |acts|
      ensures TestStep(run[e], acts[e], run[e + 1])
    {
      RunKeepsInv(run, acts, e);
      NextIsTestStep(run[e], acts[e]);
    }
  }

  lemma {:induction false} ProducerLoad(run: seq<State>, acts: seq<Action>, n: nat) returns (l: nat)
    requires TestSteps(run, acts) && n < |run| && run[n].p.pc.PTest? && run[0].p.pc.PIdle?
    ensures l < n && acts[l].ProducerLocal? && run[l].p.pc == PLoad(run[n].p.pc.data)
    ensures run[n].p.snapshot == |run[l].log.popped| && run[n].log.pushed == run[l].log.pushed
    ensures run[n].ring.cap == run[l].ring.cap
  {
    assert TestStep(run[n - 1], acts[n - 1], run[n]);
    if LoadsForTest(run[n - 1], acts[n - 1], run[n]) {
      l := n - 1;
    } else {
      l := ProducerLoad(run, acts, n - 1);
    }
  }

  lemma {:induction false} ConsumerLoad(run: seq<State>, acts: seq<Action>, n: nat) returns (l: nat)
    requires TestSteps(run, acts) && n < |run| && run[n].c.pc.CTest? && run[0].c.pc.CIdle?
    ensures l < n && acts[l].ConsumerLocal? && run[l].c.pc == CLoad(run[n].c.pc.want, run[n].c.pc.got)
    ensures run[n].c.snapshot == |run[l].log.pushed| && run[n].log.popped == run[l].log.popped
    ensures run[n].ring.cap == run[l].ring.cap
  {
    assert TestStep(run[n - 1], acts[n - 1], run[n]);
    if LoadsForTestCons(run[n - 1], acts[n - 1], run[n]) {
      l := n - 1;
    } else {
      l := ConsumerLoad(run, acts, n - 1);
    }
  }

  /**
   A producer goes into the wait policy only when the ring, at the moment l of its last load of tail,
   really had too little room for its chunk.
   */
  lemma ProducerWaitsOnlyWhenFull(run: seq<State>, acts: seq<Action>, n: nat) returns (l: nat)
    requires IsRun(run, acts) && n < |acts| && ProducerWaits(run[n], acts[n], run[n + 1])
    ensures l < n && acts[l].ProducerLocal? && run[l].p.pc == PLoad(run[n].p.pc.data)
    ensures run[l].ring.cap >= 2 && Room(run[l]) < Chunk(run[l].ring.cap, |run[l].p.pc.data|)
  {
    RunKeepsInv(run, acts, n);
    WaitsOnSmallSnapshot(run[n], acts[n]);
    RunHasTestSteps(run, acts);
    l := ProducerLoad(run, acts, n);
  }

  /** And a consumer only when, at the moment of its last load of head, too few bytes were published. */
  lemma ConsumerWaitsOnlyWhenEmpty(run: seq<State>, acts: seq<Action>, n: nat) returns (l: nat)
    requires IsRun(run, acts) && n < |acts| && ConsumerWaits(run[n], acts[n], run[n + 1])
    ensures l < n && acts[l].ConsumerLocal? && run[l].c.pc == CLoad(run[n].c.pc.want, run[n].c.pc.got)
    ensures run[l].ring.cap >= 2 && Data(run[l]) < Chunk(run[l].ring.cap, run[l].c.pc.want)
  {
    RunKeepsInv(run, acts, n);
    WaitsOnSmallSnapshot(run[n], acts[n]);
    RunHasTestSteps(run, acts);
    l := ConsumerLoad(run, acts, n);
  }

  // ----- what a snapshot saves, and what every chunk signals -----

  /** While the snapshot shows enough room, a round of push is in its copy after two steps, without a load of tail. */
  lemma SnapshotSavesTheLoad(s: State)
    requires Inv(s) && s.p.pc.PTop? && s.p.pc.data != []
    requires s.ring.cap - 1 - (|s.log.pushed| - s.p.snapshot) >= Chunk(s.ring.cap, |s.p.pc.data|)
    ensures Enabled(s, ProducerLocal)
    ensures var s1 := Next(s, ProducerLocal);
            && s1.p.snapshot == s.p.snapshot && InRange(s1) && Enabled(s1, ProducerLocal)
            && Next(s1, ProducerLocal).p == s.p.(pc := PCopy(s.p.pc.data, {}))
  {
    SnapshotSizes(s);
  }

  lemma SnapshotSavesTheLoadOfHead(s: State)
    requires Inv(s) && s.c.pc.CTop? && s.c.pc.want != 0
    requires s.c.snapshot - |s.log.popped| >= Chunk(s.ring.cap, s.c.pc.want)
    ensures Enabled(s, ConsumerLocal)
    ensures var s1 := Next(s, ConsumerLocal);
            && s1.c.snapshot == s.c.snapshot && InRange(s1) && Enabled(s1, ConsumerLocal)
            && Next(s1, ConsumerLocal).c == s.c.(pc := CCopy(s.c.pc.want, s.c.pc.got, map[]))
  {
    SnapshotSizes(s);
  }

  /** Between a store of head and the producer's next step stands its signal, and likewise for tail. */
  lemma {:induction false} EveryStoreIsSignalled(run: seq<State>, acts: seq<Action>, m: nat, n: nat)
    requires IsRun(run, acts) && m < n < |run|
    ensures acts[m].Publish? && (forall i: nat :: m < i < n ==> !ProducerAct(acts[i])) ==> run[n].p.pc.PSignal?
    ensures acts[m].Release? && (forall i: nat :: m < i < n ==> !ConsumerAct(acts[i])) ==> run[n].c.pc.CSignal?
  {
    RunKeepsInv(run, acts, n - 1);
    if m + 1 < n {
      EveryStoreIsSignalled(run, acts, m, n - 1);
      if !ProducerAct(acts[n - 1]) {
        ConsumerLeavesProducer(run[n - 1], acts[n - 1]);
      } else {
        ProducerLeavesConsumer(run[n - 1], acts[n - 1]);
      }
    }
  }

  // ----- with enough room, or enough bytes, the copy begins -----

  /** Inside a push, between the head of its loop and its copy. */
  predicate BeforeCopy(pc: Producer) {
    (pc.PTop? && pc.data != []) || pc.PCheck? || pc.PLoad? || pc.PTest? || pc.PWait?
  }

  predicate BeforeRead(pc: Consumer) {
    (pc.CTop? && pc.want != 0) || pc.CCheck? || pc.CLoad? || pc.CTest? || pc.CWait?
  }

  /** Own steps to the copy, once there is enough room; a stale snapshot may cost one more turn through the wait. */
  ghost function StepsToCopy(s: State): nat {
    match s.p.pc
    case PTop(_) => 4
    case PCheck(_) => 3
    case PLoad(_) => 2
    case PTest(_) =>
      if s.ring.cap - 1 - (|s.log.pushed| - s.p.snapshot) >= PChunk(s.ring.cap, s.p.pc) then 1 else 4
    case PWait(_) => 3
    case _ => 0
  }

  ghost function StepsToRead(s: State): nat {
    match s.c.pc
    case CTop(_, _) => 4
    case CCheck(_, _) => 3
    case CLoad(_, _) => 2
    case CTest(_, _) => if s.c.snapshot - |s.log.popped| >= CChunk(s.ring.cap, s.c.pc) then 1 else 4
    case CWait(_, _) => 3
    case _ => 0
  }

  lemma LocalStepNearsCopy(s: State)
    requires Inv(s) && BeforeCopy(s.p.pc) && Room(s) >= PChunk(s.ring.cap, s.p.pc) && Enabled(s, ProducerLocal)
    ensures var s' := Next(s, ProducerLocal);
            && StepsToCopy(s') < StepsToCopy(s) && Room(s') == Room(s)
            && PChunk(s'.ring.cap, s'.p.pc) == PChunk(s.ring.cap, s.p.pc)
            && (s'.p.pc == PCopy(s.p.pc.data, {}) || BeforeCopy(s'.p.pc))
  {
    SnapshotSizes(s);
  }

  lemma LocalStepNearsRead(s: State)
    requires Inv(s) && BeforeRead(s.c.pc) && Data(s) >= CChunk(s.ring.cap, s.c.pc) && Enabled(s, ConsumerLocal)
    ensures var s' := Next(s, ConsumerLocal);
            && StepsToRead(s') < StepsToRead(s) && Data(s') == Data(s)
            && CChunk(s'.ring.cap, s'.c.pc) == CChunk(s.ring.cap, s.c.pc)
            && (s'.c.pc == CCopy(s.c.pc.want, s.c.pc.got, map[]) || BeforeRead(s'.c.pc))
  {
    SnapshotSizes(s);
  }

  ghost predicate RoomForChunk(s: State) {
    BeforeCopy(s.p.pc) && Room(s) >= PChunk(s.ring.cap, s.p.pc)
  }

  ghost predicate DataForChunk(s: State) {
    BeforeRead(s.c.pc) && Data(s) >= CChunk(s.ring.cap, s.c.pc)
  }

  /** Any step while the producer has room: its own get it nearer to the copy, the consumer's only add room. */
  ghost predicate CopyStep(s: State, a: Action, s': State) {
    RoomForChunk(s) ==>
      if ProducerAct(a) then s'.p.pc == PCopy(s.p.pc.data, {}) || (RoomForChunk(s') && StepsToCopy(s') < StepsToCopy(s))
      else RoomForChunk(s') && StepsToCopy(s') == StepsToCopy(s)
  }

  ghost predicate ReadStep(s: State, a: Action, s': State) {
    DataForChunk(s) ==>
      if ConsumerAct(a) then
        s'.c.pc == CCopy(s.c.pc.want, s.c.pc.got, map[]) || (DataForChunk(s') && StepsToRead(s') < StepsToRead(s))
      else DataForChunk(s') && StepsToRead(s') == StepsToRead(s)
  }

  lemma NextIsCopyStep(s: State, a: Action)
    requires Inv(s) && Enabled(s, a)
    ensures CopyStep(s, a, Next(s, a))
  {
    if RoomForChunk(s) {
      if ProducerAct(a) {
        LocalStepNearsCopy(s);
      } else {
        ConsumerLeavesProducer(s, a);
      }
    }
  }

  lemma NextIsReadStep(s: State, a: Action)
    requires Inv(s) && Enabled(s, a)
    ensures ReadStep(s, a, Next(s, a))
  {
    if DataForChunk(s) {
      if ConsumerAct(a) {
        LocalStepNearsRead(s);
      } else {
        ProducerLeavesConsumer(s, a);
      }
    }
  }

  ghost predicate CopySteps(run: seq<State>, acts: seq<Action>) {
    && |run| == |acts| + 1
    && forall e: nat {:trigger acts[e]} ::
         e < |acts| ==> CopyStep(run[e], acts[e], run[e + 1]) && ReadStep(run[e], acts[e], run[e + 1])
  }

  lemma RunHasCopySteps(run: seq<State>, acts: seq<Action>)
    requires IsRun(run, acts)
    ensures CopySteps(run, acts)
  {
    forall e: nat | e < |acts|
      ensures CopyStep(run[e], acts[e], run[e + 1]) && ReadStep(run[e], acts[e], run[e + 1])
    {
      RunKeepsInv(run, acts, e);
      NextIsCopyStep(run[e], acts[e]);
      NextIsReadStep(run[e], acts[e]);
    }
  }

  /** Steps of the producer between states m and n. */
  ghost function ProducerSteps(acts: seq<Action>, m: nat, n: nat): nat
    requires m <= n <= |acts|
  {
    if m == n then 0 else ProducerSteps(acts, m, n - 1) + if ProducerAct(acts[n - 1]) then 1 else 0
  }

  ghost function ConsumerSteps(acts: seq<Action>, m: nat, n: nat): nat
    requires m <= n <= |acts|
  {
    if m == n then 0 else ConsumerSteps(acts, m, n - 1) + if ConsumerAct(acts[n - 1]) then 1 else 0
  }

  lemma {:induction false} NoCopyYet(run: seq<State>, acts: seq<Action>, m: nat, n: nat)
    requires CopySteps(run, acts) && m <= n < |run| && RoomForChunk(run[m])
    requires forall i: nat :: m <= i <= n ==> !run[i].p.pc.PCopy?
    ensures RoomForChunk(run[n]) && ProducerSteps(acts, m, n) + StepsToCopy(run[n]) <= StepsToCopy(run[m])
  {
    if m < n {
      NoCopyYet(run, acts, m, n - 1);
      assert CopyStep(run[n - 1], acts[n - 1], run[n]);
    }
  }

  lemma {:induction false} NoReadYet(run: seq<State>, acts: seq<Action>, m: nat, n: nat)
    requires CopySteps(run, acts) && m <= n < |run| && DataForChunk(run[m])
    requires forall i: nat :: m <= i <= n ==> !run[i].c.pc.CCopy?
    ensures DataForChunk(run[n]) && ConsumerSteps(acts, m, n) + StepsToRead(run[n]) <= StepsToRead(run[m])
  {
    if m < n {
      NoReadYet(run, acts, m, n - 1);
      assert ReadStep(run[n - 1], acts[n - 1], run[n]);
    }
  }

  lemma CopyAmongSteps(run: seq<State>, acts: seq<Action>, m: nat, n: nat)
    requires CopySteps(run, acts) && m <= n < |run| && RoomForChunk(run[m]) && ProducerSteps(acts, m, n) >= 4
    ensures exists i: nat :: m <= i <= n && run[i].p.pc.PCopy?
  {
    if forall i: nat :: m <= i <= n ==> !run[i].p.pc.PCopy? {
      NoCopyYet(run, acts, m, n);
    }
  }

  lemma ReadAmongSteps(run: seq<State>, acts: seq<Action>, m: nat, n: nat)
    requires CopySteps(run, acts) && m <= n < |run| && DataForChunk(run[m]) && ConsumerSteps(acts, m, n) >= 4
    ensures exists i: nat :: m <= i <= n && run[i].c.pc.CCopy?
  {
    if forall i: nat :: m <= i <= n ==> !run[i].c.pc.CCopy? {
      NoReadYet(run, acts, m, n);
    }
  }

  /**
   From any point of a push, in any run and whatever the consumer does meanwhile: once there is room
   for the pending chunk, the producer is in its copy after at most 4 steps of its own, returns of the
   wait policy included.
   */
  lemma RoomLeadsToCopy(run: seq<State>, acts: seq<Action>, m: nat, n: nat)
    requires IsRun(run, acts) && m <= n < |run| && RoomForChunk(run[m])
    requires ProducerSteps(acts, m, n) >= 4
    ensures exists i: nat :: m <= i <= n && run[i].p.pc.PCopy?
  {
    RunHasCopySteps(run, acts);
    CopyAmongSteps(run, acts, m, n);
  }

  /** The same for a pop, once enough bytes are published. */
  lemma DataLeadsToRead(run: seq<State>, acts: seq<Action>, m: nat, n: nat)
    requires IsRun(run, acts) && m <= n < |run| && DataForChunk(run[m])
    requires ConsumerSteps(acts, m, n) >= 4
    ensures exists i: nat :: m <= i <= n && run[i].c.pc.CCopy?
  {
    RunHasCopySteps(run, acts);
    ReadAmongSteps(run, acts, m, n);
  }

  // ----- apart from its waits, a side does a bounded number of steps -----

  ghost function ProducerCost(pc: Producer): int {
    match pc
    case PIdle => 0
    case PTop(_) => 7
    case PCheck(_) => 6
    case PLoad(_) => 5
    case PTest(_) => 4
    case PWait(_) => 8
    case PCopy(_, done) => 3 - 2 * |done|          // every byte copied is worth 2 steps
    case PSignal(_) => 8
    case PSizing(_) => 1
  }

  ghost function ConsumerCost(pc: Consumer): int {
    match pc
    case CIdle => 0
    case CTop(_, _) => 7
    case CCheck(_, _) => 6
    case CLoad(_, _) => 5
    case CTest(_, _) => 4
    case CWait(_, _) => 8
    case CCopy(_, _, out) => 3 - 2 * |out.Keys|
    case CSignal(_, _) => 8
    case CSizing(_) => 1
  }

  /** What a side has got done: bytes published or released, less the cost of what is under way. */
  ghost function ProducerDone(s: State): int {
    20 * |s.log.pushed| - ProducerCost(s.p.pc)
  }

  ghost function ConsumerDone(s: State): int {
    20 * |s.log.popped| - ConsumerCost(s.c.pc)
  }

  lemma {:induction false} CountBelow(S: set<nat>, n: nat)
    requires forall k :: k in S ==> k < n
    ensures |S| <= n
    ensures (forall k: nat :: k < n ==> k in S) ==> |S| == n
  {
    if n > 0 {
      CountBelow(S - {n - 1}, n - 1);
    } else {
      assert S == {};
    }
  }

  ghost predicate ProducerCall(a: Action) {
    a.PushCall? || a.FreeSpaceCall? || a.AttachProducer?
  }

  ghost predicate ConsumerCall(a: Action) {
    a.PopCall? || a.SizeCall? || a.AttachConsumer?
  }

  /** Every step of the producer gets something done, except that a call costs 8 and a wait 5. */
  ghost predicate ProducerPays(s: State, a: Action, s': State) {
    ProducerDone(s') >= ProducerDone(s)
                        + (if ProducerAct(a) then 1 else 0)
                        - (if ProducerCall(a) then 8 else 0) - (if ProducerWaits(s, a, s') then 5 else 0)
  }

  ghost predicate ConsumerPays(s: State, a: Action, s': State) {
    ConsumerDone(s') >= ConsumerDone(s)
                        + (if ConsumerAct(a) then 1 else 0)
                        - (if ConsumerCall(a) then 8 else 0) - (if ConsumerWaits(s, a, s') then 5 else 0)
  }

  lemma PublishPays(s: State)
    requires Inv(s) && Enabled(s, Publish)
    ensures ProducerPays(s, Publish, Next(s, Publish))
  {
    CountBelow(s.p.pc.done, PChunk(s.ring.cap, s.p.pc));
  }

  lemma ReleasePays(s: State)
    requires Inv(s) && Enabled(s, Release)
    ensures ConsumerPays(s, Release, Next(s, Release))
  {
    CountBelow(s.c.pc.out.Keys, CChunk(s.ring.cap, s.c.pc));
  }

  lemma ProducerBytePays(s: State, i: nat)
    requires Inv(s) && Enabled(s, ProducerByte(i))
    ensures ProducerPays(s, ProducerByte(i), Next(s, ProducerByte(i)))
  {
    assert |s.p.pc.done + {i}| == |s.p.pc.done| + 1;
  }

  lemma ConsumerBytePays(s: State, i: nat)
    requires Inv(s) && Enabled(s, ConsumerByte(i))
    ensures ConsumerPays(s, ConsumerByte(i), Next(s, ConsumerByte(i)))
  {
    var s' := Next(s, ConsumerByte(i));
    assert s'.c.pc.out.Keys == s.c.pc.out.Keys + {i};
    assert |s.c.pc.out.Keys + {i}| == |s.c.pc.out.Keys| + 1;
  }

  lemma NextProducerPays(s: State, a: Action)
    requires Inv(s) && Enabled(s, a)
    ensures ProducerPays(s, a, Next(s, a))
  {
    match a
    case Publish => PublishPays(s);
    case ProducerByte(i) => ProducerBytePays(s, i);
    case _ =>
      if !ProducerAct(a) {
        ConsumerLeavesProducer(s, a);
      }
  }

  lemma NextConsumerPays(s: State, a: Action)
    requires Inv(s) && Enabled(s, a)
    ensures ConsumerPays(s, a, Next(s, a))
  {
    match a
    case Release => ReleasePays(s);
    case ConsumerByte(i) => ConsumerBytePays(s, i);
    case _ =>
      if ProducerAct(a) {
        ProducerLeavesConsumer(s, a);
      }
  }

  ghost predicate AllPay(run: seq<State>, acts: seq<Action>) {
    && |run| == |acts| + 1
    && forall e: nat {:trigger acts[e]} ::
         e < |acts| ==> ProducerPays(run[e], acts[e], run[e + 1]) && ConsumerPays(run[e], acts[e], run[e + 1])
  }

  lemma RunPays(run: seq<State>, acts: seq<Action>)
    requires IsRun(run, acts)
    ensures AllPay(run, acts)
  {
    forall e: nat | e < |acts|
      ensures ProducerPays(run[e], acts[e], run[e + 1]) && ConsumerPays(run[e], acts[e], run[e + 1])
    {
      RunKeepsInv(run, acts, e);
      NextProducerPays(run[e], acts[e]);
      NextConsumerPays(run[e], acts[e]);
    }
  }

  /** Calls of the producer, and its steps into the wait policy, among the first n actions. */
  ghost function ProducerCalls(acts: seq<Action>, n: nat): nat
    requires n <= |acts|
  {
    if n == 0 then 0 else ProducerCalls(acts, n - 1) + if ProducerCall(acts[n - 1]) then 1 else 0
  }

  ghost function ProducerWaitCount(run: seq<State>, acts: seq<Action>, n: nat): nat
    requires n <= |acts| && n < |run|
  {
    if n == 0 then 0
    else ProducerWaitCount(run, acts, n - 1) + if ProducerWaits(run[n - 1], acts[n - 1], run[n]) then 1 else 0
  }

  ghost function ConsumerCalls(acts: seq<Action>, n: nat): nat
    requires n <= |acts|
  {
    if n == 0 then 0 else ConsumerCalls(acts, n - 1) + if ConsumerCall(acts[n - 1]) then 1 else 0
  }

  ghost function ConsumerWaitCount(run: seq<State>, acts: seq<Action>, n: nat): nat
    requires n <= |acts| && n < |run|
  {
    if n == 0 then 0
    else ConsumerWaitCount(run, acts, n - 1) + if ConsumerWaits(run[n - 1], acts[n - 1], run[n]) then 1 else 0
  }

  lemma {:induction false} ProducerStepsAddUp(run: seq<State>, acts: seq<Action>, n: nat)
    requires AllPay(run, acts) && n < |run|
    ensures ProducerSteps(acts, 0, n) <=
            ProducerDone(run[n]) - ProducerDone(run[0])
            + 8 * ProducerCalls(acts, n) + 5 * ProducerWaitCount(run, acts, n)
  {
    if n > 0 {
      ProducerStepsAddUp(run, acts, n - 1);
      assert ProducerPays(run[n - 1], acts[n - 1], run[n]);
    }
  }

  lemma {:induction false} ConsumerStepsAddUp(run: seq<State>, acts: seq<Action>, n: nat)
    requires AllPay(run, acts) && n < |run|
    ensures ConsumerSteps(acts, 0, n) <=
            ConsumerDone(run[n]) - ConsumerDone(run[0])
            + 8 * ConsumerCalls(acts, n) + 5 * ConsumerWaitCount(run, acts, n)
  {
    if n > 0 {
      ConsumerStepsAddUp(run, acts, n - 1);
      assert ConsumerPays(run[n - 1], acts[n - 1], run[n]);
    }
  }

  lemma ProducerDoneBound(s: State)
    requires Inv(s)
    ensures ProducerDone(s) <= 20 * |s.log.given|
  {
    if s.p.pc.PCopy? {
      CountBelow(s.p.pc.done, PChunk(s.ring.cap, s.p.pc));
    }
  }

  lemma ConsumerDoneBound(s: State)
    requires Inv(s)
    ensures ConsumerDone(s) <= 20 * |s.log.pushed|
  {
    if s.c.pc.CCopy? {
      CountBelow(s.c.pc.out.Keys, CChunk(s.ring.cap, s.c.pc));
    }
  }

  /**
   In any run, under any wait policy, the producer takes at most 20 steps per byte given to push, 8
   per call and 5 per step into the wait policy, and the consumer likewise per byte published.
   */
  lemma StepsAreBounded(run: seq<State>, acts: seq<Action>, n: nat)
    requires IsRun(run, acts) && n < |run|
    ensures ProducerSteps(acts, 0, n) <=
            20 * |run[n].log.given| + 8 * ProducerCalls(acts, n) + 5 * ProducerWaitCount(run, acts, n)
    ensures ConsumerSteps(acts, 0, n) <=
            20 * |run[n].log.pushed| + 8 * ConsumerCalls(acts, n) + 5 * ConsumerWaitCount(run, acts, n)
  {
    RunPays(run, acts);
    ProducerStepsAddUp(run, acts, n);
    ConsumerStepsAddUp(run, acts, n);
    RunKeepsInv(run, acts, n);
    ProducerDoneBound(run[n]);
    ConsumerDoneBound(run[n]);
  }

  // ----- size() and freeSpace() are exact at the moment of their loads -----

  /** At the end of size() its answer is what was published at the load of head, less what is released. */
  lemma SizeIsExact(s: State)
    requires Inv(s) && s.c.pc.CSizing? && Enabled(s, ConsumerLocal)
    ensures Next(s, ConsumerLocal).c.sizeSeen == s.c.sizing - |s.log.popped|
  {
    SizeAtPositions(s.ring.cap, s.c.sizing, |s.log.popped|);
  }

  /** And freeSpace() answers the room at the moment it loads tail. */
  lemma FreeSpaceIsExact(s: State)
    requires Inv(s) && s.p.pc.PSizing? && Enabled(s, ProducerLocal)
    ensures Next(s, ProducerLocal).p.freeSeen == Room(s)
  {
    SnapshotSizes(s);
  }

  /** Between the call and the next step of its own, the consumer is in size(), and the producer in freeSpace(). */
  ghost predicate SizingStep(s: State, a: Action, s': State) {
    && (a.SizeCall? ==> s'.c.pc.CSizing? && s'.c.sizing == |s.log.pushed| && s'.log.popped == s.log.popped)
    && (ProducerAct(a) ==> s'.c == s.c && s'.log.popped == s.log.popped)
    && (a.FreeSpaceCall? ==> s'.p.pc.PSizing?)
    && (ConsumerAct(a) ==> s'.p == s.p)
  }

  lemma NextIsSizingStep(s: State, a: Action)
    requires Inv(s) && Enabled(s, a)
    ensures SizingStep(s, a, Next(s, a))
  {
    if ProducerAct(a) {
      ProducerLeavesConsumer(s, a);
    } else {
      ConsumerLeavesProducer(s, a);
    }
  }

  ghost predicate SizingSteps(run: seq<State>, acts: seq<Action>) {
    && |run| == |acts| + 1
    && forall e: nat {:trigger acts[e]} :: e < |acts| ==> SizingStep(run[e], acts[e], run[e + 1])
  }

  lemma RunHasSizingSteps(run: seq<State>, acts: seq<Action>)
    requires IsRun(run, acts)
    ensures SizingSteps(run, acts)
  {
    forall e: nat | e < |acts|
      ensures SizingStep(run[e], acts[e], run[e + 1])
    {
      RunKeepsInv(run, acts, e);
      NextIsSizingStep(run[e], acts[e]);
    }
  }

  lemma {:induction false} StillSizing(run: seq<State>, acts: seq<Action>, m: nat, n: nat)
    requires SizingSteps(run, acts) && m < n < |run| && acts[m].SizeCall?
    requires forall i: nat :: m < i < n ==> ProducerAct(acts[i])
    ensures run[n].c.pc.CSizing? && run[n].c.sizing == |run[m].log.pushed| && run[n].log.popped == run[m].log.popped
  {
    assert SizingStep(run[n - 1], acts[n - 1], run[n]);
    if m + 1 < n {
      StillSizing(run, acts, m, n - 1);
    }
  }

  lemma {:induction false} StillSizingFree(run: seq<State>, acts: seq<Action>, m: nat, n: nat)
    requires SizingSteps(run, acts) && m < n < |run| && acts[m].FreeSpaceCall?
    requires forall i: nat :: m < i < n ==> ConsumerAct(acts[i])
    ensures run[n].p.pc.PSizing?
  {
    assert SizingStep(run[n - 1], acts[n - 1], run[n]);
    if m + 1 < n {
      StillSizingFree(run, acts, m, n - 1);
    }
  }

  /** size() called at m and ended by the consumer's next step n tells exactly what was available at m. */
  lemma SizeTellsWhatWasThere(run: seq<State>, acts: seq<Action>, m: nat, n: nat)
    requires IsRun(run, acts) && m < n < |acts| && acts[m].SizeCall? && ConsumerAct(acts[n])
    requires forall i: nat :: m < i < n ==> ProducerAct(acts[i])
    ensures run[n + 1].c.sizeSeen == Data(run[m]) && run[n + 1].c.pc.CIdle?
  {
    RunHasSizingSteps(run, acts);
    StillSizing(run, acts, m, n);
    SizeEnds(run, acts, n);
  }

  lemma SizeEnds(run: seq<State>, acts: seq<Action>, n: nat)
    requires IsRun(run, acts) && n < |acts| && run[n].c.pc.CSizing? && ConsumerAct(acts[n])
    ensures run[n + 1].c.sizeSeen == run[n].c.sizing - |run[n].log.popped| && run[n + 1].c.pc.CIdle?
  {
    RunKeepsInv(run, acts, n);
    SizeIsExact(run[n]);
  }

  lemma FreeSpaceEnds(run: seq<State>, acts: seq<Action>, n: nat)
    requires IsRun(run, acts) && n < |acts| && run[n].p.pc.PSizing? && ProducerAct(acts[n])
    ensures run[n + 1].p.freeSeen == Room(run[n]) && run[n + 1].p.pc.PIdle?
  {
    RunKeepsInv(run, acts, n);
    FreeSpaceIsExact(run[n]);
  }

  /** freeSpace() called at m and ended by the producer's next step n tells exactly the room there is at n. */
  lemma FreeSpaceTellsWhatIsThere(run: seq<State>, acts: seq<Action>, m: nat, n: nat)
    requires IsRun(run, acts) && m < n < |acts| && acts[m].FreeSpaceCall? && ProducerAct(acts[n])
    requires forall i: nat :: m < i < n ==> ConsumerAct(acts[i])
    ensures run[n + 1].p.freeSeen == Room(run[n]) && run[n + 1].p.pc.PIdle?
  {
    RunHasSizingSteps(run, acts);
    StillSizingFree(run, acts, m, n);
    FreeSpaceEnds(run, acts, n);
  }

  // ----- the streams are those of the calls -----

  /** The bytes that the calls of push among the first n actions were given. */
  ghost function Given(acts: seq<Action>, n: nat): seq<byte>
    requires n <= |acts|
  {
    if n == 0 then [] else Given(acts, n - 1) + if acts[n - 1].PushCall? then acts[n - 1].data else []
  }

  /** The number of bytes that the calls of pop among them asked for. */
  ghost function Asked(acts: seq<Action>, n: nat): nat
    requires n <= |acts|
  {
    if n == 0 then 0 else Asked(acts, n - 1) + if acts[n - 1].PopCall? then acts[n - 1].n else 0
  }

  /** What a running pop has got, and still wants. */
  ghost function InPop(pc: Consumer): nat {
    if pc.CIdle? || pc.CSizing? then 0 else |pc.got| + pc.want
  }

  lemma CallsEnterTheLog(s: State, a: Action)
    requires Inv(s) && Enabled(s, a)
    ensures Next(s, a).log.given == s.log.given + if a.PushCall? then a.data else []
    ensures |Next(s, a).log.returned| + InPop(Next(s, a).c.pc) ==
            |s.log.returned| + InPop(s.c.pc) + if a.PopCall? then a.n else 0
  {
    assert s.log.given + [] == s.log.given;
    if ProducerAct(a) {
      ProducerLeavesConsumer(s, a);
    }
  }

  /**
   In any run the bytes given to the ring are exactly those of the calls of push, in order, and the
   finished calls of pop have handed back exactly as many bytes as they asked for.
   */
  lemma {:induction false} StreamsAreTheCalls(run: seq<State>, acts: seq<Action>, n: nat)
    requires IsRun(run, acts) && n < |run|
    ensures run[n].log.given == Given(acts, n)
    ensures |run[n].log.returned| + InPop(run[n].c.pc) == Asked(acts, n)
  {
    if n > 0 {
      StreamsAreTheCalls(run, acts, n - 1);
      RunKeepsInv(run, acts, n - 1);
      CallsEnterTheLog(run[n - 1], acts[n - 1]);
    }
  }

  /** A side that attaches to the ring starts with an exact snapshot of the other's index. */
  lemma AttachingIsExact(s: State)
    requires Inv(s)
    ensures s.p.pc.PIdle? ==>
              Enabled(s, AttachProducer) && Next(s, AttachProducer).p.snapshot == |s.log.popped|
              && Next(s, AttachProducer).p.cachedTail == s.ring.tail
    ensures s.c.pc.CIdle? ==>
              Enabled(s, AttachConsumer) && Next(s, AttachConsumer).c.snapshot == |s.log.pushed|
              && Next(s, AttachConsumer).c.cachedHead == s.ring.head
  {
  }
}
