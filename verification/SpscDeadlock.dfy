/**
 Exactly when the queue deadlocks: for given lists of pushes and of blocking pops, whether a
 schedule can block both sides for good depends only on where the chunks end, and then every
 schedule that goes on to its end does.
 */
module SpscDeadlock {
  import opened Bytes
  import opened CircularBuffer
  import opened RingMemory
  import Signal
  import opened SpscQueue
  import opened SpscWork

  // ----- chunk ends -----

  /** The chunks one request of n bytes is cut into. */
  function ChunksOf(cap: nat, n: nat): (chunks: seq<nat>)
    requires cap >= 2
    ensures n > 0 ==> chunks != [] && chunks[0] == Chunk(cap, n)
    decreases n
  {
    if n == 0 then [] else [Chunk(cap, n)] + ChunksOf(cap, n - Chunk(cap, n))
  }

  /** The chunks of a list of requests. */
  function AllChunks(cap: nat, sizes: seq<nat>): seq<nat>
    requires cap >= 2
  {
    if sizes == [] then [] else ChunksOf(cap, sizes[0]) + AllChunks(cap, sizes[1..])
  }

  /** The stream position at which the first i chunks end. */
  function End(chunks: seq<nat>, i: nat): nat
    requires i <= |chunks|
  {
    if i == 0 then 0 else End(chunks, i - 1) + chunks[i - 1]
  }

  lemma {:induction false} EndsGrow(chunks: seq<nat>, i: nat, j: nat)
    requires i <= j <= |chunks|
    ensures End(chunks, i) <= End(chunks, j)
  {
    if i < j {
      EndsGrow(chunks, i, j - 1);
    }
  }

  /** With i push chunks and j pop chunks done, the next push chunk has no room and the next pop chunk no data. */
  predicate BlockedAt(cap: nat, a: seq<nat>, b: seq<nat>, i: nat, j: nat) {
    && i < |a| && j < |b|
    && End(a, i + 1) > End(b, j) + cap - 1
    && End(b, j + 1) > End(a, i)
  }

  ghost predicate Blocks(cap: nat, a: seq<nat>, b: seq<nat>) {
    exists i, j :: BlockedAt(cap, a, b, i, j)
  }

  /** Only two chunks that together exceed the capacity can block each other. */
  lemma BlockedChunksExceed(cap: nat, a: seq<nat>, b: seq<nat>, i: nat, j: nat)
    requires BlockedAt(cap, a, b, i, j)
    ensures a[i] + b[j] > cap
  {
  }

  lemma {:induction false} ChunksBelow(cap: nat, n: nat, k: nat)
    requires cap >= 2 && k < |ChunksOf(cap, n)|
    ensures ChunksOf(cap, n)[k] < cap
    decreases n
  {
    if k > 0 {
      ChunksBelow(cap, n - Chunk(cap, n), k - 1);
    }
  }

  lemma {:induction false} AllChunksBelow(cap: nat, sizes: seq<nat>, k: nat)
    requires cap >= 2 && k < |AllChunks(cap, sizes)|
    ensures AllChunks(cap, sizes)[k] < cap
  {
    var first := ChunksOf(cap, sizes[0]);
    if k < |first| {
      ChunksBelow(cap, sizes[0], k);
    } else {
      AllChunksBelow(cap, sizes[1..], k - |first|);
    }
  }

  /** Pops of the sizes of the pushes never block. */
  lemma EqualRequestsNeverBlock(cap: nat, sizes: seq<nat>)
    requires cap >= 2
    ensures !Blocks(cap, AllChunks(cap, sizes), AllChunks(cap, sizes))
  {
    var a := AllChunks(cap, sizes);
    if i: nat, j: nat :| BlockedAt(cap, a, a, i, j) {
      AllChunksBelow(cap, sizes, i);
      EndsGrow(a, if i < j then i + 1 else 0, j);
      EndsGrow(a, if j < i then j + 1 else 0, i);
      assert false;
    }
  }

  /** Nobody gets past a block: with at most i and j chunks done, chunk i has no room and chunk j no data. */
  lemma BlockHolds(cap: nat, a: seq<nat>, b: seq<nat>, i: nat, j: nat, i': nat, j': nat)
    requires BlockedAt(cap, a, b, i, j) && i' <= i && j' <= j
    ensures End(a, i' + 1) <= End(b, j') + cap - 1 ==> i' < i
    ensures End(b, j' + 1) <= End(a, i') ==> j' < j
  {
    EndsGrow(b, j', j);
    EndsGrow(a, i', i);
  }

  // ----- where a run is among the chunks -----

  function SizesOf(pushes: seq<seq<byte>>): (sizes: seq<nat>)
    ensures |sizes| == |pushes| && forall k: nat :: k < |pushes| ==> sizes[k] == |pushes[k]|
  {
    seq(|pushes|, k => if 0 <= k < |pushes| then |pushes[k]| else 0)
  }

  /** A consumer that makes blocking pops of these sizes, then stops. */
  function ListPolicy(pops: seq<nat>): seq<Reply> -> Option<Request> {
    (replies: seq<Reply>) => if |replies| < |pops| then Some(Pop(pops[|replies|])) else None
  }

  function ListEnv(cap: nat, pushes: seq<seq<byte>>, pops: seq<nat>): Env {
    Env(cap, pushes, ListPolicy(pops))
  }

  /** At position pos, with the chunks of `rest` left out of `total`. */
  predicate OnTrack(total: seq<nat>, pos: nat, rest: seq<nat>) {
    |rest| <= |total| && rest == total[|total| - |rest|..] && pos == End(total, |total| - |rest|)
  }

  /** The next chunk, and where it ends. */
  lemma NextChunk(total: seq<nat>, pos: nat, rest: seq<nat>)
    requires OnTrack(total, pos, rest) && rest != []
    ensures var i := |total| - |rest|;
            0 <= i < |total| && total[i] == rest[0] && End(total, i) == pos && End(total, i + 1) == pos + rest[0]
  {
  }

  lemma OneChunkOn(total: seq<nat>, pos: nat, rest: seq<nat>)
    requires OnTrack(total, pos, rest) && rest != []
    ensures OnTrack(total, pos + rest[0], rest[1..])
  {
    NextChunk(total, pos, rest);
    assert total[|total| - |rest|..][1..] == total[|total| - |rest| + 1..];
  }

  /** One chunk of a request of n bytes, in front of later chunks. */
  lemma FirstChunk(cap: nat, n: nat, later: seq<nat>)
    requires cap >= 2 && n > 0
    ensures var rest := ChunksOf(cap, n) + later;
            && rest != [] && rest[0] == Chunk(cap, n)
            && rest[1..] == ChunksOf(cap, n - Chunk(cap, n)) + later
  {
    var c := Chunk(cap, n);
    assert ChunksOf(cap, n) == [c] + ChunksOf(cap, n - c);
    assert ([c] + ChunksOf(cap, n - c) + later)[1..] == ChunksOf(cap, n - c) + later;
  }

  ghost function PushRest(env: Env, p: Producer): seq<nat>
    requires env.cap >= 2 && p.taken <= |env.pushes|
  {
    ChunksOf(env.cap, |BytesLeft(p.pc)|) + AllChunks(env.cap, SizesOf(env.pushes)[p.taken..])
  }

  ghost function Wanted(c: ConsumerPc): nat {
    if c.CNext? || c.job.Timed? then 0 else c.job.want
  }

  ghost function PopRest(cap: nat, pops: seq<nat>, c: Consumer): seq<nat>
    requires cap >= 2 && |c.asked| <= |pops|
  {
    ChunksOf(cap, Wanted(c.pc)) + AllChunks(cap, pops[|c.asked|..])
  }

  /** Both sides are on track of their lists. */
  ghost predicate Tracks(env: Env, pops: seq<nat>, s: State) {
    && env.cap >= 2 && s.p.taken <= |env.pushes| && |s.c.asked| <= |pops|
    && OnTrack(AllChunks(env.cap, SizesOf(env.pushes)), |s.log.pushed|, PushRest(env, s.p))
    && OnTrack(AllChunks(env.cap, pops), |s.log.popped|, PopRest(env.cap, pops, s.c))
  }

  ghost predicate TrackInv(env: Env, pops: seq<nat>, s: State) {
    Inv(env, s) && BlockingInv(s) && env.policy == ListPolicy(pops) && Tracks(env, pops, s)
  }

  lemma StartRequest(cap: nat, sizes: seq<nat>, k: nat)
    requires cap >= 2 && k < |sizes|
    ensures ChunksOf(cap, 0) + AllChunks(cap, sizes[k..]) == ChunksOf(cap, sizes[k]) + AllChunks(cap, sizes[k + 1..])
  {
    assert sizes[k..][1..] == sizes[k + 1..];
  }

  lemma ProducerKeepsBytes(env: Env, s: State, a: Action)
    requires InRange(s) && Enabled(env, s, a) && !a.ProdPublish? && !(a.ProdMove? && s.p.pc.PNext?)
    ensures BytesLeft(Next(env, s, a).p.pc) == BytesLeft(s.p.pc) && Next(env, s, a).p.taken == s.p.taken
    ensures Next(env, s, a).log.pushed == s.log.pushed
  {
  }

  lemma ConsumerKeepsWanted(env: Env, s: State, a: Action)
    requires InRange(s) && BlockingInv(s) && Enabled(env, s, a) && !a.ConsRelease? && !(a.ConsMove? && s.c.pc.CNext?)
    ensures Wanted(Next(env, s, a).c.pc) == Wanted(s.c.pc) && Next(env, s, a).c.asked == s.c.asked
    ensures Next(env, s, a).log.popped == s.log.popped
  {
  }

  lemma ProducerKeepsRest(env: Env, pops: seq<nat>, s: State, a: Action)
    requires TrackInv(env, pops, s) && Enabled(env, s, a) && !a.ProdPublish?
    ensures Next(env, s, a).p.taken <= |env.pushes| && PushRest(env, Next(env, s, a).p) == PushRest(env, s.p)
    ensures Next(env, s, a).log.pushed == s.log.pushed
  {
    if a.ProdMove? && s.p.pc.PNext? {
      StartRequest(env.cap, SizesOf(env.pushes), s.p.taken);
    } else {
      ProducerKeepsBytes(env, s, a);
    }
  }

  lemma PublishEffect(env: Env, s: State)
    requires InRange(s) && Enabled(env, s, ProdPublish)
    ensures var s', n := Next(env, s, ProdPublish), Chunk(s.ring.cap, |s.p.pc.data|);
            && s'.p.taken == s.p.taken && |s'.log.pushed| == |s.log.pushed| + n
            && |BytesLeft(s'.p.pc)| == |s.p.pc.data| - n
  {
  }

  lemma ReleaseEffect(env: Env, s: State)
    requires InRange(s) && Enabled(env, s, ConsRelease) && s.c.pc.job.Blocking?
    ensures var s', n := Next(env, s, ConsRelease), Chunk(s.ring.cap, s.c.pc.job.want);
            && s'.c.asked == s.c.asked && |s'.log.popped| == |s.log.popped| + n
            && Wanted(s'.c.pc) == s.c.pc.job.want - n
  {
  }

  lemma PublishStaysOnTrack(env: Env, pops: seq<nat>, s: State)
    requires Tracks(env, pops, s) && InRange(s) && s.ring.cap == env.cap
    requires Enabled(env, s, ProdPublish) && s.p.pc.data != []
    ensures var s' := Next(env, s, ProdPublish);
            && s'.p.taken == s.p.taken
            && PushRest(env, s.p) != [] && PushRest(env, s'.p) == PushRest(env, s.p)[1..]
            && |s'.log.pushed| == |s.log.pushed| + PushRest(env, s.p)[0]
  {
    PublishEffect(env, s);
    FirstChunk(env.cap, |s.p.pc.data|, AllChunks(env.cap, SizesOf(env.pushes)[s.p.taken..]));
  }

  lemma ConsumerKeepsRest(env: Env, pops: seq<nat>, s: State, a: Action)
    requires TrackInv(env, pops, s) && Enabled(env, s, a) && !a.ConsRelease?
    ensures |Next(env, s, a).c.asked| <= |pops|
    ensures PopRest(env.cap, pops, Next(env, s, a).c) == PopRest(env.cap, pops, s.c)
    ensures Next(env, s, a).log.popped == s.log.popped
  {
    if a.ConsMove? && s.c.pc.CNext? {
      StartRequest(env.cap, pops, |s.c.asked|);
    } else {
      ConsumerKeepsWanted(env, s, a);
    }
  }

  lemma ReleaseStaysOnTrack(env: Env, pops: seq<nat>, s: State)
    requires Tracks(env, pops, s) && InRange(s) && s.ring.cap == env.cap
    requires Enabled(env, s, ConsRelease) && s.c.pc.job.Blocking? && s.c.pc.job.want > 0
    ensures var s' := Next(env, s, ConsRelease);
            && s'.c.asked == s.c.asked
            && PopRest(env.cap, pops, s.c) != [] && PopRest(env.cap, pops, s'.c) == PopRest(env.cap, pops, s.c)[1..]
            && |s'.log.popped| == |s.log.popped| + PopRest(env.cap, pops, s.c)[0]
  {
    ReleaseEffect(env, s);
    FirstChunk(env.cap, s.c.pc.job.want, AllChunks(env.cap, pops[|s.c.asked|..]));
  }

  lemma NextStaysOnTrack(env: Env, pops: seq<nat>, s: State, a: Action)
    requires TrackInv(env, pops, s) && Enabled(env, s, a)
    ensures TrackInv(env, pops, Next(env, s, a))
  {
    NextKeepsInv(env, s, a);
    NextKeepsBlocking(env, s, a);
    if a.ProdPublish? {
      PublishStaysOnTrack(env, pops, s);
      OneChunkOn(AllChunks(env.cap, SizesOf(env.pushes)), |s.log.pushed|, PushRest(env, s.p));
    } else {
      ProducerKeepsRest(env, pops, s, a);
    }
    if a.ConsRelease? {
      ReleaseStaysOnTrack(env, pops, s);
      OneChunkOn(AllChunks(env.cap, pops), |s.log.popped|, PopRest(env.cap, pops, s.c));
    } else {
      ConsumerKeepsRest(env, pops, s, a);
    }
  }

  lemma InitOnTrack(env: Env, pops: seq<nat>, s: State)
    requires Init(env, s) && env.policy == ListPolicy(pops)
    ensures TrackInv(env, pops, s)
  {
    assert SizesOf(env.pushes)[0..] == SizesOf(env.pushes) && pops[0..] == pops;
  }

  lemma {:induction false} RunStaysOnTrack(env: Env, pops: seq<nat>, run: seq<State>, acts: seq<Action>, n: nat)
    requires IsRun(env, run, acts) && env.policy == ListPolicy(pops) && n < |run|
    ensures TrackInv(env, pops, run[n])
  {
    if n == 0 {
      RunKeepsInv(env, run, acts, 0);
      InitOnTrack(env, pops, run[0]);
    } else {
      RunStaysOnTrack(env, pops, run, acts, n - 1);
      NextStaysOnTrack(env, pops, run[n - 1], acts[n - 1]);
    }
  }

  // ----- no run gets past a block -----

  /** How many chunks each side has done. */
  ghost function ChunksPushed(env: Env, s: State): int
    requires env.cap >= 2 && s.p.taken <= |env.pushes|
  {
    |AllChunks(env.cap, SizesOf(env.pushes))| - |PushRest(env, s.p)|
  }

  ghost function ChunksPopped(env: Env, pops: seq<nat>, s: State): int
    requires env.cap >= 2 && |s.c.asked| <= |pops|
  {
    |AllChunks(env.cap, pops)| - |PopRest(env.cap, pops, s.c)|
  }

  lemma PositionsAreEnds(env: Env, pops: seq<nat>, s: State)
    requires Tracks(env, pops, s)
    ensures var a, b := AllChunks(env.cap, SizesOf(env.pushes)), AllChunks(env.cap, pops);
            && 0 <= ChunksPushed(env, s) <= |a| && End(a, ChunksPushed(env, s)) == |s.log.pushed|
            && 0 <= ChunksPopped(env, pops, s) <= |b| && End(b, ChunksPopped(env, pops, s)) == |s.log.popped|
  {
  }

  /** A side in the middle of a request stands before the request's next chunk. */
  lemma BeforeChunk(cap: nat, n: nat, later: seq<nat>, total: seq<nat>, pos: nat)
    requires cap >= 2 && n > 0 && OnTrack(total, pos, ChunksOf(cap, n) + later)
    ensures var i := |total| - |ChunksOf(cap, n) + later|;
            && 0 <= i < |total| && total[i] == Chunk(cap, n)
            && End(total, i) == pos && End(total, i + 1) == pos + total[i]
  {
    FirstChunk(cap, n, later);
    NextChunk(total, pos, ChunksOf(cap, n) + later);
  }

  lemma ProducerBefore(env: Env, pops: seq<nat>, s: State)
    requires Tracks(env, pops, s) && (s.p.pc.PWait? || s.p.pc.PCopy?) && s.p.pc.data != []
    ensures var a, i := AllChunks(env.cap, SizesOf(env.pushes)), ChunksPushed(env, s);
            && 0 <= i < |a| && a[i] == Chunk(env.cap, |s.p.pc.data|)
            && End(a, i) == |s.log.pushed| && End(a, i + 1) == |s.log.pushed| + a[i]
  {
    BeforeChunk(env.cap, |s.p.pc.data|, AllChunks(env.cap, SizesOf(env.pushes)[s.p.taken..]),
                AllChunks(env.cap, SizesOf(env.pushes)), |s.log.pushed|);
  }

  lemma ConsumerBefore(env: Env, pops: seq<nat>, s: State)
    requires Tracks(env, pops, s) && (s.c.pc.CWait? || s.c.pc.CCopy?)
    requires s.c.pc.job.Blocking? && s.c.pc.job.want > 0
    ensures var b, j := AllChunks(env.cap, pops), ChunksPopped(env, pops, s);
            && 0 <= j < |b| && b[j] == Need(env.cap, s.c.pc.job)
            && End(b, j) == |s.log.popped| && End(b, j + 1) == |s.log.popped| + b[j]
  {
    BeforeChunk(env.cap, s.c.pc.job.want, AllChunks(env.cap, pops[|s.c.asked|..]),
                AllChunks(env.cap, pops), |s.log.popped|);
  }

  /** Neither side has done more than i and j chunks. */
  ghost predicate NotPast(env: Env, pops: seq<nat>, s: State, i: nat, j: nat) {
    Tracks(env, pops, s) && ChunksPushed(env, s) <= i && ChunksPopped(env, pops, s) <= j
  }

  /** A producer that copies has room for its chunk, so its chunk is not the blocked one. */
  lemma PublishNotPast(env: Env, pops: seq<nat>, s: State, i: nat, j: nat)
    requires NotPast(env, pops, s, i, j) && s.p.pc.PCopy? && s.p.pc.data != []
    requires |s.log.pushed| + Chunk(env.cap, |s.p.pc.data|) <= |s.log.popped| + env.cap - 1
    requires BlockedAt(env.cap, AllChunks(env.cap, SizesOf(env.pushes)), AllChunks(env.cap, pops), i, j)
    ensures ChunksPushed(env, s) < i
  {
    var a, b := AllChunks(env.cap, SizesOf(env.pushes)), AllChunks(env.cap, pops);
    PositionsAreEnds(env, pops, s);
    ProducerBefore(env, pops, s);
    BlockHolds(env.cap, a, b, i, j, ChunksPushed(env, s), ChunksPopped(env, pops, s));
  }

  /** A consumer that copies has all bytes of its chunk, so its chunk is not the blocked one. */
  lemma ReleaseNotPast(env: Env, pops: seq<nat>, s: State, i: nat, j: nat)
    requires NotPast(env, pops, s, i, j) && s.c.pc.CCopy? && s.c.pc.job.Blocking? && s.c.pc.job.want > 0
    requires |s.log.popped| + Need(env.cap, s.c.pc.job) <= |s.log.pushed|
    requires BlockedAt(env.cap, AllChunks(env.cap, SizesOf(env.pushes)), AllChunks(env.cap, pops), i, j)
    ensures ChunksPopped(env, pops, s) < j
  {
    var a, b := AllChunks(env.cap, SizesOf(env.pushes)), AllChunks(env.cap, pops);
    PositionsAreEnds(env, pops, s);
    ConsumerBefore(env, pops, s);
    BlockHolds(env.cap, a, b, i, j, ChunksPushed(env, s), ChunksPopped(env, pops, s));
  }

  lemma NextNotPast(env: Env, pops: seq<nat>, s: State, a: Action, i: nat, j: nat)
    requires TrackInv(env, pops, s) && NotPast(env, pops, s, i, j) && Enabled(env, s, a)
    requires BlockedAt(env.cap, AllChunks(env.cap, SizesOf(env.pushes)), AllChunks(env.cap, pops), i, j)
    ensures NotPast(env, pops, Next(env, s, a), i, j)
  {
    NextStaysOnTrack(env, pops, s, a);
    if a.ProdPublish? {
      PublishNotPast(env, pops, s, i, j);
      PublishStaysOnTrack(env, pops, s);
    } else {
      ProducerKeepsRest(env, pops, s, a);
    }
    if a.ConsRelease? {
      ReleaseNotPast(env, pops, s, i, j);
      ReleaseStaysOnTrack(env, pops, s);
    } else {
      ConsumerKeepsRest(env, pops, s, a);
    }
  }

  lemma {:induction false} RunNotPast(
      env: Env, pops: seq<nat>, run: seq<State>, acts: seq<Action>, n: nat, i: nat, j: nat)
    requires IsRun(env, run, acts) && env.policy == ListPolicy(pops) && n < |run| && env.cap >= 2
    requires BlockedAt(env.cap, AllChunks(env.cap, SizesOf(env.pushes)), AllChunks(env.cap, pops), i, j)
    ensures TrackInv(env, pops, run[n]) && NotPast(env, pops, run[n], i, j)
  {
    RunStaysOnTrack(env, pops, run, acts, n);
    if n == 0 {
      assert SizesOf(env.pushes)[0..] == SizesOf(env.pushes) && pops[0..] == pops;
    } else {
      RunNotPast(env, pops, run, acts, n - 1, i, j);
      NextNotPast(env, pops, run[n - 1], acts[n - 1], i, j);
    }
  }

  // ----- deadlock -----

  /** Both sides asleep, short of room and of data, with no work step left. */
  ghost predicate Deadlocked(env: Env, s: State) {
    InRange(s) && Stuck(env, s) && ProducerStarved(s) && ConsumerStarved(s)
  }

  /** The run has come to an end: nothing but spurious wakeups is left. */
  ghost predicate Ended(env: Env, run: seq<State>, acts: seq<Action>) {
    IsRun(env, run, acts) && InRange(run[|acts|]) && Stuck(env, run[|acts|])
  }

  /** Both sides starved: the chunks they are at block each other. */
  lemma DeadlockIsABlock(env: Env, pops: seq<nat>, s: State)
    requires TrackInv(env, pops, s) && ProducerStarved(s) && ConsumerStarved(s)
    ensures var a, b := AllChunks(env.cap, SizesOf(env.pushes)), AllChunks(env.cap, pops);
            var i, j := ChunksPushed(env, s), ChunksPopped(env, pops, s);
            && i >= 0 && j >= 0 && BlockedAt(env.cap, a, b, i, j)
            && Chunk(env.cap, |s.p.pc.data|) == a[i] && Need(env.cap, s.c.pc.job) == b[j]
  {
    ProducerBefore(env, pops, s);
    ConsumerBefore(env, pops, s);
  }

  lemma FinishedProducerHasNoRest(env: Env, s: State)
    requires env.cap >= 2 && ProducerDone(env, s) && s.p.taken <= |env.pushes|
    ensures PushRest(env, s.p) == []
  {
  }

  lemma FinishedConsumerHasNoRest(env: Env, pops: seq<nat>, s: State)
    requires Tracks(env, pops, s) && |s.c.asked| == |s.c.replies| && env.policy == ListPolicy(pops)
    requires ConsumerDone(env, s)
    ensures PopRest(env.cap, pops, s.c) == []
  {
  }

  /** Where the chunks block, every run that has come to its end is deadlocked. */
  lemma EveryEndIsADeadlock(env: Env, pops: seq<nat>, run: seq<State>, acts: seq<Action>, i: nat, j: nat)
    requires Ended(env, run, acts) && env.policy == ListPolicy(pops) && env.cap >= 2
    requires BlockedAt(env.cap, AllChunks(env.cap, SizesOf(env.pushes)), AllChunks(env.cap, pops), i, j)
    ensures Deadlocked(env, run[|acts|])
  {
    var s := run[|acts|];
    RunNotPast(env, pops, run, acts, |acts|, i, j);
    StuckSides(env, s);
    if ProducerDone(env, s) {
      FinishedProducerHasNoRest(env, s);
    }
    if ConsumerDone(env, s) {
      FinishedConsumerHasNoRest(env, pops, s);
    }
  }

  // ----- every run can be brought to its end -----

  lemma RunGoesOn(env: Env, run: seq<State>, acts: seq<Action>, a: Action)
    requires IsRun(env, run, acts) && InRange(run[|acts|]) && Enabled(env, run[|acts|], a)
    ensures IsRun(env, run + [Next(env, run[|acts|], a)], acts + [a])
  {
  }

  ghost function WorkLeft(env: Env, pops: seq<nat>, s: State): int {
    200 * |Concat(env.pushes)| + 20 * |env.pushes| + 20 * |pops| - Spent(s)
  }

  lemma {:induction false} RunToItsEnd(env: Env, pops: seq<nat>, run: seq<State>, acts: seq<Action>)
      returns (run': seq<State>, acts': seq<Action>)
    requires IsRun(env, run, acts) && env.policy == ListPolicy(pops)
    ensures Ended(env, run', acts') && run <= run' && acts <= acts'
    decreases WorkLeft(env, pops, run[|acts|])
  {
    var s := run[|acts|];
    RunStaysOnTrack(env, pops, run, acts, |acts|);
    BlockingKeepsPace(s);
    SpentBound(env, s);
    run', acts' := run, acts;
    if !Stuck(env, s) {
      var a :| IsWork(a) && Enabled(env, s, a);
      WorkIsSpent(env, s, a);
      RunGoesOn(env, run, acts, a);
      run', acts' := RunToItsEnd(env, pops, run + [Next(env, s, a)], acts + [a]);
    }
  }

  lemma SomeRun(env: Env) returns (run: seq<State>, acts: seq<Action>)
    requires 2 <= env.cap && 2 * env.cap <= WORD
    ensures IsRun(env, run, acts)
  {
    var quiet := Signal.Shared(false, None);
    run := [State(Ring(env.cap, seq(env.cap, _ => 0), 0, 0), quiet, quiet,
                  Producer(PNext, 0), Consumer(CNext, [], []), Log([], []))];
    acts := [];
  }

  ghost predicate CanDeadlock(env: Env) {
    exists run, acts :: IsRun(env, run, acts) && Deadlocked(env, run[|acts|])
  }

  /**
   For given lists of pushes and blocking pops, some schedule deadlocks if and only if there are
   chunks i and j that end too far apart: push chunk i + 1 beyond the room that j popped chunks
   leave, and pop chunk j + 1 beyond what i pushed chunks offer. Then every schedule's end is a
   deadlock (and every schedule can be carried on to an end: RunToItsEnd).
   */
  lemma DeadlockIff(cap: nat, pushes: seq<seq<byte>>, pops: seq<nat>)
    requires 2 <= cap && 2 * cap <= WORD
    ensures var env := ListEnv(cap, pushes, pops);
            && (CanDeadlock(env) <==> Blocks(cap, AllChunks(cap, SizesOf(pushes)), AllChunks(cap, pops)))
            && (CanDeadlock(env) ==>
                  forall run, acts :: Ended(env, run, acts) ==> Deadlocked(env, run[|acts|]))
  {
    var env := ListEnv(cap, pushes, pops);
    var a, b := AllChunks(cap, SizesOf(pushes)), AllChunks(cap, pops);
    if CanDeadlock(env) {
      var run, acts :| IsRun(env, run, acts) && Deadlocked(env, run[|acts|]);
      RunStaysOnTrack(env, pops, run, acts, |acts|);
      DeadlockIsABlock(env, pops, run[|acts|]);
    }
    if i, j :| BlockedAt(cap, a, b, i, j) {
      var run, acts := SomeRun(env);
      run, acts := RunToItsEnd(env, pops, run, acts);
      EveryEndIsADeadlock(env, pops, run, acts, i, j);
      forall run, acts | Ended(env, run, acts)
        ensures Deadlocked(env, run[|acts|])
      {
        EveryEndIsADeadlock(env, pops, run, acts, i, j);
      }
    }
  }

  // ----- a deadlock is for good -----

  /** Inside a wait whose flag is 0, without having consumed it. */
  predicate WaitsForever(sh: Signal.Shared<Side>, w: Signal.WaitPc) {
    !sh.e && OnTime(w) && w != Signal.Unlock(true)
  }

  /** Both sides inside their waits of a blocking call, and both flags 0. */
  ghost predicate Dead(s: State) {
    && s.p.pc.PWait? && WaitsForever(s.free, s.p.pc.w)
    && s.c.pc.CWait? && s.c.pc.job.Blocking? && WaitsForever(s.present, s.c.pc.w)
  }

  lemma DeadStaysDead(env: Env, s: State, a: Action)
    requires InRange(s) && Dead(s) && Enabled(env, s, a)
    ensures var s' := Next(env, s, a);
            && Dead(s') && s'.log == s.log && s'.ring == s.ring
            && s'.p.pc.data == s.p.pc.data && s'.c.pc.job == s.c.pc.job
  {
  }

  lemma DeadlockedIsDead(env: Env, s: State)
    requires Inv(env, s) && BlockingInv(s) && Deadlocked(env, s)
    ensures Dead(s)
  {
  }

  /** Whatever happens after a deadlock, spurious wakeups included, neither side ever leaves its wait. */
  lemma {:induction false} DeadlockIsForGood(
      env: Env, pops: seq<nat>, run: seq<State>, acts: seq<Action>, m: nat, n: nat)
    requires IsRun(env, run, acts) && env.policy == ListPolicy(pops) && m <= n < |run|
    requires Deadlocked(env, run[m])
    ensures Dead(run[n]) && run[n].log == run[m].log && run[n].ring == run[m].ring
    ensures run[n].p.pc.data == run[m].p.pc.data && run[n].c.pc.job == run[m].c.pc.job
  {
    if n == m {
      RunStaysOnTrack(env, pops, run, acts, m);
      DeadlockedIsDead(env, run[m]);
    } else {
      DeadlockIsForGood(env, pops, run, acts, m, n - 1);
      DeadStaysDead(env, run[n - 1], acts[n - 1]);
    }
  }

  // ----- one pair of chunks -----

  ghost predicate Reachable(env: Env, s: State) {
    exists run, acts :: IsRun(env, run, acts) && run[|acts|] == s
  }

  /** Deadlocked on a push chunk of a bytes and a pop chunk of b bytes. */
  ghost predicate DeadlockedOn(env: Env, s: State, a: nat, b: nat) {
    && Reachable(env, s) && Deadlocked(env, s)
    && Chunk(s.ring.cap, |s.p.pc.data|) == a && Need(s.ring.cap, s.c.pc.job) == b
  }

  lemma OneChunk(cap: nat, x: nat)
    requires cap >= 2 && x < cap
    ensures ChunksOf(cap, x) == if x == 0 then [] else [x]
  {
    assert ChunksOf(cap, 0) == [];
  }

  lemma OneChunkRequests(cap: nat, x: nat, y: nat)
    requires cap >= 2 && x < cap && y < cap
    ensures AllChunks(cap, [x, y]) == (if x == 0 then [] else [x]) + (if y == 0 then [] else [y])
    ensures AllChunks(cap, [x]) == if x == 0 then [] else [x]
  {
    OneChunk(cap, x);
    OneChunk(cap, y);
    assert [x, y][1..] == [y] && [y][1..] == [] && [x][1..] == [];
    assert AllChunks(cap, [y]) == ChunksOf(cap, y);
  }

  lemma MismatchBlocks(cap: nat, a: nat, b: nat)
    requires 2 <= cap && 1 <= a < cap && 1 <= b < cap && a + b > cap
    ensures AllChunks(cap, [b]) == [b]
    ensures var chunks := AllChunks(cap, [b - 1, a]);
            && chunks != [] && BlockedAt(cap, chunks, [b], |chunks| - 1, 0)
            && forall i: nat :: BlockedAt(cap, chunks, [b], i, 0) ==> chunks[i] == a
  {
    OneChunkRequests(cap, b - 1, a);
    OneChunkRequests(cap, b, 0);
  }

  /** b - 1 bytes and then a bytes, against one pop of b bytes: it deadlocks on chunks a and b. */
  lemma MismatchDeadlocks(cap: nat, a: nat, b: nat) returns (env: Env, s: State)
    requires 2 <= cap && 2 * cap <= WORD && 1 <= a < cap && 1 <= b < cap && a + b > cap
    ensures env.cap == cap && DeadlockedOn(env, s, a, b)
  {
    var pushes: seq<seq<byte>> := [seq(b - 1, _ => 0), seq(a, _ => 0)];
    env := ListEnv(cap, pushes, [b]);
    assert SizesOf(pushes) == [b - 1, a];
    MismatchBlocks(cap, a, b);
    var chunks := AllChunks(cap, [b - 1, a]);
    var run, acts := SomeRun(env);
    run, acts := RunToItsEnd(env, [b], run, acts);
    EveryEndIsADeadlock(env, [b], run, acts, |chunks| - 1, 0);
    s := run[|acts|];
    RunStaysOnTrack(env, [b], run, acts, |acts|);
    DeadlockIsABlock(env, [b], s);
  }

  /**
   A pending push chunk of a bytes and a pending pop chunk of b bytes can deadlock in some run of
   some lists of requests if and only if a + b exceeds the capacity.
   */
  lemma DeadlockIffMismatch(cap: nat, a: nat, b: nat)
    requires 2 <= cap && 2 * cap <= WORD && 1 <= a < cap && 1 <= b < cap
    ensures (exists env: Env, s: State :: env.cap == cap && DeadlockedOn(env, s, a, b)) <==> a + b > cap
  {
    if a + b > cap {
      var env, s := MismatchDeadlocks(cap, a, b);
    }
    forall env: Env, s: State | env.cap == cap && DeadlockedOn(env, s, a, b)
      ensures a + b > cap
    {
      var run, acts :| IsRun(env, run, acts) && run[|acts|] == s;
      RunKeepsInv(env, run, acts, |acts|);
    }
  }
}
