/**
 When the queue serves given lists of pushes and of blocking pops completely: exactly when every
 schedule, carried on to its end, finishes both sides, and what the pops have received then.
 */
module SpscCompletion {
  import opened Bytes
  import opened CircularBuffer
  import opened RingMemory
  import opened SpscQueue
  import opened SpscWork
  import opened SpscDeadlock

  // ----- the chunks add up to the requests -----

  function Sum(sizes: seq<nat>): nat {
    if sizes == [] then 0 else sizes[0] + Sum(sizes[1..])
  }

  lemma {:induction false} EndInFront(x: seq<nat>, y: seq<nat>, i: nat)
    requires i <= |x|
    ensures End(x + y, i) == End(x, i)
  {
    if i > 0 {
      EndInFront(x, y, i - 1);
    }
  }

  lemma {:induction false} EndBehind(x: seq<nat>, y: seq<nat>, k: nat)
    requires k <= |y|
    ensures End(x + y, |x| + k) == End(x, |x|) + End(y, k)
  {
    if k == 0 {
      EndInFront(x, y, |x|);
    } else {
      EndBehind(x, y, k - 1);
    }
  }

  lemma {:induction false} ChunksAddUp(cap: nat, n: nat)
    requires cap >= 2
    ensures End(ChunksOf(cap, n), |ChunksOf(cap, n)|) == n
    decreases n
  {
    if n > 0 {
      var c := Chunk(cap, n);
      var rest := ChunksOf(cap, n - c);
      ChunksAddUp(cap, n - c);
      EndBehind([c], rest, |rest|);
      assert End([c], 1) == End([c], 0) + c;
    }
  }

  lemma {:induction false} AllChunksAddUp(cap: nat, sizes: seq<nat>)
    requires cap >= 2
    ensures End(AllChunks(cap, sizes), |AllChunks(cap, sizes)|) == Sum(sizes)
  {
    if sizes != [] {
      var first, later := ChunksOf(cap, sizes[0]), AllChunks(cap, sizes[1..]);
      ChunksAddUp(cap, sizes[0]);
      AllChunksAddUp(cap, sizes[1..]);
      EndBehind(first, later, |later|);
    }
  }

  // ----- finished sides -----

  lemma DoneProducerPushedAll(env: Env, pops: seq<nat>, s: State)
    requires Tracks(env, pops, s) && ProducerDone(env, s)
    ensures |s.log.pushed| == Sum(SizesOf(env.pushes))
  {
    FinishedProducerHasNoRest(env, s);
    PositionsAreEnds(env, pops, s);
    AllChunksAddUp(env.cap, SizesOf(env.pushes));
  }

  lemma DoneConsumerPoppedAll(env: Env, pops: seq<nat>, s: State)
    requires Tracks(env, pops, s) && |s.c.asked| == |s.c.replies| && env.policy == ListPolicy(pops)
    requires ConsumerDone(env, s)
    ensures |s.log.popped| == Sum(pops)
  {
    FinishedConsumerHasNoRest(env, pops, s);
    PositionsAreEnds(env, pops, s);
    AllChunksAddUp(env.cap, pops);
  }

  /** A side that waits has at least its next chunk left of its list. */
  lemma WaitingProducerIsShort(env: Env, pops: seq<nat>, s: State)
    requires Tracks(env, pops, s) && s.p.pc.PWait? && s.p.pc.data != []
    ensures |s.log.pushed| + Chunk(env.cap, |s.p.pc.data|) <= Sum(SizesOf(env.pushes))
  {
    var a := AllChunks(env.cap, SizesOf(env.pushes));
    ProducerBefore(env, pops, s);
    EndsGrow(a, ChunksPushed(env, s) + 1, |a|);
    AllChunksAddUp(env.cap, SizesOf(env.pushes));
  }

  lemma WaitingConsumerIsShort(env: Env, pops: seq<nat>, s: State)
    requires Tracks(env, pops, s) && s.c.pc.CWait? && s.c.pc.job.Blocking? && s.c.pc.job.want > 0
    ensures |s.log.popped| + Need(env.cap, s.c.pc.job) <= Sum(pops)
  {
    var b := AllChunks(env.cap, pops);
    ConsumerBefore(env, pops, s);
    EndsGrow(b, ChunksPopped(env, pops, s) + 1, |b|);
    AllChunksAddUp(env.cap, pops);
  }

  ghost predicate BothDone(env: Env, s: State) {
    ProducerDone(env, s) && ConsumerDone(env, s)
  }

  /** The pops never ask for more than is pushed, and leave no more than the ring can keep. */
  predicate Balanced(cap: nat, pushed: nat, popped: nat) {
    popped <= pushed && pushed <= popped + cap - 1
  }

  lemma BalancedEndIsDone(env: Env, pops: seq<nat>, s: State)
    requires TrackInv(env, pops, s) && Stuck(env, s)
    requires Balanced(env.cap, Sum(SizesOf(env.pushes)), Sum(pops))
    ensures BothDone(env, s) || Deadlocked(env, s)
  {
    StuckSides(env, s);
    if ProducerDone(env, s) && ConsumerStarved(s) {
      DoneProducerPushedAll(env, pops, s);
      WaitingConsumerIsShort(env, pops, s);
    } else if ProducerStarved(s) && ConsumerDone(env, s) {
      DoneConsumerPoppedAll(env, pops, s);
      WaitingProducerIsShort(env, pops, s);
    }
  }

  ghost predicate AlwaysFinishes(env: Env) {
    forall run, acts :: Ended(env, run, acts) ==> BothDone(env, run[|acts|])
  }

  lemma FinishesIfUnblocked(env: Env, pops: seq<nat>, run: seq<State>, acts: seq<Action>)
    requires Ended(env, run, acts) && env.policy == ListPolicy(pops) && env.cap >= 2
    requires !Blocks(env.cap, AllChunks(env.cap, SizesOf(env.pushes)), AllChunks(env.cap, pops))
    requires Balanced(env.cap, Sum(SizesOf(env.pushes)), Sum(pops))
    ensures BothDone(env, run[|acts|])
  {
    var s := run[|acts|];
    RunStaysOnTrack(env, pops, run, acts, |acts|);
    BalancedEndIsDone(env, pops, s);
    if Deadlocked(env, s) {
      DeadlockIsABlock(env, pops, s);
    }
  }

  lemma FinishedIsBalanced(env: Env, pops: seq<nat>, run: seq<State>, acts: seq<Action>)
    requires Ended(env, run, acts) && env.policy == ListPolicy(pops) && BothDone(env, run[|acts|])
    ensures env.cap >= 2 && !Blocks(env.cap, AllChunks(env.cap, SizesOf(env.pushes)), AllChunks(env.cap, pops))
    ensures Balanced(env.cap, Sum(SizesOf(env.pushes)), Sum(pops))
  {
    RunStaysOnTrack(env, pops, run, acts, |acts|);
    DoneProducerPushedAll(env, pops, run[|acts|]);
    DoneConsumerPoppedAll(env, pops, run[|acts|]);
    if i, j :| BlockedAt(env.cap, AllChunks(env.cap, SizesOf(env.pushes)), AllChunks(env.cap, pops), i, j) {
      EveryEndIsADeadlock(env, pops, run, acts, i, j);
    }
  }

  /**
   For given lists of pushes and blocking pops, every schedule that comes to its end (and every
   schedule can be brought to one) has finished both sides if and only if no two chunks block each
   other, the pops ask for no more than is pushed, and at most capacity - 1 bytes are left over.
   */
  lemma AlwaysFinishesIff(cap: nat, pushes: seq<seq<byte>>, pops: seq<nat>)
    requires 2 <= cap && 2 * cap <= WORD
    ensures AlwaysFinishes(ListEnv(cap, pushes, pops)) <==>
            && !Blocks(cap, AllChunks(cap, SizesOf(pushes)), AllChunks(cap, pops))
            && Balanced(cap, Sum(SizesOf(pushes)), Sum(pops))
  {
    var env := ListEnv(cap, pushes, pops);
    var run0, acts0 := SomeRun(env);
    run0, acts0 := RunToItsEnd(env, pops, run0, acts0);
    assert Ended(env, run0, acts0);
    if AlwaysFinishes(env) {
      FinishedIsBalanced(env, pops, run0, acts0);
    } else {
      var run, acts :| Ended(env, run, acts) && !BothDone(env, run[|acts|]);
      if !Blocks(cap, AllChunks(cap, SizesOf(pushes)), AllChunks(cap, pops))
         && Balanced(cap, Sum(SizesOf(pushes)), Sum(pops)) {
        FinishesIfUnblocked(env, pops, run, acts);
        assert false;
      }
    }
  }

  /** Where both sides are done, the pops have received the first bytes of all pushes, in order. */
  lemma FinishedPopsGotTheBytes(env: Env, pops: seq<nat>, run: seq<State>, acts: seq<Action>)
    requires Ended(env, run, acts) && env.policy == ListPolicy(pops) && BothDone(env, run[|acts|])
    ensures Sum(pops) <= |Concat(env.pushes)|
    ensures Delivered(run[|acts|].c.replies) == Concat(env.pushes)[..Sum(pops)]
  {
    var s := run[|acts|];
    RunStaysOnTrack(env, pops, run, acts, |acts|);
    DoneConsumerPoppedAll(env, pops, s);
    assert env.pushes[..s.p.taken] == env.pushes;
    assert s.log.pushed + [] == s.log.pushed && Delivered(s.c.replies) + [] == s.log.popped;
  }

  /** Requests of which no push chunk and pop chunk together exceed the capacity never deadlock. */
  lemma SmallChunksNeverDeadlock(cap: nat, pushes: seq<seq<byte>>, pops: seq<nat>)
    requires 2 <= cap && 2 * cap <= WORD
    requires var a, b := AllChunks(cap, SizesOf(pushes)), AllChunks(cap, pops);
             forall i: nat, j: nat :: i < |a| && j < |b| ==> a[i] + b[j] <= cap
    ensures !CanDeadlock(ListEnv(cap, pushes, pops))
  {
    var a, b := AllChunks(cap, SizesOf(pushes)), AllChunks(cap, pops);
    DeadlockIff(cap, pushes, pops);
    if i, j :| BlockedAt(cap, a, b, i, j) {
      BlockedChunksExceed(cap, a, b, i, j);
    }
  }
}
