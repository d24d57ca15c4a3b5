/**
 Progress of the queue when the k-th pop asks for the size of the k-th push: no schedule can
 deadlock, every schedule does only a bounded amount of work, and it ends with every push
 delivered as the reply of its pop.
 */
module SpscProgress {
  import opened Bytes
  import opened CircularBuffer
  import opened SpscQueue
  import opened SpscWork

  ghost function GotAll(ps: seq<seq<byte>>): (rs: seq<Reply>)
    ensures |rs| == |ps| && forall k: nat :: k < |ps| ==> rs[k] == Got(ps[k])
  {
    seq(|ps|, k => if 0 <= k < |ps| then Got(ps[k]) else TimedOut)
  }

  lemma DeliveredGotAll(ps: seq<seq<byte>>)
    ensures Delivered(GotAll(ps)) == Concat(ps)
  {
    assert Payloads(GotAll(ps)) == ps;
  }

  /** A consumer that has received the first k pushes asks for the size of push k, then stops. */
  ghost predicate Matched(env: Env) {
    forall k: nat :: k <= |env.pushes| ==>
      env.policy(GotAll(env.pushes[..k])) == if k < |env.pushes| then Some(Pop(|env.pushes[k]|)) else None
  }

  /** r bytes are left of a request of L bytes after some rounds. */
  ghost predicate Remains(cap: nat, L: nat, r: nat)
    requires cap >= 2
    decreases L
  {
    r == L || (L > 0 && Remains(cap, L - Chunk(cap, L), r))
  }

  lemma {:induction false} RemainsStep(cap: nat, L: nat, r: nat)
    requires cap >= 2 && Remains(cap, L, r) && r > 0
    ensures Remains(cap, L, r - Chunk(cap, r))
    decreases L
  {
    if r != L {
      RemainsStep(cap, L - Chunk(cap, L), r);
    }
  }

  lemma {:induction false} RemainsBelow(cap: nat, L: nat, r: nat)
    requires cap >= 2 && Remains(cap, L, r)
    ensures r <= L
    decreases L
  {
    if r != L {
      RemainsBelow(cap, L - Chunk(cap, L), r);
    }
  }

  /** Of two sides inside the same request, the one ahead is ahead by the other's whole chunk. */
  lemma {:induction false} RemainsGap(cap: nat, L: nat, ahead: nat, behind: nat)
    requires cap >= 2 && Remains(cap, L, ahead) && Remains(cap, L, behind) && ahead < behind
    ensures behind - ahead >= Chunk(cap, behind)
    decreases L
  {
    RemainsBelow(cap, L, behind);
    if behind == L {
      RemainsBelow(cap, L - Chunk(cap, L), ahead);
    } else {
      RemainsGap(cap, L - Chunk(cap, L), ahead, behind);
    }
  }

  ghost predicate ProducerMatched(env: Env, p: Producer)
    requires env.cap >= 2
  {
    !p.pc.PNext? ==>
      1 <= p.taken <= |env.pushes| && Remains(env.cap, |env.pushes[p.taken - 1]|, |p.pc.data|)
  }

  ghost predicate ConsumerMatched(env: Env, c: Consumer)
    requires env.cap >= 2
  {
    var k := |c.replies|;
    && k <= |env.pushes| && c.replies == GotAll(env.pushes[..k])
    && (!c.pc.CNext? ==>
          && k < |env.pushes| && c.pc.job.Blocking?
          && |c.pc.job.got| + c.pc.job.want == |env.pushes[k]|
          && Remains(env.cap, |env.pushes[k]|, c.pc.job.want))
  }

  ghost predicate MatchedInv(env: Env, s: State) {
    Inv(env, s) && BlockingInv(s) && ProducerMatched(env, s.p) && ConsumerMatched(env, s.c)
  }

  /** All that is popped so far, in terms of the pushes. */
  lemma StreamFacts(env: Env, s: State)
    requires MatchedInv(env, s)
    ensures var k := |s.c.replies|;
            && s.log.popped == Concat(env.pushes[..k]) + InHand(s.c.pc)
            && s.log.pushed + BytesLeft(s.p.pc) == Concat(env.pushes[..s.p.taken])
            && s.log.popped <= s.log.pushed <= Concat(env.pushes)
  {
    var k := |s.c.replies|;
    DeliveredGotAll(env.pushes[..k]);
    ConcatHalves(env.pushes, s.p.taken);
  }

  lemma PrefixPiece(whole: seq<byte>, a: seq<byte>, x: seq<byte>, z: seq<byte>, got: seq<byte>)
    requires whole == a + x + z && a + got <= whole && |got| == |x|
    ensures got == x
  {
    assert whole[|a|..|a| + |x|] == x;
    assert (a + got)[|a|..] == got;
  }

  /** A pop that has all its bytes has exactly the bytes of the push of the same number. */
  lemma FullHandIsThePush(env: Env, s: State)
    requires MatchedInv(env, s) && !s.c.pc.CNext? && s.c.pc.job.want == 0
    ensures s.c.pc.job.got == env.pushes[|s.c.replies|]
  {
    var k := |s.c.replies|;
    StreamFacts(env, s);
    ConcatSplit(env.pushes, k);
    PrefixPiece(Concat(env.pushes), Concat(env.pushes[..k]), env.pushes[k], Concat(env.pushes[k + 1..]),
                s.c.pc.job.got);
  }

  lemma ProdPublishStaysMatched(env: Env, s: State)
    requires MatchedInv(env, s) && Enabled(env, s, ProdPublish)
    ensures ProducerMatched(env, Next(env, s, ProdPublish).p)
  {
    RemainsStep(env.cap, |env.pushes[s.p.taken - 1]|, |s.p.pc.data|);
  }

  lemma ProducerStaysMatched(env: Env, s: State, a: Action)
    requires MatchedInv(env, s) && Enabled(env, s, a)
    ensures ProducerMatched(env, Next(env, s, a).p)
  {
    if a.ProdPublish? {
      ProdPublishStaysMatched(env, s);
    }
  }

  lemma NextReplyMatches(env: Env, s: State)
    requires MatchedInv(env, s) && s.c.pc.CTop? && s.c.pc.job.want == 0
    ensures var rs := s.c.replies + [Got(s.c.pc.job.got)];
            |rs| <= |env.pushes| && rs == GotAll(env.pushes[..|rs|])
  {
    FullHandIsThePush(env, s);
  }

  lemma ConsMoveStaysMatched(env: Env, s: State)
    requires Matched(env) && MatchedInv(env, s) && Enabled(env, s, ConsMove)
    ensures ConsumerMatched(env, Next(env, s, ConsMove).c)
  {
    if s.c.pc.CTop? && s.c.pc.job.want == 0 {
      NextReplyMatches(env, s);
    } else if s.c.pc.CNext? {
      assert |s.c.replies| < |env.pushes|;
    }
  }

  lemma ConsReleaseStaysMatched(env: Env, s: State)
    requires MatchedInv(env, s) && Enabled(env, s, ConsRelease)
    ensures ConsumerMatched(env, Next(env, s, ConsRelease).c)
  {
    RemainsStep(env.cap, |env.pushes[|s.c.replies|]|, s.c.pc.job.want);
  }

  lemma ConsumerStaysMatched(env: Env, s: State, a: Action)
    requires Matched(env) && MatchedInv(env, s) && Enabled(env, s, a)
    ensures ConsumerMatched(env, Next(env, s, a).c)
  {
    if a.ConsRelease? {
      ConsReleaseStaysMatched(env, s);
    } else if a.ConsMove? {
      ConsMoveStaysMatched(env, s);
    }
  }

  lemma NextStaysMatched(env: Env, s: State, a: Action)
    requires Matched(env) && MatchedInv(env, s) && Enabled(env, s, a)
    ensures MatchedInv(env, Next(env, s, a))
  {
    NextKeepsInv(env, s, a);
    NextKeepsBlocking(env, s, a);
    ProducerStaysMatched(env, s, a);
    ConsumerStaysMatched(env, s, a);
  }

  lemma {:induction false} RunStaysMatched(env: Env, run: seq<State>, acts: seq<Action>, i: nat)
    requires Matched(env) && IsRun(env, run, acts) && i < |run|
    ensures MatchedInv(env, run[i])
  {
    if i > 0 {
      RunStaysMatched(env, run, acts, i - 1);
      NextStaysMatched(env, run[i - 1], acts[i - 1]);
    }
  }

  // ----- no deadlock -----

  /** Inside push m and pop k, each side's position and what it has left add up to the end of its call. */
  lemma EndsOfCalls(env: Env, s: State)
    requires MatchedInv(env, s) && s.p.pc.PWait? && s.c.pc.CWait?
    ensures var k, m := |s.c.replies|, s.p.taken - 1;
            && |s.log.pushed| + |s.p.pc.data| == |Concat(env.pushes[..m + 1])|
            && |Concat(env.pushes[..m + 1])| == |Concat(env.pushes[..m])| + |env.pushes[m]|
            && |s.log.popped| + s.c.pc.job.want == |Concat(env.pushes[..k + 1])|
            && |Concat(env.pushes[..k + 1])| == |Concat(env.pushes[..k])| + |env.pushes[k]|
  {
    StreamFacts(env, s);
    ConcatPrefix(env.pushes, |s.c.replies|);
    ConcatPrefix(env.pushes, s.p.taken - 1);
  }

  /** With matched sizes the two sides are never both short: of data, and of room. */
  lemma NeverBothStarved(env: Env, s: State)
    requires MatchedInv(env, s)
    ensures !(ProducerStarved(s) && ConsumerStarved(s))
  {
    if s.p.pc.PWait? && s.c.pc.CWait? {
      EndsOfCalls(env, s);
      var k, m := |s.c.replies|, s.p.taken - 1;
      var data, want := |s.p.pc.data|, s.c.pc.job.want;
      RemainsBelow(env.cap, |env.pushes[m]|, data);
      if k < m {
        PrefixGrows(env.pushes, k + 1, m);
      } else if m < k {
        PrefixGrows(env.pushes, m + 1, k);
      } else if data < want {
        RemainsGap(env.cap, |env.pushes[k]|, data, want);
      }
    }
  }

  lemma PrefixGrows(ps: seq<seq<byte>>, i: nat, j: nat)
    requires i <= j <= |ps|
    ensures |Concat(ps[..i])| <= |Concat(ps[..j])|
  {
    ConcatAppend(ps[..i], ps[i..j]);
    assert ps[..j] == ps[..i] + ps[i..j];
  }

  /** A finished producer has published everything, so the consumer is never short of data. */
  lemma ConsumerFedAtTheEnd(env: Env, s: State)
    requires MatchedInv(env, s) && ProducerDone(env, s)
    ensures !ConsumerStarved(s)
  {
    if ConsumerStarved(s) {
      StreamFacts(env, s);
      var k := |s.c.replies|;
      assert env.pushes[..s.p.taken] == env.pushes;
      ConcatSplit(env.pushes, k);
      assert false;
    }
  }

  /** A finished consumer has drained everything, so the producer is never short of room. */
  lemma ProducerFreeAtTheEnd(env: Env, s: State)
    requires Matched(env) && MatchedInv(env, s) && ConsumerDone(env, s)
    ensures |s.c.replies| == |env.pushes| && !ProducerStarved(s)
  {
    StreamFacts(env, s);
    assert env.pushes[..|s.c.replies|] == env.pushes;
  }

  lemma StuckMeansDelivered(env: Env, s: State)
    requires Matched(env) && MatchedInv(env, s) && Stuck(env, s)
    ensures ProducerDone(env, s) && ConsumerDone(env, s)
    ensures s.c.replies == GotAll(env.pushes)
  {
    StuckSides(env, s);
    NeverBothStarved(env, s);
    if ProducerDone(env, s) {
      ConsumerFedAtTheEnd(env, s);
    }
    if ConsumerDone(env, s) {
      ProducerFreeAtTheEnd(env, s);
      assert env.pushes[..|s.c.replies|] == env.pushes;
    }
  }

  // ----- bounded work -----

  /**
   Matched sizes: for every capacity and every list of pushes, whatever the schedule, a run does
   at most 200 steps per byte and 40 per call, plus 7 per spurious wakeup; and when it can do no
   more, both sides are done and the replies are the pushes.
   */
  lemma MatchedQueueDelivers(env: Env, run: seq<State>, acts: seq<Action>)
    requires Matched(env) && IsRun(env, run, acts)
    ensures var work := WorkSteps(acts, |acts|);
            work <= 200 * |Concat(env.pushes)| + 40 * |env.pushes| + 7 * (|acts| - work)
    ensures InRange(run[|acts|])
    ensures Stuck(env, run[|acts|]) ==>
              && ProducerDone(env, run[|acts|]) && ConsumerDone(env, run[|acts|])
              && run[|acts|].c.replies == GotAll(env.pushes)
  {
    WorkIsBounded(env, run, acts);
    RunStaysMatched(env, run, acts, |acts|);
    if Stuck(env, run[|acts|]) {
      StuckMeansDelivered(env, run[|acts|]);
    }
  }
}
