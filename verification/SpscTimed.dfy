/**
 Timed pops: when they may answer false, what they wait for before they do, and that they never wait
 without their deadline running.
 */
module SpscTimed {
  import opened Bytes
  import opened CircularBuffer
  import opened RingMemory
  import Signal
  import opened SpscQueue

  // ----- where a timed pop is -----

  /** The first of the two waits is a try; the second, with a timeout of 0 ms, too. */
  ghost predicate TimedInv(pc: ConsumerPc) {
    !pc.CNext? && pc.job.Timed? ==>
      && pc.job.stage <= 2
      && (pc.CTop? ==> pc.job.stage == 0)
      && (pc.CWait? ==> pc.job.stage >= 1)
      && (pc.CWait? && (pc.job.stage == 1 || pc.job.quick) ==> pc.w.FastLoad? || pc.w.FastCas?)
  }

  lemma NextKeepsTimed(env: Env, s: State, a: Action)
    requires Inv(env, s) && Enabled(env, s, a) && TimedInv(s.c.pc)
    ensures TimedInv(Next(env, s, a).c.pc)
  {
  }

  lemma {:induction false} RunKeepsTimed(env: Env, run: seq<State>, acts: seq<Action>, n: nat)
    requires IsRun(env, run, acts) && n < |run|
    ensures TimedInv(run[n].c.pc)
  {
    if n > 0 {
      RunKeepsTimed(env, run, acts, n - 1);
      RunKeepsInv(env, run, acts, n - 1);
      NextKeepsTimed(env, run[n - 1], acts[n - 1]);
    }
  }

  /** A timed pop is served as one, and a pop without a timeout as one without, until the chunk is out. */
  ghost predicate RequestInv(c: Consumer) {
    !c.pc.CNext? && |c.replies| < |c.asked| ==>
      var timed := c.asked[|c.replies|].TimedPop?;
      if c.pc.CTest? || c.pc.CWait? || c.pc.CCopy? then c.pc.job.Timed? <==> timed
      else (c.pc.job.Timed? ==> timed) && (timed && c.pc.job.Blocking? ==> c.pc.job.want == 0)
  }

  lemma NextKeepsRequest(env: Env, s: State, a: Action)
    requires Inv(env, s) && Enabled(env, s, a) && RequestInv(s.c)
    ensures RequestInv(Next(env, s, a).c)
  {
  }

  lemma {:induction false} RunKeepsRequest(env: Env, run: seq<State>, acts: seq<Action>, n: nat)
    requires IsRun(env, run, acts) && n < |run|
    ensures RequestInv(run[n].c)
  {
    if n > 0 {
      RunKeepsRequest(env, run, acts, n - 1);
      RunKeepsInv(env, run, acts, n - 1);
      NextKeepsRequest(env, run[n - 1], acts[n - 1]);
    }
  }

  /** The request the consumer is serving. */
  ghost predicate Serving(c: Consumer, q: Request) {
    !c.pc.CNext? && |c.replies| < |c.asked| && c.asked[|c.replies|] == q
  }

  /**
   A consumer asleep in a timed pop has its deadline running, and the timeout was not 0 ms; one
   asleep in a pop without a timeout has none.
   */
  lemma TimedPopSleepsWithADeadline(env: Env, run: seq<State>, acts: seq<Action>, n: nat, q: Request)
    requires IsRun(env, run, acts) && n < |run| && Serving(run[n].c, q)
    requires run[n].c.pc.CWait? && run[n].c.pc.w.Asleep?
    ensures InRange(run[n]) && (Enabled(env, run[n], ConsTimeout) <==> q.TimedPop?)
    ensures q.TimedPop? ==> !q.quick
  {
    RunKeepsInv(env, run, acts, n);
    RunKeepsTimed(env, run, acts, n);
    RunKeepsRequest(env, run, acts, n);
  }

  // ----- when a timed pop answers false -----

  /** The bytes published and not yet released. */
  ghost function Available(s: State): int {
    |s.log.pushed| - |s.log.popped|
  }

  /** This step answers false: the request can never fit, or the last look finds too few bytes. */
  ghost predicate AnswersFalse(env: Env, s: State, a: Action, q: Request) {
    && a.ConsMove? && q.TimedPop?
    && ((s.c.pc == CTop(Timed(q.n, q.quick, 0)) && q.n > env.cap - 1)
        || (s.c.pc == CTest(Timed(q.n, q.quick, 2)) && Available(s) < q.n))
  }

  /** Only such a step adds the answer false, and it is the answer to the request asked last. */
  lemma NewTimedOut(env: Env, s: State, a: Action)
    requires Inv(env, s) && Enabled(env, s, a) && TimedInv(s.c.pc)
    requires Next(env, s, a).c.replies == s.c.replies + [TimedOut]
    ensures |s.c.asked| == |s.c.replies| + 1 && Next(env, s, a).c.asked == s.c.asked
    ensures AnswersFalse(env, s, a, s.c.asked[|s.c.replies|])
  {
    assert a.ConsMove?;
    assert Next(env, s, a).c.replies[|s.c.replies|] == TimedOut;
    RingSizes(s.ring, s.log.pushed, s.log.popped);
  }

  /** Any step adds at most one reply, and in between two pops nothing is asked or answered. */
  ghost predicate ReplyStep(c: Consumer, a: Action, c': Consumer) {
    && (c'.replies == c.replies || (c'.pc.CNext? && |c'.replies| == |c.replies| + 1 && c.replies <= c'.replies))
    && (c'.pc.CNext? && c'.replies == c.replies ==> c.pc.CNext? && c'.asked == c.asked && !a.ConsTimeout?)
  }

  lemma NextIsReplyStep(env: Env, s: State, a: Action)
    requires Inv(env, s) && Enabled(env, s, a)
    ensures ReplyStep(s.c, a, Next(env, s, a).c)
  {
  }

  ghost predicate ReplySteps(run: seq<State>, acts: seq<Action>) {
    && |run| == |acts| + 1
    && forall e: nat {:trigger acts[e]} :: e < |acts| ==> ReplyStep(run[e].c, acts[e], run[e + 1].c)
  }

  lemma RunHasReplySteps(env: Env, run: seq<State>, acts: seq<Action>)
    requires IsRun(env, run, acts)
    ensures ReplySteps(run, acts)
  {
    forall e: nat | e < |acts|
      ensures ReplyStep(run[e].c, acts[e], run[e + 1].c)
    {
      RunKeepsInv(env, run, acts, e);
      NextIsReplyStep(env, run[e], acts[e]);
    }
  }

  lemma {:induction false} RepliesOnlyGrow(run: seq<State>, acts: seq<Action>, m: nat, n: nat)
    requires ReplySteps(run, acts) && m <= n < |run|
    ensures run[m].c.replies <= run[n].c.replies
  {
    if m < n {
      RepliesOnlyGrow(run, acts, m, n - 1);
      assert ReplyStep(run[n - 1].c, acts[n - 1], run[n].c);
    }
  }

  /** The step that added the last reply, looking back from between two pops. */
  lemma {:induction false} LastReplyAdded(run: seq<State>, acts: seq<Action>, n: nat, before: seq<Reply>, reply: Reply)
      returns (k: nat)
    requires ReplySteps(run, acts) && n < |run| && run[0].c.replies == []
    requires run[n].c.pc.CNext? && run[n].c.replies == before + [reply]
    ensures k < n && run[k].c.replies == before && run[k + 1].c.replies == before + [reply]
    ensures run[k + 1].c.asked == run[n].c.asked
    ensures forall i: nat :: k < i < n ==> !acts[i].ConsTimeout?
  {
    assert ReplyStep(run[n - 1].c, acts[n - 1], run[n].c);
    if run[n - 1].c.replies == run[n].c.replies {
      k := LastReplyAdded(run, acts, n - 1, before, reply);
    } else {
      k := n - 1;
      assert (before + [reply])[..|before|] == before;
    }
  }

  /** The step at which a pop answered false, looking back from between it and the next pop. */
  lemma TimedOutAt(
      env: Env, run: seq<State>, acts: seq<Action>, n: nat, before: seq<Reply>) returns (k: nat)
    requires IsRun(env, run, acts) && n < |run|
    requires run[n].c.pc.CNext? && run[n].c.replies == before + [TimedOut]
    ensures k < n && run[k].c.replies == before && |run[n].c.asked| == |before| + 1
    ensures AnswersFalse(env, run[k], acts[k], run[n].c.asked[|before|])
    ensures forall i: nat :: k < i < n ==> !acts[i].ConsTimeout?
  {
    RunHasReplySteps(env, run, acts);
    k := LastReplyAdded(run, acts, n, before, TimedOut);
    RunKeepsInv(env, run, acts, k);
    RunKeepsTimed(env, run, acts, k);
    NewTimedOut(env, run[k], acts[k]);
  }

  // ----- what it has waited for -----

  /** The second wait of this timed pop. */
  ghost predicate InSecondWait(pc: ConsumerPc, q: Request) {
    q.TimedPop? && pc.CWait? && pc.job == Timed(q.n, q.quick, 2)
  }

  ghost predicate AtLastTest(pc: ConsumerPc, q: Request) {
    q.TimedPop? && pc == CTest(Timed(q.n, q.quick, 2))
  }

  /** Only the end of the second wait leads to the last test. */
  lemma LastTestStepBack(env: Env, s: State, a: Action, q: Request)
    requires Inv(env, s) && TimedInv(s.c.pc) && Enabled(env, s, a) && AtLastTest(Next(env, s, a).c.pc, q)
    ensures AtLastTest(s.c.pc, q) || (a.ConsMove? && InSecondWait(s.c.pc, q))
    ensures Next(env, s, a).c.replies == s.c.replies
  {
  }

  /** The points of a wait behind its deadline. */
  predicate GaveUp(w: Signal.WaitPc) {
    w == Signal.Woken(true) || w.LastLoad? || w.LastCas? || w == Signal.Unlock(false)
  }

  /** Only a timeout leads behind the deadline. */
  lemma GaveUpStepBack(env: Env, s: State, a: Action, q: Request)
    requires Inv(env, s) && Enabled(env, s, a)
    requires InSecondWait(Next(env, s, a).c.pc, q) && GaveUp(Next(env, s, a).c.pc.w)
    ensures InSecondWait(s.c.pc, q) && (a.ConsTimeout? || GaveUp(s.c.pc.w))
    ensures Next(env, s, a).c.replies == s.c.replies
  {
  }

  /** How the second wait can end: with the signal consumed, behind the deadline, or, as a mere try, at once. */
  lemma SecondWaitEnds(env: Env, s: State, q: Request)
    requires Inv(env, s) && Enabled(env, s, ConsMove) && InSecondWait(s.c.pc, q) && !q.quick
    requires AtLastTest(Next(env, s, ConsMove).c.pc, q)
    ensures GaveUp(s.c.pc.w) || s.c.pc.w == Signal.Unlock(true) || (s.c.pc.w.FastCas? && s.present.e)
  {
  }

  lemma LastTestOneStepBefore(env: Env, run: seq<State>, acts: seq<Action>, n: nat, q: Request)
    requires IsRun(env, run, acts) && n < |acts| && AtLastTest(run[n + 1].c.pc, q)
    ensures AtLastTest(run[n].c.pc, q) || (acts[n].ConsMove? && InSecondWait(run[n].c.pc, q))
    ensures run[n].c.replies == run[n + 1].c.replies
  {
    RunKeepsInv(env, run, acts, n);
    RunKeepsTimed(env, run, acts, n);
    LastTestStepBack(env, run[n], acts[n], q);
  }

  /** The end of the second wait, looking back from the last test. */
  lemma {:induction false} SecondWaitBefore(
      env: Env, run: seq<State>, acts: seq<Action>, n: nat, q: Request) returns (j: nat)
    requires IsRun(env, run, acts) && n < |run| && AtLastTest(run[n].c.pc, q)
    ensures j < n && acts[j].ConsMove? && InSecondWait(run[j].c.pc, q) && AtLastTest(run[j + 1].c.pc, q)
    ensures run[j].c.replies == run[n].c.replies
  {
    LastTestOneStepBefore(env, run, acts, n - 1, q);
    if AtLastTest(run[n - 1].c.pc, q) {
      j := SecondWaitBefore(env, run, acts, n - 1, q);
    } else {
      j := n - 1;
    }
  }

  lemma GaveUpOneStepBefore(env: Env, run: seq<State>, acts: seq<Action>, n: nat, q: Request)
    requires IsRun(env, run, acts) && n < |acts| && InSecondWait(run[n + 1].c.pc, q) && GaveUp(run[n + 1].c.pc.w)
    ensures InSecondWait(run[n].c.pc, q) && (acts[n].ConsTimeout? || GaveUp(run[n].c.pc.w))
    ensures run[n].c.replies == run[n + 1].c.replies
  {
    RunKeepsInv(env, run, acts, n);
    GaveUpStepBack(env, run[n], acts[n], q);
  }

  /** The timeout of the second wait, looking back from behind its deadline. */
  lemma {:induction false} TimeoutBefore(
      env: Env, run: seq<State>, acts: seq<Action>, n: nat, q: Request) returns (i: nat)
    requires IsRun(env, run, acts) && n < |run| && InSecondWait(run[n].c.pc, q) && GaveUp(run[n].c.pc.w)
    ensures i < n && acts[i].ConsTimeout? && InSecondWait(run[i].c.pc, q) && run[i].c.replies == run[n].c.replies
  {
    GaveUpOneStepBefore(env, run, acts, n - 1, q);
    if acts[n - 1].ConsTimeout? {
      i := n - 1;
    } else {
      i := TimeoutBefore(env, run, acts, n - 1, q);
    }
  }

  /** In this state of the second wait its deadline passes, or it has consumed the signal. */
  ghost predicate WaitIsOver(s: State, a: Action, q: Request) {
    && InSecondWait(s.c.pc, q)
    && (a.ConsTimeout? || s.c.pc.w == Signal.Unlock(true) || (s.c.pc.w.FastCas? && s.present.e))
  }

  lemma LastTestHasWaited(env: Env, run: seq<State>, acts: seq<Action>, n: nat, q: Request) returns (i: nat)
    requires IsRun(env, run, acts) && n < |run| && AtLastTest(run[n].c.pc, q) && !q.quick
    ensures i < n && WaitIsOver(run[i], acts[i], q) && run[i].c.replies == run[n].c.replies
  {
    var j := SecondWaitBefore(env, run, acts, n, q);
    RunKeepsInv(env, run, acts, j);
    SecondWaitEnds(env, run[j], q);
    if GaveUp(run[j].c.pc.w) {
      i := TimeoutBefore(env, run, acts, j, q);
    } else {
      i := j;
    }
  }

  /** A state before a pop, with the same replies as a state inside it, comes first. */
  lemma BeforeTheCall(env: Env, run: seq<State>, acts: seq<Action>, m: nat, i: nat)
    requires IsRun(env, run, acts) && m < |run| && i < |run| && run[m].c.pc.CNext? && !run[i].c.pc.CNext?
    requires run[i].c.replies == run[m].c.replies
    ensures m < i
  {
    RunHasReplySteps(env, run, acts);
    if i < m {
      InsideOfACall(run, acts, i, m);
    }
  }

  lemma {:induction false} InsideOfACall(run: seq<State>, acts: seq<Action>, i: nat, m: nat)
    requires ReplySteps(run, acts) && i <= m < |run| && !run[i].c.pc.CNext?
    requires run[m].c.replies == run[i].c.replies
    ensures !run[m].c.pc.CNext?
  {
    if i < m {
      assert ReplyStep(run[m - 1].c, acts[m - 1], run[m].c);
      RepliesOnlyGrow(run, acts, i, m - 1);
      InBetween(run[i].c.replies, run[m - 1].c.replies);
      InsideOfACall(run, acts, i, m - 1);
    }
  }

  lemma InBetween(a: seq<Reply>, b: seq<Reply>)
    requires a <= b <= a
    ensures a == b
  {
  }

  /**
   A timed pop that answers false either asks for more than the ring can ever hold, or has found too
   few bytes at some moment k of the call; no timeout of this call comes after that look, and unless
   its timeout was 0 ms, its deadline has passed, or it has consumed the signal, earlier in the call.
   */
  lemma TimedOutMeansTooFew(env: Env, run: seq<State>, acts: seq<Action>, m: nat, n: nat)
    requires IsRun(env, run, acts) && m <= n < |run|
    requires run[m].c.pc.CNext? && run[n].c.pc.CNext? && run[n].c.replies == run[m].c.replies + [TimedOut]
    ensures |run[n].c.asked| == |run[m].c.replies| + 1
    ensures var q := run[n].c.asked[|run[m].c.replies|];
            && q.TimedPop?
            && (q.n > env.cap - 1
                || exists k: nat :: m <= k < n && Available(run[k]) < q.n
                     && (forall i: nat :: k <= i < n ==> !acts[i].ConsTimeout?)
                     && (q.quick || exists i: nat :: m <= i < k && WaitIsOver(run[i], acts[i], q)))
  {
    var k := TimedOutAt(env, run, acts, n, run[m].c.replies);
    BeforeTheCall(env, run, acts, m, k);
    var q := run[n].c.asked[|run[m].c.replies|];
    if q.n <= env.cap - 1 && !q.quick {
      var i := WaitedInTheCall(env, run, acts, m, k, q);
    }
  }

  lemma WaitedInTheCall(env: Env, run: seq<State>, acts: seq<Action>, m: nat, k: nat, q: Request) returns (i: nat)
    requires IsRun(env, run, acts) && m < |run| && k < |run| && run[m].c.pc.CNext?
    requires AtLastTest(run[k].c.pc, q) && !q.quick && run[k].c.replies == run[m].c.replies
    ensures m <= i < k && WaitIsOver(run[i], acts[i], q)
  {
    i := LastTestHasWaited(env, run, acts, k, q);
    BeforeTheCall(env, run, acts, m, i);
  }

  /** When only spurious wakeups and timeouts are left, a timed pop still has its timeout: it is never stuck. */
  lemma TimedPopIsNeverStuck(env: Env, run: seq<State>, acts: seq<Action>, n: nat, q: Request)
    requires IsRun(env, run, acts) && n < |run| && InRange(run[n]) && Stuck(env, run[n])
    requires Serving(run[n].c, q) && q.TimedPop?
    ensures Enabled(env, run[n], ConsTimeout)
  {
    RunKeepsInv(env, run, acts, n);
    StuckSides(env, run[n]);
    TimedPopSleepsWithADeadline(env, run, acts, n, q);
  }
}
