/**
 How much a schedule of the queue can do: whatever is pushed and popped, with a timeout or without,
 every run does a bounded amount of work apart from spurious wakeups, so no side goes round in circles.
 */
module SpscWork {
  import opened Bytes
  import opened CircularBuffer
  import Signal
  import opened SpscQueue
  import opened SpscTimed

  /** A wait without a deadline never gets to the points after a timeout. */
  predicate OnTime(w: Signal.WaitPc) {
    !w.LastLoad? && !w.LastCas? && w != Signal.Woken(true) && w != Signal.Unlock(false) && !w.Done?
  }

  /** Cost still ahead inside a wait; a notify may put a sleeper back to the top of it. */
  function WaitCost(w: Signal.WaitPc): nat {
    match w
    case FastLoad => 9
    case FastCas => 8
    case Lock => 7
    case Woken(_) => 7
    case Load => 6
    case Cas => 5
    case Block => 4
    case Asleep => 0
    case Unlock(_) => 12
    case _ => 0
  }

  ghost function FlagCost(sh: Signal.Shared<Side>): nat {
    if sh.e then 20 else 0
  }

  /** A step of a wait without a deadline stays on time and gets the wait nearer to its test. */
  lemma WaitStepOnTime(sh: Signal.Shared<Side>, me: Side, w: Signal.WaitPc)
    requires OnTime(w) && Signal.WaitReady(sh, w)
    ensures var (sh', w') := Signal.WaitStep(sh, me, Signal.Forever, w);
            && (w'.Done? || OnTime(w'))
            && (if w'.Done? then 10 else WaitCost(w')) + FlagCost(sh') < WaitCost(w) + FlagCost(sh)
  {
  }

  /** How many of the first n requests are timed pops. */
  ghost function TimedAmong(asked: seq<Request>, n: nat): nat
    requires n <= |asked|
  {
    if n == 0 then 0 else TimedAmong(asked, n - 1) + if asked[n - 1].TimedPop? then 1 else 0
  }

  ghost function TimedAsked(asked: seq<Request>): nat {
    TimedAmong(asked, |asked|)
  }

  lemma {:induction false} TimedAmongPrefix(asked: seq<Request>, q: Request, n: nat)
    requires n <= |asked|
    ensures TimedAmong(asked + [q], n) == TimedAmong(asked, n)
  {
    if n > 0 {
      TimedAmongPrefix(asked, q, n - 1);
    }
  }

  lemma TimedAskedSnoc(asked: seq<Request>, q: Request)
    ensures TimedAsked(asked + [q]) == TimedAsked(asked) + if q.TimedPop? then 1 else 0
  {
    TimedAmongPrefix(asked, q, |asked|);
  }

  /** The consumer is in no timed pop, and has never asked for one. */
  ghost predicate BlockingInv(s: State) {
    && (s.p.pc.PWait? ==> OnTime(s.p.pc.w))
    && (!s.c.pc.CNext? ==> s.c.pc.job.Blocking?)
    && (s.c.pc.CWait? ==> OnTime(s.c.pc.w))
    && TimedAsked(s.c.asked) == 0
  }

  lemma NextKeepsBlocking(env: Env, s: State, a: Action)
    requires Inv(env, s) && BlockingInv(s) && Enabled(env, s, a)
    requires s.c.pc.CNext? && env.policy(s.c.replies).Some? ==> env.policy(s.c.replies).value.Pop?
    ensures BlockingInv(Next(env, s, a))
  {
    if a.ProdMove? && s.p.pc.PWait? {
      WaitStepOnTime(s.free, Prod, s.p.pc.w);
    } else if a.ConsMove? && s.c.pc.CWait? {
      WaitStepOnTime(s.present, Cons, s.c.pc.w);
    } else if a.ConsMove? && s.c.pc.CNext? {
      TimedAskedSnoc(s.c.asked, env.policy(s.c.replies).value);
    }
  }

  /** A blocking wait never gets behind a deadline; a timed pop is in one of its two waits. */
  ghost predicate PaceInv(s: State) {
    && (s.p.pc.PWait? ==> OnTime(s.p.pc.w))
    && (s.c.pc.CWait? && s.c.pc.job.Blocking? ==> OnTime(s.c.pc.w))
    && TimedInv(s.c.pc)
  }

  lemma BlockingKeepsPace(s: State)
    requires BlockingInv(s)
    ensures PaceInv(s)
  {
  }

  lemma NextKeepsPace(env: Env, s: State, a: Action)
    requires Inv(env, s) && PaceInv(s) && Enabled(env, s, a)
    ensures PaceInv(Next(env, s, a))
  {
    NextKeepsTimed(env, s, a);
    if a.ProdMove? && s.p.pc.PWait? {
      WaitStepOnTime(s.free, Prod, s.p.pc.w);
    } else if a.ConsMove? && s.c.pc.CWait? && s.c.pc.job.Blocking? {
      WaitStepOnTime(s.present, Cons, s.c.pc.w);
    }
  }

  lemma {:induction false} RunKeepsPace(env: Env, run: seq<State>, acts: seq<Action>, n: nat)
    requires IsRun(env, run, acts) && n < |run|
    ensures PaceInv(run[n])
  {
    if n > 0 {
      RunKeepsPace(env, run, acts, n - 1);
      RunKeepsInv(env, run, acts, n - 1);
      NextKeepsPace(env, run[n - 1], acts[n - 1]);
    }
  }

  /** Cost still ahead inside a wait of a timed pop; behind the deadline there is no way back. */
  function TimedWaitCost(w: Signal.WaitPc): nat {
    match w
    case FastLoad => 19
    case FastCas => 18
    case Lock => 17
    case Woken(late) => if late then 9 else 17
    case Load => 16
    case Cas => 15
    case Block => 14
    case Asleep => 10
    case LastLoad => 8
    case LastCas => 7
    case Unlock(_) => 6
    case Done(_) => 0
  }

  function SignalCost(g: Signal.SignalPc): nat {
    match g
    case Store => 80
    case NeedLock => 55
    case Notify => 50
    case Release => 40
    case Finished => 0
  }

  ghost function ProducerCost(pc: ProducerPc): nat {
    match pc
    case PNext => 0
    case PTop(_) => 14
    case PTest(_) => 10
    case PWait(_, w) => WaitCost(w)
    case PCopy(_, i) => if i == 0 then 5 else 90
    case PSig(_, g) => SignalCost(g)
  }

  ghost function ConsumerCost(pc: ConsumerPc): int {
    match pc
    case CNext => 0
    case CTop(job) => if job.Blocking? then 14 else 170
    case CTest(job) => if job.Blocking? then 10 else 100 + 30 * (2 - job.stage)
    case CWait(job, w) => if job.Blocking? then WaitCost(w) else 105 + TimedWaitCost(w) + 30 * (2 - job.stage)
    case CCopy(job, out) => if out != [] then 90 else if job.Timed? && job.n == 0 then 95 else 5
    case CSig(_, g) => SignalCost(g)
  }

  ghost function Copied(s: State): nat {
    |s.log.pushed| + (if s.p.pc.PCopy? then s.p.pc.i else 0)
  }

  ghost function Read(s: State): nat {
    |s.log.popped| + (if s.c.pc.CCopy? then |s.c.pc.out| else 0)
  }

  ghost function ProducerSpent(copied: nat, p: Producer, free: Signal.Shared<Side>): int {
    100 * copied + 20 * p.taken - ProducerCost(p.pc) - FlagCost(free)
  }

  ghost function ConsumerSpent(read: nat, c: Consumer, present: Signal.Shared<Side>): int {
    100 * read + 20 * |c.asked| + 200 * TimedAsked(c.asked) - ConsumerCost(c.pc) - FlagCost(present)
  }

  /** What is done so far: bytes copied in and out and calls begun, less what is under way. */
  ghost function Spent(s: State): int {
    ProducerSpent(Copied(s), s.p, s.free) + ConsumerSpent(Read(s), s.c, s.present)
  }

  lemma SpentBound(env: Env, s: State)
    requires Inv(env, s) && PaceInv(s)
    ensures Spent(s) <=
            200 * |Concat(env.pushes)| + 20 * |env.pushes| + 20 * |s.c.asked| + 200 * TimedAsked(s.c.asked)
  {
    ConcatHalves(env.pushes, s.p.taken);
  }

  lemma ProducerMoveIsWork(env: Env, s: State)
    requires Inv(env, s) && PaceInv(s) && Enabled(env, s, ProdMove)
    ensures Spent(Next(env, s, ProdMove)) > Spent(s)
  {
    var (free, p) := ProducerMove(env, s);
    assert ProducerSpent(Copied(s), p, free) > ProducerSpent(Copied(s), s.p, s.free) by {
      match s.p.pc
      case PWait(_, w) => WaitStepOnTime(s.free, Prod, w);
      case _ =>
    }
  }

  lemma ProducerCopyIsWork(env: Env, s: State, a: Action)
    requires Inv(env, s) && Enabled(env, s, a) && (a.ProdWrite? || a.ProdPublish?)
    ensures Spent(Next(env, s, a)) > Spent(s)
  {
    var s' := Next(env, s, a);
    assert ProducerSpent(Copied(s'), s'.p, s.free) > ProducerSpent(Copied(s), s.p, s.free);
  }

  lemma ProducerSignalIsWork(env: Env, s: State)
    requires Inv(env, s) && Enabled(env, s, ProdSignal)
    ensures Spent(Next(env, s, ProdSignal)) > Spent(s)
  {
    var s' := Next(env, s, ProdSignal);
    assert ConsumerCost(s'.c.pc) <= ConsumerCost(s.c.pc) + if s.p.pc.g.Notify? then 7 else 0;
    assert FlagCost(s'.present) <= FlagCost(s.present) + if s.p.pc.g.Store? then 20 else 0;
    assert ProducerCost(s'.p.pc) <=
           ProducerCost(s.p.pc) - if s.p.pc.g.Store? then 25 else if s.p.pc.g.Notify? then 10 else 1;
  }

  lemma ConsumerMoveIsWork(env: Env, s: State)
    requires Inv(env, s) && PaceInv(s) && Enabled(env, s, ConsMove)
    ensures Spent(Next(env, s, ConsMove)) > Spent(s)
  {
    var (present, c) := ConsumerMove(env, s);
    if s.c.pc.CWait? {
      ConsumerWaitIsWork(env, s);
    } else if s.c.pc.CNext? {
      ConsumerCallIsWork(env, s);
    } else {
      ConsumerTestIsWork(env, s);
    }
    assert ConsumerSpent(Read(s), c, present) > ConsumerSpent(Read(s), s.c, s.present);
  }

  lemma ConsumerCallIsWork(env: Env, s: State)
    requires Inv(env, s) && Enabled(env, s, ConsMove) && s.c.pc.CNext?
    ensures var (present, c) := ConsumerMove(env, s);
            ConsumerSpent(Read(s), c, present) > ConsumerSpent(Read(s), s.c, s.present)
  {
    TimedAskedSnoc(s.c.asked, env.policy(s.c.replies).value);
  }

  lemma ConsumerTestIsWork(env: Env, s: State)
    requires Inv(env, s) && PaceInv(s) && Enabled(env, s, ConsMove) && (s.c.pc.CTop? || s.c.pc.CTest?)
    ensures var (present, c) := ConsumerMove(env, s);
            ConsumerSpent(Read(s), c, present) > ConsumerSpent(Read(s), s.c, s.present)
  {
    assert ConsumerMove(env, s).1.asked == s.c.asked && ConsumerMove(env, s).0 == s.present;
  }

  lemma ConsumerWaitIsWork(env: Env, s: State)
    requires Inv(env, s) && PaceInv(s) && Enabled(env, s, ConsMove) && s.c.pc.CWait?
    ensures var (present, c) := ConsumerMove(env, s);
            ConsumerSpent(Read(s), c, present) > ConsumerSpent(Read(s), s.c, s.present)
  {
    if s.c.pc.job.Blocking? {
      WaitStepOnTime(s.present, Cons, s.c.pc.w);
    } else {
      TimedWaitIsWork(s.present, PatienceOf(s.c.pc.job), s.c.pc.w);
    }
  }

  lemma TimedWaitIsWork(sh: Signal.Shared<Side>, patience: Signal.Patience, w: Signal.WaitPc)
    requires Signal.WaitReady(sh, w)
    ensures var (sh', w') := Signal.WaitStep(sh, Cons, patience, w);
            FlagCost(sh') <= FlagCost(sh) && (w'.Done? || TimedWaitCost(w') < TimedWaitCost(w))
  {
  }

  lemma ConsumerCopyIsWork(env: Env, s: State, a: Action)
    requires Inv(env, s) && PaceInv(s) && Enabled(env, s, a) && (a.ConsRead? || a.ConsRelease?)
    ensures Spent(Next(env, s, a)) > Spent(s)
  {
    var s' := Next(env, s, a);
    assert ConsumerSpent(Read(s'), s'.c, s.present) > ConsumerSpent(Read(s), s.c, s.present);
  }

  lemma ConsumerSignalIsWork(env: Env, s: State)
    requires Inv(env, s) && Enabled(env, s, ConsSignal)
    ensures Spent(Next(env, s, ConsSignal)) > Spent(s)
  {
    var s' := Next(env, s, ConsSignal);
    assert ProducerCost(s'.p.pc) <= ProducerCost(s.p.pc) + if s.c.pc.g.Notify? then 7 else 0;
    assert FlagCost(s'.free) <= FlagCost(s.free) + if s.c.pc.g.Store? then 20 else 0;
    assert ConsumerCost(s'.c.pc) <=
           ConsumerCost(s.c.pc) - if s.c.pc.g.Store? then 25 else if s.c.pc.g.Notify? then 10 else 1;
  }

  /** All steps but spurious wakeups. */
  predicate IsProgress(a: Action) {
    !a.ProdSpurious? && !a.ConsSpurious?
  }

  lemma TimeoutIsWork(env: Env, s: State)
    requires Inv(env, s) && PaceInv(s) && Enabled(env, s, ConsTimeout)
    ensures Spent(Next(env, s, ConsTimeout)) > Spent(s)
  {
    var s' := Next(env, s, ConsTimeout);
    assert ConsumerCost(s'.c.pc) < ConsumerCost(s.c.pc);
  }

  lemma WorkIsSpent(env: Env, s: State, a: Action)
    requires Inv(env, s) && PaceInv(s) && Enabled(env, s, a) && IsProgress(a)
    ensures Spent(Next(env, s, a)) > Spent(s)
  {
    match a
    case ProdMove => ProducerMoveIsWork(env, s);
    case ProdSignal => ProducerSignalIsWork(env, s);
    case ConsMove => ConsumerMoveIsWork(env, s);
    case ConsSignal => ConsumerSignalIsWork(env, s);
    case ConsTimeout => TimeoutIsWork(env, s);
    case _ =>
      if a.ProdWrite? || a.ProdPublish? {
        ProducerCopyIsWork(env, s, a);
      } else {
        ConsumerCopyIsWork(env, s, a);
      }
  }

  lemma WakeupCostsLittle(env: Env, s: State, a: Action)
    requires Inv(env, s) && Enabled(env, s, a) && !IsProgress(a)
    ensures Spent(Next(env, s, a)) >= Spent(s) - 7
  {
    if a.ProdSpurious? {
      assert ProducerCost(WakeProducer(s.p).pc) <= ProducerCost(s.p.pc) + 7;
    } else {
      assert ConsumerCost(Next(env, s, a).c.pc) <= ConsumerCost(s.c.pc) + 7;
    }
  }

  /** How many of the first n steps are no spurious wakeups. */
  ghost function WorkSteps(acts: seq<Action>, n: nat): (w: nat)
    requires n <= |acts|
    ensures w <= n
  {
    if n == 0 then 0 else WorkSteps(acts, n - 1) + if IsProgress(acts[n - 1]) then 1 else 0
  }

  lemma WorkAddsOne(env: Env, run: seq<State>, acts: seq<Action>, n: nat)
    requires IsRun(env, run, acts) && n < |acts|
    ensures Spent(run[n + 1]) >= Spent(run[n]) + if IsProgress(acts[n]) then 1 else -7
  {
    RunKeepsInv(env, run, acts, n);
    RunKeepsPace(env, run, acts, n);
    if IsProgress(acts[n]) {
      WorkIsSpent(env, run[n], acts[n]);
    } else {
      WakeupCostsLittle(env, run[n], acts[n]);
    }
  }

  /** Every step up to n adds to what is spent, or is a cheap wakeup. */
  ghost predicate AllSpend(run: seq<State>, acts: seq<Action>) {
    && |run| == |acts| + 1
    && forall e: nat {:trigger acts[e]} ::
         e < |acts| ==> Spent(run[e + 1]) >= Spent(run[e]) + if IsProgress(acts[e]) then 1 else -7
  }

  lemma {:induction false} WorkAddsUp(run: seq<State>, acts: seq<Action>, n: nat)
    requires AllSpend(run, acts) && n <= |acts|
    ensures WorkSteps(acts, n) <= Spent(run[n]) - Spent(run[0]) + 7 * (n - WorkSteps(acts, n))
  {
    if n > 0 {
      WorkAddsUp(run, acts, n - 1);
      assert Spent(run[n]) >= Spent(run[n - 1]) + if IsProgress(acts[n - 1]) then 1 else -7;
    }
  }

  lemma NoSideHasSpent(p: Producer, c: Consumer, free: Signal.Shared<Side>, present: Signal.Shared<Side>)
    requires p.pc.PNext? && p.taken == 0 && c.pc.CNext? && |c.asked| == 0 && !free.e && !present.e
    ensures ProducerSpent(0, p, free) == 0 && ConsumerSpent(0, c, present) == 0
  {
  }

  lemma FreshSides(env: Env, s: State)
    requires Init(env, s)
    ensures s.p.pc.PNext? && s.p.taken == 0 && s.c.pc.CNext? && |s.c.asked| == 0 && !s.free.e && !s.present.e
    ensures |s.log.pushed| == 0 && |s.log.popped| == 0
  {
  }

  lemma FreshHasSpentNothing(s: State)
    requires s.p.pc.PNext? && s.p.taken == 0 && s.c.pc.CNext? && |s.c.asked| == 0 && !s.free.e && !s.present.e
    requires |s.log.pushed| == 0 && |s.log.popped| == 0
    ensures Spent(s) == 0
  {
    NoSideHasSpent(s.p, s.c, s.free, s.present);
  }

  lemma RunSpends(env: Env, run: seq<State>, acts: seq<Action>)
    requires IsRun(env, run, acts)
    ensures AllSpend(run, acts)
  {
    forall e: nat | e < |acts|
      ensures Spent(run[e + 1]) >= Spent(run[e]) + if IsProgress(acts[e]) then 1 else -7
    {
      WorkAddsOne(env, run, acts, e);
    }
  }

  /**
   Whatever is pushed and popped, every schedule does at most 200 steps per byte pushed, 20 per call
   of either side and 200 more per timed pop, plus 7 per spurious wakeup.
   */
  lemma WorkIsBounded(env: Env, run: seq<State>, acts: seq<Action>)
    requires IsRun(env, run, acts)
    ensures var work, asked := WorkSteps(acts, |acts|), run[|acts|].c.asked;
            work <= 200 * |Concat(env.pushes)| + 20 * |env.pushes| + 20 * |asked| + 200 * TimedAsked(asked)
                    + 7 * (|acts| - work)
  {
    RunSpends(env, run, acts);
    FreshSides(env, run[0]);
    FreshHasSpentNothing(run[0]);
    WorkAddsUp(run, acts, |acts|);
    RunKeepsInv(env, run, acts, |acts|);
    RunKeepsPace(env, run, acts, |acts|);
    SpentBound(env, run[|acts|]);
  }
}
