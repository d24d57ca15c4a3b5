/**
 What a thread inside a call of a SignalGroup does, told from the call itself: which flags it waits
 for, what a wait that gives up or falls asleep has seen, and how many steps a call can take.
 */
module SignalCalls {
  import opened Bytes
  import Signal
  import opened SignalGroup

  // ----- the call a thread is in -----

  predicate CallOf(a: Action, t: nat) {
    (a.CallWait? || a.CallWaitOne? || a.CallSignal?) && a.t == t
  }

  /** Action m is a call of thread t that has not returned up to state n. */
  predicate InCall(acts: seq<Action>, m: nat, n: nat, t: nat) {
    m < n <= |acts| && CallOf(acts[m], t) && forall i: nat :: m < i < n ==> acts[i] != Return(t)
  }

  /** What the call is about; an index out of range throws. */
  predicate CallIs(call: Action, count: nat, pc: ThreadPc) {
    match call
    case CallWait(_, i, patience) =>
      if i < count then pc.Waiting? && pc.lo == i && pc.hi == i + 1 && pc.patience == patience else pc.Thrown?
    case CallWaitOne(_, patience) => pc.Waiting? && pc.lo == 0 && pc.hi == count && pc.patience == patience
    case CallSignal(_, i) => if i < count then pc.Signaling? && pc.i == i else pc.Thrown?
    case _ => false
  }

  lemma StepKeepsCall(s: State, a: Action, t: nat, call: Action)
    requires InRange(s) && Enabled(s, a) && a != Return(t)
    requires t in s.pcs && CallIs(call, |s.events|, s.pcs[t])
    ensures t in Next(s, a).pcs && CallIs(call, |Next(s, a).events|, Next(s, a).pcs[t])
  {
    assert !s.pcs[t].Idle?;
  }

  lemma CallBegins(run: seq<State>, acts: seq<Action>, m: nat, t: nat)
    requires IsRun(run, acts) && m < |acts| && CallOf(acts[m], t)
    ensures t in run[m + 1].pcs && CallIs(acts[m], |run[m + 1].events|, run[m + 1].pcs[t])
  {
  }

  lemma CallGoesOn(run: seq<State>, acts: seq<Action>, n: nat, t: nat, call: Action)
    requires IsRun(run, acts) && n < |acts| && acts[n] != Return(t)
    requires t in run[n].pcs && CallIs(call, |run[n].events|, run[n].pcs[t])
    ensures t in run[n + 1].pcs && CallIs(call, |run[n + 1].events|, run[n + 1].pcs[t])
  {
    StepKeepsCall(run[n], acts[n], t, call);
  }

  lemma {:induction false} CallStays(run: seq<State>, acts: seq<Action>, m: nat, n: nat, t: nat)
    requires IsRun(run, acts) && InCall(acts, m, n, t)
    ensures t in run[n].pcs && CallIs(acts[m], |run[n].events|, run[n].pcs[t])
  {
    if n == m + 1 {
      CallBegins(run, acts, m, t);
    } else {
      CallStays(run, acts, m, n - 1, t);
      CallGoesOn(run, acts, n - 1, t, acts[m]);
    }
  }

  /**
   No lost wakeup, told from the calls: a thread asleep in waitOne while any flag of the group is
   set, or in wait(i) while flag i is set, has a signaler of that flag before its notify_all.
   */
  lemma SleeperOfACallIsNotified(run: seq<State>, acts: seq<Action>, m: nat, n: nat, t: nat, j: nat)
    requires IsRun(run, acts) && InCall(acts, m, n, t) && t in run[n].pcs && Sleeping(run[n].pcs[t])
    requires j < |run[n].events| && run[n].events[j]
    requires acts[m].CallWaitOne? || (acts[m].CallWait? && acts[m].i == j)
    ensures NotifyPending(run[n], j)
  {
    CallStays(run, acts, m, n, t);
    NoLostWakeup(run, acts, n, t, j);
  }

  /** Any number of flags and any set of threads make a fresh group. */
  lemma FreshGroup(count: nat, threads: set<nat>) returns (s: State)
    requires count > 0
    ensures Init(s) && |s.events| == count && s.pcs.Keys == threads && IsRun([s], [])
  {
    s := State(seq(count, _ => false), None, map t | t in threads :: Idle,
               seq(count, _ => 0), seq(count, _ => 0), seq(count, _ => 0));
  }

  /** An idle thread can call, a finished one return, and any other step unless it sleeps or needs a taken mutex. */
  lemma ThreadCanMove(s: State, t: nat, i: nat, patience: Signal.Patience)
    requires t in s.pcs
    ensures s.pcs[t].Idle? ==>
              && Enabled(s, CallWait(t, i, patience)) && Enabled(s, CallWaitOne(t, patience))
              && Enabled(s, CallSignal(t, i))
    ensures Finished(s.pcs[t]) ==> Enabled(s, Return(t))
    ensures Sleeping(s.pcs[t]) ==> Enabled(s, Wake({t})) && (Enabled(s, Timeout(t)) <==> s.pcs[t].patience.Deadline?)
    ensures !s.pcs[t].Idle? && !Finished(s.pcs[t]) && !Sleeping(s.pcs[t]) ==>
              (Enabled(s, Step(t)) <==> (NeedsLock(s.pcs[t]) ==> s.owner == None))
  {
  }

  // ----- a compare-exchange follows a load that saw the flag set -----

  /** The thread's own load of the flag at which it is now about to compare-exchange. */
  ghost predicate LoadSawSet(s: State, a: Action, s': State, t: nat) {
    && a == Step(t) && t in s.pcs && t in s'.pcs && s.pcs[t].Waiting? && s'.pcs[t].Waiting?
    && s.pcs[t].w.Scan? && !s.pcs[t].w.cas && s'.pcs[t].w == s.pcs[t].w.(cas := true)
    && s.pcs[t].w.k < |s.events| && s.events[s.pcs[t].w.k]
  }

  predicate AboutToCas(pc: ThreadPc) {
    pc.Waiting? && pc.w.Scan? && pc.w.cas
  }

  lemma CasStepBack(s: State, a: Action, t: nat)
    requires InRange(s) && Enabled(s, a) && t in Next(s, a).pcs && AboutToCas(Next(s, a).pcs[t])
    ensures t in s.pcs && (s.pcs[t] == Next(s, a).pcs[t] || LoadSawSet(s, a, Next(s, a), t))
  {
    if t in s.pcs && s.pcs[t].Waiting? && s.pcs[t].w.Scan? {
      assert PcInRange(|s.events|, s.pcs[t]);
    }
  }

  ghost predicate CasSteps(run: seq<State>, acts: seq<Action>, t: nat) {
    && |run| == |acts| + 1
    && forall e: nat {:trigger acts[e]} :: e < |acts| && t in run[e + 1].pcs && AboutToCas(run[e + 1].pcs[t]) ==>
         t in run[e].pcs && (run[e].pcs[t] == run[e + 1].pcs[t] || LoadSawSet(run[e], acts[e], run[e + 1], t))
  }

  lemma RunHasCasSteps(run: seq<State>, acts: seq<Action>, t: nat)
    requires IsRun(run, acts)
    ensures CasSteps(run, acts, t) && (t in run[0].pcs ==> !AboutToCas(run[0].pcs[t]))
  {
    forall e: nat | e < |acts| && t in run[e + 1].pcs && AboutToCas(run[e + 1].pcs[t])
      ensures t in run[e].pcs && (run[e].pcs[t] == run[e + 1].pcs[t] || LoadSawSet(run[e], acts[e], run[e + 1], t))
    {
      CasStepBack(run[e], acts[e], t);
    }
  }

  lemma {:induction false} LoadBeforeCas(run: seq<State>, acts: seq<Action>, n: nat, t: nat) returns (m: nat)
    requires CasSteps(run, acts, t) && (t in run[0].pcs ==> !AboutToCas(run[0].pcs[t]))
    requires n < |run| && t in run[n].pcs && AboutToCas(run[n].pcs[t])
    ensures m < n && LoadSawSet(run[m], acts[m], run[m + 1], t) && run[m + 1].pcs[t] == run[n].pcs[t]
  {
    assert acts[n - 1] == acts[n - 1];
    if LoadSawSet(run[n - 1], acts[n - 1], run[n], t) {
      m := n - 1;
    } else {
      m := LoadBeforeCas(run, acts, n - 1, t);
    }
  }

  /** A thread compare-exchanges a flag only behind its own load that saw it set. */
  lemma CasFollowsLoad(run: seq<State>, acts: seq<Action>, n: nat, t: nat) returns (m: nat)
    requires IsRun(run, acts) && n < |run| && t in run[n].pcs && AboutToCas(run[n].pcs[t])
    ensures m < n && LoadSawSet(run[m], acts[m], run[m + 1], t) && run[m + 1].pcs[t] == run[n].pcs[t]
  {
    RunHasCasSteps(run, acts, t);
    m := LoadBeforeCas(run, acts, n, t);
  }

  // ----- patience -----

  /** The points a wait gets to only after its deadline. */
  predicate Late(w: ScanPc) {
    w == Woken(true) || (w.Scan? && w.phase.Last?) || w == Unlock(None) || w == Done(None)
  }

  /** A wait of 0 ms never touches the mutex, and a wait without a deadline never gets late. */
  predicate PatienceInv(pc: ThreadPc) {
    pc.Waiting? ==>
      match pc.patience
      case TryOnly => (pc.w.Scan? && pc.w.phase.Fast?) || pc.w.Done?
      case Forever => !Late(pc.w)
      case Deadline => true
  }

  lemma NextKeepsPatience(s: State, a: Action, t: nat)
    requires InRange(s) && Enabled(s, a) && t in Next(s, a).pcs && t in s.pcs && PatienceInv(s.pcs[t])
    ensures PatienceInv(Next(s, a).pcs[t])
  {
  }

  lemma {:induction false} RunKeepsPatience(run: seq<State>, acts: seq<Action>, n: nat, t: nat)
    requires IsRun(run, acts) && n < |run| && t in run[n].pcs
    ensures PatienceInv(run[n].pcs[t])
  {
    if n == 0 {
      PatientAtFirst(run, acts, t);
    } else {
      ThreadWasThereInRun(run, acts, n - 1, t);
      RunKeepsPatience(run, acts, n - 1, t);
      PatienceGoesOn(run, acts, n - 1, t);
    }
  }

  lemma PatientAtFirst(run: seq<State>, acts: seq<Action>, t: nat)
    requires IsRun(run, acts) && t in run[0].pcs
    ensures PatienceInv(run[0].pcs[t])
  {
  }

  lemma PatienceGoesOn(run: seq<State>, acts: seq<Action>, n: nat, t: nat)
    requires IsRun(run, acts) && n < |acts| && t in run[n].pcs && t in run[n + 1].pcs && PatienceInv(run[n].pcs[t])
    ensures PatienceInv(run[n + 1].pcs[t])
  {
    NextKeepsPatience(run[n], acts[n], t);
  }

  lemma ThreadWasThereInRun(run: seq<State>, acts: seq<Action>, n: nat, t: nat)
    requires IsRun(run, acts) && n < |acts| && t in run[n + 1].pcs
    ensures t in run[n].pcs
  {
    ThreadWasThere(run[n], acts[n], t);
  }

  lemma ThreadWasThere(s: State, a: Action, t: nat)
    requires InRange(s) && Enabled(s, a) && t in Next(s, a).pcs
    ensures t in s.pcs
  {
  }

  lemma LateStepBack(s: State, a: Action, t: nat)
    requires InRange(s) && Enabled(s, a) && t in s.pcs && t in Next(s, a).pcs
    requires Next(s, a).pcs[t].Waiting? && Next(s, a).pcs[t].patience.Deadline? && Late(Next(s, a).pcs[t].w)
    ensures a == Timeout(t) || (s.pcs[t].Waiting? && s.pcs[t].patience.Deadline? && Late(s.pcs[t].w))
  {
  }

  ghost predicate IsLate(run: seq<State>, n: nat, t: nat)
    requires n < |run|
  {
    t in run[n].pcs && run[n].pcs[t].Waiting? && run[n].pcs[t].patience.Deadline? && Late(run[n].pcs[t].w)
  }

  lemma LateOneStepBefore(run: seq<State>, acts: seq<Action>, n: nat, t: nat)
    requires IsRun(run, acts) && n < |acts| && acts[n] != Timeout(t) && IsLate(run, n + 1, t)
    ensures IsLate(run, n, t)
  {
    ThreadWasThere(run[n], acts[n], t);
    LateStepBack(run[n], acts[n], t);
  }

  lemma NotLateAtFirst(run: seq<State>, acts: seq<Action>, m: nat, t: nat)
    requires IsRun(run, acts) && m < |acts| && CallOf(acts[m], t)
    ensures !IsLate(run, m + 1, t)
  {
  }

  /** Only a timeout makes a wait late. */
  ghost predicate OnlyTimeoutsMakeLate(run: seq<State>, acts: seq<Action>, t: nat)
    requires |run| == |acts| + 1
  {
    forall e: nat {:trigger acts[e]} ::
      e < |acts| && acts[e] != Timeout(t) && IsLate(run, e + 1, t) ==> IsLate(run, e, t)
  }

  lemma LastTimeout(run: seq<State>, acts: seq<Action>, m: nat, n: nat, t: nat) returns (e: nat)
    requires m < n <= |acts| && |run| == |acts| + 1 && OnlyTimeoutsMakeLate(run, acts, t)
    requires !IsLate(run, m + 1, t) && IsLate(run, n, t)
    ensures m < e < n && acts[e] == Timeout(t)
  {
    e := n - 1;
    while acts[e] != Timeout(t)
      invariant m < e < n && IsLate(run, e + 1, t)
      decreases e
    {
      e := e - 1;
    }
  }

  /** A wait that is past its deadline, or has given up, has timed out during this call. */
  lemma LateHasTimedOut(run: seq<State>, acts: seq<Action>, m: nat, n: nat, t: nat) returns (e: nat)
    requires IsRun(run, acts) && m < n <= |acts| && CallOf(acts[m], t) && IsLate(run, n, t)
    ensures m < e < n && acts[e] == Timeout(t)
  {
    NotLateAtFirst(run, acts, m, t);
    forall e: nat | e < |acts| && acts[e] != Timeout(t) && IsLate(run, e + 1, t)
      ensures IsLate(run, e, t)
    {
      LateOneStepBefore(run, acts, e, t);
    }
    e := LastTimeout(run, acts, m, n, t);
  }

  // ----- what a wait that gives up, or falls asleep, has seen -----

  /** Action e ends a scan of thread t over the flags from lo to hi, all of which it has itself found at 0. */
  ghost predicate ScanMissed(run: seq<State>, acts: seq<Action>, e: nat, t: nat, lo: nat, hi: nat, phase: Phase)
    requires e < |acts| < |run|
  {
    && acts[e] == Step(t) && InScan(run[e], t, phase) && !InScan(run[e + 1], t, phase)
    && run[e].pcs[t].w.k + 1 == hi && hi <= |run[e].events| && !run[e].events[hi - 1]
    && forall j: nat :: lo <= j < hi - 1 ==> SawZero(run, acts, e, t, j, phase)
  }

  /** The points right behind a scan of this phase that found nothing. */
  predicate BehindMiss(patience: Signal.Patience, phase: Phase, w: ScanPc) {
    match phase
    case Fast => if patience.TryOnly? then w == Done(None) else w == Lock
    case Held => w == Block || w == Asleep
    case Last => w == Unlock(None) || w == Done(None)
  }

  ghost predicate MissedAt(run: seq<State>, n: nat, t: nat, lo: nat, hi: nat, patience: Signal.Patience, phase: Phase)
    requires n < |run|
  {
    && t in run[n].pcs && run[n].pcs[t].Waiting?
    && run[n].pcs[t].lo == lo && run[n].pcs[t].hi == hi && run[n].pcs[t].patience == patience
    && BehindMiss(patience, phase, run[n].pcs[t].w)
  }

  /** One step before such a point: the same, or the end of a scan of that phase at its last flag. */
  lemma MissStepBack(s: State, a: Action, t: nat, phase: Phase)
    requires InRange(s) && Enabled(s, a) && t in s.pcs && PatienceInv(s.pcs[t])
    requires t in Next(s, a).pcs && Next(s, a).pcs[t].Waiting?
    requires BehindMiss(Next(s, a).pcs[t].patience, phase, Next(s, a).pcs[t].w)
    requires phase.Fast? <==> Next(s, a).pcs[t].patience.TryOnly? || Next(s, a).pcs[t].w.Lock?
    ensures t in s.pcs && s.pcs[t].Waiting?
    ensures var pc, pc' := s.pcs[t], Next(s, a).pcs[t];
            pc.lo == pc'.lo && pc.hi == pc'.hi && pc.patience == pc'.patience
    ensures BehindMiss(s.pcs[t].patience, phase, s.pcs[t].w)
            || (a == Step(t) && InScan(s, t, phase) && s.pcs[t].w.k + 1 == s.pcs[t].hi
                && !s.events[s.pcs[t].w.k])
  {
  }

  lemma MissOneStepBefore(run: seq<State>, acts: seq<Action>, n: nat, t: nat,
                          lo: nat, hi: nat, patience: Signal.Patience, phase: Phase)
    requires IsRun(run, acts) && n < |acts| && MissedAt(run, n + 1, t, lo, hi, patience, phase)
    requires phase.Fast? <==> patience.TryOnly? || run[n + 1].pcs[t].w.Lock?
    ensures t in run[n].pcs && run[n].pcs[t].Waiting? && run[n].pcs[t].lo == lo && run[n].pcs[t].hi == hi
    ensures MissedAt(run, n, t, lo, hi, patience, phase) || AtLastZero(run, acts, n, t, lo, hi, phase)
  {
    ThreadWasThere(run[n], acts[n], t);
    RunKeepsPatience(run, acts, n, t);
    MissStepBack(run[n], acts[n], t, phase);
    assert PcInRange(|run[n].events|, run[n].pcs[t]);
  }

  lemma ScanJustMissed(run: seq<State>, acts: seq<Action>, e: nat, t: nat,
                       lo: nat, hi: nat, patience: Signal.Patience, phase: Phase)
    requires IsRun(run, acts) && e < |acts| && AtLastZero(run, acts, e, t, lo, hi, phase)
    requires MissedAt(run, e + 1, t, lo, hi, patience, phase)
    ensures ScanMissed(run, acts, e, t, lo, hi, phase)
  {
    forall j: nat | lo <= j < hi - 1
      ensures SawZero(run, acts, e, t, j, phase)
    {
      ScanSawLowerZeros(run, acts, e, t, j);
    }
  }

  /** At state e the thread stands at the last flag of such a scan, and action e finds it at 0. */
  ghost predicate AtLastZero(run: seq<State>, acts: seq<Action>, e: nat, t: nat, lo: nat, hi: nat, phase: Phase)
    requires e < |acts| && e < |run|
  {
    && acts[e] == Step(t) && InScan(run[e], t, phase)
    && run[e].pcs[t].lo == lo && run[e].pcs[t].w.k + 1 == hi && hi <= |run[e].events| && !run[e].events[hi - 1]
  }

  /** Behind a scan that found nothing, that scan ended at some action e, and nothing was consumed since. */
  lemma FoundNothing(
      run: seq<State>, acts: seq<Action>, n: nat, t: nat, lo: nat, hi: nat, patience: Signal.Patience, phase: Phase)
      returns (e: nat)
    requires IsRun(run, acts) && n < |run| && MissedAt(run, n, t, lo, hi, patience, phase)
    requires phase.Fast? <==> patience.TryOnly? || run[n].pcs[t].w.Lock?
    ensures e < n && ScanMissed(run, acts, e, t, lo, hi, phase)
    ensures forall q: nat :: e < q <= n ==> MissedAt(run, q, t, lo, hi, patience, phase)
  {
    NotMissedAtFirst(run, acts, t, lo, hi, patience, phase);
    e := n - 1;
    MissOneStepBefore(run, acts, e, t, lo, hi, patience, phase);
    while MissedAt(run, e, t, lo, hi, patience, phase)
      invariant e < n
      invariant forall q: nat :: e < q <= n ==> MissedAt(run, q, t, lo, hi, patience, phase)
      invariant MissedAt(run, e, t, lo, hi, patience, phase) || AtLastZero(run, acts, e, t, lo, hi, phase)
      decreases e
    {
      e := e - 1;
      MissOneStepBefore(run, acts, e, t, lo, hi, patience, phase);
    }
    ScanJustMissed(run, acts, e, t, lo, hi, patience, phase);
  }

  lemma NotMissedAtFirst(run: seq<State>, acts: seq<Action>, t: nat,
                         lo: nat, hi: nat, patience: Signal.Patience, phase: Phase)
    requires IsRun(run, acts)
    ensures !MissedAt(run, 0, t, lo, hi, patience, phase)
  {
  }

  /**
   A waitOne that answers NO_SIGNALS has, in the last scan of the call, found every flag of the group
   at 0 by its own loads and compare-exchanges, and consumed nothing since: the only scan of a wait of
   0 ms, or the one after its timeout.
   */
  lemma NoSignalsSawEveryFlagAtZero(run: seq<State>, acts: seq<Action>, m: nat, n: nat, t: nat) returns (e: nat)
    requires IsRun(run, acts) && InCall(acts, m, n, t) && acts[m].CallWaitOne?
    requires t in run[n].pcs && run[n].pcs[t].Waiting? && run[n].pcs[t].w == Done(None)
    ensures e < n && !acts[m].patience.Forever?
    ensures ScanMissed(run, acts, e, t, 0, |run[n].events|, if acts[m].patience.TryOnly? then Fast else Last)
    ensures acts[m].patience.Deadline? ==> exists d: nat :: m < d < n && acts[d] == Timeout(t)
  {
    CallStays(run, acts, m, n, t);
    RunKeepsPatience(run, acts, n, t);
    var patience := acts[m].patience;
    e := FoundNothing(run, acts, n, t, 0, |run[n].events|, patience, if patience.TryOnly? then Fast else Last);
    if patience.Deadline? {
      var d := LateHasTimedOut(run, acts, m, n, t);
    }
  }

  /** A waitOne asleep has, in its last scan, found every flag of the group at 0 under the mutex. */
  lemma SleeperSawEveryFlagAtZero(run: seq<State>, acts: seq<Action>, m: nat, n: nat, t: nat) returns (e: nat)
    requires IsRun(run, acts) && InCall(acts, m, n, t) && acts[m].CallWaitOne?
    requires t in run[n].pcs && Sleeping(run[n].pcs[t])
    ensures e < n && !acts[m].patience.TryOnly?
    ensures ScanMissed(run, acts, e, t, 0, |run[n].events|, Held)
    ensures t in run[e].pcs && Holds(run[e].pcs[t]) && run[e].owner == Some(t)
  {
    CallStays(run, acts, m, n, t);
    RunKeepsPatience(run, acts, n, t);
    e := FoundNothing(run, acts, n, t, 0, |run[n].events|, acts[m].patience, Held);
    RunKeepsInv(run, acts, e);
  }

  // ----- how many steps a call can take -----

  /** Steps of its own a thread can still take before it returns, sleeps, or waits for the mutex for good. */
  function StepsLeft(pc: ThreadPc): int {
    match pc
    case Waiting(lo, hi, _, w, _) =>
      (match w
       case Scan(phase, k, cas) =>
         2 * (hi - k) - (if cas then 1 else 0) + if phase.Fast? then 2 * (hi - lo) + 2 else 1
       case Lock => 2 * (hi - lo) + 2
       case Woken(_) => 2 * (hi - lo) + 2
       case Block => 1
       case Unlock(_) => 1
       case _ => 0)
    case Signaling(_, g) =>
      (match g
       case Store => 4
       case NeedLock => 3
       case Notify => 2
       case Release => 1
       case Finished => 0)
    case _ => 0
  }

  lemma OwnStepIsOneLess(s: State, t: nat)
    requires InRange(s) && Enabled(s, Step(t))
    ensures t in Next(s, Step(t)).pcs
    ensures 0 <= StepsLeft(Next(s, Step(t)).pcs[t]) < StepsLeft(s.pcs[t])
  {
    assert PcInRange(|s.events|, s.pcs[t]);
  }

  predicate WokenUp(pc: ThreadPc, pc': ThreadPc) {
    Sleeping(pc) && !Sleeping(pc')
  }

  lemma OtherActionsAddNothing(s: State, a: Action, t: nat)
    requires InRange(s) && Enabled(s, a) && t in s.pcs && a != Step(t) && !s.pcs[t].Idle?
    ensures t in Next(s, a).pcs
    ensures StepsLeft(Next(s, a).pcs[t]) <=
            StepsLeft(s.pcs[t]) + if WokenUp(s.pcs[t], Next(s, a).pcs[t]) then 2 * |s.events| + 2 else 0
  {
    assert PcInRange(|s.events|, s.pcs[t]);
  }

  /** The steps of thread t itself, and its wakeups, between states m and n. */
  function OwnSteps(acts: seq<Action>, t: nat, m: nat, n: nat): int
    requires m <= n <= |acts|
  {
    if m == n then 0 else OwnSteps(acts, t, m, n - 1) + if acts[n - 1] == Step(t) then 1 else 0
  }

  function Wakeups(run: seq<State>, t: nat, m: nat, n: nat): nat
    requires m <= n < |run| && forall q: nat :: m <= q <= n ==> t in run[q].pcs
  {
    if m == n then 0 else Wakeups(run, t, m, n - 1) + if WokenUp(run[n - 1].pcs[t], run[n].pcs[t]) then 1 else 0
  }

  /** One action in the balance of thread t: a step of its own, what is left, and a wakeup. */
  lemma ActionBalance(s: State, a: Action, t: nat)
    requires InRange(s) && Enabled(s, a) && t in s.pcs && !s.pcs[t].Idle? && a != Return(t)
    ensures t in Next(s, a).pcs
    ensures (if a == Step(t) then 1 else 0) + StepsLeft(Next(s, a).pcs[t]) <=
            StepsLeft(s.pcs[t]) + if WokenUp(s.pcs[t], Next(s, a).pcs[t]) then 2 * |s.events| + 2 else 0
  {
    if a == Step(t) {
      OwnStepIsOneLess(s, t);
    } else {
      OtherActionsAddNothing(s, a, t);
    }
  }

  lemma StepsLeftIsNatural(run: seq<State>, acts: seq<Action>, n: nat, t: nat)
    requires IsRun(run, acts) && n < |run| && t in run[n].pcs
    ensures StepsLeft(run[n].pcs[t]) >= 0
  {
    RunKeepsInv(run, acts, n);
    assert PcInRange(|run[n].events|, run[n].pcs[t]);
  }

  lemma BalanceInRun(run: seq<State>, acts: seq<Action>, n: nat, t: nat)
    requires IsRun(run, acts) && n < |acts| && t in run[n].pcs && !run[n].pcs[t].Idle? && acts[n] != Return(t)
    ensures t in run[n + 1].pcs && |run[n + 1].events| == |run[n].events|
    ensures (if acts[n] == Step(t) then 1 else 0) + StepsLeft(run[n + 1].pcs[t]) <=
            StepsLeft(run[n].pcs[t]) + if WokenUp(run[n].pcs[t], run[n + 1].pcs[t]) then 2 * |run[n].events| + 2 else 0
  {
    NextKeepsRange(run[n], acts[n]);
    ActionBalance(run[n], acts[n], t);
  }

  lemma CallBeginsWith(run: seq<State>, acts: seq<Action>, m: nat, t: nat)
    requires IsRun(run, acts) && m < |acts| && CallOf(acts[m], t)
    ensures t in run[m + 1].pcs && |run[m + 1].events| == |run[m].events|
    ensures StepsLeft(run[m + 1].pcs[t]) <= 4 * |run[m].events| + 2
  {
    NextKeepsRange(run[m], acts[m]);
  }

  lemma InCallIsNotIdle(run: seq<State>, acts: seq<Action>, m: nat, n: nat, t: nat)
    requires IsRun(run, acts) && InCall(acts, m, n, t)
    ensures t in run[n].pcs && !run[n].pcs[t].Idle?
  {
    CallStays(run, acts, m, n, t);
  }

  /** The steps that the wakeups allow: `each` for every one. */
  function Allowance(run: seq<State>, t: nat, m: nat, n: nat, each: nat): nat
    requires m <= n < |run| && forall q: nat :: m <= q <= n ==> t in run[q].pcs
  {
    if m == n then 0
    else Allowance(run, t, m, n - 1, each) + if WokenUp(run[n - 1].pcs[t], run[n].pcs[t]) then each else 0
  }

  lemma {:induction false} AllowanceIsProduct(run: seq<State>, t: nat, m: nat, n: nat, each: nat)
    requires m <= n < |run| && forall q: nat :: m <= q <= n ==> t in run[q].pcs
    ensures Allowance(run, t, m, n, each) == each * Wakeups(run, t, m, n)
  {
    if m < n {
      AllowanceIsProduct(run, t, m, n - 1, each);
      var before := Wakeups(run, t, m, n - 1);
      assert each * (before + 1) == each * before + each;
    }
  }

  /** From state m to state n every action is balanced for thread t. */
  ghost predicate Balanced(run: seq<State>, acts: seq<Action>, t: nat, m: nat, n: nat, each: nat)
    requires m <= n < |run| && n <= |acts|
  {
    && (forall q: nat :: m <= q <= n ==> t in run[q].pcs)
    && forall i: nat {:trigger acts[i]} :: m <= i < n ==>
         (if acts[i] == Step(t) then 1 else 0) + StepsLeft(run[i + 1].pcs[t]) <=
         StepsLeft(run[i].pcs[t]) + if WokenUp(run[i].pcs[t], run[i + 1].pcs[t]) then each else 0
  }

  lemma {:induction false} BalancesAddUp(run: seq<State>, acts: seq<Action>, t: nat, m: nat, n: nat, each: nat)
    requires m <= n < |run| && n <= |acts| && Balanced(run, acts, t, m, n, each)
    ensures OwnSteps(acts, t, m, n) + StepsLeft(run[n].pcs[t]) <=
            StepsLeft(run[m].pcs[t]) + Allowance(run, t, m, n, each)
  {
    if m < n {
      BalancesAddUp(run, acts, t, m, n - 1, each);
      assert acts[n - 1] == Step(t) || acts[n - 1] != Step(t);
    }
  }

  lemma {:induction false} EventsStay(run: seq<State>, acts: seq<Action>, m: nat, n: nat)
    requires IsRun(run, acts) && m <= n < |run|
    ensures |run[n].events| == |run[m].events|
  {
    if m < n {
      EventsStay(run, acts, m, n - 1);
      NextKeepsRange(run[n - 1], acts[n - 1]);
    }
  }

  lemma CallIsBalanced(run: seq<State>, acts: seq<Action>, m: nat, n: nat, t: nat)
    requires IsRun(run, acts) && InCall(acts, m, n, t)
    ensures Balanced(run, acts, t, m + 1, n, 2 * |run[m].events| + 2)
  {
    forall q: nat | m < q <= n
      ensures t in run[q].pcs
    {
      InCallIsNotIdle(run, acts, m, q, t);
    }
    forall i: nat | m < i < n
      ensures (if acts[i] == Step(t) then 1 else 0) + StepsLeft(run[i + 1].pcs[t]) <=
              StepsLeft(run[i].pcs[t])
              + if WokenUp(run[i].pcs[t], run[i + 1].pcs[t]) then 2 * |run[m].events| + 2 else 0
    {
      InCallIsNotIdle(run, acts, m, i, t);
      EventsStay(run, acts, m, i);
      BalanceInRun(run, acts, i, t);
    }
  }

  lemma WithinAllowance(run: seq<State>, acts: seq<Action>, t: nat, m: nat, n: nat, each: nat, start: int)
    requires m <= n < |run| && n <= |acts| && Balanced(run, acts, t, m, n, each)
    requires StepsLeft(run[m].pcs[t]) <= start && StepsLeft(run[n].pcs[t]) >= 0
    ensures OwnSteps(acts, t, m, n) <= start + each * Wakeups(run, t, m, n)
  {
    BalancesAddUp(run, acts, t, m, n, each);
    AllowanceIsProduct(run, t, m, n, each);
  }

  /**
   A call takes at most 4 N + 2 steps of its own on a group of N flags, and 2 N + 2 more for each
   time it is woken up: no scan goes round in circles, with or without the mutex.
   */
  lemma CallTakesBoundedSteps(run: seq<State>, acts: seq<Action>, m: nat, n: nat, t: nat, N: nat, each: nat)
    requires IsRun(run, acts) && InCall(acts, m, n, t)
    requires N == |run[m].events| && each == 2 * N + 2
    ensures forall q: nat :: m < q <= n ==> t in run[q].pcs
    ensures OwnSteps(acts, t, m + 1, n) <= 4 * N + 2 + each * Wakeups(run, t, m + 1, n)
  {
    CallIsBalanced(run, acts, m, n, t);
    CallBeginsWith(run, acts, m, t);
    StepsLeftIsNatural(run, acts, n, t);
    WithinAllowance(run, acts, t, m + 1, n, each, 4 * N + 2);
  }

  // ----- every signal stores once -----

  /** The threads that have called signal(i) and not yet stored the flag. */
  ghost function AboutToStore(s: State, i: nat): set<nat> {
    set t | t in s.pcs && s.pcs[t] == Signaling(i, Signal.Store)
  }

  /** The calls of signal(i) among the first n actions. */
  ghost function SignalsGiven(acts: seq<Action>, i: nat, n: nat): nat
    requires n <= |acts|
  {
    if n == 0 then 0
    else SignalsGiven(acts, i, n - 1) + if acts[n - 1].CallSignal? && acts[n - 1].i == i then 1 else 0
  }

  ghost predicate Stores(s: State, a: Action, i: nat) {
    a.Step? && a.t in s.pcs && s.pcs[a.t] == Signaling(i, Signal.Store)
  }

  lemma StoreStep(s: State, a: Action, i: nat)
    requires InRange(s) && Enabled(s, a) && i < |s.events|
    ensures |Next(s, a).stores| == |s.stores|
    ensures Next(s, a).stores[i] == s.stores[i] + if Stores(s, a, i) then 1 else 0
    ensures AboutToStore(Next(s, a), i) ==
            if Stores(s, a, i) then AboutToStore(s, i) - {a.t}
            else if a.CallSignal? && a.i == i then AboutToStore(s, i) + {a.t}
            else AboutToStore(s, i)
    ensures a.CallSignal? ==> a.t !in AboutToStore(s, i)
  {
  }

  /** Each call of signal(i) stores the flag once: so many stores, and so many are still to come. */
  lemma {:induction false} EverySignalStoresOnce(run: seq<State>, acts: seq<Action>, n: nat, i: nat)
    requires IsRun(run, acts) && n < |run| && i < |run[n].events|
    ensures |run[n].stores| == |run[n].events| == |run[0].events|
    ensures run[n].stores[i] + |AboutToStore(run[n], i)| == SignalsGiven(acts, i, n)
  {
    RunKeepsInv(run, acts, n);
    if n == 0 {
      assert AboutToStore(run[0], i) == {};
    } else {
      RunKeepsInv(run, acts, n - 1);
      NextKeepsRange(run[n - 1], acts[n - 1]);
      EverySignalStoresOnce(run, acts, n - 1, i);
      StoreStep(run[n - 1], acts[n - 1], i);
    }
  }
}
