/**
 Every signal of a group behaves as a standalone Signal: a run of the group whose threads use
 only wait(index) and signal(index), watched at one index, is a run of Signal in which the
 traffic of the other indices shows up as nothing, or as spurious wakeups.
 */
module SignalRefinement {
  import opened Bytes
  import Signal
  import G = SignalGroup

  function WatchWait(w: G.ScanPc): Signal.WaitPc {
    match w
    case Scan(Fast, _, cas) => if cas then Signal.FastCas else Signal.FastLoad
    case Scan(Held, _, cas) => if cas then Signal.Cas else Signal.Load
    case Scan(Last, _, cas) => if cas then Signal.LastCas else Signal.LastLoad
    case Lock => Signal.Lock
    case Block => Signal.Block
    case Asleep => Signal.Asleep
    case Woken(late) => Signal.Woken(late)
    case Unlock(r) => Signal.Unlock(r.Some?)
    case Done(r) => Signal.Done(r.Some?)
  }

  /** Is the thread inside a call on index i? */
  predicate On(pc: G.ThreadPc, i: nat) {
    (pc.Waiting? && pc.lo == i) || (pc.Signaling? && pc.i == i)
  }

  function WatchPc(pc: G.ThreadPc, i: nat): Signal.ThreadPc {
    if !On(pc, i) then Signal.Idle
    else if pc.Waiting? then Signal.Waiting(pc.patience, WatchWait(pc.w))
    else Signal.Signaling(pc.g)
  }

  /** What index i of the group looks like from outside. */
  function Watch(s: G.State, i: nat): Signal.State
    requires i < |s.events|
  {
    var owner := if s.owner.Some? && s.owner.value in s.pcs && On(s.pcs[s.owner.value], i) then s.owner else None;
    Signal.State(Signal.Shared(s.events[i], owner), map t | t in s.pcs :: WatchPc(s.pcs[t], i))
  }

  function SleepersOn(s: G.State, i: nat): set<nat> {
    set t | t in s.pcs && G.Sleeping(s.pcs[t]) && On(s.pcs[t], i)
  }

  /** The step of the watched Signal that a step of the group stands for; None: it shows nothing. */
  function WatchAction(s: G.State, a: G.Action, i: nat): Option<Signal.Action>
    requires G.Enabled(s, a)
  {
    match a
    case CallWait(t, k, patience) => if k == i then Some(Signal.CallWait(t, patience)) else None
    case CallWaitOne(_, _) => None
    case CallSignal(t, k) => if k == i then Some(Signal.CallSignal(t)) else None
    case Step(t) =>
      if On(s.pcs[t], i) then Some(Signal.Step(t))
      else if s.pcs[t].Signaling? && s.pcs[t].g.Notify? then Some(Signal.Wake(SleepersOn(s, i)))
      else None
    case Return(t) => if On(s.pcs[t], i) then Some(Signal.Return(t)) else None
    case Wake(ts) => Some(Signal.Wake(ts * SleepersOn(s, i)))
    case Timeout(t) => if On(s.pcs[t], i) then Some(Signal.Timeout(t)) else None
  }

  /** No thread is inside waitOne. */
  ghost predicate SingleWaits(s: G.State) {
    forall t :: t in s.pcs && s.pcs[t].Waiting? ==> s.pcs[t].hi == s.pcs[t].lo + 1
  }

  ghost predicate Refines(s: G.State, a: G.Action, s': G.State, i: nat)
    requires G.Enabled(s, a) && i < |s.events| && i < |s'.events|
  {
    match WatchAction(s, a, i)
    case None => Watch(s', i) == Watch(s, i)
    case Some(b) => Signal.Enabled(Watch(s, i), b) && Watch(s', i) == Signal.Next(Watch(s, i), b)
  }

  /** What a step of thread t leaves alone. */
  lemma StepFrame(s: G.State, t: nat, i: nat)
    requires G.InRange(s) && SingleWaits(s) && G.Enabled(s, G.Step(t)) && i < |s.events|
    ensures var s' := G.Next(s, G.Step(t));
            && s'.pcs.Keys == s.pcs.Keys
            && |s'.events| == |s.events|
            && On(s'.pcs[t], i) == On(s.pcs[t], i)
            && (!On(s.pcs[t], i) ==> s'.events[i] == s.events[i])
            && (s'.owner == s.owner || s'.owner == Some(t) || (s'.owner == None && G.Holds(s.pcs[t])))
            && forall u :: u in s.pcs && u != t ==>
                 s'.pcs[u] == if G.NotifiesAll(s, G.Step(t)) then G.Wakened(s.pcs[u]) else s.pcs[u]
  {
    if s.pcs[t].Waiting? {
      match s.pcs[t].w
      case Scan(_, _, _) =>
      case _ =>
    } else {
      match s.pcs[t].g
      case Notify =>
      case _ =>
    }
  }

  lemma WakenedWatch(pc: G.ThreadPc, i: nat)
    ensures On(G.Wakened(pc), i) == On(pc, i)
    ensures WatchPc(G.Wakened(pc), i) == Signal.Wakened(WatchPc(pc, i))
  {
  }

  /** A wait step on the watched index is the same step of the watched Signal. */
  lemma WaitStepRefines(s: G.State, t: nat, i: nat)
    requires G.InRange(s) && G.MutexInv(s) && SingleWaits(s) && i < |s.events|
    requires G.Enabled(s, G.Step(t)) && s.pcs[t].Waiting? && s.pcs[t].lo == i
    ensures Signal.Enabled(Watch(s, i), Signal.Step(t))
    ensures Watch(G.Next(s, G.Step(t)), i) == Signal.Next(Watch(s, i), Signal.Step(t))
  {
    var s', p := G.Next(s, G.Step(t)), Watch(s, i);
    StepFrame(s, t, i);
    assert G.Holds(s.pcs[t]) <==> s.owner == Some(t);
    WaitStepWatched(s, t, i);
    var (sh, w') := Signal.WaitStep(p.sh, t, s.pcs[t].patience, WatchWait(s.pcs[t].w));
    assert Watch(s', i).pcs == p.pcs[t := Signal.Waiting(s.pcs[t].patience, w')];
  }

  /** The thread's own part of a wait step: flag, mutex and program counter. */
  lemma WaitStepWatched(s: G.State, t: nat, i: nat)
    requires G.InRange(s) && G.MutexInv(s) && SingleWaits(s) && i < |s.events|
    requires G.Enabled(s, G.Step(t)) && s.pcs[t].Waiting? && s.pcs[t].lo == i
    ensures |G.Next(s, G.Step(t)).events| == |s.events| && t in G.Next(s, G.Step(t)).pcs
    ensures var s', sh := G.Next(s, G.Step(t)), Watch(s, i).sh;
            && Signal.WaitReady(sh, WatchWait(s.pcs[t].w))
            && (Watch(s', i).sh, WatchPc(s'.pcs[t], i)) ==
               (var r := Signal.WaitStep(sh, t, s.pcs[t].patience, WatchWait(s.pcs[t].w));
                (r.0, Signal.Waiting(s.pcs[t].patience, r.1)))
  {
    assert G.Holds(s.pcs[t]) <==> s.owner == Some(t);
    var pc := s.pcs[t];
    match pc.w
    case Scan(phase, k, cas) =>
      assert G.AfterMiss(pc.hi, pc.patience, phase, k) ==
             match phase {
               case Fast => if pc.patience.TryOnly? then G.Done(None) else G.Lock
               case Held => G.Block
               case Last => G.Unlock(None)
             };
    case _ =>
  }

  lemma SignalStepRefines(s: G.State, t: nat, i: nat)
    requires G.InRange(s) && G.MutexInv(s) && SingleWaits(s) && i < |s.events|
    requires G.Enabled(s, G.Step(t)) && s.pcs[t].Signaling? && s.pcs[t].i == i
    ensures Signal.Enabled(Watch(s, i), Signal.Step(t))
    ensures Watch(G.Next(s, G.Step(t)), i) == Signal.Next(Watch(s, i), Signal.Step(t))
  {
    SignalStepWatched(s, t, i);
    var s', p' := G.Next(s, G.Step(t)), Signal.Next(Watch(s, i), Signal.Step(t));
    forall u | u in s.pcs
      ensures WatchPc(s'.pcs[u], i) == p'.pcs[u]
    {
      WakenedWatch(s.pcs[u], i);
    }
    assert Watch(s', i).pcs == p'.pcs;
  }

  /** What a signal step on the watched index does to flag, mutex and threads. */
  lemma SignalStepWatched(s: G.State, t: nat, i: nat)
    requires G.InRange(s) && G.MutexInv(s) && SingleWaits(s) && i < |s.events|
    requires G.Enabled(s, G.Step(t)) && s.pcs[t].Signaling? && s.pcs[t].i == i
    ensures Signal.SignalReady(Watch(s, i).sh, s.pcs[t].g)
    ensures var s', r := G.Next(s, G.Step(t)), Signal.SignalStep(Watch(s, i).sh, t, s.pcs[t].g);
            && s'.pcs.Keys == s.pcs.Keys && |s'.events| == |s.events|
            && Watch(s', i).sh == r.0 && s'.pcs[t] == G.Signaling(i, r.1)
            && forall u :: u in s.pcs && u != t ==>
                 s'.pcs[u] == if s.pcs[t].g.Notify? then G.Wakened(s.pcs[u]) else s.pcs[u]
  {
    StepFrame(s, t, i);
    assert G.Holds(s.pcs[t]) <==> s.owner == Some(t);
  }

  lemma OtherStepWatched(s: G.State, t: nat, i: nat)
    requires G.InRange(s) && G.MutexInv(s) && SingleWaits(s) && i < |s.events|
    requires G.Enabled(s, G.Step(t)) && !On(s.pcs[t], i)
    ensures var s' := G.Next(s, G.Step(t));
            && s'.pcs.Keys == s.pcs.Keys && |s'.events| == |s.events|
            && Watch(s', i).sh == Watch(s, i).sh
            && forall u :: u in s.pcs ==>
                 WatchPc(s'.pcs[u], i) ==
                 if G.NotifiesAll(s, G.Step(t)) then Signal.Wakened(WatchPc(s.pcs[u], i)) else WatchPc(s.pcs[u], i)
  {
    StepFrame(s, t, i);
    assert G.Holds(s.pcs[t]) <==> s.owner == Some(t);
    forall u | u in s.pcs
      ensures WatchPc(G.Wakened(s.pcs[u]), i) == Signal.Wakened(WatchPc(s.pcs[u], i))
      ensures On(G.Wakened(s.pcs[u]), i) == On(s.pcs[u], i)
    {
      WakenedWatch(s.pcs[u], i);
    }
  }

  /** Waking every sleeper of a Signal is one spurious wakeup of all of them. */
  lemma WakingAllSleepers(p: Signal.State, p': Signal.State, ts: set<nat>)
    requires p'.sh == p.sh && p'.pcs.Keys == p.pcs.Keys
    requires forall u :: u in p.pcs ==> p'.pcs[u] == Signal.Wakened(p.pcs[u])
    requires forall u :: u in ts <==> u in p.pcs && Signal.Sleeping(p.pcs[u])
    ensures Signal.Enabled(p, Signal.Wake(ts)) && p' == Signal.Next(p, Signal.Wake(ts))
  {
    assert p'.pcs == Signal.WakeAll(p.pcs, ts);
  }

  lemma OtherNotifyRefines(s: G.State, t: nat, i: nat)
    requires G.InRange(s) && G.MutexInv(s) && SingleWaits(s) && i < |s.events|
    requires G.Enabled(s, G.Step(t)) && !On(s.pcs[t], i) && G.NotifiesAll(s, G.Step(t))
    ensures |G.Next(s, G.Step(t)).events| == |s.events|
    ensures var p, ts := Watch(s, i), SleepersOn(s, i);
            Signal.Enabled(p, Signal.Wake(ts)) && Watch(G.Next(s, G.Step(t)), i) == Signal.Next(p, Signal.Wake(ts))
  {
    OtherStepWatched(s, t, i);
    WakingAllSleepers(Watch(s, i), Watch(G.Next(s, G.Step(t)), i), SleepersOn(s, i));
  }

  lemma OtherStepUnseen(s: G.State, t: nat, i: nat)
    requires G.InRange(s) && G.MutexInv(s) && SingleWaits(s) && i < |s.events|
    requires G.Enabled(s, G.Step(t)) && !On(s.pcs[t], i) && !G.NotifiesAll(s, G.Step(t))
    ensures |G.Next(s, G.Step(t)).events| == |s.events|
    ensures Watch(G.Next(s, G.Step(t)), i) == Watch(s, i)
  {
    OtherStepWatched(s, t, i);
    assert Watch(G.Next(s, G.Step(t)), i).pcs == Watch(s, i).pcs;
  }

  /** A step on another index shows nothing, or wakes the watched sleepers. */
  lemma OtherStepRefines(s: G.State, t: nat, i: nat)
    requires G.InRange(s) && G.MutexInv(s) && SingleWaits(s) && i < |s.events|
    requires G.Enabled(s, G.Step(t)) && !On(s.pcs[t], i)
    ensures |G.Next(s, G.Step(t)).events| == |s.events|
    ensures Refines(s, G.Step(t), G.Next(s, G.Step(t)), i)
  {
    if G.NotifiesAll(s, G.Step(t)) {
      OtherNotifyRefines(s, t, i);
    } else {
      OtherStepUnseen(s, t, i);
    }
  }

  /** Changing the program counter of a thread outside the mutex changes only that in the watch. */
  lemma WatchOneThread(s: G.State, t: nat, pc: G.ThreadPc, i: nat)
    requires G.MutexInv(s) && i < |s.events| && t in s.pcs && !G.Holds(s.pcs[t])
    ensures Watch(s.(pcs := s.pcs[t := pc]), i) ==
            Watch(s, i).(pcs := Watch(s, i).pcs[t := WatchPc(pc, i)])
  {
    var s' := s.(pcs := s.pcs[t := pc]);
    assert s.owner != Some(t);
    assert Watch(s', i).sh == Watch(s, i).sh;
    assert Watch(s', i).pcs == Watch(s, i).pcs[t := WatchPc(pc, i)];
  }

  /** Calls, returns and timeouts of one thread. */
  lemma CallRefines(s: G.State, a: G.Action, i: nat)
    requires G.InRange(s) && G.MutexInv(s) && i < |s.events| && G.Enabled(s, a)
    requires a.CallWait? || a.CallSignal? || a.Return? || a.Timeout?
    ensures Refines(s, a, G.Next(s, a), i)
  {
    var p := Watch(s, i);
    var pc' := G.Next(s, a).pcs[a.t];
    WatchOneThread(s, a.t, pc', i);
    if WatchAction(s, a, i) == None {
      CallUnseen(s, a, i);
      assert p.pcs[a.t := p.pcs[a.t]] == p.pcs;
    }
  }

  /** A call on another index looks like nothing. */
  lemma CallUnseen(s: G.State, a: G.Action, i: nat)
    requires G.InRange(s) && i < |s.events| && G.Enabled(s, a) && WatchAction(s, a, i) == None
    requires a.CallWait? || a.CallSignal? || a.Return? || a.Timeout?
    ensures a.t in s.pcs && a.t in G.Next(s, a).pcs
    ensures WatchPc(G.Next(s, a).pcs[a.t], i) == WatchPc(s.pcs[a.t], i)
  {
  }

  lemma SpuriousWakeRefines(s: G.State, ts: set<nat>, i: nat)
    requires G.InRange(s) && G.MutexInv(s) && i < |s.events| && G.Enabled(s, G.Wake(ts))
    ensures Refines(s, G.Wake(ts), G.Next(s, G.Wake(ts)), i)
  {
    var s', p := G.Next(s, G.Wake(ts)), Watch(s, i);
    var b := Signal.Wake(ts * SleepersOn(s, i));
    forall u | u in s.pcs
      ensures On(s'.pcs[u], i) == On(s.pcs[u], i)
      ensures WatchPc(s'.pcs[u], i) == Signal.Next(p, b).pcs[u]
    {
      WakenedWatch(s.pcs[u], i);
    }
    assert Watch(s', i).sh == p.sh;
    assert Watch(s', i).pcs == Signal.Next(p, b).pcs;
  }

  lemma NextKeepsSingleWaits(s: G.State, a: G.Action)
    requires G.InRange(s) && SingleWaits(s) && G.Enabled(s, a) && !a.CallWaitOne?
    ensures SingleWaits(G.Next(s, a))
  {
  }

  lemma StepRefines(s: G.State, a: G.Action, i: nat)
    requires G.InRange(s) && G.MutexInv(s) && SingleWaits(s) && i < |s.events|
    requires G.Enabled(s, a) && !a.CallWaitOne?
    ensures |G.Next(s, a).events| == |s.events| && Refines(s, a, G.Next(s, a), i)
    ensures SingleWaits(G.Next(s, a))
  {
    G.NextKeepsRange(s, a);
    NextKeepsSingleWaits(s, a);
    if a.Step? {
      if !On(s.pcs[a.t], i) {
        OtherStepRefines(s, a.t, i);
      } else if s.pcs[a.t].Waiting? {
        WaitStepRefines(s, a.t, i);
      } else {
        SignalStepRefines(s, a.t, i);
      }
    } else if a.Wake? {
      SpuriousWakeRefines(s, a.ts, i);
    } else {
      CallRefines(s, a, i);
    }
  }

  lemma {:induction false} RunKeepsSingleWaits(run: seq<G.State>, acts: seq<G.Action>, n: nat)
    requires G.IsRun(run, acts) && n < |run| && (forall m: nat :: m < |acts| ==> !acts[m].CallWaitOne?)
    ensures SingleWaits(run[n]) && |run[n].events| == |run[0].events|
  {
    if n > 0 {
      RunKeepsSingleWaits(run, acts, n - 1);
      G.RunKeepsInv(run, acts, n - 1);
      StepRefines(run[n - 1], acts[n - 1], 0);
    }
  }

  /** The initial state of a standalone Signal. */
  ghost predicate SignalInit(p: Signal.State) {
    !p.sh.e && p.sh.owner == None && forall t :: t in p.pcs ==> p.pcs[t] == Signal.Idle
  }

  /**
   Each signal of a group is a Signal: watched at index i, a run without waitOne starts as a fresh
   Signal and every step of it is a step of that Signal or changes nothing.
   */
  lemma GroupRunIsSignalRun(run: seq<G.State>, acts: seq<G.Action>, i: nat)
    requires G.IsRun(run, acts) && i < |run[0].events|
    requires forall m: nat :: m < |acts| ==> !acts[m].CallWaitOne?
    ensures forall n: nat :: n < |run| ==> |run[n].events| == |run[0].events|
    ensures SignalInit(Watch(run[0], i))
    ensures forall n: nat :: n < |acts| ==>
              G.Enabled(run[n], acts[n]) && Refines(run[n], acts[n], run[n + 1], i)
  {
    forall n: nat | n < |run|
      ensures |run[n].events| == |run[0].events|
    {
      RunKeepsSingleWaits(run, acts, n);
    }
    forall n: nat | n < |acts|
      ensures G.Enabled(run[n], acts[n]) && Refines(run[n], acts[n], run[n + 1], i)
    {
      RunKeepsSingleWaits(run, acts, n);
      G.RunKeepsInv(run, acts, n);
      StepRefines(run[n], acts[n], i);
    }
  }
}
