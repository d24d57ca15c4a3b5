/**
 SignalGroup: several sticky flags sharing one mutex and one condition variable, used by any
 number of threads. Flags are stored outside the lock, notify_all runs inside it, and waitOne
 scans the flags one atomic access at a time. wait(i) is the scan of the single index i.
 */
module SignalGroup {
  import opened Bytes
  import Signal

  datatype Phase = Fast | Held | Last     // first try without the lock; under the lock; after a timeout

  datatype ScanPc =
    | Scan(phase: Phase, k: nat, cas: bool)   // at flag k: about to load it, or to compare-exchange it
    | Lock | Block | Asleep
    | Woken(late: bool)
    | Unlock(r: Option<nat>)
    | Done(r: Option<nat>)                    // None: false, or NO_SIGNALS

  datatype ThreadPc =
    | Idle
    | Waiting(lo: nat, hi: nat, patience: Signal.Patience, w: ScanPc,
              took: seq<nat>)                 // history: the flags consumed by this call
    | Signaling(i: nat, g: Signal.SignalPc)
    | Thrown                                  // index out of range

  datatype State = State(
    events: seq<bool>, owner: Option<nat>, pcs: map<nat, ThreadPc>,
    stores: seq<nat>,       // history: stores of each flag
    rises: seq<nat>,        // history: those that found it at 0
    consumes: seq<nat>)     // history: successful compare-exchanges of each flag

  datatype Action =
    | CallWait(t: nat, i: nat, patience: Signal.Patience)
    | CallWaitOne(t: nat, patience: Signal.Patience)
    | CallSignal(t: nat, i: nat)
    | Step(t: nat) | Return(t: nat)
    | Wake(ts: set<nat>)
    | Timeout(t: nat)

  ghost predicate Init(s: State) {
    var n := |s.events|;
    && n > 0 && s.owner == None
    && |s.stores| == |s.rises| == |s.consumes| == n
    && (forall i: nat :: i < n ==> !s.events[i] && s.stores[i] == s.rises[i] == s.consumes[i] == 0)
    && (forall t :: t in s.pcs ==> s.pcs[t] == Idle)
  }

  /** Every scan position and index is inside the group. */
  predicate PcInRange(n: nat, pc: ThreadPc) {
    match pc
    case Waiting(lo, hi, _, w, _) => lo < hi <= n && (w.Scan? ==> lo <= w.k < hi)
    case Signaling(i, _) => i < n
    case _ => true
  }

  predicate InRange(s: State) {
    && |s.events| > 0
    && |s.stores| == |s.rises| == |s.consumes| == |s.events|
    && forall t :: t in s.pcs ==> PcInRange(|s.events|, s.pcs[t])
  }

  predicate Holds(pc: ThreadPc) {
    match pc
    case Waiting(_, _, _, w, _) => (w.Scan? && !w.phase.Fast?) || w.Block? || w.Unlock?
    case Signaling(_, g) => Signal.SignalHolds(g)
    case _ => false
  }

  predicate Sleeping(pc: ThreadPc) {
    pc.Waiting? && pc.w.Asleep?
  }

  predicate NeedsLock(pc: ThreadPc) {
    (pc.Waiting? && (pc.w.Lock? || pc.w.Woken?)) || (pc.Signaling? && pc.g.NeedLock?)
  }

  predicate Finished(pc: ThreadPc) {
    (pc.Waiting? && pc.w.Done?) || (pc.Signaling? && pc.g.Finished?) || pc.Thrown?
  }

  predicate Enabled(s: State, a: Action) {
    match a
    case CallWait(t, _, _) => t in s.pcs && s.pcs[t].Idle?
    case CallWaitOne(t, _) => t in s.pcs && s.pcs[t].Idle?
    case CallSignal(t, _) => t in s.pcs && s.pcs[t].Idle?
    case Step(t) =>
      && t in s.pcs && !s.pcs[t].Idle? && !Finished(s.pcs[t]) && !Sleeping(s.pcs[t])
      && (NeedsLock(s.pcs[t]) ==> s.owner == None)
    case Return(t) => t in s.pcs && Finished(s.pcs[t])
    case Wake(ts) => forall t :: t in ts ==> t in s.pcs && Sleeping(s.pcs[t])
    case Timeout(t) => t in s.pcs && Sleeping(s.pcs[t]) && s.pcs[t].patience.Deadline?
  }

  /** Flag k was seen at 0: go on to the next one, or end this scan. */
  function AfterMiss(hi: nat, patience: Signal.Patience, phase: Phase, k: nat): ScanPc {
    if k + 1 < hi then Scan(phase, k + 1, false)
    else match phase
      case Fast => if patience.TryOnly? then Done(None) else Lock
      case Held => Block
      case Last => Unlock(None)
  }

  function Wakened(pc: ThreadPc): ThreadPc {
    if Sleeping(pc) then pc.(w := Woken(false)) else pc
  }

  function WakeAll(pcs: map<nat, ThreadPc>, ts: set<nat>): map<nat, ThreadPc> {
    map t | t in pcs :: if t in ts then Wakened(pcs[t]) else pcs[t]
  }

  function Next(s: State, a: Action): State
    requires InRange(s) && Enabled(s, a)
  {
    match a
    case CallWait(t, i, patience) =>
      var pc := if i < |s.events| then Waiting(i, i + 1, patience, Scan(Fast, i, false), []) else Thrown;
      s.(pcs := s.pcs[t := pc])
    case CallWaitOne(t, patience) =>
      s.(pcs := s.pcs[t := Waiting(0, |s.events|, patience, Scan(Fast, 0, false), [])])
    case CallSignal(t, i) =>
      s.(pcs := s.pcs[t := if i < |s.events| then Signaling(i, Signal.Store) else Thrown])
    case Return(t) => s.(pcs := s.pcs[t := Idle])
    case Wake(ts) => s.(pcs := WakeAll(s.pcs, ts))
    case Timeout(t) => s.(pcs := s.pcs[t := s.pcs[t].(w := Woken(true))])
    case Step(t) => if s.pcs[t].Waiting? then WaitNext(s, t) else SignalNext(s, t)
  }

  function WaitNext(s: State, t: nat): State
    requires InRange(s) && Enabled(s, Step(t)) && s.pcs[t].Waiting?
  {
    var pc := s.pcs[t];
    match pc.w
    case Scan(phase, k, cas) =>
      if !s.events[k] then
        s.(pcs := s.pcs[t := pc.(w := AfterMiss(pc.hi, pc.patience, phase, k))])
      else if !cas then
        s.(pcs := s.pcs[t := pc.(w := Scan(phase, k, true))])
      else
        s.(events := s.events[k := false],
           consumes := s.consumes[k := s.consumes[k] + 1],
           pcs := s.pcs[t := pc.(w := if phase.Fast? then Done(Some(k)) else Unlock(Some(k)), took := pc.took + [k])])
    case Lock => s.(owner := Some(t), pcs := s.pcs[t := pc.(w := Scan(Held, pc.lo, false))])
    case Block => s.(owner := None, pcs := s.pcs[t := pc.(w := Asleep)])
    case Woken(late) =>
      s.(owner := Some(t), pcs := s.pcs[t := pc.(w := Scan(if late then Last else Held, pc.lo, false))])
    case Unlock(r) => s.(owner := None, pcs := s.pcs[t := pc.(w := Done(r))])
  }

  function SignalNext(s: State, t: nat): State
    requires InRange(s) && Enabled(s, Step(t)) && s.pcs[t].Signaling?
  {
    var i := s.pcs[t].i;
    match s.pcs[t].g
    case Store =>
      s.(events := s.events[i := true],
         stores := s.stores[i := s.stores[i] + 1],
         rises := if s.events[i] then s.rises else s.rises[i := s.rises[i] + 1],
         pcs := s.pcs[t := Signaling(i, Signal.NeedLock)])
    case NeedLock => s.(owner := Some(t), pcs := s.pcs[t := Signaling(i, Signal.Notify)])
    case Notify => s.(pcs := WakeAll(s.pcs, s.pcs.Keys)[t := Signaling(i, Signal.Release)])
    case Release => s.(owner := None, pcs := s.pcs[t := Signaling(i, Signal.Finished)])
  }

  // ----- invariants -----

  /** The mutex is held by exactly the thread inside its critical section. */
  ghost predicate MutexInv(s: State) {
    && (s.owner.Some? ==> s.owner.value in s.pcs)
    && forall t :: t in s.pcs ==> (Holds(s.pcs[t]) <==> s.owner == Some(t))
  }

  /** The thread relies on flag j being 0: it has passed it under the lock, or sleeps on it. */
  ghost predicate ReliesOnZero(pc: ThreadPc, j: nat) {
    && pc.Waiting? && pc.lo <= j < pc.hi
    && (pc.w.Block? || pc.w.Asleep? || (pc.w.Scan? && pc.w.phase.Held? && j < pc.w.k))
  }

  /** Thread u has stored flag j and not yet done its notify_all. */
  ghost predicate OwesNotify(pc: ThreadPc, j: nat) {
    pc.Signaling? && pc.i == j && (pc.g.NeedLock? || pc.g.Notify?)
  }

  ghost predicate NotifyPending(s: State, j: nat) {
    exists u :: u in s.pcs && OwesNotify(s.pcs[u], j)
  }

  ghost predicate WakeInv(s: State) {
    forall t, j: nat :: t in s.pcs && j < |s.events| && ReliesOnZero(s.pcs[t], j) && s.events[j]
      ==> NotifyPending(s, j)
  }

  ghost predicate CountInv(s: State)
    requires InRange(s)
  {
    forall i: nat :: i < |s.events| ==>
      s.consumes[i] + (if s.events[i] then 1 else 0) == s.rises[i] <= s.stores[i]
  }

  ghost function Answer(w: ScanPc): Option<nat> {
    if w.Done? || w.Unlock? then w.r else None
  }

  ghost predicate TookInv(pc: ThreadPc) {
    pc.Waiting? ==>
      match Answer(pc.w)
      case None => pc.took == []
      case Some(k) => pc.took == [k] && pc.lo <= k < pc.hi
  }

  ghost predicate Inv(s: State) {
    && InRange(s) && MutexInv(s) && WakeInv(s) && CountInv(s)
    && forall t :: t in s.pcs ==> TookInv(s.pcs[t])
  }

  lemma InitInv(s: State)
    requires Init(s)
    ensures Inv(s)
  {
  }

  lemma NextKeepsRange(s: State, a: Action)
    requires InRange(s) && Enabled(s, a)
    ensures InRange(Next(s, a)) && |Next(s, a).events| == |s.events|
  {
  }

  lemma NextKeepsMutexAt(s: State, a: Action, t: nat)
    requires InRange(s) && MutexInv(s) && Enabled(s, a) && t in Next(s, a).pcs
    ensures Holds(Next(s, a).pcs[t]) <==> Next(s, a).owner == Some(t)
  {
    assert t in s.pcs;
    match a
    case Step(u) =>
      assert Holds(s.pcs[u]) <==> s.owner == Some(u);
      if s.pcs[u].Waiting? {
        match s.pcs[u].w
        case Scan(_, _, _) =>
        case _ =>
      }
    case _ =>
  }

  lemma NextKeepsMutex(s: State, a: Action)
    requires InRange(s) && MutexInv(s) && Enabled(s, a)
    ensures MutexInv(Next(s, a))
  {
    assert s.pcs.Keys == Next(s, a).pcs.Keys;
    forall t | t in Next(s, a).pcs
      ensures Holds(Next(s, a).pcs[t]) <==> Next(s, a).owner == Some(t)
    {
      NextKeepsMutexAt(s, a, t);
    }
  }

  lemma NextKeepsCount(s: State, a: Action)
    requires InRange(s) && CountInv(s) && Enabled(s, a) && InRange(Next(s, a))
    ensures CountInv(Next(s, a))
  {
  }

  lemma NextKeepsTook(s: State, a: Action)
    requires InRange(s) && Enabled(s, a)
    requires forall t :: t in s.pcs ==> TookInv(s.pcs[t])
    ensures forall t :: t in Next(s, a).pcs ==> TookInv(Next(s, a).pcs[t])
  {
  }

  ghost predicate StoresFlag(s: State, a: Action, j: nat) {
    a.Step? && a.t in s.pcs && s.pcs[a.t].Signaling? && s.pcs[a.t].g.Store? && s.pcs[a.t].i == j
  }

  ghost predicate NotifiesAll(s: State, a: Action) {
    a.Step? && a.t in s.pcs && s.pcs[a.t].Signaling? && s.pcs[a.t].g.Notify?
  }

  /** Only passing flag j at 0 makes a thread rely on it, and only a store raises it. */
  lemma RelianceStepBack(s: State, a: Action, t: nat, j: nat)
    requires InRange(s) && Enabled(s, a) && !StoresFlag(s, a, j)
    requires t in Next(s, a).pcs && j < |Next(s, a).events|
    requires ReliesOnZero(Next(s, a).pcs[t], j) && Next(s, a).events[j]
    ensures t in s.pcs && ReliesOnZero(s.pcs[t], j) && s.events[j]
  {
  }

  /** A debt of notification is only paid by notify_all. */
  lemma DebtStepForward(s: State, a: Action, u: nat, j: nat)
    requires InRange(s) && Enabled(s, a) && !NotifiesAll(s, a)
    requires u in s.pcs && OwesNotify(s.pcs[u], j)
    ensures u in Next(s, a).pcs && OwesNotify(Next(s, a).pcs[u], j)
  {
  }

  /** Right after notify_all no thread relies on any flag: none sleeps, and the mutex is taken. */
  lemma NotifyLeavesNoReliance(s: State, a: Action, t: nat, j: nat)
    requires InRange(s) && MutexInv(s) && Enabled(s, a) && NotifiesAll(s, a)
    requires t in Next(s, a).pcs
    ensures !ReliesOnZero(Next(s, a).pcs[t], j)
  {
    assert Holds(s.pcs[a.t]);
  }

  lemma NextKeepsWakeInv(s: State, a: Action)
    requires InRange(s) && MutexInv(s) && WakeInv(s) && Enabled(s, a)
    ensures WakeInv(Next(s, a))
  {
    forall t, j: nat | && t in Next(s, a).pcs && j < |Next(s, a).events|
                       && ReliesOnZero(Next(s, a).pcs[t], j) && Next(s, a).events[j]
      ensures NotifyPending(Next(s, a), j)
    {
      if StoresFlag(s, a, j) {
        assert OwesNotify(Next(s, a).pcs[a.t], j);
      } else if NotifiesAll(s, a) {
        NotifyLeavesNoReliance(s, a, t, j);
      } else {
        RelianceStepBack(s, a, t, j);
        var u :| u in s.pcs && OwesNotify(s.pcs[u], j);
        DebtStepForward(s, a, u, j);
      }
    }
  }

  lemma NextKeepsInv(s: State, a: Action)
    requires Inv(s) && Enabled(s, a)
    ensures Inv(Next(s, a))
  {
    NextKeepsRange(s, a);
    NextKeepsMutex(s, a);
    NextKeepsCount(s, a);
    NextKeepsTook(s, a);
    NextKeepsWakeInv(s, a);
  }

  // ----- runs -----

  ghost predicate IsRun(run: seq<State>, acts: seq<Action>) {
    && |run| == |acts| + 1
    && Init(run[0])
    && forall i: nat :: i < |acts| ==>
         InRange(run[i]) && Enabled(run[i], acts[i]) && run[i + 1] == Next(run[i], acts[i])
  }

  lemma {:induction false} RunKeepsInv(run: seq<State>, acts: seq<Action>, n: nat)
    requires IsRun(run, acts) && n < |run|
    ensures Inv(run[n])
  {
    if n == 0 {
      InitInv(run[0]);
    } else {
      RunKeepsInv(run, acts, n - 1);
      NextKeepsInv(run[n - 1], acts[n - 1]);
    }
  }

  /** The flags a thread inside a wait is waiting for. */
  ghost predicate WaitsFor(pc: ThreadPc, j: nat) {
    pc.Waiting? && pc.lo <= j < pc.hi
  }

  /**
   No lost wakeup: a thread asleep while a flag it waits for is set implies that some signaler
   has stored that flag and has its notify_all still ahead.
   */
  lemma NoLostWakeup(run: seq<State>, acts: seq<Action>, n: nat, t: nat, j: nat)
    requires IsRun(run, acts) && n < |run|
    requires t in run[n].pcs && Sleeping(run[n].pcs[t]) && WaitsFor(run[n].pcs[t], j)
    requires j < |run[n].events| && run[n].events[j]
    ensures NotifyPending(run[n], j)
  {
    RunKeepsInv(run, acts, n);
  }

  /**
   When nothing can move any more without a new call, a timeout or a spurious wakeup, no thread
   sleeps on a set flag, and no thread is stuck on the mutex.
   */
  lemma QuietMeansNothingPending(run: seq<State>, acts: seq<Action>, n: nat)
    requires IsRun(run, acts) && n < |run|
    requires forall t :: !Enabled(run[n], Step(t)) && !Enabled(run[n], Return(t))
    ensures forall t :: t in run[n].pcs ==> run[n].pcs[t].Idle? || Sleeping(run[n].pcs[t])
    ensures forall t, j: nat :: t in run[n].pcs && j < |run[n].events| && WaitsFor(run[n].pcs[t], j)
              ==> !run[n].events[j]
  {
    RunKeepsInv(run, acts, n);
    var s := run[n];
    if s.owner.Some? {
      assert Holds(s.pcs[s.owner.value]);
      assert Enabled(s, Step(s.owner.value));
    }
    forall t | t in s.pcs
      ensures s.pcs[t].Idle? || Sleeping(s.pcs[t])
    {
      assert !Enabled(s, Step(t)) && !Enabled(s, Return(t));
    }
  }

  /**
   Conservation: for each flag, consumptions plus the flag itself are the 0-to-1 transitions,
   so no more waits succeed than signals were given.
   */
  lemma SignalsAreConserved(run: seq<State>, acts: seq<Action>, n: nat, i: nat)
    requires IsRun(run, acts) && n < |run| && i < |run[n].events|
    ensures InRange(run[n])
    ensures run[n].consumes[i] + (if run[n].events[i] then 1 else 0) == run[n].rises[i]
    ensures run[n].consumes[i] <= run[n].rises[i] <= run[n].stores[i]
  {
    RunKeepsInv(run, acts, n);
  }

  /** A finished wait consumed exactly the flag it answers, and none when it answers none. */
  lemma AnswerIsWhatWasConsumed(run: seq<State>, acts: seq<Action>, n: nat, t: nat)
    requires IsRun(run, acts) && n < |run|
    requires t in run[n].pcs && run[n].pcs[t].Waiting? && run[n].pcs[t].w.Done?
    ensures var pc := run[n].pcs[t];
            match pc.w.r
            case None => pc.took == []
            case Some(k) => pc.took == [k] && pc.lo <= k < pc.hi
  {
    RunKeepsInv(run, acts, n);
  }

  // ----- the order of a scan -----

  /** In this state the thread is inside a scan of the given phase. */
  ghost predicate InScan(s: State, t: nat, phase: Phase) {
    t in s.pcs && s.pcs[t].Waiting? && s.pcs[t].w.Scan? && s.pcs[t].w.phase == phase
  }

  /**
   Action m is the thread's own load or compare-exchange of flag j, it finds 0 and moves the scan on
   to flag j + 1, and up to state n the thread stays in that same scan.
   */
  ghost predicate SawZeroAt(run: seq<State>, acts: seq<Action>, m: nat, n: nat, t: nat, j: nat, phase: Phase)
    requires m < n < |run| && m < |acts|
  {
    && acts[m] == Step(t)
    && (forall q: nat :: m <= q <= n ==> InScan(run[q], t, phase))
    && run[m].pcs[t].w.k == j && run[m + 1].pcs[t].w.k == j + 1
    && j < |run[m].events| && !run[m].events[j]
  }

  ghost predicate SawZero(run: seq<State>, acts: seq<Action>, n: nat, t: nat, j: nat, phase: Phase)
    requires n < |run| && n <= |acts|
  {
    exists m: nat :: m < n && SawZeroAt(run, acts, m, n, t, j, phase)
  }

  /** One more step of the same scan keeps what it has seen. */
  lemma ScanGoesOn(run: seq<State>, acts: seq<Action>, n: nat, t: nat, j: nat, phase: Phase)
    requires n + 1 < |run| && n + 1 <= |acts| && SawZero(run, acts, n, t, j, phase)
    requires InScan(run[n + 1], t, phase)
    ensures SawZero(run, acts, n + 1, t, j, phase)
  {
    var m: nat :| m < n && SawZeroAt(run, acts, m, n, t, j, phase);
    assert SawZeroAt(run, acts, m, n + 1, t, j, phase);
  }

  lemma SawZeroNow(run: seq<State>, acts: seq<Action>, n: nat, t: nat, j: nat, phase: Phase)
    requires n + 1 < |run| && n + 1 <= |acts| && acts[n] == Step(t)
    requires InScan(run[n], t, phase) && InScan(run[n + 1], t, phase)
    requires run[n].pcs[t].w.k == j && run[n + 1].pcs[t].w.k == j + 1
    requires j < |run[n].events| && !run[n].events[j]
    ensures SawZero(run, acts, n + 1, t, j, phase)
  {
    assert SawZeroAt(run, acts, n, n + 1, t, j, phase);
  }

  /** A scan beyond flag j was in the same scan one step before: beyond j, or at j and seeing 0 in this very step. */
  lemma ScanStepBack(s: State, a: Action, t: nat, j: nat)
    requires InRange(s) && Enabled(s, a)
    requires var s' := Next(s, a);
             && t in s'.pcs && s'.pcs[t].Waiting? && s'.pcs[t].w.Scan?
             && s'.pcs[t].lo <= j < s'.pcs[t].w.k
    ensures InScan(s, t, Next(s, a).pcs[t].w.phase) && s.pcs[t].lo == Next(s, a).pcs[t].lo
    ensures j < s.pcs[t].w.k
            || (a == Step(t) && s.pcs[t].w.k == j < |s.events| && !s.events[j] && Next(s, a).pcs[t].w.k == j + 1)
  {
  }

  lemma ScanOneStepBefore(run: seq<State>, acts: seq<Action>, n: nat, t: nat, j: nat)
    requires IsRun(run, acts) && n < |acts|
    requires t in run[n + 1].pcs && run[n + 1].pcs[t].Waiting? && run[n + 1].pcs[t].w.Scan?
    requires run[n + 1].pcs[t].lo <= j < run[n + 1].pcs[t].w.k
    ensures InScan(run[n], t, run[n + 1].pcs[t].w.phase) && run[n].pcs[t].lo == run[n + 1].pcs[t].lo
    ensures j < run[n].pcs[t].w.k
            || (acts[n] == Step(t) && run[n].pcs[t].w.k == j < |run[n].events| && !run[n].events[j]
                && run[n + 1].pcs[t].w.k == j + 1)
  {
    ScanStepBack(run[n], acts[n], t, j);
  }

  /** A scan that has reached flag k has itself seen every lower flag of its range at 0 on its way. */
  lemma {:induction false} ScanSawLowerZeros(run: seq<State>, acts: seq<Action>, n: nat, t: nat, j: nat)
    requires IsRun(run, acts) && n < |run|
    requires t in run[n].pcs && run[n].pcs[t].Waiting? && run[n].pcs[t].w.Scan?
    requires run[n].pcs[t].lo <= j < run[n].pcs[t].w.k
    ensures SawZero(run, acts, n, t, j, run[n].pcs[t].w.phase)
  {
    if n > 0 {
      var phase := run[n].pcs[t].w.phase;
      ScanOneStepBefore(run, acts, n - 1, t, j);
      if j < run[n - 1].pcs[t].w.k {
        ScanSawLowerZeros(run, acts, n - 1, t, j);
        ScanGoesOn(run, acts, n - 1, t, j, phase);
      } else {
        SawZeroNow(run, acts, n - 1, t, j, phase);
      }
    }
  }

  /**
   waitOne consuming flag k has, in that same scan, seen every lower flag at 0 at some earlier
   step: the lowest index wins, up to flags raised behind the scan.
   */
  lemma WaitOneTakesLowestSeen(run: seq<State>, acts: seq<Action>, n: nat, t: nat, j: nat)
    requires IsRun(run, acts) && n < |acts|
    requires acts[n] == Step(t) && run[n].pcs[t].Waiting? && run[n].pcs[t].lo == 0
    requires run[n + 1].pcs[t].took != run[n].pcs[t].took
    requires j < run[n + 1].pcs[t].took[|run[n].pcs[t].took|]
    ensures run[n].pcs[t].w.Scan? && SawZero(run, acts, n, t, j, run[n].pcs[t].w.phase)
  {
    ScanSawLowerZeros(run, acts, n, t, j);
  }
}
