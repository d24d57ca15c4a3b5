/**
 The sticky Signal: an atomic flag, a mutex and a condition variable.

 The wait and signal calls are cut into steps at every access to the flag (load and
 compare-exchange are separate), every lock and unlock, the atomic release-and-sleep of the
 condition variable, and notify_all. `State` is the standalone Signal used by any number of
 threads, with spurious wakeups.
 */
module Signal {
  import opened Bytes

  /** wait(), wait(0) and wait(timeout > 0). */
  datatype Patience = Forever | TryOnly | Deadline

  datatype WaitPc =
    | FastLoad | FastCas          // tryConsume without the lock
    | Lock                        // about to take the mutex
    | Load | Cas                  // tryConsume under the lock
    | Block                       // about to release the mutex and sleep
    | Asleep
    | Woken(late: bool)           // awake, about to take the mutex back; late: the deadline passed
    | LastLoad | LastCas          // the one last check after a timeout
    | Unlock(ok: bool)            // about to release the mutex and return
    | Done(ok: bool)

  datatype SignalPc = Store | NeedLock | Notify | Release | Finished

  datatype Shared<T> = Shared(e: bool, owner: Option<T>)

  /** Is this point inside the critical section? */
  predicate WaitHolds(w: WaitPc) {
    w.Load? || w.Cas? || w.Block? || w.LastLoad? || w.LastCas? || w.Unlock?
  }

  predicate SignalHolds(g: SignalPc) {
    g.Notify? || g.Release?
  }

  predicate WaitReady<T>(sh: Shared<T>, w: WaitPc) {
    && !w.Asleep? && !w.Done?
    && (w.Lock? || w.Woken? ==> sh.owner == None)
  }

  function WaitStep<T>(sh: Shared<T>, me: T, patience: Patience, w: WaitPc): (r: (Shared<T>, WaitPc))
    requires WaitReady(sh, w)
  {
    var missed := if patience == TryOnly then Done(false) else Lock;
    match w
    case FastLoad => (sh, if sh.e then FastCas else missed)
    case FastCas => if sh.e then (sh.(e := false), Done(true)) else (sh, missed)
    case Lock => (sh.(owner := Some(me)), Load)
    case Load => (sh, if sh.e then Cas else Block)
    case Cas => if sh.e then (sh.(e := false), Unlock(true)) else (sh, Block)
    case Block => (sh.(owner := None), Asleep)
    case Woken(late) => (sh.(owner := Some(me)), if late then LastLoad else Load)
    case LastLoad => (sh, if sh.e then LastCas else Unlock(false))
    case LastCas => if sh.e then (sh.(e := false), Unlock(true)) else (sh, Unlock(false))
    case Unlock(ok) => (sh.(owner := None), Done(ok))
  }

  predicate SignalReady<T>(sh: Shared<T>, g: SignalPc) {
    !g.Finished? && (g.NeedLock? ==> sh.owner == None)
  }

  function SignalStep<T>(sh: Shared<T>, me: T, g: SignalPc): (r: (Shared<T>, SignalPc))
    requires SignalReady(sh, g)
  {
    match g
    case Store => (sh.(e := true), NeedLock)
    case NeedLock => (sh.(owner := Some(me)), Notify)
    case Notify => (sh, Release)
    case Release => (sh.(owner := None), Finished)
  }

  /** What notify_all, or a spurious wakeup, does to a waiter. */
  function WakeUp(w: WaitPc): WaitPc {
    if w.Asleep? then Woken(false) else w
  }

  // ----- the standalone Signal -----

  datatype ThreadPc = Idle | Waiting(patience: Patience, w: WaitPc) | Signaling(g: SignalPc)

  datatype State = State(sh: Shared<nat>, pcs: map<nat, ThreadPc>)

  datatype Action =
    | CallWait(t: nat, patience: Patience) | CallSignal(t: nat)
    | Step(t: nat) | Return(t: nat)
    | Wake(ts: set<nat>)          // spurious wakeups of any sleeping threads
    | Timeout(t: nat)

  predicate Enabled(s: State, a: Action) {
    match a
    case CallWait(t, _) => t in s.pcs && s.pcs[t].Idle?
    case CallSignal(t) => t in s.pcs && s.pcs[t].Idle?
    case Step(t) =>
      && t in s.pcs
      && match s.pcs[t] {
           case Idle => false
           case Waiting(_, w) => WaitReady(s.sh, w)
           case Signaling(g) => SignalReady(s.sh, g)
         }
    case Return(t) =>
      t in s.pcs && ((s.pcs[t].Waiting? && s.pcs[t].w.Done?) || (s.pcs[t].Signaling? && s.pcs[t].g.Finished?))
    case Wake(ts) => forall t :: t in ts ==> t in s.pcs && Sleeping(s.pcs[t])
    case Timeout(t) => t in s.pcs && Sleeping(s.pcs[t]) && s.pcs[t].patience.Deadline?
  }

  predicate Sleeping(pc: ThreadPc) {
    pc.Waiting? && pc.w.Asleep?
  }

  function Wakened(pc: ThreadPc): ThreadPc {
    if pc.Waiting? then pc.(w := WakeUp(pc.w)) else pc
  }

  function WakeAll(pcs: map<nat, ThreadPc>, ts: set<nat>): map<nat, ThreadPc> {
    map t | t in pcs :: if t in ts then Wakened(pcs[t]) else pcs[t]
  }

  function Next(s: State, a: Action): State
    requires Enabled(s, a)
  {
    match a
    case CallWait(t, patience) => s.(pcs := s.pcs[t := Waiting(patience, FastLoad)])
    case CallSignal(t) => s.(pcs := s.pcs[t := Signaling(Store)])
    case Return(t) => s.(pcs := s.pcs[t := Idle])
    case Wake(ts) => s.(pcs := WakeAll(s.pcs, ts))
    case Timeout(t) => s.(pcs := s.pcs[t := s.pcs[t].(w := Woken(true))])
    case Step(t) =>
      match s.pcs[t]
      case Waiting(patience, w) =>
        var (sh, w') := WaitStep(s.sh, t, patience, w);
        State(sh, s.pcs[t := Waiting(patience, w')])
      case Signaling(g) =>
        var (sh, g') := SignalStep(s.sh, t, g);
        var pcs := if g.Notify? then WakeAll(s.pcs, s.pcs.Keys) else s.pcs;
        State(sh, pcs[t := Signaling(g')])
  }
}
