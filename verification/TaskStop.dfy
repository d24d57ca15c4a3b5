/** The destructor of a TaskExecutor: it always gets through, whatever the clients and the worker are doing. */
module TaskStop {
  import opened Bytes
  import opened TaskExecutor

  /** An idle client can make any call, the destructor included. */
  lemma IdleClientCanCall(s: State, t: nat, task: Task)
    requires t in s.clients && s.clients[t].Idle?
    ensures Enabled(s, CallSubmit(t, task)) && Enabled(s, CallWait(t)) && Enabled(s, CallStop(t))
  {
  }

  /** A destructor past its store has set the flag; past its notification, the worker is awake, and stays so. */
  ghost predicate StopInv(s: State) {
    forall t :: t in s.clients ==>
      && (s.clients[t].StopNotify? ==> s.stop)
      && (s.clients[t].Joining? ==> s.stop && !s.worker.WAsleep?)
  }

  lemma NextKeepsStopInv(s: State, a: Action)
    requires StopInv(s) && Enabled(s, a)
    ensures StopInv(Next(s, a))
  {
  }

  lemma {:induction false} RunKeepsStopInv(run: seq<State>, acts: seq<Action>, n: nat)
    requires IsRun(run, acts) && n < |run|
    ensures StopInv(run[n])
  {
    if n > 0 {
      RunKeepsStopInv(run, acts, n - 1);
      NextKeepsStopInv(run[n - 1], acts[n - 1]);
    }
  }

  predicate InDestructor(pc: ClientPc) {
    pc.Stop? || pc.StopNotify? || pc.Joining?
  }

  /** Some step of the worker is possible unless it sleeps or has exited. */
  lemma QuietWorker(s: State)
    requires Quiet(s)
    ensures s.worker.WAsleep? || s.worker.WExit?
  {
    assert !Enabled(s, WorkerStep(None));
    if t :| SleepsOnDone(s, t) {
      assert !Enabled(s, WorkerStep(Some(t)));
    }
  }

  /** Some step of a notifying or stopping client is always possible. */
  lemma QuietDestructor(s: State, t: nat)
    requires Quiet(s) && t in s.clients && InDestructor(s.clients[t])
    ensures s.clients[t].Joining? && !s.worker.WExit?
  {
    assert !Enabled(s, ClientStep(t, None));
  }

  /** When nothing but new calls and spurious wakeups is left, nobody is inside the destructor. */
  lemma DestructorReturns(run: seq<State>, acts: seq<Action>, n: nat, t: nat)
    requires IsRun(run, acts) && n < |run| && Quiet(run[n]) && t in run[n].clients
    ensures !InDestructor(run[n].clients[t])
  {
    RunKeepsStopInv(run, acts, n);
    QuietWorker(run[n]);
    if InDestructor(run[n].clients[t]) {
      QuietDestructor(run[n], t);
    }
  }

  // ----- how long it takes -----

  ghost function WorkerSteps(acts: seq<Action>, m: nat, n: nat): (k: nat)
    requires m <= n <= |acts|
  {
    if m == n then 0 else WorkerSteps(acts, m, n - 1) + if acts[n - 1].WorkerStep? then 1 else 0
  }

  /** Steps the worker can still take once the flag is set. */
  function StepsToExit(w: WorkerPc): nat {
    match w
    case WHave(_) => 4
    case WRan(_) => 3
    case WNotify(_) => 2
    case WCheck => 1
    case WAsleep => 1
    case WExit => 0
  }

  lemma StepTowardsExit(s: State, a: Action)
    requires Enabled(s, a) && s.stop
    ensures Next(s, a).stop && Next(s, a).started == s.started
    ensures StepsToExit(Next(s, a).worker) + (if a.WorkerStep? then 1 else 0) <= StepsToExit(s.worker)
  {
  }

  /** After the flag is set the worker takes at most four steps and starts no task. */
  lemma {:induction false} StopEndsTheWorker(run: seq<State>, acts: seq<Action>, m: nat, n: nat)
    requires IsRun(run, acts) && m <= n < |run| && run[m].stop
    ensures run[n].stop && run[n].started == run[m].started
    ensures WorkerSteps(acts, m, n) + StepsToExit(run[n].worker) <= StepsToExit(run[m].worker) <= 4
  {
    if m < n {
      StopEndsTheWorker(run, acts, m, n - 1);
      StepTowardsExit(run[n - 1], acts[n - 1]);
    }
  }

  /** The destructor's notification leaves neither the worker nor any submitter asleep. */
  lemma StopWakesEverybody(s: State, t: nat, u: nat)
    requires Enabled(s, ClientStep(t, None)) && s.clients[t].StopNotify? && u in s.clients
    ensures var s' := Next(s, ClientStep(t, None));
            && !s'.worker.WAsleep? && !SleepsOnAvailable(s', u)
            && (u != t && s.clients[u].SubmitAsleep? ==> s'.clients[u] == Submit(s.clients[u].task))
            && (u != t && !s.clients[u].SubmitAsleep? ==> s'.clients[u] == s.clients[u])
  {
  }

  // ----- nobody goes round in circles -----

  /** Steps of its own a client can take before it returns or falls asleep. */
  function ClientStepsLeft(pc: ClientPc): nat {
    match pc
    case Submit(_) => 2
    case SubmitNotify => 1
    case Wait => 1
    case Stop => 3
    case StopNotify => 2
    case Joining => 1
    case _ => 0
  }

  predicate WokenUp(pc: ClientPc, pc': ClientPc) {
    Sleeping(pc) && !Sleeping(pc')
  }

  /** One action in the balance of client t: a step of its own, what is left, and a wakeup. */
  ghost predicate ClientBalance(s: State, a: Action, s': State, t: nat) {
    && t in s.clients && t in s'.clients
    && (a != CallWait(t) && a != CallStop(t) && !(a.CallSubmit? && a.t == t) ==>
          ClientStepsLeft(s'.clients[t]) + (if a.ClientStep? && a.t == t then 1 else 0) <=
          ClientStepsLeft(s.clients[t]) + if WokenUp(s.clients[t], s'.clients[t]) then 2 else 0)
  }

  lemma NextIsBalanced(s: State, a: Action, t: nat)
    requires Enabled(s, a) && t in s.clients
    ensures ClientBalance(s, a, Next(s, a), t)
  {
  }

  /** Steps of client t, and its wakeups, between states m and n. */
  ghost function StepsOf(acts: seq<Action>, t: nat, m: nat, n: nat): nat
    requires m <= n <= |acts|
  {
    if m == n then 0 else StepsOf(acts, t, m, n - 1) + if acts[n - 1].ClientStep? && acts[n - 1].t == t then 1 else 0
  }

  ghost function WakeupsOf(run: seq<State>, t: nat, m: nat, n: nat): nat
    requires m <= n < |run| && forall q: nat :: m <= q <= n ==> t in run[q].clients
  {
    if m == n then 0
    else WakeupsOf(run, t, m, n - 1) + if WokenUp(run[n - 1].clients[t], run[n].clients[t]) then 1 else 0
  }

  ghost predicate Balanced(run: seq<State>, acts: seq<Action>, t: nat) {
    && |run| == |acts| + 1
    && (forall q: nat :: q < |run| ==> t in run[q].clients)
    && forall e: nat {:trigger acts[e]} :: e < |acts| ==> ClientBalance(run[e], acts[e], run[e + 1], t)
  }

  lemma {:induction false} ClientStaysThere(run: seq<State>, acts: seq<Action>, t: nat, n: nat)
    requires IsRun(run, acts) && n < |run| && t in run[0].clients
    ensures t in run[n].clients
  {
    if n > 0 {
      ClientStaysThere(run, acts, t, n - 1);
      NextIsBalanced(run[n - 1], acts[n - 1], t);
    }
  }

  lemma RunIsBalanced(run: seq<State>, acts: seq<Action>, t: nat)
    requires IsRun(run, acts) && t in run[0].clients
    ensures Balanced(run, acts, t)
  {
    forall q: nat | q < |run|
      ensures t in run[q].clients
    {
      ClientStaysThere(run, acts, t, q);
    }
    forall e: nat | e < |acts|
      ensures ClientBalance(run[e], acts[e], run[e + 1], t)
    {
      NextIsBalanced(run[e], acts[e], t);
    }
  }

  /** Client t begins no call between states m and n. */
  ghost predicate NoCall(acts: seq<Action>, t: nat, m: nat, n: nat)
    requires m <= n <= |acts|
  {
    forall i: nat {:trigger acts[i]} :: m <= i < n ==>
      acts[i] != CallWait(t) && acts[i] != CallStop(t) && !(acts[i].CallSubmit? && acts[i].t == t)
  }

  lemma {:induction false} BalanceAddsUp(run: seq<State>, acts: seq<Action>, t: nat, m: nat, n: nat)
    requires Balanced(run, acts, t) && m <= n < |run|
    requires NoCall(acts, t, m, n)
    ensures StepsOf(acts, t, m, n) + ClientStepsLeft(run[n].clients[t]) <=
            ClientStepsLeft(run[m].clients[t]) + 2 * WakeupsOf(run, t, m, n) <= 3 + 2 * WakeupsOf(run, t, m, n)
  {
    if m < n {
      BalanceAddsUp(run, acts, t, m, n - 1);
      assert ClientBalance(run[n - 1], acts[n - 1], run[n], t);
    }
  }

  /** Inside a call a client takes at most 3 steps of its own, and 2 more for each wakeup: so too in the destructor. */
  lemma CallTakesFewSteps(run: seq<State>, acts: seq<Action>, t: nat, m: nat, n: nat)
    requires IsRun(run, acts) && t in run[0].clients && m <= n < |run|
    requires NoCall(acts, t, m, n)
    ensures forall q: nat :: q < |run| ==> t in run[q].clients
    ensures StepsOf(acts, t, m, n) <= 3 + 2 * WakeupsOf(run, t, m, n)
  {
    RunIsBalanced(run, acts, t);
    BalanceAddsUp(run, acts, t, m, n);
  }

  function WorkerStepsLeft(w: WorkerPc): nat {
    match w
    case WHave(_) => 4
    case WRan(_) => 3
    case WNotify(_) => 2
    case WCheck => 1
    case WAsleep => 0
    case WExit => 0
  }

  predicate WorkerWoken(w: WorkerPc, w': WorkerPc) {
    w.WAsleep? && !w'.WAsleep?
  }

  ghost predicate WorkerBalance(s: State, a: Action, s': State) {
    5 * |s.started| - WorkerStepsLeft(s.worker) + (if a.WorkerStep? then 1 else 0) <=
    5 * |s'.started| - WorkerStepsLeft(s'.worker) + if WorkerWoken(s.worker, s'.worker) then 1 else 0
  }

  lemma NextIsWorkerBalanced(s: State, a: Action)
    requires Enabled(s, a)
    ensures WorkerBalance(s, a, Next(s, a))
  {
  }

  ghost function WorkerWakeups(run: seq<State>, n: nat): nat
    requires n < |run|
  {
    if n == 0 then 0
    else WorkerWakeups(run, n - 1) + if WorkerWoken(run[n - 1].worker, run[n].worker) then 1 else 0
  }

  /** The worker takes at most 5 steps per task, one per wakeup, and one more. */
  lemma {:induction false} WorkerTakesFewSteps(run: seq<State>, acts: seq<Action>, n: nat)
    requires IsRun(run, acts) && n < |run|
    ensures WorkerSteps(acts, 0, n) + WorkerStepsLeft(run[n].worker) <=
            5 * |run[n].started| + WorkerWakeups(run, n) + 1
  {
    if n > 0 {
      WorkerTakesFewSteps(run, acts, n - 1);
      NextIsWorkerBalanced(run[n - 1], acts[n - 1]);
    }
  }
}
