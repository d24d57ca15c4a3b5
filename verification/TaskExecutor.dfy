/**
 TaskExecutor: one worker thread, one task slot, two condition variables under one mutex.

 All shared data is only touched under the mutex, so each critical section is one step; the
 notifications after it are steps of their own. Any number of clients may call in, any sleeper
 may wake spuriously, and notify_one wakes any one sleeper of its condition variable.
 */
module TaskExecutor {
  import opened Bytes

  /** NOT_DONE, DONE, DONE_WITH_ERRORS. */
  datatype CompletionState = NotDone | DoneOk | DoneWithErrors

  datatype Outcome = Returns | ThrowsException | ThrowsOther

  /** A std::function<void()>; the empty one is skipped by the worker. */
  datatype Task = Task(id: nat, empty: bool, outcome: Outcome)

  datatype WorkerPc =
    | WCheck                    // about to lock and test its predicate
    | WAsleep                   // in cvTaskAvailable
    | WHave(task: Task)         // has taken the task off the slot
    | WRan(task: Task)          // the task has run, its outcome is not recorded yet
    | WNotify(task: Task)       // outcome recorded, about to notify cvTaskDone
    | WExit

  datatype ClientPc =
    | Idle
    | Submit(task: Task)        // about to lock and test that the slot is free
    | SubmitAsleep(task: Task)  // in cvTaskAvailable
    | SubmitNotify              // slot filled, about to notify cvTaskAvailable
    | Wait                      // about to lock and test for completion
    | WaitAsleep                // in cvTaskDone
    | WaitDone(state: CompletionState)
    | Stop                      // destructor, about to set the flag
    | StopNotify
    | Joining

  datatype State = State(
    slot: Option<Task>,         // task and taskAvailable
    stop: bool, completion: CompletionState, failed: bool,   // failed: lastTaskException holds a value
    worker: WorkerPc, clients: map<nat, ClientPc>,
    accepted: seq<Task>,        // history: every task put into the slot
    started: seq<Task>,         // history: every task taken off it
    finished: seq<Task>)        // history: every task the worker is done with

  datatype Action =
    | CallSubmit(t: nat, task: Task) | CallWait(t: nat) | CallStop(t: nat)
    | WorkerStep(wake: Option<nat>)             // wake: who notify_one picks
    | ClientStep(t: nat, wake: Option<nat>)     // wake: who notify_one picks; None picks the worker
    | Return(t: nat)
    | WorkerSpurious | ClientSpurious(t: nat)

  predicate Init(s: State) {
    && s.slot == None && !s.stop && s.completion == NotDone && !s.failed && s.worker == WCheck
    && s.accepted == s.started == s.finished == []
    && forall t :: t in s.clients ==> s.clients[t] == Idle
  }

  predicate SleepsOnAvailable(s: State, t: nat) {
    t in s.clients && s.clients[t].SubmitAsleep?
  }

  predicate SleepsOnDone(s: State, t: nat) {
    t in s.clients && s.clients[t].WaitAsleep?
  }

  predicate Submitting(pc: ClientPc) {
    pc.Submit? || pc.SubmitAsleep? || pc.SubmitNotify?
  }

  predicate InWait(pc: ClientPc) {
    pc.Wait? || pc.WaitAsleep? || pc.WaitDone?
  }

  predicate Sleeping(pc: ClientPc) {
    pc.SubmitAsleep? || pc.WaitAsleep?
  }

  predicate Enabled(s: State, a: Action) {
    match a
    case CallSubmit(t, _) => t in s.clients && s.clients[t].Idle?
    case CallWait(t) => t in s.clients && s.clients[t].Idle?
    case CallStop(t) => t in s.clients && s.clients[t].Idle?
    case WorkerStep(wake) =>
      && !s.worker.WAsleep? && !s.worker.WExit?
      && (s.worker.WNotify? ==>
            match wake
            case Some(t) => SleepsOnDone(s, t)
            case None => forall t :: t in s.clients ==> !SleepsOnDone(s, t))
    case ClientStep(t, wake) =>
      && t in s.clients
      && match s.clients[t] {
           case Submit(_) => true
           case SubmitNotify =>
             (match wake
              case Some(u) => SleepsOnAvailable(s, u)
              case None => s.worker.WAsleep? || forall u :: u in s.clients ==> !SleepsOnAvailable(s, u))
           case Wait => true
           case Stop => true
           case StopNotify => true
           case Joining => s.worker.WExit?
           case _ => false
         }
    case Return(t) => t in s.clients && s.clients[t].WaitDone?
    case WorkerSpurious => s.worker.WAsleep?
    case ClientSpurious(t) => t in s.clients && Sleeping(s.clients[t])
  }

  function CompletionOf(o: Outcome): CompletionState {
    if o.Returns? then DoneOk else DoneWithErrors
  }

  /** DONE exactly for a task that returns, DONE_WITH_ERRORS exactly for one that throws anything. */
  predicate Answers(state: CompletionState, o: Outcome) {
    && (state == DoneOk <==> o.Returns?)
    && (state == DoneWithErrors <==> o.ThrowsException? || o.ThrowsOther?)
  }

  lemma CompletionAnswers(o: Outcome)
    ensures Answers(CompletionOf(o), o)
  {
  }

  function Awake(pc: ClientPc): ClientPc {
    match pc
    case SubmitAsleep(task) => Submit(task)
    case WaitAsleep => Wait
    case _ => pc
  }

  /** notify_all on cvTaskAvailable reaches the sleeping submitters too. */
  function WakeSubmitters(clients: map<nat, ClientPc>): map<nat, ClientPc> {
    map t | t in clients :: if clients[t].SubmitAsleep? then Awake(clients[t]) else clients[t]
  }

  function WakeWorker(w: WorkerPc): WorkerPc {
    if w.WAsleep? then WCheck else w
  }

  function Next(s: State, a: Action): State
    requires Enabled(s, a)
  {
    match a
    case CallSubmit(t, task) => s.(clients := s.clients[t := Submit(task)])
    case CallWait(t) => s.(clients := s.clients[t := Wait])
    case CallStop(t) => s.(clients := s.clients[t := Stop])
    case WorkerStep(wake) => WorkerNext(s, wake)
    case ClientStep(t, wake) => ClientNext(s, t, wake)
    case Return(t) => s.(clients := s.clients[t := Idle])
    case WorkerSpurious => s.(worker := WCheck)
    case ClientSpurious(t) => s.(clients := s.clients[t := Awake(s.clients[t])])
  }

  function WorkerNext(s: State, wake: Option<nat>): State
    requires Enabled(s, WorkerStep(wake))
  {
    match s.worker
    case WCheck =>
      if s.stop then s.(worker := WExit)
      else if s.slot == None then s.(worker := WAsleep)
      else s.(worker := WHave(s.slot.value), slot := None, completion := NotDone, failed := false,
              started := s.started + [s.slot.value])
    case WHave(task) =>
      if task.empty then s.(worker := WCheck, finished := s.finished + [task]) else s.(worker := WRan(task))
    case WRan(task) =>
      s.(worker := WNotify(task), finished := s.finished + [task],
         completion := CompletionOf(task.outcome), failed := s.failed || task.outcome.ThrowsException?)
    case WNotify(_) =>
      (match wake
       case Some(t) => s.(worker := WCheck, clients := s.clients[t := Wait])
       case None => s.(worker := WCheck))
  }

  function ClientNext(s: State, t: nat, wake: Option<nat>): State
    requires Enabled(s, ClientStep(t, wake))
  {
    match s.clients[t]
    case Submit(task) =>
      if s.slot.Some? then s.(clients := s.clients[t := SubmitAsleep(task)])
      else s.(slot := Some(task), completion := NotDone, clients := s.clients[t := SubmitNotify],
              accepted := s.accepted + [task])
    case SubmitNotify =>
      (match wake
       case Some(u) => s.(clients := s.clients[u := Awake(s.clients[u])][t := Idle])
       case None => s.(worker := WakeWorker(s.worker), clients := s.clients[t := Idle]))
    case Wait =>
      s.(clients := s.clients[t := if s.completion.NotDone? then WaitAsleep else WaitDone(s.completion)])
    case Stop => s.(stop := true, clients := s.clients[t := StopNotify])
    case StopNotify => s.(worker := WakeWorker(s.worker), clients := WakeSubmitters(s.clients)[t := Joining])
    case Joining => s.(clients := s.clients[t := Idle])
  }

  // ----- every task once, in order, none overwritten -----

  function Running(w: WorkerPc): seq<Task> {
    if w.WHave? || w.WRan? then [w.task] else []
  }

  function InSlot(slot: Option<Task>): seq<Task> {
    if slot.Some? then [slot.value] else []
  }

  ghost predicate Books(s: State) {
    && s.started == s.finished + Running(s.worker)
    && s.accepted == s.started + InSlot(s.slot)
  }

  lemma NextKeepsBooks(s: State, a: Action)
    requires Books(s) && Enabled(s, a)
    ensures Books(Next(s, a))
  {
  }

  ghost predicate IsRun(run: seq<State>, acts: seq<Action>) {
    && |run| == |acts| + 1
    && Init(run[0])
    && forall i: nat :: i < |acts| ==> Enabled(run[i], acts[i]) && run[i + 1] == Next(run[i], acts[i])
  }

  lemma {:induction false} RunKeepsBooks(run: seq<State>, acts: seq<Action>, n: nat)
    requires IsRun(run, acts) && n < |run|
    ensures Books(run[n])
  {
    if n > 0 {
      RunKeepsBooks(run, acts, n - 1);
      NextKeepsBooks(run[n - 1], acts[n - 1]);
    }
  }

  /** A step only appends to the books, and a task leaves the slot only by being started. */
  ghost predicate BooksExtend(s: State, s': State) {
    && s.accepted <= s'.accepted && s.started <= s'.started && s.finished <= s'.finished
    && (s.slot.Some? ==> if |s'.started| == |s.started| then s'.slot == s.slot
                         else s'.started[|s.started|] == s.slot.value)
  }

  lemma BooksExtendFurther(s: State, s': State, a: Action)
    requires Books(s) && Books(s') && BooksExtend(s, s') && Enabled(s', a)
    ensures BooksExtend(s, Next(s', a))
  {
    var s'' := Next(s', a);
    BooksExtendOnce(s', a);
    assert s.started <= s'.started;
  }

  lemma BooksExtendOnce(s: State, a: Action)
    requires Books(s) && Enabled(s, a)
    ensures BooksExtend(s, Next(s, a))
  {
  }

  lemma {:induction false} BooksOnlyGrow(run: seq<State>, acts: seq<Action>, m: nat, n: nat)
    requires IsRun(run, acts) && m <= n < |run|
    ensures BooksExtend(run[m], run[n])
  {
    if m < n {
      BooksOnlyGrow(run, acts, m, n - 1);
      RunKeepsBooks(run, acts, m);
      RunKeepsBooks(run, acts, n - 1);
      BooksExtendFurther(run[m], run[n - 1], acts[n - 1]);
    }
  }

  /**
   With any number of clients: accepted tasks are the finished ones, then the running one, then
   the slot. So tasks start at most once each, in acceptance order; between any two moments a task
   in the slot stays there or is the next one started, so none is ever overwritten; once the worker
   has exited, at most the task in the slot is left out.
   */
  lemma TasksAreConserved(run: seq<State>, acts: seq<Action>, m: nat, n: nat)
    requires IsRun(run, acts) && m <= n < |run|
    ensures var s := run[n];
            && s.accepted == s.finished + Running(s.worker) + InSlot(s.slot)
            && s.finished <= s.started <= s.accepted
            && (s.worker.WExit? ==> s.finished == s.started && |s.accepted| <= |s.finished| + 1)
    ensures BooksExtend(run[m], run[n])
  {
    RunKeepsBooks(run, acts, n);
    BooksOnlyGrow(run, acts, m, n);
  }

  // ----- when nobody moves any more -----

  /** Only new calls and spurious wakeups are left. */
  ghost predicate Quiet(s: State) {
    forall a: Action :: a.WorkerStep? || a.ClientStep? || a.Return? ==> !Enabled(s, a)
  }

  ghost predicate Reachable(s: State) {
    exists run, acts :: IsRun(run, acts) && run[|acts|] == s
  }

  lemma RunGoesOn(run: seq<State>, acts: seq<Action>, a: Action)
    requires IsRun(run, acts) && Enabled(run[|acts|], a)
    ensures IsRun(run + [Next(run[|acts|], a)], acts + [a])
  {
  }

  lemma Reach(s: State, a: Action) returns (s': State)
    requires Reachable(s) && Enabled(s, a)
    ensures s' == Next(s, a) && Reachable(s')
  {
    s' := Next(s, a);
    var run, acts :| IsRun(run, acts) && run[|acts|] == s;
    RunGoesOn(run, acts, a);
    assert (run + [s'])[|acts + [a]|] == s';
  }
}
