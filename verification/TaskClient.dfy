/**
 One client of a TaskExecutor, given by the list of the calls it makes: for exactly which lists it
 is served, and what goes wrong on the others.
 */
module TaskClient {
  import opened Bytes
  import opened TaskExecutor

  datatype Call = SubmitCall(task: Task) | WaitCall

  function CallOf(a: Action): seq<Call> {
    match a
    case CallSubmit(_, task) => [SubmitCall(task)]
    case CallWait(_) => [WaitCall]
    case _ => []
  }

  /** The calls among the first n actions. */
  function CallsMade(acts: seq<Action>, n: nat): seq<Call>
    requires n <= |acts|
  {
    if n == 0 then [] else CallsMade(acts, n - 1) + CallOf(acts[n - 1])
  }

  function Tasks(calls: seq<Call>): seq<Task> {
    if calls == [] then []
    else
      var last := calls[|calls| - 1];
      Tasks(calls[..|calls| - 1]) + if last.SubmitCall? then [last.task] else []
  }

  function LastTask(calls: seq<Call>): Option<Task> {
    var tasks := Tasks(calls);
    if tasks == [] then None else Some(tasks[|tasks| - 1])
  }

  /** Is there a task to wait for? The worker reports nothing for an empty one. */
  predicate Awaitable(last: Option<Task>) {
    last.Some? && !last.value.empty
  }

  /** Call k is a submit right behind a submit, or a wait with no task to wait for. */
  predicate Misused(calls: seq<Call>, k: nat)
    requires k < |calls|
  {
    match calls[k]
    case SubmitCall(_) => k > 0 && calls[k - 1].SubmitCall?
    case WaitCall => !Awaitable(LastTask(calls[..k]))
  }

  predicate Orderly(calls: seq<Call>) {
    forall k: nat :: k < |calls| ==> !Misused(calls, k)
  }

  /** Every wait comes with a task to wait for. */
  predicate WaitsHaveTasks(calls: seq<Call>) {
    forall k: nat :: k < |calls| && calls[k].WaitCall? ==> Awaitable(LastTask(calls[..k]))
  }

  lemma WaitsHaveTasksPrefix(calls: seq<Call>, n: nat)
    requires n <= |calls| && WaitsHaveTasks(calls)
    ensures WaitsHaveTasks(calls[..n])
  {
    forall k: nat | k < n && calls[..n][k].WaitCall?
      ensures Awaitable(LastTask(calls[..n][..k]))
    {
      assert calls[..n][..k] == calls[..k];
    }
  }

  lemma WaitsHaveTasksSnoc(made: seq<Call>, call: Call)
    requires WaitsHaveTasks(made + [call])
    ensures WaitsHaveTasks(made)
    ensures call.WaitCall? ==> Awaitable(LastTask(made))
  {
    var calls := made + [call];
    WaitsHaveTasksPrefix(calls, |made|);
    assert calls[..|made|] == made && calls[|made|] == call;
  }

  lemma OrderlyPrefix(calls: seq<Call>, n: nat)
    requires n <= |calls| && forall k: nat :: k < n ==> !Misused(calls, k)
    ensures Orderly(calls[..n])
  {
    forall k: nat | k < n
      ensures !Misused(calls[..n], k)
    {
      assert calls[..n][..k] == calls[..k];
      assert !Misused(calls, k);
    }
  }

  lemma OrderlyWaitsHaveTasks(calls: seq<Call>)
    requires Orderly(calls)
    ensures WaitsHaveTasks(calls)
  {
    forall k: nat | k < |calls| && calls[k].WaitCall?
      ensures Awaitable(LastTask(calls[..k]))
    {
      assert !Misused(calls, k);
    }
  }

  /** The last call of an orderly list is not misused, and neither is the list before it. */
  lemma OrderlySnoc(made: seq<Call>, call: Call)
    requires Orderly(made + [call])
    ensures Orderly(made)
    ensures call.SubmitCall? ==> made == [] || made[|made| - 1].WaitCall?
    ensures call.WaitCall? ==> Awaitable(LastTask(made))
  {
    var calls := made + [call];
    OrderlyPrefix(calls, |made|);
    assert calls[..|made|] == made;
    assert !Misused(calls, |made|);
  }

  lemma OrderlyBefore(made: seq<Call>, calls: seq<Call>)
    requires |calls| <= 1 && Orderly(made + calls)
    ensures Orderly(made)
  {
    if calls == [] {
      assert made + calls == made;
    } else {
      assert calls == [calls[0]];
      OrderlySnoc(made, calls[0]);
    }
  }

  lemma TasksSnoc(made: seq<Call>, call: Call)
    ensures Tasks(made + [call]) == Tasks(made) + if call.SubmitCall? then [call.task] else []
  {
    assert (made + [call])[..|made|] == made;
  }

  lemma OrderlyPlus(made: seq<Call>, call: Call)
    requires Orderly(made)
    requires call.SubmitCall? ==> made == [] || made[|made| - 1].WaitCall?
    requires call.WaitCall? ==> Awaitable(LastTask(made))
    ensures Orderly(made + [call])
  {
    var calls := made + [call];
    forall k: nat | k < |calls|
      ensures !Misused(calls, k)
    {
      if k < |made| {
        assert !Misused(made, k) && calls[..k] == made[..k];
      } else {
        assert calls[..k] == made;
      }
    }
  }

  /** Submit and wait in turn, for each of these tasks. */
  function Alternation(tasks: seq<Task>): seq<Call> {
    if tasks == [] then []
    else Alternation(tasks[..|tasks| - 1]) + [SubmitCall(tasks[|tasks| - 1])] + [WaitCall]
  }

  /** The client that alternates submit and wait is orderly if no task is empty. */
  lemma {:induction false} AlternationIsOrderly(tasks: seq<Task>)
    requires forall i: nat :: i < |tasks| ==> !tasks[i].empty
    ensures Orderly(Alternation(tasks))
  {
    if tasks != [] {
      var before, task := Alternation(tasks[..|tasks| - 1]), tasks[|tasks| - 1];
      AlternationIsOrderly(tasks[..|tasks| - 1]);
      OrderlyPlus(before, SubmitCall(task));
      TasksSnoc(before, SubmitCall(task));
      OrderlyPlus(before + [SubmitCall(task)], WaitCall);
    }
  }

  // ----- an orderly client is served -----

  /** The worker is done with the previous task, up to its notification. */
  predicate WorkerFree(w: WorkerPc) {
    w.WCheck? || w.WAsleep? || w.WNotify?
  }

  /** Nothing to do, and the outcome of the last task on record (none for an empty task). */
  predicate Settled(s: State, last: Option<Task>) {
    && s.slot == None && WorkerFree(s.worker)
    && if !Awaitable(last) then s.completion == NotDone
       else s.completion == CompletionOf(last.value.outcome) && s.failed == last.value.outcome.ThrowsException?
  }

  /** Where a task is from its submission on. */
  predicate UnderWay(s: State, task: Task) {
    || (s.slot == Some(task) && s.completion == NotDone && WorkerFree(s.worker))
    || (s.slot == None && s.completion == NotDone && !s.failed
        && (s.worker == WHave(task) || (s.worker == WRan(task) && !task.empty)))
    || Settled(s, Some(task))
  }

  predicate LastIsSubmit(made: seq<Call>) {
    made != [] && made[|made| - 1].SubmitCall?
  }

  predicate LastIsWait(made: seq<Call>) {
    made != [] && made[|made| - 1].WaitCall?
  }

  /** What the client's own position says about its last task. */
  predicate PositionInv(s: State, pc: ClientPc, made: seq<Call>) {
    var last := LastTask(made);
    match pc
    case Idle => if LastIsSubmit(made) then last.Some? && UnderWay(s, last.value) else Settled(s, last)
    case Submit(task) => LastIsSubmit(made) && last == Some(task) && s.slot == None && WorkerFree(s.worker)
    case SubmitNotify => LastIsSubmit(made) && last.Some? && UnderWay(s, last.value)
    case Wait => LastIsWait(made) && Awaitable(last) && UnderWay(s, last.value)
    case WaitAsleep =>
      && LastIsWait(made) && Awaitable(last) && UnderWay(s, last.value)
      && (s.completion != NotDone ==> s.worker.WNotify?)
    case WaitDone(state) =>
      LastIsWait(made) && Awaitable(last) && Settled(s, last) && state == CompletionOf(last.value.outcome)
    case _ => false
  }

  /** The task of a submit that is still waiting to get in. */
  function Offered(pc: ClientPc): seq<Task> {
    if pc.Submit? || pc.SubmitAsleep? then [pc.task] else []
  }

  ghost predicate ClientInv(s: State, c: nat, made: seq<Call>) {
    && s.clients.Keys == {c} && !s.stop
    && s.accepted + Offered(s.clients[c]) == Tasks(made)
    && (s.worker.WAsleep? && s.slot.Some? ==> s.clients[c].SubmitNotify?)
    && PositionInv(s, s.clients[c], made)
  }

  lemma CallKeepsInv(s: State, a: Action, c: nat, made: seq<Call>)
    requires ClientInv(s, c, made) && Enabled(s, a) && (a.CallSubmit? || a.CallWait?)
    requires Orderly(made + CallOf(a))
    ensures ClientInv(Next(s, a), c, made + CallOf(a))
  {
    assert a.t in s.clients.Keys;
    OrderlySnoc(made, CallOf(a)[0]);
    TasksSnoc(made, CallOf(a)[0]);
  }

  lemma WorkerStepKeepsInv(s: State, wake: Option<nat>, c: nat, made: seq<Call>)
    requires ClientInv(s, c, made) && Enabled(s, WorkerStep(wake))
    ensures ClientInv(Next(s, WorkerStep(wake)), c, made)
  {
    assert c in s.clients.Keys;
    if s.worker.WNotify? {
      WorkerNotifyKeepsInv(s, wake, c, made);
    } else if s.worker.WCheck? {
      WorkerCheckKeepsInv(s, wake, c, made);
    }
  }

  lemma WorkerCheckKeepsInv(s: State, wake: Option<nat>, c: nat, made: seq<Call>)
    requires ClientInv(s, c, made) && Enabled(s, WorkerStep(wake)) && s.worker.WCheck?
    ensures ClientInv(Next(s, WorkerStep(wake)), c, made)
  {
    assert c in s.clients.Keys;
  }

  lemma WorkerNotifyKeepsInv(s: State, wake: Option<nat>, c: nat, made: seq<Call>)
    requires ClientInv(s, c, made) && Enabled(s, WorkerStep(wake)) && s.worker.WNotify?
    ensures ClientInv(Next(s, WorkerStep(wake)), c, made)
  {
    assert wake.Some? ==> wake.value in s.clients.Keys;
  }

  lemma ClientStepKeepsInv(s: State, a: Action, c: nat, made: seq<Call>)
    requires ClientInv(s, c, made) && Enabled(s, a)
    requires a.ClientStep? || a.Return? || a.ClientSpurious? || a.WorkerSpurious?
    ensures ClientInv(Next(s, a), c, made)
  {
    if !a.WorkerSpurious? {
      assert a.t in s.clients.Keys;
    }
  }

  lemma NextKeepsClientInv(s: State, a: Action, c: nat, made: seq<Call>)
    requires ClientInv(s, c, made) && Enabled(s, a) && !a.CallStop? && Orderly(made + CallOf(a))
    ensures ClientInv(Next(s, a), c, made + CallOf(a))
  {
    if a.CallSubmit? || a.CallWait? {
      CallKeepsInv(s, a, c, made);
    } else {
      assert made + CallOf(a) == made;
      if a.WorkerStep? {
        WorkerStepKeepsInv(s, a.wake, c, made);
      } else {
        ClientStepKeepsInv(s, a, c, made);
      }
    }
  }

  /** A run with the single client c, before the destructor. */
  ghost predicate IsClientRun(run: seq<State>, acts: seq<Action>, c: nat) {
    && IsRun(run, acts) && run[0].clients.Keys == {c}
    && forall i: nat :: i < |acts| ==> !acts[i].CallStop?
  }

  lemma {:induction false} RunKeepsClientInv(run: seq<State>, acts: seq<Action>, c: nat, n: nat)
    requires IsClientRun(run, acts, c) && n < |run| && Orderly(CallsMade(acts, n))
    ensures ClientInv(run[n], c, CallsMade(acts, n))
  {
    if n == 0 {
      assert c in run[0].clients.Keys;
    } else {
      var made, call := CallsMade(acts, n - 1), CallOf(acts[n - 1]);
      OrderlyBefore(made, call);
      RunKeepsClientInv(run, acts, c, n - 1);
      NextKeepsClientInv(run[n - 1], acts[n - 1], c, made);
    }
  }

  /**
   The orderly client: submit never finds the slot full, a wait returns the outcome of exactly the
   task submitted last with its exception (if any) on record, and a sleeper whose condition holds
   has its notifier coming.
   */
  lemma OrderlyClientIsServed(run: seq<State>, acts: seq<Action>, c: nat, n: nat)
    requires IsClientRun(run, acts, c) && n < |run| && Orderly(CallsMade(acts, n))
    ensures c in run[n].clients
    ensures var s, made := run[n], CallsMade(acts, n); var pc := s.clients[c];
            && s.accepted + Offered(pc) == Tasks(made)
            && !pc.SubmitAsleep? && (pc.Submit? ==> s.slot == None)
            && (pc.WaitDone? ==>
                  && s.accepted != [] && s.finished == s.accepted
                  && var task := s.accepted[|s.accepted| - 1];
                     Answers(pc.state, task.outcome) && s.failed == task.outcome.ThrowsException?)
            && (pc.WaitAsleep? && s.completion != NotDone ==> s.worker.WNotify?)
            && (s.worker.WAsleep? && s.slot.Some? ==> pc.SubmitNotify?)
  {
    RunKeepsClientInv(run, acts, c, n);
    RunKeepsBooks(run, acts, n);
    WaitIsAnswered(run[n], c, CallsMade(acts, n));
    if run[n].clients[c].WaitDone? {
      CompletionAnswers(run[n].accepted[|run[n].accepted| - 1].outcome);
    }
    assert c in run[n].clients.Keys;
  }

  /** A wait about to return has everything finished, and the outcome of the last task. */
  lemma WaitIsAnswered(s: State, c: nat, made: seq<Call>)
    requires ClientInv(s, c, made) && Books(s)
    ensures c in s.clients
    ensures s.clients[c].WaitDone? ==>
              && s.accepted != [] && s.finished == s.accepted
              && var task := s.accepted[|s.accepted| - 1];
                 s.clients[c].state == CompletionOf(task.outcome) && s.failed == task.outcome.ThrowsException?
  {
    assert c in s.clients.Keys;
    if s.clients[c].WaitDone? {
      assert s.accepted == Tasks(made);
    }
  }

  /** Left inside a call when only spurious wakeups can still happen. */
  ghost predicate Hung(s: State, c: nat) {
    c in s.clients && !s.clients[c].Idle? && Quiet(s)
  }

  lemma OrderlyClientNeverHangs(run: seq<State>, acts: seq<Action>, c: nat, n: nat)
    requires IsClientRun(run, acts, c) && n < |run| && Orderly(CallsMade(acts, n))
    ensures !Hung(run[n], c)
  {
    RunKeepsClientInv(run, acts, c, n);
    var s := run[n];
    assert c in s.clients.Keys;
    if !s.clients[c].Idle? {
      assert Enabled(s, ClientStep(c, None)) || Enabled(s, Return(c))
             || Enabled(s, WorkerStep(None)) || Enabled(s, WorkerStep(Some(c)));
    }
  }

  // ----- and no other client is -----

  ghost predicate CanReach(s: State, c: nat, made: seq<Call>) {
    exists run, acts :: IsClientRun(run, acts, c) && run[|acts|] == s && CallsMade(acts, |acts|) == made
  }

  lemma {:induction false} CallsMadeOfPrefix(acts: seq<Action>, a: Action, n: nat)
    requires n <= |acts|
    ensures CallsMade(acts + [a], n) == CallsMade(acts, n)
  {
    if n > 0 {
      CallsMadeOfPrefix(acts, a, n - 1);
    }
  }

  lemma ClientRunGoesOn(run: seq<State>, acts: seq<Action>, c: nat, a: Action)
    requires IsClientRun(run, acts, c) && Enabled(run[|acts|], a) && !a.CallStop?
    ensures IsClientRun(run + [Next(run[|acts|], a)], acts + [a], c)
    ensures CallsMade(acts + [a], |acts| + 1) == CallsMade(acts, |acts|) + CallOf(a)
  {
    RunGoesOn(run, acts, a);
    CallsMadeOfPrefix(acts, a, |acts|);
  }

  lemma Go(s: State, c: nat, made: seq<Call>, a: Action) returns (s': State)
    requires CanReach(s, c, made) && Enabled(s, a) && !a.CallStop?
    ensures s' == Next(s, a) && CanReach(s', c, made + CallOf(a))
  {
    s' := Next(s, a);
    var run, acts :| IsClientRun(run, acts, c) && run[|acts|] == s && CallsMade(acts, |acts|) == made;
    ClientRunGoesOn(run, acts, c, a);
    ReachedBy(run + [s'], acts + [a], c);
  }

  lemma ReachedBy(run: seq<State>, acts: seq<Action>, c: nat)
    requires IsClientRun(run, acts, c)
    ensures CanReach(run[|acts|], c, CallsMade(acts, |acts|))
  {
  }

  ghost predicate Alone(s: State, c: nat, pc: ClientPc) {
    s.clients == map[c := pc] && !s.stop
  }

  lemma Calls(s: State, c: nat, made: seq<Call>, call: Call) returns (s': State)
    requires CanReach(s, c, made) && Alone(s, c, Idle)
    ensures CanReach(s', c, made + [call])
    ensures s' == s.(clients := map[c := if call.SubmitCall? then Submit(call.task) else Wait])
  {
    s' := Go(s, c, made, if call.SubmitCall? then CallSubmit(c, call.task) else CallWait(c));
  }

  lemma SubmitMoves(s: State, c: nat, made: seq<Call>, task: Task) returns (s': State)
    requires CanReach(s, c, made) && Alone(s, c, Submit(task))
    ensures CanReach(s', c, made)
    ensures s' == if s.slot.Some? then s.(clients := map[c := SubmitAsleep(task)])
                  else s.(slot := Some(task), completion := NotDone, clients := map[c := SubmitNotify],
                          accepted := s.accepted + [task])
  {
    s' := Go(s, c, made, ClientStep(c, None));
    assert made + [] == made;
  }

  lemma NotifyMoves(s: State, c: nat, made: seq<Call>) returns (s': State)
    requires CanReach(s, c, made) && Alone(s, c, SubmitNotify)
    ensures CanReach(s', c, made)
    ensures s' == s.(worker := WakeWorker(s.worker), clients := map[c := Idle])
  {
    s' := Go(s, c, made, ClientStep(c, None));
    assert made + [] == made;
  }

  lemma WaitMoves(s: State, c: nat, made: seq<Call>) returns (s': State)
    requires CanReach(s, c, made) && Alone(s, c, Wait)
    ensures CanReach(s', c, made)
    ensures s' == s.(clients := map[c := if s.completion.NotDone? then WaitAsleep else WaitDone(s.completion)])
  {
    s' := Go(s, c, made, ClientStep(c, None));
    assert made + [] == made;
  }

  lemma WaitEnds(s: State, c: nat, made: seq<Call>, state: CompletionState) returns (s': State)
    requires CanReach(s, c, made) && Alone(s, c, WaitDone(state))
    ensures CanReach(s', c, made) && s' == s.(clients := map[c := Idle])
  {
    s' := Go(s, c, made, Return(c));
    assert made + [] == made;
  }

  /** A step of the worker, with nobody asleep in a wait. */
  lemma WorkerMoves(s: State, c: nat, made: seq<Call>, pc: ClientPc) returns (s': State)
    requires CanReach(s, c, made) && Alone(s, c, pc) && !pc.WaitAsleep?
    requires !s.worker.WAsleep? && !s.worker.WExit?
    ensures CanReach(s', c, made) && Alone(s', c, pc)
    ensures s' == WorkerNext(s, None)
  {
    s' := Go(s, c, made, WorkerStep(None));
    assert made + [] == made;
  }

  /** All calls served, client and worker at rest. */
  ghost predicate AtRest(s: State, c: nat, made: seq<Call>) {
    CanReach(s, c, made) && Alone(s, c, Idle) && s.worker == WAsleep && Settled(s, LastTask(made))
  }

  /** From rest, a task gets into the slot and the worker is awake. */
  lemma SlotFilled(s0: State, c: nat, made: seq<Call>, task: Task) returns (s: State)
    requires AtRest(s0, c, made)
    ensures CanReach(s, c, made + [SubmitCall(task)]) && Alone(s, c, Idle)
    ensures s.slot == Some(task) && s.worker == WCheck && s.completion == NotDone
  {
    var made' := made + [SubmitCall(task)];
    s := Calls(s0, c, made, SubmitCall(task));
    s := SubmitMoves(s, c, made', task);
    s := NotifyMoves(s, c, made');
  }

  /** With nobody waiting for completion, the worker goes once around and falls asleep. */
  lemma WorkerGoesAround(s0: State, c: nat, made: seq<Call>, pc: ClientPc, task: Task) returns (s: State)
    requires CanReach(s0, c, made) && Alone(s0, c, pc) && !pc.WaitAsleep?
    requires s0.slot == Some(task) && s0.worker == WCheck
    ensures CanReach(s, c, made) && Alone(s, c, pc) && s.worker == WAsleep && Settled(s, Some(task))
  {
    s := WorkerMoves(s0, c, made, pc);
    if task.empty {
      s := WorkerMoves(s, c, made, pc);
    } else {
      s := TaskRuns(s, c, made, pc, task);
    }
    s := WorkerMoves(s, c, made, pc);
  }

  lemma TaskRuns(s0: State, c: nat, made: seq<Call>, pc: ClientPc, task: Task) returns (s: State)
    requires CanReach(s0, c, made) && Alone(s0, c, pc) && !pc.WaitAsleep?
    requires s0.slot == None && s0.worker == WHave(task) && !task.empty && !s0.failed
    ensures CanReach(s, c, made) && Alone(s, c, pc) && s.worker == WCheck && Settled(s, Some(task))
  {
    s := WorkerMoves(s0, c, made, pc);
    s := TaskRecorded(s, c, made, pc, task);
  }

  lemma TaskRecorded(s0: State, c: nat, made: seq<Call>, pc: ClientPc, task: Task) returns (s: State)
    requires CanReach(s0, c, made) && Alone(s0, c, pc) && !pc.WaitAsleep?
    requires s0.slot == None && s0.worker == WRan(task) && !task.empty && !s0.failed
    ensures CanReach(s, c, made) && Alone(s, c, pc) && s.worker == WCheck && Settled(s, Some(task))
  {
    s := WorkerMoves(s0, c, made, pc);
    s := WorkerMoves(s, c, made, pc);
  }

  /** Whatever is submitted, it can all be served, as long as every wait has a task to wait for. */
  lemma {:induction false} ComesToRest(c: nat, calls: seq<Call>) returns (s: State)
    requires WaitsHaveTasks(calls)
    ensures AtRest(s, c, calls)
  {
    if calls == [] {
      s := State(None, false, NotDone, false, WCheck, map[c := Idle], [], [], []);
      assert IsClientRun([s], [], c) && [s][0] == s && CallsMade([], 0) == [];
      s := WorkerMoves(s, c, [], Idle);
    } else {
      var made, call := calls[..|calls| - 1], calls[|calls| - 1];
      assert calls == made + [call];
      WaitsHaveTasksSnoc(made, call);
      s := ComesToRest(c, made);
      s := OneMoreCall(s, c, made, call);
    }
  }

  lemma WaitReturns(s0: State, c: nat, made: seq<Call>) returns (s: State)
    requires CanReach(s0, c, made) && Alone(s0, c, Idle) && s0.completion != NotDone
    ensures CanReach(s, c, made + [WaitCall]) && s == s0.(clients := map[c := WaitDone(s0.completion)])
  {
    s := Calls(s0, c, made, WaitCall);
    s := WaitMoves(s, c, made + [WaitCall]);
  }

  lemma OneMoreCall(s0: State, c: nat, made: seq<Call>, call: Call) returns (s: State)
    requires AtRest(s0, c, made) && (call.WaitCall? ==> Awaitable(LastTask(made)))
    ensures AtRest(s, c, made + [call])
  {
    TasksSnoc(made, call);
    match call
    case SubmitCall(task) =>
      s := SlotFilled(s0, c, made, task);
      s := WorkerGoesAround(s, c, made + [call], Idle, task);
    case WaitCall =>
      s := WaitReturns(s0, c, made);
      s := WaitEnds(s, c, made + [call], s.completion);
  }

  lemma AsleepIsHung(s: State, c: nat, pc: ClientPc)
    requires Alone(s, c, pc) && Sleeping(pc) && s.worker == WAsleep
    ensures Hung(s, c)
  {
  }

  /** The worker frees the slot without notifying: a second submit in a row can sleep on a free slot. */
  lemma BackToBackSubmitCanStrand(c: nat, made: seq<Call>, first: Task, second: Task) returns (s: State)
    requires WaitsHaveTasks(made)
    ensures CanReach(s, c, made + [SubmitCall(first), SubmitCall(second)]) && Hung(s, c)
    ensures Alone(s, c, SubmitAsleep(second)) && s.slot == None && s.worker == WAsleep
  {
    var made1 := made + [SubmitCall(first)];
    var made2 := made1 + [SubmitCall(second)];
    assert made2 == made + [SubmitCall(first), SubmitCall(second)];
    s := ComesToRest(c, made);
    s := SlotFilled(s, c, made, first);
    s := Calls(s, c, made1, SubmitCall(second));
    s := SubmitMoves(s, c, made2, second);
    s := WorkerGoesAround(s, c, made2, SubmitAsleep(second), first);
    AsleepIsHung(s, c, SubmitAsleep(second));
  }

  /** With no task to wait for, a wait can end up asleep with nobody to wake it. */
  lemma WaitOnNothingHangs(c: nat, made: seq<Call>) returns (s: State)
    requires WaitsHaveTasks(made) && !Awaitable(LastTask(made))
    ensures CanReach(s, c, made + [WaitCall]) && Hung(s, c)
  {
    s := ComesToRest(c, made);
    s := Calls(s, c, made, WaitCall);
    s := WaitMoves(s, c, made + [WaitCall]);
    AsleepIsHung(s, c, WaitAsleep);
  }

  lemma FirstMisuse(calls: seq<Call>, k: nat) returns (first: nat)
    requires k < |calls| && Misused(calls, k)
    ensures first < |calls| && Misused(calls, first) && Orderly(calls[..first])
  {
    first := 0;
    while !Misused(calls, first)
      invariant first <= k && forall j: nat :: j < first ==> !Misused(calls, j)
      decreases k - first
    {
      first := first + 1;
    }
    OrderlyPrefix(calls, first);
  }

  lemma MisusedSubmitCanHang(c: nat, calls: seq<Call>, k: nat) returns (s: State)
    requires k < |calls| && calls[k].SubmitCall? && Misused(calls, k) && Orderly(calls[..k])
    ensures CanReach(s, c, calls[..k + 1]) && Hung(s, c)
  {
    var made := calls[..k - 1];
    assert calls[..k] == made + [calls[k - 1]];
    assert calls[..k + 1] == made + [calls[k - 1], calls[k]];
    OrderlySnoc(made, calls[k - 1]);
    OrderlyWaitsHaveTasks(made);
    s := BackToBackSubmitCanStrand(c, made, calls[k - 1].task, calls[k].task);
  }

  lemma MisuseCanHang(c: nat, calls: seq<Call>, k: nat) returns (s: State, n: nat)
    requires k < |calls| && Misused(calls, k) && Orderly(calls[..k])
    ensures n <= |calls| && CanReach(s, c, calls[..n]) && Hung(s, c)
  {
    n := k + 1;
    assert calls[..n] == calls[..k] + [calls[k]];
    match calls[k]
    case WaitCall =>
      OrderlyWaitsHaveTasks(calls[..k]);
      s := WaitOnNothingHangs(c, calls[..k]);
    case SubmitCall(_) =>
      s := MisusedSubmitCanHang(c, calls, k);
  }

  /** Some schedule of this list of calls leaves the client hanging inside one of them. */
  ghost predicate CanHang(c: nat, calls: seq<Call>) {
    exists s, n: nat {:trigger CanReach(s, c, calls[..n])} :: n <= |calls| && CanReach(s, c, calls[..n]) && Hung(s, c)
  }

  /**
   One client that makes these calls can hang if and only if one of them is a submit right behind
   a submit, or a wait with no earlier submit or behind the submit of an empty task.
   */
  lemma CanHangIffMisused(c: nat, calls: seq<Call>)
    ensures CanHang(c, calls) <==> exists k: nat :: k < |calls| && Misused(calls, k)
  {
    if k: nat :| k < |calls| && Misused(calls, k) {
      var first := FirstMisuse(calls, k);
      var s, n := MisuseCanHang(c, calls, first);
    } else {
      forall s, n: nat | n <= |calls| && CanReach(s, c, calls[..n])
        ensures !Hung(s, c)
      {
        OrderlyPrefix(calls, n);
        var run, acts :| IsClientRun(run, acts, c) && run[|acts|] == s && CallsMade(acts, |acts|) == calls[..n];
        OrderlyClientNeverHangs(run, acts, c, |acts|);
      }
    }
  }

  // ----- a wait on nothing never returns -----

  /** Inside a wait, with nothing anywhere that could ever set the completion. */
  predicate WaitsInVain(s: State, c: nat) {
    && s.clients.Keys == {c} && !s.stop && s.completion == NotDone
    && (s.clients[c].Wait? || s.clients[c].WaitAsleep?)
    && (s.slot.Some? ==> s.slot.value.empty)
    && (WorkerFree(s.worker) || (s.worker.WHave? && s.worker.task.empty))
  }

  lemma StillWaitsInVain(s: State, a: Action, c: nat)
    requires WaitsInVain(s, c) && Enabled(s, a)
    ensures CallOf(a) == [] && WaitsInVain(Next(s, a), c)
  {
    if !a.WorkerSpurious? && !a.WorkerStep? {
      assert a.t in s.clients.Keys;
    }
    assert a.WorkerStep? && s.worker.WNotify? && a.wake.Some? ==> a.wake.value in s.clients.Keys;
  }

  lemma BeginsToWaitInVain(s: State, a: Action, c: nat, made: seq<Call>)
    requires ClientInv(s, c, made) && Enabled(s, a) && a.CallWait? && !Awaitable(LastTask(made))
    ensures WaitsInVain(Next(s, a), c)
  {
    assert a.t in s.clients.Keys;
  }

  lemma CallJustMade(before: seq<Call>, call: seq<Call>, made: seq<Call>)
    requires |call| <= 1 && made + [WaitCall] <= before + call && !(made + [WaitCall] <= before)
    ensures before == made && call == [WaitCall]
  {
    assert before == (before + call)[..|before|];
  }

  /** Behind an orderly list of calls, a wait with nothing to wait for never returns, whatever happens. */
  lemma {:induction false} WaitOnNothingNeverReturns(
      run: seq<State>, acts: seq<Action>, c: nat, made: seq<Call>, n: nat)
    requires IsClientRun(run, acts, c) && n < |run|
    requires Orderly(made) && !Awaitable(LastTask(made)) && made + [WaitCall] <= CallsMade(acts, n)
    ensures WaitsInVain(run[n], c) && CallsMade(acts, n) == made + [WaitCall]
  {
    var before, call := CallsMade(acts, n - 1), CallOf(acts[n - 1]);
    if made + [WaitCall] <= before {
      WaitOnNothingNeverReturns(run, acts, c, made, n - 1);
      StillWaitsInVain(run[n - 1], acts[n - 1], c);
    } else {
      CallJustMade(before, call, made);
      RunKeepsClientInv(run, acts, c, n - 1);
      BeginsToWaitInVain(run[n - 1], acts[n - 1], c, made);
    }
  }
}
