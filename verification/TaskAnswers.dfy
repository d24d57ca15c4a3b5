/**
 Whose outcome a wait returns: for exactly which lists of calls a late DONE of an earlier task can
 answer a wait for a later one, and that on all other lists every answer is the right one.
 */
module TaskAnswers {
  import opened Bytes
  import opened TaskExecutor
  import opened TaskClient

  /** The last submit comes right behind the submit of a non-empty task. */
  predicate Hurried(calls: seq<Call>) {
    if calls == [] then false
    else
      var made, last := calls[..|calls| - 1], calls[|calls| - 1];
      if last.WaitCall? then Hurried(made)
      else made != [] && made[|made| - 1].SubmitCall? && !made[|made| - 1].task.empty
  }

  /** Call m is a wait for a task submitted in a hurry, and every wait before it has a task to wait for. */
  predicate LateWait(calls: seq<Call>, m: nat)
    requires m < |calls|
  {
    calls[m].WaitCall? && Hurried(calls[..m]) && WaitsHaveTasks(calls[..m])
  }

  predicate Prompt(calls: seq<Call>) {
    forall m: nat :: m < |calls| ==> !LateWait(calls, m)
  }

  lemma PromptPrefix(calls: seq<Call>, n: nat)
    requires n <= |calls| && Prompt(calls)
    ensures Prompt(calls[..n])
  {
    forall m: nat | m < n
      ensures !LateWait(calls[..n], m)
    {
      assert calls[..n][..m] == calls[..m];
      assert !LateWait(calls, m);
    }
  }

  lemma PromptBefore(made: seq<Call>, calls: seq<Call>)
    requires Prompt(made + calls)
    ensures Prompt(made)
  {
    PromptPrefix(made + calls, |made|);
    assert (made + calls)[..|made|] == made;
  }

  lemma HurriedSnoc(made: seq<Call>, call: Call)
    ensures Hurried(made + [call]) ==
            if call.WaitCall? then Hurried(made)
            else made != [] && made[|made| - 1].SubmitCall? && !made[|made| - 1].task.empty
  {
    assert (made + [call])[..|made|] == made;
  }

  /** How many tasks must be finished once every wait among these calls has returned. */
  function Due(calls: seq<Call>): nat {
    if calls == [] then 0
    else if calls[|calls| - 1].WaitCall? then |Tasks(calls)| else Due(calls[..|calls| - 1])
  }

  lemma DueSnoc(made: seq<Call>, call: Call)
    ensures Due(made + [call]) == if call.WaitCall? then |Tasks(made)| else Due(made)
  {
    assert (made + [call])[..|made|] == made;
    TasksSnoc(made, call);
  }

  lemma SameEnd(a: seq<Task>, x: Task, b: seq<Task>, y: Task)
    requires a + [x] == b + [y]
    ensures a == b && x == y
  {
    assert (a + [x])[..|a|] == a && (b + [y])[..|b|] == b;
    assert (a + [x])[|a|] == x;
  }

  /** Behind these tasks the last call is the submit of the last one, if the others are more than is due. */
  lemma LastCallSubmits(made: seq<Call>, tasks: seq<Task>, last: Task) returns (before: seq<Call>)
    requires Tasks(made) == tasks + [last] && Due(made) <= |tasks|
    ensures made == before + [SubmitCall(last)] && Tasks(before) == tasks && Due(before) == Due(made)
  {
    before := made[..|made| - 1];
    var call := made[|made| - 1];
    assert made == before + [call];
    DueSnoc(before, call);
    TasksSnoc(before, call);
    if call.WaitCall? {
      assert false;
    }
    SameEnd(Tasks(before), call.task, tasks, last);
  }

  /** A non-empty task running while the next one is in the slot was submitted right before it. */
  lemma SlotBehindRunning(made: seq<Call>, finished: seq<Task>, running: Task, next: Task)
    requires Tasks(made) == finished + [running] + [next] && Due(made) <= |finished| && !running.empty
    ensures Hurried(made)
  {
    var before := LastCallSubmits(made, finished + [running], next);
    var earlier := LastCallSubmits(before, finished, running);
    HurriedSnoc(before, SubmitCall(next));
  }

  // ----- what the record says -----

  predicate RightFor(s: State, task: Task) {
    !task.empty && s.completion == CompletionOf(task.outcome) && s.failed == task.outcome.ThrowsException?
  }

  /** With any number of clients: a completion on record is that of the last finished task. */
  ghost predicate RecordInv(s: State) {
    && (Running(s.worker) != [] ==> s.completion == NotDone && !s.failed)
    && (s.worker.WRan? ==> !s.worker.task.empty)
    && (s.completion != NotDone ==> s.finished != [] && RightFor(s, s.finished[|s.finished| - 1]))
  }

  lemma NextKeepsRecord(s: State, a: Action)
    requires RecordInv(s) && Enabled(s, a)
    ensures RecordInv(Next(s, a))
  {
  }

  // ----- one client -----

  /** The calls made, without a wait that has not returned yet. */
  function Returned(pc: ClientPc, made: seq<Call>): seq<Call> {
    if InWait(pc) && made != [] then made[..|made| - 1] else made
  }

  /** Where the client is, and what it has submitted. */
  ghost predicate PlaceInv(s: State, c: nat, made: seq<Call>) {
    && s.clients.Keys == {c} && !s.stop && Books(s)
    && s.accepted + Offered(s.clients[c]) == Tasks(made)
    && (InWait(s.clients[c]) ==> LastIsWait(made))
    && (Submitting(s.clients[c]) ==> LastIsSubmit(made))
    && !s.clients[c].Stop? && !s.clients[c].StopNotify? && !s.clients[c].Joining?
  }

  /** No completion of an earlier task is on record while the last one is unfinished, except in a hurry. */
  ghost predicate AnswerInv(s: State, c: nat, made: seq<Call>)
    requires c in s.clients
  {
    var pc := s.clients[c];
    && (Offered(pc) != [] || Hurried(made) || s.completion == NotDone || s.finished == s.accepted)
    && (pc.WaitDone? ==> Hurried(made) || (s.finished == s.accepted && pc.state == s.completion != NotDone))
    && Due(Returned(pc, made)) <= |s.finished| && WaitsHaveTasks(Returned(pc, made))
  }

  ghost predicate Inv(s: State, c: nat, made: seq<Call>) {
    PlaceInv(s, c, made) && c in s.clients && RecordInv(s) && AnswerInv(s, c, made)
  }

  lemma RecordKeepsAnswers(s: State, wake: Option<nat>, c: nat, made: seq<Call>)
    requires Inv(s, c, made) && Enabled(s, WorkerStep(wake)) && s.worker.WRan?
    ensures AnswerInv(Next(s, WorkerStep(wake)), c, made)
  {
    var pc, task := s.clients[c], s.worker.task;
    if Offered(pc) == [] && s.slot.Some? {
      var returned := Returned(pc, made);
      if returned != made {
        assert made == returned + [WaitCall];
        TasksSnoc(returned, WaitCall);
        assert Tasks(returned) + [] == Tasks(returned);
        HurriedSnoc(returned, WaitCall);
      }
      assert s.accepted + [] == s.accepted && Tasks(returned) == Tasks(made);
      assert s.accepted == s.finished + [task] + [s.slot.value];
      SlotBehindRunning(returned, s.finished, task, s.slot.value);
    }
  }

  lemma WorkerNotifyKeepsInv(s: State, wake: Option<nat>, c: nat, made: seq<Call>)
    requires Inv(s, c, made) && Enabled(s, WorkerStep(wake)) && s.worker.WNotify?
    ensures Inv(Next(s, WorkerStep(wake)), c, made)
  {
    NextKeepsRecord(s, WorkerStep(wake));
    assert wake.Some? ==> wake.value in s.clients.Keys;
  }

  lemma WorkerKeepsInv(s: State, wake: Option<nat>, c: nat, made: seq<Call>)
    requires Inv(s, c, made) && Enabled(s, WorkerStep(wake))
    ensures Inv(Next(s, WorkerStep(wake)), c, made)
  {
    NextKeepsRecord(s, WorkerStep(wake));
    if s.worker.WNotify? {
      WorkerNotifyKeepsInv(s, wake, c, made);
    } else if s.worker.WRan? {
      RecordKeepsAnswers(s, wake, c, made);
    }
  }

  lemma SubmitCallKeepsInv(s: State, c: nat, task: Task, made: seq<Call>)
    requires Inv(s, c, made) && Enabled(s, CallSubmit(c, task))
    ensures Inv(Next(s, CallSubmit(c, task)), c, made + [SubmitCall(task)])
  {
    NextKeepsRecord(s, CallSubmit(c, task));
    TasksSnoc(made, SubmitCall(task));
    DueSnoc(made, SubmitCall(task));
    WaitsHaveTasksPlus(made, SubmitCall(task));
    assert s.accepted + [] == s.accepted;
  }

  lemma WaitCallKeepsInv(s: State, c: nat, made: seq<Call>)
    requires Inv(s, c, made) && Enabled(s, CallWait(c))
    ensures Inv(Next(s, CallWait(c)), c, made + [WaitCall])
  {
    NextKeepsRecord(s, CallWait(c));
    TasksSnoc(made, WaitCall);
    HurriedSnoc(made, WaitCall);
    assert (made + [WaitCall])[..|made|] == made;
    assert Tasks(made) + [] == Tasks(made);
  }

  lemma WaitsHaveTasksPlus(made: seq<Call>, call: Call)
    requires WaitsHaveTasks(made) && (call.WaitCall? ==> Awaitable(LastTask(made)))
    ensures WaitsHaveTasks(made + [call])
  {
    forall k: nat | k < |made + [call]| && (made + [call])[k].WaitCall?
      ensures Awaitable(LastTask((made + [call])[..k]))
    {
      assert (made + [call])[..k] == made[..k];
      assert made[..|made|] == made;
    }
  }

  lemma SubmitStepKeepsInv(s: State, wake: Option<nat>, c: nat, made: seq<Call>)
    requires Inv(s, c, made) && Enabled(s, ClientStep(c, wake)) && Submitting(s.clients[c])
    ensures Inv(Next(s, ClientStep(c, wake)), c, made)
  {
    NextKeepsRecord(s, ClientStep(c, wake));
    NextKeepsBooks(s, ClientStep(c, wake));
    assert forall u :: u in s.clients.Keys ==> u == c;
  }

  lemma WaitStepKeepsInv(s: State, wake: Option<nat>, c: nat, made: seq<Call>)
    requires Inv(s, c, made) && Enabled(s, ClientStep(c, wake)) && s.clients[c].Wait?
    ensures Inv(Next(s, ClientStep(c, wake)), c, made)
  {
    NextKeepsRecord(s, ClientStep(c, wake));
  }

  lemma WakeupKeepsInv(s: State, a: Action, c: nat, made: seq<Call>)
    requires Inv(s, c, made) && Enabled(s, a) && (a.ClientSpurious? || a.WorkerSpurious?)
    ensures Inv(Next(s, a), c, made)
  {
    NextKeepsRecord(s, a);
    if a.ClientSpurious? {
      assert a.t in s.clients.Keys;
    }
  }

  /** In a prompt list, a wait behind waits with tasks is not hurried; with a task of its own, it is one of them. */
  lemma PromptWait(made: seq<Call>)
    requires LastIsWait(made) && Prompt(made) && WaitsHaveTasks(made[..|made| - 1])
    ensures !Hurried(made) && Due(made) == |Tasks(made)|
    ensures Awaitable(LastTask(made)) ==> WaitsHaveTasks(made)
  {
    var before := made[..|made| - 1];
    assert made == before + [WaitCall];
    HurriedSnoc(before, WaitCall);
    TasksSnoc(before, WaitCall);
    assert Tasks(before) + [] == Tasks(before);
    DueSnoc(before, WaitCall);
    assert !LateWait(made, |made| - 1);
    if Awaitable(LastTask(made)) {
      WaitsHaveTasksPlus(before, WaitCall);
    }
  }

  /** A wait that returns was answered in time, so it had a task to wait for, and all tasks are finished. */
  lemma ReturnKeepsInv(s: State, c: nat, made: seq<Call>)
    requires Inv(s, c, made) && Enabled(s, Return(c)) && Prompt(made)
    ensures Inv(Next(s, Return(c)), c, made)
  {
    PromptWait(made);
    assert s.accepted + [] == s.accepted;
  }

  lemma NextKeepsInv(s: State, a: Action, c: nat, made: seq<Call>)
    requires Inv(s, c, made) && Enabled(s, a) && !a.CallStop? && Prompt(made)
    ensures Inv(Next(s, a), c, made + CallOf(a))
  {
    if a.CallSubmit? || a.CallWait? {
      assert a.t in s.clients.Keys;
      if a.CallSubmit? {
        SubmitCallKeepsInv(s, c, a.task, made);
      } else {
        WaitCallKeepsInv(s, c, made);
      }
    } else {
      assert made + CallOf(a) == made;
      match a
      case WorkerStep(wake) => WorkerKeepsInv(s, wake, c, made);
      case Return(t) =>
        assert t in s.clients.Keys;
        ReturnKeepsInv(s, c, made);
      case ClientStep(t, wake) =>
        assert t in s.clients.Keys;
        if s.clients[c].Wait? {
          WaitStepKeepsInv(s, wake, c, made);
        } else {
          SubmitStepKeepsInv(s, wake, c, made);
        }
      case _ => WakeupKeepsInv(s, a, c, made);
    }
  }

  lemma {:induction false} RunKeepsInv(run: seq<State>, acts: seq<Action>, c: nat, n: nat)
    requires IsClientRun(run, acts, c) && n < |run| && Prompt(CallsMade(acts, n))
    ensures Inv(run[n], c, CallsMade(acts, n))
  {
    if n == 0 {
      assert c in run[0].clients.Keys;
    } else {
      PromptBefore(CallsMade(acts, n - 1), CallOf(acts[n - 1]));
      RunKeepsInv(run, acts, c, n - 1);
      NextKeepsInv(run[n - 1], acts[n - 1], c, CallsMade(acts, n - 1));
    }
  }

  /** A wait about to return while a task that was accepted is not finished. */
  ghost predicate AnswersLate(s: State, c: nat) {
    c in s.clients && s.clients[c].WaitDone? && s.finished != s.accepted
  }

  /**
   A client without a late wait, orderly or not: every wait that is answered has all tasks finished,
   and its answer is the outcome of the last one, with the exception on record iff that task threw one.
   */
  lemma PromptAnswersAreRight(run: seq<State>, acts: seq<Action>, c: nat, n: nat)
    requires IsClientRun(run, acts, c) && n < |run| && Prompt(CallsMade(acts, n))
    requires c in run[n].clients && run[n].clients[c].WaitDone?
    ensures !AnswersLate(run[n], c) && run[n].accepted == Tasks(CallsMade(acts, n)) != []
    ensures var s := run[n]; var task := s.accepted[|s.accepted| - 1];
            && Answers(s.clients[c].state, task.outcome)
            && !task.empty && s.failed == task.outcome.ThrowsException?
  {
    RunKeepsInv(run, acts, c, n);
    PromptWait(CallsMade(acts, n));
    CompletionAnswers(run[n].accepted[|run[n].accepted| - 1].outcome);
  }

  // ----- and a hurried wait can be answered too early -----

  /** The first task has run and its outcome is not recorded yet. */
  lemma FirstTaskRan(s0: State, c: nat, made: seq<Call>, first: Task) returns (s: State)
    requires CanReach(s0, c, made) && Alone(s0, c, Idle) && s0.slot == Some(first) && s0.worker == WCheck
    requires !first.empty
    ensures CanReach(s, c, made) && Alone(s, c, Idle) && s.slot == None && s.worker == WRan(first)
  {
    s := WorkerMoves(s0, c, made, Idle);
    s := WorkerMoves(s, c, made, Idle);
  }

  /** The second task gets into the slot before the outcome of the first is recorded. */
  lemma SecondTaskBehind(s0: State, c: nat, made: seq<Call>, first: Task, second: Task) returns (s: State)
    requires CanReach(s0, c, made) && Alone(s0, c, Idle) && s0.slot == None && s0.worker == WRan(first)
    ensures CanReach(s, c, made + [SubmitCall(second)]) && Alone(s, c, Idle)
    ensures s.slot == Some(second) && s.completion == CompletionOf(first.outcome)
  {
    var made' := made + [SubmitCall(second)];
    s := Calls(s0, c, made, SubmitCall(second));
    s := SubmitMoves(s, c, made', second);
    s := NotifyMoves(s, c, made');
    s := WorkerMoves(s, c, made', Idle);
  }

  /**
   Behind two submits in a row, a wait can return the outcome of the first task while the second
   one is still in the slot: the late DONE of the first overwrites the NOT_DONE of the second.
   */
  lemma LateDoneAnswersTheWrongTask(c: nat, made: seq<Call>, first: Task, second: Task) returns (s: State)
    requires WaitsHaveTasks(made) && !first.empty
    ensures CanReach(s, c, made + [SubmitCall(first), SubmitCall(second), WaitCall])
    ensures Alone(s, c, WaitDone(CompletionOf(first.outcome))) && s.slot == Some(second)
  {
    var made1 := made + [SubmitCall(first)];
    var made2 := made1 + [SubmitCall(second)];
    assert made2 + [WaitCall] == made + [SubmitCall(first), SubmitCall(second), WaitCall];
    s := ComesToRest(c, made);
    s := SlotFilled(s, c, made, first);
    s := FirstTaskRan(s, c, made1, first);
    s := SecondTaskBehind(s, c, made1, first, second);
    s := WaitReturns(s, c, made2);
  }

  /** The two submits that make a list hurried, and nothing but waits behind them. */
  lemma {:induction false} HurriedSubmits(calls: seq<Call>) returns (j: nat)
    requires Hurried(calls)
    ensures 1 <= j < |calls| && calls[j].SubmitCall? && calls[j - 1].SubmitCall? && !calls[j - 1].task.empty
    ensures forall i: nat :: j < i < |calls| ==> calls[i].WaitCall?
  {
    if calls[|calls| - 1].WaitCall? {
      j := HurriedSubmits(calls[..|calls| - 1]);
    } else {
      j := |calls| - 1;
    }
  }

  lemma LateWaitSubmits(calls: seq<Call>, m: nat) returns (j: nat)
    requires m < |calls| && LateWait(calls, m)
    ensures 1 <= j <= |calls| - 2 && calls[j - 1].SubmitCall? && !calls[j - 1].task.empty && calls[j].SubmitCall?
    ensures WaitsHaveTasks(calls[..j - 1])
    ensures calls[..j + 2] == calls[..j - 1] + [calls[j - 1], calls[j], WaitCall]
  {
    j := HurriedSubmits(calls[..m]);
    assert calls[j + 1].WaitCall?;
    WaitsHaveTasksPrefix(calls[..m], j - 1);
    assert calls[..m][..j - 1] == calls[..j - 1];
  }

  lemma LateWaitCanAnswerLate(c: nat, calls: seq<Call>, m: nat) returns (s: State, n: nat)
    requires m < |calls| && LateWait(calls, m)
    ensures n <= |calls| && CanReach(s, c, calls[..n]) && AnswersLate(s, c)
  {
    var j := LateWaitSubmits(calls, m);
    n := j + 2;
    s := LateDoneAnswersTheWrongTask(c, calls[..j - 1], calls[j - 1].task, calls[j].task);
    assert CanReach(s, c, calls[..n]);
    ReachedHasBooks(s, c, calls[..n]);
  }

  lemma ReachedHasBooks(s: State, c: nat, made: seq<Call>)
    requires CanReach(s, c, made)
    ensures Books(s)
  {
    var run, acts :| IsClientRun(run, acts, c) && run[|acts|] == s && CallsMade(acts, |acts|) == made;
    RunKeepsBooks(run, acts, |acts|);
  }

  /** Some schedule of these calls answers a wait while an accepted task is not finished. */
  ghost predicate CanAnswerLate(c: nat, calls: seq<Call>) {
    exists s, n: nat {:trigger CanReach(s, c, calls[..n])} ::
      n <= |calls| && CanReach(s, c, calls[..n]) && AnswersLate(s, c)
  }

  /**
   One client that makes these calls can get an answer too early if and only if one of them is a
   wait whose last submit comes right behind the submit of a non-empty task, and every wait before
   it has a task to wait for.
   */
  lemma CanAnswerLateIff(c: nat, calls: seq<Call>)
    ensures CanAnswerLate(c, calls) <==> exists m: nat :: m < |calls| && LateWait(calls, m)
  {
    if m: nat :| m < |calls| && LateWait(calls, m) {
      var s, n := LateWaitCanAnswerLate(c, calls, m);
    } else {
      assert Prompt(calls);
      forall s, n: nat | n <= |calls| && CanReach(s, c, calls[..n])
        ensures !AnswersLate(s, c)
      {
        PromptPrefix(calls, n);
        var run, acts :| IsClientRun(run, acts, c) && run[|acts|] == s && CallsMade(acts, |acts|) == calls[..n];
        if AnswersLate(s, c) {
          PromptAnswersAreRight(run, acts, c, |acts|);
        }
      }
    }
  }
}
