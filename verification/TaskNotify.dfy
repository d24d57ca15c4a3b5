/**
 Submitters and the worker of a TaskExecutor sleep on one condition variable, and a submit notifies
 one sleeper: when the worker is sure to be told of a task, and when a task can be forgotten.
 */
module TaskNotify {
  import opened Bytes
  import opened TaskExecutor

  // ----- submits one at a time are always noticed -----

  /** At most one client is inside a submit. */
  ghost predicate OneSubmitter(s: State) {
    forall t, u :: t in s.clients && u in s.clients && Submitting(s.clients[t]) && Submitting(s.clients[u]) ==> t == u
  }

  /** A worker asleep with a task in the slot has a notification coming. */
  ghost predicate WorkerIsTold(s: State) {
    s.worker.WAsleep? && s.slot.Some? ==> exists t :: t in s.clients && s.clients[t].SubmitNotify?
  }

  lemma NextKeepsWorkerTold(s: State, a: Action)
    requires OneSubmitter(s) && WorkerIsTold(s) && Enabled(s, a)
    ensures WorkerIsTold(Next(s, a))
  {
    var s' := Next(s, a);
    if a.ClientStep? && s.clients[a.t].SubmitNotify? {
      NobodySleepsBesideASubmitter(s, a.t);
    } else if s'.worker.WAsleep? && s'.slot.Some? {
      if a.ClientStep? && s.clients[a.t].Submit? && s.slot == None {
        assert s'.clients[a.t].SubmitNotify?;
      } else {
        var t :| t in s.clients && s.clients[t].SubmitNotify?;
        assert s'.clients[t].SubmitNotify?;
      }
    }
  }

  lemma NobodySleepsBesideASubmitter(s: State, t: nat)
    requires OneSubmitter(s) && t in s.clients && s.clients[t].SubmitNotify?
    ensures forall u :: u in s.clients ==> !SleepsOnAvailable(s, u)
  {
    assert Submitting(s.clients[t]);
    forall u | u in s.clients
      ensures !SleepsOnAvailable(s, u)
    {
      assert s.clients[u].SubmitAsleep? ==> Submitting(s.clients[u]);
    }
  }

  /**
   For any number of clients: as long as no two of them are inside a submit at once, the worker
   never sleeps on a full slot without a notification coming.
   */
  lemma {:induction false} SubmitsOneAtATimeAreNoticed(run: seq<State>, acts: seq<Action>, n: nat)
    requires IsRun(run, acts) && n < |run|
    requires forall i: nat :: i < n ==> OneSubmitter(run[i])
    ensures WorkerIsTold(run[n])
  {
    if n > 0 {
      SubmitsOneAtATimeAreNoticed(run, acts, n - 1);
      NextKeepsWorkerTold(run[n - 1], acts[n - 1]);
    }
  }

  // ----- a forgotten task -----

  /** A task in the slot, a sleeping worker, and nobody on the way to notify it. */
  ghost predicate TaskForgotten(s: State) {
    && s.worker.WAsleep? && s.slot.Some?
    && forall t :: t in s.clients ==> !s.clients[t].SubmitNotify? && !s.clients[t].Stop? && !s.clients[t].StopNotify?
  }

  /** The worker is asleep with nobody to notify it, or will see the stop flag before the slot. */
  ghost predicate NeverStarted(s: State) {
    && s.slot.Some?
    && if s.stop then s.worker.WCheck? || s.worker.WAsleep? || s.worker.WExit?
       else
         && s.worker.WAsleep?
         && forall t :: t in s.clients ==> !s.clients[t].SubmitNotify? && !s.clients[t].StopNotify?
  }

  lemma StaysNeverStarted(s: State, a: Action)
    requires NeverStarted(s) && Enabled(s, a) && (a.WorkerSpurious? ==> s.stop)
    ensures NeverStarted(Next(s, a)) && Next(s, a).slot == s.slot && Next(s, a).started == s.started
  {
  }

  lemma {:induction false} RunStaysNeverStarted(run: seq<State>, acts: seq<Action>, m: nat, n: nat)
    requires IsRun(run, acts) && m <= n < |run| && NeverStarted(run[m])
    requires forall i: nat :: m <= i < n && acts[i].WorkerSpurious? ==> run[i].stop
    ensures NeverStarted(run[n]) && run[n].slot == run[m].slot && run[n].started == run[m].started
  {
    if m < n {
      RunStaysNeverStarted(run, acts, m, n - 1);
      StaysNeverStarted(run[n - 1], acts[n - 1]);
    }
  }

  /**
   Whatever the clients call, the destructor included, a forgotten task stays in the slot and the
   worker starts nothing any more, unless it wakes up spuriously before the stop flag is set.
   */
  lemma ForgottenIsNeverStarted(run: seq<State>, acts: seq<Action>, m: nat, n: nat)
    requires IsRun(run, acts) && m <= n < |run| && TaskForgotten(run[m])
    requires forall i: nat :: m <= i < n && acts[i].WorkerSpurious? ==> run[i].stop
    ensures run[n].slot == run[m].slot && run[n].started == run[m].started
  {
    RunStaysNeverStarted(run, acts, m, n);
  }

  // ----- two clients can make the worker miss a task -----

  /** Clients t and u are here, and all others are idle. */
  ghost predicate Two(s: State, t: nat, u: nat, atT: ClientPc, atU: ClientPc) {
    && t != u && t in s.clients && u in s.clients && !s.stop
    && s.clients[t] == atT && s.clients[u] == atU
    && forall v :: v in s.clients && v != t && v != u ==> s.clients[v] == Idle
  }

  /** A step of the worker, with no client asleep in a wait. */
  lemma WorkerGoes(s: State) returns (s': State)
    requires Reachable(s) && !s.worker.WAsleep? && !s.worker.WExit?
    requires forall t :: t in s.clients ==> !s.clients[t].WaitAsleep?
    ensures Reachable(s') && s'.clients == s.clients && s' == WorkerNext(s, None)
  {
    s' := Reach(s, WorkerStep(None));
  }

  /** An idle client calls submit and finds the slot full. */
  lemma SubmitSleeps(s: State, t: nat, task: Task) returns (s': State)
    requires Reachable(s) && t in s.clients && s.clients[t] == Idle && s.slot.Some?
    ensures Reachable(s') && s' == s.(clients := s.clients[t := SubmitAsleep(task)])
  {
    s' := Reach(s, CallSubmit(t, task));
    s' := Reach(s', ClientStep(t, None));
    assert s.clients[t := Submit(task)][t := SubmitAsleep(task)] == s.clients[t := SubmitAsleep(task)];
  }

  /** An idle client calls submit and fills the free slot. */
  lemma SubmitFills(s: State, t: nat, task: Task) returns (s': State)
    requires Reachable(s) && t in s.clients && s.clients[t] == Idle && s.slot == None
    ensures Reachable(s')
    ensures s' == s.(slot := Some(task), completion := NotDone, clients := s.clients[t := SubmitNotify],
                     accepted := s.accepted + [task])
  {
    s' := Reach(s, CallSubmit(t, task));
    s' := Reach(s', ClientStep(t, None));
    assert s.clients[t := Submit(task)][t := SubmitNotify] == s.clients[t := SubmitNotify];
  }

  /** The notification of a submit wakes the worker, when no submitter sleeps. */
  lemma NotifiesWorker(s: State, t: nat) returns (s': State)
    requires Reachable(s) && t in s.clients && s.clients[t] == SubmitNotify
    requires forall u :: u in s.clients ==> !SleepsOnAvailable(s, u)
    ensures Reachable(s') && s' == s.(worker := WakeWorker(s.worker), clients := s.clients[t := Idle])
  {
    s' := Reach(s, ClientStep(t, None));
  }

  /** The notification of a submit goes to a sleeping submitter, which finds the slot full again. */
  lemma NotifiesSubmitter(s: State, t: nat, u: nat) returns (s': State)
    requires Reachable(s) && t in s.clients && s.clients[t] == SubmitNotify
    requires SleepsOnAvailable(s, u) && s.slot.Some?
    ensures Reachable(s') && s' == s.(clients := s.clients[t := Idle])
  {
    s' := Reach(s, ClientStep(t, Some(u)));
    s' := Reach(s', ClientStep(u, None));
    assert s'.clients == s.clients[t := Idle];
  }

  /** Client t fills the free slot and falls asleep in its next submit, the others do nothing. */
  lemma SecondSubmitSleeps(C: set<nat>, t: nat, u: nat, first: Task, second: Task) returns (s: State)
    requires t in C && u in C && t != u
    ensures Reachable(s) && s.clients.Keys == C && s.slot == Some(first) && s.worker == WCheck
    ensures Two(s, t, u, SubmitAsleep(second), Idle)
  {
    s := State(None, false, NotDone, false, WCheck, map v | v in C :: Idle, [], [], []);
    assert IsRun([s], []) && [s][0] == s;
    s := SubmitFills(s, t, first);
    s := NotifiesWorker(s, t);
    s := SubmitSleeps(s, t, second);
  }

  /** One client submits twice in a row and is left asleep on the slot the worker has emptied. */
  lemma SubmitterStranded(C: set<nat>, t: nat, u: nat, first: Task, second: Task) returns (s: State)
    requires t in C && u in C && t != u && !first.empty
    ensures Reachable(s) && s.clients.Keys == C && s.slot == None && s.worker == WAsleep
    ensures Two(s, t, u, SubmitAsleep(second), Idle)
  {
    s := SecondSubmitSleeps(C, t, u, first, second);
    s := WorkerGoes(s);
    s := WorkerGoes(s);
    s := WorkerGoes(s);
    s := WorkerGoes(s);
    s := WorkerGoes(s);
  }

  lemma TwoAtRestIsQuiet(s: State, t: nat, u: nat, task: Task)
    requires Two(s, t, u, SubmitAsleep(task), Idle) && s.worker == WAsleep
    ensures Quiet(s)
  {
  }

  /**
   Any two of any number of clients, and any tasks: the notification of the submit of `third` can go
   to the sleeping submitter, and then nothing can move any more with the task in the slot.
   */
  lemma NotifyOneCanMissTheWorker(C: set<nat>, t: nat, u: nat, first: Task, second: Task, third: Task)
      returns (s: State)
    requires t in C && u in C && t != u && !first.empty
    ensures Reachable(s) && s.clients.Keys == C && Quiet(s) && TaskForgotten(s) && s.slot == Some(third) && !s.stop
  {
    s := SubmitterStranded(C, t, u, first, second);
    s := SubmitFills(s, u, third);
    s := NotifiesSubmitter(s, u, t);
    TwoAtRestIsQuiet(s, t, u, second);
  }

  // ----- exactly when a task can be forgotten -----

  lemma {:induction false} RunKeepsClients(run: seq<State>, acts: seq<Action>, n: nat)
    requires IsRun(run, acts) && n < |run|
    ensures run[n].clients.Keys == run[0].clients.Keys
  {
    if n > 0 {
      RunKeepsClients(run, acts, n - 1);
      NextKeepsClients(run[n - 1], acts[n - 1]);
    }
  }

  lemma NextKeepsClients(s: State, a: Action)
    requires Enabled(s, a)
    ensures Next(s, a).clients.Keys == s.clients.Keys
  {
  }

  lemma OneOfFew(C: set<nat>, t: nat, u: nat)
    requires |C| <= 1 && t in C && u in C
    ensures t == u
  {
    assert |C - {t}| == 0;
    assert u !in C - {t};
  }

  /** With these clients some schedule forgets an accepted task. */
  ghost predicate CanForget(C: set<nat>) {
    exists s :: Reachable(s) && s.clients.Keys == C && TaskForgotten(s)
  }

  /** An accepted task can be forgotten if and only if there are at least two clients. */
  lemma CanForgetIff(C: set<nat>)
    ensures CanForget(C) <==> |C| >= 2
  {
    if |C| >= 2 {
      var t :| t in C;
      assert |C - {t}| >= 1;
      var u :| u in C - {t};
      var task := Task(0, false, Returns);
      var s := NotifyOneCanMissTheWorker(C, t, u, task, task, task);
    } else {
      forall s | Reachable(s) && s.clients.Keys == C
        ensures !TaskForgotten(s)
      {
        FewClientsForgetNothing(s, C);
      }
    }
  }

  lemma FewClientsOneSubmitter(s: State)
    requires |s.clients.Keys| <= 1
    ensures OneSubmitter(s)
  {
    forall t, u | t in s.clients.Keys && u in s.clients.Keys
      ensures t == u
    {
      OneOfFew(s.clients.Keys, t, u);
    }
  }

  lemma FewClientsForgetNothing(s: State, C: set<nat>)
    requires Reachable(s) && s.clients.Keys == C && |C| <= 1
    ensures !TaskForgotten(s)
  {
    var run: seq<State>, acts :| IsRun(run, acts) && run[|acts|] == s;
    RunKeepsClients(run, acts, |acts|);
    forall i: nat | i < |run|
      ensures OneSubmitter(run[i])
    {
      RunKeepsClients(run, acts, i);
      FewClientsOneSubmitter(run[i]);
    }
    SubmitsOneAtATimeAreNoticed(run, acts, |acts|);
  }
}
