/** Stopping, forwarding once, and what is left in the queues. */
module WatchStop {
  import opened WatchSession
  import opened WatchSafety
  import opened Options

  // ----- Every live forwarder has somebody waiting to stop it -----

  ghost predicate Owned(s: State, t: nat) {
    || (exists name :: name in s.registry && s.registry[name] == t)
    || (s.main.Joining? && s.main.task == t)
    || (s.main.Draining? && s.main.waiting == Some(t))
    || (s.main.Draining? && exists name :: name in s.main.left && s.main.left[name] == t)
  }

  ghost predicate Supervised(s: State) {
    && (forall t :: 0 <= t < |s.tasks| && s.tasks[t].phase != Finished ==> Owned(s, t))
    && (s.main.Draining? || s.main.Closed? ==> s.registry == map[])
    && (s.main.Closed? ==> forall t :: 0 <= t < |s.tasks| ==> Holding(s.tasks[t]) == multiset{})
  }

  ghost predicate KnownTasks(s: State) {
    && (forall name :: name in s.registry ==> s.registry[name] < |s.tasks|)
    && (s.main.Draining? ==> forall name :: name in s.main.left ==> s.main.left[name] < |s.tasks|)
    && (s.main.Joining? ==> s.main.task < |s.tasks| && s.tasks[s.main.task].stop)
    && (s.main.Draining? && s.main.waiting.Some? ==>
          s.main.waiting.value < |s.tasks| && s.tasks[s.main.waiting.value].stop)
  }

  lemma KnownStep(s: State, step: Step)
    requires KnownTasks(s) && Enabled(s, step)
    ensures KnownTasks(Apply(s, step))
  {
    hide Held, LetGo, Moved;
    if step.TaskStep? { ActKeepsStop(s.tasks[step.task], s.queues[s.tasks[step.task].queue], step.action); }
  }

  lemma ActKeepsStop(t: Task, q: Queue, a: Action)
    requires CanAct(t, q, a)
    ensures Act(t, q, a).task.stop == t.stop
    ensures Act(t, q, a).task.phase == Running ==> t.phase == Running
    ensures t.phase == Finished ==> Act(t, q, a).task.phase == Finished && Act(t, q, a).note == Silent
  {
  }

  lemma TaskStepSupervised(s: State, t: nat, a: Action)
    requires Supervised(s) && Enabled(s, TaskStep(t, a))
    ensures Supervised(Apply(s, TaskStep(t, a)))
  {
    hide Act, CanAct, Holding;
    var s' := Apply(s, TaskStep(t, a));
    ActKeepsStop(s.tasks[t], s.queues[s.tasks[t].queue], a);
    forall u | 0 <= u < |s'.tasks| && s'.tasks[u].phase != Finished ensures Owned(s', u) {
      assert Owned(s, u);
    }
  }

  lemma ControlSupervised(s: State, step: Step)
    requires Supervised(s) && KnownTasks(s) && Enabled(s, step) && !step.TaskStep?
    ensures Supervised(Apply(s, step))
  {
    hide Held, Moved, CanMove;
    var s' := Apply(s, step);
    forall u | 0 <= u < |s'.tasks| && s'.tasks[u].phase != Finished ensures Owned(s', u) {
      if u < |s.tasks| {
        assert Owned(s, u);
        OwnerPassedOn(s, step, u);
      } else {
        assert s'.registry[step.name] == u;
      }
    }
  }

  lemma OwnerPassedOn(s: State, step: Step, u: nat)
    requires Owned(s, u) && KnownTasks(s) && Enabled(s, step) && !step.TaskStep?
    requires u < |s.tasks| && s.tasks[u].phase != Finished
    ensures Owned(Apply(s, step), u)
  {
    hide Held, Moved, CanMove, LetGo;
    var s' := Apply(s, step);
    if name :| name in s.registry && s.registry[name] == u {
      if name in s'.registry { assert s'.registry[name] == u || step.Start?; }
      if step.EndOfInput? { assert s'.main.left[name] == u; }
    } else if s.main.Draining? && s.main.waiting != Some(u) {
      var name :| name in s.main.left && s.main.left[name] == u;
      if s'.main.Draining? && name in s'.main.left { assert s'.main.left[name] == u; }
    }
  }

  lemma {:induction false} StepSupervised(s: State, step: Step)
    requires Supervised(s) && KnownTasks(s) && Enabled(s, step)
    ensures Supervised(Apply(s, step)) && KnownTasks(Apply(s, step))
  {
    hide Apply, Supervised, KnownTasks, Enabled;
    KnownStep(s, step);
    if step.TaskStep? { TaskStepSupervised(s, step.task, step.action); } else { ControlSupervised(s, step); }
  }

  // ----- No message is forwarded twice in one watch -----

  /** Where a forwarded message is while the watch goes on: held for requeue, failed to settle, or gone. */
  function Spent(t: Task, q: Queue, id: Id): nat {
    multiset(t.pending)[id] + multiset(t.unsettled)[id] + q.settled[id]
  }

  /** Forwards are recorded of known forwarders, and a running one keeps what it forwarded. */
  ghost predicate Kept(s: State) {
    forall t: nat, id: Id :: Forwarded(t, id) in s.log ==>
      && t < |s.tasks|
      && (s.tasks[t].phase == Running ==>
            s.tasks[t].queue in s.queues && Spent(s.tasks[t], s.queues[s.tasks[t].queue], id) >= 1)
  }

  predicate ForwardedOnce(log: seq<Event>) {
    forall i, j :: 0 <= i < j < |log| && log[i].Forwarded? ==> log[i] != log[j]
  }

  /** After the reply to a stop its forwarder neither forwards nor requeues. */
  predicate SilentAfterStop(log: seq<Event>) {
    forall i, j :: 0 <= i < j < |log| && log[i].Stopped? && log[i].handle.Some? && (log[j].Forwarded? || log[j].Nacked?)
                   ==> log[j].task != log[i].handle.value
  }

  ghost predicate StoppedAreFinished(s: State) {
    forall i :: 0 <= i < |s.log| && s.log[i].Stopped? && s.log[i].handle.Some? ==>
      s.log[i].handle.value < |s.tasks| && s.tasks[s.log[i].handle.value].phase == Finished
  }

  ghost predicate Orderly(s: State) {
    Kept(s) && ForwardedOnce(s.log) && SilentAfterStop(s.log) && StoppedAreFinished(s)
  }

  lemma ActSpends(t: Task, q: Queue, a: Action, id: Id)
    requires CanAct(t, q, a) && Act(t, q, a).task.phase == Running
    ensures var r := Act(t, q, a);
            && Spent(r.task, r.queue, id) >= Spent(t, q, id)
            && (r.note == SentOut(id) ==> Spent(r.task, r.queue, id) >= 1)
  {
  }

  lemma ActSettles(t: Task, q: Queue, a: Action, id: Id)
    requires CanAct(t, q, a)
    ensures Act(t, q, a).queue.settled[id] >= q.settled[id]
    ensures Act(t, q, a).note == SentOut(id) ==> t.phase == Running && multiset(t.buffer)[id] >= 1
    ensures Act(t, q, a).note != Silent ==> t.phase != Finished
  {
  }

  /** A message the forwarder has yet to read is not one it has forwarded. */
  lemma UnreadIsFresh(s: State, t: nat, id: Id)
    requires Accounts(s) && Kept(s) && t < |s.tasks| && s.tasks[t].phase == Running
    requires multiset(s.tasks[t].buffer)[id] >= 1
    ensures Forwarded(t, id) !in s.log
  {
    var q := s.tasks[t].queue;
    assert Accounted(s, q);
    assert s.queues[q].published[id] <= 1;
    HeldCovers(s.tasks, t, q, |s.tasks|, id);
  }

  lemma {:induction false} TaskStepKept(s: State, t: nat, a: Action)
    requires Accounts(s) && Kept(s) && Enabled(s, TaskStep(t, a))
    ensures Kept(Apply(s, TaskStep(t, a)))
  {
    hide Act, CanAct, Spent;
    var s' := Apply(s, TaskStep(t, a));
    var home := s.tasks[t].queue;
    ActKeepsStop(s.tasks[t], s.queues[home], a);
    ActKeeps(s.tasks[t], s.queues[home], a);
    forall u: nat, id: Id | Forwarded(u, id) in s'.log
      ensures && u < |s'.tasks|
              && (s'.tasks[u].phase == Running ==>
                    s'.tasks[u].queue in s'.queues && Spent(s'.tasks[u], s'.queues[s'.tasks[u].queue], id) >= 1)
    {
      ActSettles(s.tasks[t], s.queues[home], a, id);
      if Forwarded(u, id) !in s.log {
        assert Forwarded(u, id) in NoteEvents(t, Act(s.tasks[t], s.queues[home], a).note);
      }
      if u == t {
        if s'.tasks[t].phase == Running { ActSpends(s.tasks[t], s.queues[home], a, id); }
      } else {
        SpentGrows(s.tasks[u], s.queues, s'.queues, id);
      }
    }
  }

  lemma SpentGrows(t: Task, queues: map<string, Queue>, queues': map<string, Queue>, id: Id)
    requires t.queue in queues && t.queue in queues'
    requires queues'[t.queue].settled[id] >= queues[t.queue].settled[id]
    ensures Spent(t, queues'[t.queue], id) >= Spent(t, queues[t.queue], id)
  {
  }

  lemma ControlKept(s: State, step: Step)
    requires Kept(s) && Accounts(s) && Supervised(s) && KnownTasks(s) && Enabled(s, step) && !step.TaskStep?
    ensures Kept(Apply(s, step))
  {
    hide Held, Accounts;
    var s' := Apply(s, step);
    forall u: nat, id: Id | Forwarded(u, id) in s'.log
      ensures && u < |s'.tasks|
              && (s'.tasks[u].phase == Running ==>
                    s'.tasks[u].queue in s'.queues && Spent(s'.tasks[u], s'.queues[s'.tasks[u].queue], id) >= 1)
    {
      assert Forwarded(u, id) in s.log;
      assert step.Close? ==> !Owned(s, u);
      assert step.Close? ==> s.tasks[u].phase == Finished;
    }
  }

  /** Appending what a step reports keeps the log in order. */
  lemma TaskStepOrderly(s: State, t: nat, a: Action)
    requires Accounts(s) && Orderly(s) && Enabled(s, TaskStep(t, a))
    ensures Orderly(Apply(s, TaskStep(t, a)))
  {
    hide Act, CanAct, Kept, Accounts;
    TaskStepKept(s, t, a);
    var home := s.tasks[t].queue;
    var note := Act(s.tasks[t], s.queues[home], a).note;
    ActKeepsStop(s.tasks[t], s.queues[home], a);
    if note.SentOut? {
      ActSettles(s.tasks[t], s.queues[home], a, note.id);
      UnreadIsFresh(s, t, note.id);
    }
  }

  lemma {:induction false} ControlOrderly(s: State, step: Step)
    requires Accounts(s) && Orderly(s) && Supervised(s) && KnownTasks(s) && Enabled(s, step) && !step.TaskStep?
    ensures Orderly(Apply(s, step))
  {
    hide Held, Kept, Accounts, Supervised, KnownTasks, Moved, CanMove;
    ControlKept(s, step);
  }

  ghost predicate Sound(s: State) { Accounts(s) && Supervised(s) && KnownTasks(s) && Orderly(s) }

  lemma {:induction false} StepSound(s: State, step: Step)
    requires Sound(s) && Enabled(s, step)
    ensures Sound(Apply(s, step))
  {
    hide Accounts, Supervised, KnownTasks, Orderly, Apply, Enabled;
    StepAccounts(s, step);
    StepSupervised(s, step);
    if step.TaskStep? { TaskStepOrderly(s, step.task, step.action); } else { ControlOrderly(s, step); }
  }

  lemma {:induction false} RunSound(states: seq<State>, steps: seq<Step>, i: nat)
    requires Run(states, steps) && i <= |steps|
    ensures Sound(states[i])
  {
    hide Accounts, Supervised, KnownTasks, Orderly, Apply, Enabled, Initial;
    if i == 0 {
      InitialSound(states[0]);
    } else {
      RunSound(states, steps, i - 1);
      StepSound(states[i - 1], steps[i - 1]);
    }
  }

  lemma InitialSound(s: State)
    requires Initial(s)
    ensures Sound(s)
  {
    InitialAccounts(s);
  }

  /** In every run no watch forwards a message twice, and a stop is answered after its last requeue. */
  lemma WatchesForwardOnce(states: seq<State>, steps: seq<Step>, i: nat)
    requires Run(states, steps) && i <= |steps|
    ensures ForwardedOnce(states[i].log) && SilentAfterStop(states[i].log)
  {
    RunSound(states, steps, i);
  }

  // ----- What the queues are left with -----

  /** Until the session closes: all forwarders of a queue hold nothing, so the queue has all that is not taken. */
  lemma QueueIsWhole(states: seq<State>, steps: seq<Step>, i: nat, q: string)
    requires Run(states, steps) && i <= |steps| && q in states[i].queues
    requires forall t :: 0 <= t < |states[i].tasks| && states[i].tasks[t].queue == q ==>
               var task := states[i].tasks[t];
               task.phase == Finished && task.buffer == [] && task.unsettled == []
    ensures var queue := states[i].queues[q];
            queue.ready + queue.away + queue.settled == queue.published
  {
    RunAccounts(states, steps, i);
    var s := states[i];
    assert Accounted(s, q);
    forall t | 0 <= t < |s.tasks| && s.tasks[t].queue == q ensures Holding(s.tasks[t]) == multiset{} {
      assert TaskOk(s.tasks[t]);
    }
    HeldNothing(s.tasks, q, |s.tasks|);
  }

  /** Once the session is closed nothing is held, whatever acks, requeues and cancels failed. */
  lemma ClosedSessionHoldsNothing(states: seq<State>, steps: seq<Step>, i: nat, q: string)
    requires Run(states, steps) && i <= |steps| && q in states[i].queues && states[i].main == Closed
    ensures var queue := states[i].queues[q];
            queue.ready + queue.away + queue.settled == queue.published
    ensures forall t :: 0 <= t < |states[i].tasks| ==> states[i].tasks[t].phase == Finished
  {
    hide Accounted, Orderly;
    RunSound(states, steps, i);
    var s := states[i];
    assert Accounted(s, q);
    HeldNothing(s.tasks, q, |s.tasks|);
    WholeBooks(s, q);
    forall t | 0 <= t < |s.tasks| ensures s.tasks[t].phase == Finished {
      assert !Owned(s, t);
    }
  }

  lemma WholeBooks(s: State, q: string)
    requires q in s.queues && Accounted(s, q) && Held(s.tasks, q, |s.tasks|) == multiset{}
    ensures var queue := s.queues[q]; queue.ready + queue.away + queue.settled == queue.published
  {
  }

  /** Nobody else takes from `q`, and no ack-mode consumer is started on it. */
  ghost predicate OnlyWatched(steps: seq<Step>, q: string) {
    forall i :: 0 <= i < |steps| ==>
      && (steps[i].Client? && steps[i].queue == q ==> steps[i].move == Publish)
      && (steps[i].Start? && steps[i].queue == q ==> !steps[i].ack)
  }

  ghost predicate Untouched(s: State, q: string) {
    && (q in s.queues ==> s.queues[q].away == multiset{} && s.queues[q].settled == multiset{})
    && forall t :: 0 <= t < |s.tasks| && s.tasks[t].queue == q ==> !s.tasks[t].ack
  }

  lemma ActUntouched(t: Task, q: Queue, a: Action)
    requires CanAct(t, q, a) && !t.ack
    ensures Act(t, q, a).queue.settled == q.settled
  {
  }

  lemma StepUntouched(s: State, step: Step, q: string)
    requires Untouched(s, q) && Enabled(s, step)
    requires step.Client? && step.queue == q ==> step.move == Publish
    requires step.Start? && step.queue == q ==> !step.ack
    ensures Untouched(Apply(s, step), q)
  {
    hide Held, Act, CanAct;
    if step.TaskStep? {
      var t := s.tasks[step.task];
      ActKeeps(t, s.queues[t.queue], step.action);
      if t.queue == q { ActUntouched(t, s.queues[q], step.action); }
    }
  }

  lemma {:induction false} RunUntouched(states: seq<State>, steps: seq<Step>, i: nat, q: string)
    requires Run(states, steps) && i <= |steps| && OnlyWatched(steps, q)
    ensures Untouched(states[i], q)
  {
    hide Apply, Enabled;
    if i > 0 {
      RunUntouched(states, steps, i - 1, q);
      StepUntouched(states[i - 1], steps[i - 1], q);
    }
  }

  /**
   A watch is non-destructive: with no other taker and no ack-mode consumer, a closed session has
   put back every message, and so has an open one whose forwarders are finished, had read their
   whole buffer, and could requeue.
   */
  lemma WatchIsNonDestructive(states: seq<State>, steps: seq<Step>, i: nat, q: string)
    requires Run(states, steps) && i <= |steps| && OnlyWatched(steps, q) && q in states[i].queues
    requires states[i].main == Closed
             || forall t :: 0 <= t < |states[i].tasks| && states[i].tasks[t].queue == q ==>
                  var task := states[i].tasks[t];
                  task.phase == Finished && task.buffer == [] && task.unsettled == []
    ensures states[i].queues[q].ready == states[i].queues[q].published
  {
    RunUntouched(states, steps, i, q);
    if states[i].main == Closed {
      ClosedSessionHoldsNothing(states, steps, i, q);
    } else {
      QueueIsWhole(states, steps, i, q);
    }
  }

  // ----- A stop is always answered -----

  function Rank(t: Task): nat {
    match t.phase
    case Running => 2 * |t.buffer| + |t.pending| + 3
    case Cancelling => |t.pending| + 2
    case Nacking => |t.pending| + 1
    case Finished => 0
  }

  /**
   A signalled forwarder is never stuck, and everything it does brings it closer to its end; only
   the broker can hand it more to do.
   */
  lemma StopMakesProgress(t: Task, q: Queue)
    requires t.stop && t.phase != Finished
    ensures exists a: Action :: !a.Deliver? && CanAct(t, q, a)
    ensures forall a: Action :: !a.Deliver? && CanAct(t, q, a) ==> Rank(Act(t, q, a).task) < Rank(t)
  {
    match t.phase
    case Running => assert CanAct(t, q, NoticeStop);
    case Cancelling => assert CanAct(t, q, Cancel(true));
    case Nacking => assert if t.pending == [] then CanAct(t, q, Finish) else CanAct(t, q, Nack(true));
  }
}
