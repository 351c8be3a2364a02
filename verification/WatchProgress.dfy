/** Every stop is answered and every session can close. */
module WatchProgress {
  import opened WatchSession
  import opened WatchSafety
  import opened WatchStop
  import opened Options

  /** `steps`, one after the other, lead from `s` to `end`. */
  ghost predicate Leads(s: State, steps: seq<Step>, end: State)
    decreases |steps|
  {
    if steps == [] then end == s
    else Enabled(s, steps[0]) && Leads(Apply(s, steps[0]), steps[1..], end)
  }

  lemma LeadsFirst(s: State, step: Step, steps: seq<Step>, end: State)
    requires Enabled(s, step) && Leads(Apply(s, step), steps, end)
    ensures Leads(s, [step] + steps, end)
  {
    assert ([step] + steps)[1..] == steps;
  }

  lemma {:induction false} LeadsOn(s: State, a: seq<Step>, mid: State, b: seq<Step>, end: State)
    requires Leads(s, a, mid) && Leads(mid, b, end)
    ensures Leads(s, a + b, end)
    decreases |a|
  {
    hide Enabled, Apply;
    if a == [] {
      assert a + b == b;
    } else {
      LeadsOn(Apply(s, a[0]), a[1..], mid, b, end);
      assert (a + b)[1..] == a[1..] + b;
    }
  }

  /** What a signalled forwarder does next, if the broker is silent and every call works. */
  function NextAction(t: Task): Action {
    match t.phase
    case Running => NoticeStop
    case Cancelling => Cancel(true)
    case Nacking => if t.pending == [] then Finish else Nack(true)
    case Finished => Finish
  }

  lemma NextCounts(t: Task, q: Queue)
    requires t.stop && t.phase != Finished
    ensures CanAct(t, q, NextAction(t)) && Rank(Act(t, q, NextAction(t)).task) < Rank(t)
  {
    StopMakesProgress(t, q);
  }

  lemma TaskStepIs(s: State, t: nat)
    requires Sound(s) && t < |s.tasks| && s.tasks[t].stop && s.tasks[t].phase != Finished && s.main != Closed
    ensures var step := TaskStep(t, NextAction(s.tasks[t]));
            && Enabled(s, step) && Sound(Apply(s, step))
            && var s' := Apply(s, step);
               && s'.main == s.main && |s'.tasks| == |s.tasks| && s'.tasks[t].stop
               && Rank(s'.tasks[t]) < Rank(s.tasks[t])
  {
    hide Sound, Act, CanAct, Rank, NextAction;
    assert s.tasks[t].queue in s.queues by { HomeIsKnown(s, t); }
    var q := s.queues[s.tasks[t].queue];
    NextCounts(s.tasks[t], q);
    ActKeepsStop(s.tasks[t], q, NextAction(s.tasks[t]));
    StepSound(s, TaskStep(t, NextAction(s.tasks[t])));
  }

  lemma HomeIsKnown(s: State, t: nat)
    requires Sound(s) && t < |s.tasks|
    ensures s.tasks[t].queue in s.queues
  {
  }

  /** A signalled forwarder can finish, whatever it holds. */
  lemma {:induction false} TaskFinishes(s: State, t: nat) returns (steps: seq<Step>, end: State)
    requires Sound(s) && t < |s.tasks| && s.tasks[t].stop && s.main != Closed
    ensures Leads(s, steps, end) && Sound(end) && end.main == s.main
    ensures |end.tasks| == |s.tasks| && end.tasks[t].phase == Finished
    decreases Rank(s.tasks[t])
  {
    hide Sound, Enabled, Apply, NextAction, Rank;
    if s.tasks[t].phase == Finished {
      return [], s;
    }
    var step := TaskStep(t, NextAction(s.tasks[t]));
    TaskStepIs(s, t);
    var rest, last := TaskFinishes(Apply(s, step), t);
    LeadsFirst(s, step, rest, last);
    return [step] + rest, last;
  }

  lemma JoinedIsSignalled(s: State)
    requires Sound(s)
    ensures s.main.Joining? ==> s.main.task < |s.tasks| && s.tasks[s.main.task].stop
    ensures s.main.Draining? && s.main.waiting.Some? ==>
              s.main.waiting.value < |s.tasks| && s.tasks[s.main.waiting.value].stop
    ensures s.main.Draining? ==> forall name :: name in s.main.left ==> s.main.left[name] < |s.tasks|
  {
  }

  lemma StopCanBeAnswered(s: State) returns (steps: seq<Step>, end: State)
    requires Sound(s) && s.main.Joining?
    ensures Leads(s, steps, end) && end.main == Reading && end.log != []
    ensures end.log[|end.log| - 1] == Stopped(s.main.name, Some(s.main.task))
  {
    hide Sound;
    JoinedIsSignalled(s);
    var first, mid := TaskFinishes(s, s.main.task);
    end := Apply(mid, StopReply);
    LeadsFirst(mid, StopReply, [], end);
    steps := first + ([StopReply] + []);
    LeadsOn(s, first, mid, [StopReply] + [], end);
  }

  /** In every run, from every state in which a stop is awaited, a finite run leads to its reply. */
  lemma EveryStopCanBeAnswered(states: seq<State>, steps: seq<Step>, i: nat)
    requires Run(states, steps) && i <= |steps| && states[i].main.Joining?
    ensures exists more: seq<Step>, end: State ::
              && Leads(states[i], more, end) && end.main == Reading && end.log != []
              && end.log[|end.log| - 1] == Stopped(states[i].main.name, Some(states[i].main.task))
  {
    hide Leads, Sound;
    RunSound(states, steps, i);
    var more, end := StopCanBeAnswered(states[i]);
  }

  // ----- A requeue forwarder comes to its end -----

  /** An upper bound for what a forwarder in requeue mode and its broker can still do. */
  function Weight(t: Task): int {
    var room := WATCH_PREFETCH - |t.buffer| - |t.unsettled|;
    match t.phase
    case Running => 2 * (WATCH_PREFETCH - Unacked(t)) + |t.buffer| + 1600
    case Cancelling => room + |t.pending| + 2
    case Nacking => room + |t.pending| + 1
    case Finished => room
  }

  const FULL_WEIGHT := 2 * WATCH_PREFETCH + 1600

  /** Whatever a requeue forwarder does, and every delivery to it, uses some of that up. */
  lemma ActLowersWeight(t: Task, q: Queue, a: Action)
    requires CanAct(t, q, a) && TaskOk(t) && !t.ack
    ensures 0 <= Weight(Act(t, q, a).task) < Weight(t)
  {
  }

  lemma StepWeight(s: State, step: Step, t: nat)
    requires Sound(s) && Enabled(s, step) && step != Close && t < |s.tasks| && !s.tasks[t].ack
    ensures var s' := Apply(s, step);
            && t < |s'.tasks| && !s'.tasks[t].ack && 0 <= Weight(s'.tasks[t])
            && (if step.TaskStep? && step.task == t then Weight(s'.tasks[t]) < Weight(s.tasks[t])
                else Weight(s'.tasks[t]) == Weight(s.tasks[t]))
  {
    hide Held, Moved, CanMove, Act, CanAct;
    OkInSound(s, t);
    if step.TaskStep? && step.task == t {
      var q := s.queues[s.tasks[t].queue];
      ActLowersWeight(s.tasks[t], q, step.action);
      ActKeeps(s.tasks[t], q, step.action);
    }
  }

  lemma OkInSound(s: State, t: nat)
    requires Sound(s) && t < |s.tasks|
    ensures TaskOk(s.tasks[t]) && 0 <= Weight(s.tasks[t]) <= FULL_WEIGHT
  {
    assert TaskOk(s.tasks[t]);
  }

  /** How many of the first `i` steps are steps of forwarder `t` or deliveries to it. */
  function StepsOf(steps: seq<Step>, t: nat, i: nat): nat
    requires i <= |steps|
  {
    if i == 0 then 0
    else StepsOf(steps, t, i - 1) + (if steps[i - 1].TaskStep? && steps[i - 1].task == t then 1 else 0)
  }

  lemma {:induction false} NoStepsYet(states: seq<State>, steps: seq<Step>, i: nat, t: nat)
    requires Run(states, steps) && i <= |steps| && t >= |states[i].tasks|
    ensures StepsOf(steps, t, i) == 0
  {
    if i > 0 {
      TasksStay(states[i - 1], steps[i - 1]);
      NoStepsYet(states, steps, i - 1, t);
    }
  }

  lemma TasksStay(s: State, step: Step)
    requires Enabled(s, step)
    ensures |Apply(s, step).tasks| >= |s.tasks|
  {
    hide Held, Moved, Act, CanAct;
  }

  lemma StartsFull(s: State, step: Step, t: nat)
    requires Enabled(s, step) && |s.tasks| <= t < |Apply(s, step).tasks|
    ensures Weight(Apply(s, step).tasks[t]) == FULL_WEIGHT && !step.TaskStep? && Apply(s, step).main != Closed
  {
    hide Held, Moved, Act, CanAct;
  }

  /**
   In every run a requeue forwarder and the broker serving it take at most 2600 steps, however many
   messages are waiting.
   */
  lemma {:induction false} ForwarderStepsBounded(states: seq<State>, steps: seq<Step>, i: nat, t: nat)
    requires Run(states, steps) && i <= |steps| && t < |states[i].tasks| && !states[i].tasks[t].ack
    ensures StepsOf(steps, t, i) + (if states[i].main == Closed then 0 else Weight(states[i].tasks[t])) <= FULL_WEIGHT
  {
    if i > 0 {
      var s, step := states[i - 1], steps[i - 1];
      RunSound(states, steps, i - 1);
      if t >= |s.tasks| {
        NoStepsYet(states, steps, i - 1, t);
        StartsFull(s, step, t);
      } else {
        AckStays(s, step, t);
        ForwarderStepsBounded(states, steps, i - 1, t);
        OkInSound(s, t);
        ClosedStays(s, step);
        if step != Close && s.main != Closed { StepWeight(s, step, t); }
      }
    }
  }

  lemma AckStays(s: State, step: Step, t: nat)
    requires Enabled(s, step) && t < |s.tasks|
    ensures t < |Apply(s, step).tasks| && Apply(s, step).tasks[t].ack == s.tasks[t].ack
  {
    hide Held, Moved;
  }

  lemma ClosedStays(s: State, step: Step)
    requires Enabled(s, step)
    ensures s.main == Closed ==> Apply(s, step).main == Closed && !step.TaskStep?
    ensures step == Close ==> Apply(s, step).main == Closed
  {
    hide Held, Moved, Act, CanAct;
  }

  // ----- A run that does not starve it answers the stop -----

  predicate IsStepOf(step: Step, t: nat) { step.TaskStep? && step.task == t }

  ghost predicate Unfinished(s: State, t: nat) { t < |s.tasks| && s.tasks[t].phase != Finished }

  /** From step `from` on, forwarder `t` or its broker acts in every `patience` steps it enters unfinished. */
  ghost predicate NotStarved(states: seq<State>, steps: seq<Step>, t: nat, from: nat, patience: nat)
    requires |states| == |steps| + 1
  {
    forall j :: from <= j && j + patience <= |steps| && Unfinished(states[j], t) ==>
      exists k :: j <= k < j + patience && IsStepOf(steps[k], t)
  }

  function Windows(n: nat, patience: nat): nat { if n == 0 then 0 else Windows(n - 1, patience) + patience }

  lemma {:induction false} StepsAddUp(steps: seq<Step>, t: nat, i: nat, j: nat)
    requires i <= j <= |steps|
    ensures StepsOf(steps, t, i) <= StepsOf(steps, t, j)
    ensures (exists k :: i <= k < j && IsStepOf(steps[k], t)) ==> StepsOf(steps, t, i) < StepsOf(steps, t, j)
    decreases j
  {
    if i < j {
      StepsAddUp(steps, t, i, j - 1);
      if k :| i <= k < j && IsStepOf(steps[k], t) {
        if k < j - 1 { assert exists l :: i <= l < j - 1 && IsStepOf(steps[l], t); }
      }
    }
  }

  lemma {:induction false} WindowsCount(states: seq<State>, steps: seq<Step>, t: nat, i: nat, patience: nat, n: nat)
    requires |states| == |steps| + 1 && NotStarved(states, steps, t, i, patience)
    requires i + Windows(n, patience) <= |steps|
    requires forall j :: i <= j <= |steps| ==> Unfinished(states[j], t)
    ensures StepsOf(steps, t, i) + n <= StepsOf(steps, t, i + Windows(n, patience))
    decreases n
  {
    if n > 0 {
      WindowsCount(states, steps, t, i, patience, n - 1);
      var j := i + Windows(n - 1, patience);
      assert Unfinished(states[j], t);
      StepsAddUp(steps, t, j, j + patience);
    }
  }

  /** A run long enough that does not starve a requeue forwarder lets it finish. */
  lemma RequeueForwarderFinishes(states: seq<State>, steps: seq<Step>, i: nat, t: nat, patience: nat)
    requires Run(states, steps) && i <= |steps| && t < |states[i].tasks| && !states[i].tasks[t].ack
    requires NotStarved(states, steps, t, i, patience) && i + Windows(FULL_WEIGHT + 1, patience) <= |steps|
    ensures exists j :: i <= j <= |steps| && !Unfinished(states[j], t)
  {
    hide Windows, NotStarved, Apply, Enabled, Sound, StepsOf, Weight, Initial;
    if forall j :: i <= j <= |steps| ==> Unfinished(states[j], t) {
      var end := i + Windows(FULL_WEIGHT + 1, patience);
      WindowsCount(states, steps, t, i, patience, FULL_WEIGHT + 1);
      StaysRequeue(states, steps, t, i, end);
      RunSound(states, steps, end);
      OkInSound(states[end], t);
      ForwarderStepsBounded(states, steps, end, t);
    }
  }

  lemma {:induction false} StaysRequeue(states: seq<State>, steps: seq<Step>, t: nat, i: nat, j: nat)
    requires Run(states, steps) && i <= j <= |steps| && t < |states[i].tasks|
    ensures t < |states[j].tasks| && states[j].tasks[t].ack == states[i].tasks[t].ack
    decreases j
  {
    if i < j {
      StaysRequeue(states, steps, t, i, j - 1);
      AckStays(states[j - 1], steps[j - 1], t);
    }
  }

  lemma {:induction false} FirstFinished(states: seq<State>, t: nat, i: nat, j: nat) returns (m: nat)
    requires i <= j < |states| && !Unfinished(states[j], t)
    ensures i <= m <= j && !Unfinished(states[m], t) && forall k :: i <= k < m ==> Unfinished(states[k], t)
    decreases j - i
  {
    if Unfinished(states[i], t) { m := FirstFinished(states, t, i + 1, j); } else { m := i; }
  }

  /** Until its forwarder has finished, the request loop waits for it. */
  lemma {:induction false} StillJoining(states: seq<State>, steps: seq<Step>, i: nat, j: nat)
    requires Run(states, steps) && i <= j <= |steps| && states[i].main.Joining?
    requires forall k :: i <= k < j ==> Unfinished(states[k], states[i].main.task)
    ensures states[j].main == states[i].main
    decreases j
  {
    if i < j {
      StillJoining(states, steps, i, j - 1);
      LoopWaits(states[j - 1], steps[j - 1]);
    }
  }

  lemma LoopWaits(s: State, step: Step)
    requires Enabled(s, step) && s.main.Joining? && Unfinished(s, s.main.task)
    ensures Apply(s, step).main == s.main
  {
    hide Held, Moved, CanMove, Act, CanAct;
  }

  /**
   A stop of a watch in requeue mode: in every run that does not starve its forwarder, whatever the
   broker delivers, the loop waits until it has finished, and then nothing is left but the reply.
   */
  lemma StopOfAWatchIsAnswered(states: seq<State>, steps: seq<Step>, i: nat, patience: nat)
    requires Run(states, steps) && i <= |steps| && states[i].main.Joining?
    requires states[i].main.task < |states[i].tasks| && !states[i].tasks[states[i].main.task].ack
    requires NotStarved(states, steps, states[i].main.task, i, patience)
    requires i + Windows(FULL_WEIGHT + 1, patience) <= |steps|
    ensures exists j :: i <= j <= |steps| && states[j].main == states[i].main && Enabled(states[j], StopReply)
  {
    hide Apply, NotStarved, Windows;
    var t := states[i].main.task;
    RequeueForwarderFinishes(states, steps, i, t, patience);
    var j :| i <= j <= |steps| && !Unfinished(states[j], t);
    var m := FirstFinished(states, t, i, j);
    StillJoining(states, steps, i, m);
    StaysRequeue(states, steps, t, i, m);
    assert Enabled(states[m], StopReply);
  }

  // ----- Closing -----

  /** While one consumer is being stopped: it finishes and the drain goes on. */
  lemma WaitEnds(s: State) returns (steps: seq<Step>, end: State)
    requires Sound(s) && s.main.Draining? && s.main.waiting.Some?
    ensures Leads(s, steps, end) && Sound(end) && end.main == Draining(s.main.left, None)
  {
    hide Sound;
    JoinedIsSignalled(s);
    var first, mid := TaskFinishes(s, s.main.waiting.value);
    end := Apply(mid, DrainJoined);
    StepSound(mid, DrainJoined);
    LeadsFirst(mid, DrainJoined, [], end);
    steps := first + ([DrainJoined] + []);
    LeadsOn(s, first, mid, [DrainJoined] + [], end);
  }

  lemma {:induction false} DrainEnds(s: State) returns (steps: seq<Step>, end: State)
    requires Sound(s) && s.main.Draining? && s.main.waiting == None
    ensures Leads(s, steps, end) && end.main == Closed
    decreases |s.main.left|
  {
    hide Sound;
    if s.main.left == map[] {
      end := Apply(s, Close);
      LeadsFirst(s, Close, [], end);
      return [Close] + [], end;
    }
    JoinedIsSignalled(s);
    var name :| name in s.main.left;
    var next := Apply(s, DrainNext(name));
    StepSound(s, DrainNext(name));
    assert |next.main.left| < |s.main.left| by { FewerLeft(s.main.left, name); }
    var wait, joined := WaitEnds(next);
    var rest, last := DrainEnds(joined);
    LeadsOn(next, wait, joined, rest, last);
    LeadsFirst(s, DrainNext(name), wait + rest, last);
    return [DrainNext(name)] + (wait + rest), last;
  }

  lemma FewerLeft(left: map<string, nat>, name: string)
    requires name in left
    ensures |left - {name}| < |left|
  {
    assert (left - {name}).Keys == left.Keys - {name};
  }

  /** In every run, once the input has ended, a finite run leads to the closed session. */
  lemma EverySessionCanClose(states: seq<State>, steps: seq<Step>, i: nat)
    requires Run(states, steps) && i <= |steps| && states[i].main.Draining?
    ensures exists more: seq<Step>, end: State :: Leads(states[i], more, end) && end.main == Closed
  {
    hide Leads, Sound;
    RunSound(states, steps, i);
    if states[i].main.waiting == None {
      var more, end := DrainEnds(states[i]);
    } else {
      var wait, mid := WaitEnds(states[i]);
      var rest, end := DrainEnds(mid);
      LeadsOn(states[i], wait, mid, rest, end);
    }
  }
}
