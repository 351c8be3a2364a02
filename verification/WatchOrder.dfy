/** A watch handles what it is delivered first in, first out. */
module WatchOrder {
  import opened Options
  import opened WatchSession

  // ----- What was delivered, forwarded and put back -----

  /** What the broker delivered to forwarder `t`, in order. */
  function Delivered(steps: seq<Step>, t: nat): seq<Id> {
    if steps == [] then []
    else
      var last := steps[|steps| - 1];
      Delivered(steps[..|steps| - 1], t)
      + (if last.TaskStep? && last.task == t && last.action.Deliver? then [last.action.id] else [])
  }

  function ForwardedBy(log: seq<Event>, t: nat): seq<Id> {
    if log == [] then []
    else
      var last := log[|log| - 1];
      ForwardedBy(log[..|log| - 1], t) + (if last.Forwarded? && last.task == t then [last.id] else [])
  }

  function NackedBy(log: seq<Event>, t: nat): seq<Id> {
    if log == [] then []
    else
      var last := log[|log| - 1];
      NackedBy(log[..|log| - 1], t) + (if last.Nacked? && last.task == t then [last.id] else [])
  }

  /**
   The deliveries are those read and those unread. A requeue watch has put back the oldest it read and holds the
   rest. Every watch has forwarded what it read, but for the last if its forwarding failed and ended the watch.
   */
  predicate FirstInFirstOut(t: Task, read: seq<Id>, delivered: seq<Id>, forwarded: seq<Id>, nacked: seq<Id>) {
    && delivered == read + t.buffer
    && (if t.ack then nacked == [] && t.pending == [] else read == nacked + t.pending)
    && (forwarded == read || (t.phase != Running && read != [] && forwarded == read[..|read| - 1]))
  }

  ghost predicate Ordered(t: Task, delivered: seq<Id>, forwarded: seq<Id>, nacked: seq<Id>) {
    exists read :: FirstInFirstOut(t, read, delivered, forwarded, nacked)
  }

  ghost predicate InOrder(s: State, steps: seq<Step>, t: nat) {
    if t < |s.tasks| then
      Ordered(s.tasks[t], Delivered(steps, t), ForwardedBy(s.log, t), NackedBy(s.log, t))
    else Delivered(steps, t) == [] && ForwardedBy(s.log, t) == [] && NackedBy(s.log, t) == []
  }

  // ----- One step -----

  lemma OneMore(steps: seq<Step>, step: Step, t: nat)
    ensures Delivered(steps + [step], t) == Delivered(steps, t)
            + (if step.TaskStep? && step.task == t && step.action.Deliver? then [step.action.id] else [])
  {
    assert (steps + [step])[..|steps|] == steps;
  }

  lemma OneLogged(log: seq<Event>, e: Event, t: nat)
    ensures ForwardedBy(log + [e], t) == ForwardedBy(log, t) + (if e.Forwarded? && e.task == t then [e.id] else [])
    ensures NackedBy(log + [e], t) == NackedBy(log, t) + (if e.Nacked? && e.task == t then [e.id] else [])
  {
    assert (log + [e])[..|log|] == log;
  }

  lemma DeliverKeepsOrder(t: Task, id: Id, read: seq<Id>, delivered: seq<Id>, forwarded: seq<Id>, nacked: seq<Id>)
    requires FirstInFirstOut(t, read, delivered, forwarded, nacked)
    ensures FirstInFirstOut(t.(buffer := t.buffer + [id]), read, delivered + [id], forwarded, nacked)
  {
    assert read + (t.buffer + [id]) == read + t.buffer + [id];
  }

  lemma ForwardKeepsOrder(t: Task, q: Queue, settled: bool, sent: bool, read: seq<Id>, delivered: seq<Id>,
                          forwarded: seq<Id>, nacked: seq<Id>)
    requires CanAct(t, q, Forward(settled, sent)) && FirstInFirstOut(t, read, delivered, forwarded, nacked)
    ensures FirstInFirstOut(Act(t, q, Forward(settled, sent)).task, read + [t.buffer[0]], delivered,
                            if sent then forwarded + [t.buffer[0]] else forwarded, nacked)
  {
    var id := t.buffer[0];
    assert t.buffer == [id] + t.buffer[1..];
    assert read + t.buffer == read + [id] + t.buffer[1..];
    assert nacked + (t.pending + [id]) == nacked + t.pending + [id];
    assert (read + [id])[..|read|] == read;
  }

  lemma NackKeepsOrder(t: Task, q: Queue, ok: bool, read: seq<Id>, delivered: seq<Id>, forwarded: seq<Id>,
                       nacked: seq<Id>)
    requires CanAct(t, q, Nack(ok)) && FirstInFirstOut(t, read, delivered, forwarded, nacked)
    ensures FirstInFirstOut(Act(t, q, Nack(ok)).task, read, delivered, forwarded, nacked + [t.pending[0]])
  {
    assert t.pending == [t.pending[0]] + t.pending[1..];
    assert nacked + t.pending == nacked + [t.pending[0]] + t.pending[1..];
  }

  /** What one action adds to the lists of its forwarder. */
  lemma ActKeepsOrder(t: Task, q: Queue, a: Action, delivered: seq<Id>, forwarded: seq<Id>, nacked: seq<Id>)
    requires CanAct(t, q, a) && Ordered(t, delivered, forwarded, nacked)
    ensures var r := Act(t, q, a);
            Ordered(r.task, if a.Deliver? then delivered + [a.id] else delivered,
                    if r.note.SentOut? then forwarded + [r.note.id] else forwarded,
                    if r.note.PutBack? then nacked + [r.note.id] else nacked)
  {
    var read :| FirstInFirstOut(t, read, delivered, forwarded, nacked);
    var r := Act(t, q, a);
    match a
    case Deliver(id) => DeliverKeepsOrder(t, id, read, delivered, forwarded, nacked); hide FirstInFirstOut;
    case Forward(settled, sent) =>
      ForwardKeepsOrder(t, q, settled, sent, read, delivered, forwarded, nacked);
      hide FirstInFirstOut;
    case Nack(ok) => NackKeepsOrder(t, q, ok, read, delivered, forwarded, nacked); hide FirstInFirstOut;
    case _ => assert FirstInFirstOut(r.task, read, delivered, forwarded, nacked);
  }

  lemma TaskStepKeepsOrder(s: State, steps: seq<Step>, u: nat, a: Action, t: nat)
    requires Enabled(s, TaskStep(u, a)) && InOrder(s, steps, t)
    ensures InOrder(Apply(s, TaskStep(u, a)), steps + [TaskStep(u, a)], t)
  {
    hide Ordered, Act, CanAct, Delivered, ForwardedBy, NackedBy;
    OneMore(steps, TaskStep(u, a), t);
    var q := s.queues[s.tasks[u].queue];
    var r := Act(s.tasks[u], q, a);
    match r.note {
      case SentOut(id) => OneLogged(s.log, Forwarded(u, id), t);
      case PutBack(id) => OneLogged(s.log, Nacked(u, id), t);
      case Silent => assert s.log + [] == s.log;
    }
    assert Delivered(steps, t) + [] == Delivered(steps, t);
    assert ForwardedBy(s.log, t) + [] == ForwardedBy(s.log, t) && NackedBy(s.log, t) + [] == NackedBy(s.log, t);
    if u == t {
      ActKeepsOrder(s.tasks[t], q, a, Delivered(steps, t), ForwardedBy(s.log, t), NackedBy(s.log, t));
    }
  }

  lemma SignalKeepsOrder(t: Task, delivered: seq<Id>, forwarded: seq<Id>, nacked: seq<Id>)
    requires Ordered(t, delivered, forwarded, nacked)
    ensures Ordered(t.(stop := true), delivered, forwarded, nacked)
  {
    var read :| FirstInFirstOut(t, read, delivered, forwarded, nacked);
    assert FirstInFirstOut(t.(stop := true), read, delivered, forwarded, nacked);
  }

  lemma StartKeepsOrder(queue: string, ack: bool)
    ensures Ordered(Task(queue, ack, Running, false, true, [], [], []), [], [], [])
  {
    assert FirstInFirstOut(Task(queue, ack, Running, false, true, [], [], []), [], [], [], []);
  }

  lemma ControlKeepsOrder(s: State, steps: seq<Step>, step: Step, t: nat)
    requires Enabled(s, step) && InOrder(s, steps, t) && !step.TaskStep? && !step.Close?
    ensures InOrder(Apply(s, step), steps + [step], t)
  {
    hide Ordered, Delivered, ForwardedBy, NackedBy, Moved, CanMove;
    OneMore(steps, step, t);
    assert Delivered(steps, t) + [] == Delivered(steps, t);
    assert ForwardedBy(s.log, t) + [] == ForwardedBy(s.log, t) && NackedBy(s.log, t) + [] == NackedBy(s.log, t);
    if t < |s.tasks| {
      SignalKeepsOrder(s.tasks[t], Delivered(steps, t), ForwardedBy(s.log, t), NackedBy(s.log, t));
    }
    match step
    case Start(name, q, ack, ok) =>
      StartKeepsOrder(q, ack);
      OneLogged(s.log, Started(name, None), t);
      OneLogged(s.log, Started(name, Some(|s.tasks|)), t);
    case Stop(name) => OneLogged(s.log, Stopped(name, None), t);
    case StopReply => OneLogged(s.log, Stopped(s.main.name, Some(s.main.task)), t);
    case _ =>
  }

  // ----- Runs -----

  /** What is forwarded and put back is the beginning of what was delivered. */
  predicate Prefixes(log: seq<Event>, steps: seq<Step>, t: nat) {
    ForwardedBy(log, t) <= Delivered(steps, t) && NackedBy(log, t) <= Delivered(steps, t)
  }

  lemma OrderGivesPrefixes(s: State, steps: seq<Step>, t: nat)
    requires InOrder(s, steps, t)
    ensures Prefixes(s.log, steps, t)
  {
    hide Delivered, ForwardedBy, NackedBy;
  }

  ghost predicate Kept(s: State, steps: seq<Step>, t: nat) {
    Prefixes(s.log, steps, t) && (s.main != Closed ==> InOrder(s, steps, t))
  }

  lemma StepKeepsOrder(s: State, steps: seq<Step>, step: Step, t: nat)
    requires Enabled(s, step) && Kept(s, steps, t)
    ensures Kept(Apply(s, step), steps + [step], t)
  {
    hide InOrder, Prefixes, Moved, CanMove, CanAct, Act, Held;
    if s.main == Closed || step.Close? {
      OneMore(steps, step, t);
      QuietPrefixes(s, steps, step, t);
    } else {
      if step.TaskStep? { TaskStepKeepsOrder(s, steps, step.task, step.action, t); }
      else { ControlKeepsOrder(s, steps, step, t); }
      OrderGivesPrefixes(Apply(s, step), steps + [step], t);
    }
  }

  lemma QuietPrefixes(s: State, steps: seq<Step>, step: Step, t: nat)
    requires Enabled(s, step) && Prefixes(s.log, steps, t) && (s.main == Closed || step.Close?)
    ensures Apply(s, step).main == Closed && Prefixes(Apply(s, step).log, steps + [step], t)
  {
    hide Delivered, ForwardedBy, NackedBy, Moved, CanMove, CanAct, Act, Held;
    OneMore(steps, step, t);
    assert Delivered(steps, t) + [] == Delivered(steps, t);
  }

  lemma {:induction false} RunKeepsOrder(states: seq<State>, steps: seq<Step>, i: nat, t: nat)
    requires Run(states, steps) && i <= |steps|
    ensures Kept(states[i], steps[..i], t)
  {
    hide Kept, Apply, Enabled;
    if i == 0 {
      NothingYet(states[0], t);
      assert steps[..0] == [];
    } else {
      RunKeepsOrder(states, steps, i - 1, t);
      StepKeepsOrder(states[i - 1], steps[..i - 1], steps[i - 1], t);
      assert steps[..i] == steps[..i - 1] + [steps[i - 1]];
    }
  }

  lemma NothingYet(s: State, t: nat)
    requires Initial(s)
    ensures Kept(s, [], t)
  {}

  /**
   In every run, a watch forwards what it is delivered in the order of delivery, skipping nothing, and puts it
   back in that order too. While the session is open a requeue watch has put back the oldest, holds the next
   and has the youngest unread.
   */
  lemma WatchesKeepOrder(states: seq<State>, steps: seq<Step>, i: nat, t: nat)
    requires Run(states, steps) && i <= |steps| && t < |states[i].tasks|
    ensures var s, delivered := states[i], Delivered(steps[..i], t);
            && ForwardedBy(s.log, t) <= delivered && NackedBy(s.log, t) <= delivered
            && (s.main != Closed ==>
                  var w := s.tasks[t];
                  && (!w.ack ==> delivered == NackedBy(s.log, t) + w.pending + w.buffer)
                  && |w.buffer| <= |delivered|
                  && |ForwardedBy(s.log, t)| >= |delivered| - |w.buffer| - (if w.phase == Running then 0 else 1))
  {
    hide Delivered, ForwardedBy, NackedBy, Run;
    RunKeepsOrder(states, steps, i, t);
  }

  // ----- What the broker delivers -----

  /** The broker delivers a waiting message to a registered consumer that holds fewer than 500. */
  lemma DeliverIff(t: Task, q: Queue, id: Id)
    ensures CanAct(t, q, Deliver(id))
            <==> t.registered && q.ready[id] > 0 && |t.buffer| + |t.pending| + |t.unsettled| < 500
  {}

  ghost predicate Cancelled(s: State, t: nat) { t < |s.tasks| && !s.tasks[t].registered }

  lemma StaysCancelled(s: State, step: Step, t: nat)
    requires Enabled(s, step) && (Cancelled(s, t) || step == TaskStep(t, Cancel(true)))
    ensures Cancelled(Apply(s, step), t)
  {
    hide Moved, CanMove, Held;
  }

  lemma CancelledGetsNothing(s: State, t: nat, id: Id)
    requires Cancelled(s, t)
    ensures !Enabled(s, TaskStep(t, Deliver(id)))
  {}

  lemma {:induction false} RunStaysCancelled(states: seq<State>, steps: seq<Step>, i: nat, j: nat, t: nat)
    requires Run(states, steps) && i < j <= |steps| && steps[i] == TaskStep(t, Cancel(true))
    ensures Cancelled(states[j], t)
    decreases j
  {
    hide Enabled, Apply, Cancelled;
    if i < j - 1 { RunStaysCancelled(states, steps, i, j - 1, t); }
    StaysCancelled(states[j - 1], steps[j - 1], t);
  }

  /** In every run, after a cancel that succeeded the broker delivers nothing more to that watch. */
  lemma NothingAfterCancel(states: seq<State>, steps: seq<Step>, i: nat, j: nat, t: nat, id: Id)
    requires Run(states, steps) && i < j < |steps| && steps[i] == TaskStep(t, Cancel(true))
    ensures steps[j] != TaskStep(t, Deliver(id))
  {
    hide Enabled, Apply, Cancelled;
    RunStaysCancelled(states, steps, i, j, t);
    CancelledGetsNothing(states[j], t, id);
  }

  predicate CancelAt(steps: seq<Step>, i: nat, t: nat) {
    i < |steps| && steps[i].TaskStep? && steps[i].task == t && steps[i].action.Cancel?
  }

  ghost predicate CancelledBefore(steps: seq<Step>, j: nat, t: nat) {
    exists i: nat :: i < j && CancelAt(steps, i, t)
  }

  predicate PutsBack(s: State, t: nat) { t < |s.tasks| && s.tasks[t].phase == Nacking }

  lemma OnlyCancelPutsBack(s: State, step: Step, t: nat)
    requires Enabled(s, step) && PutsBack(Apply(s, step), t)
    ensures PutsBack(s, t) || (step.TaskStep? && step.task == t && step.action.Cancel?)
  {
    hide Moved, CanMove, Held;
  }

  lemma {:induction false} PuttingBackIsCancelled(states: seq<State>, steps: seq<Step>, j: nat, t: nat)
    requires Run(states, steps) && j <= |steps| && PutsBack(states[j], t)
    ensures CancelledBefore(steps, j, t)
    decreases j
  {
    hide Enabled, Apply;
    if j > 0 {
      OnlyCancelPutsBack(states[j - 1], steps[j - 1], t);
      if PutsBack(states[j - 1], t) {
        PuttingBackIsCancelled(states, steps, j - 1, t);
      } else {
        assert CancelAt(steps, j - 1, t);
      }
    }
  }

  /** In every run a watch cancels its consumer before it puts anything back. */
  lemma CancelComesFirst(states: seq<State>, steps: seq<Step>, j: nat, t: nat, ok: bool)
    requires Run(states, steps) && j < |steps| && steps[j] == TaskStep(t, Nack(ok))
    ensures exists i: nat :: i < j && CancelAt(steps, i, t)
  {
    hide Apply, CancelAt;
    PuttingBackIsCancelled(states, steps, j, t);
  }
}
