/** What every run of the message-queue session keeps: each message in one place, within the cap. */
module WatchSafety {
  import opened WatchSession

  // ----- Every message has one place -----

  /** How often `id` is in the queue's own books. */
  function InQueue(q: Queue, id: Id): nat { q.ready[id] + q.away[id] + q.settled[id] }

  /** Every message ever published to `q` is in exactly one place. */
  ghost predicate Accounted(s: State, q: string)
    requires q in s.queues
  {
    forall id {:trigger s.queues[q].published[id]} ::
      InQueue(s.queues[q], id) + Held(s.tasks, q, |s.tasks|)[id] == s.queues[q].published[id] <= 1
  }

  predicate TaskOk(t: Task) {
    && Unacked(t) <= WATCH_PREFETCH
    && (t.phase == Finished ==> t.pending == [])
    && (t.ack ==> t.pending == [])
  }

  ghost predicate Accounts(s: State) {
    && (forall q :: q in s.queues ==> Accounted(s, q))
    && forall t :: 0 <= t < |s.tasks| ==> s.tasks[t].queue in s.queues && TaskOk(s.tasks[t])
  }

  lemma {:induction false} HeldSame(ts: seq<Task>, us: seq<Task>, q: string, n: nat)
    requires n <= |ts| && n <= |us|
    requires forall i :: 0 <= i < n ==> ts[i].queue == us[i].queue && Holding(ts[i]) == Holding(us[i])
    ensures Held(ts, q, n) == Held(us, q, n)
  {
    hide Holding;
    if n > 0 { HeldSame(ts, us, q, n - 1); }
  }

  /** Replacing one forwarder changes what is held by exactly its share. */
  lemma {:induction false} HeldUpdate(ts: seq<Task>, t: nat, x: Task, q: string, n: nat, id: Id)
    requires t < |ts| && n <= |ts| && x.queue == ts[t].queue
    ensures q != x.queue || n <= t ==> Held(ts[t := x], q, n)[id] == Held(ts, q, n)[id]
    ensures q == x.queue && t < n ==>
              Held(ts[t := x], q, n)[id] + Holding(ts[t])[id] == Held(ts, q, n)[id] + Holding(x)[id]
  {
    hide Holding;
    if n > 0 { HeldUpdate(ts, t, x, q, n - 1, id); }
  }

  lemma {:induction false} HeldCovers(ts: seq<Task>, t: nat, q: string, n: nat, id: Id)
    requires t < n <= |ts| && ts[t].queue == q
    ensures Holding(ts[t])[id] <= Held(ts, q, n)[id]
  {
    hide Holding;
    if t < n - 1 { HeldCovers(ts, t, q, n - 1, id); }
  }

  lemma {:induction false} HeldNothing(ts: seq<Task>, q: string, n: nat)
    requires n <= |ts|
    requires forall i :: 0 <= i < n && ts[i].queue == q ==> Holding(ts[i]) == multiset{}
    ensures Held(ts, q, n) == multiset{}
  {
    hide Holding;
    if n > 0 { HeldNothing(ts, q, n - 1); }
  }

  lemma HeadCounts(s: seq<Id>, id: Id)
    requires s != []
    ensures multiset(s)[id] == multiset(s[1..])[id] + (if id == s[0] then 1 else 0)
  {
    assert s == [s[0]] + s[1..];
  }

  lemma AddedCounts(s: seq<Id>, added: Id, id: Id)
    ensures multiset(s + [added])[id] == multiset(s)[id] + (if id == added then 1 else 0)
  {
  }

  lemma ForwardConserves(t: Task, q: Queue, settled: bool, sent: bool, id: Id)
    requires CanAct(t, q, Forward(settled, sent))
    ensures var r := Act(t, q, Forward(settled, sent));
            InQueue(r.queue, id) + Holding(r.task)[id] == InQueue(q, id) + Holding(t)[id]
  {
    HeadCounts(t.buffer, id);
    if t.ack && !settled {
      AddedCounts(t.unsettled, t.buffer[0], id);
    } else {
      AddedCounts(t.pending, t.buffer[0], id);
    }
  }

  lemma NackConserves(t: Task, q: Queue, ok: bool, id: Id)
    requires CanAct(t, q, Nack(ok))
    ensures var r := Act(t, q, Nack(ok));
            InQueue(r.queue, id) + Holding(r.task)[id] == InQueue(q, id) + Holding(t)[id]
  {
    HeadCounts(t.pending, id);
  }

  /** One step of a forwarder moves messages between it and its queue, and loses and invents none. */
  lemma ActConserves(t: Task, q: Queue, a: Action, id: Id)
    requires CanAct(t, q, a)
    ensures var r := Act(t, q, a);
            InQueue(r.queue, id) + Holding(r.task)[id] == InQueue(q, id) + Holding(t)[id]
  {
    match a
    case Forward(settled, sent) => ForwardConserves(t, q, settled, sent, id);
    case Nack(ok) => NackConserves(t, q, ok, id);
    case _ =>
  }

  lemma ActKeeps(t: Task, q: Queue, a: Action)
    requires CanAct(t, q, a)
    ensures var r := Act(t, q, a);
            && r.queue.published == q.published && r.queue.away == q.away
            && r.task.queue == t.queue && r.task.ack == t.ack
            && (TaskOk(t) ==> TaskOk(r.task))
  {
  }

  lemma {:induction false} TaskStepAccounts(s: State, t: nat, a: Action)
    requires Accounts(s) && Enabled(s, TaskStep(t, a))
    ensures Accounts(Apply(s, TaskStep(t, a)))
  {
    hide Act, Holding, InQueue, CanAct, TaskOk;
    var s' := Apply(s, TaskStep(t, a));
    var home := s.tasks[t].queue;
    ActKeeps(s.tasks[t], s.queues[home], a);
    forall q | q in s'.queues ensures Accounted(s', q) {
      assert Accounted(s, q);
      forall id ensures InQueue(s'.queues[q], id) + Held(s'.tasks, q, |s'.tasks|)[id]
                        == s'.queues[q].published[id] <= 1
      {
        assert s.queues[q].published[id] <= 1;
        ActConserves(s.tasks[t], s.queues[home], a, id);
        HeldUpdate(s.tasks, t, s'.tasks[t], q, |s.tasks|, id);
      }
    }
  }

  lemma MoveConserves(q: Queue, m: Move, id: Id, other: Id)
    requires CanMove(q, m, id) && q.published[id] <= 1
    ensures var r := Moved(q, m, id);
            && InQueue(r, other) - r.published[other] == InQueue(q, other) - q.published[other]
            && (q.published[other] <= 1 ==> r.published[other] <= 1)
  {
  }

  lemma ClientAccounts(s: State, q: string, m: Move, id: Id)
    requires Accounts(s) && Enabled(s, Client(q, m, id))
    ensures Accounts(Apply(s, Client(q, m, id)))
  {
    hide Holding, InQueue, TaskOk, Moved, CanMove;
    var s' := Apply(s, Client(q, m, id));
    assert Accounted(s, q);
    assert s.queues[q].published[id] <= 1;
    forall p | p in s'.queues ensures Accounted(s', p) {
      assert Accounted(s, p);
      forall other ensures InQueue(s'.queues[p], other) + Held(s'.tasks, p, |s'.tasks|)[other]
                           == s'.queues[p].published[other] <= 1
      {
        assert s.queues[p].published[other] <= 1;
        MoveConserves(s.queues[q], m, id, other);
      }
    }
  }

  /** Steps that leave queues alone, and of the forwarders change signals only. */
  lemma QuietAccounts(s: State, s': State)
    requires Accounts(s) && s'.queues == s.queues && |s'.tasks| >= |s.tasks|
    requires forall t :: 0 <= t < |s.tasks| ==> s'.tasks[t] == s.tasks[t].(stop := s'.tasks[t].stop)
    requires forall t :: |s.tasks| <= t < |s'.tasks| ==>
               s'.tasks[t].queue in s.queues && TaskOk(s'.tasks[t]) && Holding(s'.tasks[t]) == multiset{}
    ensures Accounts(s')
  {
    hide InQueue;
    forall t | 0 <= t < |s'.tasks| ensures s'.tasks[t].queue in s'.queues && TaskOk(s'.tasks[t]) {
      if t < |s.tasks| { assert TaskOk(s.tasks[t]); }
    }
    forall q | q in s'.queues ensures Accounted(s', q) {
      assert Accounted(s, q);
      HeldSame(s'.tasks, s.tasks, q, |s.tasks|);
      HeldBeyond(s'.tasks, q, |s.tasks|, |s'.tasks|);
    }
  }

  lemma {:induction false} HeldBeyond(ts: seq<Task>, q: string, m: nat, n: nat)
    requires m <= n <= |ts|
    requires forall t :: m <= t < n ==> Holding(ts[t]) == multiset{}
    ensures Held(ts, q, n) == Held(ts, q, m)
    decreases n
  {
    hide Holding;
    if m < n { HeldBeyond(ts, q, m, n - 1); }
  }

  lemma {:induction false} ControlAccounts(s: State, step: Step)
    requires Accounts(s) && Enabled(s, step) && !step.Client? && !step.TaskStep? && !step.Close?
    ensures Accounts(Apply(s, step))
  {
    hide Accounts;
    QuietAccounts(s, Apply(s, step));
  }

  lemma {:induction false} CloseAccounts(s: State)
    requires Accounts(s) && Enabled(s, Close)
    ensures Accounts(Apply(s, Close))
  {
    hide Held;
    var s' := Apply(s, Close);
    forall q | q in s'.queues ensures Accounted(s', q) {
      assert Accounted(s, q);
      HeldNothing(s'.tasks, q, |s'.tasks|);
      forall id ensures InQueue(s'.queues[q], id) + Held(s'.tasks, q, |s'.tasks|)[id]
                        == s'.queues[q].published[id] <= 1
      {
        assert s.queues[q].published[id] <= 1;
      }
    }
  }

  /** Conservation, step by step. */
  lemma {:induction false} StepAccounts(s: State, step: Step)
    requires Accounts(s) && Enabled(s, step)
    ensures Accounts(Apply(s, step))
  {
    hide Apply, Accounts, Enabled;
    match step
    case TaskStep(t, a) => TaskStepAccounts(s, t, a);
    case Close => CloseAccounts(s);
    case Client(q, m, id) => ClientAccounts(s, q, m, id);
    case _ => ControlAccounts(s, step);
  }

  lemma InitialAccounts(s: State)
    requires Initial(s)
    ensures Accounts(s)
  {
  }

  /** In every reachable state every message is in exactly one place and no watch holds more than its cap. */
  lemma {:induction false} RunAccounts(states: seq<State>, steps: seq<Step>, i: nat)
    requires Run(states, steps) && i <= |steps|
    ensures Accounts(states[i])
  {
    hide Accounts, Apply, Enabled, Initial;
    if i == 0 {
      InitialAccounts(states[0]);
    } else {
      RunAccounts(states, steps, i - 1);
      StepAccounts(states[i - 1], steps[i - 1]);
    }
  }
}
