/** The message-queue session: live consumers as steps of concurrent tasks and a broker. */
module WatchSession {
  import opened Options

  type Id = nat

  /** Cap on deliveries a consumer may hold unsettled. */
  const WATCH_PREFETCH: nat := 500

  /**
   A broker queue: messages waiting, messages other clients hold, messages settled for good, and
   everything ever published to it.
   */
  datatype Queue = Queue(ready: multiset<Id>, away: multiset<Id>, settled: multiset<Id>, published: multiset<Id>)

  datatype Phase = Running | Cancelling | Nacking | Finished

  /**
   A forwarder: deliveries the stream has buffered but the loop has not read, deliveries held for
   requeue, and deliveries whose ack or nack failed. `registered` is the broker's view.
   */
  datatype Task = Task(queue: string, ack: bool, phase: Phase, stop: bool, registered: bool,
                       buffer: seq<Id>, pending: seq<Id>, unsettled: seq<Id>)

  datatype Event =
    | Forwarded(task: nat, id: Id)
    | Nacked(task: nat, id: Id)
    | Started(name: string, handle: Option<nat>)
    | Stopped(name: string, handle: Option<nat>)

  /** What the request loop is doing. */
  datatype Main =
    | Reading
    | Joining(name: string, task: nat)
    | Draining(left: map<string, nat>, waiting: Option<nat>)
    | Closed

  datatype State = State(queues: map<string, Queue>, tasks: seq<Task>, registry: map<string, nat>, main: Main,
                         log: seq<Event>)

  // ----- One forwarder -----

  /** A step of one forwarder or of the broker serving it. */
  datatype Action =
    | Deliver(id: Id)
    | Forward(settled: bool, sent: bool)
    | StreamEnds
    | NoticeStop
    | Cancel(ok: bool)
    | Nack(ok: bool)
    | Finish

  datatype Note = SentOut(id: Id) | PutBack(id: Id) | Silent

  datatype Outcome = Outcome(task: Task, queue: Queue, note: Note)

  /** What a forwarder holds, and how many deliveries the broker counts against the prefetch cap. */
  function Holding(t: Task): multiset<Id> {
    multiset(t.buffer) + multiset(t.pending) + multiset(t.unsettled)
  }

  function Unacked(t: Task): nat { |t.buffer| + |t.pending| + |t.unsettled| }

  predicate CanAct(t: Task, q: Queue, a: Action) {
    match a
    case Deliver(id) => t.registered && id in q.ready && Unacked(t) < WATCH_PREFETCH
    case Forward(_, _) => t.phase == Running && t.buffer != []
    case StreamEnds => t.phase == Running
    case NoticeStop => t.phase == Running && t.stop
    case Cancel(_) => t.phase == Cancelling
    case Nack(_) => t.phase == Nacking && t.pending != []
    case Finish => t.phase == Nacking && t.pending == []
  }

  function Act(t: Task, q: Queue, a: Action): Outcome
    requires CanAct(t, q, a)
  {
    match a
    case Deliver(id) =>
      Outcome(t.(buffer := t.buffer + [id]), q.(ready := q.ready - multiset{id}), Silent)
    case Forward(settled, sent) =>
      var id := t.buffer[0];
      var rest := t.(buffer := t.buffer[1..], phase := if sent then Running else Cancelling);
      var note := if sent then SentOut(id) else Silent;
      if !t.ack then Outcome(rest.(pending := t.pending + [id]), q, note)
      else if settled then Outcome(rest, q.(settled := q.settled + multiset{id}), note)
      else Outcome(rest.(unsettled := t.unsettled + [id]), q, note)
    case StreamEnds => Outcome(t.(phase := Cancelling), q, Silent)
    case NoticeStop => Outcome(t.(phase := Cancelling), q, Silent)
    case Cancel(ok) => Outcome(t.(phase := Nacking, registered := t.registered && !ok), q, Silent)
    case Nack(ok) =>
      var id := t.pending[0];
      var rest := t.(pending := t.pending[1..]);
      if ok then Outcome(rest, q.(ready := q.ready + multiset{id}), PutBack(id))
      else Outcome(rest.(unsettled := t.unsettled + [id]), q, PutBack(id))
    case Finish => Outcome(t.(phase := Finished), q, Silent)
  }

  // ----- Other clients -----

  /** Another client, or this session's own one-shot operations, on a queue. */
  datatype Move = Publish | Borrow | GiveBack | Settle

  predicate CanMove(q: Queue, m: Move, id: Id) {
    match m
    case Publish => id !in q.published
    case Borrow => id in q.ready
    case GiveBack => id in q.away
    case Settle => id in q.away
  }

  function Moved(q: Queue, m: Move, id: Id): Queue {
    match m
    case Publish => q.(ready := q.ready + multiset{id}, published := q.published + multiset{id})
    case Borrow => q.(ready := q.ready - multiset{id}, away := q.away + multiset{id})
    case GiveBack => q.(ready := q.ready + multiset{id}, away := q.away - multiset{id})
    case Settle => q.(settled := q.settled + multiset{id}, away := q.away - multiset{id})
  }

  // ----- The session -----

  datatype Step =
    | Client(queue: string, move: Move, id: Id)
    | TaskStep(task: nat, action: Action)
    | Start(name: string, queue: string, ack: bool, ok: bool)
    | Stop(name: string)
    | StopReply
    | EndOfInput
    | DrainNext(name: string)
    | DrainJoined
    | Close

  predicate Enabled(s: State, step: Step) {
    match step
    case Client(q, m, id) => q in s.queues && CanMove(s.queues[q], m, id)
    case TaskStep(t, a) =>
      && s.main != Closed && t < |s.tasks| && s.tasks[t].queue in s.queues
      && CanAct(s.tasks[t], s.queues[s.tasks[t].queue], a)
    case Start(name, q, _, ok) => s.main == Reading && (ok ==> q in s.queues)
    case Stop(name) => s.main == Reading
    case StopReply => s.main.Joining? && s.main.task < |s.tasks| && s.tasks[s.main.task].phase == Finished
    case EndOfInput => s.main == Reading
    case DrainNext(name) => s.main.Draining? && s.main.waiting == None && name in s.main.left
    case DrainJoined =>
      && s.main.Draining? && s.main.waiting.Some? && s.main.waiting.value < |s.tasks|
      && s.tasks[s.main.waiting.value].phase == Finished
    case Close => s.main == Draining(map[], None)
  }

  function Signalled(tasks: seq<Task>, t: nat): seq<Task> {
    if t < |tasks| then tasks[t := tasks[t].(stop := true)] else tasks
  }

  function NoteEvents(t: nat, note: Note): seq<Event> {
    match note
    case SentOut(id) => [Forwarded(t, id)]
    case PutBack(id) => [Nacked(t, id)]
    case Silent => []
  }

  /** Everything forwarders of `q` hold, over the first `n` of them. */
  function Held(tasks: seq<Task>, q: string, n: nat): multiset<Id>
    requires n <= |tasks|
  {
    if n == 0 then multiset{}
    else Held(tasks, q, n - 1) + (if tasks[n - 1].queue == q then Holding(tasks[n - 1]) else multiset{})
  }

  function LetGo(t: Task): Task { t.(registered := false, buffer := [], pending := [], unsettled := []) }

  function Apply(s: State, step: Step): State
    requires Enabled(s, step)
  {
    match step
    case Client(q, m, id) => s.(queues := s.queues[q := Moved(s.queues[q], m, id)])
    case TaskStep(t, a) =>
      var q := s.tasks[t].queue;
      var r := Act(s.tasks[t], s.queues[q], a);
      s.(tasks := s.tasks[t := r.task], queues := s.queues[q := r.queue], log := s.log + NoteEvents(t, r.note))
    case Start(name, q, ack, ok) =>
      if name in s.registry || !ok then s.(log := s.log + [Started(name, None)])
      else
        var t := |s.tasks|;
        s.(tasks := s.tasks + [Task(q, ack, Running, false, true, [], [], [])], registry := s.registry[name := t],
           log := s.log + [Started(name, Some(t))])
    case Stop(name) =>
      if name in s.registry then
        var t := s.registry[name];
        s.(registry := s.registry - {name}, tasks := Signalled(s.tasks, t), main := Joining(name, t))
      else s.(log := s.log + [Stopped(name, None)])
    case StopReply =>
      s.(main := Reading, log := s.log + [Stopped(s.main.name, Some(s.main.task))])
    case EndOfInput => s.(main := Draining(s.registry, None), registry := map[])
    case DrainNext(name) =>
      var t := s.main.left[name];
      s.(tasks := Signalled(s.tasks, t), main := Draining(s.main.left - {name}, Some(t)))
    case DrainJoined => s.(main := s.main.(waiting := None))
    case Close =>
      s.(main := Closed,
         tasks := seq(|s.tasks|, i requires 0 <= i < |s.tasks| => LetGo(s.tasks[i])),
         queues := map q | q in s.queues ::
                     s.queues[q].(ready := s.queues[q].ready + Held(s.tasks, q, |s.tasks|)))
  }

  /** A session over queues that hold some messages, each once, with nobody else at work yet. */
  ghost predicate Initial(s: State) {
    && s.tasks == [] && s.registry == map[] && s.main == Reading && s.log == []
    && forall q :: q in s.queues ==>
         && s.queues[q].ready == s.queues[q].published
         && s.queues[q].away == multiset{} && s.queues[q].settled == multiset{}
         && forall id :: s.queues[q].published[id] <= 1
  }

  /** Every state of a run. */
  ghost predicate Run(states: seq<State>, steps: seq<Step>) {
    && |states| == |steps| + 1 && Initial(states[0])
    && forall i :: 0 <= i < |steps| ==> Enabled(states[i], steps[i]) && states[i + 1] == Apply(states[i], steps[i])
  }
}
