/** The redis session loop and the database it is tracked to be on. */
module RedisSession {
  import opened Options

  /** A connection: dead once an attempt timed out or lost it; `db` is what the server has selected. */
  datatype Connection = Connection(alive: bool, db: int)

  /** How sending a command ends. `lost` says the error text is of the connection class. */
  datatype Outcome = Done | Failed(lost: bool, dead: bool) | TimedOut

  /** What the world decides while one line is served. */
  datatype Choices = Choices(first: Outcome, reconnect: bool, restore: Outcome, second: Outcome)

  /** A line of input; `select` is the database a `SELECT` command names. */
  datatype Line = Blank | Malformed | Command(select: Option<int>)

  /** A command on its way: the connection it goes out on and the database tracked at that moment. */
  datatype Send = Send(con: Connection, tracked: int)

  datatype Reply = Success | Error

  /** The record of serving one line. */
  datatype Handled = Handled(sends: seq<Send>, restoreFailed: bool, replies: seq<Reply>)

  datatype State = State(con: Connection, currentDb: Option<int>)

  /** The database the session believes it is on; before any `SELECT` the one its URL names. */
  function Tracked(urlDb: int, currentDb: Option<int>): int { currentDb.UnwrapOr(urlDb) }

  predicate Tracks(urlDb: int, s: State) { s.con.alive ==> s.con.db == Tracked(urlDb, s.currentDb) }

  /** The connection after a command; the server moves when a `SELECT` succeeds. */
  function AfterSend(con: Connection, select: Option<int>, o: Outcome): Connection {
    match o
    case Done => if select.Some? then con.(db := select.value) else con
    case Failed(_, dead) => con.(alive := con.alive && !dead)
    case TimedOut => con.(alive := false)
  }

  predicate NeedsRescue(o: Outcome) { o.TimedOut? || (o.Failed? && o.lost) }

  function ReplyOf(o: Outcome): Reply { if o.Done? then Success else Error }

  /** Database 0 needs no restoring: a new connection is taken to be there. */
  function ToRestore(currentDb: Option<int>): Option<int> {
    if currentDb.Some? && currentDb.value != 0 then currentDb else None
  }

  function Noted(currentDb: Option<int>, select: Option<int>, o: Outcome): Option<int> {
    if o.Done? && select.Some? then select else currentDb
  }

  /** Serve one command whose first attempt lost the connection. */
  function Rescue(urlDb: int, s: State, select: Option<int>, c: Choices): (State, Handled) {
    var send := Send(s.con, Tracked(urlDb, s.currentDb));
    var lost := AfterSend(s.con, select, c.first);
    if !c.reconnect then (s.(con := lost), Handled([send], false, [Error]))
    else
      var renewed := Connection(true, urlDb);
      var db := ToRestore(s.currentDb);
      if db.Some? && !c.restore.Done? then
        (s.(con := AfterSend(renewed, db, c.restore)), Handled([send], true, [Error]))
      else
        var con := if db.Some? then renewed.(db := db.value) else renewed;
        var retry := Send(con, Tracked(urlDb, s.currentDb));
        (State(AfterSend(con, select, c.second), Noted(s.currentDb, select, c.second)),
         Handled([send, retry], false, [ReplyOf(c.second)]))
  }

  function Handle(urlDb: int, s: State, line: Line, c: Choices): (State, Handled) {
    match line
    case Blank => (s, Handled([], false, []))
    case Malformed => (s, Handled([], false, [Error]))
    case Command(select) =>
      if NeedsRescue(c.first) then Rescue(urlDb, s, select, c)
      else
        (State(AfterSend(s.con, select, c.first), Noted(s.currentDb, select, c.first)),
         Handled([Send(s.con, Tracked(urlDb, s.currentDb))], false, [ReplyOf(c.first)]))
  }

  /** Only a live connection can answer. */
  predicate Plausible(s: State, c: Choices) { c.first.Done? ==> s.con.alive }

  /** The session after its first `n` lines, and the record of each. */
  function Serve(urlDb: int, lines: seq<Line>, choices: seq<Choices>, n: nat): (r: (State, seq<Handled>))
    requires n <= |lines| == |choices|
    ensures |r.1| == n
  {
    if n == 0 then (State(Connection(true, urlDb), None), [])
    else
      var before := Serve(urlDb, lines, choices, n - 1);
      var now := Handle(urlDb, before.0, lines[n - 1], choices[n - 1]);
      (now.0, before.1 + [now.1])
  }

  ghost predicate PlausibleRun(urlDb: int, lines: seq<Line>, choices: seq<Choices>) {
    && |lines| == |choices|
    && forall i :: 0 <= i < |lines| ==> Plausible(Serve(urlDb, lines, choices, i).0, choices[i])
  }

  // ----- The loop -----

  class Session {
    const urlDb: int
    var con: Connection
    var currentDb: Option<int>
    var log: seq<Handled>

    constructor (urlDb: int)
      ensures this.urlDb == urlDb && con == Connection(true, urlDb) && currentDb == None && log == []
    {
      this.urlDb, con, currentDb, log := urlDb, Connection(true, urlDb), None, [];
    }

    function Now(): State
      reads this
    {
      State(con, currentDb)
    }

    method ServeCommand(select: Option<int>, c: Choices) returns (h: Handled)
      modifies this
      ensures (Now(), h) == Handle(urlDb, old(Now()), Command(select), c) && log == old(log)
    {
      var sends := [Send(con, Tracked(urlDb, currentDb))];
      var restoreFailed := false;
      var attempt := c.first;
      con := AfterSend(con, select, attempt);
      if NeedsRescue(attempt) && c.reconnect {
        con := Connection(true, urlDb);
        var db := ToRestore(currentDb);
        if db.Some? {
          con := AfterSend(con, db, c.restore);
          restoreFailed := !c.restore.Done?;
        }
        if restoreFailed {
          attempt := Failed(false, false);
        } else {
          sends := sends + [Send(con, Tracked(urlDb, currentDb))];
          assert sends == [sends[0], sends[1]];
          attempt := c.second;
          con := AfterSend(con, select, attempt);
        }
      }
      if attempt.Done? && select.Some? { currentDb := select; }
      h := Handled(sends, restoreFailed, [ReplyOf(attempt)]);
    }

    /** Serve every line in order. */
    method Execute(lines: seq<Line>, choices: seq<Choices>)
      requires |lines| == |choices| && Now() == State(Connection(true, urlDb), None) && log == []
      modifies this
      ensures (Now(), log) == Serve(urlDb, lines, choices, |lines|)
    {
      hide Handle;
      for i := 0 to |lines|
        invariant (Now(), log) == Serve(urlDb, lines, choices, i)
      {
        var h := HandleLine(lines[i], choices[i]);
        log := log + [h];
      }
    }

    method HandleLine(line: Line, c: Choices) returns (h: Handled)
      modifies this
      ensures (Now(), h) == Handle(urlDb, old(Now()), line, c) && log == old(log)
    {
      match line {
        case Blank => h := Handled([], false, []);
        case Malformed => h := Handled([], false, [Error]);
        case Command(select) => h := ServeCommand(select, c);
      }
    }
  }

  // ----- Replies and retries -----

  /** One reply per non-blank line, at most two sends, and no retry when the database was not restored. */
  lemma {:induction false} RepliesAndRetries(urlDb: int, lines: seq<Line>, choices: seq<Choices>, n: nat, i: nat)
    requires i < n <= |lines| == |choices|
    ensures var h := Serve(urlDb, lines, choices, n).1[i];
            && |h.replies| == (if lines[i].Blank? then 0 else 1)
            && |h.sends| <= 2 && (!lines[i].Command? ==> h.sends == [])
            && (h.restoreFailed ==> |h.sends| == 1 && h.replies == [Error])
  {
    if i < n - 1 { RepliesAndRetries(urlDb, lines, choices, n - 1, i); }
  }

  /**
   A command is sent again when its first attempt timed out or lost the connection, a new connection came up,
   and the tracked database, unless none or 0, was selected there. The answer is that of the last attempt, and a
   `SELECT` is noted only when that succeeds. A time-out or a fatal failure leaves the connection dead.
   */
  lemma LineMeans(urlDb: int, s: State, select: Option<int>, c: Choices)
    ensures var (t, h) := Handle(urlDb, s, Command(select), c);
            var lost := c.first == TimedOut || (c.first.Failed? && c.first.lost);
            var needs := s.currentDb != None && s.currentDb != Some(0);
            var again := lost && c.reconnect && (!needs || c.restore == Done);
            var last := if again then c.second else c.first;
            && |h.sends| == (if again then 2 else 1)
            && (h.restoreFailed <==> lost && c.reconnect && needs && c.restore != Done)
            && h.replies == [if last == Done then Success else Error]
            && t.currentDb == (if last == Done && select != None then select else s.currentDb)
            && var ended := if h.restoreFailed then c.restore else last;
               t.con.alive <==> ((lost && c.reconnect) || s.con.alive) && ended != TimedOut
                                && !(ended.Failed? && ended.dead)
  {}

  // ----- The tracked database -----

  predicate OnTrackedDb(h: Handled) {
    forall k :: 0 <= k < |h.sends| && h.sends[k].con.alive ==> h.sends[k].con.db == h.sends[k].tracked
  }

  /** No line asks for database 0 on a session whose URL names another. */
  predicate NoSelectZero(urlDb: int, lines: seq<Line>) {
    urlDb == 0 || forall i :: 0 <= i < |lines| ==> lines[i] != Command(Some(0))
  }

  /** Does one line leave a session on the tracked database that was there `before`, or was not? */
  predicate StandsAfter(urlDb: int, line: Line, h: Handled, before: bool) {
    if h.restoreFailed then h.sends != [] && h.sends[0].tracked == urlDb
    else if line.Command? && line.select.Some? && h.replies == [Success] then true
    else if |h.sends| == 2 then h.sends[1].tracked != 0 || urlDb == 0
    else before
  }

  /** Do the first `n` lines leave the session on the tracked database, going by their record alone? */
  predicate Standing(urlDb: int, lines: seq<Line>, log: seq<Handled>, n: nat)
    requires n <= |lines| && n <= |log|
    decreases n
  {
    n == 0 || StandsAfter(urlDb, lines[n - 1], log[n - 1], Standing(urlDb, lines, log, n - 1))
  }

  lemma HandleStands(urlDb: int, s: State, line: Line, c: Choices, before: bool)
    requires Plausible(s, c) && (s.con.alive ==> (Tracks(urlDb, s) <==> before))
    ensures var (t, h) := Handle(urlDb, s, line, c);
            t.con.alive ==> (Tracks(urlDb, t) <==> StandsAfter(urlDb, line, h, before))
  {
  }

  lemma {:induction false} StandingOfPrefix(urlDb: int, lines: seq<Line>, a: seq<Handled>, b: seq<Handled>, n: nat)
    requires n <= |lines| && n <= |a| && n <= |b| && a[..n] == b[..n]
    ensures Standing(urlDb, lines, a, n) <==> Standing(urlDb, lines, b, n)
    decreases n
  {
    if n > 0 {
      assert a[n - 1] == a[..n][n - 1] == b[n - 1];
      assert a[..n - 1] == a[..n][..n - 1] == b[..n - 1];
      StandingOfPrefix(urlDb, lines, a, b, n - 1);
    }
  }

  lemma LogOf(urlDb: int, lines: seq<Line>, choices: seq<Choices>, n: nat)
    requires 0 < n <= |lines| == |choices|
    ensures var before, after := Serve(urlDb, lines, choices, n - 1), Serve(urlDb, lines, choices, n);
            var now := Handle(urlDb, before.0, lines[n - 1], choices[n - 1]);
            after.0 == now.0 && after.1[n - 1] == now.1 && after.1[..n - 1] == before.1
  {
    hide Handle;
  }

  lemma StandingStep(urlDb: int, lines: seq<Line>, choices: seq<Choices>, n: nat)
    requires 0 < n <= |lines| == |choices|
    ensures var before, log := Serve(urlDb, lines, choices, n - 1).1, Serve(urlDb, lines, choices, n).1;
            Standing(urlDb, lines, log, n)
            <==> StandsAfter(urlDb, lines[n - 1], log[n - 1], Standing(urlDb, lines, before, n - 1))
  {
    hide Handle, Serve;
    LogOf(urlDb, lines, choices, n);
    var before, log := Serve(urlDb, lines, choices, n - 1).1, Serve(urlDb, lines, choices, n).1;
    assert before[..n - 1] == before;
    StandingOfPrefix(urlDb, lines, before, log, n - 1);
  }

  /** Does the record of the first `n` lines say where a live session stands? */
  predicate RecordTells(urlDb: int, lines: seq<Line>, choices: seq<Choices>, n: nat)
    requires n <= |lines| == |choices|
  {
    var (s, log) := Serve(urlDb, lines, choices, n);
    s.con.alive ==> (Tracks(urlDb, s) <==> Standing(urlDb, lines, log, n))
  }

  lemma RecordTellsAtFirst(urlDb: int, lines: seq<Line>, choices: seq<Choices>)
    requires |lines| == |choices|
    ensures RecordTells(urlDb, lines, choices, 0)
  {
  }

  lemma RecordTellsNext(urlDb: int, lines: seq<Line>, choices: seq<Choices>, n: nat)
    requires 0 < n <= |lines| == |choices| && RecordTells(urlDb, lines, choices, n - 1)
    requires Plausible(Serve(urlDb, lines, choices, n - 1).0, choices[n - 1])
    ensures RecordTells(urlDb, lines, choices, n)
  {
    hide Handle, Serve, Tracks, Standing, StandsAfter, Plausible;
    var before := Serve(urlDb, lines, choices, n - 1);
    HandleStands(urlDb, before.0, lines[n - 1], choices[n - 1], Standing(urlDb, lines, before.1, n - 1));
    StandingStep(urlDb, lines, choices, n);
    LogOf(urlDb, lines, choices, n);
  }

  /**
   In every run, whatever is selected, lost, restored or not: a live session is on the tracked database
   exactly when the last line that moved either left it there. A `SELECT` that succeeds does; a failed
   restore does when the tracked database is the URL's; a retry does unless 0 is tracked on a URL that
   names another.
   */
  lemma {:induction false} TracksIff(urlDb: int, lines: seq<Line>, choices: seq<Choices>, n: nat)
    requires PlausibleRun(urlDb, lines, choices) && n <= |lines|
    ensures var (s, log) := Serve(urlDb, lines, choices, n);
            s.con.alive ==> (Tracks(urlDb, s) <==> Standing(urlDb, lines, log, n))
  {
    RecordAlwaysTells(urlDb, lines, choices, n);
    hide Serve, Tracks, Standing;
  }

  lemma {:induction false} RecordAlwaysTells(urlDb: int, lines: seq<Line>, choices: seq<Choices>, n: nat)
    requires PlausibleRun(urlDb, lines, choices) && n <= |lines|
    ensures RecordTells(urlDb, lines, choices, n)
    decreases n
  {
    hide RecordTells, Plausible, Serve;
    if n > 0 {
      RecordAlwaysTells(urlDb, lines, choices, n - 1);
      RecordTellsNext(urlDb, lines, choices, n);
    } else {
      RecordTellsAtFirst(urlDb, lines, choices);
    }
  }

  lemma SendsOfLine(urlDb: int, s: State, line: Line, c: Choices)
    ensures var h := Handle(urlDb, s, line, c).1;
            && (|h.sends| >= 1 ==> h.sends[0] == Send(s.con, Tracked(urlDb, s.currentDb)))
            && (|h.sends| == 2 ==>
                  h.sends[1].con.alive && h.sends[1].tracked == h.sends[0].tracked
                  && (h.sends[1].con.db == h.sends[1].tracked <==> h.sends[1].tracked != 0 || urlDb == 0))
  {
  }

  /**
   So a command goes out on the tracked database, if its connection is live at all, exactly when the
   session stands so before it, and its retry exactly unless 0 is tracked on a URL that names another.
   */
  lemma SendsOnTheTrackedDbIff(urlDb: int, lines: seq<Line>, choices: seq<Choices>, n: nat)
    requires PlausibleRun(urlDb, lines, choices) && n < |lines|
    ensures var log := Serve(urlDb, lines, choices, n + 1).1;
            var sends := log[n].sends;
            && (|sends| >= 1 && sends[0].con.alive ==>
                  (sends[0].con.db == sends[0].tracked <==> Standing(urlDb, lines, log, n)))
            && (|sends| == 2 ==> (sends[1].con.db == sends[1].tracked <==> sends[1].tracked != 0 || urlDb == 0))
  {
    hide Handle, Serve, Standing;
    TracksIff(urlDb, lines, choices, n);
    LogOf(urlDb, lines, choices, n + 1);
    var (s, before) := Serve(urlDb, lines, choices, n);
    SendsOfLine(urlDb, s, lines[n], choices[n]);
    var log := Serve(urlDb, lines, choices, n + 1).1;
    assert before[..n] == before;
    StandingOfPrefix(urlDb, lines, before, log, n);
  }

  // ----- Runs without database 0, and without a failed restore -----

  lemma HandleCurrent(urlDb: int, s: State, line: Line, c: Choices)
    ensures var now := Handle(urlDb, s, line, c).0.currentDb;
            now == s.currentDb || (line.Command? && now == line.select)
  {
  }

  lemma {:induction false} SelectsNoZero(urlDb: int, lines: seq<Line>, choices: seq<Choices>, n: nat)
    requires n <= |lines| == |choices| && NoSelectZero(urlDb, lines)
    ensures urlDb == 0 || Tracked(urlDb, Serve(urlDb, lines, choices, n).0.currentDb) != 0
  {
    hide Handle;
    if n > 0 {
      SelectsNoZero(urlDb, lines, choices, n - 1);
      HandleCurrent(urlDb, Serve(urlDb, lines, choices, n - 1).0, lines[n - 1], choices[n - 1]);
    }
  }

  ghost predicate NoFailedRestore(log: seq<Handled>) {
    forall i :: 0 <= i < |log| ==> !log[i].restoreFailed
  }

  /** Without a request for database 0 on another URL, a retry always goes to the tracked database. */
  lemma RetriesStand(urlDb: int, lines: seq<Line>, choices: seq<Choices>, n: nat)
    requires 0 < n <= |lines| == |choices| && NoSelectZero(urlDb, lines)
    ensures var h := Serve(urlDb, lines, choices, n).1[n - 1];
            |h.sends| == 2 ==> h.sends[1].tracked != 0 || urlDb == 0
  {
    hide Handle, Serve;
    LogOf(urlDb, lines, choices, n);
    SelectsNoZero(urlDb, lines, choices, n - 1);
    SendsOfLine(urlDb, Serve(urlDb, lines, choices, n - 1).0, lines[n - 1], choices[n - 1]);
  }

  lemma {:induction false} StandsSoFar(urlDb: int, lines: seq<Line>, choices: seq<Choices>, n: nat)
    requires n <= |lines| == |choices| && NoSelectZero(urlDb, lines)
    requires NoFailedRestore(Serve(urlDb, lines, choices, n).1)
    ensures Standing(urlDb, lines, Serve(urlDb, lines, choices, n).1, n)
    decreases n
  {
    hide Handle, Serve;
    if n > 0 {
      LogOf(urlDb, lines, choices, n);
      var before, log := Serve(urlDb, lines, choices, n - 1).1, Serve(urlDb, lines, choices, n).1;
      assert forall i :: 0 <= i < n - 1 ==> before[i] == log[..n - 1][i] == log[i];
      StandsSoFar(urlDb, lines, choices, n - 1);
      RetriesStand(urlDb, lines, choices, n);
      StandingStep(urlDb, lines, choices, n);
    }
  }

  /**
   In every run with a db-less URL, or one that never selects database 0: as long as no restore
   has failed, each command goes out on a connection that is on the tracked database.
   */
  lemma CommandsRunOnTheTrackedDb(urlDb: int, lines: seq<Line>, choices: seq<Choices>, n: nat)
    requires PlausibleRun(urlDb, lines, choices) && n < |lines| && NoSelectZero(urlDb, lines)
    requires NoFailedRestore(Serve(urlDb, lines, choices, n).1)
    ensures OnTrackedDb(Serve(urlDb, lines, choices, n + 1).1[n])
  {
    hide Handle, Serve, Standing, NoSelectZero;
    StandsSoFar(urlDb, lines, choices, n);
    SendsOnTheTrackedDbIff(urlDb, lines, choices, n);
    RetriesStand(urlDb, lines, choices, n + 1);
    LogOf(urlDb, lines, choices, n + 1);
    var before, log := Serve(urlDb, lines, choices, n).1, Serve(urlDb, lines, choices, n + 1).1;
    assert before[..n] == before;
    StandingOfPrefix(urlDb, lines, before, log, n);
    AtMostTwo(urlDb, Serve(urlDb, lines, choices, n).0, lines[n], choices[n]);
  }

  lemma AtMostTwo(urlDb: int, s: State, line: Line, c: Choices)
    ensures |Handle(urlDb, s, line, c).1.sends| <= 2
  {
  }

  // ----- Where tracking fails -----

  /** A retry goes to the tracked database exactly when that is not database 0 on a URL that names another. */
  lemma RetryIsOnTrackedDbIff(urlDb: int, s: State, select: Option<int>, c: Choices)
    requires |Handle(urlDb, s, Command(select), c).1.sends| == 2
    ensures var retry := Handle(urlDb, s, Command(select), c).1.sends[1];
            retry.con.db == retry.tracked <==> urlDb == 0 || s.currentDb != Some(0)
  {
  }

  /** After a failed restore the session is on the wrong database exactly when the tracked one is not the URL's. */
  lemma FailedRestoreMisplacesIff(urlDb: int, s: State, line: Line, c: Choices)
    requires Handle(urlDb, s, line, c).1.restoreFailed && Handle(urlDb, s, line, c).0.con.alive
    ensures Tracks(urlDb, Handle(urlDb, s, line, c).0) <==> s.currentDb == Some(urlDb)
  {
  }

  /** A line that puts the session on the tracked database: a `SELECT` that succeeds, or a retry. */
  predicate Regains(line: Line, h: Handled) {
    !h.restoreFailed && (|h.sends| == 2 || (line.Command? && line.select.Some? && h.replies == [Success]))
  }

  /** Does a line in `[from, n)` put the session back on the tracked database? */
  ghost predicate RegainedBetween(lines: seq<Line>, log: seq<Handled>, from: nat, n: nat)
    requires n <= |lines| && n <= |log|
  {
    exists i :: from <= i < n && Regains(lines[i], log[i])
  }

  lemma RegainedOneMore(lines: seq<Line>, before: seq<Handled>, log: seq<Handled>, from: nat, n: nat)
    requires from < n <= |lines| && |log| == n && |before| == n - 1 && log[..n - 1] == before
    ensures RegainedBetween(lines, log, from, n)
            <==> RegainedBetween(lines, before, from, n - 1) || Regains(lines[n - 1], log[n - 1])
  {
    hide Regains;
    assert forall i :: 0 <= i < n - 1 ==> log[i] == before[i];
    if RegainedBetween(lines, log, from, n) {
      var i :| from <= i < n && Regains(lines[i], log[i]);
    }
    if RegainedBetween(lines, before, from, n - 1) {
      var i :| from <= i < n - 1 && Regains(lines[i], before[i]);
      assert Regains(lines[i], log[i]);
    }
  }

  lemma FailedRestoreState(urlDb: int, s: State, line: Line, c: Choices)
    requires Handle(urlDb, s, line, c).1.restoreFailed
    ensures var h := Handle(urlDb, s, line, c).1;
            h.sends != [] && (h.sends[0].tracked == urlDb <==> s.currentDb == Some(urlDb))
  {
  }

  /** Since the last failed restore a session stands when a line regained it, or it had nothing to regain. */
  lemma {:induction false} StandsSinceFailedRestore(urlDb: int, lines: seq<Line>, choices: seq<Choices>, f: nat, n: nat)
    requires f < n <= |lines| == |choices| && NoSelectZero(urlDb, lines)
    requires Serve(urlDb, lines, choices, n).1[f].restoreFailed
    requires forall i :: f < i < n ==> !Serve(urlDb, lines, choices, n).1[i].restoreFailed
    ensures var log := Serve(urlDb, lines, choices, n).1;
            Standing(urlDb, lines, log, n)
            <==> RegainedBetween(lines, log, f + 1, n)
                 || Serve(urlDb, lines, choices, f).0.currentDb == Some(urlDb)
    decreases n
  {
    hide Handle, Serve, Standing, NoSelectZero, RegainedBetween;
    LogOf(urlDb, lines, choices, n);
    StandingStep(urlDb, lines, choices, n);
    var before, log := Serve(urlDb, lines, choices, n - 1), Serve(urlDb, lines, choices, n).1;
    if n == f + 1 {
      FailedRestoreState(urlDb, before.0, lines[f], choices[f]);
      NoneYet(lines, log, n);
    } else {
      assert forall i :: 0 <= i < n - 1 ==> before.1[i] == log[..n - 1][i] == log[i];
      StandsSinceFailedRestore(urlDb, lines, choices, f, n - 1);
      RegainedOneMore(lines, before.1, log, f + 1, n);
      RetriesStand(urlDb, lines, choices, n);
    }
  }

  lemma NoneYet(lines: seq<Line>, log: seq<Handled>, n: nat)
    requires n <= |lines| && n <= |log|
    ensures !RegainedBetween(lines, log, n, n)
  {
  }

  /**
   After a failed restore, and until another restore fails: a live session is on the tracked database
   exactly when some line since then was a `SELECT` that succeeded or a retry on a new connection, or
   the tracked database was the URL's all along.
   */
  lemma TrackingRegainedIff(urlDb: int, lines: seq<Line>, choices: seq<Choices>, f: nat, n: nat)
    requires PlausibleRun(urlDb, lines, choices) && f < n <= |lines| && NoSelectZero(urlDb, lines)
    requires Serve(urlDb, lines, choices, n).1[f].restoreFailed
    requires forall i :: f < i < n ==> !Serve(urlDb, lines, choices, n).1[i].restoreFailed
    requires Serve(urlDb, lines, choices, n).0.con.alive
    ensures var (s, log) := Serve(urlDb, lines, choices, n);
            Tracks(urlDb, s)
            <==> RegainedBetween(lines, log, f + 1, n)
                 || Serve(urlDb, lines, choices, f).0.currentDb == Some(urlDb)
  {
    hide Serve, Standing, RegainedBetween, Tracks, NoSelectZero;
    TracksIff(urlDb, lines, choices, n);
    StandsSinceFailedRestore(urlDb, lines, choices, f, n);
  }

  /** `SELECT 3`, a lost connection whose restore is refused, and the next command runs on database 0. */
  lemma NextCommandOnTheWrongDb()
    ensures var refused := Failed(false, false);
            var lines := [Command(Some(3)), Command(None), Command(None)];
            var choices := [Choices(Done, false, Done, Done), Choices(TimedOut, true, refused, Done),
                            Choices(Done, false, Done, Done)];
            && PlausibleRun(0, lines, choices)
            && Serve(0, lines, choices, 3).1[2] == Handled([Send(Connection(true, 0), 3)], false, [Success])
  {
    var refused := Failed(false, false);
    var lines := [Command(Some(3)), Command(None), Command(None)];
    var choices := [Choices(Done, false, Done, Done), Choices(TimedOut, true, refused, Done),
                    Choices(Done, false, Done, Done)];
    assert Serve(0, lines, choices, 0).0 == State(Connection(true, 0), None);
    assert Serve(0, lines, choices, 1).0 == State(Connection(true, 3), Some(3));
    assert Serve(0, lines, choices, 2).0 == State(Connection(true, 0), Some(3));
    assert Serve(0, lines, choices, 3).1 == Serve(0, lines, choices, 2).1
                                            + [Handled([Send(Connection(true, 0), 3)], false, [Success])];
  }

  /** With a URL that names database 5, database 0 is not restored: the retry runs on 5 while 0 is tracked. */
  lemma DatabaseZeroIsNotRestored()
    ensures var lines := [Command(Some(0)), Command(None)];
            var choices := [Choices(Done, false, Done, Done), Choices(TimedOut, true, Done, Done)];
            && PlausibleRun(5, lines, choices)
            && Serve(5, lines, choices, 2).1[1]
               == Handled([Send(Connection(true, 0), 0), Send(Connection(true, 5), 0)], false, [Success])
  {
    var lines := [Command(Some(0)), Command(None)];
    var choices := [Choices(Done, false, Done, Done), Choices(TimedOut, true, Done, Done)];
    assert Serve(5, lines, choices, 0).0 == State(Connection(true, 5), None);
    assert Serve(5, lines, choices, 1).0 == State(Connection(true, 0), Some(0));
    assert Serve(5, lines, choices, 2).1
        == Serve(5, lines, choices, 1).1
           + [Handled([Send(Connection(true, 0), 0), Send(Connection(true, 5), 0)], false, [Success])];
  }
}
