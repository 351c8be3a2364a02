/**
 Running a file of statements: the SQLite loop, its counters and its transaction. The engine is a
 parameter, so every statement may do anything to the database and may fail or time out at any place;
 begin, commit and rollback may fail as well.
 */
module ExecFile {
  import opened Options
  import opened Text

  // ----- The database -----

  datatype Control = Ordinary | Begin | Commit | Rollback

  datatype Outcome = Outcome(rowCount: nat, isDml: bool, affected: nat)

  /** What a statement leaves behind, and its outcome unless it failed. */
  datatype Effect<D> = Effect(next: D, outcome: Option<Outcome>)

  /**
   The database engine: which statements control transactions, and what any other statement does
   when it runs as number `number` (so a timeout may strike at any of them).
   */
  datatype Engine<!D> = Engine(control: string -> Control, run: (D, string, nat) -> Effect<D>)

  class Connection<D> {
    var committed: D
    var working: D
    var open: bool

    ghost predicate Valid()
      reads this
    {
      !open ==> working == committed
    }

    constructor (d: D)
      ensures Valid() && committed == d && !open
    {
      committed, working, open := d, d, false;
    }

    method BeginTransaction() returns (ok: bool)
      requires Valid()
      modifies this
      ensures Valid() && committed == old(committed) && working == old(working)
      ensures open == (old(open) || ok) && (ok ==> !old(open))
    {
      ok := *;
      ok := ok && !open;
      if ok { open := true; }
    }

    /** A commit that fails either leaves the transaction open or has rolled it back. */
    method CommitTransaction() returns (ok: bool)
      requires Valid()
      modifies this
      ensures Valid() && (ok ==> old(open) && !open && committed == old(working))
      ensures !ok ==> committed == old(committed)
    {
      ok := *;
      ok := ok && open;
      if ok {
        committed, open := working, false;
      } else if * {
        working, open := committed, false;
      }
    }

    method RollbackTransaction() returns (ok: bool)
      requires Valid()
      modifies this
      ensures Valid() && committed == old(committed) && (ok ==> !open)
      ensures !ok ==> working == old(working) && open == old(open)
    {
      ok := *;
      ok := ok && open;
      if ok { working, open := committed, false; }
    }

    /** Run one statement; outside a transaction what it leaves is committed at once. */
    method Execute(engine: Engine<D>, sql: string, number: nat) returns (r: Option<Outcome>)
      requires Valid()
      modifies this
      ensures Valid()
      ensures engine.control(sql) == Ordinary ==>
                var e := engine.run(old(working), sql, number);
                && r == e.outcome && working == e.next && open == old(open)
                && committed == (if open then old(committed) else e.next)
      ensures engine.control(sql) == Commit ==>
                if r.Some? then old(open) && !open && committed == old(working) else committed == old(committed)
      ensures engine.control(sql) == Begin ==> committed == old(committed) && (r.Some? ==> !old(open) && open)
      ensures engine.control(sql) == Rollback ==> committed == old(committed) && (r.Some? ==> !open)
    {
      match engine.control(sql) {
        case Ordinary =>
          var e := engine.run(working, sql, number);
          working := e.next;
          if !open { committed := working; }
          r := e.outcome;
        case Begin =>
          var ok := BeginTransaction();
          r := if ok then Some(Outcome(0, false, 0)) else None;
        case Commit =>
          var ok := CommitTransaction();
          r := if ok then Some(Outcome(0, false, 0)) else None;
        case Rollback =>
          var ok := RollbackTransaction();
          r := if ok then Some(Outcome(0, false, 0)) else None;
      }
    }

    /** Closing the connection discards a transaction that is still open. */
    method Close()
      requires Valid()
      modifies this
      ensures Valid() && !open && committed == old(committed)
    {
      working, open := committed, false;
    }
  }

  // ----- The event stream -----

  datatype Event =
    | Progress(number: nat, total: nat, sql: string)
    | ResultOk(number: nat, total: nat, sql: string, outcome: Outcome)
    | ResultErr(number: nat, total: nat, sql: string)
    | Summary(total: nat, succeeded: nat, failed: nat, totalRows: nat, totalAffected: nat, rolledBack: bool)

  function Oks(events: seq<Event>): nat {
    if events == [] then 0 else Oks(events[..|events| - 1]) + (if events[|events| - 1].ResultOk? then 1 else 0)
  }

  function Errs(events: seq<Event>): nat {
    if events == [] then 0 else Errs(events[..|events| - 1]) + (if events[|events| - 1].ResultErr? then 1 else 0)
  }

  function Rows(events: seq<Event>): nat {
    if events == [] then 0
    else
      var e := events[|events| - 1];
      Rows(events[..|events| - 1]) + (if e.ResultOk? then e.outcome.rowCount else 0)
  }

  function Affected(events: seq<Event>): nat {
    if events == [] then 0
    else
      var e := events[|events| - 1];
      Affected(events[..|events| - 1]) + (if e.ResultOk? && e.outcome.isDml then e.outcome.affected else 0)
  }

  /** The counters add up over the events, and each event counts for itself. */
  lemma {:induction false} CountersAdd(events: seq<Event>, e: Event)
    ensures Oks(events + [e]) == Oks(events) + (if e.ResultOk? then 1 else 0)
    ensures Errs(events + [e]) == Errs(events) + (if e.ResultErr? then 1 else 0)
    ensures Rows(events + [e]) == Rows(events) + (if e.ResultOk? then e.outcome.rowCount else 0)
    ensures Affected(events + [e]) ==
            Affected(events) + (if e.ResultOk? && e.outcome.isDml then e.outcome.affected else 0)
    ensures Oks([]) == Errs([]) == Rows([]) == Affected([]) == 0
  {
    assert (events + [e])[..|events|] == events;
  }

  /** The emitted events and the counters kept beside them. */
  class Recorder {
    var events: seq<Event>
    var succeeded: nat
    var failed: nat
    var totalRows: nat
    var totalAffected: nat

    /** The counters say what the stream says. */
    ghost predicate Valid()
      reads this
    {
      && succeeded == Oks(events) && failed == Errs(events)
      && totalRows == Rows(events) && totalAffected == Affected(events)
    }

    constructor ()
      ensures Valid() && events == []
    {
      events, succeeded, failed, totalRows, totalAffected := [], 0, 0, 0, 0;
    }

    method Emit(e: Event)
      requires Valid() && (e.Progress? || e.Summary?)
      modifies this`events
      ensures Valid() && events == old(events) + [e]
    {
      events := events + [e];
      assert events[..|events| - 1] == old(events);
    }

    method RecordOk(number: nat, total: nat, sql: string, outcome: Outcome)
      requires Valid()
      modifies this
      ensures Valid() && events == old(events) + [ResultOk(number, total, sql, outcome)]
      ensures succeeded == old(succeeded) + 1 && failed == old(failed)
    {
      succeeded := succeeded + 1;
      totalRows := totalRows + outcome.rowCount;
      if outcome.isDml { totalAffected := totalAffected + outcome.affected; }
      events := events + [ResultOk(number, total, sql, outcome)];
      assert events[..|events| - 1] == old(events);
    }

    method RecordErr(number: nat, total: nat, sql: string)
      requires Valid()
      modifies this
      ensures Valid() && events == old(events) + [ResultErr(number, total, sql)]
      ensures succeeded == old(succeeded) && failed == old(failed) + 1
    {
      failed := failed + 1;
      events := events + [ResultErr(number, total, sql)];
      assert events[..|events| - 1] == old(events);
    }
  }

  // ----- What running in order means -----

  predicate Skippable(isUse: string -> bool, s: string) { Trim(s) == "" || isUse(Trim(s)) }

  /** A statement is skipped when nothing but spaces is in it, or `USE` is what is between the spaces around it. */
  lemma SkippableIff(isUse: string -> bool, s: string, i: nat, j: nat)
    requires i <= j <= |s| && AllSpaces(s, 0, i) && AllSpaces(s, j, |s|)
    requires i < j ==> !IsSpace(s[i]) && !IsSpace(s[j - 1])
    ensures Skippable(isUse, s) <==> i == j || isUse(s[i..j])
  {
    hide Trim, IsSpace, AllSpaces;
    TrimIsSlice(s, i, j);
  }

  predicate NoControl<D>(engine: Engine<D>, statements: seq<string>) {
    forall k :: 0 <= k < |statements| ==> engine.control(Trim(statements[k])) == Ordinary
  }

  predicate NoneSkipped(isUse: string -> bool, statements: seq<string>) {
    forall k :: 0 <= k < |statements| ==> !Skippable(isUse, statements[k])
  }

  /** The database after the first `n` statements, each run on what the one before left. */
  function After<D>(engine: Engine<D>, isUse: string -> bool, d: D, statements: seq<string>, n: nat): D
    requires n <= |statements|
  {
    if n == 0 then d
    else
      var before := After(engine, isUse, d, statements, n - 1);
      if Skippable(isUse, statements[n - 1]) then before
      else engine.run(before, Trim(statements[n - 1]), n).next
  }

  function OutcomeOf<D>(engine: Engine<D>, isUse: string -> bool, d: D, statements: seq<string>, k: nat)
    : Option<Outcome>
    requires k < |statements|
  {
    engine.run(After(engine, isUse, d, statements, k), Trim(statements[k]), k + 1).outcome
  }

  /** The events of the first `n` statements: a progress event and a result each, numbered from 1 without gaps. */
  function Stream<D>(engine: Engine<D>, isUse: string -> bool, d: D, statements: seq<string>, n: nat): seq<Event>
    requires n <= |statements|
  {
    if n == 0 then []
    else
      var sql, total := Trim(statements[n - 1]), |statements|;
      var result := match OutcomeOf(engine, isUse, d, statements, n - 1)
                    case Some(o) => ResultOk(n, total, sql, o)
                    case None => ResultErr(n, total, sql);
      Stream(engine, isUse, d, statements, n - 1) + [Progress(n, total, sql), result]
  }

  /** Do the first `n` statements all succeed? */
  predicate AllSucceed<D>(engine: Engine<D>, isUse: string -> bool, d: D, statements: seq<string>, n: nat)
    requires n <= |statements|
  {
    forall k :: 0 <= k < n ==> OutcomeOf(engine, isUse, d, statements, k).Some?
  }

  // ----- The loop -----

  /** One statement: announce it, run it, record how it went. */
  method RunStatement<D>(conn: Connection<D>, rec: Recorder, engine: Engine<D>, sql: string, number: nat, total: nat)
    returns (ok: bool)
    requires conn.Valid() && rec.Valid()
    modifies conn, rec
    ensures conn.Valid() && rec.Valid()
    ensures engine.control(sql) == Ordinary ==>
              var e := engine.run(old(conn.working), sql, number);
              && ok == e.outcome.Some? && conn.working == e.next && conn.open == old(conn.open)
              && conn.committed == (if conn.open then old(conn.committed) else e.next)
              && rec.events == old(rec.events) + [Progress(number, total, sql),
                   match e.outcome
                   case Some(o) => ResultOk(number, total, sql, o)
                   case None => ResultErr(number, total, sql)]
    ensures rec.succeeded + rec.failed == old(rec.succeeded + rec.failed) + 1
    ensures rec.failed == old(rec.failed) + (if ok then 0 else 1)
  {
    hide Oks, Errs, Rows, Affected;
    ghost var before := rec.events;
    rec.Emit(Progress(number, total, sql));
    var outcome := conn.Execute(engine, sql, number);
    match outcome {
      case Some(o) => rec.RecordOk(number, total, sql, o);
      case None => rec.RecordErr(number, total, sql);
    }
    ok := outcome.Some?;
    assert rec.events == before + [Progress(number, total, sql), rec.events[|before| + 1]];
  }

  /** What holds while the loop is between statements and no transaction has failed. */
  ghost predicate Underway<D>(engine: Engine<D>, isUse: string -> bool, d: D, statements: seq<string>, n: nat,
                              transaction: bool, conn: Connection<D>, rec: Recorder)
    requires n <= |statements|
    reads conn, rec
  {
    && conn.open == transaction
    && conn.working == After(engine, isUse, d, statements, n)
    && (transaction ==> conn.committed == d && rec.failed == 0)
    && (NoneSkipped(isUse, statements) ==>
          && rec.events == Stream(engine, isUse, d, statements, n)
          && rec.succeeded + rec.failed == n
          && (transaction ==> AllSucceed(engine, isUse, d, statements, n)))
  }

  /** A transaction run that failed: at its `n`-th statement, or at the closing commit. */
  ghost predicate FailedAt<D>(engine: Engine<D>, isUse: string -> bool, d: D, statements: seq<string>, n: nat,
                              events: seq<Event>)
    requires 0 < n <= |statements|
  {
    && AllSucceed(engine, isUse, d, statements, n - 1)
    && (if OutcomeOf(engine, isUse, d, statements, n - 1).None? then events == Stream(engine, isUse, d, statements, n)
        else n == |statements|
             && events == Stream(engine, isUse, d, statements, n)
                          + [ResultErr(n + 1, |statements|, "COMMIT")])
  }

  ghost predicate FailedOnce<D>(engine: Engine<D>, isUse: string -> bool, d: D, statements: seq<string>,
                                events: seq<Event>)
  {
    exists n :: 0 < n <= |statements| && FailedAt(engine, isUse, d, statements, n, events)
  }

  /** What a whole run promises when no statement controls transactions itself. */
  ghost predicate Promised<D>(engine: Engine<D>, isUse: string -> bool, d: D, statements: seq<string>,
                              transaction: bool, committed: D, rec: Recorder)
    reads rec
  {
    && (transaction && rec.failed > 0 ==> committed == d && rec.failed == 1)
    && (!(transaction && rec.failed > 0) ==> committed == After(engine, isUse, d, statements, |statements|))
    && (statements != [] && NoneSkipped(isUse, statements) ==>
          if transaction && rec.failed > 0 then FailedOnce(engine, isUse, d, statements, rec.events)
          else
            && rec.events == Stream(engine, isUse, d, statements, |statements|)
            && rec.succeeded + rec.failed == |statements|
            && (transaction ==> AllSucceed(engine, isUse, d, statements, |statements|)))
  }

  lemma NothingRun<D>(engine: Engine<D>, isUse: string -> bool, d: D, statements: seq<string>)
    ensures After(engine, isUse, d, statements, 0) == d && Stream(engine, isUse, d, statements, 0) == []
    ensures AllSucceed(engine, isUse, d, statements, 0)
  {
  }

  lemma OneSkipped<D>(engine: Engine<D>, isUse: string -> bool, d: D, statements: seq<string>, n: nat)
    requires 0 < n <= |statements| && Skippable(isUse, statements[n - 1])
    ensures After(engine, isUse, d, statements, n) == After(engine, isUse, d, statements, n - 1)
    ensures !NoneSkipped(isUse, statements)
  {
  }

  lemma OneRun<D>(engine: Engine<D>, isUse: string -> bool, d: D, statements: seq<string>, n: nat)
    requires 0 < n <= |statements| && !Skippable(isUse, statements[n - 1])
    ensures var sql, total := Trim(statements[n - 1]), |statements|;
            var e := engine.run(After(engine, isUse, d, statements, n - 1), sql, n);
            && After(engine, isUse, d, statements, n) == e.next
            && OutcomeOf(engine, isUse, d, statements, n - 1) == e.outcome
            && Stream(engine, isUse, d, statements, n)
               == Stream(engine, isUse, d, statements, n - 1) + [Progress(n, total, sql),
                    match e.outcome case Some(o) => ResultOk(n, total, sql, o) case None => ResultErr(n, total, sql)]
    ensures AllSucceed(engine, isUse, d, statements, n)
            <==> AllSucceed(engine, isUse, d, statements, n - 1)
                 && OutcomeOf(engine, isUse, d, statements, n - 1).Some?
  {
  }

  /** Statement `k` has its progress event and its result next to each other, both numbered `k + 1`. */
  lemma {:induction false} StreamIsNumbered<D>(engine: Engine<D>, isUse: string -> bool, d: D,
                                               statements: seq<string>, n: nat, k: nat)
    requires k < n <= |statements|
    ensures var events, sql, total := Stream(engine, isUse, d, statements, n), Trim(statements[k]), |statements|;
            && |events| == 2 * n
            && events[2 * k] == Progress(k + 1, total, sql)
            && events[2 * k + 1] == match OutcomeOf(engine, isUse, d, statements, k)
                                    case Some(o) => ResultOk(k + 1, total, sql, o)
                                    case None => ResultErr(k + 1, total, sql)
  {
    hide OutcomeOf;
    StreamLength(engine, isUse, d, statements, n - 1);
    if k < n - 1 { StreamIsNumbered(engine, isUse, d, statements, n - 1, k); }
  }

  lemma {:induction false} StreamLength<D>(engine: Engine<D>, isUse: string -> bool, d: D,
                                           statements: seq<string>, n: nat)
    requires n <= |statements|
    ensures |Stream(engine, isUse, d, statements, n)| == 2 * n
  {
    if n > 0 { StreamLength(engine, isUse, d, statements, n - 1); }
  }

  lemma FailsAt<D>(engine: Engine<D>, isUse: string -> bool, d: D, statements: seq<string>, n: nat, events: seq<Event>)
    requires 0 < n <= |statements| && FailedAt(engine, isUse, d, statements, n, events)
    ensures FailedOnce(engine, isUse, d, statements, events)
  {
  }

  lemma CommitFailed<D>(engine: Engine<D>, isUse: string -> bool, d: D, statements: seq<string>, events: seq<Event>)
    requires statements != [] && AllSucceed(engine, isUse, d, statements, |statements|)
    requires events == Stream(engine, isUse, d, statements, |statements|)
                       + [ResultErr(|statements| + 1, |statements|, "COMMIT")]
    ensures FailedOnce(engine, isUse, d, statements, events)
  {
    assert FailedAt(engine, isUse, d, statements, |statements|, events);
  }

  /** Run every statement in order; in a transaction the first failure rolls back and ends the run. */
  method RunAll<D>(conn: Connection<D>, rec: Recorder, engine: Engine<D>, isUse: string -> bool,
                   statements: seq<string>, transaction: bool) returns (inTransaction: bool)
    requires conn.Valid() && rec.Valid() && rec.events == [] && conn.open == transaction
    requires conn.working == conn.committed
    modifies conn, rec
    ensures conn.Valid() && rec.Valid() && (inTransaction ==> transaction)
    ensures NoControl(engine, statements) ==>
              var d := old(conn.committed);
              if inTransaction == transaction then
                Underway(engine, isUse, d, statements, |statements|, transaction, conn, rec)
              else
                && conn.committed == d && rec.failed == 1
                && (NoneSkipped(isUse, statements) ==> FailedOnce(engine, isUse, d, statements, rec.events))
  {
    hide After, Stream, OutcomeOf, AllSucceed, NoneSkipped, FailedOnce, Rows, Affected;
    var total := |statements|;
    ghost var d, plain := conn.committed, NoControl(engine, statements);
    NothingRun(engine, isUse, d, statements);
    inTransaction := transaction;
    var i := 0;
    while i < total
      invariant 0 <= i <= total && conn.Valid() && rec.Valid() && inTransaction == transaction
      invariant plain ==> Underway(engine, isUse, d, statements, i, transaction, conn, rec)
    {
      i := i + 1;
      if Skippable(isUse, statements[i - 1]) {
        OneSkipped(engine, isUse, d, statements, i);
        continue;
      }
      var ok := RunStatement(conn, rec, engine, Trim(statements[i - 1]), i, total);
      OneRun(engine, isUse, d, statements, i);
      if !ok && inTransaction {
        var _ := conn.RollbackTransaction();
        inTransaction := false;
      }
      if !ok && transaction {
        if plain && NoneSkipped(isUse, statements) { FailsAt(engine, isUse, d, statements, i, rec.events); }
        break;
      }
    }
  }

  /** The loop of one file: every statement in order, in one transaction if asked. */
  method ExecSqlite<D>(conn: Connection<D>, rec: Recorder, engine: Engine<D>, isUse: string -> bool,
                       statements: seq<string>, mode: string) returns (started: bool)
    requires conn.Valid() && !conn.open && rec.Valid() && rec.events == []
    modifies conn, rec
    ensures conn.Valid() && !conn.open && rec.Valid()
    ensures !started ==> mode == "transaction" && conn.committed == old(conn.committed) && rec.events == []
    ensures started && NoControl(engine, statements) ==>
              Promised(engine, isUse, old(conn.committed), statements, mode == "transaction", conn.committed, rec)
  {
    hide After, Stream, OutcomeOf, AllSucceed, NoneSkipped, FailedOnce, Oks, Errs, Rows, Affected;
    var total := |statements|;
    ghost var d, plain := conn.committed, NoControl(engine, statements);
    if mode == "transaction" {
      var begun := conn.BeginTransaction();
      if !begun {
        conn.Close();
        return false;
      }
    }
    started := true;
    var inTransaction := RunAll(conn, rec, engine, isUse, statements, mode == "transaction");
    if inTransaction {
      var committed := conn.CommitTransaction();
      if !committed {
        rec.RecordErr(total + 1, total, "COMMIT");
        if plain && NoneSkipped(isUse, statements) && total > 0 {
          CommitFailed(engine, isUse, d, statements, rec.events);
        }
      }
    }
    conn.Close();
  }

  // ----- A whole file -----

  datatype Error = NoStatements | NothingToRun | NotStarted

  /** The statements that are neither empty nor `USE`, in order. */
  function Executable(isUse: string -> bool, all: seq<string>): (r: seq<string>)
    ensures NoneSkipped(isUse, r) && |r| <= |all|
  {
    if all == [] then []
    else if Skippable(isUse, all[0]) then Executable(isUse, all[1..])
    else [all[0]] + Executable(isUse, all[1..])
  }

  lemma FirstKept(isUse: string -> bool, s: string, b: seq<string>)
    ensures Executable(isUse, [s] + b) == (if Skippable(isUse, s) then [] else [s]) + Executable(isUse, b)
  {
    assert ([s] + b)[1..] == b;
    hide Skippable;
  }

  lemma NoneKept(isUse: string -> bool)
    ensures Executable(isUse, []) == []
  {}

  /** Each statement is kept or skipped for itself, and what is kept stays in order. */
  lemma {:induction false} ExecutableAdds(isUse: string -> bool, a: seq<string>, b: seq<string>)
    ensures Executable(isUse, a + b) == Executable(isUse, a) + Executable(isUse, b)
  {
    hide *;
    if a == [] {
      NoneKept(isUse);
      assert a + b == b && [] + Executable(isUse, b) == Executable(isUse, b);
    } else {
      var s, rest := a[0], a[1..];
      assert a == [s] + rest;
      ExecutableAdds(isUse, rest, b);
      Regroup([s], rest, b);
      FirstKept(isUse, s, rest + b);
      FirstKept(isUse, s, rest);
      Regroup(if Skippable(isUse, s) then [] else [s], Executable(isUse, rest), Executable(isUse, b));
    }
  }

  lemma OneKept(isUse: string -> bool, s: string)
    ensures Executable(isUse, [s]) == if Skippable(isUse, s) then [] else [s]
  {
    FirstKept(isUse, s, []);
    assert [s] + [] == [s];
    NoneKept(isUse);
    hide Skippable, Executable;
  }

  /** A file of statements: filter, run, summarise. */
  method ExecFile<D>(conn: Connection<D>, rec: Recorder, engine: Engine<D>, isUse: string -> bool,
                     all: seq<string>, mode: string) returns (r: Result<Event, Error>)
    requires conn.Valid() && !conn.open && rec.Valid() && rec.events == []
    modifies conn, rec
    ensures conn.Valid() && !conn.open && rec.Valid()
    ensures all == [] ==> r == Err(NoStatements)
    ensures all != [] && Executable(isUse, all) == [] ==> r == Err(NothingToRun)
    ensures r.Err? ==> conn.committed == old(conn.committed)
    ensures r.Ok? ==>
              var statements := Executable(isUse, all);
              && statements != [] && rec.events != [] && rec.events[|rec.events| - 1] == r.value
              && r.value == Summary(|statements|, rec.succeeded, rec.failed, rec.totalRows, rec.totalAffected,
                                    mode == "transaction" && rec.failed > 0)
              && (NoControl(engine, statements) ==>
                    && (r.value.rolledBack ==> conn.committed == old(conn.committed))
                    && (!r.value.rolledBack ==>
                          && conn.committed == After(engine, isUse, old(conn.committed), statements, |statements|)
                          && rec.succeeded + rec.failed == |statements|
                          && rec.events == Stream(engine, isUse, old(conn.committed), statements, |statements|)
                                           + [r.value]
                          && (mode == "transaction" ==> rec.failed == 0)))
  {
    hide After, Stream, OutcomeOf, AllSucceed, NoneSkipped, FailedOnce, Oks, Errs, Rows, Affected;
    if all == [] { return Err(NoStatements); }
    var statements := Executable(isUse, all);
    if statements == [] { return Err(NothingToRun); }
    var started := ExecSqlite(conn, rec, engine, isUse, statements, mode);
    if !started { return Err(NotStarted); }
    var summary := Summary(|statements|, rec.succeeded, rec.failed, rec.totalRows, rec.totalAffected,
                           mode == "transaction" && rec.failed > 0);
    rec.Emit(summary);
    r := Ok(summary);
  }
}
