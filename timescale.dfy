/**
 * The destination side (classes/TimescaleDB.py): rendering the CREATE TABLE and
 * `create_hypertable` statements and provisioning them in two idempotent steps, or only
 * returning them as a plan in a dry run.
 */
module Timescale {
  import opened Text

  /** How the server answers one executed statement: it succeeds, or raises an error with a message. */
  datatype Outcome = Success | Failure(message: string)

  /** What `create_hypertable` returns: `True`/`False`, the dry-run command list, or an exception it lets escape. */
  datatype Answer = Flag(ok: bool) | Commands(statements: seq<string>) | Raised(message: string)

  const AlreadyExists := "already exists"
  const AlreadyHypertable := "already a hypertable"
  const Rollback := "ROLLBACK"

  /** The CREATE TABLE statement: the column definitions separated by `", "` inside one pair of parentheses. */
  function CreateTableStatement(name: string, columns: seq<string>): (statement: string)
    ensures |statement| >= 15 + |name| && statement[..13] == "CREATE TABLE " && statement[|statement| - 2..] == ");"
  {
    "CREATE TABLE " + name + " (" + Join(columns, ", ") + ");"
  }

  function HypertableStatement(name: string, timeColumnName: string): (statement: string)
    ensures |statement| >= 28 && statement[..26] == "SELECT create_hypertable('" && statement[|statement| - 2..] == "')"
  {
    "SELECT create_hypertable('" + name + "', '" + timeColumnName + "')"
  }

  /** The separator loop of `create_hypertable`: a `", "` after every column except the last. */
  method RenderCreateTable(name: string, columns: seq<string>) returns (query: string)
    ensures query == CreateTableStatement(name, columns)
  {
    var prefix := "CREATE TABLE " + name + " (";
    query := prefix;
    for index := 0 to |columns|
      invariant query == prefix + Join(columns[..index], ", ") + (if 0 < index < |columns| then ", " else "")
    {
      assert columns[..index + 1][..index] == columns[..index];
      query := query + columns[index];
      query := query + (if index < |columns| - 1 then ", " else "");
    }
    assert columns[..|columns|] == columns;
    query := query + ");";
  }

  /** No separator is left after the last column, and no columns give an empty pair of parentheses. */
  lemma CreateTableShape(name: string, columns: seq<string>, column: string)
    ensures CreateTableStatement(name, []) == "CREATE TABLE " + name + " ();"
    ensures CreateTableStatement(name, columns + [column])
         == "CREATE TABLE " + name + " (" + Join(columns, ", ") + (if columns == [] then "" else ", ") + column + ");"
  {
    var cs := columns + [column];
    if columns != [] {
      assert cs[..|cs| - 1] == columns;
    }
  }

  // ---------------------------------------------------------------------------------------------
  // The provisioning state machine, as a function of the server's answers

  /** The answer to the next executed statement; the server is taken to accept once `replies` runs out. */
  function Next(replies: seq<Outcome>): Outcome {
    if |replies| > 0 then replies[0] else Success
  }

  function Later(replies: seq<Outcome>): seq<Outcome> {
    if |replies| > 0 then replies[1..] else []
  }

  /** How one step ends: applied, skipped as a duplicate (after ROLLBACK), aborted, or with the ROLLBACK itself failing. */
  datatype StepStatus = Applied | Skipped | Aborted | RollbackFailed(message: string)

  /** A step's status, the statements it executed, and the answers left for later statements. */
  datatype Step = Step(status: StepStatus, executed: seq<string>, rest: seq<Outcome>)

  /** Execute `statement`; on an error whose message contains `duplicate`, execute ROLLBACK and skip. */
  function RunStep(statement: string, duplicate: string, replies: seq<Outcome>): (step: Step)
    ensures step.status == Applied <==> Next(replies) == Success
    ensures |step.executed| == (if step.status in {Applied, Aborted} then 1 else 2) && step.executed[0] == statement
    ensures step.status !in {Applied, Aborted} ==> step.executed[1] == Rollback
  {
    match Next(replies)
    case Success => Step(Applied, [statement], Later(replies))
    case Failure(m) =>
      if !Contains(m, duplicate) then Step(Aborted, [statement], Later(replies))
      else
        match Next(Later(replies))
        case Success => Step(Skipped, [statement, Rollback], Later(Later(replies)))
        case Failure(m') => Step(RollbackFailed(m'), [statement, Rollback], Later(Later(replies)))
  }

  /** One run of `create_hypertable`: its answer, the statements it executed, whether it committed and closed its cursor. */
  datatype Run = Run(answer: Answer, executed: seq<string>, committed: bool, cursorClosed: bool, rest: seq<Outcome>)

  function Provision(name: string, columns: seq<string>, timeColumnName: string, dryRun: bool,
                     replies: seq<Outcome>): (run: Run)
    ensures dryRun <==> run.executed == []
    ensures !dryRun ==> run.executed[0] == CreateTableStatement(name, columns)
    ensures run.cursorClosed == run.committed
  {
    var create := CreateTableStatement(name, columns);
    var hypertable := HypertableStatement(name, timeColumnName);
    if dryRun then Run(Commands([create, hypertable]), [], true, true, replies)
    else
      var first := RunStep(create, AlreadyExists, replies);
      match first.status
      case Aborted => Run(Flag(false), first.executed, false, false, first.rest)
      case RollbackFailed(m) => Run(Raised(m), first.executed, false, false, first.rest)
      case _ =>
        var second := RunStep(hypertable, AlreadyHypertable, first.rest);
        match second.status
        case Aborted => Run(Flag(false), first.executed + second.executed, false, false, second.rest)
        case RollbackFailed(m) => Run(Raised(m), first.executed + second.executed, false, false, second.rest)
        case _ => Run(Flag(true), first.executed + second.executed, true, true, second.rest)
  }

  /** The two rendered statements differ, so a trace tells which step ran. */
  lemma StatementsDiffer(name: string, columns: seq<string>, timeColumnName: string)
    ensures CreateTableStatement(name, columns) != HypertableStatement(name, timeColumnName)
    ensures CreateTableStatement(name, columns) != Rollback && HypertableStatement(name, timeColumnName) != Rollback
  {
    assert CreateTableStatement(name, columns)[0] == 'C' && HypertableStatement(name, timeColumnName)[0] == 'S';
    assert CreateTableStatement(name, columns)[1] == 'R' && Rollback[1] == 'O';
  }

  /** A dry run executes nothing, leaves the server's answers untouched, still commits, and returns both statements in order. */
  lemma DryRunPlan(name: string, columns: seq<string>, timeColumnName: string, replies: seq<Outcome>)
    ensures var run := Provision(name, columns, timeColumnName, true, replies);
      && run.executed == [] && run.rest == replies
      && run.answer == Commands([CreateTableStatement(name, columns), HypertableStatement(name, timeColumnName)])
      && run.committed && run.cursorClosed
  {
  }

  /** An unexpected error in step 1 returns `False` at once: the hypertable statement is never sent and nothing is committed. */
  lemma CreateErrorAborts(name: string, columns: seq<string>, timeColumnName: string, replies: seq<Outcome>, m: string)
    requires Next(replies) == Failure(m) && !Contains(m, AlreadyExists)
    ensures var run := Provision(name, columns, timeColumnName, false, replies);
      && run.answer == Flag(false)
      && run.executed == [CreateTableStatement(name, columns)]
      && HypertableStatement(name, timeColumnName) !in run.executed
      && !run.committed && !run.cursorClosed
  {
    StatementsDiffer(name, columns, timeColumnName);
  }

  /** A step-1 error saying "already exists" is rolled back and step 2 is still attempted. */
  lemma ExistingTableSkipped(name: string, columns: seq<string>, timeColumnName: string, replies: seq<Outcome>, m: string)
    requires Next(replies) == Failure(m) && Contains(m, AlreadyExists) && Next(Later(replies)) == Success
    ensures var run := Provision(name, columns, timeColumnName, false, replies);
      && |run.executed| >= 3
      && run.executed[..3] == [CreateTableStatement(name, columns), Rollback, HypertableStatement(name, timeColumnName)]
  {
  }

  /**
   * Step 2 after step 1 went through: "already a hypertable" is rolled back, committed and answered with
   * `True`; any other error answers `False` without commit and without undoing step 1.
   */
  lemma HypertableStep(name: string, columns: seq<string>, timeColumnName: string, replies: seq<Outcome>, m: string)
    requires RunStep(CreateTableStatement(name, columns), AlreadyExists, replies).status in {Applied, Skipped}
    ensures var first := RunStep(CreateTableStatement(name, columns), AlreadyExists, replies);
      var run := Provision(name, columns, timeColumnName, false, replies);
      var hypertable := HypertableStatement(name, timeColumnName);
      && (Next(first.rest) == Failure(m) && Contains(m, AlreadyHypertable) && Next(Later(first.rest)) == Success ==>
            run.answer == Flag(true) && run.committed && run.executed == first.executed + [hypertable, Rollback])
      && (Next(first.rest) == Failure(m) && !Contains(m, AlreadyHypertable) ==>
            run.answer == Flag(false) && !run.committed && run.executed == first.executed + [hypertable])
  {
  }

  /** A duplicate error followed by a successful ROLLBACK skips the step and consumes both answers. */
  lemma StepSkipped(statement: string, duplicate: string, m: string, rest: seq<Outcome>)
    requires Contains(m, duplicate)
    ensures RunStep(statement, duplicate, [Failure(m), Success] + rest) == Step(Skipped, [statement, Rollback], rest)
  {
    assert Later([Failure(m), Success] + rest) == [Success] + rest;
    assert Later([Success] + rest) == rest;
  }

  /** A statement that succeeds is applied and consumes one answer. */
  lemma StepApplied(statement: string, duplicate: string, rest: seq<Outcome>)
    ensures RunStep(statement, duplicate, [Success] + rest) == Step(Applied, [statement], rest)
  {
    assert Later([Success] + rest) == rest;
  }

  /**
   * Idempotence: a run in which the table and the hypertable both exist already (and both ROLLBACKs go
   * through) answers `True` and commits, exactly like a run in which both statements succeed.
   */
  lemma ProvisionIdempotent(name: string, columns: seq<string>, timeColumnName: string, m1: string, m2: string,
                            rest: seq<Outcome>)
    requires Contains(m1, AlreadyExists) && Contains(m2, AlreadyHypertable)
    ensures var again := Provision(name, columns, timeColumnName, false,
                                   [Failure(m1), Success, Failure(m2), Success] + rest);
      var first := Provision(name, columns, timeColumnName, false, [Success, Success] + rest);
      && again.answer == first.answer == Flag(true)
      && again.committed && first.committed
      && again.rest == first.rest == rest
  {
    var create, hypertable := CreateTableStatement(name, columns), HypertableStatement(name, timeColumnName);
    assert [Failure(m1), Success, Failure(m2), Success] + rest == [Failure(m1), Success] + ([Failure(m2), Success] + rest);
    StepSkipped(create, AlreadyExists, m1, [Failure(m2), Success] + rest);
    StepSkipped(hypertable, AlreadyHypertable, m2, rest);
    assert [Success, Success] + rest == [Success] + ([Success] + rest);
    StepApplied(create, AlreadyExists, [Success] + rest);
    StepApplied(hypertable, AlreadyHypertable, rest);
  }

  /** Commit and cursor close happen exactly on the paths that neither answer `False` nor raise, dry run included. */
  lemma CommitUnlessFalse(name: string, columns: seq<string>, timeColumnName: string, dryRun: bool, replies: seq<Outcome>)
    ensures var run := Provision(name, columns, timeColumnName, dryRun, replies);
      && (run.committed <==> run.answer != Flag(false) && !run.answer.Raised?)
      && (run.cursorClosed <==> run.committed)
      && (dryRun <==> run.answer.Commands?)
  {
  }

  // ---------------------------------------------------------------------------------------------
  // The destination connection

  /**
   * A TimescaleDB connection seen from outside: the statements executed through its cursors, the
   * number of commits, the cursors opened and not yet closed, and the answers the server will give.
   */
  class TimescaleDB {
    var executed: seq<string>
    var commits: nat
    var openCursors: nat
    var replies: seq<Outcome>

    constructor (replies: seq<Outcome>)
      ensures executed == [] && commits == 0 && openCursors == 0 && this.replies == replies
    {
      executed := [];
      commits := 0;
      openCursors := 0;
      this.replies := replies;
    }

    /** `self.connection.cursor()`. */
    method GetCursor()
      modifies this
      ensures openCursors == old(openCursors) + 1
      ensures executed == old(executed) && commits == old(commits) && replies == old(replies)
    {
      openCursors := openCursors + 1;
    }

    /** `cursor.execute(sql)`: the statement is sent and the server's next answer is consumed. */
    method Execute(sql: string) returns (outcome: Outcome)
      modifies this
      ensures outcome == Next(old(replies)) && replies == Later(old(replies))
      ensures executed == old(executed) + [sql]
      ensures commits == old(commits) && openCursors == old(openCursors)
    {
      outcome := Next(replies);
      replies := Later(replies);
      executed := executed + [sql];
    }

    /** `self.connection.commit()`. */
    method Commit()
      modifies this
      ensures commits == old(commits) + 1
      ensures executed == old(executed) && openCursors == old(openCursors) && replies == old(replies)
    {
      commits := commits + 1;
    }

    /** `cursor.close()`. */
    method CloseCursor()
      requires openCursors > 0
      modifies this
      ensures openCursors == old(openCursors) - 1
      ensures executed == old(executed) && commits == old(commits) && replies == old(replies)
    {
      openCursors := openCursors - 1;
    }

    /**
     * One guarded statement of `create_hypertable`: execute it and, when the error message contains
     * `duplicate`, execute ROLLBACK and carry on; a ROLLBACK error propagates as `RollbackFailed`.
     */
    method ExecuteOrSkip(statement: string, duplicate: string) returns (status: StepStatus)
      modifies this
      ensures var step := RunStep(statement, duplicate, old(replies));
        && status == step.status
        && executed == old(executed) + step.executed
        && replies == step.rest
        && commits == old(commits) && openCursors == old(openCursors)
    {
      var outcome := Execute(statement);
      if outcome.Failure? {
        if Contains(outcome.message, duplicate) {
          var rollback := Execute(Rollback);
          if rollback.Failure? {
            return RollbackFailed(rollback.message);
          }
          return Skipped;
        }
        return Aborted;
      }
      return Applied;
    }

    method CreateHypertable(name: string, columns: seq<string>, timeColumnName: string := "time",
                            dryRun: bool := false) returns (answer: Answer)
      modifies this
      ensures var run := Provision(name, columns, timeColumnName, dryRun, old(replies));
        && answer == run.answer
        && executed == old(executed) + run.executed
        && commits == old(commits) + (if run.committed then 1 else 0)
        && openCursors == old(openCursors) + (if run.cursorClosed then 0 else 1)
        && replies == run.rest
    {
      var dryRunCommands: seq<string> := [];
      GetCursor();

      var createTableQuery := RenderCreateTable(name, columns);
      if !dryRun {
        var status := ExecuteOrSkip(createTableQuery, AlreadyExists);
        match status
        case Aborted => return Flag(false);
        case RollbackFailed(m) => return Raised(m);
        case _ =>
      } else {
        dryRunCommands := dryRunCommands + [createTableQuery];
      }

      var createHypertableQuery := HypertableStatement(name, timeColumnName);
      if !dryRun {
        var status := ExecuteOrSkip(createHypertableQuery, AlreadyHypertable);
        match status
        case Aborted => return Flag(false);
        case RollbackFailed(m) => return Raised(m);
        case _ =>
      } else {
        dryRunCommands := dryRunCommands + [createHypertableQuery];
      }

      Commit();
      CloseCursor();

      if !dryRun {
        return Flag(true);
      } else {
        return Commands(dryRunCommands);
      }
    }
  }
}
