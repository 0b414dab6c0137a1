/** Executing generated SQL, with bounded repair of failed queries. */
module SqlRepair {
  import opened Sequences

  datatype Generated = Generated(sql: string)

  /** What the validator returns for a query it accepts. */
  datatype Validated = Validated(sql: string, tables: seq<string>)

  datatype Validation = Accepted(query: Validated) | Rejected(code: string)

  datatype Rows = Rows(rowCount: nat, truncated: bool)

  datatype Execution = Fetched(rows: Rows) | Failure(category: string, repairable: bool) | Crash

  datatype Repair = Repaired(query: Generated) | RepairError

  /**
    Everything outside the loop. Executor and repairer may answer differently depending on what has been run before: the
    same failure need not be repaired the same way twice.
   */
  datatype World = World(
    validate: string -> Validation,
    execute: (seq<Validated>, Validated) -> Execution,
    repair: (seq<Validated>, Generated, string) -> Repair)

  datatype Outcome =
    | Done(rows: Rows, attempts: nat, generated: Generated, validated: Validated)
    | ExecutionFailed(category: string, repairable: bool)
    | ValidationFailed(code: string)
    | Crashed

  // ---------- What a run of the loop is ----------

  /** The answer to the i-th execution of a log. */
  function Answer(w: World, log: seq<Validated>, i: nat): Execution
    requires i < |log|
  {
    w.execute(log[..i], log[i])
  }

  /** Step i: the i-th execution failed and might be repaired; the repair passed validation and was executed next. */
  ghost predicate Repairs(w: World, max: int, queries: seq<Generated>, log: seq<Validated>, i: nat)
    requires i + 1 < |log| == |queries|
  {
    && i < max
    && Answer(w, log, i).Failure? && Answer(w, log, i).repairable
    && w.repair(log[..i + 1], queries[i], Answer(w, log, i).category) == Repaired(queries[i + 1])
    && w.validate(queries[i + 1].sql) == Accepted(log[i + 1])
  }

  /** How the run ends after its last execution. */
  ghost predicate Ends(w: World, max: int, queries: seq<Generated>, log: seq<Validated>, outcome: Outcome)
    requires 0 < |log| == |queries|
  {
    var n := |log| - 1;
    match Answer(w, log, n)
    case Fetched(rows) => outcome == Done(rows, n, queries[n], log[n])
    case Crash => outcome == Crashed
    case Failure(category, repairable) =>
      if !repairable || n >= max then outcome == ExecutionFailed(category, repairable)
      else match w.repair(log, queries[n], category)
        case RepairError => outcome == ExecutionFailed(category, true)
        case Repaired(q) => w.validate(q.sql).Rejected? && outcome == ValidationFailed(w.validate(q.sql).code)
  }

  /** A run: the generated queries, the validated queries handed to the executor, and the outcome. */
  ghost predicate IsRun(w: World, max: int, generated: Generated, validated: Validated,
                        queries: seq<Generated>, log: seq<Validated>, outcome: Outcome) {
    && 0 < |log| == |queries| && queries[0] == generated && log[0] == validated
    && (forall i: nat :: i + 1 < |log| ==> Repairs(w, max, queries, log, i))
    && Ends(w, max, queries, log, outcome)
  }

  // ---------- The loop ----------

  method ExecuteWithRepair(w: World, max: int, generated: Generated, validated: Validated)
    returns (outcome: Outcome, log: seq<Validated>)
    ensures exists queries :: IsRun(w, max, generated, validated, queries, log, outcome)
  {
    var query, accepted, attempts := generated, validated, 0;
    log := [];
    ghost var queries := [generated];
    while true
      invariant |log| == attempts && |queries| == attempts + 1 && queries[attempts] == query
      invariant queries[0] == generated && (log + [accepted])[0] == validated
      invariant attempts == 0 || attempts <= max
      invariant forall i: nat :: i < attempts ==> Repairs(w, max, queries, log + [accepted], i)
      decreases max - attempts
    {
      var result := w.execute(log, accepted);
      log := log + [accepted];
      assert log[..attempts] + [accepted] == log;
      assert Answer(w, log, attempts) == result;
      match result
      case Fetched(rows) =>
        outcome := Done(rows, attempts, query, accepted);
        assert IsRun(w, max, generated, validated, queries, log, outcome);
        return;
      case Crash =>
        outcome := Crashed;
        assert IsRun(w, max, generated, validated, queries, log, outcome);
        return;
      case Failure(category, repairable) =>
        if !repairable || attempts >= max {
          outcome := ExecutionFailed(category, repairable);
          assert IsRun(w, max, generated, validated, queries, log, outcome);
          return;
        }
        var repair := w.repair(log, query, category);
        if repair.RepairError? {
          outcome := ExecutionFailed(category, true);
          assert IsRun(w, max, generated, validated, queries, log, outcome);
          return;
        }
        var validation := w.validate(repair.query.sql);
        if validation.Rejected? {
          outcome := ValidationFailed(validation.code);
          assert IsRun(w, max, generated, validated, queries, log, outcome);
          return;
        }
        attempts := attempts + 1;
        RunGrows(w, max, queries, log, repair.query, validation.query);
        queries := queries + [repair.query];
        query, accepted := repair.query, validation.query;
    }
  }

  lemma RunGrows(w: World, max: int, queries: seq<Generated>, log: seq<Validated>, q: Generated, v: Validated)
    requires 0 < |log| == |queries| && forall i: nat :: i + 1 < |log| ==> Repairs(w, max, queries, log, i)
    requires var n := |log| - 1;
             n < max && Answer(w, log, n).Failure? && Answer(w, log, n).repairable
             && w.repair(log, queries[n], Answer(w, log, n).category) == Repaired(q) && w.validate(q.sql) == Accepted(v)
    ensures forall i: nat :: i < |log| ==> Repairs(w, max, queries + [q], log + [v], i)
  {
    forall i: nat | i < |log| ensures Repairs(w, max, queries + [q], log + [v], i) {
      assert (log + [v])[..i] == log[..i] && (log + [v])[..i + 1] == log[..i + 1];
      assert log[..|log|] == log;
      assert Answer(w, log + [v], i) == Answer(w, log, i);
      if i + 1 < |log| {
        assert Repairs(w, max, queries, log, i);
      }
    }
  }

  // ---------- Laws of every run ----------

  /** At most 1 + max executions, or one if no repair is allowed. */
  lemma ExecutionsAreBounded(w: World, max: int, generated: Generated, validated: Validated,
                             queries: seq<Generated>, log: seq<Validated>, outcome: Outcome)
    requires IsRun(w, max, generated, validated, queries, log, outcome)
    ensures |log| <= if max > 0 then 1 + max else 1
  {
    if |log| > 1 {
      assert Repairs(w, max, queries, log, |log| - 2);
    }
  }

  /** Everything handed to the executor is what the validator returned for the query generated at that step. */
  lemma OnlyValidatedSqlRuns(w: World, max: int, generated: Generated, validated: Validated,
                             queries: seq<Generated>, log: seq<Validated>, outcome: Outcome)
    requires IsRun(w, max, generated, validated, queries, log, outcome)
    requires w.validate(generated.sql) == Accepted(validated)
    ensures forall i :: 0 <= i < |log| ==> w.validate(queries[i].sql) == Accepted(log[i])
    ensures outcome.Done? ==> w.validate(outcome.generated.sql) == Accepted(outcome.validated)
    ensures outcome.Done? ==> outcome.attempts == |log| - 1 && outcome.validated == log[|log| - 1]
  {
    forall i | 0 <= i < |log| ensures w.validate(queries[i].sql) == Accepted(log[i]) {
      if i > 0 {
        assert Repairs(w, max, queries, log, i - 1);
      }
    }
  }

  lemma {:induction false} SamePrefix(w: World, max: int, generated: Generated, validated: Validated, n: nat,
                                      queries: seq<Generated>, log: seq<Validated>, outcome: Outcome,
                                      queries': seq<Generated>, log': seq<Validated>, outcome': Outcome)
    requires IsRun(w, max, generated, validated, queries, log, outcome)
    requires IsRun(w, max, generated, validated, queries', log', outcome')
    requires 0 < n <= |log| && n <= |log'|
    ensures log[..n] == log'[..n] && queries[..n] == queries'[..n]
  {
    if n == 1 {
    } else {
      SamePrefix(w, max, generated, validated, n - 1, queries, log, outcome, queries', log', outcome');
      SameAnswer(w, log, log', n - 2);
      SamePlace(queries, queries', n - 2);
      assert Repairs(w, max, queries, log, n - 2) && Repairs(w, max, queries', log', n - 2);
      Snoc(log, n - 1);
      Snoc(log', n - 1);
      Snoc(queries, n - 1);
      Snoc(queries', n - 1);
    }
  }

  lemma SameAnswer(w: World, log: seq<Validated>, log': seq<Validated>, i: nat)
    requires i < |log| && i < |log'| && log[..i + 1] == log'[..i + 1]
    ensures Answer(w, log, i) == Answer(w, log', i)
  {
    SamePlace(log, log', i);
  }

  lemma NoLonger(w: World, max: int, generated: Generated, validated: Validated,
                 queries: seq<Generated>, log: seq<Validated>, outcome: Outcome,
                 queries': seq<Generated>, log': seq<Validated>, outcome': Outcome)
    requires IsRun(w, max, generated, validated, queries, log, outcome)
    requires IsRun(w, max, generated, validated, queries', log', outcome')
    ensures |log| <= |log'|
  {
    var n := |log'|;
    assert n < |log| ==> Repairs(w, max, queries, log, n - 1);
    assert log'[..n] == log';
    if n < |log| {
      SamePrefix(w, max, generated, validated, n, queries, log, outcome, queries', log', outcome');
      SameAnswer(w, log, log', n - 1);
      SamePlace(queries, queries', n - 1);
    }
  }

  /** The description fixes the run: executions and outcome follow from the world. */
  lemma RunIsUnique(w: World, max: int, generated: Generated, validated: Validated,
                    queries: seq<Generated>, log: seq<Validated>, outcome: Outcome,
                    queries': seq<Generated>, log': seq<Validated>, outcome': Outcome)
    requires IsRun(w, max, generated, validated, queries, log, outcome)
    requires IsRun(w, max, generated, validated, queries', log', outcome')
    ensures log == log' && queries == queries' && outcome == outcome'
  {
    NoLonger(w, max, generated, validated, queries, log, outcome, queries', log', outcome');
    NoLonger(w, max, generated, validated, queries', log', outcome', queries, log, outcome);
    var n := |log|;
    SamePrefix(w, max, generated, validated, n, queries, log, outcome, queries', log', outcome');
    assert log[..n] == log && log'[..n] == log' && queries[..n] == queries && queries'[..n] == queries';
  }

  // ---------- The caller ----------

  datatype ErrorCode = SqlRepairExhausted | SqlExecutionError

  datatype Analysis =
    | Success(rows: Rows, repairAttempts: nat, generated: Generated, validated: Validated)
    | Invalid(code: string)
    | Failed(error: ErrorCode, category: string)
    | Aborted

  /** Validates the generated query before the first execution, and maps the failures to result codes. */
  method RunGenerated(w: World, max: int, generated: Generated) returns (analysis: Analysis, log: seq<Validated>)
    ensures |log| <= if max > 0 then 1 + max else 1
    ensures forall v :: v in log ==> exists q: Generated :: w.validate(q.sql) == Accepted(v)
    ensures w.validate(generated.sql).Rejected? ==> log == [] && analysis == Invalid(w.validate(generated.sql).code)
    ensures analysis.Success? ==>
              && w.validate(analysis.generated.sql) == Accepted(analysis.validated)
              && |log| == analysis.repairAttempts + 1 && log[analysis.repairAttempts] == analysis.validated
              && Answer(w, log, analysis.repairAttempts) == Fetched(analysis.rows)
    ensures analysis.Failed? ==>
              log != [] && Answer(w, log, |log| - 1) == Failure(analysis.category, analysis.error == SqlRepairExhausted)
    ensures analysis.Aborted? <==> log != [] && Answer(w, log, |log| - 1).Crash?
    ensures analysis.Success? <==> log != [] && Answer(w, log, |log| - 1).Fetched?
    ensures analysis.Invalid? && log != [] ==>
              && Answer(w, log, |log| - 1).Failure? && Answer(w, log, |log| - 1).repairable && |log| <= max
              && exists q: Generated :: w.validate(q.sql) == Rejected(analysis.code)
    ensures analysis.Failed? && analysis.error == SqlExecutionError ==> !Answer(w, log, |log| - 1).repairable
  {
    var validation := w.validate(generated.sql);
    if validation.Rejected? {
      return Invalid(validation.code), [];
    }
    var outcome;
    outcome, log := ExecuteWithRepair(w, max, generated, validation.query);
    ghost var queries :| IsRun(w, max, generated, validation.query, queries, log, outcome);
    ExecutionsAreBounded(w, max, generated, validation.query, queries, log, outcome);
    OnlyValidatedSqlRuns(w, max, generated, validation.query, queries, log, outcome);
    match outcome
    case Done(rows, attempts, query, accepted) => analysis := Success(rows, attempts, query, accepted);
    case ExecutionFailed(category, repairable) =>
      analysis := Failed(if repairable then SqlRepairExhausted else SqlExecutionError, category);
    case ValidationFailed(code) => analysis := Invalid(code);
    case Crashed => analysis := Aborted;
  }
}
