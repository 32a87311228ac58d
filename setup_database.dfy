/** `setupDatabase` in the TypeScript setup script: it splits `supabase-setup.sql` into
    statements and sends each one, in order, to the `exec_sql` remote procedure; when the
    call reports an error it issues one probe query on `_temp` and carries on. The outcome of
    the `k`-th call of each kind is a parameter. */
module SetupDatabase {
  import opened Wrappers
  import opened Text
  import opened SqlStatements

  /** A backend request, in the order the script makes them. */
  datatype Call = ExecSql(statement: string) | ProbeTemp

  /** How the `rpc('exec_sql', …)` call for one statement ended. */
  datatype RpcOutcome = RpcOk | RpcError | RpcThrew

  /** The requests made from statement `k` on, and whether a thrown error ended the loop. */
  function RunFrom(statements: seq<string>, k: nat, rpc: nat -> RpcOutcome, probeThrows: nat -> bool): (r: (seq<Call>, bool))
    requires k <= |statements|
    ensures k < |statements| ==> r.0 != [] && r.0[0] == ExecSql(statements[k])
    decreases |statements| - k
  {
    if k == |statements| then ([], false)
    else
      var exec := [ExecSql(statements[k])];
      match rpc(k)
      case RpcThrew => (exec, true)
      case RpcOk =>
        var rest := RunFrom(statements, k + 1, rpc, probeThrows);
        (exec + rest.0, rest.1)
      case RpcError =>
        if probeThrows(k) then ([ExecSql(statements[k]), ProbeTemp], true)
        else
          var rest := RunFrom(statements, k + 1, rpc, probeThrows);
          ([ExecSql(statements[k]), ProbeTemp] + rest.0, rest.1)
  }

  /** What `setupDatabase` did: its requests, and whether it reached "Database setup
      complete" rather than the catch block. */
  datatype Report = Report(calls: seq<Call>, completed: bool)

  /** The `for…of` loop over the statements: the requests it makes and whether a thrown
      error ended it. */
  method ExecuteAll(statements: seq<string>, rpc: nat -> RpcOutcome, probeThrows: nat -> bool)
    returns (calls: seq<Call>, threw: bool)
    requires forall s :: s in statements ==> s != ""
    ensures (calls, threw) == RunFrom(statements, 0, rpc, probeThrows)
  {
    calls := [];
    var k := 0;
    assert calls + RunFrom(statements, 0, rpc, probeThrows).0 == RunFrom(statements, 0, rpc, probeThrows).0;
    while k < |statements|
      invariant k <= |statements|
      invariant RunFrom(statements, 0, rpc, probeThrows) ==
        (calls + RunFrom(statements, k, rpc, probeThrows).0, RunFrom(statements, k, rpc, probeThrows).1)
    {
      var statement := statements[k];
      ghost var rest := RunFrom(statements, k + 1, rpc, probeThrows);
      // The filter has already removed empty chunks, so this test always passes.
      assert |statement| > 0 by { assert statement in statements; }
      if |statement| > 0 {
        var outcome := rpc(k);
        if outcome == RpcThrew {
          return calls + [ExecSql(statement)], true;
        }
        if outcome == RpcError {
          if probeThrows(k) {
            return calls + [ExecSql(statement), ProbeTemp], true;
          }
          var step := [ExecSql(statement), ProbeTemp];
          assert RunFrom(statements, k, rpc, probeThrows) == (step + rest.0, rest.1);
          assert calls + (step + rest.0) == (calls + step) + rest.0;
          calls := calls + step;
        } else {
          var step := [ExecSql(statement)];
          assert RunFrom(statements, k, rpc, probeThrows) == (step + rest.0, rest.1);
          assert calls + (step + rest.0) == (calls + step) + rest.0;
          calls := calls + step;
        }
      }
      k := k + 1;
    }
    assert calls + [] == calls;
    threw := false;
  }

  /** `setupDatabase`: `sqlFile` is the file's contents, `None` when reading it throws. */
  method RunSetupDatabase(sqlFile: Option<string>, rpc: nat -> RpcOutcome, probeThrows: nat -> bool)
    returns (report: Report)
    ensures sqlFile.None? ==> report == Report([], false)
    ensures sqlFile.Some? ==>
      var run := RunFrom(SplitStatements(sqlFile.value), 0, rpc, probeThrows);
      report == Report(run.0, !run.1)
  {
    if sqlFile.None? {
      return Report([], false);
    }
    var statements := SplitStatements(sqlFile.value);
    StatementShape(sqlFile.value);
    var calls, threw := ExecuteAll(statements, rpc, probeThrows);
    report := Report(calls, !threw);
  }

  /** The statements sent to `exec_sql`, in order. */
  function Executed(calls: seq<Call>): (r: seq<string>)
    ensures |r| <= |calls|
  {
    if calls == [] then []
    else (if calls[0].ExecSql? then [calls[0].statement] else []) + Executed(calls[1..])
  }

  lemma {:induction false} ExecutedAppend(a: seq<Call>, b: seq<Call>)
    ensures Executed(a + b) == Executed(a) + Executed(b)
  {
    if a == [] {
      assert a + b == b;
    } else {
      assert (a + b)[0] == a[0];
      assert (a + b)[1..] == a[1..] + b;
      ExecutedAppend(a[1..], b);
    }
  }

  /** The `k`-th step throws: either `exec_sql` itself, or the probe that follows an
      error it reports. */
  predicate Throws(rpc: nat -> RpcOutcome, probeThrows: nat -> bool, m: nat) {
    rpc(m) == RpcThrew || (rpc(m) == RpcError && probeThrows(m))
  }

  /** When no step throws, every statement is executed exactly once and in order, whether
      or not `exec_sql` reports errors, and one probe follows each reported error. */
  lemma {:induction false} EveryStatementOnce(statements: seq<string>, k: nat, rpc: nat -> RpcOutcome, probeThrows: nat -> bool)
    requires k <= |statements|
    requires forall m :: k <= m < |statements| ==> !Throws(rpc, probeThrows, m)
    ensures var run := RunFrom(statements, k, rpc, probeThrows);
      Executed(run.0) == statements[k..] && !run.1
    decreases |statements| - k
  {
    if k < |statements| {
      EveryStatementOnce(statements, k + 1, rpc, probeThrows);
      var rest := RunFrom(statements, k + 1, rpc, probeThrows);
      var exec := [ExecSql(statements[k])];
      assert Executed(exec) == [statements[k]];
      assert Executed([ProbeTemp]) == [];
      assert !Throws(rpc, probeThrows, k);
      if rpc(k) == RpcOk {
        ExecutedAppend(exec, rest.0);
      } else {
        ExecutedAppend(exec + [ProbeTemp], rest.0);
        ExecutedAppend(exec, [ProbeTemp]);
      }
      assert statements[k..] == [statements[k]] + statements[k + 1..];
    }
  }

  /** The first step that throws ends the loop: the statements sent are exactly those up to
      and including the one whose step threw. */
  lemma {:induction false} ThrowStops(statements: seq<string>, k: nat, t: nat, rpc: nat -> RpcOutcome, probeThrows: nat -> bool)
    requires k <= t < |statements| && Throws(rpc, probeThrows, t)
    requires forall m :: k <= m < t ==> !Throws(rpc, probeThrows, m)
    ensures var run := RunFrom(statements, k, rpc, probeThrows);
      Executed(run.0) == statements[k..t + 1] && run.1
    decreases t - k
  {
    var exec := [ExecSql(statements[k])];
    assert Executed(exec) == [statements[k]];
    assert Executed([ProbeTemp]) == [];
    ExecutedAppend(exec, [ProbeTemp]);
    if k == t {
      assert statements[k..t + 1] == [statements[k]];
    } else {
      ThrowStops(statements, k + 1, t, rpc, probeThrows);
      var rest := RunFrom(statements, k + 1, rpc, probeThrows);
      assert !Throws(rpc, probeThrows, k);
      assert statements[k..t + 1] == [statements[k]] + statements[k + 1..t + 1];
      if rpc(k) == RpcOk {
        assert RunFrom(statements, k, rpc, probeThrows) == (exec + rest.0, rest.1);
        ExecutedAppend(exec, rest.0);
      } else {
        assert exec + [ProbeTemp] == [ExecSql(statements[k]), ProbeTemp];
        ExecutedAppend(exec + [ProbeTemp], rest.0);
      }
    }
  }
}
