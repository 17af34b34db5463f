/**
 * The retry machinery of DatabaseHelper.cs as values: the exceptions an
 * operation can throw, the two exception filters of ExecuteWithRetryAsync,
 * the reconnect step EnsureConnectionAsync, and RetryRun, the reference
 * definition of one whole call of ExecuteWithRetryAsync. Also the other two
 * retry schedules of the file: the Polly policy of ExecuteWithRetry and the
 * loop of OpenSqliteConnectionWithRetry.
 *
 * An operation is an environment `op: nat -> Attempt<T>` giving the outcome
 * of the k-th attempt (counting from 0), and `leaves: nat -> Option<ConnectionState>`
 * giving what the k-th attempt does to the shared connection (None: nothing;
 * Some(s): an existing connection is left in state s, as when the code that
 * holds the public Connection closes it). The outcome of the reopen after the
 * k-th attempt is `reopen(k)` (None: OpenAsync succeeded). Waiting and the
 * semaphore are recorded as Events instead of happening.
 */
module Retry {
  import opened Wrappers

  /** The exceptions, as far as the handlers tell them apart. */
  datatype Exception =
    | SqliteException(code: int)   // Microsoft.Data.Sqlite.SqliteException with its SqliteErrorCode
    | InvalidOperationException    // System.InvalidOperationException or one of its subclasses
    | OtherException               // any other exception type

  /** What an attempt did: returned a value or threw. */
  datatype Attempt<T> = Returned(value: T) | Threw(error: Exception)

  /** State of the shared SqliteConnection. */
  datatype ConnectionState = Closed | Open | Broken

  /** Observable steps of a retry loop: the semaphore, the attempts, the waits and the reopen calls. */
  datatype Event = Acquire | Invoke(attempt: nat) | Release | Delay(ms: int) | Reopen

  const MaxRetries: int := 3
  const RetryDelayMs: int := 100

  /** IsTransientError: SQLITE_BUSY, SQLITE_LOCKED, SQLITE_READONLY or SQLITE_CORRUPT. */
  function IsTransientError(ex: Exception): (b: bool)
    requires ex.SqliteException?
    ensures b <==> ex.code in {5, 6, 8, 11}
  {
    ex.code == 5 || ex.code == 6 || ex.code == 8 || ex.code == 11
  }

  /** IsConnectionError: an InvalidOperationException, or SQLITE_CANTOPEN. */
  function IsConnectionError(ex: Exception): (b: bool)
    ensures b <==> ex == InvalidOperationException || ex == SqliteException(14)
  {
    ex.InvalidOperationException? || (ex.SqliteException? && ex.code == 14)
  }

  /**
   * No exception is both transient and a connection error, so the order of
   * the two catch clauses decides nothing: each retryable exception has
   * exactly one handler.
   */
  lemma TransientAndConnectionErrorsDisjoint(ex: Exception)
    requires ex.SqliteException?
    ensures !(IsTransientError(ex) && IsConnectionError(ex))
  {
  }

  /** What the loop does with an exception. */
  datatype Handling = RetryAfterDelay | ReconnectAfterDelay | Propagate

  /**
   * The two catch clauses of ExecuteWithRetryAsync, tried in order with the
   * retries left; an exception neither filter accepts leaves the loop.
   */
  function Classify(ex: Exception, retries: int): (h: Handling)
    ensures h == RetryAfterDelay <==> retries > 0 && ex.SqliteException? && ex.code in {5, 6, 8, 11}
    ensures h == ReconnectAfterDelay <==> retries > 0 && (ex.InvalidOperationException? || ex == SqliteException(14))
    ensures h == Propagate <==>
      retries <= 0 || ex.OtherException? || (ex.SqliteException? && ex.code !in {5, 6, 8, 11, 14})
  {
    if ex.SqliteException? && retries > 0 && IsTransientError(ex) then RetryAfterDelay
    else if retries > 0 && IsConnectionError(ex) then ReconnectAfterDelay
    else Propagate
  }

  /** An exception that the loop retries while it has retries left. */
  predicate Retryable(ex: Exception)
  {
    Classify(ex, 1) != Propagate
  }

  /** Result of EnsureConnectionAsync: whether OpenAsync was called, what it threw, the connection afterwards. */
  datatype Reconnect = Reconnect(reopened: bool, error: Option<Exception>, connection: Option<ConnectionState>)

  /**
   * EnsureConnectionAsync: reopen the connection only when it exists and is
   * not open. `openResult` is what OpenAsync does if it is called.
   */
  function EnsureConnection(connection: Option<ConnectionState>, openResult: Option<Exception>): (r: Reconnect)
    ensures r.reopened <==> connection.Some? && connection.value != Open
    ensures !r.reopened ==> r.connection == connection && r.error == None
    ensures r.reopened ==> r.error == openResult
    ensures r.reopened && openResult == None ==> r.connection == Some(Open)
    ensures r.reopened && openResult != None ==> r.connection == connection
  {
    if connection.Some? && connection.value != Open then
      if openResult == None then Reconnect(true, None, Some(Open))
      else Reconnect(true, openResult, connection)
    else Reconnect(false, None, connection)
  }

  /** The connection after an attempt: a null connection stays null, an existing one takes the state the attempt left. */
  function AfterAttempt(connection: Option<ConnectionState>, change: Option<ConnectionState>): (c: Option<ConnectionState>)
    ensures c.Some? <==> connection.Some?
    ensures change.None? ==> c == connection
    ensures connection.Some? && change.Some? ==> c == change
  {
    if connection.Some? && change.Some? then change else connection
  }

  /**
   * One call of ExecuteWithRetryAsync: its outcome, the number of the last
   * attempt plus one, the events in order, and the connection afterwards.
   */
  datatype Run<T> = Run(outcome: Attempt<T>, attempts: nat, trace: seq<Event>, connection: Option<ConnectionState>)

  function Prepend<T>(steps: seq<Event>, r: Run<T>): Run<T>
  {
    r.(trace := steps + r.trace)
  }

  function Budget(retries: int): nat
  {
    if retries > 0 then retries else 0
  }

  /**
   * Reference definition of ExecuteWithRetryAsync from attempt `k` on, with
   * `retries` left: take the lock, run the operation, release the lock; on
   * an exception the filters decide to propagate it, or to wait and retry,
   * or to wait, reconnect and retry. An exception thrown by the reconnect
   * itself comes from inside the catch clause and leaves the loop.
   */
  function RetryRun<T>(op: nat -> Attempt<T>, leaves: nat -> Option<ConnectionState>, reopen: nat -> Option<Exception>,
                       connection: Option<ConnectionState>, retries: int, k: nat): Run<T>
    decreases Budget(retries)
  {
    var round := [Acquire, Invoke(k), Release];
    var a := op(k);
    var conn := AfterAttempt(connection, leaves(k));
    if a.Returned? then Run(a, k + 1, round, conn)
    else
      match Classify(a.error, retries)
      case Propagate => Run(a, k + 1, round, conn)
      case RetryAfterDelay =>
        Prepend(round + [Delay(RetryDelayMs)], RetryRun(op, leaves, reopen, conn, retries - 1, k + 1))
      case ReconnectAfterDelay =>
        var rc := EnsureConnection(conn, reopen(k));
        var steps := round + [Delay(RetryDelayMs)] + (if rc.reopened then [Reopen] else []);
        if rc.error.Some? then Run(Threw(rc.error.value), k + 1, steps, rc.connection)
        else Prepend(steps, RetryRun(op, leaves, reopen, rc.connection, retries - 1, k + 1))
  }

  /** Number of waits in a trace. */
  function DelayCount(t: seq<Event>): nat
  {
    if t == [] then 0 else (if t[0].Delay? then 1 else 0) + DelayCount(t[1..])
  }

  lemma {:induction false} DelayCountAppend(a: seq<Event>, b: seq<Event>)
    ensures DelayCount(a + b) == DelayCount(a) + DelayCount(b)
    decreases |a|
  {
    if a == [] {
      assert a + b == b;
    } else {
      assert (a + b)[0] == a[0];
      assert (a + b)[1..] == a[1..] + b;
      DelayCountAppend(a[1..], b);
    }
  }

  /** An attempt contributes no wait; a wait contributes one. */
  lemma DelayCounts(k: nat, ms: int)
    ensures DelayCount([Acquire, Invoke(k), Release]) == 0
    ensures DelayCount([Delay(ms)]) == 1
    ensures DelayCount([Reopen]) == 0
  {
    var round: seq<Event> := [Acquire, Invoke(k), Release];
    assert [Release][1..] == [];
    assert DelayCount([Release]) == 0;
    assert [Invoke(k), Release][1..] == [Release];
    assert DelayCount([Invoke(k), Release]) == 0;
    assert round[1..] == [Invoke(k), Release];
    assert [Delay(ms)][1..] == [];
    assert [Reopen][1..] == [];
  }

  /**
   * A trace replayed against the binary semaphore `_connectionLock`, starting
   * with the lock `held` or not: the lock is only taken when free and only
   * released when held, every attempt runs under it, no wait and no reopen
   * happens while it is held, and it is free at the end.
   */
  predicate LockSafe(held: bool, t: seq<Event>)
    decreases |t|
  {
    if t == [] then !held
    else match t[0]
      case Acquire => !held && LockSafe(true, t[1..])
      case Release => held && LockSafe(false, t[1..])
      case Invoke(_) => held && LockSafe(held, t[1..])
      case Delay(_) => !held && LockSafe(held, t[1..])
      case Reopen => !held && LockSafe(held, t[1..])
  }

  lemma {:induction false} LockSafeAppend(held: bool, a: seq<Event>, b: seq<Event>)
    requires LockSafe(held, a) && LockSafe(false, b)
    ensures LockSafe(held, a + b)
    decreases |a|
  {
    if a == [] {
      assert a + b == b;
    } else {
      assert (a + b)[0] == a[0];
      assert (a + b)[1..] == a[1..] + b;
      match a[0]
      case Acquire => LockSafeAppend(true, a[1..], b);
      case Release => LockSafeAppend(false, a[1..], b);
      case Invoke(_) => LockSafeAppend(held, a[1..], b);
      case Delay(_) => LockSafeAppend(held, a[1..], b);
      case Reopen => LockSafeAppend(held, a[1..], b);
    }
  }

  /** The events of one attempt and the wait (and reopen) after it keep the lock discipline. */
  lemma RoundIsLockSafe(k: nat, reopened: bool)
    ensures LockSafe(false, [Acquire, Invoke(k), Release])
    ensures LockSafe(false, [Acquire, Invoke(k), Release] + [Delay(RetryDelayMs)])
    ensures LockSafe(false, [Acquire, Invoke(k), Release] + [Delay(RetryDelayMs)] + (if reopened then [Reopen] else []))
  {
    var round: seq<Event> := [Acquire, Invoke(k), Release];
    assert [Release][1..] == [] && [Reopen][1..] == [] && [Delay(RetryDelayMs)][1..] == [];
    assert LockSafe(true, [Release]);
    assert [Invoke(k), Release][1..] == [Release];
    assert LockSafe(true, [Invoke(k), Release]);
    assert round[1..] == [Invoke(k), Release];
    assert LockSafe(false, round);
    assert LockSafe(false, [Reopen]);
    assert LockSafe(false, [Delay(RetryDelayMs)]);
    LockSafeAppend(false, round, [Delay(RetryDelayMs)]);
    if reopened {
      assert [Delay(RetryDelayMs), Reopen][1..] == [Reopen];
      assert LockSafe(false, [Delay(RetryDelayMs), Reopen]);
      LockSafeAppend(false, round, [Delay(RetryDelayMs), Reopen]);
      assert round + [Delay(RetryDelayMs)] + [Reopen] == round + [Delay(RetryDelayMs), Reopen];
    } else {
      assert round + [Delay(RetryDelayMs)] + [] == round + [Delay(RetryDelayMs)];
    }
  }

  /**
   * The connection lock is held exactly around each attempt: it is released
   * after every attempt, whether it returned or threw, and is free during
   * every Task.Delay and every reconnect.
   */
  lemma {:induction false} LockReleasedAroundEveryAttempt<T>(
    op: nat -> Attempt<T>, leaves: nat -> Option<ConnectionState>, reopen: nat -> Option<Exception>,
    connection: Option<ConnectionState>, retries: int, k: nat)
    ensures LockSafe(false, RetryRun(op, leaves, reopen, connection, retries, k).trace)
    decreases Budget(retries)
  {
    var a := op(k);
    var conn := AfterAttempt(connection, leaves(k));
    RoundIsLockSafe(k, false);
    if a.Threw? {
      match Classify(a.error, retries)
      case Propagate =>
      case RetryAfterDelay =>
        LockReleasedAroundEveryAttempt(op, leaves, reopen, conn, retries - 1, k + 1);
        LockSafeAppend(false, [Acquire, Invoke(k), Release] + [Delay(RetryDelayMs)],
                       RetryRun(op, leaves, reopen, conn, retries - 1, k + 1).trace);
      case ReconnectAfterDelay =>
        var rc := EnsureConnection(conn, reopen(k));
        RoundIsLockSafe(k, rc.reopened);
        if rc.error.None? {
          LockReleasedAroundEveryAttempt(op, leaves, reopen, rc.connection, retries - 1, k + 1);
          LockSafeAppend(false, [Acquire, Invoke(k), Release] + [Delay(RetryDelayMs)] + (if rc.reopened then [Reopen] else []),
                         RetryRun(op, leaves, reopen, rc.connection, retries - 1, k + 1).trace);
        }
    }
  }

  /**
   * At most `retries + 1` attempts (four with the default MaxRetries), and
   * at least one.
   */
  lemma {:induction false} AttemptsWithinBudget<T>(
    op: nat -> Attempt<T>, leaves: nat -> Option<ConnectionState>, reopen: nat -> Option<Exception>,
    connection: Option<ConnectionState>, retries: int, k: nat)
    ensures k + 1 <= RetryRun(op, leaves, reopen, connection, retries, k).attempts <= k + Budget(retries) + 1
    decreases Budget(retries)
  {
    var a := op(k);
    var conn := AfterAttempt(connection, leaves(k));
    if a.Threw? && Classify(a.error, retries) != Propagate {
      var rc := EnsureConnection(conn, reopen(k));
      AttemptsWithinBudget(op, leaves, reopen, conn, retries - 1, k + 1);
      AttemptsWithinBudget(op, leaves, reopen, rc.connection, retries - 1, k + 1);
    }
  }

  /** Each wait uses up one retry, whichever filter caught the exception. */
  lemma {:induction false} DelaysWithinBudget<T>(
    op: nat -> Attempt<T>, leaves: nat -> Option<ConnectionState>, reopen: nat -> Option<Exception>,
    connection: Option<ConnectionState>, retries: int, k: nat)
    ensures DelayCount(RetryRun(op, leaves, reopen, connection, retries, k).trace) <= Budget(retries)
    decreases Budget(retries)
  {
    var a := op(k);
    var conn := AfterAttempt(connection, leaves(k));
    var round: seq<Event> := [Acquire, Invoke(k), Release];
    DelayCounts(k, RetryDelayMs);
    if a.Threw? {
      match Classify(a.error, retries)
      case Propagate =>
      case RetryAfterDelay =>
        var rest := RetryRun(op, leaves, reopen, conn, retries - 1, k + 1);
        DelaysWithinBudget(op, leaves, reopen, conn, retries - 1, k + 1);
        DelayCountAppend(round, [Delay(RetryDelayMs)]);
        DelayCountAppend(round + [Delay(RetryDelayMs)], rest.trace);
      case ReconnectAfterDelay =>
        var rc := EnsureConnection(conn, reopen(k));
        var tail: seq<Event> := if rc.reopened then [Reopen] else [];
        assert DelayCount(tail) == 0;
        DelayCountAppend(round, [Delay(RetryDelayMs)]);
        DelayCountAppend(round + [Delay(RetryDelayMs)], tail);
        if rc.error.None? {
          var rest := RetryRun(op, leaves, reopen, rc.connection, retries - 1, k + 1);
          DelaysWithinBudget(op, leaves, reopen, rc.connection, retries - 1, k + 1);
          DelayCountAppend(round + [Delay(RetryDelayMs)] + tail, rest.trace);
        }
    }
  }

  /**
   * The outcome of the call is what its last attempt returned or threw, or
   * what the reconnect after that attempt threw.
   */
  lemma {:induction false} OutcomeIsLastObserved<T>(
    op: nat -> Attempt<T>, leaves: nat -> Option<ConnectionState>, reopen: nat -> Option<Exception>,
    connection: Option<ConnectionState>, retries: int, k: nat)
    ensures var r := RetryRun(op, leaves, reopen, connection, retries, k);
      r.attempts >= 1 &&
      (r.outcome == op(r.attempts - 1) ||
       (reopen(r.attempts - 1).Some? && r.outcome == Threw(reopen(r.attempts - 1).value)))
    decreases Budget(retries)
  {
    var a := op(k);
    var conn := AfterAttempt(connection, leaves(k));
    if a.Threw? && Classify(a.error, retries) != Propagate {
      var rc := EnsureConnection(conn, reopen(k));
      OutcomeIsLastObserved(op, leaves, reopen, conn, retries - 1, k + 1);
      OutcomeIsLastObserved(op, leaves, reopen, rc.connection, retries - 1, k + 1);
    }
  }

  /**
   * An exception that neither filter accepts (or any exception once the
   * retries are spent) propagates from the attempt that threw it, with no
   * wait and no reconnect.
   */
  lemma PropagatesAtOnce<T>(
    op: nat -> Attempt<T>, leaves: nat -> Option<ConnectionState>, reopen: nat -> Option<Exception>,
    connection: Option<ConnectionState>, retries: int, k: nat)
    requires op(k).Threw? && Classify(op(k).error, retries) == Propagate
    ensures RetryRun(op, leaves, reopen, connection, retries, k) == Run(op(k), k + 1, [Acquire, Invoke(k), Release], AfterAttempt(connection, leaves(k)))
  {
  }

  /** One round of RetryRun after a transient error: a wait, then the next attempt. */
  lemma RetryRunRetries<T>(
    op: nat -> Attempt<T>, leaves: nat -> Option<ConnectionState>, reopen: nat -> Option<Exception>,
    connection: Option<ConnectionState>, retries: int, k: nat)
    requires op(k).Threw? && Classify(op(k).error, retries) == RetryAfterDelay
    ensures RetryRun(op, leaves, reopen, connection, retries, k) ==
      Prepend([Acquire, Invoke(k), Release, Delay(RetryDelayMs)],
              RetryRun(op, leaves, reopen, AfterAttempt(connection, leaves(k)), retries - 1, k + 1))
  {
  }

  /** One round of RetryRun after a connection error: a wait, the reconnect step, then the next attempt. */
  lemma RetryRunReconnects<T>(
    op: nat -> Attempt<T>, leaves: nat -> Option<ConnectionState>, reopen: nat -> Option<Exception>,
    connection: Option<ConnectionState>, retries: int, k: nat)
    requires op(k).Threw? && Classify(op(k).error, retries) == ReconnectAfterDelay
    ensures var rc := EnsureConnection(AfterAttempt(connection, leaves(k)), reopen(k));
      var steps := [Acquire, Invoke(k), Release, Delay(RetryDelayMs)] + (if rc.reopened then [Reopen] else []);
      RetryRun(op, leaves, reopen, connection, retries, k) ==
        if rc.error.Some? then Run(Threw(rc.error.value), k + 1, steps, rc.connection)
        else Prepend(steps, RetryRun(op, leaves, reopen, rc.connection, retries - 1, k + 1))
  {
  }

  /**
   * If the first n <= retries attempts fail with retryable errors (transient
   * or connection errors, in any mix) and the next succeeds, its value is
   * returned and no error is seen.
   */
  lemma {:induction false} RecoversWithinBudget<T>(
    op: nat -> Attempt<T>, leaves: nat -> Option<ConnectionState>, reopen: nat -> Option<Exception>,
    connection: Option<ConnectionState>, retries: int, k: nat, n: nat)
    requires n <= retries
    requires forall i :: k <= i < k + n ==> op(i).Threw? && Retryable(op(i).error)
    requires forall i :: k <= i < k + n ==> reopen(i) == None
    requires op(k + n).Returned?
    ensures RetryRun(op, leaves, reopen, connection, retries, k).outcome == op(k + n)
    ensures RetryRun(op, leaves, reopen, connection, retries, k).attempts == k + n + 1
    decreases n
  {
    var conn := AfterAttempt(connection, leaves(k));
    if n > 0 {
      var rc := EnsureConnection(conn, reopen(k));
      RecoversWithinBudget(op, leaves, reopen, conn, retries - 1, k + 1, n - 1);
      RecoversWithinBudget(op, leaves, reopen, rc.connection, retries - 1, k + 1, n - 1);
    }
  }

  /**
   * If every attempt fails with a retryable error, transient and connection
   * errors draw on the same counter: after retries + 1 attempts and
   * `retries` waits the last exception propagates.
   */
  lemma {:induction false} ExhaustsBudget<T>(
    op: nat -> Attempt<T>, leaves: nat -> Option<ConnectionState>, reopen: nat -> Option<Exception>,
    connection: Option<ConnectionState>, retries: int, k: nat)
    requires retries >= 0
    requires forall i :: k <= i <= k + retries ==> op(i).Threw? && Retryable(op(i).error)
    requires forall i :: k <= i < k + retries ==> reopen(i) == None
    ensures var r := RetryRun(op, leaves, reopen, connection, retries, k);
      r.outcome == op(k + retries) && r.attempts == k + retries + 1 && DelayCount(r.trace) == retries
    decreases retries
  {
    var round: seq<Event> := [Acquire, Invoke(k), Release];
    DelayCounts(k, RetryDelayMs);
    var conn := AfterAttempt(connection, leaves(k));
    if retries > 0 {
      var rc := EnsureConnection(conn, reopen(k));
      var tail: seq<Event> := if rc.reopened then [Reopen] else [];
      assert DelayCount(tail) == 0;
      var conn' := if Classify(op(k).error, retries) == RetryAfterDelay then conn else rc.connection;
      ExhaustsBudget(op, leaves, reopen, conn', retries - 1, k + 1);
      var rest := RetryRun(op, leaves, reopen, conn', retries - 1, k + 1);
      DelayCountAppend(round, [Delay(RetryDelayMs)]);
      DelayCountAppend(round + [Delay(RetryDelayMs)], tail);
      DelayCountAppend(round + [Delay(RetryDelayMs)], rest.trace);
      DelayCountAppend(round + [Delay(RetryDelayMs)] + tail, rest.trace);
    }
  }

  /** With the default MaxRetries = 3, four retryable failures in a row end the call after exactly four attempts. */
  lemma DefaultBudgetIsFourAttempts<T>(
    op: nat -> Attempt<T>, leaves: nat -> Option<ConnectionState>, reopen: nat -> Option<Exception>, connection: Option<ConnectionState>)
    requires forall i :: 0 <= i <= 3 ==> op(i).Threw? && Retryable(op(i).error)
    requires forall i :: 0 <= i < 3 ==> reopen(i) == None
    ensures RetryRun(op, leaves, reopen, connection, MaxRetries, 0).attempts == 4
    ensures RetryRun(op, leaves, reopen, connection, MaxRetries, 0).outcome == op(3)
  {
    ExhaustsBudget(op, leaves, reopen, connection, MaxRetries, 0);
  }

  /** Number of reopen calls in a trace. */
  function ReopenCount(t: seq<Event>): nat
  {
    if t == [] then 0 else (if t[0].Reopen? then 1 else 0) + ReopenCount(t[1..])
  }

  lemma {:induction false} ReopenCountAppend(a: seq<Event>, b: seq<Event>)
    ensures ReopenCount(a + b) == ReopenCount(a) + ReopenCount(b)
    decreases |a|
  {
    if a == [] {
      assert a + b == b;
    } else {
      assert (a + b)[0] == a[0];
      assert (a + b)[1..] == a[1..] + b;
      ReopenCountAppend(a[1..], b);
    }
  }

  /**
   * The usual recovery: each of the first n attempts leaves the shared
   * connection closed or broken and throws InvalidOperationException, each
   * reopen succeeds, and attempt n returns without touching the connection.
   * Then every one of those attempts is followed by its own reopen, the
   * value is returned after n + 1 attempts with n waits, and the
   * connection ends open.
   */
  lemma {:induction false} ReopensAfterEveryBrokenAttempt<T>(
    op: nat -> Attempt<T>, leaves: nat -> Option<ConnectionState>, reopen: nat -> Option<Exception>,
    connection: Option<ConnectionState>, retries: int, k: nat, n: nat)
    requires connection.Some? && n <= retries
    requires forall i :: k <= i < k + n ==>
      op(i) == Threw(InvalidOperationException) && leaves(i).Some? && leaves(i).value != Open && reopen(i) == None
    requires op(k + n).Returned? && leaves(k + n) == None
    ensures var r := RetryRun(op, leaves, reopen, connection, retries, k);
      && r.outcome == op(k + n)
      && r.attempts == k + n + 1
      && ReopenCount(r.trace) == n
      && DelayCount(r.trace) == n
      && r.connection == (if n > 0 then Some(Open) else connection)
    decreases n
  {
    var round: seq<Event> := [Acquire, Invoke(k), Release];
    assert [Release][1..] == [];
    assert ReopenCount([Release]) == 0;
    assert [Invoke(k), Release][1..] == [Release];
    assert ReopenCount([Invoke(k), Release]) == 0;
    assert round[1..] == [Invoke(k), Release];
    assert ReopenCount(round) == 0;
    if n > 0 {
      var conn := AfterAttempt(connection, leaves(k));
      var rc := EnsureConnection(conn, reopen(k));
      assert rc.reopened && rc.connection == Some(Open);
      ReopensAfterEveryBrokenAttempt(op, leaves, reopen, Some(Open), retries - 1, k + 1, n - 1);
      var rest := RetryRun(op, leaves, reopen, Some(Open), retries - 1, k + 1);
      var steps := round + [Delay(RetryDelayMs)] + [Reopen];
      assert [Delay(RetryDelayMs)][1..] == [] && [Reopen][1..] == [];
      ReopenCountAppend(round, [Delay(RetryDelayMs)]);
      ReopenCountAppend(round + [Delay(RetryDelayMs)], [Reopen]);
      ReopenCountAppend(steps, rest.trace);
      DelayCounts(k, RetryDelayMs);
      DelayCountAppend(round, [Delay(RetryDelayMs)]);
      DelayCountAppend(round + [Delay(RetryDelayMs)], [Reopen]);
      DelayCountAppend(steps, rest.trace);
    } else {
      DelayCounts(k, RetryDelayMs);
    }
  }

  // ----- Polly policy of ExecuteWithRetry -----

  /** The Polly policy handles SQLITE_BUSY and SQLITE_LOCKED only. */
  function PollyHandles(ex: Exception): (b: bool)
    ensures b <==> ex == SqliteException(5) || ex == SqliteException(6)
  {
    ex.SqliteException? && (ex.code == 5 || ex.code == 6)
  }

  const PollyRetryCount: nat := 3

  function Pow2(n: nat): (p: nat)
    ensures p >= 1
  {
    if n == 0 then 1 else 2 * Pow2(n - 1)
  }

  /** The wait before Polly's retry number `retryAttempt` (counted from 1): 2^retryAttempt seconds. */
  function PollySleepMs(retryAttempt: nat): int
  {
    1000 * Pow2(retryAttempt)
  }

  /** The waits of the policy, one per retry. */
  function PollySchedule(): (s: seq<int>)
    ensures |s| == PollyRetryCount
    ensures forall i :: 0 <= i < |s| ==> s[i] == PollySleepMs(i + 1)
  {
    seq(PollyRetryCount, i requires 0 <= i < PollyRetryCount => PollySleepMs(i + 1))
  }

  /** Up to three retries after 2, 4 and 8 seconds, each wait twice the one before. */
  lemma PollyScheduleValues()
    ensures PollySchedule() == [2000, 4000, 8000]
    ensures forall i :: 0 < i < PollyRetryCount ==> PollySchedule()[i] == 2 * PollySchedule()[i - 1]
  {
    assert Pow2(1) == 2 && Pow2(2) == 4 && Pow2(3) == 8;
  }

  /**
   * Every exception the Polly policy handles is also transient for
   * ExecuteWithRetryAsync, but not conversely: SQLITE_READONLY (8) is
   * retried by the loop and not by the policy.
   */
  lemma PollyNarrowerThanLoop(ex: Exception)
    ensures PollyHandles(ex) ==> Classify(ex, 1) == RetryAfterDelay
    ensures Classify(SqliteException(8), 1) == RetryAfterDelay && !PollyHandles(SqliteException(8))
  {
  }

  // ----- OpenSqliteConnectionWithRetry -----

  /** The waits after the first n failed opens: 1000 ms doubled each time. */
  function OpenBackoff(n: nat): (s: seq<int>)
    ensures |s| == n
    ensures forall i :: 0 <= i < n ==> s[i] == 1000 * Pow2(i)
  {
    seq(n, i requires 0 <= i < n => 1000 * Pow2(i))
  }

  /** Before the third and last attempt the loop has waited 1000 ms and then 2000 ms. */
  lemma OpenBackoffValues()
    ensures OpenBackoff(2) == [1000, 2000]
  {
    assert Pow2(1) == 2;
  }

  /** An open that threw a SqliteException, the only exception the loop catches. */
  predicate FailedWithSqlite(result: Option<Exception>)
  {
    result.Some? && result.value.SqliteException?
  }

  /**
   * OpenSqliteConnectionWithRetry: up to three calls of Open. `open(i)` is
   * what the i-th call does (None: the connection opened). A SqliteException
   * is caught and followed by a wait of 1000 * 2^retry ms unless it was the
   * third; the third is rethrown; any other exception is not caught.
   * `error` is what the method throws (None: it returned normally).
   */
  method OpenSqliteConnectionWithRetry(open: nat -> Option<Exception>)
    returns (error: Option<Exception>, attempts: nat, sleeps: seq<int>)
    ensures 1 <= attempts <= 3
    ensures error == open(attempts - 1)
    ensures forall i :: 0 <= i < attempts - 1 ==> FailedWithSqlite(open(i))
    ensures attempts < 3 ==> !FailedWithSqlite(open(attempts - 1))
    ensures sleeps == OpenBackoff(attempts - 1)
  {
    var maxRetries := 3;
    var baseDelay := 1000;
    sleeps := [];
    var retry := 0;
    while true
      invariant 0 <= retry < maxRetries
      invariant forall i :: 0 <= i < retry ==> FailedWithSqlite(open(i))
      invariant sleeps == OpenBackoff(retry)
      decreases maxRetries - retry
    {
      var result := open(retry);
      if result.None? {
        return None, retry + 1, sleeps;
      }
      if !result.value.SqliteException? || retry == maxRetries - 1 {
        return result, retry + 1, sleeps;
      }
      var delay := baseDelay * Pow2(retry);
      sleeps := sleeps + [delay];
      retry := retry + 1;
    }
  }
}
