/**
 * The mutable state of DatabaseHelper.cs: the shared connection, the
 * connection lock (SemaphoreSlim(1, 1), a held/free flag in this sequential
 * model), the owned UnitOfWork and the disposed flag; and the methods that
 * change it: ExecuteWithRetryAsync, EnsureConnectionAsync and disposal.
 */
module Database {
  import opened Wrappers
  import opened Retry

  class DatabaseHelper {
    /** `_connection`; None when it is null. */
    var connection: Option<ConnectionState>
    /** Whether `_connectionLock` is taken. */
    var lockHeld: bool
    /** `_disposed`. */
    var disposed: bool
    /** Whether `_unitOfWork` is non-null. */
    var hasUnitOfWork: bool
    /** How many times Dispose has been called on the connection and on the UnitOfWork. */
    var connectionDisposals: nat
    var unitOfWorkDisposals: nat

    /** The state InitializeDatabase leaves behind: an open connection and a UnitOfWork, or what it got to. */
    constructor (connection: Option<ConnectionState>, hasUnitOfWork: bool)
      ensures this.connection == connection && this.hasUnitOfWork == hasUnitOfWork
      ensures !lockHeld && !disposed && connectionDisposals == 0 && unitOfWorkDisposals == 0
    {
      this.connection := connection;
      this.hasUnitOfWork := hasUnitOfWork;
      lockHeld := false;
      disposed := false;
      connectionDisposals := 0;
      unitOfWorkDisposals := 0;
    }

    /** EnsureConnectionAsync; `openResult` is what OpenAsync does if it is called. */
    method EnsureConnectionAsync(openResult: Option<Exception>) returns (reopened: bool, error: Option<Exception>)
      modifies this`connection
      ensures EnsureConnection(old(connection), openResult) == Reconnect(reopened, error, connection)
    {
      reopened := false;
      error := None;
      if connection.Some? && connection.value != Open {
        reopened := true;
        if openResult == None {
          connection := Some(Open);
        } else {
          error := openResult;
        }
      }
    }

    /**
     * ExecuteWithRetryAsync(operation, retries). Attempt k of the operation
     * does `op(k)` and leaves the connection as `leaves(k)` says; the reopen
     * after attempt k does `reopen(k)`. Returns the
     * outcome, the count of attempts and the events, exactly as RetryRun
     * defines them; the lock is free again afterwards.
     */
    method ExecuteWithRetryAsync<T>(op: nat -> Attempt<T>, leaves: nat -> Option<ConnectionState>, reopen: nat -> Option<Exception>,
                                    retries: int := MaxRetries)
      returns (outcome: Attempt<T>, attempts: nat, trace: seq<Event>)
      requires !lockHeld
      modifies this`lockHeld, this`connection
      ensures !lockHeld
      ensures RetryRun(op, leaves, reopen, old(connection), retries, 0) == Run(outcome, attempts, trace, connection)
    {
      var left := retries;
      var k: nat := 0;
      trace := [];
      while true
        invariant !lockHeld
        invariant RetryRun(op, leaves, reopen, old(connection), retries, 0) == Prepend(trace, RetryRun(op, leaves, reopen, connection, left, k))
        decreases Budget(left)
      {
        ghost var t0 := trace;
        ghost var c0 := connection;
        ghost var round := [Acquire, Invoke(k), Release];
        lockHeld := true;
        trace := trace + [Acquire, Invoke(k)];
        var a := op(k);
        connection := AfterAttempt(connection, leaves(k));
        lockHeld := false;
        trace := trace + [Release];
        assert trace == t0 + round;
        if a.Returned? {
          assert RetryRun(op, leaves, reopen, c0, left, k) == Run(a, k + 1, round, connection);
          return a, k + 1, trace;
        }
        var handling := Classify(a.error, left);
        if handling == Propagate {
          assert RetryRun(op, leaves, reopen, c0, left, k) == Run(a, k + 1, round, connection);
          return a, k + 1, trace;
        }
        if handling == ReconnectAfterDelay {
          RetryRunReconnects(op, leaves, reopen, c0, left, k);
        } else {
          RetryRunRetries(op, leaves, reopen, c0, left, k);
        }
        left := left - 1;
        trace := trace + [Delay(RetryDelayMs)];
        if handling == ReconnectAfterDelay {
          var reopened, error := EnsureConnectionAsync(reopen(k));
          if reopened {
            trace := trace + [Reopen];
          }
          ghost var steps := round + [Delay(RetryDelayMs)] + (if reopened then [Reopen] else []);
          assert trace == t0 + steps;
          if error.Some? {
            return Threw(error.value), k + 1, trace;
          }
          PrependTwice(t0, steps, RetryRun(op, leaves, reopen, connection, left, k + 1));
        } else {
          PrependTwice(t0, round + [Delay(RetryDelayMs)], RetryRun(op, leaves, reopen, connection, left, k + 1));
        }
        k := k + 1;
      }
    }

    /** Dispose(): Dispose(true) followed by GC.SuppressFinalize, which has no model. */
    method Dispose()
      modifies this`disposed, this`connection, this`connectionDisposals, this`unitOfWorkDisposals
      ensures disposed
      ensures old(disposed) ==> (connection == old(connection) &&
        connectionDisposals == old(connectionDisposals) && unitOfWorkDisposals == old(unitOfWorkDisposals))
      ensures !old(disposed) ==>
        connection == (if old(connection).Some? then Some(Closed) else None) &&
        connectionDisposals == old(connectionDisposals) + (if old(connection).Some? then 1 else 0) &&
        unitOfWorkDisposals == old(unitOfWorkDisposals) + (if hasUnitOfWork then 1 else 0)
    {
      DisposeCore(true);
    }

    /**
     * The protected Dispose(bool disposing): once only, and only when
     * disposing, dispose the UnitOfWork and the connection if they are
     * non-null; then mark the helper disposed.
     */
    method DisposeCore(disposing: bool)
      modifies this`disposed, this`connection, this`connectionDisposals, this`unitOfWorkDisposals
      ensures disposed
      ensures old(disposed) || !disposing ==> (connection == old(connection) &&
        connectionDisposals == old(connectionDisposals) && unitOfWorkDisposals == old(unitOfWorkDisposals))
      ensures !old(disposed) && disposing ==>
        connection == (if old(connection).Some? then Some(Closed) else None) &&
        connectionDisposals == old(connectionDisposals) + (if old(connection).Some? then 1 else 0) &&
        unitOfWorkDisposals == old(unitOfWorkDisposals) + (if hasUnitOfWork then 1 else 0)
    {
      if !disposed {
        if disposing {
          if hasUnitOfWork {
            unitOfWorkDisposals := unitOfWorkDisposals + 1;
          }
          if connection.Some? {
            connection := Some(Closed);
            connectionDisposals := connectionDisposals + 1;
          }
        }
        disposed := true;
      }
    }

    /**
     * DisposeAsync: DisposeAsyncCore disposes the UnitOfWork and the
     * connection whenever they are non-null, without looking at `_disposed`;
     * then Dispose(false) only sets the flag.
     */
    method DisposeAsync()
      modifies this`disposed, this`connection, this`connectionDisposals, this`unitOfWorkDisposals
      ensures disposed
      ensures connection == (if old(connection).Some? then Some(Closed) else None)
      ensures connectionDisposals == old(connectionDisposals) + (if old(connection).Some? then 1 else 0)
      ensures unitOfWorkDisposals == old(unitOfWorkDisposals) + (if hasUnitOfWork then 1 else 0)
    {
      if hasUnitOfWork {
        unitOfWorkDisposals := unitOfWorkDisposals + 1;
      }
      if connection.Some? {
        connection := Some(Closed);
        connectionDisposals := connectionDisposals + 1;
      }
      DisposeCore(false);
    }
  }

  lemma PrependTwice<T>(a: seq<Event>, b: seq<Event>, r: Run<T>)
    ensures Prepend(a, Prepend(b, r)) == Prepend(a + b, r)
  {
    assert a + (b + r.trace) == (a + b) + r.trace;
  }

  /** Disposing twice disposes each resource once: the second Dispose changes nothing. */
  method DisposeTwice(helper: DatabaseHelper)
    requires !helper.disposed && helper.connection.Some? && helper.hasUnitOfWork
    modifies helper
    ensures helper.disposed && helper.connection == Some(Closed)
    ensures helper.connectionDisposals == old(helper.connectionDisposals) + 1
    ensures helper.unitOfWorkDisposals == old(helper.unitOfWorkDisposals) + 1
  {
    helper.Dispose();
    helper.Dispose();
  }

  /**
   * A caller of ExecuteWithRetryAsync with the default budget, on an open
   * connection: attempts 0 and 1 each find the connection closed by the
   * code that holds it and throw InvalidOperationException; attempt 2
   * returns. The call reconnects after each failure, returns the value after
   * three attempts and leaves the connection open.
   */
  method RecoversFromLostConnectionTwice(helper: DatabaseHelper, v: int)
      returns (outcome: Attempt<int>, attempts: nat, trace: seq<Event>)
    requires !helper.lockHeld && helper.connection == Some(Open)
    modifies helper
    ensures outcome == Returned(v) && attempts == 3
    ensures ReopenCount(trace) == 2 && DelayCount(trace) == 2 && LockSafe(false, trace)
    ensures helper.connection == Some(Open) && !helper.lockHeld
  {
    var op := (k: nat) => if k < 2 then Threw(InvalidOperationException) else Returned(v);
    var leaves := (k: nat) => if k < 2 then Some(Closed) else None;
    var reopen := (k: nat) => None;
    outcome, attempts, trace := helper.ExecuteWithRetryAsync(op, leaves, reopen);
    ReopensAfterEveryBrokenAttempt(op, leaves, reopen, Some(Open), MaxRetries, 0, 2);
    LockReleasedAroundEveryAttempt(op, leaves, reopen, Some(Open), MaxRetries, 0);
  }
}
