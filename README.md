# PricisApp persistence core in Dafny

PricisApp is a desktop time tracker. Tasks, categories, tags and work sessions live in a SQLite database, `TimeTracking.db`. This project models the sequential logic of the app's persistence layer and proves properties of it:

- **`DatabaseHelper`** (`retry.dfy`, `database.dfy`, `sqlite_config.dfy`, `facade.dfy`):
  - `ExecuteWithRetryAsync` is a retry loop. Each attempt runs under the connection semaphore. SQLite codes 5, 6, 8 and 11 are transient and are retried after 100 ms. An `InvalidOperationException`, or SQLite code 14, is a connection error: it is retried after 100 ms and a reconnect. Both kinds share one budget of `MaxRetries = 3`. Every other exception propagates at once.
  - `EnsureConnectionAsync` reopens a connection that exists but is not open.
  - The two other retry schedules: `OpenSqliteConnectionWithRetry` makes up to 3 attempts with 1000·2^k ms between them. The Polly policy in `ExecuteWithRetry` handles codes 5 and 6 only, with 3 retries at 2^n seconds.
  - The case-insensitive configuration maps from strings to `SqliteOpenMode` and `SqliteCacheMode`.
  - The task and session facade over the repositories.
  - The rendering of a task's session table.
  - `Dispose` and `DisposeAsync`.
- **`DatabaseFix.FixDatabaseAsync`** (`database_fix.dfy`): the start-up repair procedure.
  - It probes that the folder is writable.
  - A database with a `Tasks` table is kept.
  - A database without a `Tasks` table gets the schema script.
  - A file that cannot be opened is deleted, with its `-wal` and `-shm` sidecars, and recreated.
  - A missing database is created.
- **`TaskModels.cs`** (`task_models.dfy`): the `Category` and `TaskItem` value types. Their constructors replace null arguments with defaults.

Representations:

- **Environment as a function of the attempt number.** Which attempt of an operation throws, what each attempt does to the shared connection (the connection is public, so the code holding it may close it), whether each reopen succeeds, and whether each `Open()` fails are all parameters of this kind (`op`, `leaves`, `reopen`, `open`). Each loop is therefore proved against a pure reference function over those parameters. `Retry.RetryRun` is the reference for the retry loop and `DatabaseFix.FixSpec` for the repair procedure.
- **Semaphore, delays and reconnects as a trace.** A run records them as a sequence of events. `Retry.LockSafe` replays the semaphore over that trace.
- **Filesystem as a class.** Its `files` field maps each existing path to what SQLite makes of the file: `Valid`, `NoTasksTable` or `Unopenable`. Fixed properties say whether the folder is writable and which files cannot be deleted.
- **Repositories as a store.** The repositories are not part of this model. They are an abstract `Store`: rows keyed by id, an insert under a fresh id, and updates of a missing id that change nothing. The store also enforces two of the schema's three foreign keys (DatabaseHelper.cs:115 and :130, with `PRAGMA foreign_keys = ON` at :100): a session must belong to a stored task, and a task's category must be a stored category. A write that would break one of them fails with `ForeignKeyViolation`. The third, TaskTags.TaskId (DatabaseHelper.cs:121), holds by construction, because a task's tags live inside its record.

## Model

| member | source | states |
|---|---|---|
| Retry.IsTransientError | DatabaseHelper.cs:254-260 | A SQLite error is transient exactly when its code is 5, 6, 8 or 11. |
| Retry.IsConnectionError | DatabaseHelper.cs:262-266 | An exception is a connection error exactly when it is an InvalidOperationException or SQLite code 14. |
| Retry.TransientAndConnectionErrorsDisjoint | DatabaseHelper.cs:240-266 | No SQLite error is both transient and a connection error, so each retryable exception is caught by exactly one clause. |
| Retry.Classify | DatabaseHelper.cs:240-266 | Three cases, each with both directions. The error is retried after a delay exactly when retries remain and it is a SQLite error with code 5, 6, 8 or 11. It is retried with a reconnect exactly when retries remain and it is an InvalidOperationException or SQLite code 14. Otherwise it propagates. |
| Retry.EnsureConnection | DatabaseHelper.cs:268-274 | A reopen happens exactly when the connection exists and is not Open. A missing or open connection is left as it is. A reopen that succeeds leaves the connection Open; one that fails throws its error and leaves the state unchanged. |
| Database.DatabaseHelper.EnsureConnectionAsync | DatabaseHelper.cs:268-274 | Updates the helper's connection field as EnsureConnection defines. |
| Retry.AfterAttempt | DatabaseHelper.cs:43 | An attempt never makes a null connection non-null or the reverse. An attempt that changes nothing leaves the connection as it was; one that closes or breaks an existing connection leaves it in that state. |
| Database.DatabaseHelper.ExecuteWithRetryAsync | DatabaseHelper.cs:224-252 | The loop's outcome, attempt count, event trace and final connection are those of RetryRun from the old connection, and the semaphore is free afterwards. Each attempt may change the connection's state before the reconnect step reads it. |
| Retry.LockReleasedAroundEveryAttempt | DatabaseHelper.cs:230-238 | In every run, the semaphore is taken only when free and released only when held. Each attempt happens with it held, no delay or reopen happens while it is held, and it is free at the end. |
| Retry.AttemptsWithinBudget | DatabaseHelper.cs:224-252 | A run makes at least one attempt and at most retries + 1. |
| Retry.DelaysWithinBudget | DatabaseHelper.cs:240-249 | Transient and connection errors draw on one shared counter, so a run waits at most `retries` times in total. |
| Retry.OutcomeIsLastObserved | DatabaseHelper.cs:233-250 | The result of a run is either the last attempt's value or exception, or the exception thrown by a failed reopen. |
| Retry.PropagatesAtOnce | DatabaseHelper.cs:240-251 | An exception that is neither transient nor a connection error, or any exception once the budget is spent, ends the run after one attempt, with no delay and no reopen. |
| Retry.RecoversWithinBudget | DatabaseHelper.cs:224-252 | If the first n <= retries attempts fail with retryable errors, their reconnects succeed, and attempt n succeeds, then the run returns that value after n + 1 attempts. |
| Retry.ExhaustsBudget | DatabaseHelper.cs:224-252 | If every attempt fails with a retryable error and every reconnect succeeds, the run makes retries + 1 attempts, waits retries times, and ends with the exception of the last attempt. |
| Retry.ReopensAfterEveryBrokenAttempt | DatabaseHelper.cs:245-274 | If each of the first n <= retries attempts leaves an existing connection closed or broken and throws InvalidOperationException, every reopen succeeds, and attempt n + 1 returns a value without touching the connection, then the run reopens n times, waits n times, and returns that value after n + 1 attempts; the connection ends open when n > 0 and is unchanged when n = 0. |
| Database.RecoversFromLostConnectionTwice | DatabaseHelper.cs:224-274 | On an open connection that is closed twice by its holder, the default call reconnects twice and returns the value after three attempts and two waits. The semaphore discipline holds, and the connection ends open. |
| Retry.DefaultBudgetIsFourAttempts | DatabaseHelper.cs:33 | With the default MaxRetries = 3, a run whose first four attempts all fail with retryable errors, and whose reconnects all succeed, makes four attempts and ends with the fourth exception. |
| Retry.PollySchedule | DatabaseHelper.cs:460-461 | The Polly policy waits once per retry, 3 times, and wait number n is 2^n seconds. |
| Retry.PollyScheduleValues | DatabaseHelper.cs:457-461 | The Polly waits are 2000, 4000 and 8000 ms, and each is double the previous one. |
| Retry.PollyHandles | DatabaseHelper.cs:457-459 | The Polly policy handles an exception exactly when it is SQLite code 5 or 6. |
| Retry.PollyNarrowerThanLoop | DatabaseHelper.cs:256-259 | Everything the Polly policy handles (codes 5 and 6) the retry loop also treats as transient, but not conversely: code 8 is transient for the loop and not handled by Polly. |
| Retry.Pow2 | DatabaseHelper.cs:520 | Math.Pow(2, k) for a natural k is at least 1. |
| Retry.OpenBackoff | DatabaseHelper.cs:520-521 | Sleep k of the open loop lasts 1000·2^k ms. |
| Retry.OpenBackoffValues | DatabaseHelper.cs:505-521 | Before its third and last attempt, the open loop has waited 1000 ms and then 2000 ms. |
| Retry.OpenSqliteConnectionWithRetry | DatabaseHelper.cs:503-524 | Makes 1 to 3 attempts and ends with the last attempt's result. Every attempt before it threw a SqliteException. Fewer than 3 attempts means the last one did not throw a SqliteException: it succeeded, or it threw something that is not caught. The sleeps between attempts are 1000, 2000, … ms. |
| Database.DatabaseHelper.Dispose | DatabaseHelper.cs:421-438 | The first call closes the connection and disposes the unit of work, once each, and sets the disposed flag. A later call changes nothing. |
| Database.DatabaseHelper.DisposeCore | DatabaseHelper.cs:427-438 | Cleans up only when not yet disposed and called with disposing = true; it always ends disposed. |
| Database.DatabaseHelper.DisposeAsync | DatabaseHelper.cs:440-453 | Disposes the unit of work and the connection when they exist, with no disposed guard, then runs Dispose(false), which frees nothing more. |
| Database.DisposeTwice | DatabaseHelper.cs:421-438 | Disposing twice disposes the connection and the unit of work exactly once each. |
| SqliteConfig.ToLower | DatabaseHelper.cs:168 | Lower-casing keeps the length and lower-cases each character. |
| SqliteConfig.LowerChar | DatabaseHelper.cs:168 | An upper-case ASCII letter becomes its lower-case letter; every other character is kept. The result is never an upper-case letter. |
| SqliteConfig.GetSqliteOpenMode | DatabaseHelper.cs:166-176 | Three cases, each with both directions: ReadOnly, ReadWrite and Memory for exactly their names in any case. ReadWriteCreate for "readwritecreate" and every unrecognised string. |
| SqliteConfig.GetSqliteCacheMode | DatabaseHelper.cs:178-187 | Private and Shared for exactly their names in any case (both directions). Default for "default" and every unrecognised string. |
| SqliteConfig.ToLowerIgnoresCase | DatabaseHelper.cs:168 | Strings that differ only in letter case lower-case to the same string. |
| SqliteConfig.ModesIgnoreCase | DatabaseHelper.cs:166-187 | Both maps give the same mode for strings that differ only in letter case. |
| SqliteConfig.LowerOfSpelledOut | DatabaseHelper.cs:168 | A string whose characters lower-case one by one to t lower-cases to t. |
| SqliteConfig.OpenModeNameRoundTrip | DatabaseHelper.cs:166-176 | Each open mode's own name maps back to that mode. |
| SqliteConfig.CacheModeNameRoundTrip | DatabaseHelper.cs:178-187 | Each cache mode's own name maps back to that mode. |
| SqliteConfig.EmptyConfigurationFallsBack | DatabaseHelper.cs:174-185 | An empty setting gives ReadWriteCreate and Default. |
| Facade.ParseState | DatabaseHelper.cs:290-308 | A stored state string that reads back as a state is that state's name. Anything other than the three names reads as no state. |
| Facade.StateName | DatabaseHelper.cs:290-308 | Each session state has its own name, Running, Paused or Stopped, and no two states share one. |
| Facade.StateNameRoundTrip | DatabaseHelper.cs:290-308 | The name each session call writes reads back as the state it names. |
| Facade.InsertSession | DatabaseHelper.cs:290 | The insert is rejected exactly when the task does not exist. Otherwise it adds one open row under a fresh id and keeps the store valid, foreign keys included. |
| Facade.UpdateSession | DatabaseHelper.cs:298 | For an existing session it sets the end time and the state, replaces the notes only with non-empty notes, and changes nothing else, while a missing id leaves the store unchanged. |
| Facade.UpdateSessionState | DatabaseHelper.cs:303-308 | A missing id changes nothing. Otherwise only that row's state is written. |
| Facade.StartSessionAsync | DatabaseHelper.cs:288-291 | Rejected exactly when the task does not exist. Otherwise it adds exactly one session under a fresh id, with the given task, start, and notes, and no end. Its state is Running unless another state is passed. Every other row is unchanged. |
| Facade.OrphanSessionRejected | DatabaseHelper.cs:288-291 | Starting a session for a task that is not stored is rejected by the Sessions.TaskId foreign key (DatabaseHelper.cs:130). |
| Facade.EndSessionAsync | DatabaseHelper.cs:296-299 | An existing session gets the end time and state Stopped, keeps its task and start time, and is consistent. Its notes become the given notes when these are non-empty and stay as they were otherwise. A missing id changes nothing. Other rows are unchanged. |
| Facade.PauseSessionAsync | DatabaseHelper.cs:301-304 | An existing session's state becomes Paused and no other field or row changes. A missing id changes nothing. |
| Facade.ResumeSessionAsync | DatabaseHelper.cs:306-309 | An existing session's state becomes Running and no other field or row changes. A missing id changes nothing. |
| Facade.PauseThenResumeRestores | DatabaseHelper.cs:301-309 | Pausing a running session and then resuming it gives back the store as it was. |
| Facade.SessionLifecycle | DatabaseHelper.cs:288-309 | For an existing task, start succeeds, and start, pause, resume and end write Running, Paused, Running and Stopped in turn. The row is consistent at each step and ends closed with its start and notes kept. Every earlier row is untouched. |
| Facade.UpdateTaskCategoryAsync | DatabaseHelper.cs:380-388 | Rejected exactly when the task exists and the new category is not stored (the Tasks.CategoryId foreign key, DatabaseHelper.cs:115). Otherwise an existing task gets the new category and no other field of it changes. A missing task changes nothing. No other task or session changes. |
| Facade.UpdateTaskTagsAsync | DatabaseHelper.cs:393-401 | An existing task's tags are replaced by the given list. A missing task changes nothing. No other task or session changes. |
| Facade.GetTagsForTaskAsync | DatabaseHelper.cs:406-410 | Returns the task's tags, or an empty list for a missing task or null tags. |
| Facade.TagsRoundTrip | DatabaseHelper.cs:393-410 | The tags written are the tags read back. For a missing task, nothing is written and an empty list is read. |
| Facade.CategoryUpdateKeepsTags | DatabaseHelper.cs:380-410 | A category change that succeeds leaves every task's tags as they were, and setting the same category twice equals setting it once. |
| Facade.GetTasksByCompletionAsync | DatabaseHelper.cs:415-419 | It keeps exactly the tasks whose IsComplete matches (both directions), each as many times as it occurs. |
| Facade.CompletionFilterKeepsOrder | DatabaseHelper.cs:418 | Filtering a concatenation is the concatenation of the filtered parts, so the kept tasks stay in the repository's order. |
| Facade.CompletionFiltersPartition | DatabaseHelper.cs:415-419 | The complete and the incomplete filters split the task list, as a multiset and by count. |
| Facade.RenderSession | DatabaseHelper.cs:336-341 | Start time formatted. A missing end time or duration shows "In Progress"; a present one is formatted. Missing notes show as the empty string. |
| Facade.GetSessionsForTaskAsync | DatabaseHelper.cs:322-345 | One row per session, in the sessions' order, each row that session's rendering. |
| Facade.OpenSessionInProgress | DatabaseHelper.cs:338-339 | A session without end time and duration shows "In Progress" in both columns. |
| DatabaseFix.Combine | DatabaseFix.cs:16-25 | The combined path is the folder, one backslash, then the file name, so both parts can be read back from it. |
| DatabaseFix.PathsDistinct | DatabaseFix.cs:16-25 | The probe, database, -wal and -shm paths are pairwise different. |
| DatabaseFix.FileSystem.Exists | DatabaseFix.cs:39 | True exactly when the path exists. |
| DatabaseFix.FileSystem.WriteAllText | DatabaseFix.cs:26 | Succeeds exactly when the folder is writable and the file is not an existing locked file; it then adds the file. |
| DatabaseFix.FileSystem.Delete | DatabaseFix.cs:27 | Fails exactly for an existing locked file. Otherwise it removes the path; deleting a missing file succeeds. |
| DatabaseFix.FileSystem.OpenReadOnly | DatabaseFix.cs:44-57 | Reports what SQLite makes of the file. |
| DatabaseFix.FileSystem.OpenOrCreate | DatabaseFix.cs:109-120 | A missing file becomes an empty database; an existing one is kept. |
| DatabaseFix.FileSystem.ApplySchema | DatabaseFix.cs:185-189 | After the schema script the database has its Tasks table. |
| DatabaseFix.FixDatabaseAsync | DatabaseFix.cs:10-207 | The result, the files afterwards and the steps attempted are those FixSpec defines. |
| DatabaseFix.RepairDatabase | DatabaseFix.cs:36-199 | The part after the probe does what AfterProbe defines. |
| DatabaseFix.DeleteCorruptedFiles | DatabaseFix.cs:71-96 | Deletes the database, then the -wal and -shm files if present, stopping at the first failure, as DeleteCorrupted defines. |
| DatabaseFix.CreateDatabase | DatabaseFix.cs:106-195 | Opens with ReadWriteCreate and then runs the schema script, stopping at the first failure, as CreatePath defines. |
| DatabaseFix.ProbeFailureTouchesOnlyProbe | DatabaseFix.cs:22-34 | The probe fails exactly when the folder is not writable or the probe file is locked, whether it cannot be overwritten or cannot be deleted. The procedure then fails with FolderNotWritable, having touched only the probe file. |
| DatabaseFix.ProbeFileRemoved | DatabaseFix.cs:25-27 | After a successful probe, test_write.tmp no longer exists. |
| DatabaseFix.ValidDatabaseLeftAlone | DatabaseFix.cs:39-64 | The existing database is used exactly when it opens read-only and has a Tasks table. Then only the probe is removed, nothing is deleted, and no schema script runs. |
| DatabaseFix.NoTasksTableNotDeleted | DatabaseFix.cs:59-63 | A database without a Tasks table is not deleted. The create path runs on it. |
| DatabaseFix.CreatePathShape | DatabaseFix.cs:106-195 | The create path appends its steps, gives CreateResult, and adds at most the database file, which is valid on success. |
| DatabaseFix.DeleteCorruptedSucceeds | DatabaseFix.cs:71-90 | When no deletion throws, the database and both sidecars are gone. Each sidecar deletion is attempted only if that file exists. |
| DatabaseFix.UnopenableDeletedWithSidecars | DatabaseFix.cs:65-106 | A file that fails to open is deleted, then -wal and -shm each if it exists, with the exact step log. Then the create path runs; other files are untouched. |
| DatabaseFix.FailedDeletionStopsRecreation | DatabaseFix.cs:92-96 | If any of those deletions fails, the result is CorruptedUndeletable and no create or schema step is attempted. |
| DatabaseFix.MissingDatabaseCreated | DatabaseFix.cs:99-103 | A missing database always takes the create path. |
| DatabaseFix.SuccessLeavesValidDatabase | DatabaseFix.cs:106-199 | Whenever the procedure succeeds, the database file exists and has its Tasks table. |
| TaskModels.NewCategory | TaskModels.cs:14-19 | The id is stored. A null name becomes "" and a null color "#FFFFFF"; non-null values are stored unchanged. |
| TaskModels.Category.ToString | TaskModels.cs:21 | The text of a category is its name. |
| TaskModels.CategoryFieldsRoundTrip | TaskModels.cs:14-21 | Constructing from a category's own fields gives that category back, and its text is its name. |
| TaskModels.NewTaskItem | TaskModels.cs:35-42 | Id, completion and category are stored. A null name becomes "". Tags are never null: null tags become an empty list. |
| TaskModels.TaskItem.ToString | TaskModels.cs:44 | The text of a task is its name. |
| TaskModels.TaskItemDefaults | TaskModels.cs:35-44 | With only id and name, a task is incomplete, has no category and has an empty tag list. A null name gives the text "". |

## Left out

- Time, the semaphore and I/O. Real concurrency and asynchrony are not modelled. `SemaphoreSlim` is a held/free flag, and `Task.Delay` and `Thread.Sleep` are recorded durations.
- Console output, including the `File.Exists` check of DatabaseFix.cs:19, which is only printed.
- The workings of SQLite and Polly. What an attempt, a reopen or an open does is a parameter of the model. Of Polly, only its exception filter and its wait schedule are modelled, not its execution engine.
- The repositories and `UnitOfWork` are not parameters: they are the fixed `Store` above, whose behaviour is assumed as the lines below say.
- The repositories, `UnitOfWork`, `ExecuteInTransactionAsync`, `InsertTaskAsync`, `GetAllTasksAsync`, `InsertCategoryAsync` and the other pass-through reads. They forward to repository code that is not part of this model.
- `InitializeDatabase`, the constructor's configuration reading, migrations, `AppDbContext`, `UseDapper`, `GetSqliteConnection` and `GetAllProducts`. This is I/O and library glue.
- Facade.UpdateSession: the repository's handling of notes is assumed: new notes replace the old ones only when they are non-empty. The repository's source is not part of this model.
- Facade.InsertSession: session ids come from a counter, as SQLite's AUTOINCREMENT does. The facade does not check that the task exists; the Sessions.TaskId foreign key rejects a missing task.
- Facade.StartSessionAsync: assumes the repository inserts exactly one row with the given fields. A foreign-key violation is the only failure modelled; other SQL errors are not.
- Facade.UpdateTaskCategoryAsync: assumes `GetByIdAsync` returns the stored task and `UpdateAsync` writes its CategoryId, so a category that is not stored is rejected by the foreign key. Deleting a category (ON DELETE SET NULL) is not modelled.
- Facade.UpdateSessionState: assumes the repository writes only the State column.
- Facade.TagsRoundTrip: assumes `UpdateAsync` stores the tag list and `GetByIdAsync` loads it back unchanged, in the same order. TaskTags has the primary key (TaskId, Tag) (DatabaseHelper.cs:120). How the repository handles a list with duplicate tags is not known, so duplicates are kept here. Facade.UpdateTaskTagsAsync shares these assumptions.
- `DateTime` values and their formatting (`ToString("g")`, `hh\:mm\:ss`). Times are opaque integers, and the formatters are parameters.
- SqliteConfig.ToLower: lower-cases ASCII letters only. Culture-specific lower-casing (such as the Turkish dotted I) is not modelled. The strings the maps recognise are ASCII.
- DatabaseFix: the meaning of the schema script's SQL is not modelled. A script that fails part-way is taken to leave the file as it was after the open.
- DatabaseFix.Combine: `Path.Combine` is a join with a backslash. Trailing separators and rooted second arguments are not modelled.
- DatabaseFix: `Directory.CreateDirectory` of the current directory is folded into the writable flag.
- DatabaseFix: messages and inner exceptions are left out. Failures are reduced to the four kinds the model distinguishes.
- TaskModels: the later property setters of `TaskItem` (`IsComplete`, `Category`, `Tags`) are plain field updates of the datatype and have no members of their own.
