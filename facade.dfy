/**
 * The thin facade of DatabaseHelper.cs over the task and session
 * repositories. The repositories (TaskRepository, SessionRepository) are
 * not part of this model; they are an abstract Store here with the least
 * behaviour the facade relies on: rows keyed by id, an insert that takes a
 * fresh id, an update of a missing id that changes nothing, and two of
 * the schema's three foreign keys (Sessions.TaskId and Tasks.CategoryId),
 * which the connection enforces with PRAGMA foreign_keys = ON. The third,
 * TaskTags.TaskId, holds by construction: tags live inside the task record.
 */
module Facade {
  import opened Wrappers

  /** PricisApp.Core.Enums.SessionState; `state.ToString()` is its name. */
  datatype SessionState = Running | Paused | Stopped

  function StateName(s: SessionState): (n: string)
    ensures n == "Running" <==> s == Running
    ensures n == "Paused" <==> s == Paused
    ensures n == "Stopped" <==> s == Stopped
  {
    match s
    case Running => "Running"
    case Paused => "Paused"
    case Stopped => "Stopped"
  }

  /** Reading a stored State column back; any other text is not a state. */
  function ParseState(name: string): (r: Option<SessionState>)
    ensures r.Some? ==> StateName(r.value) == name
    ensures r.None? ==> name !in {"Running", "Paused", "Stopped"}
  {
    if name == "Running" then Some(Running)
    else if name == "Paused" then Some(Paused)
    else if name == "Stopped" then Some(Stopped)
    else None
  }

  lemma StateNameRoundTrip(s: SessionState)
    ensures ParseState(StateName(s)) == Some(s)
  {
  }

  /** The task entity the repositories return (Core.Entities.TaskItem): the fields the facade reads or sets. */
  datatype TaskEntity = TaskEntity(id: int, name: string, isComplete: bool, categoryId: Option<int>, tags: Option<seq<string>>)

  /** A row of the Sessions table; times are opaque instants. */
  datatype SessionRecord = SessionRecord(taskId: int, startTime: int, endTime: Option<int>, notes: Option<string>, state: string)

  /**
   * The repositories' state: tasks and sessions by id, the ids of the
   * Categories rows, and the next id AUTOINCREMENT hands out.
   */
  datatype Store = Store(tasks: map<int, TaskEntity>, sessions: map<int, SessionRecord>, categories: set<int>,
                         nextSessionId: int)

  /**
   * Every task is stored under its own id, every session id was handed out
   * already, and both foreign keys hold: each session belongs to a stored
   * task and each task's category is a stored category.
   */
  predicate Valid(s: Store)
  {
    && (forall id :: id in s.tasks ==> s.tasks[id].id == id)
    && (forall id :: id in s.sessions ==> id < s.nextSessionId)
    && (forall id :: id in s.sessions ==> s.sessions[id].taskId in s.tasks)
    && (forall id :: id in s.tasks && s.tasks[id].categoryId.Some? ==> s.tasks[id].categoryId.value in s.categories)
  }

  /** Open sessions have no end time and closed ones have one. */
  predicate Consistent(r: SessionRecord)
  {
    r.state == StateName(Stopped) <==> r.endTime.Some?
  }

  /** A write either succeeds or is rejected by a foreign key, which the facade lets propagate. */
  datatype Result<T> = Success(value: T) | ForeignKeyViolation

  // ----- repository operations the facade calls -----

  /** SessionRepository.InsertSessionAsync: a new row under a fresh id; a missing task violates Sessions.TaskId. */
  function InsertSession(s: Store, taskId: int, startTime: int, notes: Option<string>, state: string): (r: Result<(int, Store)>)
    requires Valid(s)
    ensures r.ForeignKeyViolation? <==> taskId !in s.tasks
    ensures r.Success? ==> Valid(r.value.1) && r.value.0 !in s.sessions
    ensures r.Success? ==> r.value.1.sessions == s.sessions[r.value.0 := SessionRecord(taskId, startTime, None, notes, state)]
    ensures r.Success? ==> r.value.1.tasks == s.tasks && r.value.1.categories == s.categories
  {
    if taskId !in s.tasks then ForeignKeyViolation
    else
      var id := s.nextSessionId;
      Success((id, s.(sessions := s.sessions[id := SessionRecord(taskId, startTime, None, notes, state)], nextSessionId := id + 1)))
  }

  /** SessionRepository.UpdateSessionAsync: end time and state written; notes replaced only by non-empty notes. */
  function UpdateSession(s: Store, id: int, endTime: int, notes: Option<string>, state: string): (r: Store)
    ensures id !in s.sessions ==> r == s
    ensures id in s.sessions ==> r == s.(sessions := s.sessions[id := s.sessions[id].(
      endTime := Some(endTime), notes := if notes.Some? && notes.value != "" then notes else s.sessions[id].notes,
      state := state)])
  {
    if id in s.sessions then
      var row := s.sessions[id];
      var notes' := if notes.Some? && notes.value != "" then notes else row.notes;
      s.(sessions := s.sessions[id := row.(endTime := Some(endTime), notes := notes', state := state)])
    else s
  }

  /** SessionRepository.UpdateSessionStateAsync: only the state is written. */
  function UpdateSessionState(s: Store, id: int, state: string): (r: Store)
    ensures id !in s.sessions ==> r == s
    ensures id in s.sessions ==> r == s.(sessions := s.sessions[id := s.sessions[id].(state := state)])
  {
    if id in s.sessions then s.(sessions := s.sessions[id := s.sessions[id].(state := state)]) else s
  }

  // ----- facade: sessions -----

  /**
   * StartSessionAsync: inserts an open session, Running unless another state
   * is passed; a session for a task that does not exist is rejected.
   */
  function StartSessionAsync(s: Store, taskId: int, startTime: int, notes: Option<string> := None,
                             state: SessionState := Running): (r: Result<(int, Store)>)
    requires Valid(s)
    ensures r.ForeignKeyViolation? <==> taskId !in s.tasks
    ensures r.Success? ==>
      var (id, s') := r.value;
      && Valid(s') && id !in s.sessions && s'.tasks == s.tasks && s'.categories == s.categories
      && s'.sessions.Keys == s.sessions.Keys + {id}
      && (forall other :: other in s.sessions ==> s'.sessions[other] == s.sessions[other])
      && var row := s'.sessions[id];
        row.taskId == taskId && row.startTime == startTime && row.endTime == None &&
        row.notes == notes && ParseState(row.state) == Some(state)
  {
    InsertSession(s, taskId, startTime, notes, StateName(state))
  }

  /** EndSessionAsync: writes the end time and Stopped; a missing session is left alone. */
  function EndSessionAsync(s: Store, sessionId: int, endTime: int, notes: Option<string> := None): (r: Store)
    ensures (Valid(s) ==> Valid(r)) && r.tasks == s.tasks && r.categories == s.categories
    ensures r.sessions.Keys == s.sessions.Keys
    ensures sessionId !in s.sessions ==> r == s
    ensures forall id :: id in s.sessions && id != sessionId ==> r.sessions[id] == s.sessions[id]
    ensures sessionId in s.sessions ==>
      var row := r.sessions[sessionId];
      ParseState(row.state) == Some(Stopped) && row.endTime == Some(endTime) && Consistent(row) &&
      row.taskId == s.sessions[sessionId].taskId && row.startTime == s.sessions[sessionId].startTime &&
      row.notes == (if notes.Some? && notes.value != "" then notes else s.sessions[sessionId].notes)
  {
    UpdateSession(s, sessionId, endTime, notes, StateName(Stopped))
  }

  /** PauseSessionAsync: writes Paused and nothing else. */
  function PauseSessionAsync(s: Store, sessionId: int): (r: Store)
    ensures (Valid(s) ==> Valid(r)) && r.tasks == s.tasks && r.categories == s.categories
    ensures r.sessions.Keys == s.sessions.Keys
    ensures sessionId !in s.sessions ==> r == s
    ensures forall id :: id in s.sessions && id != sessionId ==> r.sessions[id] == s.sessions[id]
    ensures sessionId in s.sessions ==>
      r.sessions[sessionId] == s.sessions[sessionId].(state := "Paused") &&
      ParseState(r.sessions[sessionId].state) == Some(Paused)
  {
    UpdateSessionState(s, sessionId, StateName(Paused))
  }

  /** ResumeSessionAsync: writes Running and nothing else. */
  function ResumeSessionAsync(s: Store, sessionId: int): (r: Store)
    ensures (Valid(s) ==> Valid(r)) && r.tasks == s.tasks && r.categories == s.categories
    ensures r.sessions.Keys == s.sessions.Keys
    ensures sessionId !in s.sessions ==> r == s
    ensures forall id :: id in s.sessions && id != sessionId ==> r.sessions[id] == s.sessions[id]
    ensures sessionId in s.sessions ==>
      r.sessions[sessionId] == s.sessions[sessionId].(state := "Running") &&
      ParseState(r.sessions[sessionId].state) == Some(Running)
  {
    UpdateSessionState(s, sessionId, StateName(Running))
  }

  /** Pausing a running session and resuming it gives back the store as it was. */
  lemma PauseThenResumeRestores(s: Store, sessionId: int)
    requires Valid(s) && sessionId in s.sessions && s.sessions[sessionId].state == StateName(Running)
    ensures ResumeSessionAsync(PauseSessionAsync(s, sessionId), sessionId) == s
  {
    var p := PauseSessionAsync(s, sessionId);
    var r := ResumeSessionAsync(p, sessionId);
    assert r.sessions == s.sessions;
  }

  /**
   * Start, pause, resume and end one session of an existing task: each call
   * writes the state named (Running, Paused, Running, Stopped); the row ends
   * closed and consistent with its start kept; every other row is as before.
   */
  lemma SessionLifecycle(s: Store, taskId: int, t0: int, t1: int, notes: Option<string>)
    requires Valid(s) && taskId in s.tasks
    ensures StartSessionAsync(s, taskId, t0, notes).Success?
    ensures var (id, s1) := StartSessionAsync(s, taskId, t0, notes).value;
      var s2 := PauseSessionAsync(s1, id);
      var s3 := ResumeSessionAsync(s2, id);
      var s4 := EndSessionAsync(s3, id, t1);
      && Consistent(s1.sessions[id]) && ParseState(s1.sessions[id].state) == Some(Running)
      && Consistent(s2.sessions[id]) && ParseState(s2.sessions[id].state) == Some(Paused)
      && Consistent(s3.sessions[id]) && ParseState(s3.sessions[id].state) == Some(Running)
      && Consistent(s4.sessions[id]) && ParseState(s4.sessions[id].state) == Some(Stopped)
      && s4.sessions[id] == SessionRecord(taskId, t0, Some(t1), notes, "Stopped")
      && s4.tasks == s.tasks && Valid(s4)
      && (forall other :: other in s.sessions ==> other in s4.sessions && s4.sessions[other] == s.sessions[other])
  {
    var (id, s1) := StartSessionAsync(s, taskId, t0, notes).value;
    var s2 := PauseSessionAsync(s1, id);
    var s3 := ResumeSessionAsync(s2, id);
    assert s3.sessions[id] == s1.sessions[id];
  }

  /** No session can be started for a task that is not stored: the store is left as it was. */
  lemma OrphanSessionRejected(s: Store, taskId: int, t0: int, notes: Option<string>, state: SessionState)
    requires Valid(s) && taskId !in s.tasks
    ensures StartSessionAsync(s, taskId, t0, notes, state) == ForeignKeyViolation
  {
  }

  // ----- facade: tasks and tags -----

  /**
   * UpdateTaskCategoryAsync: sets the category of an existing task; a
   * missing task is a no-op; a category that is not stored violates
   * Tasks.CategoryId and the update is rejected.
   */
  function UpdateTaskCategoryAsync(s: Store, taskId: int, categoryId: Option<int>): (r: Result<Store>)
    ensures r.ForeignKeyViolation? <==> taskId in s.tasks && categoryId.Some? && categoryId.value !in s.categories
    ensures r.Success? ==>
      && (Valid(s) ==> Valid(r.value))
      && r.value.sessions == s.sessions && r.value.categories == s.categories && r.value.tasks.Keys == s.tasks.Keys
      && (taskId !in s.tasks ==> r.value == s)
      && (taskId in s.tasks ==> r.value.tasks[taskId] == s.tasks[taskId].(categoryId := categoryId))
      && (forall id :: id in s.tasks && id != taskId ==> r.value.tasks[id] == s.tasks[id])
  {
    if taskId !in s.tasks then Success(s)
    else if categoryId.Some? && categoryId.value !in s.categories then ForeignKeyViolation
    else Success(s.(tasks := s.tasks[taskId := s.tasks[taskId].(categoryId := categoryId)]))
  }

  /** UpdateTaskTagsAsync: replaces the tag list of an existing task; a missing task is a no-op. */
  function UpdateTaskTagsAsync(s: Store, taskId: int, tags: seq<string>): (r: Store)
    ensures (Valid(s) ==> Valid(r)) && r.sessions == s.sessions && r.categories == s.categories
    ensures r.tasks.Keys == s.tasks.Keys
    ensures taskId !in s.tasks ==> r == s
    ensures taskId in s.tasks ==> r.tasks[taskId] == s.tasks[taskId].(tags := Some(tags))
    ensures forall id :: id in s.tasks && id != taskId ==> r.tasks[id] == s.tasks[id]
  {
    if taskId in s.tasks then s.(tasks := s.tasks[taskId := s.tasks[taskId].(tags := Some(tags))]) else s
  }

  /** GetTagsForTaskAsync: the task's tags, or an empty list for a missing task or null tags. */
  function GetTagsForTaskAsync(s: Store, taskId: int): (tags: seq<string>)
    ensures taskId !in s.tasks || s.tasks[taskId].tags.None? ==> tags == []
    ensures taskId in s.tasks && s.tasks[taskId].tags.Some? ==> tags == s.tasks[taskId].tags.value
  {
    if taskId in s.tasks && s.tasks[taskId].tags.Some? then s.tasks[taskId].tags.value else []
  }

  /** Tags written are the tags read back; for a missing task nothing is written and nothing is read. */
  lemma TagsRoundTrip(s: Store, taskId: int, tags: seq<string>)
    requires Valid(s)
    ensures GetTagsForTaskAsync(UpdateTaskTagsAsync(s, taskId, tags), taskId) == (if taskId in s.tasks then tags else [])
  {
  }

  /** A category change that succeeds leaves every task's tags alone, and setting it twice is setting it once. */
  lemma CategoryUpdateKeepsTags(s: Store, taskId: int, categoryId: Option<int>, other: int)
    requires Valid(s)
    ensures var r := UpdateTaskCategoryAsync(s, taskId, categoryId);
      r.Success? ==>
        GetTagsForTaskAsync(r.value, other) == GetTagsForTaskAsync(s, other) &&
        UpdateTaskCategoryAsync(r.value, taskId, categoryId) == r
  {
    var r := UpdateTaskCategoryAsync(s, taskId, categoryId);
    if r.Success? && taskId in s.tasks {
      var t := r.value.tasks;
      assert t[taskId := t[taskId].(categoryId := categoryId)] == t;
    }
  }

  /** GetTasksByCompletionAsync: the tasks whose IsComplete matches, in their original order. */
  function GetTasksByCompletionAsync(all: seq<TaskEntity>, isComplete: bool): (r: seq<TaskEntity>)
    ensures |r| <= |all|
    ensures forall t :: t in r <==> t in all && t.isComplete == isComplete
    ensures forall t :: multiset(r)[t] == (if t.isComplete == isComplete then multiset(all)[t] else 0)
  {
    if all == [] then []
    else
      var rest := GetTasksByCompletionAsync(all[1..], isComplete);
      assert all == [all[0]] + all[1..];
      if all[0].isComplete == isComplete then [all[0]] + rest else rest
  }

  /** Every task is either complete or not: the two filters split the list. */
  lemma {:induction false} CompletionFiltersPartition(all: seq<TaskEntity>)
    ensures multiset(GetTasksByCompletionAsync(all, true)) + multiset(GetTasksByCompletionAsync(all, false)) == multiset(all)
    ensures |GetTasksByCompletionAsync(all, true)| + |GetTasksByCompletionAsync(all, false)| == |all|
  {
    if all != [] {
      CompletionFiltersPartition(all[1..]);
      assert all == [all[0]] + all[1..];
    }
  }

  /** The filter keeps the tasks in their original order: filtering a concatenation filters each part. */
  lemma {:induction false} CompletionFilterKeepsOrder(a: seq<TaskEntity>, b: seq<TaskEntity>, isComplete: bool)
    ensures GetTasksByCompletionAsync(a + b, isComplete) ==
            GetTasksByCompletionAsync(a, isComplete) + GetTasksByCompletionAsync(b, isComplete)
  {
    if a == [] {
      assert a + b == b;
    } else {
      assert (a + b)[0] == a[0];
      assert (a + b)[1..] == a[1..] + b;
      CompletionFilterKeepsOrder(a[1..], b, isComplete);
    }
  }

  // ----- facade: the session table of a task -----

  /** A Session as the repository returns it: times and duration are opaque values formatted by the caller. */
  datatype Session = Session(startTime: int, endTime: Option<int>, duration: Option<int>, notes: Option<string>)

  /** A row of the DataTable with columns Start Time, End Time, Duration and Notes. */
  datatype SessionRow = SessionRow(startTime: string, endTime: string, duration: string, notes: string)

  const InProgress: string := "In Progress"

  /** The row of one session; `formatTime` is ToString("g") and `formatDuration` ToString(@"hh\:mm\:ss"). */
  function RenderSession(s: Session, formatTime: int -> string, formatDuration: int -> string): (row: SessionRow)
    ensures row.startTime == formatTime(s.startTime)
    ensures s.endTime.None? ==> row.endTime == InProgress
    ensures s.endTime.Some? ==> row.endTime == formatTime(s.endTime.value)
    ensures s.duration.None? ==> row.duration == InProgress
    ensures s.duration.Some? ==> row.duration == formatDuration(s.duration.value)
    ensures s.notes.None? ==> row.notes == ""
    ensures s.notes.Some? ==> row.notes == s.notes.value
  {
    SessionRow(
      formatTime(s.startTime),
      if s.endTime.Some? then formatTime(s.endTime.value) else InProgress,
      if s.duration.Some? then formatDuration(s.duration.value) else InProgress,
      s.notes.GetOr(""))
  }

  /**
   * GetSessionsForTaskAsync: one row per session the repository returned,
   * in the same order.
   */
  method GetSessionsForTaskAsync(sessions: seq<Session>, formatTime: int -> string, formatDuration: int -> string)
    returns (table: seq<SessionRow>)
    ensures |table| == |sessions|
    ensures forall i :: 0 <= i < |sessions| ==> table[i] == RenderSession(sessions[i], formatTime, formatDuration)
  {
    table := [];
    for i := 0 to |sessions|
      invariant |table| == i
      invariant forall j :: 0 <= j < i ==> table[j] == RenderSession(sessions[j], formatTime, formatDuration)
    {
      var row := RenderSession(sessions[i], formatTime, formatDuration);
      table := table + [row];
    }
  }

  /** An open session shows "In Progress" for both its end time and its duration. */
  lemma OpenSessionInProgress(s: Session, formatTime: int -> string, formatDuration: int -> string)
    requires s.endTime.None? && s.duration.None?
    ensures RenderSession(s, formatTime, formatDuration).endTime == InProgress
    ensures RenderSession(s, formatTime, formatDuration).duration == InProgress
  {
  }
}
