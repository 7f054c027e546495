/** `TaskProcessor`: turns one due scheduled task into a task, resolves its
    board, marks it processed or failed, creates the next occurrence of a
    recurring task and writes a best-effort audit entry.

    The unit of work is all-or-nothing. Exceptions are injected through a
    `Fault` naming the statement that raises; a fault at a statement the
    run does not reach has no effect. Clock readings are injected too. */
module Services {
  import opened Common
  import opened TaskModels

  /* ------------------------------------------------------- board lookup */

  /** The order of `Board.Meta.ordering = ["name"]`: code-point
      lexicographic order on names. */
  predicate NameLe(a: string, b: string)
    decreases |a|
  {
    |a| == 0 || (|b| > 0 && (a[0] < b[0] || (a[0] == b[0] && NameLe(a[1..], b[1..]))))
  }

  lemma {:induction false} NameLeTotal(a: string, b: string)
    ensures NameLe(a, b) || NameLe(b, a)
    decreases |a|
  {
    if |a| > 0 && |b| > 0 && a[0] == b[0] {
      NameLeTotal(a[1..], b[1..]);
    }
  }

  lemma {:induction false} NameLeTrans(a: string, b: string, c: string)
    requires NameLe(a, b) && NameLe(b, c)
    ensures NameLe(a, c)
    decreases |a|
  {
    if |a| > 0 && a[0] == b[0] && b[0] == c[0] {
      NameLeTrans(a[1..], b[1..], c[1..]);
    }
  }

  predicate OwnsNoBoard(boards: seq<Board>, user: UserId) {
    forall i :: 0 <= i < |boards| ==> boards[i].createdBy != user
  }

  /** `Board.objects.filter(created_by=user).first()` over the first `n`
      boards: the user's board whose name comes first; among equal names
      the oldest row. */
  function FirstBoardIn(boards: seq<Board>, user: UserId, n: nat): (r: Option<BoardId>)
    requires n <= |boards|
    ensures r.None? <==> forall i :: 0 <= i < n ==> boards[i].createdBy != user
    ensures r.Some? ==> r.value < n && boards[r.value].createdBy == user
    ensures r.Some? ==> forall i :: 0 <= i < n && boards[i].createdBy == user ==> NameLe(boards[r.value].name, boards[i].name)
  {
    if n == 0 then None
    else
      var prev := FirstBoardIn(boards, user, n - 1);
      if boards[n - 1].createdBy != user then prev
      else if prev.Some? && NameLe(boards[prev.value].name, boards[n - 1].name) then prev
      else
        assert prev.Some? ==> NameLe(boards[n - 1].name, boards[prev.value].name) by {
          if prev.Some? { NameLeTotal(boards[n - 1].name, boards[prev.value].name); }
        }
        assert forall i :: 0 <= i < n - 1 && boards[i].createdBy == user ==> NameLe(boards[n - 1].name, boards[i].name) by {
          forall i | 0 <= i < n - 1 && boards[i].createdBy == user
            ensures NameLe(boards[n - 1].name, boards[i].name)
          {
            NameLeTrans(boards[n - 1].name, boards[prev.value].name, boards[i].name);
          }
        }
        assert NameLe(boards[n - 1].name, boards[n - 1].name) by { NameLeTotal(boards[n - 1].name, boards[n - 1].name); }
        Some(n - 1)
  }

  const DEFAULT_BOARD_NAME: string := "Default Board"
  const DEFAULT_BOARD_DESCRIPTION: string := "Default board for scheduled tasks"

  function DefaultBoard(user: UserId, now: Instant): Board {
    Board(DEFAULT_BOARD_NAME, DEFAULT_BOARD_DESCRIPTION, user, now)
  }

  /** Board resolution: the scheduled task's own board; otherwise the
      creator's first board by name; otherwise a new "Default Board" for the
      creator, appended to the boards. Returns the boards and the chosen id. */
  function ResolveBoard(boards: seq<Board>, s: ScheduledTask, now: Instant): (r: (seq<Board>, BoardId))
    requires s.board.Some? ==> s.board.value < |boards|
    ensures r.1 < |r.0|
    ensures s.board.Some? ==> r == (boards, s.board.value)
    ensures s.board.None? ==> r.0[r.1].createdBy == s.createdBy
    ensures s.board.None? ==> forall i :: 0 <= i < |boards| && boards[i].createdBy == s.createdBy ==> NameLe(r.0[r.1].name, boards[i].name)
    ensures !(s.board.None? && OwnsNoBoard(boards, s.createdBy)) ==> r.0 == boards
    ensures s.board.None? && OwnsNoBoard(boards, s.createdBy) ==>
      r.0 == boards + [DefaultBoard(s.createdBy, now)] && r.1 == |boards|
  {
    if s.board.Some? then (boards, s.board.value)
    else
      var first := FirstBoardIn(boards, s.createdBy, |boards|);
      if first.Some? then (boards, first.value)
      else (boards + [DefaultBoard(s.createdBy, now)], |boards|)
  }

  /** Once the creator owns a board, falling back again for any scheduled
      task of the same creator reuses an existing board: no second
      "Default Board" is ever created. */
  lemma FallbackBoardReused(boards: seq<Board>, s: ScheduledTask, s2: ScheduledTask, now: Instant, now2: Instant)
    requires s.board.None? && s2.board.None? && s2.createdBy == s.createdBy
    ensures ResolveBoard(ResolveBoard(boards, s, now).0, s2, now2).0 == ResolveBoard(boards, s, now).0
  {
    var r := ResolveBoard(boards, s, now);
    assert r.0[r.1].createdBy == s2.createdBy;
    assert !OwnsNoBoard(r.0, s2.createdBy);
  }

  /* --------------------------------------------------------- recurrence */

  /** `calculate_next_scheduled_time`: nothing for ONCE; otherwise the
      processing clock plus one day, one week or thirty days. */
  function NextScheduledTime(p: Recurrence, now: Instant): (r: Option<Instant>)
    ensures r.None? <==> p == Once
    ensures r.Some? ==> r.value >= now + DAY
  {
    match p
    case Once => None
    case Daily => Some(now + DAY)
    case Weekly => Some(now + WEEK)
    case Monthly => Some(now + 30 * DAY)
  }

  /** The intervals in seconds; MONTHLY is thirty days whatever the
      calendar month. */
  lemma RecurrenceIntervals(now: Instant)
    ensures NextScheduledTime(Daily, now) == Some(now + 86400)
    ensures NextScheduledTime(Weekly, now) == Some(now + 604800)
    ensures NextScheduledTime(Monthly, now) == Some(now + 2592000)
    ensures NextScheduledTime(Once, now) == None
  {
  }

  /** The next time is measured from the processing clock: a run delayed by
      `d` pushes the next occurrence back by the same `d`. */
  lemma RecurrenceDrifts(p: Recurrence, now: Instant, d: int)
    requires p != Once
    ensures NextScheduledTime(p, now + d).value == NextScheduledTime(p, now).value + d
  {
  }

  /* ------------------------------------------------------- row builders */

  /** The task materialised from a scheduled task on a resolved board, as
      `Task.objects.create` stores it (which runs `Task.save`). */
  function MaterializedTask(s: ScheduledTask, board: BoardId, now: Instant): (t: Task)
    ensures t.title == s.title && t.description == s.description
    ensures StatusCode(t.status) == ScheduledStatusCode(s.status)
    ensures t.priority == s.priority && t.createdBy == s.createdBy && t.dueDate == s.dueDate
    ensures t.board == board
    ensures t.assignees == s.assignees
    ensures t.completedAt.Some? <==> s.status == SchedCompleted
  {
    SaveTask(Task(s.title, s.description, AsTaskStatus(s.status), s.priority, board,
                  s.createdBy, s.assignees, s.dueDate, None, now), now)
  }

  /** The next occurrence of a recurring scheduled task. */
  function Successor(s: ScheduledTask, board: BoardId, next: Instant, now: Instant): (n: ScheduledTask)
    ensures n.processing == Unprocessed && n.failureReason.None? && n.processedAt.None?
    ensures n.board == Some(board) && n.scheduledTime == next
    ensures n.(board := s.board, scheduledTime := s.scheduledTime, processing := s.processing,
               failureReason := s.failureReason, processedAt := s.processedAt, createdAt := s.createdAt) == s
  {
    ScheduledTask(s.title, s.description, s.status, s.priority, Some(board), s.createdBy,
                  s.assignees, s.dueDate, next, s.recurrence, Unprocessed, None, now, None)
  }

  /** Lines 108-110: the in-memory scheduled task after marking it processed. */
  function MarkProcessed(s: ScheduledTask, now: Instant): (m: ScheduledTask)
    ensures m.processing == Processed && m.failureReason.None? && m.processedAt == Some(now)
    ensures m.(processing := s.processing, failureReason := s.failureReason, processedAt := s.processedAt) == s
  {
    s.(processing := Processed, failureReason := None, processedAt := Some(now))
  }

  /* ------------------------------------------------------------- faults */

  /** The statements inside the atomic unit that may raise. */
  datatype Step =
    | LookupBoard      // the fallback board query (line 82)
    | CreateBoard      // creating the "Default Board" (line 86)
    | CreateTask       // Task.objects.create (line 93)
    | AssignTask       // copying assignees to the task (line 105)
    | CreateSuccessor  // ScheduledTask.objects.create (line 118)
    | AssignSuccessor  // copying assignees to the successor (line 132)
    | SaveScheduled    // scheduled.save() (line 137)

  datatype Fault = NoFault | FailAt(step: Step, message: string)

  /** What the outside world does during one item: the clock at line 110
      (also used for new rows' creation times), the clock at line 52, the
      exception raised inside the unit if any, whether the audit write
      raises, and whether the save of the FAILED status raises. */
  datatype ItemEnv = ItemEnv(stamp: Instant, recurrenceNow: Instant, fault: Fault,
                             auditFails: bool, failureSaveFails: bool)

  /** Whether a statement is reached in a fault-free run. */
  predicate Executes(step: Step, st: Store, s: ScheduledTask) {
    match step
    case LookupBoard => s.board.None?
    case CreateBoard => s.board.None? && OwnsNoBoard(st.boards, s.createdBy)
    case CreateTask => true
    case AssignTask => s.assignees != {}
    case CreateSuccessor => s.recurrence != Once
    case AssignSuccessor => s.recurrence != Once && s.assignees != {}
    case SaveScheduled => true
  }

  /** The injected fault is raised: it names a statement that is reached. */
  predicate Fires(f: Fault, st: Store, s: ScheduledTask) {
    f.FailAt? && Executes(f.step, st, s)
  }

  /** Statements after line 110, by which time the in-memory row is already
      marked processed. */
  predicate AfterMarking(step: Step) {
    step == CreateSuccessor || step == AssignSuccessor || step == SaveScheduled
  }

  /** Lines 162-163 applied to the in-memory row as the failing statement
      left it: marks set at lines 108-110 are not undone, so a late failure
      keeps `processed_at`. */
  function MarkFailed(s: ScheduledTask, step: Step, msg: string, now: Instant): (m: ScheduledTask)
    ensures m.processing == Failed && m.failureReason == Some(msg)
    ensures m.processedAt == if AfterMarking(step) then Some(now) else s.processedAt
    ensures m.(processing := s.processing, failureReason := s.failureReason, processedAt := s.processedAt) == s
  {
    var inMemory := if AfterMarking(step) then MarkProcessed(s, now) else s;
    inMemory.(processing := Failed, failureReason := Some(msg))
  }

  /* -------------------------------------------------------- the process */

  /** The audit entry of lines 141-153. */
  function AuditEntry(s: ScheduledTask, id: ScheduledId, task: TaskId, board: BoardId,
                      boardName: string, now: Instant): AuditLog {
    AuditLog(Some(s.createdBy), TaskCreated,
             "Task '" + s.title + "' created from scheduled task",
             map["task_id" := Ref(task), "scheduled_task_id" := Ref(id), "title" := Str(s.title),
                 "board_id" := Ref(board), "board_name" := Str(boardName), "from_scheduled" := Bool(true)],
             None, "", now)
  }

  /** The result of `process_scheduled_task`: the tables afterwards and the
      pair `(success, error_message)`. */
  datatype Outcome = Outcome(store: Store, success: bool, error: Option<string>)

  /** Tables only grow: no row is deleted by processing. */
  predicate Grows(st: Store, st': Store) {
    && |st'.boards| >= |st.boards| && st'.boards[..|st.boards|] == st.boards
    && |st'.tasks| >= |st.tasks|
    && |st'.scheduled| >= |st.scheduled|
  }

  /** `process_scheduled_task(scheduled)` for the row `id`, whose in-memory
      copy is `s`. */
  function ProcessScheduledTask(st: Store, id: ScheduledId, s: ScheduledTask, env: ItemEnv): (r: Outcome)
    requires Valid(st) && id < |st.scheduled| && BoardRefOk(st, s)
    ensures Valid(r.store) && Grows(st, r.store)
    ensures forall i :: 0 <= i < |st.scheduled| && i != id ==> r.store.scheduled[i] == st.scheduled[i]
    ensures r.success <==> !Fires(env.fault, st, s)
    ensures r.success <==> r.error.None?
    // failure: nothing of the attempt survives except the FAILED status
    ensures !r.success ==>
      && r.error == Some(env.fault.message)
      && r.store.boards == st.boards && r.store.tasks == st.tasks && r.store.audit == st.audit
      && |r.store.scheduled| == |st.scheduled|
      && r.store.scheduled[id] == if env.failureSaveFails then st.scheduled[id]
                                  else MarkFailed(s, env.fault.step, env.fault.message, env.stamp)
    // success
    ensures r.success ==>
      var (boards, b) := ResolveBoard(st.boards, s, env.stamp);
      && r.store.boards == boards
      && r.store.tasks == st.tasks + [MaterializedTask(s, b, env.stamp)]
      && r.store.scheduled[id] == MarkProcessed(s, env.stamp)
      && (s.recurrence == Once ==> |r.store.scheduled| == |st.scheduled|)
      && (s.recurrence != Once ==>
            |r.store.scheduled| == |st.scheduled| + 1
            && r.store.scheduled[|st.scheduled|]
               == Successor(s, b, NextScheduledTime(s.recurrence, env.recurrenceNow).value, env.stamp))
      && (env.auditFails ==> r.store.audit == st.audit)
      && (!env.auditFails ==> r.store.audit == st.audit + [AuditEntry(s, id, |st.tasks|, b, boards[b].name, env.stamp)])
  {
    if Fires(env.fault, st, s) then
      Outcome(RolledBack(st, id, s, env), false, Some(env.fault.message))
    else
      Outcome(Committed(st, id, s, env), true, None)
  }

  /** The failure path: the atomic unit is rolled back and only the FAILED
      status of the row is written, unless that write raises too. */
  function RolledBack(st: Store, id: ScheduledId, s: ScheduledTask, env: ItemEnv): (st': Store)
    requires Valid(st) && id < |st.scheduled| && BoardRefOk(st, s) && env.fault.FailAt?
    ensures Valid(st') && Grows(st, st')
    ensures st'.boards == st.boards && st'.tasks == st.tasks && st'.audit == st.audit
    ensures |st'.scheduled| == |st.scheduled|
    ensures forall i :: 0 <= i < |st.scheduled| && i != id ==> st'.scheduled[i] == st.scheduled[i]
    ensures st'.scheduled[id] == if env.failureSaveFails then st.scheduled[id]
                                 else MarkFailed(s, env.fault.step, env.fault.message, env.stamp)
  {
    var rows := if env.failureSaveFails then st.scheduled
                else st.scheduled[id := MarkFailed(s, env.fault.step, env.fault.message, env.stamp)];
    var st' := st.(scheduled := rows);
    assert Valid(st') by {
      assert forall i :: 0 <= i < |rows| ==> rows[i] == st.scheduled[i] || rows[i].board == s.board;
    }
    st'
  }

  /** The success path: the unit commits. */
  function Committed(st: Store, id: ScheduledId, s: ScheduledTask, env: ItemEnv): (st': Store)
    requires Valid(st) && id < |st.scheduled| && BoardRefOk(st, s)
    ensures Valid(st') && Grows(st, st')
    ensures forall i :: 0 <= i < |st.scheduled| && i != id ==> st'.scheduled[i] == st.scheduled[i]
    ensures
      var (boards, b) := ResolveBoard(st.boards, s, env.stamp);
      && st'.boards == boards
      && st'.tasks == st.tasks + [MaterializedTask(s, b, env.stamp)]
      && st'.scheduled[id] == MarkProcessed(s, env.stamp)
      && (s.recurrence == Once ==> |st'.scheduled| == |st.scheduled|)
      && (s.recurrence != Once ==>
            |st'.scheduled| == |st.scheduled| + 1
            && st'.scheduled[|st.scheduled|]
               == Successor(s, b, NextScheduledTime(s.recurrence, env.recurrenceNow).value, env.stamp))
      && (env.auditFails ==> st'.audit == st.audit)
      && (!env.auditFails ==> st'.audit == st.audit + [AuditEntry(s, id, |st.tasks|, b, boards[b].name, env.stamp)])
  {
    var (boards, b) := ResolveBoard(st.boards, s, env.stamp);
    var task := MaterializedTask(s, b, env.stamp);
    var next := NextScheduledTime(s.recurrence, env.recurrenceNow);
    var succ := if next.Some? then [Successor(s, b, next.value, env.stamp)] else [];
    var rows := st.scheduled[id := MarkProcessed(s, env.stamp)] + succ;
    var entry := AuditEntry(s, id, |st.tasks|, b, boards[b].name, env.stamp);
    var audit := if env.auditFails then st.audit else st.audit + [entry];
    var st' := Store(boards, st.tasks + [task], rows, audit);
    assert Store(boards, [], [], []).boards == boards;
    assert BoardRefOk(Store(boards, [], [], []), MarkProcessed(s, env.stamp));
    ValidAfterCommit(st, boards, task, id, MarkProcessed(s, env.stamp), succ, audit);
    st'
  }

  lemma ValidAfterCommit(st: Store, boards: seq<Board>, task: Task, id: ScheduledId, row: ScheduledTask,
                         succ: seq<ScheduledTask>, audit: seq<AuditLog>)
    requires Valid(st) && id < |st.scheduled| && |boards| >= |st.boards|
    requires task.board < |boards|
    requires row.board.Some? ==> row.board.value < |boards|
    requires forall i :: 0 <= i < |succ| ==> succ[i].board.Some? ==> succ[i].board.value < |boards|
    ensures Valid(Store(boards, st.tasks + [task], st.scheduled[id := row] + succ, audit))
  {
    var st' := Store(boards, st.tasks + [task], st.scheduled[id := row] + succ, audit);
    forall i | 0 <= i < |st'.tasks| ensures st'.tasks[i].board < |boards| {
      if i < |st.tasks| { assert st'.tasks[i] == st.tasks[i]; }
    }
    forall i | 0 <= i < |st'.scheduled| ensures BoardRefOk(st', st'.scheduled[i]) {
      if i < |st.scheduled| {
        if i != id { assert st'.scheduled[i] == st.scheduled[i]; assert BoardRefOk(st, st.scheduled[i]); }
      } else {
        assert st'.scheduled[i] == succ[i - |st.scheduled|];
      }
    }
  }

  /** A failing audit write is swallowed: with or without it, the result,
      the error, and every table but the audit log are the same. */
  lemma AuditFailureSwallowed(st: Store, id: ScheduledId, s: ScheduledTask, env: ItemEnv)
    requires Valid(st) && id < |st.scheduled| && BoardRefOk(st, s)
    ensures var a := ProcessScheduledTask(st, id, s, env.(auditFails := true));
            var b := ProcessScheduledTask(st, id, s, env.(auditFails := false));
      && a.success == b.success && a.error == b.error
      && a.store.boards == b.store.boards && a.store.tasks == b.store.tasks
      && a.store.scheduled == b.store.scheduled
  {
  }

  /** A successful run leaves the creator of a board-less scheduled task
      owning a board, so the next board-less task of that creator reuses it
      and the "Default Board" is created at most once. */
  lemma {:induction false} DefaultBoardCreatedOnce(st: Store, id: ScheduledId, s: ScheduledTask, env: ItemEnv,
                                   s2: ScheduledTask, now2: Instant)
    requires Valid(st) && id < |st.scheduled| && BoardRefOk(st, s)
    requires s.board.None? && s2.board.None? && s2.createdBy == s.createdBy
    requires ProcessScheduledTask(st, id, s, env).success
    ensures var st' := ProcessScheduledTask(st, id, s, env).store;
      && !OwnsNoBoard(st'.boards, s.createdBy)
      && ResolveBoard(st'.boards, s2, now2).0 == st'.boards
      && |st'.boards| <= |st.boards| + 1
  {
    var st' := ProcessScheduledTask(st, id, s, env).store;
    FallbackBoardReused(st.boards, s, s2, env.stamp, now2);
    var r := ResolveBoard(st.boards, s, env.stamp);
    assert st'.boards == r.0;
    assert r.0[r.1].createdBy == s.createdBy;
  }

  /** The next occurrence of a recurring task: pending, on the resolved
      board (never a missing one), with the same recurrence and the same,
      unshifted due date, and not due before a day after the processing
      clock. */
  lemma SuccessorShape(st: Store, id: ScheduledId, s: ScheduledTask, env: ItemEnv)
    requires Valid(st) && id < |st.scheduled| && BoardRefOk(st, s)
    requires s.recurrence != Once
    requires ProcessScheduledTask(st, id, s, env).success
    ensures var st' := ProcessScheduledTask(st, id, s, env).store;
            var n := st'.scheduled[|st.scheduled|];
      && ProcessingCode(n.processing) == 0
      && n.recurrence == s.recurrence && n.dueDate == s.dueDate
      && n.board.Some? && n.board.value < |st'.boards|
      && n.board == Some(ResolveBoard(st.boards, s, env.stamp).1)
      && n.scheduledTime >= env.recurrenceNow + DAY
      && n.title == s.title && n.createdBy == s.createdBy && n.assignees == s.assignees
  {
    var st' := ProcessScheduledTask(st, id, s, env).store;
    assert BoardRefOk(st', st'.scheduled[|st.scheduled|]);
  }
}
