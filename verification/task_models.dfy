/** The task manager's tables: boards, tasks, scheduled tasks and audit
    log entries, their enumerations with the codes stored in the database,
    the defaults of a fresh row, `Task.save`'s `completed_at` rule,
    `Task.is_overdue`, and the ordering of scheduled tasks.

    Identifiers (UUIDs in the system) are positions in the tenant's tables;
    users are abstract naturals. */
module TaskModels {
  import opened Common

  type UserId = nat
  type BoardId = nat
  type TaskId = nat
  type ScheduledId = nat

  /* ---------------------------------------------------------------- enums */

  /** `Task.Status`. */
  datatype Status = Pending | InProgress | Completed | Cancelled | OnHold

  function StatusCode(s: Status): string {
    match s
    case Pending => "PENDING"
    case InProgress => "IN_PROGRESS"
    case Completed => "COMPLETED"
    case Cancelled => "CANCELLED"
    case OnHold => "ON_HOLD"
  }

  /** Reads a stored `Task.status` value; `None` for a value outside the choices. */
  function ParseStatus(code: string): Option<Status> {
    if code == "PENDING" then Some(Pending)
    else if code == "IN_PROGRESS" then Some(InProgress)
    else if code == "COMPLETED" then Some(Completed)
    else if code == "CANCELLED" then Some(Cancelled)
    else if code == "ON_HOLD" then Some(OnHold)
    else None
  }

  /** The stored codes of `Task.Status` and its parser are inverse. */
  lemma StatusCodeRoundTrip(s: Status, code: string)
    ensures ParseStatus(StatusCode(s)) == Some(s)
    ensures ParseStatus(code) == Some(s) <==> StatusCode(s) == code
  {
  }

  /** `Task.Priority` and `ScheduledTask.Priority`, which have the same choices. */
  datatype Priority = Low | Medium | High | Urgent

  function PriorityCode(p: Priority): string {
    match p
    case Low => "LOW"
    case Medium => "MEDIUM"
    case High => "HIGH"
    case Urgent => "URGENT"
  }

  /** `ScheduledTask.Status`: a subset of the task statuses. */
  datatype ScheduledStatus = SchedPending | SchedInProgress | SchedCompleted

  function ScheduledStatusCode(s: ScheduledStatus): string {
    match s
    case SchedPending => "PENDING"
    case SchedInProgress => "IN_PROGRESS"
    case SchedCompleted => "COMPLETED"
  }

  /** The task status a scheduled status is copied into: the stored code of
      every scheduled status is a valid `Task.Status` code, and it denotes
      this status. */
  function AsTaskStatus(s: ScheduledStatus): (r: Status)
    ensures ParseStatus(ScheduledStatusCode(s)) == Some(r)
  {
    match s
    case SchedPending => Pending
    case SchedInProgress => InProgress
    case SchedCompleted => Completed
  }

  /** `ScheduledTask.ProcessingStatus`, stored as the integers 0, 1 and 2. */
  datatype ProcessingStatus = Unprocessed | Processed | Failed

  function ProcessingCode(p: ProcessingStatus): int {
    match p
    case Unprocessed => 0
    case Processed => 1
    case Failed => 2
  }

  function ProcessingFromCode(c: int): Option<ProcessingStatus> {
    if c == 0 then Some(Unprocessed)
    else if c == 1 then Some(Processed)
    else if c == 2 then Some(Failed)
    else None
  }

  /** The stored integers and the processing statuses correspond one to
      one; in particular code 0 is exactly the pending status. */
  lemma ProcessingCodeRoundTrip(p: ProcessingStatus, c: int)
    ensures ProcessingFromCode(ProcessingCode(p)) == Some(p)
    ensures ProcessingFromCode(c) == Some(p) <==> ProcessingCode(p) == c
    ensures ProcessingCode(p) == 0 <==> p == Unprocessed
  {
  }

  /** `ScheduledTask.RecurrencePattern`. */
  datatype Recurrence = Once | Daily | Weekly | Monthly

  function RecurrenceCode(r: Recurrence): string {
    match r
    case Once => "ONCE"
    case Daily => "DAILY"
    case Weekly => "WEEKLY"
    case Monthly => "MONTHLY"
  }

  /** `AuditLog.ActionType`. */
  datatype ActionType =
    | TaskCreated | TaskUpdated | TaskDeleted | TaskAssigned | TaskCompleted
    | BoardCreated | BoardUpdated | BoardDeleted | ScheduledTaskCreated

  /* ----------------------------------------------------------------- rows */

  datatype Board = Board(name: string, description: string, createdBy: UserId, createdAt: Instant)

  datatype Task = Task(
    title: string,
    description: string,
    status: Status,
    priority: Priority,
    board: BoardId,
    createdBy: UserId,
    assignees: set<UserId>,
    dueDate: Option<Instant>,
    completedAt: Option<Instant>,
    createdAt: Instant)

  datatype ScheduledTask = ScheduledTask(
    title: string,
    description: string,
    status: ScheduledStatus,
    priority: Priority,
    board: Option<BoardId>,
    createdBy: UserId,
    assignees: set<UserId>,
    dueDate: Option<Instant>,
    scheduledTime: Instant,
    recurrence: Recurrence,
    processing: ProcessingStatus,
    failureReason: Option<string>,
    createdAt: Instant,
    processedAt: Option<Instant>)

  datatype AuditLog = AuditLog(
    user: Option<UserId>,
    action: ActionType,
    description: string,
    metadata: map<string, Value>,
    ipAddress: Option<string>,
    userAgent: string,
    createdAt: Instant)

  /** One tenant's tables; a row's identifier is its position. */
  datatype Store = Store(
    boards: seq<Board>,
    tasks: seq<Task>,
    scheduled: seq<ScheduledTask>,
    audit: seq<AuditLog>)

  /** A scheduled task's board, when it has one, exists in the store. */
  predicate BoardRefOk(st: Store, s: ScheduledTask) {
    s.board.Some? ==> s.board.value < |st.boards|
  }

  /** Referential integrity of the foreign keys to `Board`. */
  predicate Valid(st: Store) {
    && (forall i :: 0 <= i < |st.tasks| ==> st.tasks[i].board < |st.boards|)
    && (forall i :: 0 <= i < |st.scheduled| ==> BoardRefOk(st, st.scheduled[i]))
  }

  /* ------------------------------------------------------------ defaults */

  /** A task created with only its required fields. */
  function NewTask(title: string, description: string, board: BoardId, createdBy: UserId, now: Instant): Task {
    Task(title, description, Pending, Medium, board, createdBy, {}, None, None, now)
  }

  /** A scheduled task created with only its required fields. */
  function NewScheduledTask(title: string, description: string, createdBy: UserId,
                            scheduledTime: Instant, now: Instant): ScheduledTask {
    ScheduledTask(title, description, SchedPending, Medium, None, createdBy, {}, None,
                  scheduledTime, Once, Unprocessed, None, now, None)
  }

  /* ------------------------------------------------------ Task.save rule */

  /** `Task.save`: stamps `completed_at` when a completed task has none and
      clears it for every other status. */
  function SaveTask(t: Task, now: Instant): (r: Task)
    ensures r.completedAt.Some? <==> r.status == Completed
    ensures r.(completedAt := t.completedAt) == t
    ensures t.status == Completed && t.completedAt.Some? ==> r == t
    ensures t.status == Completed && t.completedAt.None? ==> r.completedAt == Some(now)
  {
    if t.status == Completed && t.completedAt.None? then t.(completedAt := Some(now))
    else if t.status != Completed then t.(completedAt := None)
    else t
  }

  /** Saving again changes nothing, whatever the clock says. */
  lemma SaveTaskIdempotent(t: Task, now1: Instant, now2: Instant)
    ensures SaveTask(SaveTask(t, now1), now2) == SaveTask(t, now1)
  {
  }

  /** A freshly created task is pending, of medium priority, unassigned and
      without a completion time once saved. */
  lemma NewTaskDefaults(title: string, description: string, board: BoardId, createdBy: UserId, now: Instant)
    ensures var t := SaveTask(NewTask(title, description, board, createdBy, now), now);
      && t.status == Pending && t.priority == Medium
      && t.assignees == {} && t.completedAt == None && t.dueDate == None
      && t.board == board && t.createdBy == createdBy
  {
  }

  /** A freshly created scheduled task is pending (code 0), runs once and has
      no board, no failure reason and no processing time. */
  lemma NewScheduledTaskDefaults(title: string, description: string, createdBy: UserId,
                                 scheduledTime: Instant, now: Instant)
    ensures var s := NewScheduledTask(title, description, createdBy, scheduledTime, now);
      && ProcessingCode(s.processing) == 0 && s.recurrence == Once
      && s.board == None && s.failureReason == None && s.processedAt == None
      && s.status == SchedPending && s.priority == Medium
  {
  }

  /* ----------------------------------------------------- Task.is_overdue */

  /** `Task.is_overdue`: a due date exists, the task is still open, and the
      clock is strictly past the due date. */
  function IsOverdue(t: Task, now: Instant): bool {
    if t.dueDate.Some? && t.status != Completed && t.status != Cancelled then now > t.dueDate.value
    else false
  }

  /** Overdue is decided by the due date alone: false at the due instant
      itself, true one second later, and it stays true as time passes. */
  lemma OverdueAtDueDate(t: Task, now: Instant, later: Instant)
    requires t.dueDate.Some? && t.status != Completed && t.status != Cancelled
    ensures !IsOverdue(t, t.dueDate.value)
    ensures IsOverdue(t, t.dueDate.value + 1)
    ensures IsOverdue(t, now) && now <= later ==> IsOverdue(t, later)
  {
  }

  /** A task without a due date, a completed task and a cancelled task are
      never overdue. */
  lemma NeverOverdue(t: Task, now: Instant)
    requires t.dueDate.None? || t.status == Completed || t.status == Cancelled
    ensures !IsOverdue(t, now)
  {
  }

  /* ------------------------------------------ ScheduledTask.Meta.ordering */

  /** `ordering = ["scheduled_time", "-created_at"]`: earlier scheduled time
      first, and for equal times the newer row first. */
  predicate Precedes(a: ScheduledTask, b: ScheduledTask) {
    a.scheduledTime < b.scheduledTime
    || (a.scheduledTime == b.scheduledTime && a.createdAt >= b.createdAt)
  }

  /** The ordering is a total preorder: any two rows compare, and it chains. */
  lemma PrecedesTotalPreorder(a: ScheduledTask, b: ScheduledTask, c: ScheduledTask)
    ensures Precedes(a, a)
    ensures Precedes(a, b) || Precedes(b, a)
    ensures Precedes(a, b) && Precedes(b, c) ==> Precedes(a, c)
    ensures Precedes(a, b) && Precedes(b, a) ==> a.scheduledTime == b.scheduledTime && a.createdAt == b.createdAt
  {
  }
}
