/**
 * The guards of the task controller around the engine: creating a task
 * (with the manual approver rows of a `specific` task), forwarding,
 * completing, overriding the status, editing fields, and the "waiting on"
 * and approval-bucket listings.
 *
 * As in ApprovalEngine, every state change is a function from the store
 * before to the outcome and the store after, and a method on `Store` that
 * follows the controller's steps and is proved to have exactly that effect.
 */
module TaskController {
  import opened Entities
  import opened Stores
  import opened ApprovalEngine

  const AdminRole := "admin"

  // ---------------------------------------------------------------------
  // createTask

  /** One `manualApprovers` entry of the request. */
  datatype ManualApprover = ManualApprover(levelOrder: int, approverUserId: Id)

  /**
   * The request body of createTask. `None` is a field left out (or null);
   * `manualApprovers` is None as well when the field is not an array.
   */
  datatype TaskDraft = TaskDraft(
    title: Option<string>,
    description: Option<string>,
    assigneeId: Option<Id>,
    departmentId: Option<Id>,
    amount: Option<int>,
    approvalType: Option<string>,
    approvalTemplateId: Option<Id>,
    manualApprovers: Option<seq<ManualApprover>>)

  /** The three approval types a request may name, by their wire values. */
  function ParseApprovalType(s: string): (r: Option<ApprovalType>)
    ensures r.Some? <==> s in {"360", "specific", "predefined"}
  {
    if s == "360" then Some(ThreeSixty)
    else if s == "specific" then Some(Specific)
    else if s == "predefined" then Some(Predefined)
    else None
  }

  /** `amount ? amount : null`: a falsy amount is stored as null. */
  function StoredAmount(amount: Option<int>): (r: Option<int>)
    ensures r.Some? <==> NonZero(amount)
    ensures r.Some? ==> r == amount
  {
    if NonZero(amount) then amount else None
  }

  /** One pending row per manual entry, in request order. */
  function ManualRows(taskId: Id, entries: seq<ManualApprover>): (r: seq<TaskApprover>)
    ensures |r| == |entries|
    ensures forall i :: 0 <= i < |r| ==>
              r[i] == TaskApprover(taskId, entries[i].levelOrder, entries[i].approverUserId, PendingRow)
  {
    if entries == [] then []
    else
      var e := entries[|entries| - 1];
      ManualRows(taskId, entries[..|entries| - 1]) + [TaskApprover(taskId, e.levelOrder, e.approverUserId, PendingRow)]
  }

  /** The task row createTask inserts. */
  function NewTask(newId: Id, creatorId: Id, draft: TaskDraft, approvalType: ApprovalType): Task
    requires draft.title.Some?
  {
    Task(newId, draft.title.value, draft.description, creatorId, draft.assigneeId, draft.departmentId,
         StoredAmount(draft.amount), approvalType,
         if approvalType == Predefined then draft.approvalTemplateId else None, Open)
  }

  /** The approver rows createTask inserts for the new task. */
  function SeededRows(newId: Id, draft: TaskDraft, approvalType: ApprovalType): seq<TaskApprover> {
    if approvalType == Specific && draft.manualApprovers.Some? then ManualRows(newId, draft.manualApprovers.value)
    else []
  }

  /** `newId` stands for the identifier the database generates for the new row. */
  function Create(db: Db, creatorId: Id, newId: Id, draft: TaskDraft): Step<Task> {
    if !Present(draft.title) || !Present(draft.approvalType) then Step(Err(MissingField("title, approvalType")), db)
    else
      match ParseApprovalType(draft.approvalType.value)
      case None => Step(Err(InvalidApprovalType), db)
      case Some(t) =>
        var task := NewTask(newId, creatorId, draft, t);
        Step(Ok(task), db.(tasks := db.tasks + [task], taskApprovers := db.taskApprovers + SeededRows(newId, draft, t)))
  }

  method CreateTask(store: Store, creatorId: Id, newId: Id, draft: TaskDraft) returns (result: Outcome<Task>)
    modifies store
    ensures Step(result, store.Snapshot()) == Create(old(store.Snapshot()), creatorId, newId, draft)
  {
    if !Present(draft.title) || !Present(draft.approvalType) {
      return Err(MissingField("title, approvalType"));
    }
    var approvalType := ParseApprovalType(draft.approvalType.value);
    if approvalType.None? {
      return Err(InvalidApprovalType);
    }
    var task := NewTask(newId, creatorId, draft, approvalType.value);
    store.tasks := store.tasks + [task];
    if approvalType.value == Specific && draft.manualApprovers.Some? {
      var entries := draft.manualApprovers.value;
      for i := 0 to |entries|
        invariant store.Snapshot() == old(store.Snapshot()).(
          tasks := old(store.tasks) + [task],
          taskApprovers := old(store.taskApprovers) + ManualRows(newId, entries[..i]))
      {
        PrefixSnoc(entries, i);
        store.taskApprovers := store.taskApprovers + [TaskApprover(newId, entries[i].levelOrder, entries[i].approverUserId, PendingRow)];
      }
      PrefixAll(entries);
    }
    result := Ok(task);
  }

  // ---------------------------------------------------------------------
  // forwardTask

  /** The actor may forward: the assignee, or a holder of a pending approver row of the task. */
  predicate MayForward(db: Db, task: Task, actor: Id) {
    task.assigneeId == Some(actor) || FirstPending(db.taskApprovers, task.id, actor).Some?
  }

  function Forward(db: Db, taskId: Id, actor: Id, toUserId: Option<Id>): Step<TaskNode> {
    if !Present(toUserId) then Step(Err(MissingField("toUserId")), db)
    else
      match FindTask(db.tasks, taskId)
      case None => Step(Err(TaskNotFound), db)
      case Some(k) =>
        var task := db.tasks[k];
        if !MayForward(db, task, actor) then Step(Err(Forbidden), db)
        else
          var node := TaskNode(taskId, actor, toUserId.value);
          var status := if task.status == Open then InProgress else task.status;
          Step(Ok(node), db.(
            taskNodes := db.taskNodes + [node],
            tasks := db.tasks[k := task.(assigneeId := Some(toUserId.value), status := status)]))
  }

  method ForwardTask(store: Store, taskId: Id, actor: Id, toUserId: Option<Id>) returns (result: Outcome<TaskNode>)
    modifies store
    ensures Step(result, store.Snapshot()) == Forward(old(store.Snapshot()), taskId, actor, toUserId)
  {
    if !Present(toUserId) {
      return Err(MissingField("toUserId"));
    }
    var k := FindTask(store.tasks, taskId);
    if k.None? {
      return Err(TaskNotFound);
    }
    var task := store.tasks[k.value];
    var isAssignee := task.assigneeId == Some(actor);
    var isApprover := FirstPending(store.taskApprovers, taskId, actor);
    if !isAssignee && isApprover.None? {
      return Err(Forbidden);
    }
    var node := TaskNode(taskId, actor, toUserId.value);
    store.taskNodes := store.taskNodes + [node];
    store.tasks := store.tasks[k.value := task.(
      assigneeId := Some(toUserId.value),
      status := if task.status == Open then InProgress else task.status)];
    result := Ok(node);
  }

  // ---------------------------------------------------------------------
  // completeTask

  function CompleteByAssignee(db: Db, taskId: Id, actor: Id): Step<seq<TaskApprover>> {
    match FindTask(db.tasks, taskId)
    case None => Step(Err(TaskNotFound), db)
    case Some(k) =>
      if db.tasks[k].assigneeId != Some(actor) then Step(Err(Forbidden), db)
      else Complete(db, taskId, actor)
  }

  method CompleteTask(store: Store, taskId: Id, actor: Id) returns (result: Outcome<seq<TaskApprover>>)
    modifies store
    ensures Step(result, store.Snapshot()) == CompleteByAssignee(old(store.Snapshot()), taskId, actor)
  {
    var k := FindTask(store.tasks, taskId);
    if k.None? {
      return Err(TaskNotFound);
    }
    if store.tasks[k.value].assigneeId != Some(actor) {
      return Err(Forbidden);
    }
    result := ProcessTaskCompletion(store, taskId, actor);
  }

  // ---------------------------------------------------------------------
  // updateTaskStatus

  /** The statuses a user may set by hand, by their wire values. */
  function ParseSettableStatus(s: string): (r: Option<TaskStatus>)
    ensures r.Some? <==> s in {"open", "in_progress", "rejected"}
    ensures r.Some? ==> r.value in {Open, InProgress, Rejected}
  {
    if s == "open" then Some(Open)
    else if s == "in_progress" then Some(InProgress)
    else if s == "rejected" then Some(Rejected)
    else None
  }

  function SetStatus(db: Db, taskId: Id, actor: Id, status: Option<string>): Step<Task> {
    if !Present(status) then Step(Err(MissingField("status")), db)
    else
      match ParseSettableStatus(status.value)
      case None => Step(Err(InvalidStatus), db)
      case Some(s) =>
        match FindTask(db.tasks, taskId)
        case None => Step(Err(TaskNotFound), db)
        case Some(k) =>
          var task := db.tasks[k];
          if task.assigneeId != Some(actor) then Step(Err(Forbidden), db)
          else if task.status in {PendingApproval, Approved} then Step(Err(StatusLocked), db)
          else Step(Ok(task.(status := s)), db.(tasks := db.tasks[k := task.(status := s)]))
  }

  method UpdateTaskStatus(store: Store, taskId: Id, actor: Id, status: Option<string>) returns (result: Outcome<Task>)
    modifies store
    ensures Step(result, store.Snapshot()) == SetStatus(old(store.Snapshot()), taskId, actor, status)
  {
    if !Present(status) {
      return Err(MissingField("status"));
    }
    var newStatus := ParseSettableStatus(status.value);
    if newStatus.None? {
      return Err(InvalidStatus);
    }
    var k := FindTask(store.tasks, taskId);
    if k.None? {
      return Err(TaskNotFound);
    }
    var task := store.tasks[k.value];
    if task.assigneeId != Some(actor) {
      return Err(Forbidden);
    }
    if task.status == PendingApproval || task.status == Approved {
      return Err(StatusLocked);
    }
    var updated := task.(status := newStatus.value);
    store.tasks := store.tasks[k.value := updated];
    result := Ok(updated);
  }

  // ---------------------------------------------------------------------
  // updateTask

  /**
   * The editable fields of updateTask's request body: the outer `None` is
   * a field left out (`undefined`), an inner `None` an explicit null.
   */
  datatype TaskPatch = TaskPatch(
    title: Option<string>,
    description: Option<Option<string>>,
    assigneeId: Option<Option<Id>>,
    departmentId: Option<Option<Id>>,
    amount: Option<Option<int>>)

  /** An admin (by the role of the actor's user row) or the assignee. */
  predicate MayEdit(users: seq<User>, task: Task, actor: Id) {
    var user := FindUser(users, actor);
    (user.Some? && user.value.role == AdminRole) || task.assigneeId == Some(actor)
  }

  /** The task with every supplied field overwritten. */
  function Patched(task: Task, patch: TaskPatch): Task {
    task.(
      title := patch.title.GetOr(task.title),
      description := patch.description.GetOr(task.description),
      assigneeId := patch.assigneeId.GetOr(task.assigneeId),
      departmentId := patch.departmentId.GetOr(task.departmentId),
      amount := if patch.amount.Some? then StoredAmount(patch.amount.value) else task.amount)
  }

  function Update(db: Db, taskId: Id, actor: Id, patch: TaskPatch): Step<Task> {
    match FindTask(db.tasks, taskId)
    case None => Step(Err(TaskNotFound), db)
    case Some(k) =>
      if !MayEdit(db.users, db.tasks[k], actor) then Step(Err(Forbidden), db)
      else
        var updated := Patched(db.tasks[k], patch);
        Step(Ok(updated), db.(tasks := db.tasks[k := updated]))
  }

  /** The update data of updateTask laid over the task, one supplied field at a time. */
  method ApplyPatch(task: Task, patch: TaskPatch) returns (updated: Task)
    ensures updated == Patched(task, patch)
  {
    updated := task;
    if patch.title.Some? {
      updated := updated.(title := patch.title.value);
    }
    if patch.description.Some? {
      updated := updated.(description := patch.description.value);
    }
    if patch.assigneeId.Some? {
      updated := updated.(assigneeId := patch.assigneeId.value);
    }
    if patch.departmentId.Some? {
      updated := updated.(departmentId := patch.departmentId.value);
    }
    if patch.amount.Some? {
      updated := updated.(amount := if NonZero(patch.amount.value) then patch.amount.value else None);
    }
  }

  method UpdateTask(store: Store, taskId: Id, actor: Id, patch: TaskPatch) returns (result: Outcome<Task>)
    modifies store
    ensures Step(result, store.Snapshot()) == Update(old(store.Snapshot()), taskId, actor, patch)
  {
    var k := FindTask(store.tasks, taskId);
    if k.None? {
      return Err(TaskNotFound);
    }
    var task := store.tasks[k.value];
    var user := FindUser(store.users, actor);
    var isAdmin := user.Some? && user.value.role == AdminRole;
    var isAssignee := task.assigneeId == Some(actor);
    if !isAdmin && !isAssignee {
      return Err(Forbidden);
    }
    var updated := ApplyPatch(task, patch);
    store.tasks := store.tasks[k.value := updated];
    result := Ok(updated);
  }

  // ---------------------------------------------------------------------
  // getWaitingOnTasks and getApprovalBucket

  /** The node's task is still with the user it was sent to, or still in progress or in approval. */
  predicate StillWaiting(tasks: seq<Task>, n: TaskNode) {
    match FindTask(tasks, n.taskId)
    case None => false
    case Some(k) => tasks[k].assigneeId == Some(n.toUserId) || tasks[k].status in {PendingApproval, InProgress}
  }

  /** The `where: { fromUserId }` of getWaitingOnTasks. */
  function SentBy(userId: Id): TaskNode -> bool {
    (n: TaskNode) => n.fromUserId == userId
  }

  /** The filter getWaitingOnTasks applies to the nodes it read. */
  function WaitsIn(tasks: seq<Task>): TaskNode -> bool {
    (n: TaskNode) => StillWaiting(tasks, n)
  }

  /** The hand-offs `userId` made whose task is still waiting, newest first. */
  function WaitingOn(db: Db, userId: Id): (r: seq<TaskNode>)
    ensures forall n :: n in r <==> n in db.taskNodes && n.fromUserId == userId && StillWaiting(db.tasks, n)
  {
    var sent := Filter(db.taskNodes, SentBy(userId));
    var waiting := Filter(sent, WaitsIn(db.tasks));
    ReverseAt(waiting);
    Reverse(waiting)
  }

  /** The `where` clause of getApprovalBucket: the user's rows, only the pending ones unless `all` is "true". */
  function InBucket(userId: Id, all: Option<string>): TaskApprover -> bool {
    (a: TaskApprover) => a.approverUserId == userId && (all == Some("true") || a.status == PendingRow)
  }

  /** The user's approver rows, newest first: only the pending ones unless `all` is "true". */
  function ApprovalBucket(rows: seq<TaskApprover>, userId: Id, all: Option<string>): (r: seq<TaskApprover>)
    ensures forall a :: a in r <==> a in rows && a.approverUserId == userId && (all == Some("true") || a.status == PendingRow)
  {
    var mine := Filter(rows, InBucket(userId, all));
    ReverseAt(mine);
    Reverse(mine)
  }
}
