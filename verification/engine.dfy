/**
 * The task state machine of the approval engine: submitting a completed
 * task for approval (`processTaskCompletion`), approving one level
 * (`processApproval`) and rejecting (`processRejection`).
 *
 * Each transition is given twice: as a function from the store before to
 * the outcome and the store after (`Complete`, `Approve`, `Reject`), about
 * which the lemmas of ApprovalEngineProperties are proved, and as a method
 * that performs the source's steps on a `Store` in place and is proved to
 * have exactly that effect.
 */
module ApprovalEngine {
  import opened Entities
  import opened Stores
  import opened TemplateMatcher
  import opened ApproverResolver

  // ---------------------------------------------------------------------
  // processTaskCompletion

  /** The task at `k` goes to pending_approval; the approver table becomes `approvers`. */
  function Submitted(db: Db, k: nat, rows: seq<TaskApprover>, approvers: seq<TaskApprover>): Step<seq<TaskApprover>>
    requires k < |db.tasks|
  {
    Step(Ok(rows), db.(tasks := db.tasks[k := db.tasks[k].(status := PendingApproval)], taskApprovers := approvers))
  }

  /**
   * The rows the predefined path creates: from the task's own template when
   * it names one, otherwise from the first active template that matches.
   */
  function PredefinedRows(db: Db, task: Task): (r: Outcome<seq<TaskApprover>>)
    ensures r == Err(NoMatchingTemplate) <==>
              !Present(task.approvalTemplateId)
              && MatchTemplate(ActiveTemplates(db.approvalTemplates), DepartmentName(db.departments, task), task.amount).None?
    ensures r == Err(TemplateMissing) <==>
              Present(task.approvalTemplateId) && FindTemplate(db.approvalTemplates, task.approvalTemplateId.value).None?
  {
    if !Present(task.approvalTemplateId) then
      var active := ActiveTemplates(db.approvalTemplates);
      match MatchTemplate(active, DepartmentName(db.departments, task), task.amount)
      case None => Err(NoMatchingTemplate)
      case Some(i) => Ok(TemplateRows(task, db.users, SortStages(active[i].stages)))
    else
      match FindTemplate(db.approvalTemplates, task.approvalTemplateId.value)
      case None => Err(TemplateMissing)
      case Some(i) => Ok(TemplateRows(task, db.users, SortStages(db.approvalTemplates[i].stages)))
  }

  function Complete(db: Db, taskId: Id, completerUserId: Id): Step<seq<TaskApprover>> {
    match FindTask(db.tasks, taskId)
    case None => Step(Err(TaskNotFound), db)
    case Some(k) =>
      var task := db.tasks[k];
      if task.status == Approved || task.status == Completed then Step(Err(AlreadyCompleted), db)
      else
        match task.approvalType
        case ThreeSixty =>
          var rows := Rows360(taskId, BackwardQueue(db.taskNodes, taskId, completerUserId));
          if rows == [] then Step(Err(NoApproverPath), db)
          else Submitted(db, k, rows, db.taskApprovers + rows)
        case Specific =>
          var existing := RowsOf(db.taskApprovers, taskId);
          if existing == [] then Step(Err(NoManualApprovers), db)
          else Submitted(db, k, existing, db.taskApprovers)
        case Predefined =>
          match PredefinedRows(db, task)
          case Err(e) => Step(Err(e), db)
          case Ok(rows) => Submitted(db, k, rows, db.taskApprovers + rows)
  }

  method ProcessTaskCompletion(store: Store, taskId: Id, completerUserId: Id) returns (result: Outcome<seq<TaskApprover>>)
    modifies store
    ensures Step(result, store.Snapshot()) == Complete(old(store.Snapshot()), taskId, completerUserId)
  {
    var k := FindTask(store.tasks, taskId);
    if k.None? {
      return Err(TaskNotFound);
    }
    var task := store.tasks[k.value];
    if task.status == Approved || task.status == Completed {
      return Err(AlreadyCompleted);
    }
    var approvers: seq<TaskApprover> := [];
    match task.approvalType {
      case ThreeSixty =>
        approvers := GenerateTaskApprovers360(store, taskId, completerUserId);
        if |approvers| == 0 {
          return Err(NoApproverPath);
        }
      case Specific =>
        var existingApprovers := RowsOf(store.taskApprovers, taskId);
        if |existingApprovers| == 0 {
          return Err(NoManualApprovers);
        }
        approvers := existingApprovers;
      case Predefined =>
        if !Present(task.approvalTemplateId) {
          var active := ActiveTemplates(store.approvalTemplates);
          var matched := MatchTemplate(active, DepartmentName(store.departments, task), task.amount);
          if matched.None? {
            return Err(NoMatchingTemplate);
          }
          approvers := GenerateTaskApproversFromTemplate(store, task, SortStages(active[matched.value].stages));
        } else {
          var template := FindTemplate(store.approvalTemplates, task.approvalTemplateId.value);
          if template.None? {
            return Err(TemplateMissing);
          }
          approvers := GenerateTaskApproversFromTemplate(store, task, SortStages(store.approvalTemplates[template.value].stages));
        }
    }
    store.tasks := store.tasks[k.value := task.(status := PendingApproval)];
    result := Ok(approvers);
  }

  // ---------------------------------------------------------------------
  // processApproval

  predicate PendingFor(a: TaskApprover, taskId: Id, userId: Id) {
    a.taskId == taskId && a.approverUserId == userId && a.status == PendingRow
  }

  /**
   * The row `task.approvers.find` picks when the approvers are read in
   * levelOrder ascending: the user's pending row of lowest level, the
   * earlier row of the store among equal levels.
   */
  function LowestPending(rows: seq<TaskApprover>, taskId: Id, userId: Id): (r: Option<nat>)
    ensures r.Some? ==> r.value < |rows| && PendingFor(rows[r.value], taskId, userId)
    ensures r.Some? ==> forall j :: 0 <= j < |rows| && PendingFor(rows[j], taskId, userId) ==>
                          rows[r.value].levelOrder < rows[j].levelOrder
                          || (rows[r.value].levelOrder == rows[j].levelOrder && r.value <= j)
    ensures r.None? <==> forall j :: 0 <= j < |rows| ==> !PendingFor(rows[j], taskId, userId)
  {
    if rows == [] then None
    else
      var last := |rows| - 1;
      var earlier := LowestPending(rows[..last], taskId, userId);
      if PendingFor(rows[last], taskId, userId) && (earlier.None? || rows[last].levelOrder < rows[earlier.value].levelOrder)
      then Some(last)
      else earlier
  }

  /** Every row of the task below `level` is approved (`previousApprovers.every(...)`). */
  predicate LowerLevelsApproved(rows: seq<TaskApprover>, taskId: Id, level: int) {
    forall j :: 0 <= j < |rows| && rows[j].taskId == taskId && rows[j].levelOrder < level ==> rows[j].status == ApprovedRow
  }

  /** How many rows of the task are pending. */
  function PendingCount(rows: seq<TaskApprover>, taskId: Id): nat {
    if rows == [] then 0
    else
      var last := rows[|rows| - 1];
      PendingCount(rows[..|rows| - 1], taskId) + (if last.taskId == taskId && last.status == PendingRow then 1 else 0)
  }

  function Approve(db: Db, taskId: Id, approverUserId: Id): Step<bool> {
    match FindTask(db.tasks, taskId)
    case None => Step(Err(TaskNotFound), db)
    case Some(k) =>
      match LowestPending(db.taskApprovers, taskId, approverUserId)
      case None => Step(Err(NoPendingApproval), db)
      case Some(i) =>
        if !LowerLevelsApproved(db.taskApprovers, taskId, db.taskApprovers[i].levelOrder) then
          Step(Err(PreviousLevelIncomplete), db)
        else
          // counted on the rows as they were read, before this row is updated
          var isComplete := PendingCount(db.taskApprovers, taskId) == 1;
          var approvers := db.taskApprovers[i := db.taskApprovers[i].(status := ApprovedRow)];
          var tasks := if isComplete then db.tasks[k := db.tasks[k].(status := Approved)] else db.tasks;
          Step(Ok(isComplete), db.(tasks := tasks, taskApprovers := approvers))
  }

  method ProcessApproval(store: Store, taskId: Id, approverUserId: Id) returns (result: Outcome<bool>)
    modifies store
    ensures Step(result, store.Snapshot()) == Approve(old(store.Snapshot()), taskId, approverUserId)
  {
    var k := FindTask(store.tasks, taskId);
    if k.None? {
      return Err(TaskNotFound);
    }
    var approvers := store.taskApprovers;
    var current := LowestPending(approvers, taskId, approverUserId);
    if current.None? {
      return Err(NoPendingApproval);
    }
    var currentApprover := approvers[current.value];
    if !LowerLevelsApproved(approvers, taskId, currentApprover.levelOrder) {
      return Err(PreviousLevelIncomplete);
    }
    store.taskApprovers := store.taskApprovers[current.value := currentApprover.(status := ApprovedRow)];
    var isComplete := PendingCount(approvers, taskId) == 1;
    if isComplete {
      store.tasks := store.tasks[k.value := store.tasks[k.value].(status := Approved)];
    }
    result := Ok(isComplete);
  }

  // ---------------------------------------------------------------------
  // processRejection

  /** The row `task.approvers.find` picks when the approvers are read unordered: the first in the store. */
  function FirstPending(rows: seq<TaskApprover>, taskId: Id, userId: Id): (r: Option<nat>)
    ensures r.Some? ==> r.value < |rows| && PendingFor(rows[r.value], taskId, userId)
    ensures r.Some? ==> forall j :: 0 <= j < r.value ==> !PendingFor(rows[j], taskId, userId)
    ensures r.None? <==> forall j :: 0 <= j < |rows| ==> !PendingFor(rows[j], taskId, userId)
  {
    Find(rows, (a: TaskApprover) => PendingFor(a, taskId, userId))
  }

  /** `forwardToUserId || task.assigneeId || task.creatorId`. */
  function RejectTarget(forwardToUserId: Option<Id>, task: Task): (r: Id)
    ensures Present(forwardToUserId) ==> r == forwardToUserId.value
    ensures !Present(forwardToUserId) && Present(task.assigneeId) ==> r == task.assigneeId.value
    ensures !Present(forwardToUserId) && !Present(task.assigneeId) ==> r == task.creatorId
  {
    if Present(forwardToUserId) then forwardToUserId.value
    else if Present(task.assigneeId) then task.assigneeId.value
    else task.creatorId
  }

  /** The approver table after `deleteMany({ where: { taskId } })`. */
  function WithoutRowsOf(rows: seq<TaskApprover>, taskId: Id): (r: seq<TaskApprover>)
    ensures forall a :: a in r <==> a in rows && a.taskId != taskId
  {
    Filter(rows, (a: TaskApprover) => a.taskId != taskId)
  }

  function Reject(db: Db, taskId: Id, approverUserId: Id, forwardToUserId: Option<Id>): Step<()> {
    match FindTask(db.tasks, taskId)
    case None => Step(Err(TaskNotFound), db)
    case Some(k) =>
      match FirstPending(db.taskApprovers, taskId, approverUserId)
      case None => Step(Err(NoPendingApproval), db)
      case Some(i) =>
        // the row is marked rejected before the target is looked for
        var marked := db.taskApprovers[i := db.taskApprovers[i].(status := RejectedRow)];
        var target := RejectTarget(forwardToUserId, db.tasks[k]);
        if target == "" then Step(Err(NoTargetUser), db.(taskApprovers := marked))
        else
          Step(Ok(()), db.(
            taskNodes := db.taskNodes + [TaskNode(taskId, approverUserId, target)],
            tasks := db.tasks[k := db.tasks[k].(assigneeId := Some(target), status := Rejected)],
            taskApprovers := WithoutRowsOf(marked, taskId)))
  }

  method ProcessRejection(store: Store, taskId: Id, approverUserId: Id, forwardToUserId: Option<Id>) returns (result: Outcome<()>)
    modifies store
    ensures Step(result, store.Snapshot()) == Reject(old(store.Snapshot()), taskId, approverUserId, forwardToUserId)
  {
    var k := FindTask(store.tasks, taskId);
    if k.None? {
      return Err(TaskNotFound);
    }
    var task := store.tasks[k.value];
    var current := FirstPending(store.taskApprovers, taskId, approverUserId);
    if current.None? {
      return Err(NoPendingApproval);
    }
    ghost var before := store.Snapshot();
    ghost var marked := before.taskApprovers[current.value := before.taskApprovers[current.value].(status := RejectedRow)];
    ghost var expected := Reject(before, taskId, approverUserId, forwardToUserId);
    assert expected.db.taskApprovers == if RejectTarget(forwardToUserId, task) == "" then marked else WithoutRowsOf(marked, taskId);
    store.taskApprovers := store.taskApprovers[current.value := store.taskApprovers[current.value].(status := RejectedRow)];
    var targetUserId := RejectTarget(forwardToUserId, task);
    if targetUserId == "" {
      return Err(NoTargetUser);
    }
    store.taskNodes := store.taskNodes + [TaskNode(taskId, approverUserId, targetUserId)];
    store.tasks := store.tasks[k.value := task.(assigneeId := Some(targetUserId), status := Rejected)];
    store.taskApprovers := WithoutRowsOf(store.taskApprovers, taskId);
    result := Ok(());
  }
}
