/**
 * What the task controller's guards promise, and how its operations feed
 * the approval engine: a created `specific` task carries its manual round,
 * a forward grows the ledger the 360 queue is built from, and only the
 * assignee reaches the engine's completion.
 */
module TaskControllerProperties {
  import opened Entities
  import opened ApproverResolver
  import opened ApprovalEngine
  import opened ApprovalEngineProperties
  import opened TaskController

  // ---------------------------------------------------------------------
  // createTask

  /** Validation happens before any write: each refusal is named, and the store is left as it was. */
  lemma CreateRefusals(db: Db, creatorId: Id, newId: Id, draft: TaskDraft)
    ensures var s := Create(db, creatorId, newId, draft);
      && (s.out.Err? ==> s.db == db)
      && (s.out.Err? && s.out.error.MissingField? <==> !Present(draft.title) || !Present(draft.approvalType))
      && (s.out == Err(InvalidApprovalType) <==>
            Present(draft.title) && Present(draft.approvalType) && draft.approvalType.value !in {"360", "specific", "predefined"})
  {
  }

  lemma {:induction false} RowsOfSingleTask(rows: seq<TaskApprover>, taskId: Id)
    requires forall a :: a in rows ==> a.taskId == taskId
    ensures RowsOf(rows, taskId) == rows
  {
    if rows != [] {
      var prefix := rows[..|rows| - 1];
      assert forall a :: a in prefix ==> a in rows;
      RowsOfSingleTask(prefix, taskId);
      assert rows[|rows| - 1] in rows;
      assert rows == prefix + [rows[|rows| - 1]];
    }
  }

  lemma FindAppendedTask(tasks: seq<Task>, task: Task)
    requires forall t :: t in tasks ==> t.id != task.id
    ensures FindTask(tasks + [task], task.id) == Some(|tasks|)
  {
    var all := tasks + [task];
    assert all[|tasks|].id == task.id;
    assert forall j :: 0 <= j < |tasks| ==> all[j] == tasks[j] && tasks[j] in tasks;
  }

  /** Appending the rows of a task that had none: they become its rows, and no other task's rows change. */
  lemma RowsOfAppendedTask(rows: seq<TaskApprover>, added: seq<TaskApprover>, taskId: Id)
    requires forall a :: a in rows ==> a.taskId != taskId
    requires forall a :: a in added ==> a.taskId == taskId
    ensures RowsOf(rows + added, taskId) == added
    ensures forall other :: other != taskId ==> RowsOf(rows + added, other) == RowsOf(rows, other)
  {
    FilterAppend(rows, added, (a: TaskApprover) => a.taskId == taskId);
    NoRowsOfAbsentTask(rows, taskId);
    RowsOfSingleTask(added, taskId);
    forall other | other != taskId
      ensures RowsOf(rows + added, other) == RowsOf(rows, other)
    {
      FilterAppend(rows, added, (a: TaskApprover) => a.taskId == other);
      NoRowsOfAbsentTask(added, other);
    }
  }

  /**
   * A created task, under a fresh identifier, is found by that identifier;
   * it is open, its amount is kept only when truthy, and it names a
   * template only when it is `predefined`.
   */
  lemma CreatedTask(db: Db, creatorId: Id, newId: Id, draft: TaskDraft)
    requires Create(db, creatorId, newId, draft).out.Ok?
    requires forall t :: t in db.tasks ==> t.id != newId
    ensures var s := Create(db, creatorId, newId, draft);
      var task := s.out.value;
      && FindTask(s.db.tasks, newId) == Some(|db.tasks|)
      && s.db.tasks[|db.tasks|] == task
      && s.db.tasks[..|db.tasks|] == db.tasks
      && task.status == Open && task.creatorId == creatorId
      && Some(task.title) == draft.title && Present(draft.title)
      && ParseApprovalType(draft.approvalType.value) == Some(task.approvalType)
      && task.amount == (if NonZero(draft.amount) then draft.amount else None)
      && task.approvalTemplateId == (if task.approvalType == Predefined then draft.approvalTemplateId else None)
      && s.db.taskNodes == db.taskNodes && s.db.users == db.users && s.db.approvalTemplates == db.approvalTemplates
  {
    var s := Create(db, creatorId, newId, draft);
    FindAppendedTask(db.tasks, s.out.value);
    assert s.db.tasks == db.tasks + [s.out.value];
  }

  /**
   * The approver rows of a created task are exactly one pending row per
   * manual entry, at the entry's level, when it is `specific` and the
   * entries are given; none otherwise. Other tasks' rows are untouched.
   */
  lemma CreateSeedsManualApprovers(db: Db, creatorId: Id, newId: Id, draft: TaskDraft)
    requires Create(db, creatorId, newId, draft).out.Ok?
    requires forall a :: a in db.taskApprovers ==> a.taskId != newId
    ensures var s := Create(db, creatorId, newId, draft);
      var rows := RowsOf(s.db.taskApprovers, newId);
      && (s.out.value.approvalType == Specific && draft.manualApprovers.Some? ==>
            |rows| == |draft.manualApprovers.value|
            && forall i :: 0 <= i < |rows| ==>
                 rows[i].status == PendingRow
                 && rows[i].levelOrder == draft.manualApprovers.value[i].levelOrder
                 && rows[i].approverUserId == draft.manualApprovers.value[i].approverUserId)
      && (s.out.value.approvalType != Specific || draft.manualApprovers.None? ==> rows == [])
      && forall other :: other != newId ==> RowsOf(s.db.taskApprovers, other) == RowsOf(db.taskApprovers, other)
  {
    var s := Create(db, creatorId, newId, draft);
    var seeded := SeededRows(newId, draft, s.out.value.approvalType);
    assert s.db.taskApprovers == db.taskApprovers + seeded;
    RowsOfAppendedTask(db.taskApprovers, seeded, newId);
  }

  /**
   * A `specific` task created with a non-empty list of manual approvers can
   * be submitted at once: completion answers exactly the seeded round.
   */
  lemma CreatedSpecificTaskCanBeSubmitted(db: Db, creatorId: Id, newId: Id, draft: TaskDraft, completerUserId: Id)
    requires Create(db, creatorId, newId, draft).out.Ok?
    requires Create(db, creatorId, newId, draft).out.value.approvalType == Specific
    requires draft.manualApprovers.Some? && draft.manualApprovers.value != []
    requires forall t :: t in db.tasks ==> t.id != newId
    requires forall a :: a in db.taskApprovers ==> a.taskId != newId
    ensures var after := Create(db, creatorId, newId, draft).db;
      Complete(after, newId, completerUserId).out == Ok(ManualRows(newId, draft.manualApprovers.value))
  {
    var s := Create(db, creatorId, newId, draft);
    var seeded := ManualRows(newId, draft.manualApprovers.value);
    assert s.db.tasks == db.tasks + [s.out.value] && s.db.taskApprovers == db.taskApprovers + seeded;
    FindAppendedTask(db.tasks, s.out.value);
    RowsOfAppendedTask(db.taskApprovers, seeded, newId);
    CompleteSpecificSubmitsManualRound(s.db, newId, completerUserId, |db.tasks|);
  }

  // ---------------------------------------------------------------------
  // forwardTask

  /**
   * Forwarding is refused, with nothing changed, without a target user, for
   * a missing task, and for anyone who is neither the assignee nor the
   * holder of a pending approver row of the task.
   */
  lemma ForwardRefusals(db: Db, taskId: Id, actor: Id, toUserId: Option<Id>)
    ensures var s := Forward(db, taskId, actor, toUserId);
      && (s.out.Err? ==> s.db == db)
      && (s.out == Err(MissingField("toUserId")) <==> !Present(toUserId))
      && (s.out == Err(Forbidden) <==>
            Present(toUserId) && FindTask(db.tasks, taskId).Some?
            && db.tasks[FindTask(db.tasks, taskId).value].assigneeId != Some(actor)
            && forall a :: a in db.taskApprovers ==> !PendingFor(a, taskId, actor))
  {
    if Present(toUserId) && FindTask(db.tasks, taskId).Some? {
      var k := FindTask(db.tasks, taskId).value;
      if FirstPending(db.taskApprovers, taskId, actor).Some? {
        var i := FirstPending(db.taskApprovers, taskId, actor).value;
        assert db.taskApprovers[i] in db.taskApprovers;
      }
    }
  }

  /**
   * A successful forward appends the hand-off actor → target to the ledger
   * and makes the target the assignee; an open task goes in progress and
   * every other status is kept; no approver row changes.
   */
  lemma ForwardHandsOver(db: Db, taskId: Id, actor: Id, toUserId: Option<Id>)
    requires Forward(db, taskId, actor, toUserId).out.Ok?
    ensures var s, k := Forward(db, taskId, actor, toUserId), FindTask(db.tasks, taskId).value;
      var task, task' := db.tasks[k], s.db.tasks[k];
      && s.out.value == TaskNode(taskId, actor, toUserId.value)
      && s.db.taskNodes == db.taskNodes + [s.out.value]
      && |s.db.tasks| == |db.tasks|
      && (forall j :: 0 <= j < |db.tasks| && j != k ==> s.db.tasks[j] == db.tasks[j])
      && task'.assigneeId == toUserId
      && (task.status == Open ==> task'.status == InProgress)
      && (task.status != Open ==> task'.status == task.status)
      && task' == task.(assigneeId := task'.assigneeId, status := task'.status)
      && s.db.taskApprovers == db.taskApprovers
      && s.db == db.(taskNodes := db.taskNodes + [s.out.value], tasks := s.db.tasks)
  {
  }

  /** A hand-off just made shows in the sender's "waiting on" list: its task is now with the receiver. */
  lemma ForwardedTaskIsWaitingOn(db: Db, taskId: Id, actor: Id, toUserId: Option<Id>)
    requires Forward(db, taskId, actor, toUserId).out.Ok?
    ensures var s := Forward(db, taskId, actor, toUserId);
      s.out.value in WaitingOn(s.db, actor)
  {
    var s := Forward(db, taskId, actor, toUserId);
    FindTaskKeepsPosition(db.tasks, s.db.tasks, taskId);
  }

  /**
   * Forwarding feeds the 360 chain: both ends of a hand-off are in the
   * backward queue of any later completion of the task by someone else.
   */
  lemma ForwardJoinsBackwardQueue(db: Db, taskId: Id, actor: Id, toUserId: Option<Id>, completerUserId: Id)
    requires Forward(db, taskId, actor, toUserId).out.Ok?
    ensures var after := Forward(db, taskId, actor, toUserId).db;
      var q := BackwardQueue(after.taskNodes, taskId, completerUserId);
      && (actor != completerUserId ==> actor in q)
      && (toUserId.value != completerUserId ==> toUserId.value in q)
  {
    var s := Forward(db, taskId, actor, toUserId);
    var node := s.out.value;
    BackwardQueueIsReversedParticipants(s.db.taskNodes, taskId, completerUserId);
    assert node in s.db.taskNodes;
    assert node in NodesOf(s.db.taskNodes, taskId);
  }

  // ---------------------------------------------------------------------
  // completeTask

  /** Only the assignee reaches the engine; anyone else is refused with nothing changed. */
  lemma CompleteOnlyByAssignee(db: Db, taskId: Id, actor: Id)
    requires FindTask(db.tasks, taskId).Some?
    ensures var task := db.tasks[FindTask(db.tasks, taskId).value];
      && (task.assigneeId != Some(actor) ==> CompleteByAssignee(db, taskId, actor) == Step(Err(Forbidden), db))
      && (task.assigneeId == Some(actor) ==> CompleteByAssignee(db, taskId, actor) == Complete(db, taskId, actor))
  {
  }

  // ---------------------------------------------------------------------
  // updateTaskStatus

  /**
   * A status override succeeds only for the assignee, only to open,
   * in_progress or rejected, and only outside pending_approval and
   * approved; it changes the status field of that one task and nothing else.
   */
  lemma SetStatusChangesOnlyStatus(db: Db, taskId: Id, actor: Id, status: Option<string>)
    requires SetStatus(db, taskId, actor, status).out.Ok?
    ensures var s, k := SetStatus(db, taskId, actor, status), FindTask(db.tasks, taskId).value;
      && status.Some? && status.value in {"open", "in_progress", "rejected"}
      && db.tasks[k].assigneeId == Some(actor)
      && db.tasks[k].status !in {PendingApproval, Approved}
      && s.out.value.status in {Open, InProgress, Rejected}
      && s.db == db.(tasks := db.tasks[k := db.tasks[k].(status := s.out.value.status)])
  {
  }

  /** No override moves a task out of approval or out of approved. */
  lemma StatusLockedDuringApproval(db: Db, taskId: Id, actor: Id, status: Option<string>)
    requires FindTask(db.tasks, taskId).Some?
    requires db.tasks[FindTask(db.tasks, taskId).value].status in {PendingApproval, Approved}
    ensures SetStatus(db, taskId, actor, status).out.Err?
    ensures SetStatus(db, taskId, actor, status).db == db
  {
  }

  /** The refusals of a status override, each by its cause; none changes the store. */
  lemma SetStatusRefusals(db: Db, taskId: Id, actor: Id, status: Option<string>)
    ensures var s := SetStatus(db, taskId, actor, status);
      && (s.out.Err? ==> s.db == db)
      && (s.out == Err(MissingField("status")) <==> !Present(status))
      && (s.out == Err(InvalidStatus) <==> Present(status) && status.value !in {"open", "in_progress", "rejected"})
      && (s.out == Err(Forbidden) <==>
            Present(status) && status.value in {"open", "in_progress", "rejected"} && FindTask(db.tasks, taskId).Some?
            && db.tasks[FindTask(db.tasks, taskId).value].assigneeId != Some(actor))
  {
  }

  // ---------------------------------------------------------------------
  // updateTask

  /**
   * An edit is refused for anyone but an admin or the assignee. A
   * successful edit overwrites exactly the supplied fields of that one
   * task (a falsy amount becoming null); identity, creator, approval type,
   * template and status are never touched.
   */
  lemma UpdateChangesOnlySuppliedFields(db: Db, taskId: Id, actor: Id, patch: TaskPatch)
    requires FindTask(db.tasks, taskId).Some?
    ensures var s, k := Update(db, taskId, actor, patch), FindTask(db.tasks, taskId).value;
      var task := db.tasks[k];
      var user := FindUser(db.users, actor);
      && (s.out == Err(Forbidden) <==> !(user.Some? && user.value.role == "admin") && task.assigneeId != Some(actor))
      && (s.out.Err? ==> s.db == db)
      && (s.out.Ok? ==>
            var t := s.out.value;
            && s.db == db.(tasks := db.tasks[k := t])
            && t.id == task.id && t.creatorId == task.creatorId && t.status == task.status
            && t.approvalType == task.approvalType && t.approvalTemplateId == task.approvalTemplateId
            && (patch.title.None? ==> t.title == task.title)
            && (patch.title.Some? ==> t.title == patch.title.value)
            && (patch.description.None? ==> t.description == task.description)
            && (patch.description.Some? ==> t.description == patch.description.value)
            && (patch.assigneeId.None? ==> t.assigneeId == task.assigneeId)
            && (patch.assigneeId.Some? ==> t.assigneeId == patch.assigneeId.value)
            && (patch.departmentId.None? ==> t.departmentId == task.departmentId)
            && (patch.departmentId.Some? ==> t.departmentId == patch.departmentId.value)
            && (patch.amount.None? ==> t.amount == task.amount)
            && (patch.amount.Some? && NonZero(patch.amount.value) ==> t.amount == patch.amount.value)
            && (patch.amount.Some? && !NonZero(patch.amount.value) ==> t.amount.None?))
  {
  }

  /** An edit keeps the task where lookups find it. */
  lemma UpdateKeepsTaskFindable(db: Db, taskId: Id, actor: Id, patch: TaskPatch, anyId: Id)
    ensures FindTask(Update(db, taskId, actor, patch).db.tasks, anyId) == FindTask(db.tasks, anyId)
  {
    FindTaskKeepsPosition(db.tasks, Update(db, taskId, actor, patch).db.tasks, anyId);
  }

  // ---------------------------------------------------------------------
  // getApprovalBucket

  /**
   * Every entry of a user's pending bucket is actionable: the engine finds
   * a pending row of that user on that task, for approval and for rejection.
   */
  lemma BucketEntriesAreActionable(rows: seq<TaskApprover>, userId: Id, all: Option<string>, a: TaskApprover)
    requires all != Some("true")
    requires a in ApprovalBucket(rows, userId, all)
    ensures LowestPending(rows, a.taskId, userId).Some?
    ensures FirstPending(rows, a.taskId, userId).Some?
  {
    var i :| 0 <= i < |rows| && rows[i] == a;
    assert PendingFor(rows[i], a.taskId, userId);
  }

  /** Newest first: a row created after the others heads the bucket when it belongs there. */
  lemma ApprovalBucketNewestFirst(rows: seq<TaskApprover>, a: TaskApprover, userId: Id, all: Option<string>)
    ensures ApprovalBucket(rows + [a], userId, all)
         == (if a.approverUserId == userId && (all == Some("true") || a.status == PendingRow) then [a] else [])
            + ApprovalBucket(rows, userId, all)
  {
    var test := InBucket(userId, all);
    FilterSnoc(rows, a, test);
    var mine := Filter(rows, test);
    if test(a) {
      ReverseSnoc(mine, a);
    } else {
      assert Filter(rows + [a], test) == mine;
    }
  }

  /** Newest first: the latest hand-off heads the sender's waiting-on list while its task still waits. */
  lemma WaitingOnNewestFirst(db: Db, n: TaskNode)
    ensures WaitingOn(db.(taskNodes := db.taskNodes + [n]), n.fromUserId)
         == (if StillWaiting(db.tasks, n) then [n] else []) + WaitingOn(db, n.fromUserId)
  {
    var sentBy, waits := SentBy(n.fromUserId), WaitsIn(db.tasks);
    var sent := Filter(db.taskNodes, sentBy);
    var waiting := Filter(sent, waits);
    FilterSnoc(db.taskNodes, n, sentBy);
    assert sentBy(n);
    assert Filter(db.taskNodes + [n], sentBy) == sent + [n];
    FilterSnoc(sent, n, waits);
    if waits(n) {
      assert Filter(sent + [n], waits) == waiting + [n];
      ReverseSnoc(waiting, n);
    } else {
      assert Filter(sent + [n], waits) == waiting;
    }
  }
}
