/**
 * What the approval engine promises: typed failures that leave the store
 * as it was, the level-ordering rule of approval, the completion check, the
 * round reset on rejection, and how the three transitions compose.
 */
module ApprovalEngineProperties {
  import opened Entities
  import opened TemplateMatcher
  import opened ApproverResolver
  import opened ApprovalEngine

  // ---------------------------------------------------------------------
  // Counting pending rows

  lemma {:induction false} PendingCountZero(rows: seq<TaskApprover>, taskId: Id)
    ensures PendingCount(rows, taskId) == 0 <==>
              forall j :: 0 <= j < |rows| ==> !(rows[j].taskId == taskId && rows[j].status == PendingRow)
  {
    if rows != [] {
      var prefix := rows[..|rows| - 1];
      PendingCountZero(prefix, taskId);
      assert forall j :: 0 <= j < |prefix| ==> prefix[j] == rows[j];
    }
  }

  lemma {:induction false} PendingCountAfterApproval(rows: seq<TaskApprover>, taskId: Id, i: nat)
    requires i < |rows| && rows[i].taskId == taskId && rows[i].status == PendingRow
    ensures PendingCount(rows[i := rows[i].(status := ApprovedRow)], taskId) == PendingCount(rows, taskId) - 1
  {
    var n := |rows| - 1;
    var updated := rows[i := rows[i].(status := ApprovedRow)];
    if i == n {
      assert updated[..n] == rows[..n];
    } else {
      PendingCountAfterApproval(rows[..n], taskId, i);
      assert updated[..n] == rows[..n][i := rows[i].(status := ApprovedRow)];
    }
  }

  // ---------------------------------------------------------------------
  // processTaskCompletion

  /** Every failure of a completion leaves the store exactly as it was. */
  lemma CompleteFailureChangesNothing(db: Db, taskId: Id, completerUserId: Id)
    requires Complete(db, taskId, completerUserId).out.Err?
    ensures Complete(db, taskId, completerUserId).db == db
  {
  }

  /** An approved or completed task cannot be submitted again, and no rows are added. */
  lemma CompleteRefusesFinishedTask(db: Db, taskId: Id, completerUserId: Id)
    requires FindTask(db.tasks, taskId).Some?
    requires db.tasks[FindTask(db.tasks, taskId).value].status in {Approved, Completed}
    ensures Complete(db, taskId, completerUserId) == Step(Err(AlreadyCompleted), db)
  {
  }

  /** The task under `taskId` exists, is not yet approved or completed, and takes approval type `t`. */
  predicate SubmittableAs(db: Db, taskId: Id, t: ApprovalType) {
    && FindTask(db.tasks, taskId).Some?
    && db.tasks[FindTask(db.tasks, taskId).value].status !in {Approved, Completed}
    && db.tasks[FindTask(db.tasks, taskId).value].approvalType == t
  }

  /**
   * Each refusal of a completion by its cause, and no other refusal: no
   * such task; a task already approved or completed; a 360 task
   * whose ledger leaves nobody but the completer; a specific task without
   * manual rows; a predefined task that names no template and matches none;
   * a predefined task whose named template is gone. No refusal writes.
   */
  lemma CompleteRefusals(db: Db, taskId: Id, completerUserId: Id)
    ensures var s := Complete(db, taskId, completerUserId);
      && (s.out.Err? ==> s.db == db)
      && (s.out.Err? ==>
            s.out.error in {TaskNotFound, AlreadyCompleted, NoApproverPath, NoManualApprovers, NoMatchingTemplate, TemplateMissing})
      && (s.out == Err(TaskNotFound) <==> FindTask(db.tasks, taskId).None?)
      && (s.out == Err(AlreadyCompleted) <==>
            FindTask(db.tasks, taskId).Some? && db.tasks[FindTask(db.tasks, taskId).value].status in {Approved, Completed})
      && (s.out == Err(NoApproverPath) <==>
            SubmittableAs(db, taskId, ThreeSixty) && BackwardQueue(db.taskNodes, taskId, completerUserId) == [])
      && (s.out == Err(NoManualApprovers) <==>
            SubmittableAs(db, taskId, Specific) && RowsOf(db.taskApprovers, taskId) == [])
      && (s.out == Err(NoMatchingTemplate) <==>
            SubmittableAs(db, taskId, Predefined)
            && var task := db.tasks[FindTask(db.tasks, taskId).value];
            && !Present(task.approvalTemplateId)
            && MatchTemplate(ActiveTemplates(db.approvalTemplates), DepartmentName(db.departments, task), task.amount).None?)
      && (s.out == Err(TemplateMissing) <==>
            SubmittableAs(db, taskId, Predefined)
            && var task := db.tasks[FindTask(db.tasks, taskId).value];
            && Present(task.approvalTemplateId)
            && FindTemplate(db.approvalTemplates, task.approvalTemplateId.value).None?)
  {
  }

  /**
   * A successful completion moves only the task's status, to
   * pending_approval; the rows it reports are a fresh round appended to the
   * table (360, predefined) or the rows already there (specific).
   */
  lemma CompleteSubmitsForApproval(db: Db, taskId: Id, completerUserId: Id)
    requires Complete(db, taskId, completerUserId).out.Ok?
    ensures var s, k := Complete(db, taskId, completerUserId), FindTask(db.tasks, taskId).value;
      var task, rows := db.tasks[k], Complete(db, taskId, completerUserId).out.value;
      && task.status !in {Approved, Completed}
      && s.db.tasks == db.tasks[k := task.(status := PendingApproval)]
      && s.db.taskNodes == db.taskNodes
      && s.db.users == db.users && s.db.departments == db.departments
      && s.db.approvalTemplates == db.approvalTemplates
      && (task.approvalType == Specific ==>
            s.db.taskApprovers == db.taskApprovers && rows != []
            && forall a :: a in rows <==> a in db.taskApprovers && a.taskId == taskId)
      && (task.approvalType != Specific ==>
            s.db.taskApprovers == db.taskApprovers + rows
            && forall a :: a in rows ==> a.taskId == taskId && a.status == PendingRow)
  {
    var k := FindTask(db.tasks, taskId).value;
    var task := db.tasks[k];
    if task.approvalType == Predefined {
      match PredefinedRows(db, task)
      case Ok(rows) =>
      case Err(_) =>
    }
  }

  /**
   * The 360 round: levels 1..N in backward-queue order, one distinct
   * approver per level, never the completer, each a participant of the
   * task's forwarding ledger.
   */
  lemma Complete360Round(db: Db, taskId: Id, completerUserId: Id)
    requires Complete(db, taskId, completerUserId).out.Ok?
    requires db.tasks[FindTask(db.tasks, taskId).value].approvalType == ThreeSixty
    ensures var rows := Complete(db, taskId, completerUserId).out.value;
      && rows != []
      && (forall i :: 0 <= i < |rows| ==>
            rows[i].levelOrder == i + 1 && rows[i].status == PendingRow && rows[i].approverUserId != completerUserId
            && Participant(NodesOf(db.taskNodes, taskId), rows[i].approverUserId))
      && (forall i, j :: 0 <= i < j < |rows| ==> rows[i].approverUserId != rows[j].approverUserId)
  {
    var q := BackwardQueue(db.taskNodes, taskId, completerUserId);
    BackwardQueueIsReversedParticipants(db.taskNodes, taskId, completerUserId);
    var rows := Complete(db, taskId, completerUserId).out.value;
    assert rows == Rows360(taskId, q);
    forall i | 0 <= i < |rows|
      ensures rows[i].approverUserId != completerUserId && Participant(NodesOf(db.taskNodes, taskId), rows[i].approverUserId)
    {
      assert rows[i].approverUserId == q[i] && q[i] in q;
    }
  }

  /** A `specific` task with manual rows is submitted with exactly those rows, in store order. */
  lemma CompleteSpecificSubmitsManualRound(db: Db, taskId: Id, completerUserId: Id, k: nat)
    requires FindTask(db.tasks, taskId) == Some(k)
    requires db.tasks[k].status !in {Approved, Completed} && db.tasks[k].approvalType == Specific
    requires RowsOf(db.taskApprovers, taskId) != []
    ensures Complete(db, taskId, completerUserId).out == Ok(RowsOf(db.taskApprovers, taskId))
  {
  }

  /** A `predefined` task whose template yields `rows` is submitted with those rows appended to the table. */
  lemma CompletePredefinedSubmits(db: Db, taskId: Id, completerUserId: Id, k: nat, rows: seq<TaskApprover>)
    requires FindTask(db.tasks, taskId) == Some(k)
    requires db.tasks[k].status !in {Approved, Completed} && db.tasks[k].approvalType == Predefined
    requires PredefinedRows(db, db.tasks[k]) == Ok(rows)
    ensures Complete(db, taskId, completerUserId) == Submitted(db, k, rows, db.taskApprovers + rows)
  {
  }

  /** A 360 completion fails for want of approvers exactly when nobody but the completer ever handled the task. */
  lemma Complete360NeedsAnotherParticipant(db: Db, taskId: Id, completerUserId: Id)
    requires FindTask(db.tasks, taskId).Some?
    requires var task := db.tasks[FindTask(db.tasks, taskId).value];
      task.approvalType == ThreeSixty && task.status !in {Approved, Completed}
    ensures Complete(db, taskId, completerUserId).out == Err(NoApproverPath) <==>
              forall n :: n in db.taskNodes && n.taskId == taskId ==> n.fromUserId == completerUserId && n.toUserId == completerUserId
  {
    var q := BackwardQueue(db.taskNodes, taskId, completerUserId);
    BackwardQueueIsReversedParticipants(db.taskNodes, taskId, completerUserId);
    if q == [] {
      forall n | n in db.taskNodes && n.taskId == taskId
        ensures n.fromUserId == completerUserId && n.toUserId == completerUserId
      {
        assert n in NodesOf(db.taskNodes, taskId);
        assert n.fromUserId !in q && n.toUserId !in q;
      }
    } else {
      var u := q[0];
      assert u in q;
      var n :| n in NodesOf(db.taskNodes, taskId) && (n.fromUserId == u || n.toUserId == u);
      assert n in db.taskNodes && n.taskId == taskId;
    }
  }

  /** A predefined round is created in stage level order. */
  lemma CompletePredefinedRoundInLevelOrder(db: Db, taskId: Id, completerUserId: Id)
    requires Complete(db, taskId, completerUserId).out.Ok?
    requires db.tasks[FindTask(db.tasks, taskId).value].approvalType == Predefined
    ensures LevelsNondecreasing(Complete(db, taskId, completerUserId).out.value)
  {
    var task := db.tasks[FindTask(db.tasks, taskId).value];
    if !Present(task.approvalTemplateId) {
      var active := ActiveTemplates(db.approvalTemplates);
      var i := MatchTemplate(active, DepartmentName(db.departments, task), task.amount).value;
      TemplateRowsFollowStageOrder(task, db.users, SortStages(active[i].stages));
    } else {
      var i := FindTemplate(db.approvalTemplates, task.approvalTemplateId.value).value;
      TemplateRowsFollowStageOrder(task, db.users, SortStages(db.approvalTemplates[i].stages));
    }
  }

  lemma {:induction false} NoRowsWhenNoStageResolves(task: Task, users: seq<User>, stages: seq<Stage>)
    requires forall s :: s in stages ==> !Present(ResolveStage(s, task, users))
    ensures TemplateRows(task, users, stages) == []
  {
    if stages != [] {
      var prefix := stages[..|stages| - 1];
      assert forall s :: s in prefix ==> s in stages;
      NoRowsWhenNoStageResolves(task, users, prefix);
      assert stages[|stages| - 1] in stages;
    }
  }

  /** Sorting the stages by level does not make an unresolvable stage resolve. */
  lemma NoRowsWhenNoSortedStageResolves(task: Task, users: seq<User>, stages: seq<Stage>)
    requires forall s :: s in stages ==> !Present(ResolveStage(s, task, users))
    ensures TemplateRows(task, users, SortStages(stages)) == []
  {
    var sorted := SortStages(stages);
    forall s | s in sorted ensures !Present(ResolveStage(s, task, users)) {
      assert s in multiset(sorted);
    }
    NoRowsWhenNoStageResolves(task, users, sorted);
  }

  /**
   * The predefined path has no "no approvers" check: when none of the
   * template's stages resolves, completion still succeeds with an empty
   * round and the task goes to pending_approval.
   */
  lemma CompletePredefinedWithoutApprovers(db: Db, taskId: Id, completerUserId: Id, ti: nat)
    requires FindTask(db.tasks, taskId).Some?
    requires var task := db.tasks[FindTask(db.tasks, taskId).value];
      && task.approvalType == Predefined && task.status !in {Approved, Completed}
      && Present(task.approvalTemplateId)
      && FindTemplate(db.approvalTemplates, task.approvalTemplateId.value) == Some(ti)
      && forall s :: s in db.approvalTemplates[ti].stages ==> !Present(ResolveStage(s, task, db.users))
    ensures var k := FindTask(db.tasks, taskId).value;
      Complete(db, taskId, completerUserId)
        == Step(Ok([]), db.(tasks := db.tasks[k := db.tasks[k].(status := PendingApproval)]))
  {
    var k := FindTask(db.tasks, taskId).value;
    NoRowsWhenNoSortedStageResolves(db.tasks[k], db.users, db.approvalTemplates[ti].stages);
    assert PredefinedRows(db, db.tasks[k]) == Ok([]);
    CompletePredefinedSubmits(db, taskId, completerUserId, k, []);
    assert db.taskApprovers + [] == db.taskApprovers;
  }

  /**
   * The same holds on the matched route: a predefined task that names no
   * template and matches one whose stages all fail to resolve is submitted
   * with an empty round.
   */
  lemma CompleteMatchedWithoutApprovers(db: Db, taskId: Id, completerUserId: Id, i: nat)
    requires FindTask(db.tasks, taskId).Some?
    requires var task := db.tasks[FindTask(db.tasks, taskId).value];
      && task.approvalType == Predefined && task.status !in {Approved, Completed}
      && !Present(task.approvalTemplateId)
      && MatchTemplate(ActiveTemplates(db.approvalTemplates), DepartmentName(db.departments, task), task.amount) == Some(i)
      && forall s :: s in ActiveTemplates(db.approvalTemplates)[i].stages ==> !Present(ResolveStage(s, task, db.users))
    ensures var k := FindTask(db.tasks, taskId).value;
      Complete(db, taskId, completerUserId)
        == Step(Ok([]), db.(tasks := db.tasks[k := db.tasks[k].(status := PendingApproval)]))
  {
    var k := FindTask(db.tasks, taskId).value;
    NoRowsWhenNoSortedStageResolves(db.tasks[k], db.users, ActiveTemplates(db.approvalTemplates)[i].stages);
    assert PredefinedRows(db, db.tasks[k]) == Ok([]);
    CompletePredefinedSubmits(db, taskId, completerUserId, k, []);
    assert db.taskApprovers + [] == db.taskApprovers;
  }

  /**
   * Nothing stops a second completion while the task is pending_approval:
   * a 360 task submitted twice by the same completer gets the same round
   * appended a second time.
   */
  lemma SecondCompletionAppendsAnotherRound(db: Db, taskId: Id, completerUserId: Id)
    requires Complete(db, taskId, completerUserId).out.Ok?
    requires db.tasks[FindTask(db.tasks, taskId).value].approvalType == ThreeSixty
    ensures var first := Complete(db, taskId, completerUserId);
      var second := Complete(first.db, taskId, completerUserId);
      && second.out == first.out
      && second.db.taskApprovers == db.taskApprovers + first.out.value + first.out.value
  {
    var first := Complete(db, taskId, completerUserId);
    FindTaskKeepsPosition(db.tasks, first.db.tasks, taskId);
  }

  // ---------------------------------------------------------------------
  // processApproval

  /** Every failure of an approval leaves the store exactly as it was. */
  lemma ApproveFailureChangesNothing(db: Db, taskId: Id, approverUserId: Id)
    requires Approve(db, taskId, approverUserId).out.Err?
    ensures Approve(db, taskId, approverUserId).db == db
  {
  }

  /** An approval is refused exactly when the user holds no pending row of the task. */
  lemma ApproveNeedsPendingRow(db: Db, taskId: Id, approverUserId: Id)
    requires FindTask(db.tasks, taskId).Some?
    ensures Approve(db, taskId, approverUserId).out == Err(NoPendingApproval) <==>
              forall a :: a in db.taskApprovers ==> !PendingFor(a, taskId, approverUserId)
  {
  }

  /**
   * The ordering rule: a successful approval marks approved one pending
   * row of the user, the lowest of their pending levels, and only after
   * every row of the task at a strictly lower level was approved; no other
   * row changes.
   */
  lemma ApproveFollowsLevelOrder(db: Db, taskId: Id, approverUserId: Id)
    requires Approve(db, taskId, approverUserId).out.Ok?
    ensures var rows, rows' := db.taskApprovers, Approve(db, taskId, approverUserId).db.taskApprovers;
      exists i :: 0 <= i < |rows| && PendingFor(rows[i], taskId, approverUserId)
        && rows' == rows[i := rows[i].(status := ApprovedRow)]
        && (forall j :: 0 <= j < |rows| && rows[j].taskId == taskId && rows[j].levelOrder < rows[i].levelOrder ==>
              rows[j].status == ApprovedRow)
        && (forall j :: 0 <= j < |rows| && PendingFor(rows[j], taskId, approverUserId) ==>
              rows[i].levelOrder <= rows[j].levelOrder)
  {
    var i := LowestPending(db.taskApprovers, taskId, approverUserId).value;
    assert LowerLevelsApproved(db.taskApprovers, taskId, db.taskApprovers[i].levelOrder);
  }

  /** Row `i` is a pending row of the user at the lowest of their pending levels. */
  predicate LowestPendingAt(rows: seq<TaskApprover>, taskId: Id, userId: Id, i: int) {
    && 0 <= i < |rows| && PendingFor(rows[i], taskId, userId)
    && forall j :: 0 <= j < |rows| && PendingFor(rows[j], taskId, userId) ==> rows[i].levelOrder <= rows[j].levelOrder
  }

  /**
   * An approval refused for ordering: some row of the task below the
   * user's lowest pending level is not yet approved.
   */
  lemma ApproveRefusedOutOfOrder(db: Db, taskId: Id, approverUserId: Id)
    requires Approve(db, taskId, approverUserId).out == Err(PreviousLevelIncomplete)
    ensures var rows := db.taskApprovers;
      exists i, j :: LowestPendingAt(rows, taskId, approverUserId, i) && 0 <= j < |rows|
        && rows[j].taskId == taskId && rows[j].levelOrder < rows[i].levelOrder && rows[j].status != ApprovedRow
  {
    var i := LowestPending(db.taskApprovers, taskId, approverUserId).value;
    assert LowestPendingAt(db.taskApprovers, taskId, approverUserId, i);
    assert !LowerLevelsApproved(db.taskApprovers, taskId, db.taskApprovers[i].levelOrder);
  }

  /**
   * When an approval succeeds and when it is refused: no such task; no
   * pending row of the user (ApproveNeedsPendingRow); a lower level not yet
   * approved under the user's lowest pending row. Otherwise it succeeds.
   */
  lemma ApproveRefusals(db: Db, taskId: Id, approverUserId: Id)
    ensures var s, rows := Approve(db, taskId, approverUserId), db.taskApprovers;
      && (s.out.Err? ==> s.out.error in {TaskNotFound, NoPendingApproval, PreviousLevelIncomplete})
      && (s.out == Err(TaskNotFound) <==> FindTask(db.tasks, taskId).None?)
      && (s.out == Err(PreviousLevelIncomplete) <==>
            FindTask(db.tasks, taskId).Some?
            && exists i :: LowestPendingAt(rows, taskId, approverUserId, i) && !LowerLevelsApproved(rows, taskId, rows[i].levelOrder))
      && (s.out.Ok? <==>
            FindTask(db.tasks, taskId).Some?
            && exists i :: LowestPendingAt(rows, taskId, approverUserId, i) && LowerLevelsApproved(rows, taskId, rows[i].levelOrder))
  {
    var rows := db.taskApprovers;
    var r := LowestPending(rows, taskId, approverUserId);
    if r.Some? {
      assert LowestPendingAt(rows, taskId, approverUserId, r.value);
      forall i | LowestPendingAt(rows, taskId, approverUserId, i)
        ensures rows[i].levelOrder == rows[r.value].levelOrder
      {
      }
    }
  }

  /**
   * The completion check: the answer is true exactly when no row of the
   * task is left pending after the update, and then, and only then, the
   * task becomes approved.
   */
  lemma ApproveCompletesRound(db: Db, taskId: Id, approverUserId: Id)
    requires Approve(db, taskId, approverUserId).out.Ok?
    ensures var s, k := Approve(db, taskId, approverUserId), FindTask(db.tasks, taskId).value;
      && (s.out.value <==> forall a :: a in s.db.taskApprovers ==> !(a.taskId == taskId && a.status == PendingRow))
      && (s.out.value ==> s.db.tasks == db.tasks[k := db.tasks[k].(status := Approved)])
      && (!s.out.value ==> s.db.tasks == db.tasks)
      && s.db.taskNodes == db.taskNodes && s.db.users == db.users
      && s.db.departments == db.departments && s.db.approvalTemplates == db.approvalTemplates
  {
    var rows := db.taskApprovers;
    var i := LowestPending(rows, taskId, approverUserId).value;
    var rows' := rows[i := rows[i].(status := ApprovedRow)];
    PendingCountAfterApproval(rows, taskId, i);
    PendingCountZero(rows, taskId);
    PendingCountZero(rows', taskId);
    assert rows' == Approve(db, taskId, approverUserId).db.taskApprovers;
    forall a | a in rows' ensures (a.taskId == taskId && a.status == PendingRow) ==> PendingCount(rows', taskId) != 0 {
      var j :| 0 <= j < |rows'| && rows'[j] == a;
    }
  }

  /** The approval rules never look at the task's status: changing it does not change the answer. */
  lemma ApproveIgnoresTaskStatus(db: Db, taskId: Id, approverUserId: Id, k: nat, status: TaskStatus)
    requires k < |db.tasks|
    ensures Approve(db.(tasks := db.tasks[k := db.tasks[k].(status := status)]), taskId, approverUserId).out
              == Approve(db, taskId, approverUserId).out
  {
    FindTaskKeepsPosition(db.tasks, db.tasks[k := db.tasks[k].(status := status)], taskId);
  }

  /** Once the last level is approved, the task cannot be submitted again. */
  lemma ApprovedTaskIsFinal(db: Db, taskId: Id, approverUserId: Id, completerUserId: Id)
    requires Approve(db, taskId, approverUserId).out == Ok(true)
    ensures var after := Approve(db, taskId, approverUserId).db;
      Complete(after, taskId, completerUserId) == Step(Err(AlreadyCompleted), after)
  {
    var after := Approve(db, taskId, approverUserId).db;
    FindTaskKeepsPosition(db.tasks, after.tasks, taskId);
  }

  // ---------------------------------------------------------------------
  // processRejection

  lemma {:induction false} NoRowsOfAbsentTask(rows: seq<TaskApprover>, taskId: Id)
    requires forall a :: a in rows ==> a.taskId != taskId
    ensures RowsOf(rows, taskId) == []
  {
    if rows != [] {
      var prefix := rows[..|rows| - 1];
      assert forall a :: a in prefix ==> a in rows;
      NoRowsOfAbsentTask(prefix, taskId);
      assert rows[|rows| - 1] in rows;
    }
  }

  lemma {:induction false} OtherTasksRowsSurviveDeletion(rows: seq<TaskApprover>, taskId: Id, other: Id)
    requires other != taskId
    ensures RowsOf(WithoutRowsOf(rows, taskId), other) == RowsOf(rows, other)
  {
    if rows != [] {
      var prefix, last := rows[..|rows| - 1], rows[|rows| - 1];
      OtherTasksRowsSurviveDeletion(prefix, taskId, other);
      var kept := if last.taskId != taskId then [last] else [];
      assert WithoutRowsOf(rows, taskId) == WithoutRowsOf(prefix, taskId) + kept;
      FilterAppend(WithoutRowsOf(prefix, taskId), kept, (a: TaskApprover) => a.taskId == other);
      assert RowsOf(kept, other) == Filter(kept, (a: TaskApprover) => a.taskId == other);
      if kept != [] {
        assert kept[..0] == [];
      }
    }
  }

  lemma {:induction false} OtherTasksRowsIgnoreUpdate(rows: seq<TaskApprover>, i: nat, row: TaskApprover, other: Id)
    requires i < |rows| && rows[i].taskId != other && row.taskId != other
    ensures RowsOf(rows[i := row], other) == RowsOf(rows, other)
  {
    var n := |rows| - 1;
    var updated := rows[i := row];
    if i == n {
      assert updated[..n] == rows[..n];
    } else {
      OtherTasksRowsIgnoreUpdate(rows[..n], i, row, other);
      assert updated[..n] == rows[..n][i := row];
    }
  }

  /**
   * A rejection is refused for a missing task, and for a user who holds no
   * pending row of it; neither refusal writes anything. Otherwise it
   * succeeds exactly when a target user is found.
   */
  lemma RejectRefusals(db: Db, taskId: Id, approverUserId: Id, forwardToUserId: Option<Id>)
    ensures var s := Reject(db, taskId, approverUserId, forwardToUserId);
      && (s.out == Err(TaskNotFound) <==> FindTask(db.tasks, taskId).None?)
      && (s.out == Err(NoPendingApproval) <==>
            FindTask(db.tasks, taskId).Some? && forall a :: a in db.taskApprovers ==> !PendingFor(a, taskId, approverUserId))
      && (s.out == Err(TaskNotFound) || s.out == Err(NoPendingApproval) ==> s.db == db)
      && (s.out.Err? ==> s.out.error in {TaskNotFound, NoPendingApproval, NoTargetUser})
      && (s.out.Ok? <==>
            FindTask(db.tasks, taskId).Some?
            && (exists a :: a in db.taskApprovers && PendingFor(a, taskId, approverUserId))
            && RejectTarget(forwardToUserId, db.tasks[FindTask(db.tasks, taskId).value]) != "")
  {
  }

  /**
   * The round reset: a successful rejection deletes every approver row of
   * the task, whatever their number, keeps every other task's rows as they
   * were, appends a hand-off from the rejecter to the target and makes the
   * target the rejected task's assignee.
   */
  lemma RejectResetsRound(db: Db, taskId: Id, approverUserId: Id, forwardToUserId: Option<Id>)
    requires Reject(db, taskId, approverUserId, forwardToUserId).out.Ok?
    ensures var s, k := Reject(db, taskId, approverUserId, forwardToUserId), FindTask(db.tasks, taskId).value;
      var target := RejectTarget(forwardToUserId, db.tasks[k]);
      && target != ""
      && RowsOf(s.db.taskApprovers, taskId) == []
      && (forall other :: other != taskId ==> RowsOf(s.db.taskApprovers, other) == RowsOf(db.taskApprovers, other))
      && s.db.taskNodes == db.taskNodes + [TaskNode(taskId, approverUserId, target)]
      && s.db.tasks == db.tasks[k := db.tasks[k].(assigneeId := Some(target), status := Rejected)]
      && s.db == db.(taskNodes := s.db.taskNodes, tasks := s.db.tasks, taskApprovers := s.db.taskApprovers)
  {
    var s := Reject(db, taskId, approverUserId, forwardToUserId);
    var i := FirstPending(db.taskApprovers, taskId, approverUserId).value;
    var marked := db.taskApprovers[i := db.taskApprovers[i].(status := RejectedRow)];
    assert s.db.taskApprovers == WithoutRowsOf(marked, taskId);
    NoRowsOfAbsentTask(s.db.taskApprovers, taskId);
    forall other | other != taskId
      ensures RowsOf(s.db.taskApprovers, other) == RowsOf(db.taskApprovers, other)
    {
      OtherTasksRowsSurviveDeletion(marked, taskId, other);
      OtherTasksRowsIgnoreUpdate(db.taskApprovers, i, marked[i], other);
    }
  }

  /**
   * When no target is found (no forwardToUserId, assignee or creator), the
   * rejection fails, but the user's pending row has already been marked
   * rejected: the one failure that changes the store.
   */
  lemma RejectWithoutTargetStillMarksRow(db: Db, taskId: Id, approverUserId: Id, forwardToUserId: Option<Id>)
    requires Reject(db, taskId, approverUserId, forwardToUserId).out == Err(NoTargetUser)
    ensures var s, task := Reject(db, taskId, approverUserId, forwardToUserId), db.tasks[FindTask(db.tasks, taskId).value];
      var rows := db.taskApprovers;
      && !Present(forwardToUserId) && !Present(task.assigneeId) && task.creatorId == ""
      && s.db != db
      && exists i :: 0 <= i < |rows| && PendingFor(rows[i], taskId, approverUserId)
           && s.db == db.(taskApprovers := rows[i := rows[i].(status := RejectedRow)])
  {
    var i := FirstPending(db.taskApprovers, taskId, approverUserId).value;
    var s := Reject(db, taskId, approverUserId, forwardToUserId);
    assert s.db.taskApprovers[i].status == RejectedRow;
  }

  /** After a rejection nobody can approve the task until it is submitted again. */
  lemma RejectedRoundCannotBeApproved(db: Db, taskId: Id, approverUserId: Id, forwardToUserId: Option<Id>, anyone: Id)
    requires Reject(db, taskId, approverUserId, forwardToUserId).out.Ok?
    ensures var after := Reject(db, taskId, approverUserId, forwardToUserId).db;
      Approve(after, taskId, anyone) == Step(Err(NoPendingApproval), after)
  {
    var after := Reject(db, taskId, approverUserId, forwardToUserId).db;
    RejectResetsRound(db, taskId, approverUserId, forwardToUserId);
    FindTaskKeepsPosition(db.tasks, after.tasks, taskId);
  }

  /**
   * A rejected `specific` task cannot be submitted again: its manual
   * approver rows were created once, with the task, and the rejection
   * deleted them.
   */
  lemma RejectedSpecificTaskCannotBeResubmitted(db: Db, taskId: Id, approverUserId: Id, forwardToUserId: Option<Id>, completerUserId: Id)
    requires Reject(db, taskId, approverUserId, forwardToUserId).out.Ok?
    requires db.tasks[FindTask(db.tasks, taskId).value].approvalType == Specific
    ensures var after := Reject(db, taskId, approverUserId, forwardToUserId).db;
      Complete(after, taskId, completerUserId) == Step(Err(NoManualApprovers), after)
  {
    var after := Reject(db, taskId, approverUserId, forwardToUserId).db;
    RejectResetsRound(db, taskId, approverUserId, forwardToUserId);
    FindTaskKeepsPosition(db.tasks, after.tasks, taskId);
  }
}
