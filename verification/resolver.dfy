/**
 * Who must approve a submitted task, and in what order:
 *  - the backward queue of a 360 task (`buildBackwardQueue`): the distinct
 *    participants of the forwarding ledger in first-seen order, without the
 *    completer, reversed;
 *  - the approver of one template stage (`user`, `role`, `dynamic_role`
 *    HOD/CFO), resolved against the users table;
 *  - the pending TaskApprover rows that `generateTaskApprovers360` and
 *    `generateTaskApproversFromTemplate` create from those.
 */
module ApproverResolver {
  import opened Entities
  import opened Stores
  import opened TemplateMatcher

  // ---------------------------------------------------------------------
  // Backward queue (360 approval)

  /** `Set.add` on an insertion-ordered set, skipping the excluded user. */
  function AddUnlessExcluded(seen: seq<Id>, u: Id, exclude: Id): seq<Id> {
    if u == exclude || u in seen then seen else seen + [u]
  }

  /**
   * The insertion-ordered set the loop of `buildBackwardQueue` fills: per
   * node in ledger order, its sender and then its receiver, each added
   * unless it is `exclude` or already present.
   */
  function FirstSeen(nodes: seq<TaskNode>, exclude: Id): seq<Id> {
    if nodes == [] then []
    else
      var n := nodes[|nodes| - 1];
      AddUnlessExcluded(AddUnlessExcluded(FirstSeen(nodes[..|nodes| - 1], exclude), n.fromUserId, exclude), n.toUserId, exclude)
  }

  /** The approval chain of a 360 task whose work `exclude` has just completed. */
  function BackwardQueue(nodes: seq<TaskNode>, taskId: Id, exclude: Id): seq<Id> {
    Reverse(FirstSeen(NodesOf(nodes, taskId), exclude))
  }

  ghost predicate NoDuplicates(s: seq<Id>) {
    forall i, j :: 0 <= i < j < |s| ==> s[i] != s[j]
  }

  /** `u` sent or received one of `nodes`. */
  ghost predicate Participant(nodes: seq<TaskNode>, u: Id) {
    exists n :: n in nodes && (n.fromUserId == u || n.toUserId == u)
  }

  lemma AddUnlessExcludedKeepsSet(seen: seq<Id>, u: Id, exclude: Id)
    requires NoDuplicates(seen)
    ensures NoDuplicates(AddUnlessExcluded(seen, u, exclude))
    ensures forall x :: x in AddUnlessExcluded(seen, u, exclude) <==> x in seen || (x == u && u != exclude)
  {
  }

  lemma {:induction false} FirstSeenIsParticipantSet(nodes: seq<TaskNode>, exclude: Id)
    ensures NoDuplicates(FirstSeen(nodes, exclude))
    ensures forall u :: u in FirstSeen(nodes, exclude) <==> u != exclude && Participant(nodes, u)
  {
    if nodes != [] {
      var prefix, n := nodes[..|nodes| - 1], nodes[|nodes| - 1];
      FirstSeenIsParticipantSet(prefix, exclude);
      var afterFrom := AddUnlessExcluded(FirstSeen(prefix, exclude), n.fromUserId, exclude);
      AddUnlessExcludedKeepsSet(FirstSeen(prefix, exclude), n.fromUserId, exclude);
      AddUnlessExcludedKeepsSet(afterFrom, n.toUserId, exclude);
      assert nodes == prefix + [n];
      forall u ensures Participant(nodes, u) <==> Participant(prefix, u) || n.fromUserId == u || n.toUserId == u {
        if Participant(nodes, u) && !Participant(prefix, u) {
          var m :| m in nodes && (m.fromUserId == u || m.toUserId == u);
          assert m !in prefix;
          assert m == n;
        }
        if Participant(prefix, u) {
          var m :| m in prefix && (m.fromUserId == u || m.toUserId == u);
          assert m in nodes;
        }
        if n.fromUserId == u || n.toUserId == u {
          assert n in nodes;
        }
      }
    }
  }

  lemma FirstSeenSnoc(nodes: seq<TaskNode>, n: TaskNode, exclude: Id)
    ensures FirstSeen(nodes + [n], exclude)
         == AddUnlessExcluded(AddUnlessExcluded(FirstSeen(nodes, exclude), n.fromUserId, exclude), n.toUserId, exclude)
  {
    assert (nodes + [n])[..|nodes|] == nodes;
  }

  /**
   * The backward queue has no duplicates, holds exactly the task's ledger
   * participants other than the completer, and is their first-seen order
   * read backwards.
   */
  lemma BackwardQueueIsReversedParticipants(nodes: seq<TaskNode>, taskId: Id, exclude: Id)
    ensures var q, seen := BackwardQueue(nodes, taskId, exclude), FirstSeen(NodesOf(nodes, taskId), exclude);
      && NoDuplicates(q)
      && (forall u :: u in q <==> u != exclude && Participant(NodesOf(nodes, taskId), u))
      && |q| == |seen|
      && (forall k :: 0 <= k < |q| ==> q[k] == seen[|seen| - 1 - k])
  {
    var seen := FirstSeen(NodesOf(nodes, taskId), exclude);
    FirstSeenIsParticipantSet(NodesOf(nodes, taskId), exclude);
    ReverseAt(seen);
    var q := Reverse(seen);
    forall i, j | 0 <= i < j < |q|
      ensures q[i] != q[j]
    {
      assert q[i] == seen[|seen| - 1 - i] && q[j] == seen[|seen| - 1 - j];
    }
  }

  /** Every user in the queue took part in a hand-off of this very task. */
  lemma BackwardQueueMembersForwardedTask(nodes: seq<TaskNode>, taskId: Id, exclude: Id, u: Id)
    requires u in BackwardQueue(nodes, taskId, exclude)
    ensures u != exclude
    ensures exists n :: n in nodes && n.taskId == taskId && (n.fromUserId == u || n.toUserId == u)
  {
    BackwardQueueIsReversedParticipants(nodes, taskId, exclude);
    var n :| n in NodesOf(nodes, taskId) && (n.fromUserId == u || n.toUserId == u);
    assert n in nodes && n.taskId == taskId;
  }

  /** One node of the loop of `buildBackwardQueue`: its sender, then its receiver, each unless excluded or present. */
  method AddEnds(userIds: seq<Id>, node: TaskNode, excludeUserId: Id) returns (next: seq<Id>)
    ensures next == AddUnlessExcluded(AddUnlessExcluded(userIds, node.fromUserId, excludeUserId), node.toUserId, excludeUserId)
  {
    next := userIds;
    if node.fromUserId != excludeUserId && node.fromUserId !in next {
      next := next + [node.fromUserId];
    }
    if node.toUserId != excludeUserId && node.toUserId !in next {
      next := next + [node.toUserId];
    }
  }

  /** The loop of `buildBackwardQueue`: one pass over the ledger filling the insertion-ordered set. */
  method CollectParticipants(nodes: seq<TaskNode>, taskId: Id, excludeUserId: Id) returns (userIds: seq<Id>)
    ensures userIds == FirstSeen(NodesOf(nodes, taskId), excludeUserId)
  {
    userIds := [];
    ghost var taskNodes: seq<TaskNode> := [];
    var i := 0;
    while i < |nodes|
      invariant 0 <= i <= |nodes|
      invariant taskNodes == NodesOf(nodes[..i], taskId)
      invariant userIds == FirstSeen(taskNodes, excludeUserId)
    {
      var node := nodes[i];
      PrefixSnoc(nodes, i);
      NodesOfSnoc(nodes[..i], node, taskId);
      if node.taskId == taskId {
        FirstSeenSnoc(taskNodes, node, excludeUserId);
        userIds := AddEnds(userIds, node, excludeUserId);
        taskNodes := taskNodes + [node];
      }
      i := i + 1;
    }
    PrefixAll(nodes);
  }

  /** `buildBackwardQueue`: the participants in first-seen order, then `reverse()`. */
  method BuildBackwardQueue(store: Store, taskId: Id, excludeUserId: Id) returns (queue: seq<Id>)
    ensures queue == BackwardQueue(store.taskNodes, taskId, excludeUserId)
  {
    var userIds := CollectParticipants(store.taskNodes, taskId, excludeUserId);
    queue := Reverse(userIds);
  }

  // ---------------------------------------------------------------------
  // Approver rows

  /** The rows a 360 completion creates: one pending row per queue entry, at level index + 1. */
  function Rows360(taskId: Id, queue: seq<Id>): (r: seq<TaskApprover>)
    ensures |r| == |queue|
    ensures forall i :: 0 <= i < |r| ==> r[i] == TaskApprover(taskId, i + 1, queue[i], PendingRow)
  {
    if queue == [] then []
    else Rows360(taskId, queue[..|queue| - 1]) + [TaskApprover(taskId, |queue|, queue[|queue| - 1], PendingRow)]
  }

  const HodRole: string := "hod"
  const CfoRole: string := "cfo"

  /**
   * The `where` of the user lookups: active, with the given role, and in the
   * given department when one is asked for.
   */
  predicate Qualifies(u: User, role: string, departmentId: Option<Id>) {
    u.active && u.role == role && (departmentId.Some? ==> u.departmentId == departmentId)
  }

  /** `prisma.user.findFirst` on that `where`: the first qualifying user in store order. */
  function FirstQualifying(users: seq<User>, role: string, departmentId: Option<Id>): (r: Option<Id>)
    ensures r.Some? ==> exists i :: 0 <= i < |users| && users[i].id == r.value && Qualifies(users[i], role, departmentId)
                         && forall j :: 0 <= j < i ==> !Qualifies(users[j], role, departmentId)
    ensures r.None? <==> forall u :: u in users ==> !Qualifies(u, role, departmentId)
  {
    match Find(users, (u: User) => Qualifies(u, role, departmentId))
    case Some(i) => Some(users[i].id)
    case None => None
  }

  /** Some user of `users` with this id qualifies. */
  ghost predicate HeldBy(users: seq<User>, id: Id, role: string, departmentId: Option<Id>) {
    exists u :: u in users && u.id == id && Qualifies(u, role, departmentId)
  }

  /**
   * The approver of one template stage. A `user` stage names its approver;
   * a `role` stage takes an active holder of that role; the dynamic role
   * `HOD` takes an active `hod` of the task's department and `CFO` an active
   * `cfo`. Anything else, or no qualifying user, leaves the stage
   * unresolved.
   */
  function ResolveStage(stage: Stage, task: Task, users: seq<User>): (r: Option<Id>)
    ensures stage.approverType == "user" ==> r == Some(stage.approverValue)
    ensures stage.approverType !in {"user", "role", "dynamic_role"} ==> r.None?
    ensures stage.approverType == "dynamic_role" && stage.approverValue == "HOD" && !Present(task.departmentId) ==> r.None?
  {
    if stage.approverType == "user" then Some(stage.approverValue)
    else if stage.approverType == "role" then FirstQualifying(users, stage.approverValue, None)
    else if stage.approverType == "dynamic_role" then
      if stage.approverValue == "HOD" then
        if Present(task.departmentId) then FirstQualifying(users, HodRole, task.departmentId) else None
      else if stage.approverValue == "CFO" then FirstQualifying(users, CfoRole, None)
      else None
    else None
  }

  /**
   * What each stage kind resolves to: a `user` stage its named user; a
   * `role` stage, HOD and CFO a qualifying holder of that role exactly when
   * one exists; anything else nobody.
   */
  lemma ResolveStageMeaning(stage: Stage, task: Task, users: seq<User>)
    ensures var r, kind, value := ResolveStage(stage, task, users), stage.approverType, stage.approverValue;
      && (kind == "user" ==> r == Some(value))
      && (kind == "role" ==>
            (r.Some? <==> exists u :: u in users && Qualifies(u, value, None))
            && (r.Some? ==> HeldBy(users, r.value, value, None)))
      && (kind == "dynamic_role" && value == "HOD" ==>
            (r.Some? <==> Present(task.departmentId) && exists u :: u in users && Qualifies(u, HodRole, task.departmentId))
            && (r.Some? ==> HeldBy(users, r.value, HodRole, task.departmentId)))
      && (kind == "dynamic_role" && value == "CFO" ==>
            (r.Some? <==> exists u :: u in users && Qualifies(u, CfoRole, None))
            && (r.Some? ==> HeldBy(users, r.value, CfoRole, None)))
      && (kind !in {"user", "role", "dynamic_role"} ==> r.None?)
      && (kind == "dynamic_role" && value !in {"HOD", "CFO"} ==> r.None?)
  {
  }

  /** The row one stage contributes: none when its approver is unresolved or empty. */
  function StageRow(task: Task, users: seq<User>, stage: Stage): seq<TaskApprover> {
    var approver := ResolveStage(stage, task, users);
    if Present(approver) then [TaskApprover(task.id, stage.levelOrder, approver.value, PendingRow)] else []
  }

  /** The rows `generateTaskApproversFromTemplate` creates for `stages`, in stage order. */
  function TemplateRows(task: Task, users: seq<User>, stages: seq<Stage>): (r: seq<TaskApprover>)
    ensures |r| <= |stages|
    ensures forall a :: a in r ==> a.taskId == task.id && a.status == PendingRow && a.approverUserId != ""
  {
    if stages == [] then []
    else TemplateRows(task, users, stages[..|stages| - 1]) + StageRow(task, users, stages[|stages| - 1])
  }

  /** Every row comes from a stage of the template: at that stage's level, for the user the stage resolves to. */
  lemma {:induction false} TemplateRowsComeFromStages(task: Task, users: seq<User>, stages: seq<Stage>)
    ensures forall a :: a in TemplateRows(task, users, stages) ==>
              exists s :: s in stages && s.levelOrder == a.levelOrder && ResolveStage(s, task, users) == Some(a.approverUserId)
  {
    if stages != [] {
      var prefix, last := stages[..|stages| - 1], stages[|stages| - 1];
      TemplateRowsComeFromStages(task, users, prefix);
      forall a | a in TemplateRows(task, users, stages)
        ensures exists s :: s in stages && s.levelOrder == a.levelOrder && ResolveStage(s, task, users) == Some(a.approverUserId)
      {
        if a in TemplateRows(task, users, prefix) {
          var s :| s in prefix && s.levelOrder == a.levelOrder && ResolveStage(s, task, users) == Some(a.approverUserId);
          assert s in stages;
        } else {
          assert a in StageRow(task, users, last);
          assert last in stages;
        }
      }
    }
  }

  ghost predicate LevelsNondecreasing(rows: seq<TaskApprover>) {
    forall i, j :: 0 <= i < j < |rows| ==> rows[i].levelOrder <= rows[j].levelOrder
  }

  /** Stages read in level order give rows in level order. */
  lemma {:induction false} TemplateRowsFollowStageOrder(task: Task, users: seq<User>, stages: seq<Stage>)
    requires SortedByLevel(stages)
    ensures LevelsNondecreasing(TemplateRows(task, users, stages))
  {
    if stages != [] {
      var prefix, last := stages[..|stages| - 1], stages[|stages| - 1];
      assert SortedByLevel(prefix);
      TemplateRowsFollowStageOrder(task, users, prefix);
      TemplateRowsComeFromStages(task, users, prefix);
      var rest := TemplateRows(task, users, prefix);
      forall a | a in rest ensures a.levelOrder <= last.levelOrder {
        var s :| s in prefix && s.levelOrder == a.levelOrder && ResolveStage(s, task, users) == Some(a.approverUserId);
        var k :| 0 <= k < |prefix| && prefix[k] == s;
        assert stages[k] == s;
      }
      var r := TemplateRows(task, users, stages);
      assert r == rest + StageRow(task, users, last);
      forall i, j | 0 <= i < j < |r| ensures r[i].levelOrder <= r[j].levelOrder {
        if j >= |rest| {
          assert r[j].levelOrder == last.levelOrder;
          if i < |rest| {
            assert r[i] in rest;
          }
        }
      }
    }
  }

  /** A stage whose approver resolves contributes exactly one row, at its own level. */
  lemma StageRowWhenResolved(task: Task, users: seq<User>, stage: Stage)
    requires Present(ResolveStage(stage, task, users))
    ensures |StageRow(task, users, stage)| == 1 && StageRow(task, users, stage)[0].levelOrder == stage.levelOrder
  {
  }

  /** When every stage resolves, every stage yields exactly one row, at its own level. */
  lemma {:induction false} TemplateRowsWhenAllResolve(task: Task, users: seq<User>, stages: seq<Stage>)
    requires forall j :: 0 <= j < |stages| ==> Present(ResolveStage(stages[j], task, users))
    ensures |TemplateRows(task, users, stages)| == |stages|
    ensures forall i :: 0 <= i < |stages| ==> TemplateRows(task, users, stages)[i].levelOrder == stages[i].levelOrder
  {
    if stages != [] {
      var n := |stages| - 1;
      var prefix, last := stages[..n], stages[n];
      TemplateRowsWhenAllResolve(task, users, prefix);
      StageRowWhenResolved(task, users, last);
      var rest, row := TemplateRows(task, users, prefix), StageRow(task, users, last);
      var r := TemplateRows(task, users, stages);
      assert r == rest + row;
      forall i | 0 <= i < |stages|
        ensures r[i].levelOrder == stages[i].levelOrder
      {
        if i < n {
          assert r[i] == rest[i] && prefix[i] == stages[i];
        } else {
          assert r[i] == row[0];
        }
      }
    }
  }

  /**
   * A stage whose approver resolves yields its row whatever the other
   * stages do: an unresolved stage is skipped, it does not stop the rest.
   */
  lemma {:induction false} TemplateRowsHaveEveryResolvedStage(task: Task, users: seq<User>, stages: seq<Stage>, j: nat)
    requires j < |stages| && Present(ResolveStage(stages[j], task, users))
    ensures TaskApprover(task.id, stages[j].levelOrder, ResolveStage(stages[j], task, users).value, PendingRow)
              in TemplateRows(task, users, stages)
  {
    var n := |stages| - 1;
    if j < n {
      TemplateRowsHaveEveryResolvedStage(task, users, stages[..n], j);
    }
  }

  /** `generateTaskApprovers360`: creates one pending row per queue entry. */
  method GenerateTaskApprovers360(store: Store, taskId: Id, excludeUserId: Id) returns (approvers: seq<TaskApprover>)
    modifies store
    ensures approvers == Rows360(taskId, BackwardQueue(old(store.taskNodes), taskId, excludeUserId))
    ensures store.Snapshot() == old(store.Snapshot()).(taskApprovers := old(store.taskApprovers) + approvers)
  {
    var userIds := BuildBackwardQueue(store, taskId, excludeUserId);
    approvers := [];
    for i := 0 to |userIds|
      invariant |approvers| == i
      invariant forall j :: 0 <= j < i ==> approvers[j] == TaskApprover(taskId, j + 1, userIds[j], PendingRow)
      invariant store.taskApprovers == old(store.taskApprovers) + approvers
      invariant store.tasks == old(store.tasks) && store.taskNodes == old(store.taskNodes) && store.users == old(store.users)
      invariant store.departments == old(store.departments) && store.approvalTemplates == old(store.approvalTemplates)
    {
      var approver := TaskApprover(taskId, i + 1, userIds[i], PendingRow);
      store.taskApprovers := store.taskApprovers + [approver];
      approvers := approvers + [approver];
    }
    assert approvers == Rows360(taskId, userIds);
  }

  /** `generateTaskApproversFromTemplate`: creates a pending row for each stage that resolves. */
  method GenerateTaskApproversFromTemplate(store: Store, task: Task, stages: seq<Stage>) returns (approvers: seq<TaskApprover>)
    modifies store
    ensures approvers == TemplateRows(task, old(store.users), stages)
    ensures store.Snapshot() == old(store.Snapshot()).(taskApprovers := old(store.taskApprovers) + approvers)
  {
    approvers := [];
    for i := 0 to |stages|
      invariant approvers == TemplateRows(task, store.users, stages[..i])
      invariant store.taskApprovers == old(store.taskApprovers) + approvers
      invariant store.tasks == old(store.tasks) && store.taskNodes == old(store.taskNodes) && store.users == old(store.users)
      invariant store.departments == old(store.departments) && store.approvalTemplates == old(store.approvalTemplates)
    {
      PrefixSnoc(stages, i);
      var stage := stages[i];
      var approverUserId := ResolveStage(stage, task, store.users);
      if Present(approverUserId) {
        var approver := TaskApprover(task.id, stage.levelOrder, approverUserId.value, PendingRow);
        store.taskApprovers := store.taskApprovers + [approver];
        approvers := approvers + [approver];
      }
    }
    PrefixAll(stages);
  }
}
