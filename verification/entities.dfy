/**
 * The rows of the task-flow store (Task, TaskNode, TaskApprover, User,
 * Department, ApprovalTemplate with its stages), the typed failures of the
 * engine and the controllers, and the generic search and filter used by
 * every query on the store.
 */
module Entities {

  datatype Option<+T> = None | Some(value: T) {
    function GetOr(default: T): T {
      match this
      case Some(v) => v
      case None => default
    }
  }

  /** Database identifiers (cuid strings). */
  type Id = string

  /** JavaScript truthiness of a nullable string: present and non-empty. */
  predicate Present(s: Option<string>) {
    s.Some? && s.value != ""
  }

  /** JavaScript truthiness of a nullable amount: present and non-zero. */
  predicate NonZero(amount: Option<int>) {
    amount.Some? && amount.value != 0
  }

  datatype TaskStatus = Open | InProgress | PendingApproval | Approved | Rejected | Completed

  datatype ApprovalType = ThreeSixty | Specific | Predefined

  /** Status of one TaskApprover row. */
  datatype RowStatus = PendingRow | ApprovedRow | RejectedRow

  datatype Task = Task(
    id: Id,
    title: string,
    description: Option<string>,
    creatorId: Id,
    assigneeId: Option<Id>,
    departmentId: Option<Id>,
    amount: Option<int>,
    approvalType: ApprovalType,
    approvalTemplateId: Option<Id>,
    status: TaskStatus)

  /** One hand-off in the forwarding ledger; ledger order is append order. */
  datatype TaskNode = TaskNode(taskId: Id, fromUserId: Id, toUserId: Id)

  datatype TaskApprover = TaskApprover(taskId: Id, levelOrder: int, approverUserId: Id, status: RowStatus)

  datatype User = User(id: Id, role: string, departmentId: Option<Id>, active: bool)

  datatype Department = Department(id: Id, name: string)

  /**
   * The parsed form of a template's conditionJson: an optional `department`
   * clause and an optional `amount_min` clause.
   */
  datatype Condition = Condition(department: Option<string>, amountMin: Option<int>)

  datatype Stage = Stage(levelOrder: int, approverType: string, approverValue: string, conditionJson: string)

  /**
   * `condition` is the result of parsing the stored conditionJson text:
   * None stands for text that does not parse.
   */
  datatype Template = Template(id: Id, name: string, condition: Option<Condition>, isActive: bool, stages: seq<Stage>)

  /** The whole store as a value. */
  datatype Db = Db(
    tasks: seq<Task>,
    taskNodes: seq<TaskNode>,
    taskApprovers: seq<TaskApprover>,
    users: seq<User>,
    departments: seq<Department>,
    approvalTemplates: seq<Template>)

  datatype Error =
    // approval engine
    | TaskNotFound
    | AlreadyCompleted
    | NoApproverPath
    | NoManualApprovers
    | NoMatchingTemplate
    | TemplateMissing
    | NoPendingApproval
    | PreviousLevelIncomplete
    | NoTargetUser
    // controllers
    | MissingField(field: string)
    | InvalidApprovalType
    | InvalidStatus
    | Forbidden
    | StatusLocked
    | InvalidConditionJson
    | StageConditionUnparsable
    | TemplateNotFound
    | TemplateInUse(tasksCount: nat)

  datatype Outcome<+T> = Ok(value: T) | Err(error: Error)

  /** What a transition answers, together with the store it leaves behind. */
  datatype Step<+T> = Step(out: Outcome<T>, db: Db)

  /** Index of the first element satisfying `p` (a `find`/`findFirst`). */
  function Find<T>(s: seq<T>, p: T -> bool): (r: Option<nat>)
    ensures r.Some? ==> r.value < |s| && p(s[r.value])
    ensures r.Some? ==> forall j :: 0 <= j < r.value ==> !p(s[j])
    ensures r.None? <==> forall j :: 0 <= j < |s| ==> !p(s[j])
  {
    if s == [] then None
    else if p(s[0]) then Some(0)
    else
      match Find(s[1..], p)
      case None => None
      case Some(i) => Some(i + 1)
  }

  /** The elements satisfying `p`, in their original order (a `filter` or a `where` query). */
  function Filter<T(!new)>(s: seq<T>, p: T -> bool): (r: seq<T>)
    ensures |r| <= |s|
    ensures forall x :: x in r <==> x in s && p(x)
  {
    if s == [] then []
    else Filter(s[..|s| - 1], p) + (if p(s[|s| - 1]) then [s[|s| - 1]] else [])
  }

  /** The elements of `s` last to first (a `reverse()`, or a descending `orderBy` on append order). */
  function Reverse<T>(s: seq<T>): seq<T> {
    if s == [] then [] else [s[|s| - 1]] + Reverse(s[..|s| - 1])
  }

  /** Reading one more element at the end puts it first once reversed. */
  lemma ReverseSnoc<T>(s: seq<T>, x: T)
    ensures Reverse(s + [x]) == [x] + Reverse(s)
  {
    assert (s + [x])[..|s|] == s;
  }

  /** One more element of `s` read: the prefix grows by it. */
  lemma PrefixSnoc<T>(s: seq<T>, i: nat)
    requires i < |s|
    ensures s[..i + 1] == s[..i] + [s[i]]
    ensures s[..i + 1][..i] == s[..i]
  {
  }

  lemma PrefixAll<T>(s: seq<T>)
    ensures s[..|s|] == s
  {
  }

  lemma {:induction false} ReverseAt<T>(s: seq<T>)
    ensures |Reverse(s)| == |s|
    ensures forall k :: 0 <= k < |s| ==> Reverse(s)[k] == s[|s| - 1 - k]
    ensures forall x :: x in Reverse(s) <==> x in s
  {
    if s != [] {
      ReverseAt(s[..|s| - 1]);
      assert s == s[..|s| - 1] + [s[|s| - 1]];
    }
  }

  function FindTask(tasks: seq<Task>, id: Id): (r: Option<nat>)
    ensures r.Some? ==> r.value < |tasks| && tasks[r.value].id == id
    ensures r.Some? ==> forall j :: 0 <= j < r.value ==> tasks[j].id != id
    ensures r.None? <==> forall j :: 0 <= j < |tasks| ==> tasks[j].id != id
  {
    Find(tasks, (t: Task) => t.id == id)
  }

  function FindTemplate(templates: seq<Template>, id: Id): (r: Option<nat>)
    ensures r.Some? ==> r.value < |templates| && templates[r.value].id == id
    ensures r.Some? ==> forall j :: 0 <= j < r.value ==> templates[j].id != id
    ensures r.None? <==> forall j :: 0 <= j < |templates| ==> templates[j].id != id
  {
    Find(templates, (t: Template) => t.id == id)
  }

  function FindUser(users: seq<User>, id: Id): (r: Option<User>)
    ensures r.Some? ==> r.value in users && r.value.id == id
    ensures r.None? <==> forall u :: u in users ==> u.id != id
  {
    match Find(users, (u: User) => u.id == id)
    case Some(i) => Some(users[i])
    case None => None
  }

  /** The name of the task's department, when it has one (`include: { department: true }`). */
  function DepartmentName(departments: seq<Department>, task: Task): (r: Option<string>)
    ensures r.Some? ==> task.departmentId.Some? && Department(task.departmentId.value, r.value) in departments
    ensures r.None? <==> task.departmentId.None? || forall d :: d in departments ==> d.id != task.departmentId.value
  {
    match task.departmentId
    case None => None
    case Some(d) =>
      match Find(departments, (dep: Department) => dep.id == d)
      case Some(i) => Some(departments[i].name)
      case None => None
  }

  /** Every TaskApprover row of one task, in store order. */
  function RowsOf(rows: seq<TaskApprover>, taskId: Id): (r: seq<TaskApprover>)
    ensures forall a :: a in r <==> a in rows && a.taskId == taskId
  {
    Filter(rows, (a: TaskApprover) => a.taskId == taskId)
  }

  /** Every TaskNode of one task, in ledger (forwardedAt ascending) order. */
  function NodesOf(nodes: seq<TaskNode>, taskId: Id): (r: seq<TaskNode>)
    ensures forall n :: n in r <==> n in nodes && n.taskId == taskId
  {
    Filter(nodes, (n: TaskNode) => n.taskId == taskId)
  }

  lemma FilterSnoc<T(!new)>(s: seq<T>, x: T, p: T -> bool)
    ensures Filter(s + [x], p) == Filter(s, p) + (if p(x) then [x] else [])
  {
    assert (s + [x])[..|s|] == s;
  }

  lemma NodesOfSnoc(nodes: seq<TaskNode>, n: TaskNode, taskId: Id)
    ensures NodesOf(nodes + [n], taskId) == NodesOf(nodes, taskId) + (if n.taskId == taskId then [n] else [])
  {
    assert (nodes + [n])[..|nodes|] == nodes;
  }

  lemma {:induction false} FilterAppend<T(!new)>(a: seq<T>, b: seq<T>, p: T -> bool)
    ensures Filter(a + b, p) == Filter(a, p) + Filter(b, p)
  {
    if b != [] {
      var b' := b[..|b| - 1];
      assert (a + b)[..|a + b| - 1] == a + b';
      FilterAppend(a, b', p);
    } else {
      assert a + b == a;
    }
  }

  lemma {:induction false} FilterKeepsAll<T(!new)>(s: seq<T>, p: T -> bool)
    requires forall x :: x in s ==> p(x)
    ensures Filter(s, p) == s
  {
    if s != [] {
      var prefix, last := s[..|s| - 1], s[|s| - 1];
      assert s == prefix + [last];
      forall x | x in prefix
        ensures p(x)
      {
        assert x in s;
      }
      FilterKeepsAll(prefix, p);
      assert last in s;
    }
  }

  /** Updating tasks without touching their ids does not move the lookup. */
  lemma FindTaskKeepsPosition(tasks: seq<Task>, tasks': seq<Task>, id: Id)
    requires |tasks| == |tasks'|
    requires forall j :: 0 <= j < |tasks| ==> tasks[j].id == tasks'[j].id
    ensures FindTask(tasks, id) == FindTask(tasks', id)
  {
  }
}
