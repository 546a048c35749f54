/**
 * Worked examples on concrete stores: the seed data's two templates and
 * five users, a 360 forwarding chain, and the template order the matcher
 * depends on.
 */
module Scenarios {
  import opened Entities
  import opened TemplateMatcher
  import opened ApproverResolver
  import opened ApprovalEngine
  import ApprovalEngineProperties

  // The seed data: three departments, five users, two templates.
  const Operations := Department("d-ops", "Operations")
  const Accounts := Department("d-acc", "Accounts")
  const Finance := Department("d-fin", "Finance")

  const Users := [
    User("u-admin", "admin", None, true),
    User("u-creator", "creator", Some("d-ops"), true),
    User("u-hod", "hod", Some("d-acc"), true),
    User("u-cfo", "cfo", Some("d-fin"), true),
    User("u-assignee", "assignee", Some("d-ops"), true)]

  const VendorBill := Template("t-vendor", "Vendor Bill Approval", Some(Condition(Some("Accounts"), Some(100000))), true,
    [Stage(1, "dynamic_role", "HOD", "{}"), Stage(2, "dynamic_role", "CFO", "{}")])

  const GeneralExpense := Template("t-expense", "General Expense Approval", Some(Condition(None, Some(50000))), true,
    [Stage(1, "dynamic_role", "HOD", "{}")])

  /** A predefined vendor bill of 120000 for Accounts, being worked on by the assignee. */
  const Bill := Task("task-1", "Vendor bill", None, "u-creator", Some("u-assignee"), Some("d-acc"), Some(120000),
    Predefined, None, InProgress)

  const SeedDb := Db([Bill], [], [], Users, [Operations, Accounts, Finance], [VendorBill, GeneralExpense])

  const HodRow := TaskApprover("task-1", 1, "u-hod", PendingRow)
  const CfoRow := TaskApprover("task-1", 2, "u-cfo", PendingRow)

  /** The store once the bill is submitted. */
  const SubmittedDb := SeedDb.(tasks := [Bill.(status := PendingApproval)], taskApprovers := [HodRow, CfoRow])

  /** The store once the HOD has approved level 1. */
  const AfterHodDb := SubmittedDb.(taskApprovers := [HodRow.(status := ApprovedRow), CfoRow])

  /** The store once the CFO has approved level 2. */
  const ApprovedDb := AfterHodDb.(
    tasks := [Bill.(status := Approved)],
    taskApprovers := [HodRow.(status := ApprovedRow), CfoRow.(status := ApprovedRow)])

  /** The seed's templates, in creation order: a 120000 Accounts bill takes the vendor-bill route; others fall through. */
  lemma SeedTemplateMatching()
    ensures MatchTemplate([VendorBill, GeneralExpense], Some("Accounts"), Some(120000)) == Some(0)
    ensures MatchTemplate([VendorBill, GeneralExpense], Some("Accounts"), Some(60000)) == Some(1)
    ensures MatchTemplate([VendorBill, GeneralExpense], Some("Operations"), Some(120000)) == Some(1)
    ensures MatchTemplate([VendorBill, GeneralExpense], Some("Accounts"), Some(0)) == None
  {
    var templates := [VendorBill, GeneralExpense];
    assert templates[0] == VendorBill && templates[1] == GeneralExpense;
    assert TemplateMatches(VendorBill, Some("Accounts"), Some(120000));
    assert !TemplateMatches(VendorBill, Some("Accounts"), Some(60000));
    assert TemplateMatches(GeneralExpense, Some("Accounts"), Some(60000));
    assert !TemplateMatches(VendorBill, Some("Operations"), Some(120000));
    assert TemplateMatches(GeneralExpense, Some("Operations"), Some(120000));
    assert !TemplateMatches(VendorBill, Some("Accounts"), Some(0));
    assert !TemplateMatches(GeneralExpense, Some("Accounts"), Some(0));
  }

  /**
   * The scan takes the templates in the order the store returns them: read
   * newest first, the same bill would take the one-stage expense route.
   */
  lemma TemplateOrderDecidesTheRoute()
    ensures MatchTemplate([GeneralExpense, VendorBill], Some("Accounts"), Some(120000)) == Some(0)
  {
    assert [GeneralExpense, VendorBill][0] == GeneralExpense;
    assert TemplateMatches(GeneralExpense, Some("Accounts"), Some(120000));
  }

  lemma SeedLookups()
    ensures FindTask(SeedDb.tasks, "task-1") == Some(0)
    ensures DepartmentName(SeedDb.departments, Bill) == Some("Accounts")
    ensures ActiveTemplates(SeedDb.approvalTemplates) == [VendorBill, GeneralExpense]
  {
    var departments := SeedDb.departments;
    assert departments[0].id != "d-acc" && departments[1].id == "d-acc";
    var templates := SeedDb.approvalTemplates;
    assert templates[..1] == [VendorBill] && templates[..1][..0] == [];
  }

  lemma VendorStagesSorted()
    ensures SortStages(VendorBill.stages) == VendorBill.stages
  {
    var stages := VendorBill.stages;
    assert stages[..1] == [stages[0]] && stages[..1][..0] == [];
    assert SortStages(stages[..1]) == [stages[0]];
  }

  lemma AccountsHod()
    ensures FirstQualifying(Users, HodRole, Some("d-acc")) == Some("u-hod")
  {
    assert !Qualifies(Users[0], HodRole, Some("d-acc")) && !Qualifies(Users[1], HodRole, Some("d-acc"));
    assert Qualifies(Users[2], HodRole, Some("d-acc"));
  }

  lemma SeedCfo()
    ensures FirstQualifying(Users, CfoRole, None) == Some("u-cfo")
  {
    assert !Qualifies(Users[0], CfoRole, None) && !Qualifies(Users[1], CfoRole, None);
    assert !Qualifies(Users[2], CfoRole, None) && Qualifies(Users[3], CfoRole, None);
  }

  lemma TemplateRowsOfTwoStages(task: Task, users: seq<User>, stages: seq<Stage>)
    requires |stages| == 2
    ensures TemplateRows(task, users, stages) == StageRow(task, users, stages[0]) + StageRow(task, users, stages[1])
  {
    assert stages[..1] == [stages[0]] && stages[..1][..0] == [];
  }

  lemma VendorHodStage(stage: Stage)
    requires stage == Stage(1, "dynamic_role", "HOD", "{}")
    ensures StageRow(Bill, Users, stage) == [HodRow]
  {
    AccountsHod();
    assert ResolveStage(stage, Bill, Users) == Some("u-hod");
  }

  lemma VendorCfoStage(stage: Stage)
    requires stage == Stage(2, "dynamic_role", "CFO", "{}")
    ensures StageRow(Bill, Users, stage) == [CfoRow]
  {
    SeedCfo();
    assert ResolveStage(stage, Bill, Users) == Some("u-cfo");
  }

  lemma VendorStageApprovers()
    ensures StageRow(Bill, Users, VendorBill.stages[0]) == [HodRow]
    ensures StageRow(Bill, Users, VendorBill.stages[1]) == [CfoRow]
  {
    VendorHodStage(VendorBill.stages[0]);
    VendorCfoStage(VendorBill.stages[1]);
  }

  lemma VendorBillRows()
    ensures TemplateRows(Bill, Users, SortStages(VendorBill.stages)) == [HodRow, CfoRow]
  {
    VendorStagesSorted();
    VendorStageApprovers();
    TemplateRowsOfTwoStages(Bill, Users, VendorBill.stages);
  }

  /** The task at `k` is open for completion on the predefined path and the active template at `i` routes it to `rows`. */
  ghost predicate RoutedByMatch(db: Db, taskId: Id, k: nat, active: seq<Template>, i: nat, rows: seq<TaskApprover>) {
    && FindTask(db.tasks, taskId) == Some(k)
    && db.tasks[k].status == InProgress && db.tasks[k].approvalType == Predefined
    && !Present(db.tasks[k].approvalTemplateId)
    && ActiveTemplates(db.approvalTemplates) == active
    && MatchTemplate(active, DepartmentName(db.departments, db.tasks[k]), db.tasks[k].amount) == Some(i)
    && TemplateRows(db.tasks[k], db.users, SortStages(active[i].stages)) == rows
  }

  lemma MatchedTemplateRows(db: Db, k: nat, active: seq<Template>, i: nat, rows: seq<TaskApprover>)
    requires k < |db.tasks| && !Present(db.tasks[k].approvalTemplateId)
    requires ActiveTemplates(db.approvalTemplates) == active
    requires MatchTemplate(active, DepartmentName(db.departments, db.tasks[k]), db.tasks[k].amount) == Some(i)
    requires TemplateRows(db.tasks[k], db.users, SortStages(active[i].stages)) == rows
    ensures PredefinedRows(db, db.tasks[k]) == Ok(rows)
  {
  }

  lemma CompletePredefinedByTemplateMatch(db: Db, taskId: Id, completerUserId: Id, k: nat, active: seq<Template>, i: nat, rows: seq<TaskApprover>)
    requires RoutedByMatch(db, taskId, k, active, i, rows)
    ensures Complete(db, taskId, completerUserId).out == Ok(rows)
    ensures Complete(db, taskId, completerUserId).db.tasks == db.tasks[k := db.tasks[k].(status := PendingApproval)]
    ensures Complete(db, taskId, completerUserId).db.taskApprovers == db.taskApprovers + rows
  {
    MatchedTemplateRows(db, k, active, i, rows);
    ApprovalEngineProperties.CompletePredefinedSubmits(db, taskId, completerUserId, k, rows);
  }

  /** The facts every step of the vendor bill's submission rests on. */
  lemma SeedBillRoute(db: Db, taskId: Id)
    requires db == SeedDb && taskId == "task-1"
    ensures RoutedByMatch(db, taskId, 0, [VendorBill, GeneralExpense], 0, [HodRow, CfoRow])
  {
    SeedLookups();
    SeedTemplateMatching();
    VendorBillRows();
  }

  /**
   * The vendor bill, completed by its assignee, is submitted with two
   * pending levels: the Accounts HOD, then the CFO.
   */
  lemma SeedBillSubmission(db: Db, taskId: Id, completerUserId: Id)
    requires db == SeedDb && taskId == "task-1" && completerUserId == "u-assignee"
    ensures Complete(db, taskId, completerUserId).out == Ok([HodRow, CfoRow])
    ensures Complete(db, taskId, completerUserId).db.taskApprovers == SubmittedDb.taskApprovers
  {
    SeedBillRoute(db, taskId);
    CompletePredefinedByTemplateMatch(db, taskId, completerUserId, 0, [VendorBill, GeneralExpense], 0, [HodRow, CfoRow]);
  }

  /** The same submission moves the bill to pending approval. */
  lemma SeedBillAwaitsApproval(db: Db, taskId: Id, completerUserId: Id)
    requires db == SeedDb && taskId == "task-1" && completerUserId == "u-assignee"
    ensures Complete(db, taskId, completerUserId).db.tasks == SubmittedDb.tasks
  {
    SeedBillRoute(db, taskId);
    CompletePredefinedByTemplateMatch(db, taskId, completerUserId, 0, [VendorBill, GeneralExpense], 0, [HodRow, CfoRow]);
  }

  /** The CFO cannot approve first: the HOD's level 1 is still pending. */
  lemma CfoCannotGoFirst()
    ensures Approve(SubmittedDb, "task-1", "u-cfo") == Step(Err(PreviousLevelIncomplete), SubmittedDb)
  {
    var rows := SubmittedDb.taskApprovers;
    assert !PendingFor(rows[0], "task-1", "u-cfo") && PendingFor(rows[1], "task-1", "u-cfo");
    assert LowestPending(rows, "task-1", "u-cfo") == Some(1);
    assert rows[0].levelOrder < 2 && rows[0].status != ApprovedRow;
  }

  /** The HOD's approval: two rows were pending, so the task stays in approval. */
  lemma HodApprovesFirstLevel()
    ensures Approve(SubmittedDb, "task-1", "u-hod") == Step(Ok(false), AfterHodDb)
  {
    var rows := SubmittedDb.taskApprovers;
    assert PendingFor(rows[0], "task-1", "u-hod");
    assert LowestPending(rows, "task-1", "u-hod") == Some(0);
    assert rows[..1] == [HodRow] && rows[..1][..0] == [];
    assert PendingCount(rows[..1][..0], "task-1") == 0;
    assert PendingCount(rows[..1], "task-1") == 1;
    assert PendingCount(rows, "task-1") == 2;
  }

  /** The CFO's approval: the only pending row, so the task is approved. */
  lemma CfoCompletesRound()
    ensures Approve(AfterHodDb, "task-1", "u-cfo") == Step(Ok(true), ApprovedDb)
  {
    var rows := AfterHodDb.taskApprovers;
    assert !PendingFor(rows[0], "task-1", "u-cfo") && PendingFor(rows[1], "task-1", "u-cfo");
    assert LowestPending(rows, "task-1", "u-cfo") == Some(1);
    assert rows[..1] == [rows[0]] && rows[..1][..0] == [];
    assert PendingCount(rows[..1][..0], "task-1") == 0;
    assert PendingCount(rows[..1], "task-1") == 0;
    assert PendingCount(rows, "task-1") == 1;
  }

  lemma ReverseOfThree<T>(x: T, y: T, z: T)
    ensures Reverse([x, y, z]) == [z, y, x]
  {
    assert [x][..0] == [];
    assert Reverse([x]) == [x];
    assert [x, y][..1] == [x];
    assert Reverse([x, y]) == [y, x];
    assert [x, y, z][..2] == [x, y];
  }

  /** The first two hand-offs of the chain a → b → c bring a, b and c into the set, in that order. */
  lemma ChainFirstTwo(t: Id, a: Id, b: Id, c: Id, d: Id)
    requires a != b && a != c && a != d && b != c && b != d && c != d
    ensures FirstSeen([TaskNode(t, a, b), TaskNode(t, b, c)], d) == [a, b, c]
  {
    var n1, n2 := TaskNode(t, a, b), TaskNode(t, b, c);
    assert FirstSeen([n1], d) == [a, b] by {
      FirstSeenSnoc([], n1, d);
      assert [] + [n1] == [n1];
      assert AddUnlessExcluded([], a, d) == [a];
    }
    FirstSeenSnoc([n1], n2, d);
    assert [n1] + [n2] == [n1, n2];
    assert b in [a, b];
  }

  /**
   * The 360 chain a → b → c → d completed by d is approved by c, then b,
   * then a.
   */
  lemma ForwardChainBackwardQueue(t: Id, a: Id, b: Id, c: Id, d: Id)
    requires a != b && a != c && a != d && b != c && b != d && c != d
    ensures BackwardQueue([TaskNode(t, a, b), TaskNode(t, b, c), TaskNode(t, c, d)], t, d) == [c, b, a]
  {
    var n1, n2, n3 := TaskNode(t, a, b), TaskNode(t, b, c), TaskNode(t, c, d);
    var nodes := [n1, n2, n3];
    assert NodesOf(nodes, t) == nodes by {
      assert forall n :: n in nodes ==> n.taskId == t;
      FilterKeepsAll(nodes, (n: TaskNode) => n.taskId == t);
    }
    assert FirstSeen(nodes, d) == [a, b, c] by {
      ChainFirstTwo(t, a, b, c, d);
      FirstSeenSnoc([n1, n2], n3, d);
      assert [n1, n2] + [n3] == nodes;
      assert c in [a, b, c];
    }
    ReverseOfThree(a, b, c);
  }
}
