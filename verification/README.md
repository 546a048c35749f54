# taskflow approval engine in Dafny

This project models the approval engine of the taskflow backend, together with the controller operations that drive it and feed it.

A task is worked on by a chain of people. Each hand-off is a *forward*, recorded as a TaskNode in the task's forwarding ledger. When the assignee *completes* the task, the engine decides who must approve it and in what order, and creates one pending TaskApprover row per approval level. There are three ways to do this:

- **360**: the backward queue of everyone who handled the task.
- **specific**: the manual approver rows given when the task was created.
- **predefined**: the stages of an approval template. The template is either the one the task names or the first active template whose condition (department name, minimum amount) the task meets.

Approvers then *approve* level by level, or *reject*. A rejection hands the task back and wipes the round. The template table is kept by create, update and delete operations.

The model has these parts:

- **Entities** (`entities.dfy`) holds the rows of the store as datatypes, the typed failures, and the generic `find`/`filter` used by every query.
- **Stores** (`store.dfy`) holds `class Store`, one `seq` field per table, which every state-changing operation updates in place.
- **TemplateMatcher** (`matcher.dfy`) is `matchTemplate`, plus the level ordering under which stages are read.
- **ApproverResolver** (`resolver.dfy`) is `buildBackwardQueue`, stage resolution and the two approver generators.
- **ApprovalEngine** (`engine.dfy`) holds `processTaskCompletion`, `processApproval` and `processRejection`.
- **TaskController** (`task_controller.dfy`) holds createTask, forwardTask, completeTask, updateTaskStatus, updateTask, getWaitingOnTasks and getApprovalBucket.
- **TemplateController** (`template_controller.dfy`) holds createTemplate, updateTemplate and deleteTemplate.
- **ApprovalEngineProperties**, **TaskControllerProperties** and **TemplateControllerProperties** hold the lemmas about those operations.
- **Scenarios** holds worked examples on the seed data (two templates, five users) and on a 360 forwarding chain.

Every state-changing operation is given twice:

- A pure function from the store before to the outcome and the store after (`Complete`, `Approve`, `Reject`, `Forward`, `EditTemplateAsWritten`, …). The lemmas are proved about these functions. For updateTemplate, a corrected function `EditTemplate` is also given, beside the one that follows the code (see Findings).
- A method that performs the source's steps on a `Store` and is proved to have exactly that function's effect: `ensures Step(result, store.Snapshot()) == F(old(store.Snapshot()), …)`.

Where the code and the prose description of the system disagree, the model follows the code:

- **Template scan order.** Templates are scanned in the order the store returns them, not newest first, because `findMany` has no `orderBy`.
- **Second completion.** A second completion while the task is pending approval is accepted and appends another round.
- **Rejection without a target.** A rejection that finds no target user has already marked the row rejected.

## Model

| member | source | states |
|---|---|---|
| Entities.FindTask | src/services/approvalEngine.ts:174-184 | the position of the first task with the id; None exactly when no task has it |
| Entities.DepartmentName | src/services/approvalEngine.ts:176-177 | a name is returned only for a task whose departmentId names a department of that name; there is none exactly when the task has no departmentId or no department has that id |
| Entities.RowsOf | src/services/approvalEngine.ts:200-202 | a row is in it exactly when it is in the approver table and belongs to the task |
| Entities.NodesOf | src/services/approvalEngine.ts:54-61 | a node is in it exactly when it is in the ledger and belongs to the task |
| TemplateMatcher.ActiveTemplates | src/services/approvalEngine.ts:12-15 | a template is kept exactly when it is in the table and active |
| TemplateMatcher.MatchTemplate | src/services/approvalEngine.ts:17-43 | the index of the first template whose condition parses and holds, no earlier one matching; None exactly when no template matches |
| TemplateMatcher.ConditionClauses | src/services/approvalEngine.ts:26-37 | a department clause holds only for a task whose department has exactly that name; an amount_min clause fails for a null or zero amount and for an amount below the floor; an empty condition holds for every task |
| TemplateMatcher.EmptyConditionStopsScan | src/services/approvalEngine.ts:18-40 | a scan that reaches a template with the empty condition `{}` always finds a match, at or before that template |
| TemplateMatcher.InsertByLevel | src/services/approvalEngine.ts:14 | inserting a stage into a level-sorted list keeps it sorted and adds exactly that stage (multiset) |
| TemplateMatcher.SortStages | src/services/approvalEngine.ts:178 | stages read with `orderBy levelOrder asc` are sorted by level and are a permutation of the stored stages |
| ApproverResolver.AddUnlessExcludedKeepsSet | src/services/approvalEngine.ts:66-71 | `Set.add` that skips the completer keeps the set duplicate-free and adds exactly the new user unless excluded |
| ApproverResolver.FirstSeenIsParticipantSet | src/services/approvalEngine.ts:64-72 | the set the loop fills has no duplicates and holds exactly the ledger participants other than the completer |
| ApproverResolver.BackwardQueueIsReversedParticipants | src/services/approvalEngine.ts:63-76 | the backward queue has no duplicates, holds exactly the task's participants other than the completer, and is the first-seen order read backwards |
| ApproverResolver.BackwardQueueMembersForwardedTask | src/services/approvalEngine.ts:54-72 | every queue member is not the completer and sent or received a hand-off of this very task |
| ApproverResolver.AddEnds | src/services/approvalEngine.ts:66-71 | one node's step adds its sender, then its receiver, each unless excluded or already present |
| ApproverResolver.CollectParticipants | src/services/approvalEngine.ts:64-72 | the loop over the task's nodes yields the first-seen participant order |
| ApproverResolver.BuildBackwardQueue | src/services/approvalEngine.ts:50-77 | returns the backward queue of the stored ledger |
| ApproverResolver.Rows360 | src/services/approvalEngine.ts:152-162 | one pending row per queue entry, in queue order, at level index + 1 |
| ApproverResolver.FirstQualifying | src/services/approvalEngine.ts:96-98 | the first active user with the role (and department, when asked) in store order; None exactly when no user qualifies |
| ApproverResolver.ResolveStage | src/services/approvalEngine.ts:89-124 | a `user` stage resolves to its named user; a stage kind other than user, role and dynamic_role resolves to nobody; HOD resolves to nobody for a task without a department (the rest in ResolveStageMeaning) |
| ApproverResolver.ResolveStageMeaning | src/services/approvalEngine.ts:89-124 | a `user` stage resolves to its value; `role`, HOD and CFO resolve exactly when a qualifying active user exists (HOD only for a task with a department) and then to such a user; any other stage kind resolves to nobody |
| ApproverResolver.TemplateRows | src/services/approvalEngine.ts:88-137 | at most one row per stage; every row is pending, belongs to the task and names a non-empty approver |
| ApproverResolver.TemplateRowsComeFromStages | src/services/approvalEngine.ts:126-135 | every row comes from a stage of the template, at that stage's level, for the user it resolves to |
| ApproverResolver.TemplateRowsFollowStageOrder | src/services/approvalEngine.ts:88-137 | stages sorted by level give rows with non-decreasing levels |
| ApproverResolver.StageRowWhenResolved | src/services/approvalEngine.ts:126-135 | a stage that resolves contributes exactly one row, at its own level |
| ApproverResolver.TemplateRowsWhenAllResolve | src/services/approvalEngine.ts:88-137 | when every stage resolves, the rows correspond one to one to the stages, levels copied |
| ApproverResolver.TemplateRowsHaveEveryResolvedStage | src/services/approvalEngine.ts:126-135 | every stage that resolves yields its pending row, at its level, for its user, whatever the other stages resolve to: an unresolved stage is skipped and does not stop the rest |
| ApproverResolver.GenerateTaskApprovers360 | src/services/approvalEngine.ts:145-165 | the created rows are the 360 rows of the queue and are appended to the approver table; no other table changes |
| ApproverResolver.GenerateTaskApproversFromTemplate | src/services/approvalEngine.ts:82-140 | the created rows are the template rows of the stages and are appended to the approver table; no other table changes |
| ApprovalEngine.PredefinedRows | src/services/approvalEngine.ts:207-220 | fails with NoMatchingTemplate exactly when the task names no template and no active template matches it, and with TemplateMissing exactly when the named template does not exist |
| ApprovalEngine.ProcessTaskCompletion | src/services/approvalEngine.ts:170-240 | the completion's outcome and new store are those of `Complete` |
| ApprovalEngine.LowestPending | src/services/approvalEngine.ts:249-261 | the user's pending row of the task with the lowest level (earliest among equals); None exactly when the user has no pending row there |
| ApprovalEngine.ProcessApproval | src/services/approvalEngine.ts:245-332 | the approval's outcome and new store are those of `Approve` |
| ApprovalEngine.FirstPending | src/services/approvalEngine.ts:351-354 | the user's first pending row of the task in store order; None exactly when there is none |
| ApprovalEngine.RejectTarget | src/services/approvalEngine.ts:370 | forwardToUserId when truthy, else the assignee when truthy, else the creator |
| ApprovalEngine.WithoutRowsOf | src/services/approvalEngine.ts:413-416 | a row survives exactly when it belongs to another task |
| ApprovalEngine.ProcessRejection | src/services/approvalEngine.ts:337-422 | the rejection's outcome and new store are those of `Reject` |
| ApprovalEngineProperties.PendingCountZero | src/services/approvalEngine.ts:307-308 | no pending row of the task is counted exactly when none exists |
| ApprovalEngineProperties.PendingCountAfterApproval | src/services/approvalEngine.ts:307-308 | approving one pending row lowers the count by one, so "one pending before" means "none pending after" |
| ApprovalEngineProperties.CompleteFailureChangesNothing | src/services/approvalEngine.ts:182-220 | every failed completion leaves the store as it was |
| ApprovalEngineProperties.CompleteRefusals | src/services/approvalEngine.ts:174-220 | these six are the only refusals, each exactly by its cause: TaskNotFound for a missing task; AlreadyCompleted for an approved or completed task; NoApproverPath for a 360 task whose backward queue is empty; NoManualApprovers for a specific task without rows; NoMatchingTemplate for a predefined task that names no template and matches none; TemplateMissing when the named template is gone; no refusal writes |
| ApprovalEngineProperties.CompleteRefusesFinishedTask | src/services/approvalEngine.ts:186-188 | an approved or completed task is refused with AlreadyCompleted and nothing changes |
| ApprovalEngineProperties.CompleteSubmitsForApproval | src/services/approvalEngine.ts:190-227 | a successful completion only moves the task to pending_approval; 360 and predefined rounds are appended pending rows of the task; a specific round is exactly the task's existing non-empty rows |
| ApprovalEngineProperties.Complete360Round | src/services/approvalEngine.ts:192-197 | a 360 round is non-empty, numbered 1..N, pending, never the completer, each approver a ledger participant, all distinct |
| ApprovalEngineProperties.Complete360NeedsAnotherParticipant | src/services/approvalEngine.ts:192-197 | a 360 completion fails for want of approvers exactly when every node of the task is from and to the completer |
| ApprovalEngineProperties.CompleteSpecificSubmitsManualRound | src/services/approvalEngine.ts:198-206 | a specific task with rows is submitted with exactly those rows |
| ApprovalEngineProperties.CompletePredefinedSubmits | src/services/approvalEngine.ts:207-227 | a predefined task whose template yields rows is submitted with them appended and the task pending approval |
| ApprovalEngineProperties.CompletePredefinedRoundInLevelOrder | src/services/approvalEngine.ts:207-220 | a predefined round has non-decreasing levels |
| ApprovalEngineProperties.NoRowsWhenNoStageResolves | src/services/approvalEngine.ts:126-136 | stages none of which resolves create no rows |
| ApprovalEngineProperties.CompletePredefinedWithoutApprovers | src/services/approvalEngine.ts:215-227 | a completion of a task that names its template, none of whose stages resolves, still succeeds with an empty round and sets pending_approval |
| ApprovalEngineProperties.CompleteMatchedWithoutApprovers | src/services/approvalEngine.ts:207-227 | the same on the matched route: a task that names no template and matches one none of whose stages resolves is submitted with an empty round and set to pending_approval |
| ApprovalEngineProperties.SecondCompletionAppendsAnotherRound | src/services/approvalEngine.ts:186-197 | completing a 360 task again while it is pending approval succeeds and appends the same round a second time |
| ApprovalEngineProperties.ApproveFailureChangesNothing | src/services/approvalEngine.ts:254-279 | every failed approval leaves the store as it was |
| ApprovalEngineProperties.ApproveNeedsPendingRow | src/services/approvalEngine.ts:259-265 | an approval is refused with NoPendingApproval exactly when the user holds no pending row of the task |
| ApprovalEngineProperties.ApproveFollowsLevelOrder | src/services/approvalEngine.ts:259-288 | a successful approval marks approved one pending row of the user, the lowest of their pending levels, only after every lower-level row of the task was approved; no other row changes |
| ApprovalEngineProperties.ApproveRefusedOutOfOrder | src/services/approvalEngine.ts:267-279 | a PreviousLevelIncomplete refusal means some row of the task below the user's lowest pending level is not approved |
| ApprovalEngineProperties.ApproveRefusals | src/services/approvalEngine.ts:249-279 | TaskNotFound, NoPendingApproval and PreviousLevelIncomplete are the only refusals; TaskNotFound exactly for a missing task; PreviousLevelIncomplete exactly when a lower level under the user's lowest pending row is not approved; success exactly when the task exists and every lower level under that row is approved |
| ApprovalEngineProperties.ApproveCompletesRound | src/services/approvalEngine.ts:306-315 | isComplete holds exactly when no row of the task is pending after the update, and then and only then the task becomes approved |
| ApprovalEngineProperties.ApproveIgnoresTaskStatus | src/services/approvalEngine.ts:249-279 | the outcome of an approval does not depend on the task's status |
| ApprovalEngineProperties.ApprovedTaskIsFinal | src/services/approvalEngine.ts:306-315 | once the last level is approved, completion is refused with AlreadyCompleted |
| ApprovalEngineProperties.OtherTasksRowsSurviveDeletion | src/services/approvalEngine.ts:413-416 | deleting a task's rows keeps every other task's rows in order |
| ApprovalEngineProperties.OtherTasksRowsIgnoreUpdate | src/services/approvalEngine.ts:360-367 | updating one row of a task leaves other tasks' rows as they were |
| ApprovalEngineProperties.RejectRefusals | src/services/approvalEngine.ts:337-358 | TaskNotFound exactly for a missing task; NoPendingApproval exactly when the task exists and the user holds no pending row of it; neither refusal writes; NoTargetUser is the only other refusal; success exactly when the task exists, the user holds a pending row of it and a target user is found |
| ApprovalEngineProperties.RejectResetsRound | src/services/approvalEngine.ts:369-416 | a successful rejection leaves the task no rows and other tasks' rows untouched, appends rejecter→target, and sets the target as assignee with status rejected; users, departments and templates are unchanged |
| ApprovalEngineProperties.RejectWithoutTargetStillMarksRow | src/services/approvalEngine.ts:360-373 | a rejection with no target fails, yet the user's pending row is already marked rejected and is the only change |
| ApprovalEngineProperties.RejectedRoundCannotBeApproved | src/services/approvalEngine.ts:413-416 | after a rejection nobody can approve the task |
| ApprovalEngineProperties.RejectedSpecificTaskCannotBeResubmitted | src/services/approvalEngine.ts:198-205 | a rejected specific task is refused with NoManualApprovers on the next completion |
| TaskController.ParseApprovalType | src/controllers/taskController.ts:30-33 | accepts exactly "360", "specific" and "predefined" |
| TaskController.StoredAmount | src/controllers/taskController.ts:44 | a truthy amount is kept; null and 0 become null |
| TaskController.ManualRows | src/controllers/taskController.ts:58-69 | one pending row per manual entry, in order, level and approver copied |
| TaskController.CreateTask | src/controllers/taskController.ts:25-69 | the creation's outcome and new store are those of `Create` |
| TaskController.ForwardTask | src/controllers/taskController.ts:197-246 | the forward's outcome and new store are those of `Forward` |
| TaskController.CompleteTask | src/controllers/taskController.ts:269-284 | the outcome and new store are those of `CompleteByAssignee` |
| TaskController.ParseSettableStatus | src/controllers/taskController.ts:389-394 | accepts exactly "open", "in_progress" and "rejected" |
| TaskController.UpdateTaskStatus | src/controllers/taskController.ts:384-425 | the status change's outcome and new store are those of `SetStatus` |
| TaskController.ApplyPatch | src/controllers/taskController.ts:526-533 | the field-by-field update data yields the patched task |
| TaskController.UpdateTask | src/controllers/taskController.ts:503-537 | the edit's outcome and new store are those of `Update` |
| TaskController.WaitingOn | src/controllers/taskController.ts:619-645 | a node is listed exactly when the user sent it and its task is still with the receiver or in progress or pending approval |
| TaskController.ApprovalBucket | src/controllers/taskController.ts:455-481 | a row is listed exactly when it is the user's and, unless `all` is "true", pending |
| TaskControllerProperties.CreateRefusals | src/controllers/taskController.ts:25-33 | a missing title or approvalType, or an approvalType outside the three, is refused by name, and a refused creation writes nothing |
| TaskControllerProperties.CreatedTask | src/controllers/taskController.ts:36-48 | the created task is found under its fresh id and is open; the amount is kept only when truthy; a template is named only for predefined |
| TaskControllerProperties.CreateSeedsManualApprovers | src/controllers/taskController.ts:57-69 | a specific task with entries gets exactly one pending row per entry at its level, any other task none; other tasks' rows are untouched |
| TaskControllerProperties.CreatedSpecificTaskCanBeSubmitted | src/controllers/taskController.ts:57-69 | a specific task created with entries is submitted with exactly its seeded rows |
| TaskControllerProperties.ForwardRefusals | src/controllers/taskController.ts:197-224 | a forward is refused without toUserId, and refused as Forbidden exactly when the actor is neither the assignee nor a pending approver of the task; a refusal changes nothing |
| TaskControllerProperties.ForwardHandsOver | src/controllers/taskController.ts:226-246 | a forward appends actor→target, makes the target the assignee, moves open to in_progress and keeps other statuses; nothing else changes |
| TaskControllerProperties.ForwardedTaskIsWaitingOn | src/controllers/taskController.ts:640-645 | a hand-off just made is in the sender's waiting-on list |
| TaskControllerProperties.ForwardJoinsBackwardQueue | src/controllers/taskController.ts:227-232 | both ends of a hand-off are in the backward queue of any later completion of the task by someone else |
| TaskControllerProperties.CompleteOnlyByAssignee | src/controllers/taskController.ts:278-284 | anyone but the assignee is refused with nothing changed; the assignee gets the engine's completion |
| TaskControllerProperties.SetStatusChangesOnlyStatus | src/controllers/taskController.ts:384-425 | a successful override comes from the assignee, names an allowed status, starts outside pending_approval and approved, and changes only that task's status |
| TaskControllerProperties.StatusLockedDuringApproval | src/controllers/taskController.ts:411-415 | a task pending approval or approved cannot have its status overridden |
| TaskControllerProperties.SetStatusRefusals | src/controllers/taskController.ts:384-409 | each refusal of an override by its cause (missing, not allowed, not the assignee); a refusal changes nothing |
| TaskControllerProperties.UpdateChangesOnlySuppliedFields | src/controllers/taskController.ts:512-537 | an edit is Forbidden exactly for someone neither admin nor assignee; a successful edit overwrites exactly the supplied fields (a falsy amount becoming null), never id, creator, type, template or status |
| TaskControllerProperties.UpdateKeepsTaskFindable | src/controllers/taskController.ts:535-537 | an edit does not move any task for lookups by id |
| TaskControllerProperties.BucketEntriesAreActionable | src/controllers/taskController.ts:455-461 | every entry of a pending bucket is a row that approval and rejection find for that user |
| TaskControllerProperties.ApprovalBucketNewestFirst | src/controllers/taskController.ts:455-478 | newest first: a row appended after the others heads the bucket when it belongs there, and the rest keep their order |
| TaskControllerProperties.WaitingOnNewestFirst | src/controllers/taskController.ts:619-645 | newest first: the latest hand-off heads the sender's waiting-on list when its task still waits, and the rest keep their order |
| TemplateController.StageOf | src/controllers/approvalTemplateController.ts:73-84 | the stored stage copies level, type and value; its condition is the given one, or `{}` when missing or empty |
| TemplateController.MapStages | src/controllers/approvalTemplateController.ts:73-84 | one stored stage per input, in order |
| TemplateController.MapStageInputs | src/controllers/approvalTemplateController.ts:73-84 | maps the stage inputs, failing when a stage condition does not parse |
| TemplateController.CreateTemplate | src/controllers/approvalTemplateController.ts:45-90 | the creation's outcome and new store are those of `AddTemplate` |
| TemplateController.ClearStages | src/controllers/approvalTemplateController.ts:124-127 | only the template table changes, no template is added, removed or reordered, only a template with that id loses its stages, and the template found under the id has none left |
| TemplateController.EditTemplateAsWritten | src/controllers/approvalTemplateController.ts:99-151 | updateTemplate in the controller's order: only the template table changes, its length and ids are kept, a failed edit without stages writes nothing, and a successful edit returns the template under that id |
| TemplateController.ApplyUpdateData | src/controllers/approvalTemplateController.ts:117-121 | the conditional update data yields the revised template |
| TemplateController.UpdateTemplate | src/controllers/approvalTemplateController.ts:99-151 | the edit's outcome and new store are those of `EditTemplateAsWritten`: when stages are supplied the old ones are deleted before the new stage conditions are parsed |
| TemplateController.CountTasksUsing | src/controllers/approvalTemplateController.ts:165-167 | counts the tasks naming the template |
| TemplateController.DeleteTemplate | src/controllers/approvalTemplateController.ts:160-179 | the deletion's outcome and new store are those of `RemoveTemplate` |
| TemplateControllerProperties.AddTemplateRefusals | src/controllers/approvalTemplateController.ts:49-64 | a missing name, an unparsable condition and an unparsable stage condition are each refused by name, and a refusal writes nothing |
| TemplateControllerProperties.AddedTemplateDefaults | src/controllers/approvalTemplateController.ts:67-84 | the created template is found under its id, is active unless told otherwise, has condition `{}` unless one is given, and has one stage per input, fields copied, condition `{}` by default, none when none are supplied |
| TemplateControllerProperties.AddedTemplateWithoutConditionMatchesAll | src/controllers/approvalTemplateController.ts:55-70 | an active template created without a condition makes the matcher find a template for every task |
| TemplateControllerProperties.EditTemplateRefusals | src/controllers/approvalTemplateController.ts:104-151 | in the corrected order (see Findings): an empty or unparsable condition is refused; a well-formed edit of a missing template is refused; a refusal changes nothing |
| TemplateControllerProperties.EditTemplateChangesOnlySuppliedFields | src/controllers/approvalTemplateController.ts:116-143 | a successful edit changes that one template and only the supplied fields; supplied stages replace the old ones exactly, in order |
| TemplateControllerProperties.EditAsWrittenLosesStagesOnFailure | src/controllers/approvalTemplateController.ts:124-143 | in the controller's order, an edit whose stages do not parse fails yet empties the template's stages, where the corrected order leaves the store unchanged |
| TemplateControllerProperties.EditAsWrittenCounterexample | src/controllers/approvalTemplateController.ts:124-141 | a one-stage template ends with no stages after a failed edit in the controller's order, and keeps its stage in the corrected order |
| TemplateControllerProperties.EditAsWrittenAgreesWhenStagesParse | src/controllers/approvalTemplateController.ts:116-151 | when every stage condition parses, both orders give the same outcome and store |
| TemplateControllerProperties.TasksUsingZero | src/controllers/approvalTemplateController.ts:165-169 | the count is zero exactly when no task names the template |
| TemplateControllerProperties.RemoveRefusedWhileReferenced | src/controllers/approvalTemplateController.ts:164-175 | deletion is refused with the positive count exactly when some task names the template; a refusal deletes nothing |
| TemplateControllerProperties.RemoveDeletesOnlyThatTemplate | src/controllers/approvalTemplateController.ts:177-179 | a successful deletion removes exactly the template found under the id, which no task names |
| TemplateControllerProperties.RemoveKeepsNamedTemplatesOfTasks | src/controllers/approvalTemplateController.ts:164-179 | deleting a template never changes the predefined round of a task that names a template |
| Scenarios.SeedTemplateMatching | src/scripts/seed.ts:104-150 | with the seed templates, a 120000 Accounts bill takes the vendor-bill route, a 60000 Accounts or 120000 Operations task the expense route, and a zero-amount task none |
| Scenarios.TemplateOrderDecidesTheRoute | src/services/approvalEngine.ts:12-17 | read newest first, the same bill would take the one-stage expense route |
| Scenarios.VendorBillRows | src/scripts/seed.ts:104-129 | the vendor-bill stages give the rows HOD of Accounts at level 1, then the CFO at level 2 |
| Scenarios.CompletePredefinedByTemplateMatch | src/services/approvalEngine.ts:207-227 | a predefined task routed by a match is submitted with the template rows appended and its status pending approval |
| Scenarios.SeedBillSubmission | src/scripts/seed.ts:104-129 | completing the seed bill creates exactly the HOD row and the CFO row |
| Scenarios.SeedBillAwaitsApproval | src/scripts/seed.ts:104-129 | completing the seed bill moves it to pending approval |
| Scenarios.CfoCannotGoFirst | src/services/approvalEngine.ts:267-279 | the CFO is refused while the HOD's level 1 is pending, nothing changed |
| Scenarios.HodApprovesFirstLevel | src/services/approvalEngine.ts:281-315 | the HOD's approval marks level 1, reports not complete, and leaves the task pending approval |
| Scenarios.CfoCompletesRound | src/services/approvalEngine.ts:306-315 | the CFO's approval completes the round and the bill is approved |
| Scenarios.ForwardChainBackwardQueue | src/services/approvalEngine.ts:64-76 | the chain A→B→C→D completed by D is approved by C, then B, then A |

## Left out

- HTTP plumbing: requests, responses, status codes and routes. Each failure is an `Error` value.
- Prisma infrastructure failures: the `catch` blocks that answer 500 are not modelled. Two exceptions: updating and deleting a missing template both make Prisma throw, and both are modelled as `TemplateNotFound`.
- Activity logging, console notifications and timestamps (`actionAt`, `forwardedAt`, `createdAt`). These are side records. Ledger and row order is append order in a sequence.
- Identifiers the database generates are parameters (`newId`). Their freshness is a hypothesis of the lemmas that need it.
- `parseFloat` and `new Date` are left out. Amounts are `Option<int>`; a falsy amount is null or 0.
- `startDate`, `dueDate` and `assigneeType` are not part of the model.
- JSON parsing is left out. A request field that holds JSON arrives as the result of its parse (`JsonInput`). A stored template condition is `Option<Condition>`, where None is text that does not parse. An absent or empty stored condition is the empty condition.
- User ids given by a caller or by a stage are assumed to name existing users. The source answers 500 when one does not, after partial writes:
  - Forward (forwardTask): if the foreign key on `toUserId` lets the node through, `node.toUser.name` throws after the node and the new assignee were written. The model answers Ok.
  - TemplateRows and GenerateTaskApproversFromTemplate: a `user` stage whose approverValue names no user makes the row create throw. Rows of earlier stages stay and the status is never set. The model adds the row.
  - Create (createTask): a manual approver naming no user makes the loop fail after the task and the earlier rows were created. The model adds every row.
- A `stages: null` request to updateTemplate is not modelled (`TemplateRequest.stages` is an `Option`, so it cannot say null). It passes the `!== undefined` test, the old stages are deleted, and `null.map` throws: the same stage loss as in Findings, from another input.
- A template conditionJson of `null` is not modelled. createTemplate stores the text "null" when given the string "null", and updateTemplate does so when given `null`. `JSON.parse` accepts that text, and the matcher's `.department` access then throws outside its `try`. So processTaskCompletion fails for every matched-route completion whose scan reaches such a template.
- A JSON `amount_min` that is not a number is not modelled.
- Row order of `findFirst` without `orderBy`, and Postgres tie order among equal levels, are modelled as store order.
- A node whose task is missing is never listed as waiting on (the foreign key rules this out).
- Model-level transactions and concurrency are not modelled: each transition runs alone on the store.
- getTasks, getTaskById, comments, attachments, authentication, dashboards, user CRUD and department CRUD are outside the core.
- The approve and reject controller handlers are not modelled; only the engine functions they call are.
- The seed script is used only as concrete data in `Scenarios`.

## Findings

| source | as written | input that shows it | evidently intended | confidence | as-written member | corrected member |
|---|---|---|---|---|---|---|
| src/controllers/approvalTemplateController.ts:124-143 | updateTemplate deletes the template's old stages before it parses the new stages' conditionJson, so a parse failure answers 500 but the stages are already gone | a template with one stage, updated with `stages: [{ conditionJson: "not json" }]` | every check happens before the first write, so a failed update leaves the template as it was | not executed | TemplateControllerProperties.EditAsWrittenCounterexample | TemplateControllerProperties.EditTemplateRefusals |
