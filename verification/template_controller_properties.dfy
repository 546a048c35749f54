/**
 * What the template operations promise: defaults on creation, field-wise
 * edits with wholesale stage replacement, refusal to delete a template a
 * task names, and the effect of each on the matcher and on completion.
 * Also the stage loss of updateTemplate as the controller orders it.
 */
module TemplateControllerProperties {
  import opened Entities
  import opened TemplateMatcher
  import opened ApprovalEngine
  import opened TemplateController

  /** Updating templates without touching their ids does not move the lookup. */
  lemma FindTemplateKeepsPosition(templates: seq<Template>, templates': seq<Template>, id: Id)
    requires |templates| == |templates'|
    requires forall j :: 0 <= j < |templates| ==> templates[j].id == templates'[j].id
    ensures FindTemplate(templates, id) == FindTemplate(templates', id)
  {
  }

  // ---------------------------------------------------------------------
  // createTemplate

  lemma FindAppendedTemplate(templates: seq<Template>, t: Template)
    requires forall u :: u in templates ==> u.id != t.id
    ensures FindTemplate(templates + [t], t.id) == Some(|templates|)
  {
    var all := templates + [t];
    assert all[|templates|].id == t.id;
    assert forall j :: 0 <= j < |templates| ==> all[j] == templates[j] && templates[j] in templates;
  }

  /** Validation refuses a missing name and an unparsable condition, and a failure writes nothing. */
  lemma AddTemplateRefusals(db: Db, newId: Id, req: TemplateRequest)
    ensures var s := AddTemplate(db, newId, req);
      && (s.out.Err? ==> s.db == db)
      && (s.out == Err(MissingField("name")) <==> !Present(req.name))
      && (s.out == Err(InvalidConditionJson) <==> Present(req.name) && req.conditionJson.Unparsable?)
      && (s.out == Err(StageConditionUnparsable) <==>
            Present(req.name) && !req.conditionJson.Unparsable? && !StagesParse(req.stages.GetOr([])))
  {
  }

  /**
   * A created template is found under its fresh identifier. It is active
   * unless told otherwise; its condition is `{}` unless one is given; it has
   * one stage per supplied stage, fields copied, condition `{}` by default,
   * and no stage at all when none is supplied.
   */
  lemma AddedTemplateDefaults(db: Db, newId: Id, req: TemplateRequest)
    requires AddTemplate(db, newId, req).out.Ok?
    requires forall t :: t in db.approvalTemplates ==> t.id != newId
    ensures var s := AddTemplate(db, newId, req);
      var t, inputs := s.out.value, req.stages.GetOr([]);
      && FindTemplate(s.db.approvalTemplates, newId) == Some(|db.approvalTemplates|)
      && s.db.approvalTemplates[|db.approvalTemplates|] == t
      && t.id == newId && Some(t.name) == req.name
      && (req.isActive.None? ==> t.isActive)
      && (req.isActive.Some? ==> t.isActive == req.isActive.value)
      && (req.conditionJson.Given? ==> t.condition == Some(req.conditionJson.value))
      && (!req.conditionJson.Given? ==> t.condition == Some(Condition(None, None)))
      && (req.stages.None? ==> t.stages == [])
      && |t.stages| == |inputs|
      && (forall j :: 0 <= j < |inputs| ==>
            t.stages[j].levelOrder == inputs[j].levelOrder
            && t.stages[j].approverType == inputs[j].approverType
            && t.stages[j].approverValue == inputs[j].approverValue
            && (inputs[j].conditionJson.Given? ==> t.stages[j].conditionJson == inputs[j].conditionJson.value)
            && (!inputs[j].conditionJson.Given? ==> t.stages[j].conditionJson == "{}"))
      && s.db.tasks == db.tasks && s.db.taskApprovers == db.taskApprovers
  {
    var s := AddTemplate(db, newId, req);
    FindAppendedTemplate(db.approvalTemplates, s.out.value);
  }

  /**
   * An active template created without a condition matches every task: the
   * matcher never looks past it.
   */
  lemma AddedTemplateWithoutConditionMatchesAll(db: Db, newId: Id, req: TemplateRequest, departmentName: Option<string>, amount: Option<int>)
    requires AddTemplate(db, newId, req).out.Ok?
    requires req.conditionJson.NotGiven? || req.conditionJson.Empty?
    requires req.isActive != Some(false)
    ensures var after := AddTemplate(db, newId, req).db;
      MatchTemplate(ActiveTemplates(after.approvalTemplates), departmentName, amount).Some?
  {
    var s := AddTemplate(db, newId, req);
    var t := s.out.value;
    var active := ActiveTemplates(s.db.approvalTemplates);
    assert t in s.db.approvalTemplates && t.isActive;
    var k :| 0 <= k < |active| && active[k] == t;
    EmptyConditionStopsScan(active, k, departmentName, amount);
  }

  // ---------------------------------------------------------------------
  // updateTemplate

  /** Every refusal of an edit leaves the store as it was. */
  lemma EditTemplateRefusals(db: Db, id: Id, req: TemplateRequest)
    ensures var s := EditTemplate(db, id, req);
      && (s.out.Err? ==> s.db == db)
      && (s.out == Err(InvalidConditionJson) <==> req.conditionJson.Unparsable? || req.conditionJson.Empty?)
      && (s.out == Err(TemplateNotFound) <==>
            (req.conditionJson.NotGiven? || req.conditionJson.Given?) && StagesParse(req.stages.GetOr([]))
            && forall t :: t in db.approvalTemplates ==> t.id != id)
  {
    if FindTemplate(db.approvalTemplates, id).Some? {
      var i := FindTemplate(db.approvalTemplates, id).value;
      assert db.approvalTemplates[i] in db.approvalTemplates;
    }
  }

  /**
   * A successful edit changes that one template and only the fields the
   * request supplies; supplied stages replace the old ones exactly, in the
   * order given.
   */
  lemma EditTemplateChangesOnlySuppliedFields(db: Db, id: Id, req: TemplateRequest)
    requires EditTemplate(db, id, req).out.Ok?
    ensures var s, i := EditTemplate(db, id, req), FindTemplate(db.approvalTemplates, id).value;
      var before, after := db.approvalTemplates[i], s.out.value;
      && s.db == db.(approvalTemplates := db.approvalTemplates[i := after])
      && after.id == id
      && (req.name.None? ==> after.name == before.name)
      && (req.name.Some? ==> after.name == req.name.value)
      && (req.conditionJson.NotGiven? ==> after.condition == before.condition)
      && (req.conditionJson.Given? ==> after.condition == Some(req.conditionJson.value))
      && (req.isActive.None? ==> after.isActive == before.isActive)
      && (req.isActive.Some? ==> after.isActive == req.isActive.value)
      && (req.stages.None? ==> after.stages == before.stages)
      && (req.stages.Some? ==>
            |after.stages| == |req.stages.value|
            && forall j :: 0 <= j < |after.stages| ==> after.stages[j] == StageOf(req.stages.value[j]))
  {
  }

  /**
   * As the controller orders its steps, an edit whose stages do not all
   * parse fails, yet the template it names has lost every stage; the
   * other fields are kept.
   */
  lemma EditAsWrittenLosesStagesOnFailure(db: Db, id: Id, req: TemplateRequest)
    requires req.conditionJson.NotGiven? || req.conditionJson.Given?
    requires req.stages.Some? && !StagesParse(req.stages.value)
    requires FindTemplate(db.approvalTemplates, id).Some?
    ensures var s, i := EditTemplateAsWritten(db, id, req), FindTemplate(db.approvalTemplates, id).value;
      && s.out == Err(StageConditionUnparsable)
      && s.db == db.(approvalTemplates := db.approvalTemplates[i := db.approvalTemplates[i].(stages := [])])
      && EditTemplate(db, id, req) == Step(Err(StageConditionUnparsable), db)
  {
  }

  /** One concrete request that shows it: a template with one stage ends with none after a failed edit. */
  lemma EditAsWrittenCounterexample()
    ensures var t := Template("tpl-1", "Finance", Some(Condition(None, None)), true, [Stage(1, "user", "u-1", "{}")]);
      var db := Db([], [], [], [], [], [t]);
      var req := TemplateRequest(None, NotGiven, None, Some([StageInput(1, "user", "u-2", Unparsable)]));
      var s := EditTemplateAsWritten(db, "tpl-1", req);
      && s.out.Err?
      && s.db.approvalTemplates[0].stages == []
      && EditTemplate(db, "tpl-1", req).db.approvalTemplates[0].stages == [Stage(1, "user", "u-1", "{}")]
  {
    var t := Template("tpl-1", "Finance", Some(Condition(None, None)), true, [Stage(1, "user", "u-1", "{}")]);
    var req := TemplateRequest(None, NotGiven, None, Some([StageInput(1, "user", "u-2", Unparsable)]));
    assert !StagesParse(req.stages.value) by {
      assert req.stages.value[0].conditionJson.Unparsable?;
    }
    assert FindTemplate([t], "tpl-1") == Some(0);
  }

  /** Where every stage parses, the controller's order and the corrected one agree. */
  lemma EditAsWrittenAgreesWhenStagesParse(db: Db, id: Id, req: TemplateRequest)
    requires StagesParse(req.stages.GetOr([]))
    ensures EditTemplateAsWritten(db, id, req) == EditTemplate(db, id, req)
  {
    if req.stages.Some? && !req.conditionJson.Unparsable? && !req.conditionJson.Empty? {
      var stages := MapStages(req.stages.value);
      assert BuildStages(req.stages.GetOr([])) == Ok(stages);
      var cleared := ClearStages(db, id);
      FindTemplateKeepsPosition(db.approvalTemplates, cleared.approvalTemplates, id);
      match FindTemplate(db.approvalTemplates, id)
      case None =>
        assert cleared == db;
      case Some(i) =>
        var revised := Revised(db.approvalTemplates[i], req, stages);
        assert Revised(cleared.approvalTemplates[i], req, stages) == revised;
        assert cleared.approvalTemplates[i := revised] == db.approvalTemplates[i := revised];
        assert EditTemplate(db, id, req) == Step(Ok(revised), db.(approvalTemplates := db.approvalTemplates[i := revised]));
    }
  }

  // ---------------------------------------------------------------------
  // deleteTemplate

  lemma {:induction false} TasksUsingZero(tasks: seq<Task>, id: Id)
    ensures TasksUsing(tasks, id) == 0 <==> forall t :: t in tasks ==> t.approvalTemplateId != Some(id)
  {
    if tasks != [] {
      var prefix := tasks[..|tasks| - 1];
      TasksUsingZero(prefix, id);
      assert tasks == prefix + [tasks[|tasks| - 1]];
    }
  }

  /**
   * Deletion is refused, reporting the count and deleting nothing, exactly
   * when some task names the template.
   */
  lemma RemoveRefusedWhileReferenced(db: Db, id: Id)
    ensures var s := RemoveTemplate(db, id);
      && (s.out.Err? ==> s.db == db)
      && ((exists t :: t in db.tasks && t.approvalTemplateId == Some(id)) <==>
            s.out == Err(TemplateInUse(TasksUsing(db.tasks, id))) && TasksUsing(db.tasks, id) > 0)
  {
    TasksUsingZero(db.tasks, id);
  }

  /** A successful deletion removes the one template found under the id and nothing else. */
  lemma RemoveDeletesOnlyThatTemplate(db: Db, id: Id)
    requires RemoveTemplate(db, id).out.Ok?
    ensures var s, i := RemoveTemplate(db, id), FindTemplate(db.approvalTemplates, id).value;
      && db.approvalTemplates[i].id == id
      && s.db == db.(approvalTemplates := db.approvalTemplates[..i] + db.approvalTemplates[i + 1..])
      && |s.db.approvalTemplates| == |db.approvalTemplates| - 1
      && forall t :: t in db.tasks ==> t.approvalTemplateId != Some(id)
  {
    TasksUsingZero(db.tasks, id);
  }

  /** The first template with identifier `x` sits at `r`. */
  lemma FindTemplateAt(templates: seq<Template>, x: Id, r: nat)
    requires r < |templates| && templates[r].id == x
    requires forall m :: 0 <= m < r ==> templates[m].id != x
    ensures FindTemplate(templates, x) == Some(r)
  {
  }

  lemma FindTemplateSkipsRemoved(templates: seq<Template>, i: nat, x: Id)
    requires i < |templates| && templates[i].id != x
    ensures var rest := templates[..i] + templates[i + 1..];
      && (FindTemplate(rest, x).Some? <==> FindTemplate(templates, x).Some?)
      && (FindTemplate(rest, x).Some? ==> rest[FindTemplate(rest, x).value] == templates[FindTemplate(templates, x).value])
  {
    var rest := templates[..i] + templates[i + 1..];
    assert |rest| == |templates| - 1;
    forall m | 0 <= m < |rest|
      ensures rest[m] == (if m < i then templates[m] else templates[m + 1])
    {
    }
    var found := FindTemplate(templates, x);
    if found.None? {
      assert forall m :: 0 <= m < |rest| ==> rest[m].id != x;
    } else {
      var j := found.value;
      var r := if j < i then j else j - 1;
      assert forall m :: 0 <= m < r ==> rest[m].id != x;
      FindTemplateAt(rest, x, r);
    }
  }

  /**
   * Deleting a template never changes the approval round of a task that
   * names its template: that template cannot be the deleted one, and it is
   * still found, unchanged.
   */
  lemma RemoveKeepsNamedTemplatesOfTasks(db: Db, id: Id, task: Task)
    requires RemoveTemplate(db, id).out.Ok?
    requires task in db.tasks && Present(task.approvalTemplateId)
    ensures PredefinedRows(RemoveTemplate(db, id).db, task) == PredefinedRows(db, task)
  {
    TasksUsingZero(db.tasks, id);
    var i := FindTemplate(db.approvalTemplates, id).value;
    FindTemplateSkipsRemoved(db.approvalTemplates, i, task.approvalTemplateId.value);
  }
}
