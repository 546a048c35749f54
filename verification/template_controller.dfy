/**
 * The approval-template table: creating a template with its defaults,
 * editing only the supplied fields (stages replaced wholesale), and
 * deleting a template no task refers to. These operations produce the
 * template list the matcher scans.
 *
 * JSON texts are not parsed here: a request field that holds JSON arrives
 * as a `JsonInput`, the result of that parse.
 */
module TemplateController {
  import opened Entities
  import opened Stores

  /**
   * A JSON-valued request field: left out (`undefined`), the empty string,
   * text that does not parse, or the parsed value (for a stage condition,
   * its re-serialised text).
   */
  datatype JsonInput<T> = NotGiven | Empty | Unparsable | Given(value: T)

  datatype StageInput = StageInput(levelOrder: int, approverType: string, approverValue: string, conditionJson: JsonInput<string>)

  /** The request body of createTemplate and updateTemplate; `None` is a field left out. */
  datatype TemplateRequest = TemplateRequest(
    name: Option<string>,
    conditionJson: JsonInput<Condition>,
    isActive: Option<bool>,
    stages: Option<seq<StageInput>>)

  /** The condition of a template created without one: `{}`, which every task meets. */
  const EmptyCondition := Condition(None, None)

  /** Every stage's conditionJson, if given, parses. */
  predicate StagesParse(inputs: seq<StageInput>) {
    forall j :: 0 <= j < |inputs| ==> !inputs[j].conditionJson.Unparsable?
  }

  /** The stored stage: a missing or empty stage condition becomes `{}`. */
  function StageOf(input: StageInput): (s: Stage)
    requires !input.conditionJson.Unparsable?
    ensures s.levelOrder == input.levelOrder && s.approverType == input.approverType && s.approverValue == input.approverValue
    ensures input.conditionJson.Given? ==> s.conditionJson == input.conditionJson.value
    ensures !input.conditionJson.Given? ==> s.conditionJson == "{}"
  {
    Stage(input.levelOrder, input.approverType, input.approverValue,
          if input.conditionJson.Given? then input.conditionJson.value else "{}")
  }

  function MapStages(inputs: seq<StageInput>): (r: seq<Stage>)
    requires StagesParse(inputs)
    ensures |r| == |inputs|
    ensures forall j :: 0 <= j < |inputs| ==> r[j] == StageOf(inputs[j])
  {
    if inputs == [] then []
    else MapStages(inputs[..|inputs| - 1]) + [StageOf(inputs[|inputs| - 1])]
  }

  /** `stages.map(...)`, which throws as soon as one stage condition does not parse. */
  function BuildStages(inputs: seq<StageInput>): Outcome<seq<Stage>> {
    if StagesParse(inputs) then Ok(MapStages(inputs)) else Err(StageConditionUnparsable)
  }

  method MapStageInputs(inputs: seq<StageInput>) returns (result: Outcome<seq<Stage>>)
    ensures result == BuildStages(inputs)
  {
    var stages: seq<Stage> := [];
    for i := 0 to |inputs|
      invariant |stages| == i
      invariant forall j :: 0 <= j < i ==> !inputs[j].conditionJson.Unparsable? && stages[j] == StageOf(inputs[j])
    {
      if inputs[i].conditionJson.Unparsable? {
        return Err(StageConditionUnparsable);
      }
      stages := stages + [StageOf(inputs[i])];
    }
    assert stages == MapStages(inputs);
    result := Ok(stages);
  }

  // ---------------------------------------------------------------------
  // createTemplate

  /** `newId` stands for the identifier the database generates for the new row. */
  function AddTemplate(db: Db, newId: Id, req: TemplateRequest): Step<Template> {
    if !Present(req.name) then Step(Err(MissingField("name")), db)
    else if req.conditionJson.Unparsable? then Step(Err(InvalidConditionJson), db)
    else
      var condition := if req.conditionJson.Given? then req.conditionJson.value else EmptyCondition;
      match BuildStages(req.stages.GetOr([]))
      case Err(e) => Step(Err(e), db)
      case Ok(stages) =>
        var template := Template(newId, req.name.value, Some(condition), req.isActive.GetOr(true), stages);
        Step(Ok(template), db.(approvalTemplates := db.approvalTemplates + [template]))
  }

  method CreateTemplate(store: Store, newId: Id, req: TemplateRequest) returns (result: Outcome<Template>)
    modifies store
    ensures Step(result, store.Snapshot()) == AddTemplate(old(store.Snapshot()), newId, req)
  {
    if !Present(req.name) {
      return Err(MissingField("name"));
    }
    var condition := EmptyCondition;
    match req.conditionJson {
      case Unparsable =>
        return Err(InvalidConditionJson);
      case Given(c) =>
        condition := c;
      case _ =>
    }
    var stages := MapStageInputs(req.stages.GetOr([]));
    if stages.Err? {
      return Err(stages.error);
    }
    var template := Template(newId, req.name.value, Some(condition), req.isActive.GetOr(true), stages.value);
    store.approvalTemplates := store.approvalTemplates + [template];
    result := Ok(template);
  }

  // ---------------------------------------------------------------------
  // updateTemplate

  /** The template with the supplied fields overwritten and, when given, its stages replaced. */
  function Revised(t: Template, req: TemplateRequest, stages: seq<Stage>): Template
    requires !req.conditionJson.Unparsable? && !req.conditionJson.Empty?
  {
    t.(
      name := req.name.GetOr(t.name),
      condition := if req.conditionJson.Given? then Some(req.conditionJson.value) else t.condition,
      isActive := req.isActive.GetOr(t.isActive),
      stages := if req.stages.Some? then stages else t.stages)
  }

  /**
   * updateTemplate with every check made before the first write: a stage
   * condition that does not parse leaves the template as it was.
   */
  function EditTemplate(db: Db, id: Id, req: TemplateRequest): Step<Template> {
    if req.conditionJson.Unparsable? || req.conditionJson.Empty? then Step(Err(InvalidConditionJson), db)
    else
      match BuildStages(req.stages.GetOr([]))
      case Err(e) => Step(Err(e), db)
      case Ok(stages) =>
        match FindTemplate(db.approvalTemplates, id)
        case None => Step(Err(TemplateNotFound), db)
        case Some(i) =>
          var template := Revised(db.approvalTemplates[i], req, stages);
          Step(Ok(template), db.(approvalTemplates := db.approvalTemplates[i := template]))
  }

  /** `deleteMany` of the template's stages: only the stages of the template with that id go. */
  function ClearStages(db: Db, id: Id): (r: Db)
    ensures r == db.(approvalTemplates := r.approvalTemplates)
    ensures |r.approvalTemplates| == |db.approvalTemplates|
    ensures forall j :: 0 <= j < |db.approvalTemplates| ==>
              r.approvalTemplates[j] == db.approvalTemplates[j]
              || (db.approvalTemplates[j].id == id && r.approvalTemplates[j] == db.approvalTemplates[j].(stages := []))
    ensures FindTemplate(db.approvalTemplates, id).Some? ==>
              r.approvalTemplates[FindTemplate(db.approvalTemplates, id).value].stages == []
  {
    match FindTemplate(db.approvalTemplates, id)
    case None => db
    case Some(i) => db.(approvalTemplates := db.approvalTemplates[i := db.approvalTemplates[i].(stages := [])])
  }

  /**
   * updateTemplate as the controller orders its steps: the old stages are
   * deleted before the new stages' conditions are parsed, so a parse
   * failure leaves the template with no stages at all.
   */
  function EditTemplateAsWritten(db: Db, id: Id, req: TemplateRequest): (r: Step<Template>)
    ensures r.db == db.(approvalTemplates := r.db.approvalTemplates)
    ensures |r.db.approvalTemplates| == |db.approvalTemplates|
    ensures forall j :: 0 <= j < |db.approvalTemplates| ==> r.db.approvalTemplates[j].id == db.approvalTemplates[j].id
    ensures req.stages.None? && r.out.Err? ==> r.db == db
    ensures r.out.Ok? ==> r.out.value.id == id
  {
    if req.conditionJson.Unparsable? || req.conditionJson.Empty? then Step(Err(InvalidConditionJson), db)
    else
      var db' := if req.stages.Some? then ClearStages(db, id) else db;
      match BuildStages(req.stages.GetOr([]))
      case Err(e) => Step(Err(e), db')
      case Ok(stages) =>
        match FindTemplate(db'.approvalTemplates, id)
        case None => Step(Err(TemplateNotFound), db')
        case Some(i) =>
          var template := Revised(db'.approvalTemplates[i], req, stages);
          Step(Ok(template), db'.(approvalTemplates := db'.approvalTemplates[i := template]))
  }

  /** The update data of updateTemplate laid over the template, one supplied field at a time. */
  method ApplyUpdateData(t: Template, req: TemplateRequest, stages: seq<Stage>) returns (updated: Template)
    requires !req.conditionJson.Unparsable? && !req.conditionJson.Empty?
    ensures updated == Revised(t, req, stages)
  {
    updated := t;
    if req.name.Some? {
      updated := updated.(name := req.name.value);
    }
    if req.conditionJson.Given? {
      updated := updated.(condition := Some(req.conditionJson.value));
    }
    if req.isActive.Some? {
      updated := updated.(isActive := req.isActive.value);
    }
    if req.stages.Some? {
      updated := updated.(stages := stages);
    }
  }

  /**
   * updateTemplate in the controller's order: when stages are supplied the
   * old ones are deleted first, then the new ones are built, and only then
   * is the template itself looked up and updated.
   */
  method UpdateTemplate(store: Store, id: Id, req: TemplateRequest) returns (result: Outcome<Template>)
    modifies store
    ensures Step(result, store.Snapshot()) == EditTemplateAsWritten(old(store.Snapshot()), id, req)
  {
    if req.conditionJson.Unparsable? || req.conditionJson.Empty? {
      return Err(InvalidConditionJson);
    }
    if req.stages.Some? {
      var found := FindTemplate(store.approvalTemplates, id);
      if found.Some? {
        store.approvalTemplates := store.approvalTemplates[found.value := store.approvalTemplates[found.value].(stages := [])];
      }
    }
    var stages := MapStageInputs(req.stages.GetOr([]));
    if stages.Err? {
      return Err(stages.error);
    }
    var i := FindTemplate(store.approvalTemplates, id);
    if i.None? {
      return Err(TemplateNotFound);
    }
    var template := ApplyUpdateData(store.approvalTemplates[i.value], req, stages.value);
    store.approvalTemplates := store.approvalTemplates[i.value := template];
    result := Ok(template);
  }

  // ---------------------------------------------------------------------
  // deleteTemplate

  /** How many tasks name the template (`task.count({ where: { approvalTemplateId } })`). */
  function TasksUsing(tasks: seq<Task>, id: Id): nat {
    if tasks == [] then 0
    else TasksUsing(tasks[..|tasks| - 1], id) + (if tasks[|tasks| - 1].approvalTemplateId == Some(id) then 1 else 0)
  }

  method CountTasksUsing(tasks: seq<Task>, id: Id) returns (count: nat)
    ensures count == TasksUsing(tasks, id)
  {
    count := 0;
    for j := 0 to |tasks|
      invariant count == TasksUsing(tasks[..j], id)
    {
      PrefixSnoc(tasks, j);
      if tasks[j].approvalTemplateId == Some(id) {
        count := count + 1;
      }
    }
    PrefixAll(tasks);
  }

  function RemoveTemplate(db: Db, id: Id): Step<()> {
    var using := TasksUsing(db.tasks, id);
    if using > 0 then Step(Err(TemplateInUse(using)), db)
    else
      match FindTemplate(db.approvalTemplates, id)
      case None => Step(Err(TemplateNotFound), db)
      case Some(i) =>
        Step(Ok(()), db.(approvalTemplates := db.approvalTemplates[..i] + db.approvalTemplates[i + 1..]))
  }

  method DeleteTemplate(store: Store, id: Id) returns (result: Outcome<()>)
    modifies store
    ensures Step(result, store.Snapshot()) == RemoveTemplate(old(store.Snapshot()), id)
  {
    var tasksUsingTemplate := CountTasksUsing(store.tasks, id);
    if tasksUsingTemplate > 0 {
      return Err(TemplateInUse(tasksUsingTemplate));
    }
    var i := FindTemplate(store.approvalTemplates, id);
    if i.None? {
      return Err(TemplateNotFound);
    }
    store.approvalTemplates := store.approvalTemplates[..i.value] + store.approvalTemplates[i.value + 1..];
    result := Ok(());
  }
}
