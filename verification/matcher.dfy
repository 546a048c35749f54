/**
 * Template matching (`matchTemplate`): a first-match linear search over the
 * active approval templates, each guarded by a condition with an optional
 * department-name clause and an optional minimum-amount clause; and the
 * `orderBy: { levelOrder: 'asc' }` ordering under which stages are read.
 */
module TemplateMatcher {
  import opened Entities

  /**
   * The `department` clause: ignored when absent or empty, otherwise the
   * task must have a department of exactly that name.
   */
  predicate DepartmentClauseHolds(c: Condition, departmentName: Option<string>) {
    Present(c.department) ==> departmentName.Some? && departmentName.value == c.department.value
  }

  /**
   * The `amount_min` clause: when present, the task's amount must be
   * truthy (neither null nor 0) and not below the floor.
   */
  predicate AmountClauseHolds(c: Condition, amount: Option<int>) {
    c.amountMin.Some? ==> NonZero(amount) && amount.value >= c.amountMin.value
  }

  predicate ConditionHolds(c: Condition, departmentName: Option<string>, amount: Option<int>) {
    DepartmentClauseHolds(c, departmentName) && AmountClauseHolds(c, amount)
  }

  /** A template whose conditionJson does not parse never matches. */
  predicate TemplateMatches(t: Template, departmentName: Option<string>, amount: Option<int>) {
    t.condition.Some? && ConditionHolds(t.condition.value, departmentName, amount)
  }

  /** The templates with `isActive: true`, in store order. */
  function ActiveTemplates(templates: seq<Template>): (r: seq<Template>)
    ensures forall t :: t in r <==> t in templates && t.isActive
  {
    Filter(templates, (t: Template) => t.isActive)
  }

  /**
   * The position of the first template of `templates` whose condition holds
   * for a task with the given department name and amount; None when none
   * does.
   */
  function MatchTemplate(templates: seq<Template>, departmentName: Option<string>, amount: Option<int>): (r: Option<nat>)
    ensures r.Some? ==> r.value < |templates| && TemplateMatches(templates[r.value], departmentName, amount)
    ensures r.Some? ==> forall j :: 0 <= j < r.value ==> !TemplateMatches(templates[j], departmentName, amount)
    ensures r.None? <==> forall j :: 0 <= j < |templates| ==> !TemplateMatches(templates[j], departmentName, amount)
  {
    Find(templates, (t: Template) => TemplateMatches(t, departmentName, amount))
  }

  /** The meaning of each clause, stated one case at a time. */
  lemma ConditionClauses(c: Condition, departmentName: Option<string>, amount: Option<int>)
    ensures Present(c.department) && ConditionHolds(c, departmentName, amount) ==>
              departmentName == Some(c.department.value)
    ensures c.amountMin.Some? && (amount.None? || amount == Some(0)) ==> !ConditionHolds(c, departmentName, amount)
    ensures c.amountMin.Some? && amount.Some? && amount.value < c.amountMin.value ==> !ConditionHolds(c, departmentName, amount)
    ensures c.amountMin.None? && !Present(c.department) ==> ConditionHolds(c, departmentName, amount)
  {
  }

  /**
   * A template whose condition is empty (`{}`) is taken as soon as the scan
   * reaches it, whatever the task; templates after it are never looked at.
   */
  lemma {:induction false} EmptyConditionStopsScan(templates: seq<Template>, k: nat, departmentName: Option<string>, amount: Option<int>)
    requires k < |templates| && templates[k].condition == Some(Condition(None, None))
    ensures MatchTemplate(templates, departmentName, amount).Some?
    ensures MatchTemplate(templates, departmentName, amount).value <= k
  {
    assert TemplateMatches(templates[k], departmentName, amount);
  }

  // ---------------------------------------------------------------------
  // Stages are always read with orderBy levelOrder ascending.

  ghost predicate SortedByLevel(stages: seq<Stage>) {
    forall i, j :: 0 <= i < j < |stages| ==> stages[i].levelOrder <= stages[j].levelOrder
  }

  /** Every stage of a sequence with the same multiset as `tail` plus `s` is at level `lo` or above. */
  lemma LevelsBoundedBelow(r: seq<Stage>, tail: seq<Stage>, s: Stage, lo: int)
    requires multiset(r) == multiset(tail) + multiset{s}
    requires lo <= s.levelOrder
    requires forall j :: 0 <= j < |tail| ==> lo <= tail[j].levelOrder
    ensures forall j :: 0 <= j < |r| ==> lo <= r[j].levelOrder
  {
    forall j | 0 <= j < |r|
      ensures lo <= r[j].levelOrder
    {
      assert r[j] in multiset(r);
      if r[j] != s {
        assert r[j] in multiset(tail);
        var k :| 0 <= k < |tail| && tail[k] == r[j];
      }
    }
  }

  /** Inserts `s` after every stage whose level is not greater than its own. */
  function InsertByLevel(s: Stage, sorted: seq<Stage>): (r: seq<Stage>)
    requires SortedByLevel(sorted)
    ensures SortedByLevel(r)
    ensures multiset(r) == multiset(sorted) + multiset{s}
  {
    if sorted == [] then [s]
    else if s.levelOrder < sorted[0].levelOrder then [s] + sorted
    else
      var tail := sorted[1..];
      var rest := InsertByLevel(s, tail);
      assert sorted == [sorted[0]] + tail;
      LevelsBoundedBelow(rest, tail, s, sorted[0].levelOrder);
      [sorted[0]] + rest
  }

  /** A stable sort of the stages by levelOrder. */
  function SortStages(stages: seq<Stage>): (r: seq<Stage>)
    ensures SortedByLevel(r)
    ensures multiset(r) == multiset(stages)
  {
    if stages == [] then []
    else
      assert stages == stages[..|stages| - 1] + [stages[|stages| - 1]];
      InsertByLevel(stages[|stages| - 1], SortStages(stages[..|stages| - 1]))
  }
}
