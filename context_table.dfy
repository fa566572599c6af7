/** The logic behind the context table webview: which column of the
    "Hazardous?" part of a row each rule applies to, and the result cells of
    that row, where neighbouring columns without a rule share one "No"
    cell. */
module ContextTableLogic {
  import opened Wrappers
  import opened Text

  datatype ControlAction = ControlAction(controller: string, action: string)

  /** A context variable with the value it has in a row or a rule. */
  datatype ContextVariable = ContextVariable(name: string, value: string)

  /** The control-action type selected in the table; only whether it is
      NOT_PROVIDED matters here. */
  datatype ActionType = Provided | NotProvided | Both

  /** A rule of the table. Its `column` is written by
      `DetermineColumnsForRules`; `None` stands for `undefined`. */
  class ContextRule {
    const id: string
    const controlAction: ControlAction
    const ruleType: string
    const variables: seq<ContextVariable>
    const hazards: seq<string>
    var column: Option<int>

    constructor (id: string, controlAction: ControlAction, ruleType: string,
                 variables: seq<ContextVariable>, hazards: seq<string>)
      ensures this.id == id && this.controlAction == controlAction && this.ruleType == ruleType
      ensures this.variables == variables && this.hazards == hazards
      ensures column == None
    {
      this.id := id;
      this.controlAction := controlAction;
      this.ruleType := ruleType;
      this.variables := variables;
      this.hazards := hazards;
      column := None;
    }
  }

  /** A cell of the result part of a row. `title` is `undefined` (None) on
      "No" cells and the rule's hazards on rule cells. */
  datatype BigCell = BigCell(cssClass: string, value: string, colSpan: int, title: Option<string>)

  // =====================================================================
  // checkValues
  // =====================================================================

  /** The value of the first variable with that name, if there is one. */
  function FindValue(variables: seq<ContextVariable>, name: string): (r: Option<string>)
    ensures r.None? <==> forall k | 0 <= k < |variables| :: variables[k].name != name
    ensures r.Some? ==> exists k | 0 <= k < |variables| ::
      && variables[k].name == name && variables[k].value == r.value
      && forall j | 0 <= j < k :: variables[j].name != name
  {
    if |variables| == 0 then None
    else if variables[0].name == name then Some(variables[0].value)
    else
      var r := FindValue(variables[1..], name);
      if r.Some? then
        var k :| 0 <= k < |variables[1..]| && variables[1..][k].name == name && variables[1..][k].value == r.value
                 && forall j | 0 <= j < k :: variables[1..][j].name != name;
        assert variables[k + 1] == variables[1..][k];
        r
      else r
  }

  /** Every variable of the first list has, as its first same-named
      counterpart in the second list, a variable with the same value. */
  function ValuesMatch(vars1: seq<ContextVariable>, vars2: seq<ContextVariable>): (r: bool)
    ensures r <==> forall i | 0 <= i < |vars1| :: FindValue(vars2, vars1[i].name) == Some(vars1[i].value)
  {
    if |vars1| == 0 then true
    else FindValue(vars2, vars1[0].name) == Some(vars1[0].value) && ValuesMatch(vars1[1..], vars2)
  }

  /** checkValues: stops at the first variable whose counterpart is
      missing or has another value. */
  method CheckValues(vars1: seq<ContextVariable>, vars2: seq<ContextVariable>) returns (r: bool)
    ensures r == ValuesMatch(vars1, vars2)
  {
    var i := 0;
    while i < |vars1|
      invariant 0 <= i <= |vars1|
      invariant forall j | 0 <= j < i :: FindValue(vars2, vars1[j].name) == Some(vars1[j].value)
    {
      var firstVariable := vars1[i];
      var corresponding := FindValue(vars2, firstVariable.name);
      if corresponding != Some(firstVariable.value) {
        return false;
      }
      i := i + 1;
    }
    return true;
  }

  // =====================================================================
  // determineColumnsForRules
  // =====================================================================

  /** The column a rule type (already lower-cased) applies to. */
  function TypeColumn(lowered: string, selectedType: ActionType): (c: int)
    ensures c in {-1, 1, 2, 3, 4}
  {
    if selectedType == NotProvided && lowered == "not-provided" then 1
    else if lowered == "provided" then 1
    else if lowered == "too-early" || lowered == "too-late" || lowered == "wrong-time" then 2
    else if lowered == "stopped-too-soon" || lowered == "applied-too-long" then 3
    else if lowered == "not-provided" then 4
    else -1
  }

  predicate RuleMatches(rule: ContextRule, variables: seq<ContextVariable>,
                        selectedController: string, selectedAction: string)
  {
    && rule.controlAction.controller == selectedController
    && rule.controlAction.action == selectedAction
    && ValuesMatch(rule.variables, variables)
  }

  /** The column a rule is given for the selection: `None` unless it
      matches, and then a column in {-1, 1, 2, 3, 4}. */
  function ColumnFor(rule: ContextRule, variables: seq<ContextVariable>, selectedController: string,
                     selectedAction: string, selectedType: ActionType): (c: Option<int>)
    ensures c.None? <==> !RuleMatches(rule, variables, selectedController, selectedAction)
    ensures c.Some? ==> c.value in {-1, 1, 2, 3, 4}
  {
    if RuleMatches(rule, variables, selectedController, selectedAction)
    then Some(TypeColumn(ToLower(rule.ruleType), selectedType))
    else None
  }

  /** determineColumnsForRules: every rule gets the column `ColumnFor`
      gives it; nothing else changes. */
  method DetermineColumnsForRules(variables: seq<ContextVariable>, rules: seq<ContextRule>,
                                  selectedController: string, selectedAction: string, selectedType: ActionType)
    modifies set r | r in rules
    ensures forall k | 0 <= k < |rules| ::
      rules[k].column == ColumnFor(rules[k], variables, selectedController, selectedAction, selectedType)
  {
    var i := 0;
    while i < |rules|
      invariant 0 <= i <= |rules|
      invariant forall k | 0 <= k < i ::
        rules[k].column == ColumnFor(rules[k], variables, selectedController, selectedAction, selectedType)
    {
      var rule := rules[i];
      var matches := CheckValues(rule.variables, variables);
      if rule.controlAction.controller == selectedController && rule.controlAction.action == selectedAction
         && matches {
        var ruleType := ToLower(rule.ruleType);
        var column := -1;
        if selectedType == NotProvided && ruleType == "not-provided" {
          column := 1;
        } else if ruleType == "provided" {
          column := 1;
        } else if ruleType == "too-early" || ruleType == "too-late" || ruleType == "wrong-time" {
          column := 2;
        } else if ruleType == "stopped-too-soon" || ruleType == "applied-too-long" {
          column := 3;
        } else if ruleType == "not-provided" {
          column := 4;
        }
        rule.column := Some(column);
      } else {
        rule.column := None;
      }
      i := i + 1;
    }
  }

  /** "not-provided" rules go to column 1 exactly when NOT_PROVIDED is
      selected, and to column 4 otherwise. */
  lemma NotProvidedColumn(selectedType: ActionType)
    ensures TypeColumn("not-provided", selectedType) == (if selectedType == NotProvided then 1 else 4)
  {
  }

  /** Types are compared case-insensitively: two rule types that lower-case
      alike get the same column. */
  lemma ColumnIgnoresCase(t1: string, t2: string, selectedType: ActionType)
    requires ToLower(t1) == ToLower(t2)
    ensures TypeColumn(ToLower(t1), selectedType) == TypeColumn(ToLower(t2), selectedType)
  {
  }

  /** An unsupported type gets column -1. */
  lemma UnsupportedTypeColumn(lowered: string, selectedType: ActionType)
    requires lowered !in ["not-provided", "provided", "too-early", "too-late", "wrong-time",
                          "stopped-too-soon", "applied-too-long"]
    ensures TypeColumn(lowered, selectedType) == -1
  {
  }

  // =====================================================================
  // createResults
  // =====================================================================

  /** `rules.find(rule => rule.column === col)`. */
  function FirstWithColumn(rules: seq<ContextRule>, col: int): (r: Option<ContextRule>)
    reads rules
    ensures r.None? <==> forall k | 0 <= k < |rules| :: rules[k].column != Some(col)
    ensures r.Some? ==> exists k | 0 <= k < |rules| ::
      && rules[k] == r.value && rules[k].column == Some(col)
      && forall j | 0 <= j < k :: rules[j].column != Some(col)
  {
    if |rules| == 0 then None
    else if rules[0].column == Some(col) then Some(rules[0])
    else
      var r := FirstWithColumn(rules[1..], col);
      if r.Some? then
        var k :| 0 <= k < |rules[1..]| && rules[1..][k] == r.value && rules[1..][k].column == Some(col)
                 && forall j | 0 <= j < k :: rules[1..][j].column != Some(col);
        assert rules[k + 1] == rules[1..][k];
        r
      else r
  }

  /** What a result column shows: nothing, or the id and hazards of a rule. */
  datatype Slot = Empty | Filled(id: string, title: string)

  function RuleSlot(rule: Option<ContextRule>): Slot
    reads if rule.Some? then {rule.value} else {}
  {
    if rule.None? then Empty else Filled(rule.value.id, Join(rule.value.hazards, ","))
  }

  /** The slots of columns 1 .. count, each from the first rule with that column. */
  function Expected(rules: seq<ContextRule>, count: int): (r: seq<Slot>)
    reads rules
    decreases count
    ensures |r| == if count < 0 then 0 else count
  {
    if count <= 0 then [] else Expected(rules, count - 1) + [RuleSlot(FirstWithColumn(rules, count))]
  }

  function Empties(k: nat): (r: seq<Slot>)
    ensures |r| == k && forall i | 0 <= i < k :: r[i] == Empty
  {
    if k == 0 then [] else Empties(k - 1) + [Empty]
  }

  predicate IsNoCell(c: BigCell) {
    c.title.None?
  }

  /** The column slots the cells cover: a "No" cell one empty slot per
      column it spans, a rule cell one filled slot. */
  function Expand(cells: seq<BigCell>): seq<Slot>
  {
    if |cells| == 0 then []
    else
      var c := cells[|cells| - 1];
      Expand(cells[..|cells| - 1]) + CellSlots(c)
  }

  /** The shape every result row has: "result" cells; a "No" cell spans at
      least one column; a rule cell spans exactly one; no two "No" cells are
      neighbours. */
  predicate WellFormed(cells: seq<BigCell>) {
    |cells| == 0 ||
    var c := cells[|cells| - 1];
    && WellFormed(cells[..|cells| - 1])
    && CellShaped(c)
    && !(IsNoCell(c) && |cells| >= 2 && IsNoCell(cells[|cells| - 2]))
  }

  predicate CellShaped(c: BigCell) {
    && c.cssClass == "result"
    && (IsNoCell(c) ==> c.value == "No" && c.colSpan >= 1)
    && (!IsNoCell(c) ==> c.colSpan == 1)
  }

  /** Well-formedness stated cell by cell. */
  lemma {:induction false} WellFormedCells(cells: seq<BigCell>)
    requires WellFormed(cells)
    ensures forall i | 0 <= i < |cells| :: CellShaped(cells[i])
    ensures forall i | 0 <= i < |cells| - 1 :: !(IsNoCell(cells[i]) && IsNoCell(cells[i + 1]))
  {
    if |cells| > 0 {
      var front := cells[..|cells| - 1];
      WellFormedCells(front);
      assert forall i | 0 <= i < |front| :: front[i] == cells[i];
    }
  }

  function SpanSum(cells: seq<BigCell>): int
  {
    if |cells| == 0 then 0 else SpanSum(cells[..|cells| - 1]) + cells[|cells| - 1].colSpan
  }

  lemma EmptiesAppend(a: nat, b: nat)
    ensures Empties(a) + Empties(b) == Empties(a + b)
  {
    assert Empties(a) + Empties(b) == Empties(a + b);
  }

  function CellSlots(c: BigCell): seq<Slot>
  {
    if IsNoCell(c) then Empties(if c.colSpan < 0 then 0 else c.colSpan) else [Filled(c.value, c.title.value)]
  }

  lemma ExpandSnoc(cells: seq<BigCell>, c: BigCell)
    ensures Expand(cells + [c]) == Expand(cells) + CellSlots(c)
  {
    assert (cells + [c])[..|cells|] == cells;
  }

  /** Appending a "result" cell of the right span keeps the row well formed,
      unless it is a "No" cell after a "No" cell. */
  lemma WellFormedSnoc(cells: seq<BigCell>, c: BigCell)
    requires WellFormed(cells) && CellShaped(c)
    requires IsNoCell(c) ==> |cells| == 0 || !IsNoCell(cells[|cells| - 1])
    ensures WellFormed(cells + [c])
  {
    assert (cells + [c])[..|cells|] == cells;
  }

  function NoCell(span: nat): BigCell
  {
    BigCell("result", "No", span, None)
  }

  function RuleCell(rule: ContextRule): BigCell
  {
    BigCell("result", rule.id, 1, Some(Join(rule.hazards, ",")))
  }

  /** The cells built so far and the count of columns without a rule that
      no cell covers yet. */
  datatype RowState = RowState(cells: seq<BigCell>, counter: nat)

  /** One column of the row: a column without a rule widens the pending run,
      which is closed at the last column; a rule closes the pending run and
      adds its own cell. */
  function StepRow(st: RowState, col: int, count: int, rule: Option<ContextRule>): RowState
  {
    if rule.None? then
      RowState(if col == count then st.cells + [NoCell(st.counter + 1)] else st.cells, st.counter + 1)
    else
      var closed := if st.counter != 0 then st.cells + [NoCell(st.counter)] else st.cells;
      RowState(closed + [RuleCell(rule.value)], 0)
  }

  /** The state after columns 1 .. c. */
  function RowAfter(rules: seq<ContextRule>, c: int, count: int): RowState
    reads rules
    decreases c
  {
    if c <= 0 then RowState([], 0) else StepRow(RowAfter(rules, c - 1, count), c, count, FirstWithColumn(rules, c))
  }

  lemma RowAfterStep(rules: seq<ContextRule>, c: int, count: int)
    requires c >= 1
    ensures RowAfter(rules, c, count) == StepRow(RowAfter(rules, c - 1, count), c, count, FirstWithColumn(rules, c))
  {
  }

  /** The shape a row has before its last column: well formed, ending in
      no "No" cell, with the cells plus the pending run covering `covered`. */
  predicate Pending(st: RowState, covered: seq<Slot>) {
    && WellFormed(st.cells)
    && (|st.cells| == 0 || !IsNoCell(st.cells[|st.cells| - 1]))
    && Expand(st.cells) + Empties(st.counter) == covered
  }

  /** A column without a rule: the pending run grows, and is closed into one
      "No" cell at the last column. */
  lemma StepWithoutRule(st0: RowState, c: int, count: int, covered: seq<Slot>)
    requires Pending(st0, covered) && c <= count
    ensures var st := StepRow(st0, c, count, None);
      && (c < count ==> Pending(st, covered + [Empty]))
      && (c == count ==> WellFormed(st.cells) && Expand(st.cells) == covered + [Empty])
  {
    var st := StepRow(st0, c, count, None);
    var seen := Expand(st0.cells);
    EmptiesAppend(st0.counter, 1);
    assert Empties(1) == [Empty];
    assert covered + [Empty] == seen + Empties(st0.counter + 1) by {
      assert covered + [Empty] == (seen + Empties(st0.counter)) + Empties(1);
    }
    if c == count {
      var cell := NoCell(st0.counter + 1);
      assert st.cells == st0.cells + [cell];
      WellFormedSnoc(st0.cells, cell);
      ExpandSnoc(st0.cells, cell);
    } else {
      assert st == RowState(st0.cells, st0.counter + 1);
    }
  }

  /** A column with a rule: the pending run becomes a "No" cell, then the
      rule's cell follows. */
  lemma StepWithRule(st0: RowState, c: int, count: int, rule: ContextRule, covered: seq<Slot>)
    requires Pending(st0, covered) && c <= count
    ensures var st := StepRow(st0, c, count, Some(rule));
      && Pending(st, covered + [RuleSlot(Some(rule))])
      && WellFormed(st.cells) && Expand(st.cells) == covered + [RuleSlot(Some(rule))]
  {
    var closed := if st0.counter != 0 then st0.cells + [NoCell(st0.counter)] else st0.cells;
    if st0.counter != 0 {
      WellFormedSnoc(st0.cells, NoCell(st0.counter));
      ExpandSnoc(st0.cells, NoCell(st0.counter));
    } else {
      assert Expand(st0.cells) + Empties(0) == Expand(st0.cells);
    }
    assert Expand(closed) == covered;
    WellFormedSnoc(closed, RuleCell(rule));
    ExpandSnoc(closed, RuleCell(rule));
    var st := StepRow(st0, c, count, Some(rule));
    assert Expand(st.cells) + Empties(0) == Expand(st.cells);
  }

  /** Before the last column the row is pending over the columns so far; at
      the last column its cells alone cover them. */
  lemma {:induction false} RowAfterCovers(rules: seq<ContextRule>, c: int, count: int)
    requires 0 <= c <= count
    ensures c < count ==> Pending(RowAfter(rules, c, count), Expected(rules, c))
    ensures c == count ==> WellFormed(RowAfter(rules, c, count).cells)
                           && Expand(RowAfter(rules, c, count).cells) == Expected(rules, c)
  {
    if c == 0 {
      assert Expand([]) + Empties(0) == [];
    } else {
      RowAfterCovers(rules, c - 1, count);
      var st0 := RowAfter(rules, c - 1, count);
      var rule := FirstWithColumn(rules, c);
      assert RowAfter(rules, c, count) == StepRow(st0, c, count, rule);
      assert Expected(rules, c) == Expected(rules, c - 1) + [RuleSlot(rule)];
      if rule.None? {
        StepWithoutRule(st0, c, count, Expected(rules, c - 1));
      } else {
        StepWithRule(st0, c, count, rule.value, Expected(rules, c - 1));
      }
    }
  }

  /** createResults: the cells, read column by column, show the first rule
      of each column, and runs of columns without a rule are merged into one
      "No" cell; `rules` is only read. */
  method CreateResults(rules: seq<ContextRule>, hazardColumnsCount: int) returns (cells: seq<BigCell>)
    ensures WellFormed(cells)
    ensures Expand(cells) == Expected(rules, hazardColumnsCount)
  {
    cells := [];
    var noAppliedRuleCounter: nat := 0;
    var hazardColumn := 1;
    while hazardColumn <= hazardColumnsCount
      invariant 1 <= hazardColumn && (hazardColumn <= hazardColumnsCount + 1 || hazardColumn == 1)
      invariant RowState(cells, noAppliedRuleCounter) == RowAfter(rules, hazardColumn - 1, hazardColumnsCount)
    {
      var currentRule := FirstWithColumn(rules, hazardColumn);
      ghost var next := StepRow(RowState(cells, noAppliedRuleCounter), hazardColumn, hazardColumnsCount, currentRule);
      RowAfterStep(rules, hazardColumn, hazardColumnsCount);
      if currentRule.None? {
        noAppliedRuleCounter := noAppliedRuleCounter + 1;
        if hazardColumn == hazardColumnsCount {
          cells := cells + [BigCell("result", "No", noAppliedRuleCounter, None)];
        }
      } else {
        if noAppliedRuleCounter != 0 {
          cells := cells + [BigCell("result", "No", noAppliedRuleCounter, None)];
          noAppliedRuleCounter := 0;
        }
        var rule := currentRule.value;
        cells := cells + [BigCell("result", rule.id, 1, Some(Join(rule.hazards, ",")))];
      }
      assert RowState(cells, noAppliedRuleCounter) == next;
      hazardColumn := hazardColumn + 1;
    }
    if hazardColumnsCount >= 1 {
      RowAfterCovers(rules, hazardColumnsCount, hazardColumnsCount);
    }
  }

  /** The spans of well-formed cells add up to the number of columns they cover. */
  lemma {:induction false} SpanSumIsWidth(cells: seq<BigCell>)
    requires WellFormed(cells)
    ensures SpanSum(cells) == |Expand(cells)|
  {
    if |cells| > 0 {
      var front := cells[..|cells| - 1];
      assert WellFormed(front);
      SpanSumIsWidth(front);
    }
  }

  /** The result cells of a row span exactly the hazardous columns; with no
      columns there are no cells. */
  lemma ResultWidth(rules: seq<ContextRule>, count: int, cells: seq<BigCell>)
    requires WellFormed(cells) && Expand(cells) == Expected(rules, count)
    ensures SpanSum(cells) == if count < 0 then 0 else count
    ensures count <= 0 ==> cells == []
  {
    SpanSumIsWidth(cells);
    if count <= 0 && |cells| > 0 {
      ExpandNonEmpty(cells);
    }
  }

  lemma ExpandNonEmpty(cells: seq<BigCell>)
    requires WellFormed(cells) && |cells| > 0
    ensures |Expand(cells)| > 0
  {
    var c := cells[|cells| - 1];
    if IsNoCell(c) {
      assert |Empties(c.colSpan)| >= 1;
    }
  }

  /** Column c (1-based) of the row shows the first rule with column c, or
      is covered by a "No" cell when no rule has column c. */
  lemma ColumnShowsFirstRule(rules: seq<ContextRule>, count: int, c: int)
    requires 1 <= c <= count
    ensures Expected(rules, count)[c - 1] == RuleSlot(FirstWithColumn(rules, c))
    decreases count
  {
    if c < count {
      ColumnShowsFirstRule(rules, count - 1, c);
    }
  }
}
