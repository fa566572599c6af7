/** The Markdown report of an STPA analysis: one section per aspect, the
    responsibilities and loss scenarios grouped by key, the UCA table, and a
    summary of all safety constraints. */
module MdExport {
  import opened Wrappers
  import opened Text

  /** A component of the report: an id, a description and, possibly, a
      reference list (`undefined` is None). */
  datatype StpaComponent = StpaComponent(id: string, description: string, references: Option<string>)

  /** A `Record<string, StpaComponent[]>`, as its entries in iteration order. */
  type ComponentRecord = seq<(string, seq<StpaComponent>)>

  /** The keys of the UCA record of one control action. */
  datatype UcaType = NotProvidedUca | ProvidedUca | WrongTime | Continuous

  datatype ActionUcas = ActionUcas(controlAction: string, ucas: map<UcaType, seq<StpaComponent>>)

  /** The data the report is built from (`StpaResult`). */
  datatype StpaResult = StpaResult(
    losses: seq<StpaComponent>, hazards: seq<StpaComponent>, systemLevelConstraints: seq<StpaComponent>,
    responsibilities: ComponentRecord, ucas: seq<ActionUcas>, controllerConstraints: seq<StpaComponent>,
    ucaScenarios: ComponentRecord, scenarios: seq<StpaComponent>, safetyCons: seq<StpaComponent>)

  const LossHeader := "Losses"
  const HazardHeader := "Hazards"
  const SystemLevelConstraintHeader := "System-level Constraints"
  const ResponsibilityHeader := "Responsibilities"
  const UcaHeader := "UCAs"
  const ControllerConstraintHeader := "Controller Constraints"
  const LossScenarioHeader := "Loss Scenarios"
  const SafetyRequirementHeader := "Safety Requirements"

  const ReportTitle := "# STPA Report\n\n"
  const UcaTableHead := "| Control Action | not provided | provided | too late or too early | applied too long or stopped too soon |\n"
  const UcaTableRule := "| --- | --- | --- | --- | --- |\n"
  const SummaryTitle := "## Summarized Safety Constraints\n\n"
  const UnassignedScenariosTitle := "**Scenarios without associated UCA**\n\n"

  // =====================================================================
  // Components
  // =====================================================================

  function ComponentHead(c: StpaComponent): string
  {
    "**" + c.id + "**: " + c.description
  }

  predicate HasReferences(c: StpaComponent) {
    c.references.Some? && c.references.value != ""
  }

  /** stpaComponentToMarkdown: the bold id and the description, then the
      reference list in brackets exactly when there is a non-empty one. */
  function ComponentToMarkdown(c: StpaComponent): string
  {
    var markdown := "**" + c.id + "**: " + c.description;
    if HasReferences(c) then markdown + " [" + c.references.value + "]" else markdown
  }

  /** A component starts with its bold id and its description, and goes on
      with the bracketed reference list exactly when it has a non-empty one. */
  lemma ComponentShape(c: StpaComponent)
    ensures ComponentHead(c) <= ComponentToMarkdown(c)
    ensures HasReferences(c) <==> |ComponentToMarkdown(c)| > |ComponentHead(c)|
    ensures HasReferences(c) ==> ComponentToMarkdown(c)[|ComponentHead(c)|..] == " [" + c.references.value + "]"
  {
  }

  function Rendered(cs: seq<StpaComponent>): (r: seq<string>)
    ensures |r| == |cs| && forall i | 0 <= i < |cs| :: r[i] == ComponentToMarkdown(cs[i])
  {
    seq(|cs|, i requires 0 <= i < |cs| => ComponentToMarkdown(cs[i]))
  }

  /** Each component followed by a Markdown line break. */
  function ComponentLines(cs: seq<StpaComponent>): string
  {
    if |cs| == 0 then "" else ComponentLines(cs[..|cs| - 1]) + ComponentToMarkdown(cs[|cs| - 1]) + "  \n"
  }

  // =====================================================================
  // The report, as functions
  // =====================================================================

  function AspectMarkdown(aspect: string, cs: seq<StpaComponent>): string
  {
    "## " + aspect + "\n\n" + ComponentLines(cs) + "\n"
  }

  function RecordEntry(key: string, cs: seq<StpaComponent>): string
  {
    "_" + key + "_  \n" + ComponentLines(cs) + "\n"
  }

  function RecordBody(data: ComponentRecord): string
  {
    if |data| == 0 then "" else RecordBody(data[..|data| - 1]) + RecordEntry(data[|data| - 1].0, data[|data| - 1].1)
  }

  function RecordMarkdown(aspect: string, data: ComponentRecord): string
  {
    "## " + aspect + "\n\n" + RecordBody(data)
  }

  function ScenariosMarkdown(ucaScenarios: ComponentRecord, scenarios: seq<StpaComponent>): string
  {
    RecordMarkdown(LossScenarioHeader, ucaScenarios)
    + (if |scenarios| != 0 then UnassignedScenariosTitle + Join(Rendered(scenarios), "  \n") + "\n" else "")
  }

  predicate HasAllUcaTypes(a: ActionUcas) {
    NotProvidedUca in a.ucas && ProvidedUca in a.ucas && WrongTime in a.ucas && Continuous in a.ucas
  }

  function UcaCell(cs: seq<StpaComponent>): string
  {
    Join(Rendered(cs), "<br><br>")
  }

  /** One table row; reading a UCA type the record lacks is a TypeError. */
  function UcaRow(a: ActionUcas): Result<string, Error>
  {
    if !HasAllUcaTypes(a) then Failure(TypeError("map"))
    else Success("| " + a.controlAction + " |" + UcaCell(a.ucas[NotProvidedUca]) + "|" + UcaCell(a.ucas[ProvidedUca])
                 + "|" + UcaCell(a.ucas[WrongTime]) + "|" + UcaCell(a.ucas[Continuous]) + "|\n")
  }

  function UcaRows(actions: seq<ActionUcas>): Result<string, Error>
  {
    if |actions| == 0 then Success("")
    else
      var front := UcaRows(actions[..|actions| - 1]);
      var row := UcaRow(actions[|actions| - 1]);
      if front.Failure? then front else if row.Failure? then row else Success(front.value + row.value)
  }

  function UcaTable(actions: seq<ActionUcas>): Result<string, Error>
  {
    var rows := UcaRows(actions);
    if rows.Failure? then rows else Success("## " + UcaHeader + "\n\n" + UcaTableHead + UcaTableRule + rows.value + "\n")
  }

  function SummaryMarkdown(data: StpaResult): string
  {
    SummaryTitle + ComponentLines(data.systemLevelConstraints) + ComponentLines(data.controllerConstraints)
    + ComponentLines(data.safetyCons)
  }

  /** addControlStructure, reduced to the text it returns. */
  function ControlStructureMarkdown(): string
  {
    "## Control Structure\n\n![Control Structure](./images/control-structure.svg)\n\n"
  }

  function ReportMarkdown(data: StpaResult): Result<string, Error>
  {
    var table := UcaTable(data.ucas);
    if table.Failure? then table
    else Success(ReportTitle
      + AspectMarkdown(LossHeader, data.losses)
      + AspectMarkdown(HazardHeader, data.hazards)
      + AspectMarkdown(SystemLevelConstraintHeader, data.systemLevelConstraints)
      + ControlStructureMarkdown()
      + RecordMarkdown(ResponsibilityHeader, data.responsibilities)
      + table.value
      + AspectMarkdown(ControllerConstraintHeader, data.controllerConstraints)
      + ScenariosMarkdown(data.ucaScenarios, data.scenarios)
      + AspectMarkdown(SafetyRequirementHeader, data.safetyCons)
      + SummaryMarkdown(data))
  }

  // =====================================================================
  // The report, as the source builds it
  // =====================================================================

  /** createMarkdownText */
  method CreateMarkdownText(data: StpaResult, uri: string) returns (r: Result<string, Error>)
    ensures r == ReportMarkdown(data)
  {
    var markdown := "";
    markdown := markdown + ReportTitle;
    assert markdown == ReportTitle;
    var losses := StpaAspectToMarkdown(LossHeader, data.losses);
    markdown := markdown + losses;
    var hazards := StpaAspectToMarkdown(HazardHeader, data.hazards);
    markdown := markdown + hazards;
    var constraints := StpaAspectToMarkdown(SystemLevelConstraintHeader, data.systemLevelConstraints);
    markdown := markdown + constraints;
    markdown := markdown + ControlStructureMarkdown();
    var responsibilities := RecordToMarkdown(ResponsibilityHeader, data.responsibilities);
    markdown := markdown + responsibilities;
    var ucas := UcasToMarkdown(data.ucas);
    if ucas.Failure? {
      return ucas;
    }
    markdown := markdown + ucas.value;
    var controllerConstraints := StpaAspectToMarkdown(ControllerConstraintHeader, data.controllerConstraints);
    markdown := markdown + controllerConstraints;
    var scenarios := ScenariosToMarkdown(data.ucaScenarios, data.scenarios);
    markdown := markdown + scenarios;
    var safetyCons := StpaAspectToMarkdown(SafetyRequirementHeader, data.safetyCons);
    markdown := markdown + safetyCons;
    var summary := AddSummary(data);
    markdown := markdown + summary;
    r := Success(markdown);
  }

  /** stpaAspectToMarkdown */
  method StpaAspectToMarkdown(aspect: string, components: seq<StpaComponent>) returns (markdown: string)
    ensures markdown == AspectMarkdown(aspect, components)
  {
    markdown := "## " + aspect + "\n\n";
    markdown := AppendComponentLines(markdown, components);
    markdown := markdown + "\n";
  }

  /** recordToMarkdown; the entries are visited in the order of the list. */
  method RecordToMarkdown(aspect: string, data: ComponentRecord) returns (markdown: string)
    ensures markdown == RecordMarkdown(aspect, data)
  {
    ghost var head := "## " + aspect + "\n\n";
    markdown := "## " + aspect + "\n\n";
    var k := 0;
    while k < |data|
      invariant 0 <= k <= |data|
      invariant markdown == head + RecordBody(data[..k])
    {
      RecordSnoc(data, k);
      var reference := data[k].0;
      markdown := markdown + ("_" + reference + "_  \n");
      markdown := AppendComponentLines(markdown, data[k].1);
      markdown := markdown + "\n";
      Assoc4(head, RecordBody(data[..k]), "_" + reference + "_  \n", ComponentLines(data[k].1), "\n");
      k := k + 1;
    }
    assert data[..k] == data;
  }

  /** scenariosToMarkdown */
  method ScenariosToMarkdown(ucaScenarios: ComponentRecord, scenarios: seq<StpaComponent>) returns (markdown: string)
    ensures markdown == ScenariosMarkdown(ucaScenarios, scenarios)
  {
    markdown := RecordToMarkdown(LossScenarioHeader, ucaScenarios);
    if |scenarios| != 0 {
      ghost var record := markdown;
      var lines := Join(Rendered(scenarios), "  \n");
      markdown := markdown + UnassignedScenariosTitle;
      markdown := markdown + lines;
      markdown := markdown + "\n";
      Assoc4Of(record, UnassignedScenariosTitle, lines, "\n");
    }
  }

  /** ucasToMarkdown: a UCA type missing from an action's record makes
      `undefined.map` throw. */
  method UcasToMarkdown(actionUcas: seq<ActionUcas>) returns (r: Result<string, Error>)
    ensures r == UcaTable(actionUcas)
  {
    var markdown := "## " + UcaHeader + "\n\n";
    markdown := markdown + UcaTableHead;
    markdown := markdown + UcaTableRule;
    ghost var head := markdown;
    var k := 0;
    while k < |actionUcas|
      invariant 0 <= k <= |actionUcas|
      invariant UcaRows(actionUcas[..k]).Success?
      invariant markdown == head + UcaRows(actionUcas[..k]).value
    {
      assert actionUcas[..k + 1][..k] == actionUcas[..k];
      if !HasAllUcaTypes(actionUcas[k]) {
        FailedRowsStayFailed(actionUcas, k + 1);
        return Failure(TypeError("map"));
      }
      ghost var before := markdown;
      markdown := AppendUcaRow(markdown, actionUcas[k]);
      Assoc3(head, UcaRows(actionUcas[..k]).value, UcaRow(actionUcas[k]).value);
      k := k + 1;
    }
    assert actionUcas[..k] == actionUcas;
    markdown := markdown + "\n";
    r := Success(markdown);
  }

  /** The body of ucasToMarkdown's loop: one row of the table. */
  method AppendUcaRow(prefix: string, actionUca: ActionUcas) returns (markdown: string)
    requires HasAllUcaTypes(actionUca)
    ensures markdown == prefix + UcaRow(actionUca).value
  {
    var row := "| " + actionUca.controlAction + " |";
    row := row + UcaCell(actionUca.ucas[NotProvidedUca]);
    row := row + "|";
    row := row + UcaCell(actionUca.ucas[ProvidedUca]);
    row := row + "|";
    row := row + UcaCell(actionUca.ucas[WrongTime]);
    row := row + "|";
    row := row + UcaCell(actionUca.ucas[Continuous]);
    row := row + "|\n";
    markdown := prefix + row;
  }

  /** addSummary */
  method AddSummary(data: StpaResult) returns (markdown: string)
    ensures markdown == SummaryMarkdown(data)
  {
    markdown := SummaryTitle;
    markdown := AppendComponentLines(markdown, data.systemLevelConstraints);
    markdown := AppendComponentLines(markdown, data.controllerConstraints);
    markdown := AppendComponentLines(markdown, data.safetyCons);
  }

  /** The loop shared by stpaAspectToMarkdown, recordToMarkdown and
      addSummary: each component, then a Markdown line break. */
  method AppendComponentLines(prefix: string, components: seq<StpaComponent>) returns (markdown: string)
    ensures markdown == prefix + ComponentLines(components)
  {
    markdown := prefix;
    var i := 0;
    while i < |components|
      invariant 0 <= i <= |components|
      invariant markdown == prefix + ComponentLines(components[..i])
    {
      LinesSnoc(components, i);
      Assoc3(prefix, ComponentLines(components[..i]), ComponentToMarkdown(components[i]) + "  \n");
      markdown := markdown + ComponentToMarkdown(components[i]);
      markdown := markdown + "  \n";
      i := i + 1;
    }
    assert components[..i] == components;
  }

  lemma Assoc3(a: string, b: string, c: string)
    ensures a + b + c == a + (b + c)
  {
  }

  lemma Assoc4Of(a: string, b: string, c: string, d: string)
    ensures a + b + c + d == a + (b + c + d)
  {
  }

  lemma Assoc4(a: string, b: string, c: string, d: string, e: string)
    ensures a + b + c + d + e == a + (b + (c + d + e))
  {
  }

  lemma LinesSnoc(cs: seq<StpaComponent>, i: nat)
    requires i < |cs|
    ensures ComponentLines(cs[..i + 1]) == ComponentLines(cs[..i]) + (ComponentToMarkdown(cs[i]) + "  \n")
  {
    assert cs[..i + 1][..i] == cs[..i];
  }

  lemma RecordSnoc(data: ComponentRecord, k: nat)
    requires k < |data|
    ensures RecordBody(data[..k + 1]) == RecordBody(data[..k]) + RecordEntry(data[k].0, data[k].1)
  {
    assert data[..k + 1][..k] == data[..k];
  }

  lemma {:induction false} FailedRowsStayFailed(actions: seq<ActionUcas>, k: nat)
    requires k <= |actions| && UcaRows(actions[..k]).Failure?
    ensures UcaRows(actions) == UcaRows(actions[..k])
  {
    if k < |actions| {
      var front := actions[..|actions| - 1];
      assert actions[..k] == front[..k];
      FailedRowsStayFailed(front, k);
    } else {
      assert actions[..k] == actions;
    }
  }

  // =====================================================================
  // Properties of the report
  // =====================================================================

  /** The component's text fields do not contain `ch`. */
  predicate Avoids(c: StpaComponent, ch: char) {
    ch !in c.id && ch !in c.description && (c.references.Some? ==> ch !in c.references.value)
  }

  predicate AllAvoid(cs: seq<StpaComponent>, ch: char) {
    forall i | 0 <= i < |cs| :: Avoids(cs[i], ch)
  }

  /** A character that is not part of the decoration around a component
      appears in its Markdown only if it appears in its fields. */
  lemma ComponentAvoids(c: StpaComponent, ch: char)
    requires Avoids(c, ch) && ch !in "**: []"
    ensures CountChar(ComponentToMarkdown(c), ch) == 0
  {
    CountCharAbsent(ComponentToMarkdown(c), ch);
  }

  lemma {:induction false} ComponentLinesAppend(a: seq<StpaComponent>, b: seq<StpaComponent>)
    ensures ComponentLines(a + b) == ComponentLines(a) + ComponentLines(b)
  {
    if |b| == 0 {
      assert a + b == a;
    } else {
      var front := b[..|b| - 1];
      var line := ComponentToMarkdown(b[|b| - 1]) + "  \n";
      assert (a + b)[..|a + b| - 1] == a + front;
      assert ComponentLines(a + b) == ComponentLines(a + front) + line by {
        Assoc3(ComponentLines(a + front), ComponentToMarkdown(b[|b| - 1]), "  \n");
      }
      assert ComponentLines(b) == ComponentLines(front) + line by {
        Assoc3(ComponentLines(front), ComponentToMarkdown(b[|b| - 1]), "  \n");
      }
      ComponentLinesAppend(a, front);
      Assoc3(ComponentLines(a), ComponentLines(front), line);
    }
  }

  /** One line per component: the lines hold exactly one newline each. */
  lemma {:induction false} ComponentLinesNewlines(cs: seq<StpaComponent>)
    requires AllAvoid(cs, '\n')
    ensures CountChar(ComponentLines(cs), '\n') == |cs|
  {
    if |cs| > 0 {
      var front := cs[..|cs| - 1];
      assert AllAvoid(front, '\n');
      ComponentLinesNewlines(front);
      ComponentAvoids(cs[|cs| - 1], '\n');
      CountCharConcat(ComponentLines(front) + ComponentToMarkdown(cs[|cs| - 1]), "  \n", '\n');
      CountCharConcat(ComponentLines(front), ComponentToMarkdown(cs[|cs| - 1]), '\n');
    }
  }

  /** An aspect section is its two-line header, one line per component and
      a blank line; an empty aspect is the header and the blank line. */
  lemma AspectNewlines(aspect: string, cs: seq<StpaComponent>)
    requires '\n' !in aspect && AllAvoid(cs, '\n')
    ensures CountChar(AspectMarkdown(aspect, cs), '\n') == |cs| + 3
    ensures cs == [] ==> AspectMarkdown(aspect, cs) == "## " + aspect + "\n\n\n"
  {
    ComponentLinesNewlines(cs);
    CountCharAbsent("## " + aspect, '\n');
    CountCharConcat("## " + aspect, "\n\n", '\n');
    CountCharConcat("## " + aspect + "\n\n", ComponentLines(cs), '\n');
    CountCharConcat("## " + aspect + "\n\n" + ComponentLines(cs), "\n", '\n');
  }

  /** The summary lists the system-level, controller and safety constraints
      in that order, one line each. */
  lemma SummaryListsConstraints(data: StpaResult)
    ensures SummaryMarkdown(data)
         == SummaryTitle + ComponentLines(data.systemLevelConstraints + data.controllerConstraints + data.safetyCons)
  {
    var sys, cc, sc := data.systemLevelConstraints, data.controllerConstraints, data.safetyCons;
    ComponentLinesAppend(sys, cc);
    ComponentLinesAppend(sys + cc, sc);
    Assoc3(SummaryTitle, ComponentLines(sys) + ComponentLines(cc), ComponentLines(sc));
    Assoc3(SummaryTitle, ComponentLines(sys), ComponentLines(cc));
  }

  /** The block of scenarios without a UCA is there exactly when there are
      such scenarios, after the grouped scenarios; its entries are separated
      by line breaks, with none after the last. */
  lemma ScenarioBlockIffScenarios(ucaScenarios: ComponentRecord, scenarios: seq<StpaComponent>)
    ensures RecordMarkdown(LossScenarioHeader, ucaScenarios) <= ScenariosMarkdown(ucaScenarios, scenarios)
    ensures |scenarios| != 0 <==>
      |ScenariosMarkdown(ucaScenarios, scenarios)| > |RecordMarkdown(LossScenarioHeader, ucaScenarios)|
    ensures AllAvoid(scenarios, '\n') && |scenarios| != 0 ==>
      CountChar(Join(Rendered(scenarios), "  \n"), '\n') == |scenarios| - 1
  {
    if AllAvoid(scenarios, '\n') && |scenarios| != 0 {
      RenderedAvoids(scenarios, '\n');
      CountCharJoin(Rendered(scenarios), "  \n", '\n');
    }
  }

  lemma RenderedAvoids(cs: seq<StpaComponent>, ch: char)
    requires AllAvoid(cs, ch) && ch !in "**: []"
    ensures forall i | 0 <= i < |Rendered(cs)| :: ch !in Rendered(cs)[i]
  {
    forall i | 0 <= i < |cs| ensures ch !in Rendered(cs)[i] {
      ComponentAvoids(cs[i], ch);
      CountCharZeroAbsent(Rendered(cs)[i], ch);
    }
  }

  lemma {:induction false} CountCharZeroAbsent(s: string, c: char)
    requires CountChar(s, c) == 0
    ensures c !in s
  {
    if |s| > 0 {
      CountCharZeroAbsent(s[1..], c);
      assert s == [s[0]] + s[1..];
    }
  }

  /** A cell of the UCA table shows no pipe and no line break of its own. */
  lemma CellAvoids(cs: seq<StpaComponent>, ch: char)
    requires ch == '|' || ch == '\n'
    requires AllAvoid(cs, ch)
    ensures CountChar(UcaCell(cs), ch) == 0
  {
    if |cs| > 0 {
      RenderedAvoids(cs, ch);
      CountCharAbsent("<br><br>", ch);
      CountCharJoin(Rendered(cs), "<br><br>", ch);
    }
  }

  /** Neither a pipe nor a line break in the action or its UCAs. */
  predicate CleanAction(a: ActionUcas) {
    && '|' !in a.controlAction && '\n' !in a.controlAction
    && forall t | t in a.ucas :: AllAvoid(a.ucas[t], '|') && AllAvoid(a.ucas[t], '\n')
  }

  /** A row of the UCA table has the six pipes of its five columns and ends
      its line. */
  lemma UcaRowShape(a: ActionUcas)
    requires HasAllUcaTypes(a) && CleanAction(a)
    ensures CountChar(UcaRow(a).value, '|') == 6
    ensures CountChar(UcaRow(a).value, '\n') == 1
  {
    RowCount(a, '|');
    RowCount(a, '\n');
  }

  lemma RowCount(a: ActionUcas, ch: char)
    requires HasAllUcaTypes(a) && CleanAction(a)
    requires ch == '|' || ch == '\n'
    ensures CountChar(UcaRow(a).value, ch) == if ch == '|' then 6 else 1
  {
    var c1, c2, c3, c4 := UcaCell(a.ucas[NotProvidedUca]), UcaCell(a.ucas[ProvidedUca]),
                          UcaCell(a.ucas[WrongTime]), UcaCell(a.ucas[Continuous]);
    CellAvoids(a.ucas[NotProvidedUca], ch);
    CellAvoids(a.ucas[ProvidedUca], ch);
    CellAvoids(a.ucas[WrongTime], ch);
    CellAvoids(a.ucas[Continuous], ch);
    CountCharAbsent(a.controlAction, ch);
    var p0 := "| " + a.controlAction + " |";
    CountCharConcat("| ", a.controlAction, ch);
    CountCharConcat("| " + a.controlAction, " |", ch);
    CountCharConcat(p0, c1, ch);
    CountCharConcat(p0 + c1, "|", ch);
    CountCharConcat(p0 + c1 + "|", c2, ch);
    CountCharConcat(p0 + c1 + "|" + c2, "|", ch);
    CountCharConcat(p0 + c1 + "|" + c2 + "|", c3, ch);
    CountCharConcat(p0 + c1 + "|" + c2 + "|" + c3, "|", ch);
    CountCharConcat(p0 + c1 + "|" + c2 + "|" + c3 + "|", c4, ch);
    CountCharConcat(p0 + c1 + "|" + c2 + "|" + c3 + "|" + c4, "|\n", ch);
  }

  /** The table fails exactly when some action lacks one of the four UCA
      types. */
  lemma {:induction false} UcaRowsFailIffMissing(actions: seq<ActionUcas>)
    ensures UcaRows(actions).Failure? <==> exists i | 0 <= i < |actions| :: !HasAllUcaTypes(actions[i])
  {
    if |actions| > 0 {
      var front, last := actions[..|actions| - 1], actions[|actions| - 1];
      UcaRowsFailIffMissing(front);
      UcaRowFailsIffMissing(last);
      UcaRowsFailsIffPart(actions);
      MissingSnoc(actions);
      assert SomeUcaTypeMissing(front) <==> exists i | 0 <= i < |front| :: !HasAllUcaTypes(front[i]);
    }
  }

  lemma UcaRowsFailsIffPart(actions: seq<ActionUcas>)
    requires |actions| > 0
    ensures UcaRows(actions).Failure?
            <==> UcaRows(actions[..|actions| - 1]).Failure? || UcaRow(actions[|actions| - 1]).Failure?
  {
  }

  lemma UcaRowFailsIffMissing(a: ActionUcas)
    ensures UcaRow(a).Failure? <==> !HasAllUcaTypes(a)
  {
  }

  predicate SomeUcaTypeMissing(actions: seq<ActionUcas>) {
    exists i | 0 <= i < |actions| :: !HasAllUcaTypes(actions[i])
  }

  lemma MissingSnoc(actions: seq<ActionUcas>)
    requires |actions| > 0
    ensures SomeUcaTypeMissing(actions)
            <==> SomeUcaTypeMissing(actions[..|actions| - 1]) || !HasAllUcaTypes(actions[|actions| - 1])
  {
    var front := actions[..|actions| - 1];
    assert forall i | 0 <= i < |front| :: actions[i] == front[i];
  }

  /** With clean rows, the table has one line per control action. */
  lemma {:induction false} UcaRowsNewlines(actions: seq<ActionUcas>)
    requires forall i | 0 <= i < |actions| :: HasAllUcaTypes(actions[i]) && CleanAction(actions[i])
    ensures UcaRows(actions).Success? && CountChar(UcaRows(actions).value, '\n') == |actions|
  {
    if |actions| > 0 {
      var front := actions[..|actions| - 1];
      UcaRowsNewlines(front);
      UcaRowShape(actions[|actions| - 1]);
      CountCharConcat(UcaRows(front).value, UcaRow(actions[|actions| - 1]).value, '\n');
    }
  }

  /** The report exists exactly when every control action has all four UCA
      types; otherwise reading the missing type throws. */
  lemma ReportFailsIffUcaTypeMissing(data: StpaResult)
    ensures ReportMarkdown(data).Failure? <==> exists i | 0 <= i < |data.ucas| :: !HasAllUcaTypes(data.ucas[i])
    ensures ReportMarkdown(data).Failure? ==> ReportMarkdown(data).error == TypeError("map")
  {
    UcaRowsFailIffMissing(data.ucas);
    UcaRowsError(data.ucas);
  }

  lemma {:induction false} UcaRowsError(actions: seq<ActionUcas>)
    ensures UcaRows(actions).Failure? ==> UcaRows(actions).error == TypeError("map")
  {
    if |actions| > 0 {
      UcaRowsError(actions[..|actions| - 1]);
    }
  }
}
