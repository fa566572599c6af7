# STPA extension core, modelled in Dafny

This project models the core of the STPA (System-Theoretic Process Analysis)
editor extension and proves properties of the model. The core has five parts:

- **ID enforcer of the language server** (`id_enforcer.dfy`, module `IdEnforcer`).
  After an edit it keeps every element of an aspect named `prefix + position`:
  losses `L`, hazards `H`, system-level constraints `SC`, responsibilities `R`,
  UCAs and rule contexts `UCA`, controller constraints `C`, scenarios `Scenario`.
  - It finds the aspect the edit offset falls in (`findModifiedAspect`).
  - It finds the pivot element just after the change.
  - It renames the elements from the pivot on, through the rename service or by hand (`enforceIDsBelowModifiedElement`).
  - It fixes up the element just before the pivot.
  - The pure parts are functions over the parsed model. The pivot search, the renaming loops and the in-place writes of a syntax node's range end are methods of the class `IdEnforcer`. Each method is proved against a pure outcome (`Outcome`: the edits, the nodes written in order, and whether a `TypeError` was thrown).
- **Context-table logic** (`context_table.dfy`, module `ContextTableLogic`).
  - `determineColumnsForRules` writes each rule's `column` in place.
  - `createResults` builds the result cells of a row: neighbouring columns without a rule share one "No" cell.
  - `checkValues` compares context variables.
- **Markdown report export** (`md_export.dfy`, module `MdExport`).
  - Every report-building function of the exporter is a method that accumulates the string as the source does.
  - Each method is proved equal to a functional description of the layout.
  - Lemmas state the layout: the sections and their order, line counts, the UCA table's columns, the conditional scenario block, and the error when a UCA type is missing.
- **Diagram synthesis options** (`synthesis_options.dfy`, module `SynthesisOptions`).
  - The class `StpaSynthesisOptions` holds the 18 option objects, whose fields its setters update in place.
  - The option objects are module-level and built once (`ModuleOptions`). Every instance is constructed over the same objects, so a setting written through one instance is read through all of them.
  - The value-level `OptionState` sequence and its consistency invariant state what every setter and getter does.
- **Label lookup of the message handler** (`handler.dfy`, module `Handler`).
  - `getRangeOfNode` finds the range of the element that a diagram label names.
  - The scan does not stop at a match, so the last match decides.

Shared modules:

- `stpa_model.dfy` (`StpaModel`): the parsed model. Elements are values. The syntax node is a class whose range end is the one field the core writes.
- `text.dfy` (`Text`): decimal rendering of numbers, `join`, ASCII lower-casing and character counting.
- `wrappers.dfy` (`Wrappers`): `Option`, `Result` and the `TypeError` value.

Collaborators are parameters:

- The document store and the rename provider are function-valued fields of `StpaServices`.
- The target URI of the report is a plain argument.

A thrown `TypeError` is a `Failure` result. An `await` that rejects also stops the caller, and the model does the same: `Then` runs nothing after a throw.

The source throws in one case that the model keeps as an error outcome rather than a precondition. In increase mode, a pivot of 0 leaves `modifiedElement` undefined. Reading its `$cstNode` (ID-enforcer.ts line 145) then throws, after the last element was renamed by hand. `PlannerOutcome` and `RenameDownward` state this outcome.

## Model

| member | source | states |
|---|---|---|
| IdEnforcer.FindModifiedAspect | extension/src-language-server/stpa/ID-enforcer.ts:191-245 | undefined exactly when some aspect boundary is falsy (0); otherwise one of the seven branches' element list and prefix, or empty elements with prefix ""; the elements are always drawn from the model's aspect lists |
| IdEnforcer.ChainAt | extension/src-language-server/stpa/ID-enforcer.ts:196-211 | each boundary is its aspect's first offset minus 5 when that offset is present and truthy, else the next aspect's boundary; after safety constraints comes MAX_VALUE |
| IdEnforcer.BoundListIsChain | extension/src-language-server/stpa/ID-enforcer.ts:196-211 | the seven boundaries, hazards to safety constraints, are that chain over the aspects' anchors in order (responsibilities from the first group, UCAs from the first rule, else the first UCA group) |
| IdEnforcer.ChainAboveLowerBound | extension/src-language-server/stpa/ID-enforcer.ts:196-211 | every boundary is at least the smallest anchor offset minus 5 |
| IdEnforcer.ChainMonotone | extension/src-language-server/stpa/ID-enforcer.ts:196-211 | when the anchor offsets are in order, the chained boundaries are non-decreasing |
| IdEnforcer.BoundariesMonotone | extension/src-language-server/stpa/ID-enforcer.ts:196-211 | the same for the boundaries of a model whose aspects start in document order |
| IdEnforcer.SelectsBranch | extension/src-language-server/stpa/ID-enforcer.ts:217-244 | an offset strictly above the first c boundaries and strictly below the next selects branch c; above all seven it falls through to empty elements and prefix "" |
| IdEnforcer.SelectsNoBranch | extension/src-language-server/stpa/ID-enforcer.ts:217-244 | when no branch's strict inequalities hold, the lookup returns empty elements and prefix "" |
| IdEnforcer.FindModifiedAspectPartition | extension/src-language-server/stpa/ID-enforcer.ts:214-244 | with non-decreasing boundaries and the offset on none of them, the selected branch is the number of boundaries below the offset, so exactly one branch applies |
| IdEnforcer.FindModifiedAspectOnBoundary | extension/src-language-server/stpa/ID-enforcer.ts:217-244 | an offset exactly on a boundary matches no branch and yields empty elements and prefix "" |
| IdEnforcer.FindModifiedAspectPastLast | extension/src-language-server/stpa/ID-enforcer.ts:239-244 | there is no safety-constraint branch: an offset above the safety-constraints boundary yields empty elements and prefix "" |
| IdEnforcer.UnanchoredAspectNeverSelected | extension/src-language-server/stpa/ID-enforcer.ts:217-242 | an aspect other than losses whose first element gives no truthy offset (for instance an empty one) is never selected, since its two boundaries coincide |
| IdEnforcer.FindIndex | extension/src-language-server/stpa/ID-enforcer.ts:75 | the first element with a syntax node starting after the change offset, or -1 exactly when there is none |
| IdEnforcer.RenameIDNothingWhenMissing | extension/src-language-server/stpa/ID-enforcer.ts:166-183 | renameID contributes no edits when the element, its syntax node, the service's answer or its changes are missing |
| IdEnforcer.DropEditsAt | extension/src-language-server/stpa/ID-enforcer.ts:148 | the filter keeps no edit that starts at the given position and never adds edits |
| IdEnforcer.DropEditsAtKeepsOthers | extension/src-language-server/stpa/ID-enforcer.ts:148 | an edit is kept exactly when it is one of the edits and does not start at the position; with no edit there, the list is unchanged |
| IdEnforcer.DropEditsAtAppend | extension/src-language-server/stpa/ID-enforcer.ts:148 | the filter keeps the order: filtering a concatenation concatenates the filtered parts |
| IdEnforcer.AscendingStepsOrder | extension/src-language-server/stpa/ID-enforcer.ts:118-123 | decrease mode renames the elements from the pivot to the last, lowest first, element i to `prefix + (i+1)`, all through the rename service |
| IdEnforcer.DescendingFromOrder | extension/src-language-server/stpa/ID-enforcer.ts:124-153 | increase mode visits the last element down to the pivot, element i renamed to `prefix + (i+1)`; the rename is by hand exactly when the element has the modified element's name |
| IdEnforcer.PlannerClampsNegativeIndex | extension/src-language-server/stpa/ID-enforcer.ts:110-112 | a negative index plans exactly as index 0 |
| IdEnforcer.PlannerFastExit | extension/src-language-server/stpa/ID-enforcer.ts:116 | no edits and no writes when the last element is already named `prefix + length` |
| IdEnforcer.ManualRenameEdits | extension/src-language-server/stpa/ID-enforcer.ts:132-151 | a hand rename first replaces the range from the name start to start + name length by the new name; no other edit starts at the modified element's name start; the target's node is written, then the modified element's |
| IdEnforcer.RunStepsWritesFrom | extension/src-language-server/stpa/ID-enforcer.ts:135-149 | running rename steps over an aspect never throws and writes only syntax nodes of that aspect's elements |
| IdEnforcer.PlannerWritesFrom | extension/src-language-server/stpa/ID-enforcer.ts:108-157 | enforceIDsBelowModifiedElement writes only syntax nodes of the aspect's elements, also when it throws |
| IdEnforcer.ChangeEndsWithFixUp | extension/src-language-server/stpa/ID-enforcer.ts:69-93 | only the planner throws; otherwise the change ends with the edit renaming the element before the pivot (the first element after the change, else the end) to `prefix + pivot` and the write of its node exactly when it has a node and is misnamed; else it is the planner's outcome alone, and nothing when no element follows the change |
| IdEnforcer.ChangeAfterLastElement | extension/src-language-server/stpa/ID-enforcer.ts:75-92 | when no element starts after the change, the pivot is the list length, nothing is planned and only the fix-up of the last element remains |
| IdEnforcer.EnforceOutcome | extension/src-language-server/stpa/ID-enforcer.ts:59-62 | with any lexer or parser error, no edits and no writes, whatever the changes |
| IdEnforcer.EnforceFromPrefix | extension/src-language-server/stpa/ID-enforcer.ts:64-95 | edits of earlier changes come before those of later ones: the edits of the first k changes are a prefix of all edits |
| IdEnforcer.EnforceFromThrown | extension/src-language-server/stpa/ID-enforcer.ts:64-95 | once a change throws, later changes contribute nothing |
| IdEnforcer.DeletionExample | extension/src-language-server/stpa/ID-enforcer.ts:118-123 | deleting H2 from H1, H2, H3, H4 renames H3 to H2 and then H4 to H3, through the service |
| IdEnforcer.InsertionCollisionExample | extension/src-language-server/stpa/ID-enforcer.ts:124-153 | inserting a new H2 before the old H2 renames H3 to H4 through the service, then the old H2 to H3 by hand; no fix-up is needed |
| IdEnforcer.IdEnforcer.constructor | extension/src-language-server/stpa/ID-enforcer.ts:41-43 | keeps the services; no current document yet |
| IdEnforcer.IdEnforcer.EnforceIDs | extension/src-language-server/stpa/ID-enforcer.ts:51-96 | records the URI and its document; returns the edits of all changes in order, or the TypeError of the first change that throws; every syntax node's range end is as the writes made by then leave it |
| IdEnforcer.IdEnforcer.EnforceChange | extension/src-language-server/stpa/ID-enforcer.ts:66-93 | one pass of the change loop: aspect lookup, pivot search, planner when some element follows the change, fix-up; result and node writes as `ChangeOutcome` |
| IdEnforcer.IdEnforcer.FixUpBeforePivot | extension/src-language-server/stpa/ID-enforcer.ts:85-92 | sets the range end of the misnamed element before the pivot to start + name length and returns the fix-up edit; no other node changes |
| IdEnforcer.IdEnforcer.EnforceIDsBelowModifiedElement | extension/src-language-server/stpa/ID-enforcer.ts:108-157 | clamps the index, exits early when the last name is right, else renames upward (decrease) or downward (increase); result and node writes as `PlannerOutcome` |
| IdEnforcer.IdEnforcer.RenameUpward | extension/src-language-server/stpa/ID-enforcer.ts:118-123 | the concatenated rename-service edits of the ascending steps |
| IdEnforcer.IdEnforcer.RenameDownward | extension/src-language-server/stpa/ID-enforcer.ts:124-154 | with pivot 0, sets the last element's range end and throws; otherwise the descending steps with the element before the pivot as the modified one |
| IdEnforcer.IdEnforcer.RenameDescending | extension/src-language-server/stpa/ID-enforcer.ts:126-153 | the descending loop: edits and node writes of the descending steps, which never throw |
| IdEnforcer.IdEnforcer.RenameStep | extension/src-language-server/stpa/ID-enforcer.ts:127-152 | one iteration: a service rename for an element named unlike the modified one, a hand rename otherwise |
| IdEnforcer.IdEnforcer.RenameByHand | extension/src-language-server/stpa/ID-enforcer.ts:132-151 | the hand edit of the target, then the service's edits for the modified element minus those at its name start; both nodes' range ends set to start + name length |
| ContextTableLogic.FindValue | extension/src-context-table/context-table-logic.ts:104 | the value of the first same-named variable; none exactly when no variable has the name |
| ContextTableLogic.ValuesMatch | extension/src-context-table/context-table-logic.ts:100-111 | true exactly when every variable of the first list has, as its first same-named counterpart in the second, one with an equal value (true for an empty first list) |
| ContextTableLogic.CheckValues | extension/src-context-table/context-table-logic.ts:100-111 | the early-return loop computes `ValuesMatch` |
| ContextTableLogic.ColumnFor | extension/src-context-table/context-table-logic.ts:34-55 | undefined exactly when controller, action or context values do not match; otherwise a column in {-1, 1, 2, 3, 4} |
| ContextTableLogic.TypeColumn | extension/src-context-table/context-table-logic.ts:38-51 | the column of a lower-cased rule type is one of -1, 1, 2, 3, 4 |
| ContextTableLogic.NotProvidedColumn | extension/src-context-table/context-table-logic.ts:39-48 | "not-provided" gives column 1 when the selected type is NOT_PROVIDED, 4 otherwise |
| ContextTableLogic.UnsupportedTypeColumn | extension/src-context-table/context-table-logic.ts:41-51 | a type other than the seven supported ones gives -1 |
| ContextTableLogic.ColumnIgnoresCase | extension/src-context-table/context-table-logic.ts:37 | rule types equal up to case get the same column |
| ContextTableLogic.DetermineColumnsForRules | extension/src-context-table/context-table-logic.ts:28-57 | every rule's column becomes `ColumnFor` of that rule; only the rules' columns change |
| ContextTableLogic.FirstWithColumn | extension/src-context-table/context-table-logic.ts:72 | the first rule whose column is the given one, none exactly when no rule has it |
| ContextTableLogic.CreateResults | extension/src-context-table/context-table-logic.ts:65-92 | the cells are well formed and, read column by column, show for each column 1..count the first rule with that column, or an empty slot covered by a "No" cell |
| ContextTableLogic.StepWithoutRule | extension/src-context-table/context-table-logic.ts:73-79 | a column without a rule extends the pending run of empty columns, which becomes one "No" cell at the last column |
| ContextTableLogic.StepWithRule | extension/src-context-table/context-table-logic.ts:80-89 | a column with a rule closes the pending run into one "No" cell, if nonempty, and adds the rule cell |
| ContextTableLogic.RowAfterCovers | extension/src-context-table/context-table-logic.ts:70-90 | after column c the cells and the pending run cover exactly the expected slots of columns 1..c |
| ContextTableLogic.WellFormedCells | extension/src-context-table/context-table-logic.ts:74-88 | every cell has class "result"; a "No" cell spans at least one column; a rule cell spans one; no two "No" cells are adjacent |
| ContextTableLogic.SpanSumIsWidth | extension/src-context-table/context-table-logic.ts:78-88 | the spans of well-formed cells add up to the number of columns they cover |
| ContextTableLogic.ResultWidth | extension/src-context-table/context-table-logic.ts:70-90 | the spans of the result add up to the column count; no columns give no cells |
| ContextTableLogic.ColumnShowsFirstRule | extension/src-context-table/context-table-logic.ts:72-88 | column c of the result shows the id and hazards of the first rule with column c, or is empty when there is none |
| MdExport.ComponentShape | extension/src/md-export.ts:92-98 | a component is `**id**: description`, followed by ` [references]` exactly when the references are defined and non-empty |
| MdExport.CreateMarkdownText | extension/src/md-export.ts:55-80 | the report: title, losses, hazards, system-level constraints, control structure, responsibilities, UCA table, controller constraints, loss scenarios, safety requirements, summary, in this order; the UCA table's error otherwise |
| MdExport.StpaAspectToMarkdown | extension/src/md-export.ts:82-90 | `## aspect`, a blank line, each component followed by a Markdown line break, a final newline |
| MdExport.AspectNewlines | extension/src/md-export.ts:82-90 | an aspect section has one line per component plus three; an empty list gives only the header and the blank lines |
| MdExport.AppendComponentLines | extension/src/md-export.ts:84-87 | the loop appends each component followed by a line break, in order |
| MdExport.ComponentLinesNewlines | extension/src/md-export.ts:84-87 | components free of newlines give exactly one line each |
| MdExport.RecordToMarkdown | extension/src/md-export.ts:100-111 | `## aspect`, a blank line, then per key `_key_` with a line break, that key's component lines and a blank line |
| MdExport.RecordSnoc | extension/src/md-export.ts:102-109 | each key adds its own entry after those of the keys before it |
| MdExport.ScenariosToMarkdown | extension/src/md-export.ts:113-121 | the loss-scenario record, then the unassigned-scenario block when there are scenarios |
| MdExport.ScenarioBlockIffScenarios | extension/src/md-export.ts:113-121 | the output extends the record section exactly when there are scenarios; the scenarios are joined by line breaks with none after the last |
| MdExport.UcasToMarkdown | extension/src/md-export.ts:123-141 | the UCA header, the five-column head and rule rows, one row per control action, a final newline; a TypeError when an action lacks a UCA type |
| MdExport.AppendUcaRow | extension/src/md-export.ts:129-137 | appends the control action, then the not-provided, provided, wrong-time and continuous cells, each cell's UCAs joined by `<br><br>` |
| MdExport.UcaRowShape | extension/src/md-export.ts:129-137 | a row of clean entries has six column separators and ends its line |
| MdExport.UcaRowsNewlines | extension/src/md-export.ts:128-138 | actions with all four UCA types give one table line each |
| MdExport.UcaRowsFailIffMissing | extension/src/md-export.ts:128-138 | the rows fail exactly when some action lacks one of the four UCA types |
| MdExport.UcaRowsError | extension/src/md-export.ts:130-136 | that failure is the TypeError of calling `map` on undefined |
| MdExport.FailedRowsStayFailed | extension/src/md-export.ts:128-138 | the first failing action decides the error; later actions do not matter |
| MdExport.ReportFailsIffUcaTypeMissing | extension/src/md-export.ts:55-80 | the whole report fails exactly when some action lacks a UCA type, with the `map` TypeError |
| MdExport.AddSummary | extension/src/md-export.ts:143-158 | the summary title, then the system-level, controller and safety constraints, each followed by a line break |
| MdExport.SummaryListsConstraints | extension/src/md-export.ts:143-158 | the summary is the title followed by the lines of the three constraint lists concatenated in that order |
| Handler.GetRangeOfNode | extension/src-language-server/handler.ts:76-90 | the range of the last element named the label, in the order losses, hazards, sub-hazards, system-level constraints, sub-constraints, responsibilities, UCAs, rule contexts, controller constraints, scenarios, safety constraints, then control-structure nodes when present |
| Handler.NoMatchNoRange | extension/src-language-server/handler.ts:77-89 | no element named the label gives undefined |
| Handler.LastMatchWins | extension/src-language-server/handler.ts:83-88 | the match with no later match decides, since `return` inside `forEach` does not stop the scan |
| Handler.FoundRangeIsAMatch | extension/src-language-server/handler.ts:83-89 | a range found is the range of some element named the label |
| Handler.LaterMatchWithoutNodeHides | extension/src-language-server/handler.ts:85 | a last match without a syntax node gives undefined, hiding earlier matches |
| StpaModel.Children | extension/src-language-server/handler.ts:78-79 | the flattened children contain every child of every group |
| Text.NatToString | extension/src-language-server/stpa/ID-enforcer.ts:173 | the decimal rendering of `prefix + counter` is a non-empty string of digits without a leading zero |
| Text.StringToNatOfNatToString | extension/src-language-server/stpa/ID-enforcer.ts:173 | reading the rendering back gives the number |
| Text.PrefixedNamesInjective | extension/src-language-server/stpa/ID-enforcer.ts:121-139 | different positions give different names under one prefix |
| Text.ToLower | extension/src-context-table/context-table-logic.ts:37 | same length, each letter lower-cased |
| Text.ToLowerIdempotent | extension/src-context-table/context-table-logic.ts:37 | lower-casing twice is lower-casing once |
| SynthesisOptions.DeclarationIdsDistinct | extension/src-language-server/stpa/diagram/synthesis-options.ts:404-423 | the table holds 18 options with pairwise different ids |
| SynthesisOptions.InitialStateConsistent | extension/src-language-server/stpa/diagram/synthesis-options.ts:52-372 | the initial values satisfy the table invariant: both current values agree, check boxes hold booleans, the width a number, the filter a string equal to its current id |
| SynthesisOptions.FirstIndex | extension/src-language-server/stpa/diagram/synthesis-options.ts:631-634 | the first position holding the id, -1 exactly when it is absent |
| SynthesisOptions.SetValue | extension/src-language-server/stpa/diagram/synthesis-options.ts:623-629 | both current values of the option become the value; no other option and no other field changes; a missing option changes nothing |
| SynthesisOptions.SetValueKeepsConsistent | extension/src-language-server/stpa/diagram/synthesis-options.ts:623-629 | writing an option other than the filter keeps the table invariant exactly when the value is settable there: a boolean for a check box, a number for the slider, anything for the other options |
| SynthesisOptions.SelectFilter | extension/src-language-server/stpa/diagram/synthesis-options.ts:535-542 | the filter's current value and current id become the value; everything else is unchanged |
| SynthesisOptions.SelectFilterKeepsConsistent | extension/src-language-server/stpa/diagram/synthesis-options.ts:535-542 | selecting a filter keeps the table invariant |
| SynthesisOptions.ContainsId | extension/src-language-server/stpa/diagram/synthesis-options.ts:614 | true exactly when some offered value has the id |
| SynthesisOptions.UpdateFilterSelectsAvailable | extension/src-language-server/stpa/diagram/synthesis-options.ts:608-621 | the offered values are replaced; it throws exactly when the list is empty; otherwise the current id is offered; a selection still offered is kept; no other option changes |
| SynthesisOptions.UpdateFilterKeepsConsistent | extension/src-language-server/stpa/diagram/synthesis-options.ts:608-621 | refreshing the drop-down keeps the table invariant |
| SynthesisOptions.DecodeShowLabels | extension/src-language-server/stpa/diagram/synthesis-options.ts:434-459 | a known drop-down id decodes to its value; anything else is returned as it is |
| SynthesisOptions.ShowLabelsChoicesDecode | extension/src-language-server/stpa/diagram/synthesis-options.ts:353-366 | every offered id, the initial "losses" among them, decodes, and each value is decoded from its own id |
| SynthesisOptions.DecodeLabelManagement | extension/src-language-server/stpa/diagram/synthesis-options.ts:461-474 | the four names decode to their values; anything else is returned as it is |
| SynthesisOptions.LabelManagementChoicesDecode | extension/src-language-server/stpa/diagram/synthesis-options.ts:332-343 | the option's choices are the four names in order, each decoding to its value |
| SynthesisOptions.GroupingLabelAsWritten | extension/src-language-server/stpa/diagram/synthesis-options.ts:507-517 | the labels written as the source has them: the two grouping labels are choices of the option |
| SynthesisOptions.GroupingAsWrittenLosesNoGrouping | extension/src-language-server/stpa/diagram/synthesis-options.ts:509 | the "no grouping" written is not among the choices (line 205) and reads back as a raw value |
| SynthesisOptions.GroupingLabel | extension/src-language-server/stpa/diagram/synthesis-options.ts:205 | the intended labels are all choices of the option |
| SynthesisOptions.DecodeGrouping | extension/src-language-server/stpa/diagram/synthesis-options.ts:524-532 | a choice decodes to its grouping; anything else is returned as it is |
| SynthesisOptions.GroupingRoundTrip | extension/src-language-server/stpa/diagram/synthesis-options.ts:504-533 | with the intended labels, decoding the label of a grouping gives that grouping |
| SynthesisOptions.StpaSynthesisOptions.constructor | extension/src-language-server/stpa/diagram/synthesis-options.ts:403-424 | the instance holds the given module-level objects themselves, in the table's order; objects in a consistent state make it valid |
| SynthesisOptions.NewOptions | extension/src-language-server/stpa/diagram/synthesis-options.ts:52-370 | one fresh option object per declaration, in order, each in its given state |
| SynthesisOptions.ModuleOptions | extension/src-language-server/stpa/diagram/synthesis-options.ts:52-370 | the module's objects: fresh, wired to the table, in their initial state, which satisfies the invariant |
| SynthesisOptions.SetThroughOneReadThroughOther | extension/src-language-server/stpa/diagram/synthesis-options.ts:403-424 | two instances over the same objects: after a check box is set through one, the other is valid, has the same state and reads the value back |
| SynthesisOptions.StpaSynthesisOptions.GetSynthesisOptions | extension/src-language-server/stpa/diagram/synthesis-options.ts:426-428 | the options, in the table's order |
| SynthesisOptions.StpaSynthesisOptions.GetOption | extension/src-language-server/stpa/diagram/synthesis-options.ts:631-634 | the first option with the id; none exactly when no option has it |
| SynthesisOptions.StpaSynthesisOptions.LookupFindsTableEntry | extension/src-language-server/stpa/diagram/synthesis-options.ts:631-634 | looking up a table id finds that table entry |
| SynthesisOptions.StpaSynthesisOptions.GetModelOrder | extension/src-language-server/stpa/diagram/synthesis-options.ts:430-432 | the boolean stored in the model-order option |
| SynthesisOptions.StpaSynthesisOptions.GetShowLabels | extension/src-language-server/stpa/diagram/synthesis-options.ts:434-459 | the value the stored id selects, or the stored value |
| SynthesisOptions.StpaSynthesisOptions.GetLabelManagement | extension/src-language-server/stpa/diagram/synthesis-options.ts:461-474 | the value the stored name selects, or the stored value |
| SynthesisOptions.StpaSynthesisOptions.GetLabelShorteningWidth | extension/src-language-server/stpa/diagram/synthesis-options.ts:476-478 | the number stored in the width option |
| SynthesisOptions.StpaSynthesisOptions.GetShowRelationshipGraph | extension/src-language-server/stpa/diagram/synthesis-options.ts:484-486 | the boolean stored in that option |
| SynthesisOptions.StpaSynthesisOptions.GetShowControlStructure | extension/src-language-server/stpa/diagram/synthesis-options.ts:492-494 | the boolean stored in that option |
| SynthesisOptions.StpaSynthesisOptions.GetHierarchy | extension/src-language-server/stpa/diagram/synthesis-options.ts:500-502 | the boolean stored in that option |
| SynthesisOptions.StpaSynthesisOptions.GetGroupingUCAsAsWritten | extension/src-language-server/stpa/diagram/synthesis-options.ts:522-533 | as written: undefined, whatever is stored |
| SynthesisOptions.StpaSynthesisOptions.GetGroupingUCAs | extension/src-language-server/stpa/diagram/synthesis-options.ts:522-533 | as intended: the grouping the stored label names, or the stored value |
| SynthesisOptions.StpaSynthesisOptions.GetFilteringUCAs | extension/src-language-server/stpa/diagram/synthesis-options.ts:544-546 | the string stored in the filter, which is also its current id |
| SynthesisOptions.StpaSynthesisOptions.GetHideSysCons | extension/src-language-server/stpa/diagram/synthesis-options.ts:552-554 | the boolean stored in that option |
| SynthesisOptions.StpaSynthesisOptions.GetHideRespsCons | extension/src-language-server/stpa/diagram/synthesis-options.ts:560-562 | the boolean stored in that option |
| SynthesisOptions.StpaSynthesisOptions.GetHideUCAs | extension/src-language-server/stpa/diagram/synthesis-options.ts:568-570 | the boolean stored in that option |
| SynthesisOptions.StpaSynthesisOptions.GetHideContCons | extension/src-language-server/stpa/diagram/synthesis-options.ts:576-578 | the boolean stored in that option |
| SynthesisOptions.StpaSynthesisOptions.GetHideScenarios | extension/src-language-server/stpa/diagram/synthesis-options.ts:584-586 | the boolean stored in that option |
| SynthesisOptions.StpaSynthesisOptions.GetHideScenariosWithHazard | extension/src-language-server/stpa/diagram/synthesis-options.ts:592-594 | the boolean stored in that option |
| SynthesisOptions.StpaSynthesisOptions.GetHideSafetyConstraints | extension/src-language-server/stpa/diagram/synthesis-options.ts:600-602 | the boolean stored in that option |
| SynthesisOptions.StpaSynthesisOptions.SetOption | extension/src-language-server/stpa/diagram/synthesis-options.ts:623-629 | the state after is `SetValue` of the state before at the id's first position; an unknown id changes nothing; a settable value keeps the invariant |
| SynthesisOptions.StpaSynthesisOptions.SetCheck | extension/src-language-server/stpa/diagram/synthesis-options.ts:623-629 | a check box set through its id holds the value afterwards; the invariant holds |
| SynthesisOptions.StpaSynthesisOptions.SetShowRelationshipGraph | extension/src-language-server/stpa/diagram/synthesis-options.ts:480-482 | only that option changes, and its getter returns the value |
| SynthesisOptions.StpaSynthesisOptions.SetShowControlStructure | extension/src-language-server/stpa/diagram/synthesis-options.ts:488-490 | only that option changes, and its getter returns the value |
| SynthesisOptions.StpaSynthesisOptions.SetHierarchy | extension/src-language-server/stpa/diagram/synthesis-options.ts:496-498 | only that option changes, and its getter returns the value |
| SynthesisOptions.StpaSynthesisOptions.SetHideSysCons | extension/src-language-server/stpa/diagram/synthesis-options.ts:548-550 | only that option changes, and its getter returns the value |
| SynthesisOptions.StpaSynthesisOptions.SetHideResps | extension/src-language-server/stpa/diagram/synthesis-options.ts:556-558 | only that option changes, and its getter returns the value |
| SynthesisOptions.StpaSynthesisOptions.SetHideUCAs | extension/src-language-server/stpa/diagram/synthesis-options.ts:564-566 | only that option changes, and its getter returns the value |
| SynthesisOptions.StpaSynthesisOptions.SetHideContCons | extension/src-language-server/stpa/diagram/synthesis-options.ts:572-574 | only that option changes, and its getter returns the value |
| SynthesisOptions.StpaSynthesisOptions.SetHideScenarios | extension/src-language-server/stpa/diagram/synthesis-options.ts:580-582 | only that option changes, and its getter returns the value |
| SynthesisOptions.StpaSynthesisOptions.SetHideScenariosWithHazard | extension/src-language-server/stpa/diagram/synthesis-options.ts:588-590 | only that option changes, and its getter returns the value |
| SynthesisOptions.StpaSynthesisOptions.SetHideSafetyConstraints | extension/src-language-server/stpa/diagram/synthesis-options.ts:596-598 | only that option changes, and its getter returns the value |
| SynthesisOptions.StpaSynthesisOptions.SetGroupingUCAs | extension/src-language-server/stpa/diagram/synthesis-options.ts:504-520 | as written: both current values become the source's label and nothing else changes; the two groupings read back, and no grouping reads back as the raw "no grouping" |
| SynthesisOptions.StpaSynthesisOptions.SetGroupingUCAsIntended | extension/src-language-server/stpa/diagram/synthesis-options.ts:504-520 | as intended: both current values become the grouping's choice label, nothing else changes, and the grouping reads back |
| SynthesisOptions.StpaSynthesisOptions.StoreGroupingLabel | extension/src-language-server/stpa/diagram/synthesis-options.ts:505-519 | both current values of the grouping option become the label; nothing else changes and the invariant holds |
| SynthesisOptions.StpaSynthesisOptions.SetFilteringUCAs | extension/src-language-server/stpa/diagram/synthesis-options.ts:535-542 | the state becomes `SelectFilter` of the state before, and the getter returns the value |
| SynthesisOptions.StpaSynthesisOptions.SelectDropDownValue | extension/src-language-server/stpa/diagram/synthesis-options.ts:537-541 | the option's current value, the synthesis option's current value and its current id all become the value |
| SynthesisOptions.StpaSynthesisOptions.UpdateFilterUCAsOption | extension/src-language-server/stpa/diagram/synthesis-options.ts:608-621 | the state becomes `UpdateFilter` of the state before; the TypeError of reading `values[0].id` exactly when that update throws |
| SynthesisOptions.StpaSynthesisOptions.UpdateDropDown | extension/src-language-server/stpa/diagram/synthesis-options.ts:610-620 | the available values are replaced; an id no longer offered is replaced by the first offered one in current id, both current values and the initial value; an empty list throws after the replacement |

## Left out

- Document retrieval and the rename provider are not modelled. They are parameters: a document store and a rename function over documents, both pure.
- The awaits of the enforcer are sequential and are modelled as plain calls. A rejected call stops the caller, as a thrown `TypeError`.
- `createMarkdownFile` (the save dialog and `createFile`) is not modelled. It is I/O.
- The `executeCommand` call in `addControlStructure` is not modelled. It is a VS Code side effect; only the returned text is kept, and `CreateMarkdownText` takes the URI but does not use it.
- `addNotificationHandler`, `getModel` and the rest of the message handler are not modelled. They are LSP connection plumbing.
- Logging with `console.log` is not modelled. It has no effect on results.
- `UCA_TYPE`, the control-action `Type` and the option-model types come from files that are not part of this model. They are small datatypes, and only the distinctions the core makes are kept.
- A `Record`'s `for ... in` order is modelled as the order of a sequence of key and value pairs.
- `toLowerCase` is modelled on ASCII letters only. Other letters are unchanged.
- RenameTo: when the service's changes have no entry for the current URI, the model contributes nothing. JavaScript would append `undefined`, a malformed edit, to the list.
- The syntax node's range is modelled as the node's own fields, read afresh each time. The source's edits may share the range object that later writes change; the model keeps the value at the time the edit is built.
- RenameID: has no contract of its own. Its cases are stated by `RenameIDNothingWhenMissing` and, through the rename steps, by the planner's lemmas.
- The option categories are modelled by their ids, not as references to the category objects.
- The getters require the class invariant. The constructor keeps it when the given objects satisfy it. Every typed setter keeps it, and `SetOption` keeps it for the values `Settable` allows. The source would return whatever is stored.
- `checkValues` is modelled as evaluated for every rule. The source skips it when controller or action differ; this is equivalent, because it is pure.
- Helper methods that appear in no source file structure the proofs; each carries part of a source function's body at the lines its row cites:
  - `AppendUcaRow` builds the row in a local string, then appends it;
  - `AppendComponentLines`;
  - the enforcer's `EnforceChange`, `FixUpBeforePivot`, `RenameUpward`, `RenameDownward`, `RenameDescending`, `RenameStep`, `RenameByHand` and `SetNameEnd`;
  - the options' `SetCheck`, `StoreGroupingLabel`, `SelectDropDownValue` and `UpdateDropDown`.

## Findings

| source | as written | input that shows it | evidently intended | confidence | as-written member | corrected member |
|---|---|---|---|---|---|---|
| extension/src-language-server/stpa/diagram/synthesis-options.ts:522-533 | `getOption(...)?.currentValue` is a string, and the switch reads `.currentValue` of it again | any state, e.g. the initial "No grouping": the answer is undefined | switch on the option's current value and return the grouping it names | high (not executed) | SynthesisOptions.StpaSynthesisOptions.GetGroupingUCAsAsWritten | SynthesisOptions.StpaSynthesisOptions.GetGroupingUCAs |
| extension/src-language-server/stpa/diagram/synthesis-options.ts:509 | `setGroupingUCAs(NO_GROUPING)` stores "no grouping" | NO_GROUPING: the stored "no grouping" is not among the choices at line 205 and does not decode | store the choice "No grouping", so that the grouping reads back | high (not executed) | SynthesisOptions.StpaSynthesisOptions.SetGroupingUCAs | SynthesisOptions.StpaSynthesisOptions.SetGroupingUCAsIntended |
