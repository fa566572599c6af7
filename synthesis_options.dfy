/** The diagram synthesis options of the STPA language server: a fixed table
    of eighteen options (categories, check boxes, choices, drop-downs and a
    slider), each an object whose current value the setters write in place,
    and the typed getters the diagram generator reads them through. */
module SynthesisOptions {
  import opened Wrappers

  datatype OptionType = Category | Check | Choice | Dropdown | Range

  /** The `any`-typed value of an option. */
  datatype Value = BoolV(b: bool) | NumV(n: int) | StrV(s: string) | Undefined

  datatype DropDownValue = DropDownValue(displayName: string, id: string)

  datatype RangeBounds = RangeBounds(first: int, second: int)

  /** The part of an option that never changes. The category is named by
      the id of the category option. */
  datatype Declaration = Declaration(
    id: string, name: string, optionType: OptionType, values: seq<Value>,
    category: Option<string>, range: Option<RangeBounds>, stepSize: Option<int>)

  /** The part of an option that the setters write: the valued option's
      current value, and the synthesis option's current value, initial value,
      current id and available values (the last two only mean something for
      drop-downs). */
  datatype OptionState = OptionState(
    current: Value, synthCurrent: Value, initial: Value,
    currentId: Option<string>, available: seq<DropDownValue>)

  // =====================================================================
  // The option table
  // =====================================================================

  const LayoutCategoryID := "layoutCategory"
  const FilterCategoryID := "filterCategory"
  const HierarchyID := "hierarchy"
  const ModelOrderID := "modelOrder"
  const GroupingUCAsID := "groupingUCAs"
  const FilteringUCAsID := "filteringUCAs"
  const HideSysConsID := "hideSysCons"
  const HideRespsID := "hideResps"
  const HideUCAsID := "hideUCAs"
  const HideContConsID := "hideContCons"
  const HideScenariosID := "hideScenarios"
  const HideScenariosWithHazardID := "hideScenariosWithHazards"
  const HideSafetyConstraintsID := "hideSafetyConstraints"
  const LabelManagementID := "labelManagement"
  const LabelShorteningWidthID := "labelShorteningWidth"
  const ShowLabelsID := "showLabels"
  const ShowControlStructureID := "showControlStructure"
  const ShowRelationshipGraphID := "showRelationshipGraph"

  /** Positions in the table the constructor builds. */
  const HierarchyIndex := 2
  const ModelOrderIndex := 3
  const GroupingUCAsIndex := 4
  const FilteringUCAsIndex := 5
  const HideSysConsIndex := 6
  const HideRespsIndex := 7
  const HideUCAsIndex := 8
  const HideContConsIndex := 9
  const HideScenariosIndex := 10
  const HideScenariosWithHazardIndex := 11
  const HideSafetyConstraintsIndex := 12
  const LabelManagementIndex := 13
  const LabelShorteningWidthIndex := 14
  const ShowLabelsIndex := 15
  const ShowControlStructureIndex := 16
  const ShowRelationshipGraphIndex := 17

  const CheckValues := [BoolV(true), BoolV(false)]
  const GroupingChoices := [StrV("No grouping"), StrV("Group by Control Action"), StrV("Group by System Component")]
  const LabelManagementChoices := [StrV("Original Labels"), StrV("Wrapping"), StrV("Truncate"), StrV("No Labels")]
  const ShowLabelsChoices := [
    DropDownValue("All", "all"), DropDownValue("Losses", "losses"), DropDownValue("Hazards", "hazards"),
    DropDownValue("System Constraints", "systemConstraints"), DropDownValue("Responsibilities", "responsibilities"),
    DropDownValue("UCAs", "ucas"), DropDownValue("Controller Constraints", "controllerConstraints"),
    DropDownValue("Scenarios", "scenarios"), DropDownValue("Safety Constraints", "safetyConstraints"),
    DropDownValue("Automatic", "automatic")]

  function CheckDeclaration(id: string, name: string, category: string): Declaration {
    Declaration(id, name, Check, CheckValues, Some(category), None, None)
  }

  /** The options in the order the constructor lists them. */
  const Declarations: seq<Declaration> := [
    Declaration(LayoutCategoryID, "Layout", Category, [], None, None, None),
    Declaration(FilterCategoryID, "Filtering", Category, [], None, None, None),
    CheckDeclaration(HierarchyID, "Hierarchy", LayoutCategoryID),
    CheckDeclaration(ModelOrderID, "Model Order", LayoutCategoryID),
    Declaration(GroupingUCAsID, "Group UCAs", Choice, GroupingChoices, Some(LayoutCategoryID), None, None),
    Declaration(FilteringUCAsID, "Filter UCAs by Control Action", Dropdown, [], Some(FilterCategoryID), None, None),
    CheckDeclaration(HideSysConsID, "Hide System-level Constraints", FilterCategoryID),
    CheckDeclaration(HideRespsID, "Hide Responsibilities", FilterCategoryID),
    CheckDeclaration(HideUCAsID, "Hide UCAs", FilterCategoryID),
    CheckDeclaration(HideContConsID, "Hide Controller Constraints", FilterCategoryID),
    CheckDeclaration(HideScenariosID, "Hide Loss Scenarios", FilterCategoryID),
    CheckDeclaration(HideScenariosWithHazardID, "Hide Loss Scenarios Without UCAs", FilterCategoryID),
    CheckDeclaration(HideSafetyConstraintsID, "Hide Safety Constraints", FilterCategoryID),
    Declaration(LabelManagementID, "Node Label Management", Choice, LabelManagementChoices, Some(LayoutCategoryID), None, None),
    Declaration(LabelShorteningWidthID, "Shortening Width", Range, [], Some(LayoutCategoryID), Some(RangeBounds(0, 100)), Some(1)),
    Declaration(ShowLabelsID, "Show Labels of", Dropdown, [], Some(LayoutCategoryID), None, None),
    CheckDeclaration(ShowControlStructureID, "Show Control Structure", FilterCategoryID),
    CheckDeclaration(ShowRelationshipGraphID, "Show Relationship Graph", FilterCategoryID)]

  function Plain(v: Value): OptionState {
    OptionState(v, v, v, None, [])
  }

  /** The values each option starts with. */
  const InitialState: seq<OptionState> := [
    Plain(NumV(0)), Plain(NumV(0)), Plain(BoolV(true)), Plain(BoolV(true)), Plain(StrV("No grouping")),
    OptionState(StrV("all UCAs"), StrV("all UCAs"), StrV("all UCAs"), Some("all UCAs"), [DropDownValue("all UCAs", "all UCAs")]),
    Plain(BoolV(false)), Plain(BoolV(false)), Plain(BoolV(false)), Plain(BoolV(false)), Plain(BoolV(false)),
    Plain(BoolV(false)), Plain(BoolV(false)), Plain(StrV("Wrapping")), Plain(NumV(30)),
    OptionState(StrV("losses"), StrV("losses"), StrV("losses"), Some("losses"), ShowLabelsChoices),
    Plain(BoolV(true)), Plain(BoolV(true))]

  predicate IsCheckIndex(k: int) {
    k in {HierarchyIndex, ModelOrderIndex, HideSysConsIndex, HideRespsIndex, HideUCAsIndex, HideContConsIndex,
          HideScenariosIndex, HideScenariosWithHazardIndex, HideSafetyConstraintsIndex,
          ShowControlStructureIndex, ShowRelationshipGraphIndex}
  }

  lemma DeclarationIdsDistinct()
    ensures |Declarations| == 18
    ensures forall i, j | 0 <= i < j < |Declarations| :: Declarations[i].id != Declarations[j].id
  {
  }

  lemma CheckIndicesAreChecks(k: int)
    requires IsCheckIndex(k)
    ensures 0 <= k < |Declarations| && Declarations[k].optionType == Check
  {
  }

  /** The first position holding `id`, or -1 (`Array.prototype.find`). */
  function FirstIndex(ids: seq<string>, id: string): (r: int)
    ensures -1 <= r < |ids|
    ensures r == -1 <==> id !in ids
    ensures 0 <= r ==> ids[r] == id && id !in ids[..r]
  {
    if |ids| == 0 then -1
    else if ids[0] == id then 0
    else
      var rest := FirstIndex(ids[1..], id);
      assert ids[1..][..if rest < 0 then 0 else rest] == ids[1..if rest < 0 then 1 else rest + 1];
      if rest < 0 then -1 else rest + 1
  }

  // =====================================================================
  // The option states and their changes, as values
  // =====================================================================

  /** What the option holds between calls: both current values agree, the
      check boxes hold booleans, the slider a number, and the drop-down of
      control actions shows its current id. */
  predicate Consistent(s: seq<OptionState>) {
    && |s| == |Declarations|
    && (forall i | 0 <= i < |s| :: s[i].current == s[i].synthCurrent)
    && (forall i | 0 <= i < |s| && IsCheckIndex(i) :: s[i].current.BoolV?)
    && s[LabelShorteningWidthIndex].current.NumV?
    && s[FilteringUCAsIndex].current.StrV?
    && s[FilteringUCAsIndex].currentId == Some(s[FilteringUCAsIndex].current.s)
  }

  lemma InitialStateConsistent()
    ensures Consistent(InitialState)
  {
  }

  /** setOption: both current values of option k become v; nothing else
      changes, and a missing option changes nothing. */
  function SetValue(s: seq<OptionState>, k: int, v: Value): (r: seq<OptionState>)
    ensures |r| == |s|
    ensures forall i | 0 <= i < |s| && i != k :: r[i] == s[i]
    ensures 0 <= k < |s| ==> r[k] == OptionState(v, v, s[k].initial, s[k].currentId, s[k].available)
  {
    if 0 <= k < |s| then s[k := s[k].(current := v, synthCurrent := v)] else s
  }

  /** A value setOption may write to option k without breaking the
      invariant: a boolean for a check box, a number for the slider, and
      anything for the options the invariant does not constrain. The
      control-action filter is written through setFilteringUCAs. */
  predicate Settable(k: int, v: Value) {
    && 0 <= k < |Declarations| && k != FilteringUCAsIndex
    && (IsCheckIndex(k) ==> v.BoolV?)
    && (k == LabelShorteningWidthIndex ==> v.NumV?)
  }

  /** Writing an option other than the filter keeps the invariant exactly
      when the value is settable there. */
  lemma SetValueKeepsConsistent(s: seq<OptionState>, k: int, v: Value)
    requires Consistent(s) && 0 <= k < |Declarations| && k != FilteringUCAsIndex
    ensures Consistent(SetValue(s, k, v)) <==> Settable(k, v)
  {
    var r := SetValue(s, k, v);
    assert r[k].current == v;
    assert r[FilteringUCAsIndex] == s[FilteringUCAsIndex];
    if k != LabelShorteningWidthIndex {
      assert r[LabelShorteningWidthIndex] == s[LabelShorteningWidthIndex];
    }
  }

  /** setFilteringUCAs: the control action filter selects `value`. */
  function SelectFilter(s: seq<OptionState>, value: string): (r: seq<OptionState>)
    requires |s| == |Declarations|
    ensures |r| == |s| && forall i | 0 <= i < |s| && i != FilteringUCAsIndex :: r[i] == s[i]
    ensures r[FilteringUCAsIndex].current == StrV(value) && r[FilteringUCAsIndex].currentId == Some(value)
    ensures r[FilteringUCAsIndex].available == s[FilteringUCAsIndex].available
  {
    var k := FilteringUCAsIndex;
    s[k := s[k].(current := StrV(value), synthCurrent := StrV(value), currentId := Some(value))]
  }

  lemma SelectFilterKeepsConsistent(s: seq<OptionState>, value: string)
    requires Consistent(s)
    ensures Consistent(SelectFilter(s, value))
  {
    var r := SelectFilter(s, value);
    assert r[LabelShorteningWidthIndex] == s[LabelShorteningWidthIndex];
  }

  /** `values.find(val => val.id === currentId)` is not undefined. */
  function ContainsId(values: seq<DropDownValue>, id: Option<string>): (r: bool)
    ensures r <==> exists j | 0 <= j < |values| :: Some(values[j].id) == id
  {
    if |values| == 0 then false
    else if Some(values[0].id) == id then true
    else
      var r := ContainsId(values[1..], id);
      assert forall j | 1 <= j < |values| :: values[j] == values[1..][j - 1];
      r
  }

  /** The new state after updateFilterUCAsOption, and whether it threw. */
  datatype Update = Update(state: seq<OptionState>, thrown: bool)

  /** The drop-down after updateFilterUCAsOption: the available values are
      replaced; when the selected id is no longer among them, the first of
      them is selected. */
  function UpdatedOption(o: OptionState, values: seq<DropDownValue>): OptionState
  {
    var o1 := o.(available := values);
    if ContainsId(values, o.currentId) || |values| == 0 then o1
    else
      var first := StrV(values[0].id);
      o1.(currentId := Some(values[0].id), synthCurrent := first, initial := first, current := first)
  }

  /** With no values at all, reading `values[0].id` throws, after the
      available values were written. */
  predicate UpdateThrows(o: OptionState, values: seq<DropDownValue>) {
    !ContainsId(values, o.currentId) && |values| == 0
  }

  /** updateFilterUCAsOption on option k; a missing option changes nothing. */
  function UpdateFilter(s: seq<OptionState>, k: int, values: seq<DropDownValue>): Update
  {
    if 0 <= k < |s| then Update(s[k := UpdatedOption(s[k], values)], UpdateThrows(s[k], values))
    else Update(s, false)
  }

  /** The update throws exactly when there are no values; otherwise the
      filter ends up selecting one of the available control actions. It
      keeps a selection that is still available, and changes nothing but
      the filter option. */
  lemma UpdateFilterSelectsAvailable(s: seq<OptionState>, values: seq<DropDownValue>)
    requires Consistent(s)
    ensures var u := UpdateFilter(s, FilteringUCAsIndex, values);
      && (u.thrown <==> |values| == 0)
      && |u.state| == |s|
      && (forall i | 0 <= i < |s| && i != FilteringUCAsIndex :: u.state[i] == s[i])
      && u.state[FilteringUCAsIndex].available == values
      && (!u.thrown ==> ContainsId(values, u.state[FilteringUCAsIndex].currentId))
      && (ContainsId(values, s[FilteringUCAsIndex].currentId) ==>
            u.state[FilteringUCAsIndex] == s[FilteringUCAsIndex].(available := values))
  {
    if |values| > 0 && !ContainsId(values, s[FilteringUCAsIndex].currentId) {
      var u := UpdateFilter(s, FilteringUCAsIndex, values);
      assert Some(values[0].id) == u.state[FilteringUCAsIndex].currentId;
    }
  }

  lemma UpdateFilterKeepsConsistent(s: seq<OptionState>, values: seq<DropDownValue>)
    requires Consistent(s)
    ensures Consistent(UpdateFilter(s, FilteringUCAsIndex, values).state)
  {
    var r := UpdateFilter(s, FilteringUCAsIndex, values).state;
    UpdateFilterSelectsAvailable(s, values);
    assert r[LabelShorteningWidthIndex] == s[LabelShorteningWidthIndex];
  }

  // =====================================================================
  // Decoding the choices
  // =====================================================================

  /** A getter's answer: an enumeration value, or the raw value it falls
      back to. */
  datatype Decoded<E> = Known(value: E) | Raw(raw: Value)

  datatype ShowLabelsValue = All | Losses | Hazards | SystemConstraints | Ucas | Responsibilities
                           | ControllerConstraints | Scenarios | SafetyConstraints | Automatic

  /** The drop-down id that selects each value. */
  function ShowLabelsId(e: ShowLabelsValue): string {
    match e
    case All => "all"
    case Losses => "losses"
    case Hazards => "hazards"
    case SystemConstraints => "systemConstraints"
    case Responsibilities => "responsibilities"
    case Ucas => "ucas"
    case ControllerConstraints => "controllerConstraints"
    case Scenarios => "scenarios"
    case SafetyConstraints => "safetyConstraints"
    case Automatic => "automatic"
  }

  /** getShowLabels' switch: known ids decode, anything else is returned as
      it is. */
  function DecodeShowLabels(v: Value): (r: Decoded<ShowLabelsValue>)
    ensures r.Known? ==> v == StrV(ShowLabelsId(r.value))
    ensures r.Raw? ==> r.raw == v && forall e: ShowLabelsValue :: v != StrV(ShowLabelsId(e))
  {
    if v == StrV("all") then Known(All)
    else if v == StrV("losses") then Known(Losses)
    else if v == StrV("hazards") then Known(Hazards)
    else if v == StrV("systemConstraints") then Known(SystemConstraints)
    else if v == StrV("responsibilities") then Known(Responsibilities)
    else if v == StrV("ucas") then Known(Ucas)
    else if v == StrV("controllerConstraints") then Known(ControllerConstraints)
    else if v == StrV("scenarios") then Known(Scenarios)
    else if v == StrV("safetyConstraints") then Known(SafetyConstraints)
    else if v == StrV("automatic") then Known(Automatic)
    else Raw(v)
  }

  /** Every entry the drop-down offers decodes, and each value is decoded
      from its own id. */
  lemma ShowLabelsChoicesDecode(e: ShowLabelsValue)
    ensures DecodeShowLabels(StrV(ShowLabelsId(e))) == Known(e)
    ensures forall j | 0 <= j < |ShowLabelsChoices| :: DecodeShowLabels(StrV(ShowLabelsChoices[j].id)).Known?
  {
  }

  datatype LabelManagementValue = Original | Wrapping | Truncate | NoLabels

  function LabelManagementName(e: LabelManagementValue): string {
    match e
    case Original => "Original Labels"
    case Wrapping => "Wrapping"
    case Truncate => "Truncate"
    case NoLabels => "No Labels"
  }

  /** getLabelManagement's switch. */
  function DecodeLabelManagement(v: Value): (r: Decoded<LabelManagementValue>)
    ensures r.Known? ==> v == StrV(LabelManagementName(r.value))
    ensures r.Raw? ==> r.raw == v && forall e: LabelManagementValue :: v != StrV(LabelManagementName(e))
  {
    if v == StrV("Original Labels") then Known(Original)
    else if v == StrV("Wrapping") then Known(Wrapping)
    else if v == StrV("Truncate") then Known(Truncate)
    else if v == StrV("No Labels") then Known(NoLabels)
    else Raw(v)
  }

  /** The choices of the option are exactly the names of the values, in
      order, and each decodes to its value. */
  lemma LabelManagementChoicesDecode(e: LabelManagementValue)
    ensures DecodeLabelManagement(StrV(LabelManagementName(e))) == Known(e)
    ensures LabelManagementChoices
         == [StrV(LabelManagementName(Original)), StrV(LabelManagementName(Wrapping)),
             StrV(LabelManagementName(Truncate)), StrV(LabelManagementName(NoLabels))]
  {
  }

  datatype GroupValue = NoGrouping | ControlAction | SystemComponent

  /** The label setGroupingUCAs writes, as the source has it: "no grouping"
      in lower case, which is not one of the option's choices. */
  function GroupingLabelAsWritten(g: GroupValue): (r: string)
    ensures g != NoGrouping ==> StrV(r) in GroupingChoices
  {
    match g
    case NoGrouping => "no grouping"
    case ControlAction => "Group by Control Action"
    case SystemComponent => "Group by System Component"
  }

  /** The label setGroupingUCAs is meant to write: the option's choice. */
  function GroupingLabel(g: GroupValue): (r: string)
    ensures StrV(r) in GroupingChoices
  {
    match g
    case NoGrouping => "No grouping"
    case ControlAction => "Group by Control Action"
    case SystemComponent => "Group by System Component"
  }

  /** getGroupingUCAs' switch, applied to the option's current value. */
  function DecodeGrouping(v: Value): (r: Decoded<GroupValue>)
    ensures r.Known? ==> v == StrV(GroupingLabel(r.value))
    ensures r.Raw? ==> r.raw == v && v !in GroupingChoices
  {
    if v == StrV("No grouping") then Known(NoGrouping)
    else if v == StrV("Group by Control Action") then Known(ControlAction)
    else if v == StrV("Group by System Component") then Known(SystemComponent)
    else Raw(v)
  }

  /** With the intended labels, reading back a grouping gives the grouping
      that was written. */
  lemma GroupingRoundTrip(g: GroupValue)
    ensures DecodeGrouping(StrV(GroupingLabel(g))) == Known(g)
  {
  }

  /** With the labels as written, choosing no grouping cannot be read back:
      the stored "no grouping" is not a choice and is returned raw. */
  lemma GroupingAsWrittenLosesNoGrouping()
    ensures StrV(GroupingLabelAsWritten(NoGrouping)) !in GroupingChoices
    ensures DecodeGrouping(StrV(GroupingLabelAsWritten(NoGrouping))) == Raw(StrV("no grouping"))
  {
    assert "no grouping"[0] != "No grouping"[0];
  }

  /** `v.currentValue` for a value that is not an object: every option value
      here is a boolean, number or string, which have no such property. */
  function CurrentValueProperty(v: Value): Value
  {
    Undefined
  }

  // =====================================================================
  // The objects
  // =====================================================================

  function Synths(opts: seq<ValuedSynthesisOption>): set<SynthesisOption> {
    set o | o in opts :: o.synthesisOption
  }

  function StateOf(opts: seq<ValuedSynthesisOption>): (s: seq<OptionState>)
    reads opts, Synths(opts)
    ensures |s| == |opts| && forall i | 0 <= i < |opts| :: s[i] == opts[i].Snapshot()
  {
    if |opts| == 0 then []
    else
      var front := opts[..|opts| - 1];
      assert forall o | o in front :: o in opts;
      StateOf(front) + [opts[|opts| - 1].Snapshot()]
  }

  /** The option objects are the table's, in its order. */
  ghost predicate TableWired(opts: seq<ValuedSynthesisOption>) {
    && |opts| == |Declarations|
    && forall i | 0 <= i < |opts| :: opts[i].synthesisOption.Declared() == Declarations[i]
  }

  /** The option objects of the module, built once: one fresh object per
      declaration, in order, each in its given state. Every instance of the
      class is constructed over these same objects. */
  method NewOptions(decls: seq<Declaration>, states: seq<OptionState>) returns (built: seq<ValuedSynthesisOption>)
    requires |states| == |decls|
    ensures |built| == |decls|
    ensures forall j | 0 <= j < |built| :: fresh(built[j]) && fresh(built[j].synthesisOption)
    ensures forall j | 0 <= j < |built| :: built[j].synthesisOption.Declared() == decls[j]
    ensures StateOf(built) == states
  {
    built := [];
    for k := 0 to |decls|
      invariant |built| == k
      invariant forall j | 0 <= j < k :: fresh(built[j]) && fresh(built[j].synthesisOption)
      invariant forall j | 0 <= j < k :: built[j].synthesisOption.Declared() == decls[j]
      invariant forall j | 0 <= j < k :: built[j].Snapshot() == states[j]
    {
      var option := new ValuedSynthesisOption(decls[k], states[k]);
      built := built + [option];
    }
    assert StateOf(built) == states;
  }

  class SynthesisOption {
    const id: string
    const name: string
    const optionType: OptionType
    const values: seq<Value>
    const category: Option<string>
    const range: Option<RangeBounds>
    const stepSize: Option<int>
    var initialValue: Value
    var currentValue: Value
    var currentId: Option<string>
    var availableValues: seq<DropDownValue>

    constructor (d: Declaration, s: OptionState)
      ensures Declared() == d
      ensures initialValue == s.initial && currentValue == s.synthCurrent
      ensures currentId == s.currentId && availableValues == s.available
    {
      id, name, optionType, values := d.id, d.name, d.optionType, d.values;
      category, range, stepSize := d.category, d.range, d.stepSize;
      initialValue, currentValue := s.initial, s.synthCurrent;
      currentId, availableValues := s.currentId, s.available;
    }

    function Declared(): Declaration {
      Declaration(id, name, optionType, values, category, range, stepSize)
    }
  }

  class ValuedSynthesisOption {
    const synthesisOption: SynthesisOption
    var currentValue: Value

    constructor (d: Declaration, s: OptionState)
      ensures fresh(synthesisOption)
      ensures synthesisOption.Declared() == d && Snapshot() == s
    {
      synthesisOption := new SynthesisOption(d, s);
      currentValue := s.current;
    }

    function Snapshot(): OptionState
      reads this, synthesisOption
    {
      OptionState(currentValue, synthesisOption.currentValue, synthesisOption.initialValue,
                  synthesisOption.currentId, synthesisOption.availableValues)
    }
  }

  class StpaSynthesisOptions {
    const options: seq<ValuedSynthesisOption>

    /** The option objects and their synthesis options. */
    function Objects(): set<object> {
      (set o | o in options :: o as object) + (set o | o in options :: o.synthesisOption as object)
    }

    /** The two objects of option k. */
    function OptionObjects(k: int): set<object> {
      if 0 <= k < |options| then {options[k], options[k].synthesisOption} else {}
    }

    /** The options are the table's, in its order. */
    ghost predicate Wired() {
      TableWired(options)
    }

    function State(): (s: seq<OptionState>)
      reads options, Synths(options)
      ensures |s| == |options| && forall i | 0 <= i < |options| :: s[i] == options[i].Snapshot()
    {
      StateOf(options)
    }

    ghost predicate Valid()
      reads options, Synths(options)
    {
      Wired() && Consistent(State())
    }

    /** Distinct ids make distinct objects. */
    lemma OthersDistinct(k: int)
      requires Wired() && 0 <= k < |options|
      ensures forall i | 0 <= i < |options| && i != k ::
        options[i] != options[k] && options[i].synthesisOption != options[k].synthesisOption
    {
      DeclarationIdsDistinct();
      forall i | 0 <= i < |options| && i != k
        ensures options[i] != options[k] && options[i].synthesisOption != options[k].synthesisOption
      {
        assert options[i].synthesisOption.id == Declarations[i].id;
        assert options[k].synthesisOption.id == Declarations[k].id;
      }
    }

    /** A change confined to option k changes the state at k only. */
    twostate lemma OnlyOptionChanged(k: int)
      requires 0 <= k < |options|
      requires forall i | 0 <= i < |options| && i != k :: unchanged(options[i], options[i].synthesisOption)
      ensures State() == old(State())[k := options[k].Snapshot()]
    {
    }

    /** The instance holds the module-level option objects it is given, in
        the table's order; objects in a consistent state give a valid
        instance. */
    constructor (shared: seq<ValuedSynthesisOption>)
      requires TableWired(shared)
      ensures options == shared && Wired()
      ensures State() == StateOf(shared)
      ensures Consistent(StateOf(shared)) ==> Valid()
    {
      options := shared;
    }

    /** getSynthesisOptions: the options in the table's order. */
    function GetSynthesisOptions(): (r: seq<ValuedSynthesisOption>)
      requires Wired()
      ensures |r| == |Declarations| && forall i | 0 <= i < |r| :: r[i].synthesisOption.Declared() == Declarations[i]
    {
      options
    }

    function Ids(): (r: seq<string>)
      ensures |r| == |options| && forall i | 0 <= i < |options| :: r[i] == options[i].synthesisOption.id
    {
      seq(|options|, i requires 0 <= i < |options| => options[i].synthesisOption.id)
    }

    /** getOption: the first option with the id, if any. */
    function GetOption(id: string): (r: Option<ValuedSynthesisOption>)
      ensures r.None? <==> forall i | 0 <= i < |options| :: options[i].synthesisOption.id != id
      ensures r.Some? ==> r.value == options[FirstIndex(Ids(), id)]
      ensures r.Some? ==> exists k | 0 <= k < |options| ::
        && r.value == options[k] && options[k].synthesisOption.id == id
        && forall i | 0 <= i < k :: options[i].synthesisOption.id != id
    {
      var k := FirstIndex(Ids(), id);
      if k < 0 then None
      else
        assert forall i | 0 <= i < k :: Ids()[..k][i] == Ids()[i];
        Some(options[k])
    }

    /** In the table, looking an option up by its id finds it. */
    lemma LookupFindsTableEntry(k: int)
      requires Wired() && 0 <= k < |Declarations|
      ensures GetOption(Declarations[k].id) == Some(options[k])
      ensures FirstIndex(Ids(), Declarations[k].id) == k
    {
      var id, ids := Declarations[k].id, Ids();
      assert ids[k] == id;
      var r := FirstIndex(ids, id);
      assert ids[r] == Declarations[r].id;
      DeclarationIdsDistinct();
    }

    /** The lookups of the options the typed getters and setters name. */
    lemma GroupingLookup()
      requires Wired()
      ensures GetOption(GroupingUCAsID) == Some(options[GroupingUCAsIndex])
    {
      assert Declarations[GroupingUCAsIndex].id == GroupingUCAsID;
      LookupFindsTableEntry(GroupingUCAsIndex);
    }

    lemma FilteringLookup()
      requires Wired()
      ensures GetOption(FilteringUCAsID) == Some(options[FilteringUCAsIndex])
    {
      assert Declarations[FilteringUCAsIndex].id == FilteringUCAsID;
      LookupFindsTableEntry(FilteringUCAsIndex);
    }

    lemma ShorteningWidthLookup()
      requires Wired()
      ensures GetOption(LabelShorteningWidthID) == Some(options[LabelShorteningWidthIndex])
    {
      assert Declarations[LabelShorteningWidthIndex].id == LabelShorteningWidthID;
      LookupFindsTableEntry(LabelShorteningWidthIndex);
    }

    /** `this.getOption(id)?.currentValue` */
    function CurrentValue(id: string): Value
      reads options
    {
      var option := GetOption(id);
      if option.Some? then option.value.currentValue else Undefined
    }

    /** A check box read through its id: it holds a boolean. */
    function CheckValue(k: int): (r: bool)
      requires Valid() && IsCheckIndex(k)
      reads options, Synths(options)
      ensures CurrentValue(Declarations[k].id) == BoolV(r)
    {
      LookupFindsTableEntry(k);
      assert State()[k].current == options[k].currentValue;
      options[k].currentValue.b
    }

    function GetModelOrder(): (r: bool)
      requires Valid()
      reads options, Synths(options)
      ensures CurrentValue(ModelOrderID) == BoolV(r)
    {
      assert Declarations[ModelOrderIndex].id == ModelOrderID;
      CheckValue(ModelOrderIndex)
    }

    function GetShowRelationshipGraph(): (r: bool)
      requires Valid()
      reads options, Synths(options)
      ensures CurrentValue(ShowRelationshipGraphID) == BoolV(r)
    {
      assert Declarations[ShowRelationshipGraphIndex].id == ShowRelationshipGraphID;
      CheckValue(ShowRelationshipGraphIndex)
    }

    function GetShowControlStructure(): (r: bool)
      requires Valid()
      reads options, Synths(options)
      ensures CurrentValue(ShowControlStructureID) == BoolV(r)
    {
      assert Declarations[ShowControlStructureIndex].id == ShowControlStructureID;
      CheckValue(ShowControlStructureIndex)
    }

    function GetHierarchy(): (r: bool)
      requires Valid()
      reads options, Synths(options)
      ensures CurrentValue(HierarchyID) == BoolV(r)
    {
      assert Declarations[HierarchyIndex].id == HierarchyID;
      CheckValue(HierarchyIndex)
    }

    function GetHideSysCons(): (r: bool)
      requires Valid()
      reads options, Synths(options)
      ensures CurrentValue(HideSysConsID) == BoolV(r)
    {
      assert Declarations[HideSysConsIndex].id == HideSysConsID;
      CheckValue(HideSysConsIndex)
    }

    function GetHideRespsCons(): (r: bool)
      requires Valid()
      reads options, Synths(options)
      ensures CurrentValue(HideRespsID) == BoolV(r)
    {
      assert Declarations[HideRespsIndex].id == HideRespsID;
      CheckValue(HideRespsIndex)
    }

    function GetHideUCAs(): (r: bool)
      requires Valid()
      reads options, Synths(options)
      ensures CurrentValue(HideUCAsID) == BoolV(r)
    {
      assert Declarations[HideUCAsIndex].id == HideUCAsID;
      CheckValue(HideUCAsIndex)
    }

    function GetHideContCons(): (r: bool)
      requires Valid()
      reads options, Synths(options)
      ensures CurrentValue(HideContConsID) == BoolV(r)
    {
      assert Declarations[HideContConsIndex].id == HideContConsID;
      CheckValue(HideContConsIndex)
    }

    function GetHideScenarios(): (r: bool)
      requires Valid()
      reads options, Synths(options)
      ensures CurrentValue(HideScenariosID) == BoolV(r)
    {
      assert Declarations[HideScenariosIndex].id == HideScenariosID;
      CheckValue(HideScenariosIndex)
    }

    function GetHideScenariosWithHazard(): (r: bool)
      requires Valid()
      reads options, Synths(options)
      ensures CurrentValue(HideScenariosWithHazardID) == BoolV(r)
    {
      assert Declarations[HideScenariosWithHazardIndex].id == HideScenariosWithHazardID;
      CheckValue(HideScenariosWithHazardIndex)
    }

    function GetHideSafetyConstraints(): (r: bool)
      requires Valid()
      reads options, Synths(options)
      ensures CurrentValue(HideSafetyConstraintsID) == BoolV(r)
    {
      assert Declarations[HideSafetyConstraintsIndex].id == HideSafetyConstraintsID;
      CheckValue(HideSafetyConstraintsIndex)
    }

    /** The slider holds a number. */
    function GetLabelShorteningWidth(): (r: int)
      requires Valid()
      reads options, Synths(options)
      ensures CurrentValue(LabelShorteningWidthID) == NumV(r)
    {
      ShorteningWidthLookup();
      assert State()[LabelShorteningWidthIndex].current == options[LabelShorteningWidthIndex].currentValue;
      options[LabelShorteningWidthIndex].currentValue.n
    }

    /** The control-action filter holds a string, its current id. */
    function GetFilteringUCAs(): (r: string)
      requires Valid()
      reads options, Synths(options)
      ensures CurrentValue(FilteringUCAsID) == StrV(r)
      ensures options[FilteringUCAsIndex].synthesisOption.currentId == Some(r)
    {
      FilteringLookup();
      assert State()[FilteringUCAsIndex] == options[FilteringUCAsIndex].Snapshot();
      options[FilteringUCAsIndex].currentValue.s
    }

    /** getShowLabels: the value the stored id selects, or the stored value. */
    function GetShowLabels(): (r: Decoded<ShowLabelsValue>)
      reads options
      ensures r.Known? ==> CurrentValue(ShowLabelsID) == StrV(ShowLabelsId(r.value))
      ensures r.Raw? ==> r.raw == CurrentValue(ShowLabelsID)
    {
      DecodeShowLabels(CurrentValue(ShowLabelsID))
    }

    /** getLabelManagement: the value the stored name selects, or the stored
        value. */
    function GetLabelManagement(): (r: Decoded<LabelManagementValue>)
      reads options
      ensures r.Known? ==> CurrentValue(LabelManagementID) == StrV(LabelManagementName(r.value))
      ensures r.Raw? ==> r.raw == CurrentValue(LabelManagementID)
    {
      DecodeLabelManagement(CurrentValue(LabelManagementID))
    }

    /** getGroupingUCAs as the source has it: it reads `currentValue` of the
        current value, a string, so it answers undefined whatever is stored. */
    function GetGroupingUCAsAsWritten(): (r: Decoded<GroupValue>)
      reads options
      ensures r == Raw(Undefined)
    {
      DecodeGrouping(CurrentValueProperty(CurrentValue(GroupingUCAsID)))
    }

    /** getGroupingUCAs as intended: the grouping the stored label names. */
    function GetGroupingUCAs(): (r: Decoded<GroupValue>)
      reads options
      ensures r.Known? ==> CurrentValue(GroupingUCAsID) == StrV(GroupingLabel(r.value))
      ensures r.Raw? ==> r.raw == CurrentValue(GroupingUCAsID)
    {
      DecodeGrouping(CurrentValue(GroupingUCAsID))
    }

    /** setOption: both current values of the option with the id become
        `value`; an unknown id changes nothing. */
    method SetOption(id: string, value: Value)
      requires Wired()
      modifies OptionObjects(FirstIndex(Ids(), id))
      ensures State() == SetValue(old(State()), FirstIndex(Ids(), id), value)
      ensures old(Valid()) && Settable(FirstIndex(Ids(), id), value) ==> Valid()
    {
      ghost var k := FirstIndex(Ids(), id);
      ghost var before := State();
      ghost var wasValid := Valid();
      var option := GetOption(id);
      if option.Some? {
        OthersDistinct(k);
        option.value.currentValue := value;
        option.value.synthesisOption.currentValue := value;
        OnlyOptionChanged(k);
      }
      if wasValid && Settable(k, value) {
        SetValueKeepsConsistent(before, k, value);
      }
    }

    /** The setters of the check boxes. */
    method SetCheck(k: int, value: bool)
      requires Valid() && IsCheckIndex(k)
      modifies OptionObjects(k)
      ensures Valid() && State() == SetValue(old(State()), k, BoolV(value))
      ensures CheckValue(k) == value
    {
      ghost var before := State();
      CheckIndicesAreChecks(k);
      LookupFindsTableEntry(k);
      SetOption(Declarations[k].id, BoolV(value));
    }

    method SetShowRelationshipGraph(value: bool)
      requires Valid()
      modifies OptionObjects(ShowRelationshipGraphIndex)
      ensures Valid() && State() == SetValue(old(State()), ShowRelationshipGraphIndex, BoolV(value))
      ensures GetShowRelationshipGraph() == value
    {
      SetCheck(ShowRelationshipGraphIndex, value);
    }

    method SetShowControlStructure(value: bool)
      requires Valid()
      modifies OptionObjects(ShowControlStructureIndex)
      ensures Valid() && State() == SetValue(old(State()), ShowControlStructureIndex, BoolV(value))
      ensures GetShowControlStructure() == value
    {
      SetCheck(ShowControlStructureIndex, value);
    }

    method SetHierarchy(value: bool)
      requires Valid()
      modifies OptionObjects(HierarchyIndex)
      ensures Valid() && State() == SetValue(old(State()), HierarchyIndex, BoolV(value))
      ensures GetHierarchy() == value
    {
      SetCheck(HierarchyIndex, value);
    }

    method SetHideSysCons(value: bool)
      requires Valid()
      modifies OptionObjects(HideSysConsIndex)
      ensures Valid() && State() == SetValue(old(State()), HideSysConsIndex, BoolV(value))
      ensures GetHideSysCons() == value
    {
      SetCheck(HideSysConsIndex, value);
    }

    method SetHideResps(value: bool)
      requires Valid()
      modifies OptionObjects(HideRespsIndex)
      ensures Valid() && State() == SetValue(old(State()), HideRespsIndex, BoolV(value))
      ensures GetHideRespsCons() == value
    {
      SetCheck(HideRespsIndex, value);
    }

    method SetHideUCAs(value: bool)
      requires Valid()
      modifies OptionObjects(HideUCAsIndex)
      ensures Valid() && State() == SetValue(old(State()), HideUCAsIndex, BoolV(value))
      ensures GetHideUCAs() == value
    {
      SetCheck(HideUCAsIndex, value);
    }

    method SetHideContCons(value: bool)
      requires Valid()
      modifies OptionObjects(HideContConsIndex)
      ensures Valid() && State() == SetValue(old(State()), HideContConsIndex, BoolV(value))
      ensures GetHideContCons() == value
    {
      SetCheck(HideContConsIndex, value);
    }

    method SetHideScenarios(value: bool)
      requires Valid()
      modifies OptionObjects(HideScenariosIndex)
      ensures Valid() && State() == SetValue(old(State()), HideScenariosIndex, BoolV(value))
      ensures GetHideScenarios() == value
    {
      SetCheck(HideScenariosIndex, value);
    }

    method SetHideScenariosWithHazard(value: bool)
      requires Valid()
      modifies OptionObjects(HideScenariosWithHazardIndex)
      ensures Valid() && State() == SetValue(old(State()), HideScenariosWithHazardIndex, BoolV(value))
      ensures GetHideScenariosWithHazard() == value
    {
      SetCheck(HideScenariosWithHazardIndex, value);
    }

    method SetHideSafetyConstraints(value: bool)
      requires Valid()
      modifies OptionObjects(HideSafetyConstraintsIndex)
      ensures Valid() && State() == SetValue(old(State()), HideSafetyConstraintsIndex, BoolV(value))
      ensures GetHideSafetyConstraints() == value
    {
      SetCheck(HideSafetyConstraintsIndex, value);
    }

    /** setGroupingUCAs as the source has it: the two groupings read back,
        but no grouping stores "no grouping", which reads back as that raw
        string. */
    method SetGroupingUCAs(value: GroupValue)
      requires Valid()
      modifies OptionObjects(GroupingUCAsIndex)
      ensures Valid() && State() == SetValue(old(State()), GroupingUCAsIndex, StrV(GroupingLabelAsWritten(value)))
      ensures value != NoGrouping ==> GetGroupingUCAs() == Known(value)
      ensures value == NoGrouping ==> GetGroupingUCAs() == Raw(StrV("no grouping"))
    {
      StoreGroupingLabel(GroupingLabelAsWritten(value));
      if value == NoGrouping {
        GroupingAsWrittenLosesNoGrouping();
      } else {
        GroupingRoundTrip(value);
      }
    }

    /** setGroupingUCAs as intended, writing the option's choice: the
        grouping written is the grouping read back. */
    method SetGroupingUCAsIntended(value: GroupValue)
      requires Valid()
      modifies OptionObjects(GroupingUCAsIndex)
      ensures Valid() && State() == SetValue(old(State()), GroupingUCAsIndex, StrV(GroupingLabel(value)))
      ensures GetGroupingUCAs() == Known(value)
    {
      StoreGroupingLabel(GroupingLabel(value));
      GroupingRoundTrip(value);
    }

    /** The body of setGroupingUCAs once the label is chosen: both current
        values of the grouping option become the label. */
    method StoreGroupingLabel(stored: string)
      requires Valid()
      modifies OptionObjects(GroupingUCAsIndex)
      ensures Valid() && State() == SetValue(old(State()), GroupingUCAsIndex, StrV(stored))
      ensures CurrentValue(GroupingUCAsID) == StrV(stored)
    {
      ghost var before := State();
      GroupingLookup();
      OthersDistinct(GroupingUCAsIndex);
      var option := GetOption(GroupingUCAsID);
      if option.Some? {
        option.value.currentValue := StrV(stored);
        option.value.synthesisOption.currentValue := option.value.currentValue;
      }
      OnlyOptionChanged(GroupingUCAsIndex);
      SetValueKeepsConsistent(before, GroupingUCAsIndex, StrV(stored));
    }

    /** setFilteringUCAs: the filter selects `value`. */
    method SetFilteringUCAs(value: string)
      requires Valid()
      modifies OptionObjects(FilteringUCAsIndex)
      ensures Valid() && State() == SelectFilter(old(State()), value)
      ensures GetFilteringUCAs() == value
    {
      ghost var before := State();
      FilteringLookup();
      OthersDistinct(FilteringUCAsIndex);
      var option := GetOption(FilteringUCAsID);
      if option.Some? {
        SelectDropDownValue(option.value, value);
      }
      OnlyOptionChanged(FilteringUCAsIndex);
      SelectFilterKeepsConsistent(before, value);
    }

    /** The body of setFilteringUCAs, on the option it found. */
    static method SelectDropDownValue(option: ValuedSynthesisOption, value: string)
      modifies option, option.synthesisOption
      ensures option.Snapshot()
           == old(option.Snapshot()).(current := StrV(value), synthCurrent := StrV(value), currentId := Some(value))
    {
      option.currentValue := StrV(value);
      option.synthesisOption.currentValue := StrV(value);
      option.synthesisOption.currentId := Some(value);
    }

    /** updateFilterUCAsOption: offers `values` as the control actions to
        filter by, keeping the selection when it is still offered and
        selecting the first value otherwise. */
    method UpdateFilterUCAsOption(values: seq<DropDownValue>) returns (error: Option<Error>)
      requires Valid()
      modifies OptionObjects(FilteringUCAsIndex)
      ensures Valid() && State() == UpdateFilter(old(State()), FilteringUCAsIndex, values).state
      ensures error.Some? <==> UpdateFilter(old(State()), FilteringUCAsIndex, values).thrown
      ensures error.Some? ==> error.value == TypeError("id")
    {
      ghost var before := State();
      FilteringLookup();
      OthersDistinct(FilteringUCAsIndex);
      UpdateFilterKeepsConsistent(before, values);
      var option := GetOption(FilteringUCAsID);
      error := None;
      if option.Some? {
        error := UpdateDropDown(option.value, values);
      }
      OnlyOptionChanged(FilteringUCAsIndex);
    }

    /** The body of updateFilterUCAsOption, on the option it found. */
    static method UpdateDropDown(option: ValuedSynthesisOption, values: seq<DropDownValue>) returns (error: Option<Error>)
      modifies option, option.synthesisOption
      ensures option.Snapshot() == UpdatedOption(old(option.Snapshot()), values)
      ensures error.Some? <==> UpdateThrows(old(option.Snapshot()), values)
      ensures error.Some? ==> error.value == TypeError("id")
    {
      var synthesisOption := option.synthesisOption;
      synthesisOption.availableValues := values;
      error := None;
      if !ContainsId(values, synthesisOption.currentId) {
        if |values| == 0 {
          return Some(TypeError("id"));
        }
        synthesisOption.currentId := Some(values[0].id);
        synthesisOption.currentValue := StrV(values[0].id);
        synthesisOption.initialValue := StrV(values[0].id);
        option.currentValue := StrV(values[0].id);
      }
    }
  }

  /** Instances over the same module-level objects share their settings: a
      check box set through one instance reads back through the other. */
  method SetThroughOneReadThroughOther(a: StpaSynthesisOptions, b: StpaSynthesisOptions, value: bool)
    requires a.Valid() && b.options == a.options
    modifies a.OptionObjects(HideUCAsIndex)
    ensures b.Valid() && b.State() == a.State()
    ensures b.GetHideUCAs() == value
  {
    a.SetHideUCAs(value);
    assert b.CurrentValue(HideUCAsID) == a.CurrentValue(HideUCAsID);
  }

  /** The module's option objects, built once from the table's
      declarations in their initial states: wired to the table and
      consistent. */
  method ModuleOptions() returns (shared: seq<ValuedSynthesisOption>)
    ensures TableWired(shared) && StateOf(shared) == InitialState && Consistent(StateOf(shared))
    ensures forall j | 0 <= j < |shared| :: fresh(shared[j]) && fresh(shared[j].synthesisOption)
  {
    shared := NewOptions(Declarations, InitialState);
    InitialStateConsistent();
  }
}
