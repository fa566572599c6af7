/** The label lookup of the language server's message handler: the text
    range of the model element a diagram label names, so that the editor
    can highlight it. */
module Handler {
  import opened Wrappers
  import opened StpaModel

  /** Every named element, in the order the lookup visits them: losses,
      hazards, sub-hazards, system-level constraints, their sub-constraints,
      responsibilities, UCAs, rule contexts, controller constraints,
      scenarios, safety constraints, and the control-structure nodes if the
      model has a control structure. */
  function SearchOrder(m: Model): seq<Element>
  {
    m.losses + m.hazards + SubComponents(m.hazards)
    + m.systemLevelConstraints + SubComponents(m.systemLevelConstraints)
    + Children(m.responsibilities) + Children(m.allUCAs) + Children(m.rules)
    + m.controllerConstraints + m.scenarios + m.safetyCons
    + (if m.controlStructure.Some? then m.controlStructure.value else [])
  }

  /** The range of the last element named the label; `None` when there is
      none or that element has no syntax node. */
  function LastMatchRange(elements: seq<Element>, nodeLabel: string): Option<Range>
    reads NodesOf(elements)
  {
    if |elements| == 0 then None
    else if elements[|elements| - 1].name == nodeLabel then RangeOf(elements[|elements| - 1])
    else LastMatchRange(elements[..|elements| - 1], nodeLabel)
  }

  /** getRangeOfNode: visits every element and keeps the range of each one
      whose name is the label, so the last such element decides. */
  method GetRangeOfNode(m: Model, nodeLabel: string) returns (range: Option<Range>)
    ensures range == LastMatchRange(SearchOrder(m), nodeLabel)
  {
    var elements := SearchOrder(m);
    range := None;
    var i := 0;
    while i < |elements|
      invariant 0 <= i <= |elements|
      invariant range == LastMatchRange(elements[..i], nodeLabel)
    {
      assert elements[..i + 1][..i] == elements[..i];
      var component := elements[i];
      if component.name == nodeLabel {
        range := RangeOf(component);
      }
      i := i + 1;
    }
    assert elements[..i] == elements;
  }

  /** No element carries the label: no range. */
  lemma {:induction false} NoMatchNoRange(elements: seq<Element>, nodeLabel: string)
    requires forall k | 0 <= k < |elements| :: elements[k].name != nodeLabel
    ensures LastMatchRange(elements, nodeLabel) == None
  {
    if |elements| > 0 {
      NoMatchNoRange(elements[..|elements| - 1], nodeLabel);
    }
  }

  /** The element named the label at position k decides when no later element
      carries the label. */
  lemma {:induction false} LastMatchWins(elements: seq<Element>, nodeLabel: string, k: nat)
    requires k < |elements| && elements[k].name == nodeLabel
    requires forall j | k < j < |elements| :: elements[j].name != nodeLabel
    ensures LastMatchRange(elements, nodeLabel) == RangeOf(elements[k])
  {
    if k < |elements| - 1 {
      LastMatchWins(elements[..|elements| - 1], nodeLabel, k);
    }
  }

  /** A range found is the range of some element carrying the label. */
  lemma {:induction false} FoundRangeIsAMatch(elements: seq<Element>, nodeLabel: string)
    requires LastMatchRange(elements, nodeLabel).Some?
    ensures exists k | 0 <= k < |elements| ::
      elements[k].name == nodeLabel && RangeOf(elements[k]) == LastMatchRange(elements, nodeLabel)
  {
    var n := |elements|;
    if elements[n - 1].name != nodeLabel {
      var front := elements[..n - 1];
      FoundRangeIsAMatch(front, nodeLabel);
      var k :| 0 <= k < |front| && front[k].name == nodeLabel && RangeOf(front[k]) == LastMatchRange(front, nodeLabel);
      assert elements[k] == front[k];
    }
  }

  /** A later element carrying the label but lacking a syntax node hides
      every earlier match. */
  lemma LaterMatchWithoutNodeHides(elements: seq<Element>, nodeLabel: string, k: nat)
    requires k < |elements| && elements[k].name == nodeLabel && elements[k].cst.None?
    requires forall j | k < j < |elements| :: elements[j].name != nodeLabel
    ensures LastMatchRange(elements, nodeLabel) == None
  {
    LastMatchWins(elements, nodeLabel, k);
  }
}
