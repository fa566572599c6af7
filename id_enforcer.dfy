/** The ID-consistency engine of the STPA language server: after an edit it
    finds the aspect whose element list the edit touched, decides which
    elements must be renamed to `prefix + position` and in which order, asks
    the rename service for the edits of each rename, and merges them into one
    list of text edits.

    The parse of the document and the rename service are collaborators given
    by value: `StpaServices` carries the document store and the rename
    provider, both as functions. */
module IdEnforcer {
  import opened Wrappers
  import opened Text
  import opened StpaModel

  // =====================================================================
  // Collaborators
  // =====================================================================

  datatype RenameParams = RenameParams(textDocument: string, position: Position, newName: string)

  /** An LSP workspace edit: per document URI, the edits to apply. */
  datatype WorkspaceEdit = WorkspaceEdit(changes: Option<map<string, seq<TextEdit>>>)

  /** The rename provider: the edits that rename the symbol at a position,
      declaration and references, or nothing. */
  type RenameService = (Document, RenameParams) -> Option<WorkspaceEdit>

  /** The services the enforcer is built with: the document store
      (`getOrCreateDocument`) and the rename provider. */
  datatype StpaServices = StpaServices(documents: string -> Document, rename: RenameService)

  /** One content change of an editor change event: where it starts and
      the text inserted (empty for a pure deletion). */
  datatype Change = Change(rangeOffset: int, text: string)

  // =====================================================================
  // Aspect lookup (findModifiedAspect)
  // =====================================================================

  /** How far before its first element an aspect's region starts. */
  const SubtractOffset: int := 5

  /** An aspect boundary: an offset, or `Number.MAX_VALUE`. */
  datatype Bound = At(value: int) | MaxValue

  /** JavaScript truthiness of a boundary: only the number 0 is falsy. */
  predicate Truthy(b: Bound) {
    b.MaxValue? || b.value != 0
  }

  /** `x < b` */
  predicate Below(x: int, b: Bound) {
    b.MaxValue? || x < b.value
  }

  /** `x > b` */
  predicate Above(x: int, b: Bound) {
    b.At? && x > b.value
  }

  /** `a <= b` */
  predicate Le(a: Bound, b: Bound) {
    b.MaxValue? || (a.At? && a.value <= b.value)
  }

  /** `list.length !== 0 && list[0].$cstNode?.offset`: the offset of the
      first entry when there is one, it has a syntax node and the offset is
      not the falsy 0. */
  function Anchor(elements: seq<Element>): Option<int>
  {
    if |elements| != 0 && elements[0].cst.Some? && elements[0].cst.value.offset != 0
    then Some(elements[0].cst.value.offset) else None
  }

  function GroupAnchor(groups: seq<Group>): Option<int>
  {
    if |groups| != 0 && groups[0].cst.Some? && groups[0].cst.value.offset != 0
    then Some(groups[0].cst.value.offset) else None
  }

  /** The UCA aspect is anchored by the first rule, else by the first UCA block. */
  function UcaAnchor(m: Model): Option<int>
  {
    if GroupAnchor(m.rules).Some? then GroupAnchor(m.rules) else GroupAnchor(m.allUCAs)
  }

  /** An anchored aspect starts 5 before its anchor; an unanchored one
      inherits the next aspect's boundary. */
  function BoundFrom(anchor: Option<int>, next: Bound): Bound
  {
    if anchor.Some? then At(anchor.value - SubtractOffset) else next
  }

  datatype Boundaries = Boundaries(
    hazard: Bound, constraint: Bound, responsibilities: Bound, uca: Bound,
    ucaConstraint: Bound, scenario: Bound, safetyCons: Bound)

  /** The seven boundaries, computed from the last aspect backwards. */
  function ComputeBoundaries(m: Model): Boundaries
  {
    var safetyCons := BoundFrom(Anchor(m.safetyCons), MaxValue);
    var scenario := BoundFrom(Anchor(m.scenarios), safetyCons);
    var ucaConstraint := BoundFrom(Anchor(m.controllerConstraints), scenario);
    var uca := BoundFrom(GroupAnchor(m.rules), BoundFrom(GroupAnchor(m.allUCAs), ucaConstraint));
    var responsibilities := BoundFrom(GroupAnchor(m.responsibilities), uca);
    var constraint := BoundFrom(Anchor(m.systemLevelConstraints), responsibilities);
    var hazard := BoundFrom(Anchor(m.hazards), constraint);
    Boundaries(hazard, constraint, responsibilities, uca, ucaConstraint, scenario, safetyCons)
  }

  /** The boundaries in chain order: hazards, system-level constraints,
      responsibilities, UCAs, controller constraints, scenarios, safety
      constraints. */
  function BoundList(b: Boundaries): seq<Bound>
  {
    [b.hazard, b.constraint, b.responsibilities, b.uca, b.ucaConstraint, b.scenario, b.safetyCons]
  }

  /** The anchors in the same chain order. */
  function Anchors(m: Model): seq<Option<int>>
  {
    [Anchor(m.hazards), Anchor(m.systemLevelConstraints), GroupAnchor(m.responsibilities),
     UcaAnchor(m), Anchor(m.controllerConstraints), Anchor(m.scenarios), Anchor(m.safetyCons)]
  }

  /** `if (!hazardOffset || !constraintOffset || ...) return undefined` */
  predicate AllTruthy(b: Boundaries) {
    && Truthy(b.hazard) && Truthy(b.constraint) && Truthy(b.responsibilities) && Truthy(b.uca)
    && Truthy(b.ucaConstraint) && Truthy(b.scenario) && Truthy(b.safetyCons)
  }

  datatype ModifiedAspect = ModifiedAspect(elements: seq<Element>, prefix: string)

  /** The UCA aspect's elements: every UCA, then every rule context. */
  function UcaElements(m: Model): seq<Element>
  {
    Children(m.allUCAs) + Children(m.rules)
  }

  /** Every element that some branch of the lookup can hand out. */
  function AspectCandidates(m: Model): seq<Element>
  {
    m.losses + m.hazards + m.systemLevelConstraints + Children(m.responsibilities)
    + UcaElements(m) + m.controllerConstraints + m.scenarios
  }

  /** The aspects the lookup can select, in the order of its branches. */
  function Branches(m: Model): seq<ModifiedAspect>
  {
    [ModifiedAspect(m.losses, "L"), ModifiedAspect(m.hazards, "H"),
     ModifiedAspect(m.systemLevelConstraints, "SC"), ModifiedAspect(Children(m.responsibilities), "R"),
     ModifiedAspect(UcaElements(m), "UCA"), ModifiedAspect(m.controllerConstraints, "C"),
     ModifiedAspect(m.scenarios, "Scenario")]
  }

  /** The element list and prefix of the aspect an edit at `offset` falls in.
      `None` when some boundary is falsy; an empty list with prefix "" when
      no branch of the strict comparisons applies. */
  function FindModifiedAspect(m: Model, offset: int): (r: Option<ModifiedAspect>)
    ensures r.None? <==> !AllTruthy(ComputeBoundaries(m))
    ensures r.Some? ==> r.value in Branches(m) || r.value == ModifiedAspect([], "")
    ensures r.Some? ==> forall e | e in r.value.elements :: e in AspectCandidates(m)
  {
    var b := ComputeBoundaries(m);
    if !AllTruthy(b) then
      None
    else if Below(offset, b.hazard) then
      Some(ModifiedAspect(m.losses, "L"))
    else if Below(offset, b.constraint) && Above(offset, b.hazard) then
      Some(ModifiedAspect(m.hazards, "H"))
    else if Below(offset, b.responsibilities) && Above(offset, b.constraint) then
      Some(ModifiedAspect(m.systemLevelConstraints, "SC"))
    else if Below(offset, b.uca) && Above(offset, b.responsibilities) then
      Some(ModifiedAspect(Children(m.responsibilities), "R"))
    else if Below(offset, b.ucaConstraint) && Above(offset, b.uca) then
      Some(ModifiedAspect(UcaElements(m), "UCA"))
    else if Below(offset, b.scenario) && Above(offset, b.ucaConstraint) then
      Some(ModifiedAspect(m.controllerConstraints, "C"))
    else if Below(offset, b.safetyCons) && Above(offset, b.scenario) then
      Some(ModifiedAspect(m.scenarios, "Scenario"))
    else
      Some(ModifiedAspect([], ""))
  }

  // ---------------------------------------------------------------------
  // An independent account of the boundaries: boundary k is 5 before the
  // first anchor at or after position k, or MAX_VALUE if there is none.
  // ---------------------------------------------------------------------

  function Chain(anchors: seq<Option<int>>): (r: seq<Bound>)
    ensures |r| == |anchors|
  {
    if |anchors| == 0 then []
    else
      var rest := Chain(anchors[1..]);
      [BoundFrom(anchors[0], if |rest| == 0 then MaxValue else rest[0])] + rest
  }

  /** Boundary k of the chain: anchor k's bound, falling back on boundary
      k+1, or on MAX_VALUE for the last one. */
  lemma {:induction false} ChainAt(a: seq<Option<int>>, k: nat)
    requires k < |a|
    ensures Chain(a)[k] == BoundFrom(a[k], if k == |a| - 1 then MaxValue else Chain(a)[k + 1])
  {
    var c, rest := Chain(a), Chain(a[1..]);
    assert c == [BoundFrom(a[0], if |rest| == 0 then MaxValue else rest[0])] + rest;
    if k > 0 {
      ChainAt(a[1..], k - 1);
      assert a[1..][k - 1] == a[k];
    }
  }

  lemma BoundListIsChain(m: Model)
    ensures BoundList(ComputeBoundaries(m)) == Chain(Anchors(m))
  {
    var a, b := Anchors(m), ComputeBoundaries(m);
    var c := Chain(a);
    ChainAt(a, 6);
    ChainAt(a, 5);
    ChainAt(a, 4);
    ChainAt(a, 3);
    ChainAt(a, 2);
    ChainAt(a, 1);
    ChainAt(a, 0);
    assert b.uca == BoundFrom(a[3], b.ucaConstraint);
    forall k | 0 <= k < 7 ensures BoundList(b)[k] == c[k] {
    }
  }

  /** Anchors that are defined appear in increasing document order. */
  predicate Ordered(anchors: seq<Option<int>>) {
    forall i, j | 0 <= i < j < |anchors| && anchors[i].Some? && anchors[j].Some? ::
      anchors[i].value <= anchors[j].value
  }

  predicate Monotone(bs: seq<Bound>) {
    forall i, j | 0 <= i < j < |bs| :: Le(bs[i], bs[j])
  }

  lemma {:induction false} ChainAboveLowerBound(anchors: seq<Option<int>>, v: int)
    requires forall p | 0 <= p < |anchors| && anchors[p].Some? :: v <= anchors[p].value
    ensures forall k | 0 <= k < |anchors| :: Le(At(v - SubtractOffset), Chain(anchors)[k])
  {
    if |anchors| > 0 {
      ChainAboveLowerBound(anchors[1..], v);
      var c := Chain(anchors);
      assert c[1..] == Chain(anchors[1..]);
    }
  }

  lemma {:induction false} ChainMonotone(anchors: seq<Option<int>>)
    requires Ordered(anchors)
    ensures Monotone(Chain(anchors))
  {
    if |anchors| > 0 {
      var rest := anchors[1..];
      assert Ordered(rest) by {
        forall i, j | 0 <= i < j < |rest| && rest[i].Some? && rest[j].Some?
          ensures rest[i].value <= rest[j].value
        {
          assert rest[i] == anchors[i + 1] && rest[j] == anchors[j + 1];
        }
      }
      ChainMonotone(rest);
      var c, cr := Chain(anchors), Chain(rest);
      assert c[1..] == cr;
      if anchors[0].Some? {
        forall p | 0 <= p < |rest| && rest[p].Some?
          ensures anchors[0].value <= rest[p].value
        {
          assert rest[p] == anchors[p + 1];
        }
        ChainAboveLowerBound(rest, anchors[0].value);
      }
      forall i, j | 0 <= i < j < |c| ensures Le(c[i], c[j]) {
        if i > 0 {
          assert c[i] == cr[i - 1] && c[j] == cr[j - 1];
        } else if anchors[0].None? {
          assert c[0] == cr[0];
          if j > 1 { assert c[j] == cr[j - 1]; }
        } else {
          assert c[j] == cr[j - 1];
        }
      }
    }
  }

  /** With anchors in document order, the boundaries never decrease along
      the chain. */
  lemma BoundariesMonotone(m: Model)
    requires Ordered(Anchors(m))
    ensures Monotone(BoundList(ComputeBoundaries(m)))
  {
    BoundListIsChain(m);
    ChainMonotone(Anchors(m));
  }

  /** How many boundaries, from the front of the chain, lie below `offset`. */
  function BoundsBelow(bs: seq<Bound>, offset: int): (c: nat)
    ensures c <= |bs|
  {
    if |bs| == 0 then 0 else if Above(offset, bs[0]) then 1 + BoundsBelow(bs[1..], offset) else 0
  }

  lemma {:induction false} BoundsBelowPrefix(bs: seq<Bound>, offset: int)
    ensures forall k | 0 <= k < BoundsBelow(bs, offset) :: Above(offset, bs[k])
    ensures BoundsBelow(bs, offset) < |bs| ==> !Above(offset, bs[BoundsBelow(bs, offset)])
  {
    if |bs| > 0 && Above(offset, bs[0]) {
      BoundsBelowPrefix(bs[1..], offset);
      forall k | 0 < k < BoundsBelow(bs, offset) ensures Above(offset, bs[k]) {
        assert bs[k] == bs[1..][k - 1];
      }
    }
  }

  /** The boundaries in a monotone chain that lie below an offset which is
      on none of them form a prefix; all later ones lie above it. */
  lemma BoundsBelowSplit(bs: seq<Bound>, offset: int)
    requires Monotone(bs)
    requires forall k | 0 <= k < |bs| :: bs[k] != At(offset)
    ensures forall k | 0 <= k < |bs| :: (k < BoundsBelow(bs, offset) ==> Above(offset, bs[k]))
    ensures forall k | 0 <= k < |bs| :: (k >= BoundsBelow(bs, offset) ==> Below(offset, bs[k]))
  {
    BoundsBelowPrefix(bs, offset);
    var c := BoundsBelow(bs, offset);
    if c < |bs| {
      assert Below(offset, bs[c]);
      forall k | c < k < |bs| ensures Below(offset, bs[k]) {
        assert Le(bs[c], bs[k]);
      }
    }
  }

  /** The lookup selects branch `c` once the boundaries before it lie below
      the offset and boundary `c` lies above it. */
  lemma SelectsBranch(m: Model, offset: int, c: nat)
    requires AllTruthy(ComputeBoundaries(m)) && c <= 7
    requires forall j | 0 <= j < c :: Above(offset, BoundList(ComputeBoundaries(m))[j])
    requires c < 7 ==> Below(offset, BoundList(ComputeBoundaries(m))[c])
    ensures FindModifiedAspect(m, offset) == Some(if c < 7 then Branches(m)[c] else ModifiedAspect([], ""))
  {
    var b, bs := ComputeBoundaries(m), BoundList(ComputeBoundaries(m));
    if c > 0 { assert Above(offset, bs[0]); }
    if c > 1 { assert Above(offset, bs[1]); }
    if c > 2 { assert Above(offset, bs[2]); }
    if c > 3 { assert Above(offset, bs[3]); }
    if c > 4 { assert Above(offset, bs[4]); }
    if c > 5 { assert Above(offset, bs[5]); }
    if c > 6 { assert Above(offset, bs[6]); }
  }

  /** The lookup selects no branch when the offset is in none of the strict
      intervals. */
  lemma SelectsNoBranch(m: Model, offset: int)
    requires AllTruthy(ComputeBoundaries(m))
    requires !Below(offset, BoundList(ComputeBoundaries(m))[0])
    requires forall i | 1 <= i < 7 ::
      !Above(offset, BoundList(ComputeBoundaries(m))[i - 1]) || !Below(offset, BoundList(ComputeBoundaries(m))[i])
    ensures FindModifiedAspect(m, offset) == Some(ModifiedAspect([], ""))
  {
    var bs := BoundList(ComputeBoundaries(m));
    assert !Above(offset, bs[0]) || !Below(offset, bs[1]);
    assert !Above(offset, bs[1]) || !Below(offset, bs[2]);
    assert !Above(offset, bs[2]) || !Below(offset, bs[3]);
    assert !Above(offset, bs[3]) || !Below(offset, bs[4]);
    assert !Above(offset, bs[4]) || !Below(offset, bs[5]);
    assert !Above(offset, bs[5]) || !Below(offset, bs[6]);
  }

  /** With monotone, truthy boundaries and an offset on none of them, the
      lookup selects the aspect whose number is the count of boundaries
      below the offset (losses when none is), and nothing past the last. */
  lemma FindModifiedAspectPartition(m: Model, offset: int)
    requires AllTruthy(ComputeBoundaries(m))
    requires Monotone(BoundList(ComputeBoundaries(m)))
    requires forall k | 0 <= k < 7 :: BoundList(ComputeBoundaries(m))[k] != At(offset)
    ensures var c := BoundsBelow(BoundList(ComputeBoundaries(m)), offset);
      FindModifiedAspect(m, offset) == Some(if c < 7 then Branches(m)[c] else ModifiedAspect([], ""))
  {
    var bs := BoundList(ComputeBoundaries(m));
    BoundsBelowSplit(bs, offset);
    SelectsBranch(m, offset, BoundsBelow(bs, offset));
  }

  /** An offset exactly on a boundary matches no branch. */
  lemma FindModifiedAspectOnBoundary(m: Model, offset: int, k: nat)
    requires AllTruthy(ComputeBoundaries(m))
    requires Monotone(BoundList(ComputeBoundaries(m)))
    requires k < 7 && BoundList(ComputeBoundaries(m))[k] == At(offset)
    ensures FindModifiedAspect(m, offset) == Some(ModifiedAspect([], ""))
  {
    var bs := BoundList(ComputeBoundaries(m));
    forall j | 0 <= j < 7 ensures (j <= k ==> !Below(offset, bs[j])) && (j >= k ==> !Above(offset, bs[j])) {
      if j < k { assert Le(bs[j], bs[k]); }
      if j > k { assert Le(bs[k], bs[j]); }
    }
    SelectsNoBranch(m, offset);
  }

  /** An offset past the safety-constraints boundary matches no branch. */
  lemma FindModifiedAspectPastLast(m: Model, offset: int)
    requires AllTruthy(ComputeBoundaries(m))
    requires Monotone(BoundList(ComputeBoundaries(m)))
    requires Above(offset, ComputeBoundaries(m).safetyCons)
    ensures FindModifiedAspect(m, offset) == Some(ModifiedAspect([], ""))
  {
    var bs := BoundList(ComputeBoundaries(m));
    forall j | 0 <= j < 7 ensures Above(offset, bs[j]) {
      assert Le(bs[j], bs[6]);
    }
    SelectsBranch(m, offset, 7);
  }

  /** An aspect without an anchor shares its boundary with the next aspect,
      so its strict interval is empty and it is never selected. */
  lemma UnanchoredAspectNeverSelected(m: Model, offset: int)
    ensures var r := FindModifiedAspect(m, offset);
      r.Some? ==>
        && (r.value.prefix == "H" ==> Anchor(m.hazards).Some?)
        && (r.value.prefix == "SC" ==> Anchor(m.systemLevelConstraints).Some?)
        && (r.value.prefix == "R" ==> GroupAnchor(m.responsibilities).Some?)
        && (r.value.prefix == "UCA" ==> UcaAnchor(m).Some?)
        && (r.value.prefix == "C" ==> Anchor(m.controllerConstraints).Some?)
        && (r.value.prefix == "Scenario" ==> Anchor(m.scenarios).Some?)
  {
    UnanchoredHazardsNeverSelected(m, offset);
    UnanchoredConstraintsNeverSelected(m, offset);
    UnanchoredResponsibilitiesNeverSelected(m, offset);
    UnanchoredUcasNeverSelected(m, offset);
    UnanchoredControllerConstraintsNeverSelected(m, offset);
    UnanchoredScenariosNeverSelected(m, offset);
  }

  lemma UnanchoredHazardsNeverSelected(m: Model, offset: int)
    ensures var r := FindModifiedAspect(m, offset);
      r.Some? && r.value.prefix == "H" ==> Anchor(m.hazards).Some?
  {
  }

  lemma UnanchoredConstraintsNeverSelected(m: Model, offset: int)
    ensures var r := FindModifiedAspect(m, offset);
      r.Some? && r.value.prefix == "SC" ==> Anchor(m.systemLevelConstraints).Some?
  {
  }

  lemma UnanchoredResponsibilitiesNeverSelected(m: Model, offset: int)
    ensures var r := FindModifiedAspect(m, offset);
      r.Some? && r.value.prefix == "R" ==> GroupAnchor(m.responsibilities).Some?
  {
  }

  lemma UnanchoredUcasNeverSelected(m: Model, offset: int)
    ensures var r := FindModifiedAspect(m, offset);
      r.Some? && r.value.prefix == "UCA" ==> UcaAnchor(m).Some?
  {
  }

  lemma UnanchoredControllerConstraintsNeverSelected(m: Model, offset: int)
    ensures var r := FindModifiedAspect(m, offset);
      r.Some? && r.value.prefix == "C" ==> Anchor(m.controllerConstraints).Some?
  {
  }

  lemma UnanchoredScenariosNeverSelected(m: Model, offset: int)
    ensures var r := FindModifiedAspect(m, offset);
      r.Some? && r.value.prefix == "Scenario" ==> Anchor(m.scenarios).Some?
  {
  }

  // =====================================================================
  // The element after the edit (findIndex)
  // =====================================================================

  predicate StartsAfter(e: Element, offset: int) {
    e.cst.Some? && e.cst.value.offset > offset
  }

  function FindIndexFrom(elements: seq<Element>, offset: int, k: nat): (r: int)
    requires k <= |elements|
    decreases |elements| - k
    ensures r == -1 || k <= r < |elements|
    ensures r >= 0 ==> StartsAfter(elements[r], offset) && forall j | k <= j < r :: !StartsAfter(elements[j], offset)
    ensures r == -1 ==> forall j | k <= j < |elements| :: !StartsAfter(elements[j], offset)
  {
    if k == |elements| then -1
    else if StartsAfter(elements[k], offset) then k
    else FindIndexFrom(elements, offset, k + 1)
  }

  /** `elements.findIndex(e => e.$cstNode && e.$cstNode.offset > offset)`:
      the first element starting after the offset, or -1. */
  function FindIndex(elements: seq<Element>, offset: int): (r: int)
    ensures -1 <= r < |elements|
    ensures r >= 0 ==> StartsAfter(elements[r], offset) && forall j | 0 <= j < r :: !StartsAfter(elements[j], offset)
    ensures r == -1 <==> forall j | 0 <= j < |elements| :: !StartsAfter(elements[j], offset)
  {
    FindIndexFrom(elements, offset, 0)
  }

  // =====================================================================
  // Renaming (renameID) and the planner's steps
  // =====================================================================

  /** The edits the rename service returns for this document when asked to
      rename `element` to `newName`; nothing when there is no element, no
      syntax node, or no answer. */
  function RenameTo(rename: RenameService, doc: Document, uri: string, element: Option<Element>,
                    newName: string): seq<TextEdit>
  {
    if element.Some? && element.value.cst.Some? then
      var params := RenameParams(doc.uri, element.value.cst.value.Start(), newName);
      var edit := rename(doc, params);
      if edit.Some? && edit.value.changes.Some? && uri in edit.value.changes.value
      then edit.value.changes.value[uri] else []
    else []
  }

  /** renameID: the rename to `prefix + counter`. */
  function RenameID(rename: RenameService, doc: Document, uri: string, element: Option<Element>,
                    prefix: string, counter: nat): seq<TextEdit>
  {
    RenameTo(rename, doc, uri, element, prefix + NatToString(counter))
  }

  /** renameID contributes nothing without an element, without its syntax
      node, without an answer of the service, or without changes in it. */
  lemma RenameIDNothingWhenMissing(rename: RenameService, doc: Document, uri: string, element: Option<Element>,
                                   prefix: string, counter: nat)
    ensures element.None? || element.value.cst.None? ==> RenameID(rename, doc, uri, element, prefix, counter) == []
    ensures element.Some? && element.value.cst.Some? ==>
      var edit := rename(doc, RenameParams(doc.uri, element.value.cst.value.Start(), prefix + NatToString(counter)));
      (edit.None? || edit.value.changes.None? ==> RenameID(rename, doc, uri, element, prefix, counter) == [])
  {
  }

  /** The name token's range once its end is set to start + name length. */
  function NameRange(e: Element): Range
    requires e.cst.Some?
  {
    Range(e.cst.value.Start(), Position(e.cst.value.endLine, e.cst.value.startCharacter + |e.name|))
  }

  /** The edit that renames an element by hand, if it has a syntax node. */
  function ManualEdit(e: Element, newName: string): seq<TextEdit>
  {
    if e.cst.Some? then [TextEdit(NameRange(e), newName)] else []
  }

  /** `edits.filter(edit => edit.range.start` is not `pos`)`. */
  function DropEditsAt(edits: seq<TextEdit>, pos: Position): (r: seq<TextEdit>)
    ensures |r| <= |edits|
    ensures forall k | 0 <= k < |r| :: r[k].range.start != pos
  {
    if |edits| == 0 then []
    else (if edits[0].range.start != pos then [edits[0]] else []) + DropEditsAt(edits[1..], pos)
  }

  /** The filter keeps every edit that does not start at the position, and
      changes nothing when no edit starts there. */
  lemma {:induction false} DropEditsAtKeepsOthers(edits: seq<TextEdit>, pos: Position)
    ensures forall e :: e in DropEditsAt(edits, pos) <==> e in edits && e.range.start != pos
    ensures (forall k | 0 <= k < |edits| :: edits[k].range.start != pos) ==> DropEditsAt(edits, pos) == edits
  {
    if |edits| > 0 {
      DropEditsAtKeepsOthers(edits[1..], pos);
      assert edits == [edits[0]] + edits[1..];
    }
  }

  /** The filter keeps the order: filtering a concatenation filters each
      part and concatenates the results. */
  lemma {:induction false} DropEditsAtAppend(a: seq<TextEdit>, b: seq<TextEdit>, pos: Position)
    ensures DropEditsAt(a + b, pos) == DropEditsAt(a, pos) + DropEditsAt(b, pos)
  {
    if |a| > 0 {
      assert (a + b)[1..] == a[1..] + b;
      DropEditsAtAppend(a[1..], b, pos);
    } else {
      assert a + b == b;
    }
  }

  /** The elements whose syntax-node end is written: those that have a node. */
  function WriteOf(e: Element): seq<Element>
  {
    if e.cst.Some? then [e] else []
  }

  /** What a run of the core produced: the edits, the elements whose node
      end was written (in order), and whether it ended in a TypeError. */
  datatype Outcome = Outcome(edits: seq<TextEdit>, writes: seq<Element>, thrown: bool)

  /** Running `b` after `a`; nothing after a throw. */
  function Then(a: Outcome, b: Outcome): (r: Outcome)
    ensures a.thrown ==> r == a
  {
    if a.thrown then a else Outcome(a.edits + b.edits, a.writes + b.writes, b.thrown)
  }

  /** One rename the planner performs: through the service, or by hand for
      an element named like the modified one (whose references are renamed
      through the service acting on the modified element). */
  datatype Step =
    | ServiceRename(target: Element, newName: string)
    | ManualRename(target: Element, newName: string, modified: Element)

  function StepOutcome(rename: RenameService, doc: Document, uri: string, s: Step): Outcome
  {
    match s
    case ServiceRename(e, name) =>
      Outcome(RenameTo(rename, doc, uri, Some(e), name), [], false)
    case ManualRename(e, name, m) =>
      var serviceEdits := RenameTo(rename, doc, uri, Some(m), name);
      var kept := if m.cst.Some? then DropEditsAt(serviceEdits, m.cst.value.Start()) else serviceEdits;
      Outcome(ManualEdit(e, name) + kept, WriteOf(e) + WriteOf(m), false)
  }

  function RunSteps(rename: RenameService, doc: Document, uri: string, steps: seq<Step>): Outcome
  {
    if |steps| == 0 then Outcome([], [], false)
    else Then(RunSteps(rename, doc, uri, steps[..|steps| - 1]),
              StepOutcome(rename, doc, uri, steps[|steps| - 1]))
  }

  /** Decrease mode: elements lo .. hi-1, lowest first, each to its position. */
  function AscendingSteps(elements: seq<Element>, prefix: string, lo: nat, hi: nat): seq<Step>
    requires hi <= |elements|
  {
    if hi <= lo then [] else AscendingSteps(elements, prefix, lo, hi - 1) + [ServiceRename(elements[hi - 1], prefix + NatToString(hi))]
  }

  function DescendingStep(elements: seq<Element>, prefix: string, i: nat, m: Element): Step
    requires i < |elements|
  {
    if elements[i].name != m.name then ServiceRename(elements[i], prefix + NatToString(i + 1))
    else ManualRename(elements[i], prefix + NatToString(i + 1), m)
  }

  /** Increase mode: the last element down to `lo`, highest first. */
  function DescendingFrom(elements: seq<Element>, prefix: string, lo: nat, m: Element): seq<Step>
    decreases |elements| - lo
  {
    if lo >= |elements| then [] else DescendingFrom(elements, prefix, lo + 1, m) + [DescendingStep(elements, prefix, lo, m)]
  }

  /** enforceIDsBelowModifiedElement: after clamping the index to 0, no
      renames when the last element is already `prefix + length`; in
      decrease mode rename from the index upward; in increase mode from the
      end downward, which throws when there is no modified element before
      the index (reading `$cstNode` of `undefined`), after the hand rename
      of the last element. */
  function PlannerOutcome(rename: RenameService, doc: Document, uri: string, index: int,
                          elements: seq<Element>, prefix: string, decrease: bool): Outcome
    requires |elements| > 0
  {
    var idx: nat := if index < 0 then 0 else index;
    var n := |elements|;
    if elements[n - 1].name == prefix + NatToString(n) then Outcome([], [], false)
    else if decrease then RunSteps(rename, doc, uri, AscendingSteps(elements, prefix, idx, n))
    else if idx >= n then Outcome([], [], false)
    else if idx == 0 then Outcome([], WriteOf(elements[n - 1]), true)
    else RunSteps(rename, doc, uri, DescendingFrom(elements, prefix, idx, elements[idx - 1]))
  }

  /** The element just before the pivot has a syntax node but is not
      named `prefix + pivot`. */
  predicate Misnamed(elements: seq<Element>, prefix: string, pivot: nat)
    requires pivot <= |elements|
  {
    pivot >= 1 && elements[pivot - 1].cst.Some? && elements[pivot - 1].name != prefix + NatToString(pivot)
  }

  /** The fix-up of the element just before the pivot, when its name is not
      `prefix + pivot`. */
  function FixUp(elements: seq<Element>, prefix: string, index: nat): Outcome
    requires index <= |elements|
  {
    if Misnamed(elements, prefix, index)
    then Outcome([TextEdit(NameRange(elements[index - 1]), prefix + NatToString(index))], [elements[index - 1]], false)
    else Outcome([], [], false)
  }

  /** The effect of one change: locate the aspect, find the pivot, plan the
      renames below it (only when some element follows the change), then the
      fix-up before it. */
  function ChangeOutcome(rename: RenameService, doc: Document, uri: string, m: Model, change: Change): Outcome
  {
    match FindModifiedAspect(m, change.rangeOffset)
    case None => Outcome([], [], false)
    case Some(a) =>
      var found := FindIndex(a.elements, change.rangeOffset);
      if found < 0 then FixUp(a.elements, a.prefix, |a.elements|)
      else Then(PlannerOutcome(rename, doc, uri, found, a.elements, a.prefix, change.text == ""),
                FixUp(a.elements, a.prefix, found))
  }

  /** A change inside an aspect: the planned renames (none when no element
      follows the change), then the fix-up. */
  lemma ChangeOutcomeOf(rename: RenameService, doc: Document, uri: string, m: Model, change: Change,
                        a: ModifiedAspect, found: int, planned: Outcome, fix: Outcome)
    requires FindModifiedAspect(m, change.rangeOffset) == Some(a)
    requires found == FindIndex(a.elements, change.rangeOffset)
    requires found >= 0 ==> planned == PlannerOutcome(rename, doc, uri, found, a.elements, a.prefix, change.text == "")
    requires found < 0 ==> planned == Outcome([], [], false)
    requires found < 0 ==> fix == FixUp(a.elements, a.prefix, |a.elements|)
    requires found >= 0 ==> found <= |a.elements| && fix == FixUp(a.elements, a.prefix, found)
    requires !planned.thrown && !fix.thrown
    ensures ChangeOutcome(rename, doc, uri, m, change) == Outcome(planned.edits + fix.edits, planned.writes + fix.writes, false)
  {
    if found < 0 {
      assert [] + fix.edits == fix.edits && [] + fix.writes == fix.writes;
    }
  }

  /** All changes in order, later edits after earlier ones. */
  function EnforceFrom(rename: RenameService, doc: Document, uri: string, m: Model, changes: seq<Change>): Outcome
  {
    if |changes| == 0 then Outcome([], [], false)
    else Then(EnforceFrom(rename, doc, uri, m, changes[..|changes| - 1]),
              ChangeOutcome(rename, doc, uri, m, changes[|changes| - 1]))
  }

  predicate HasParseErrors(doc: Document) {
    doc.parseResult.lexerErrors != 0 || doc.parseResult.parserErrors != 0
  }

  /** enforceIDs: nothing at all when the parse has errors. */
  function EnforceOutcome(services: StpaServices, uri: string, changes: seq<Change>): (o: Outcome)
    ensures HasParseErrors(services.documents(uri)) ==> o == Outcome([], [], false)
  {
    var doc := services.documents(uri);
    if HasParseErrors(doc) then Outcome([], [], false)
    else EnforceFrom(services.rename, doc, uri, doc.parseResult.value, changes)
  }

  function ToResult(o: Outcome): Result<seq<TextEdit>, Error>
  {
    if o.thrown then Failure(TypeError("$cstNode")) else Success(o.edits)
  }

  /** A node's end character after the given writes, starting from `init`:
      the last write to the node sets it to start + that element's name
      length. */
  function EndAfter(node: CstNode, writes: seq<Element>, init: int): int
  {
    if |writes| == 0 then init
    else if writes[|writes| - 1].cst == Some(node) then node.startCharacter + |writes[|writes| - 1].name|
    else EndAfter(node, writes[..|writes| - 1], init)
  }

  // =====================================================================
  // Properties of the planner and the driver
  // =====================================================================

  lemma {:induction false} EndAfterAppend(node: CstNode, w1: seq<Element>, w2: seq<Element>, init: int)
    ensures EndAfter(node, w1 + w2, init) == EndAfter(node, w2, EndAfter(node, w1, init))
  {
    if |w2| == 0 {
      assert w1 + w2 == w1;
    } else {
      assert (w1 + w2)[..|w1 + w2| - 1] == w1 + w2[..|w2| - 1];
      EndAfterAppend(node, w1, w2[..|w2| - 1], init);
    }
  }

  lemma {:induction false} EndAfterUntouched(node: CstNode, writes: seq<Element>, init: int)
    requires forall k | 0 <= k < |writes| :: writes[k].cst != Some(node)
    ensures EndAfter(node, writes, init) == init
  {
    if |writes| > 0 {
      EndAfterUntouched(node, writes[..|writes| - 1], init);
    }
  }

  /** Decrease mode asks for the renames lo .. hi-1 in ascending order, each
      element to its own 1-based position. */
  lemma {:induction false} AscendingStepsOrder(elements: seq<Element>, prefix: string, lo: nat, hi: nat)
    requires lo <= hi <= |elements|
    ensures |AscendingSteps(elements, prefix, lo, hi)| == hi - lo
    ensures forall k | 0 <= k < hi - lo :: AscendingSteps(elements, prefix, lo, hi)[k]
                                         == ServiceRename(elements[lo + k], prefix + NatToString(lo + k + 1))
  {
    if lo < hi {
      AscendingStepsOrder(elements, prefix, lo, hi - 1);
      var front := AscendingSteps(elements, prefix, lo, hi - 1);
      var last := ServiceRename(elements[hi - 1], prefix + NatToString(hi));
      assert AscendingSteps(elements, prefix, lo, hi) == front + [last];
      forall k | 0 <= k < hi - lo
        ensures AscendingSteps(elements, prefix, lo, hi)[k] == ServiceRename(elements[lo + k], prefix + NatToString(lo + k + 1))
      {
        if k < hi - 1 - lo {
          assert (front + [last])[k] == front[k];
        } else {
          assert lo + k + 1 == hi;
        }
      }
    }
  }

  /** Increase mode visits the last element first and `lo` last; step k
      renames element n-1-k to position n-k, by hand exactly when it is
      named like the modified element. */
  lemma {:induction false} DescendingFromOrder(elements: seq<Element>, prefix: string, lo: nat, m: Element)
    requires lo <= |elements|
    decreases |elements| - lo
    ensures |DescendingFrom(elements, prefix, lo, m)| == |elements| - lo
    ensures forall k | 0 <= k < |elements| - lo ::
      var s := DescendingFrom(elements, prefix, lo, m)[k];
      && s.target == elements[|elements| - 1 - k]
      && s.newName == prefix + NatToString(|elements| - k)
      && (s.ManualRename? <==> elements[|elements| - 1 - k].name == m.name)
      && (s.ManualRename? ==> s.modified == m)
  {
    DescendingFromLength(elements, prefix, lo, m);
    forall k | 0 <= k < |elements| - lo
      ensures var s := DescendingFrom(elements, prefix, lo, m)[k];
        && s.target == elements[|elements| - 1 - k]
        && s.newName == prefix + NatToString(|elements| - k)
        && (s.ManualRename? <==> elements[|elements| - 1 - k].name == m.name)
        && (s.ManualRename? ==> s.modified == m)
    {
      DescendingFromAt(elements, prefix, lo, m, k);
      var i := |elements| - 1 - k;
      assert i + 1 == |elements| - k;
    }
  }

  /** A negative index behaves as index 0. */
  lemma PlannerClampsNegativeIndex(rename: RenameService, doc: Document, uri: string, index: int,
                                   elements: seq<Element>, prefix: string, decrease: bool)
    requires |elements| > 0 && index < 0
    ensures PlannerOutcome(rename, doc, uri, index, elements, prefix, decrease)
         == PlannerOutcome(rename, doc, uri, 0, elements, prefix, decrease)
  {
  }

  /** An aspect whose last element is already `prefix + length` is left alone. */
  lemma PlannerFastExit(rename: RenameService, doc: Document, uri: string, index: int,
                        elements: seq<Element>, prefix: string, decrease: bool)
    requires |elements| > 0 && elements[|elements| - 1].name == prefix + NatToString(|elements|)
    ensures PlannerOutcome(rename, doc, uri, index, elements, prefix, decrease) == Outcome([], [], false)
  {
  }

  /** A hand rename replaces exactly the element's name token with the new
      name, and keeps no service edit starting at the modified element's
      name start. */
  lemma ManualRenameEdits(rename: RenameService, doc: Document, uri: string,
                          e: Element, name: string, m: Element)
    requires e.cst.Some? && m.cst.Some?
    ensures var o := StepOutcome(rename, doc, uri, ManualRename(e, name, m));
      && |o.edits| >= 1
      && o.edits[0] == TextEdit(Range(e.cst.value.Start(),
                                      Position(e.cst.value.endLine, e.cst.value.startCharacter + |e.name|)),
                                name)
      && (forall k | 1 <= k < |o.edits| :: o.edits[k].range.start != m.cst.value.Start())
      && o.writes == [e, m]
  {
    var o := StepOutcome(rename, doc, uri, ManualRename(e, name, m));
    var kept := DropEditsAt(RenameTo(rename, doc, uri, Some(m), name), m.cst.value.Start());
    assert o.edits == [TextEdit(NameRange(e), name)] + kept;
    forall k | 1 <= k < |o.edits| ensures o.edits[k].range.start != m.cst.value.Start() {
      assert o.edits[k] == kept[k - 1];
    }
  }

  /** Every element whose node the planner writes is one of its elements. */
  lemma {:induction false} RunStepsWritesFrom(rename: RenameService, doc: Document, uri: string, steps: seq<Step>, elements: seq<Element>)
    requires StepsWithin(steps, elements)
    ensures var o := RunSteps(rename, doc, uri, steps);
      !o.thrown && forall k | 0 <= k < |o.writes| :: o.writes[k].cst.Some? && o.writes[k].cst.value in NodesOf(elements)
  {
    if |steps| > 0 {
      RunStepsWritesFrom(rename, doc, uri, steps[..|steps| - 1], elements);
    }
  }

  /** Every element a step touches is one of the given elements. */
  predicate StepsWithin(steps: seq<Step>, elements: seq<Element>) {
    forall k | 0 <= k < |steps| :: steps[k].target in elements && (steps[k].ManualRename? ==> steps[k].modified in elements)
  }

  lemma {:induction false} AscendingStepsWithin(elements: seq<Element>, prefix: string, lo: nat, hi: nat)
    requires hi <= |elements|
    ensures StepsWithin(AscendingSteps(elements, prefix, lo, hi), elements)
  {
    if lo < hi {
      AscendingStepsWithin(elements, prefix, lo, hi - 1);
    }
  }

  lemma {:induction false} DescendingFromWithin(elements: seq<Element>, prefix: string, lo: nat, m: Element)
    requires m in elements
    decreases |elements| - lo
    ensures StepsWithin(DescendingFrom(elements, prefix, lo, m), elements)
  {
    if lo < |elements| {
      DescendingFromWithin(elements, prefix, lo + 1, m);
    }
  }

  lemma PlannerWritesFrom(rename: RenameService, doc: Document, uri: string, index: int,
                          elements: seq<Element>, prefix: string, decrease: bool)
    requires |elements| > 0
    ensures var o := PlannerOutcome(rename, doc, uri, index, elements, prefix, decrease);
      forall k | 0 <= k < |o.writes| :: o.writes[k].cst.Some? && o.writes[k].cst.value in NodesOf(elements)
  {
    var idx: nat := if index < 0 then 0 else index;
    var n := |elements|;
    if decrease {
      if idx <= n {
        AscendingStepsWithin(elements, prefix, idx, n);
        RunStepsWritesFrom(rename, doc, uri, AscendingSteps(elements, prefix, idx, n), elements);
      }
    } else if 0 < idx < n {
      DescendingFromWithin(elements, prefix, idx, elements[idx - 1]);
      RunStepsWritesFrom(rename, doc, uri, DescendingFrom(elements, prefix, idx, elements[idx - 1]), elements);
    }
  }

  /** The edits of earlier changes come first, unchanged, in the result. */
  lemma {:induction false} EnforceFromPrefix(rename: RenameService, doc: Document, uri: string, m: Model,
                                             changes: seq<Change>, k: nat)
    requires k <= |changes|
    requires !EnforceFrom(rename, doc, uri, m, changes).thrown
    ensures !EnforceFrom(rename, doc, uri, m, changes[..k]).thrown
    ensures EnforceFrom(rename, doc, uri, m, changes[..k]).edits <= EnforceFrom(rename, doc, uri, m, changes).edits
  {
    if k < |changes| {
      var front := changes[..|changes| - 1];
      assert changes[..k] == front[..k];
      EnforceFromPrefix(rename, doc, uri, m, front, k);
    } else {
      assert changes[..k] == changes;
    }
  }

  /** When no element starts after the change there are no planner edits:
      at most the fix-up of the last element. */
  lemma ChangeAfterLastElement(rename: RenameService, doc: Document, uri: string, m: Model, change: Change)
    requires FindModifiedAspect(m, change.rangeOffset).Some?
    requires var a := FindModifiedAspect(m, change.rangeOffset).value;
      forall j | 0 <= j < |a.elements| :: !StartsAfter(a.elements[j], change.rangeOffset)
    ensures var a := FindModifiedAspect(m, change.rangeOffset).value;
      ChangeOutcome(rename, doc, uri, m, change) == FixUp(a.elements, a.prefix, |a.elements|)
  {
  }

  /** One change inside an aspect, seen whole. The pivot is the first
      element after the change, or the end of the list. Only the planner
      may throw. Without a throw, the change ends by renaming the element
      before the pivot to `prefix + pivot` and writing its node exactly
      when that element is misnamed; otherwise it is the planner's work
      alone, and nothing at all when no element follows the change. */
  lemma ChangeEndsWithFixUp(rename: RenameService, doc: Document, uri: string, m: Model, change: Change)
    requires FindModifiedAspect(m, change.rangeOffset).Some?
    ensures var a := FindModifiedAspect(m, change.rangeOffset).value;
      var found := FindIndex(a.elements, change.rangeOffset);
      var pivot := if found < 0 then |a.elements| else found;
      var o := ChangeOutcome(rename, doc, uri, m, change);
      && (o.thrown ==> found >= 0 && PlannerOutcome(rename, doc, uri, found, a.elements, a.prefix, change.text == "").thrown)
      && (!o.thrown && Misnamed(a.elements, a.prefix, pivot) ==>
            && |o.edits| > 0 && o.edits[|o.edits| - 1] == TextEdit(NameRange(a.elements[pivot - 1]), a.prefix + NatToString(pivot))
            && |o.writes| > 0 && o.writes[|o.writes| - 1] == a.elements[pivot - 1])
      && (!Misnamed(a.elements, a.prefix, pivot) && found < 0 ==> o == Outcome([], [], false))
      && (!Misnamed(a.elements, a.prefix, pivot) && found >= 0 ==>
            o == PlannerOutcome(rename, doc, uri, found, a.elements, a.prefix, change.text == ""))
  {
    var a := FindModifiedAspect(m, change.rangeOffset).value;
    var found := FindIndex(a.elements, change.rangeOffset);
    if found >= 0 {
      var planned := PlannerOutcome(rename, doc, uri, found, a.elements, a.prefix, change.text == "");
      assert planned.edits + [] == planned.edits && planned.writes + [] == planned.writes;
    }
  }

  // ---------------------------------------------------------------------
  // The two worked examples of the renumbering
  // ---------------------------------------------------------------------

  /** Hazards H1, H3, H4 after H2 was deleted: with the pivot at H3, H3 is
      renamed to H2 and H4 to H3, in that order; H1 is untouched. */
  lemma DeletionExample(rename: RenameService, doc: Document, uri: string, n1: CstNode, n3: CstNode, n4: CstNode)
    ensures var h1, h3, h4 := Element("H1", Some(n1), []), Element("H3", Some(n3), []), Element("H4", Some(n4), []);
      && AscendingSteps([h1, h3, h4], "H", 1, 3) == [ServiceRename(h3, "H2"), ServiceRename(h4, "H3")]
      && PlannerOutcome(rename, doc, uri, 1, [h1, h3, h4], "H", true)
         == RunSteps(rename, doc, uri, [ServiceRename(h3, "H2"), ServiceRename(h4, "H3")])
  {
    var h1, h3, h4 := Element("H1", Some(n1), []), Element("H3", Some(n3), []), Element("H4", Some(n4), []);
    assert "H" + NatToString(2) == "H2" && "H" + NatToString(3) == "H3";
    AscendingStepsOrder([h1, h3, h4], "H", 1, 3);
  }

  /** A new hazard typed between H1 and H2, parsed as a second H2: the old
      H3 is renamed to H4 through the service, the old H2 is renamed to H3
      by hand while the service renames the references of the new H2's
      name to H3, and the new element keeps H2. */
  lemma InsertionCollisionExample(rename: RenameService, doc: Document, uri: string,
                                  n1: CstNode, nNew: CstNode, nOld: CstNode, n3: CstNode)
    ensures var h1, hNew, hOld, h3 := Element("H1", Some(n1), []), Element("H2", Some(nNew), []),
                                      Element("H2", Some(nOld), []), Element("H3", Some(n3), []);
      && DescendingFrom([h1, hNew, hOld, h3], "H", 2, hNew) == [ServiceRename(h3, "H4"), ManualRename(hOld, "H3", hNew)]
      && PlannerOutcome(rename, doc, uri, 2, [h1, hNew, hOld, h3], "H", false)
         == RunSteps(rename, doc, uri, [ServiceRename(h3, "H4"), ManualRename(hOld, "H3", hNew)])
      && FixUp([h1, hNew, hOld, h3], "H", 2) == Outcome([], [], false)
  {
    var h1, hNew, hOld, h3 := Element("H1", Some(n1), []), Element("H2", Some(nNew), []),
                              Element("H2", Some(nOld), []), Element("H3", Some(n3), []);
    InsertionCollisionSteps(h1, hNew, hOld, h3);
    assert "H" + NatToString(2) == "H2" && "H" + NatToString(4) == "H4";
  }

  lemma InsertionCollisionSteps(h1: Element, hNew: Element, hOld: Element, h3: Element)
    requires h3.name == "H3" && hOld.name == "H2" && hNew.name == "H2"
    ensures DescendingFrom([h1, hNew, hOld, h3], "H", 2, hNew) == [ServiceRename(h3, "H4"), ManualRename(hOld, "H3", hNew)]
  {
    var es := [h1, hNew, hOld, h3];
    assert "H" + NatToString(3) == "H3" && "H" + NatToString(4) == "H4";
    assert DescendingStep(es, "H", 3, hNew) == ServiceRename(h3, "H4");
    assert DescendingStep(es, "H", 2, hNew) == ManualRename(hOld, "H3", hNew);
    assert DescendingFrom(es, "H", 4, hNew) == [];
    assert DescendingFrom(es, "H", 3, hNew) == [ServiceRename(h3, "H4")];
  }

  // =====================================================================
  // The enforcer object
  // =====================================================================

  lemma NodesOfSubset(small: seq<Element>, big: seq<Element>)
    requires forall e | e in small :: e in big
    ensures NodesOf(small) <= NodesOf(big)
  {
  }

  class IdEnforcer {
    const stpaServices: StpaServices

    /** The document, and its URI, whose IDs are being enforced; unset
        until the first call of EnforceIDs. */
    var currentUri: Option<string>
    var currentDocument: Option<Document>

    constructor (stpaServices: StpaServices)
      ensures this.stpaServices == stpaServices
      ensures currentUri == None && currentDocument == None
    {
      this.stpaServices := stpaServices;
      currentUri := None;
      currentDocument := None;
    }

    /** The text edits that restore `prefix + position` names in the aspects
        the changes touched; the syntax nodes of edited elements get their
        range end set to start + name length. */
    method EnforceIDs(changes: seq<Change>, uri: string) returns (r: Result<seq<TextEdit>, Error>)
      modifies this, NodesOf(AspectCandidates(stpaServices.documents(uri).parseResult.value))
      ensures currentUri == Some(uri) && currentDocument == Some(stpaServices.documents(uri))
      ensures r == ToResult(EnforceOutcome(stpaServices, uri, changes))
      ensures forall nd | nd in NodesOf(AspectCandidates(stpaServices.documents(uri).parseResult.value)) ::
        nd.endCharacter == EndAfter(nd, EnforceOutcome(stpaServices, uri, changes).writes, old(nd.endCharacter))
    {
      currentUri := Some(uri);
      currentDocument := Some(stpaServices.documents(uri));
      var doc := stpaServices.documents(uri);
      var model := doc.parseResult.value;
      if doc.parseResult.lexerErrors != 0 || doc.parseResult.parserErrors != 0 {
        return Success([]);
      }
      ghost var all := NodesOf(AspectCandidates(model));
      var edits: seq<TextEdit> := [];
      ghost var writes: seq<Element> := [];
      var k := 0;
      while k < |changes|
        invariant 0 <= k <= |changes|
        invariant currentUri == Some(uri) && currentDocument == Some(doc)
        invariant EnforceFrom(stpaServices.rename, doc, uri, model, changes[..k]) == Outcome(edits, writes, false)
        invariant forall nd | nd in all :: nd.endCharacter == EndAfter(nd, writes, old(nd.endCharacter))
      {
        assert changes[..k + 1][..k] == changes[..k];
        ghost var co := ChangeOutcome(stpaServices.rename, doc, uri, model, changes[k]);
        var changeEdits := EnforceChange(model, changes[k]);
        forall nd | nd in all
          ensures nd.endCharacter == EndAfter(nd, writes + co.writes, old(nd.endCharacter))
        {
          EndAfterAppend(nd, writes, co.writes, old(nd.endCharacter));
        }
        if changeEdits.Failure? {
          EnforceFromThrown(stpaServices.rename, doc, uri, model, changes, k + 1);
          return changeEdits;
        }
        edits := edits + changeEdits.value;
        writes := writes + co.writes;
        k := k + 1;
      }
      assert changes[..k] == changes;
      r := Success(edits);
    }

    /** The body of the loop over the content changes: the renames below
        the element after the change, then the fix-up of the element before
        it. */
    method EnforceChange(model: Model, change: Change) returns (r: Result<seq<TextEdit>, Error>)
      requires currentDocument.Some? && currentUri.Some?
      requires model == currentDocument.value.parseResult.value
      modifies NodesOf(AspectCandidates(model))
      ensures var o := ChangeOutcome(stpaServices.rename, currentDocument.value, currentUri.value, model, change);
        && r == ToResult(o)
        && forall nd | nd in NodesOf(AspectCandidates(model)) ::
             nd.endCharacter == EndAfter(nd, o.writes, old(nd.endCharacter))
    {
      var doc, uri := currentDocument.value, currentUri.value;
      var modifiedOffset := change.rangeOffset;
      var modifiedAspect := FindModifiedAspect(model, modifiedOffset);
      if modifiedAspect.None? {
        return Success([]);
      }
      ghost var all := NodesOf(AspectCandidates(model));
      var elements := modifiedAspect.value.elements;
      var prefix := modifiedAspect.value.prefix;
      NodesOfSubset(elements, AspectCandidates(model));
      var edits: seq<TextEdit> := [];
      var index := FindIndex(elements, modifiedOffset);
      ghost var planned := Outcome([], [], false);
      ghost var found := index;
      if index < 0 {
        index := |elements|;
      } else {
        planned := PlannerOutcome(stpaServices.rename, doc, uri, index, elements, prefix, change.text == "");
        PlannerWritesFrom(stpaServices.rename, doc, uri, index, elements, prefix, change.text == "");
        var belowEdits := EnforceIDsBelowModifiedElement(index, elements, prefix, change.text == "");
        forall nd | nd in all
          ensures nd.endCharacter == EndAfter(nd, planned.writes, old(nd.endCharacter))
        {
          if nd !in NodesOf(elements) {
            EndAfterUntouched(nd, planned.writes, old(nd.endCharacter));
          }
        }
        if belowEdits.Failure? {
          return belowEdits;
        }
        edits := belowEdits.value;
      }
      ghost var fix := FixUp(elements, prefix, index);
      var fixEdits := FixUpBeforePivot(elements, prefix, index);
      edits := edits + fixEdits;
      forall nd | nd in all
        ensures nd.endCharacter == EndAfter(nd, planned.writes + fix.writes, old(nd.endCharacter))
      {
        EndAfterAppend(nd, planned.writes, fix.writes, old(nd.endCharacter));
        if nd !in NodesOf(elements) {
          EndAfterUntouched(nd, fix.writes, EndAfter(nd, planned.writes, old(nd.endCharacter)));
        }
      }
      ChangeOutcomeOf(stpaServices.rename, doc, uri, model, change, modifiedAspect.value, found, planned, fix);
      r := Success(edits);
    }

    /** The fix-up after the planner: the element just before the pivot gets
        `prefix + index` by hand, when it has a syntax node and another name. */
    method FixUpBeforePivot(elements: seq<Element>, prefix: string, index: nat) returns (edits: seq<TextEdit>)
      requires index <= |elements|
      modifies NodesOf(elements)
      ensures Outcome(edits, FixUp(elements, prefix, index).writes, false) == FixUp(elements, prefix, index)
      ensures forall nd | nd in NodesOf(elements) ::
        nd.endCharacter == EndAfter(nd, FixUp(elements, prefix, index).writes, old(nd.endCharacter))
    {
      edits := [];
      if index >= 1 && elements[index - 1].cst.Some? && elements[index - 1].name != prefix + NatToString(index) {
        var modifiedElement := elements[index - 1];
        var node := modifiedElement.cst.value;
        node.endCharacter := node.startCharacter + |modifiedElement.name|;
        edits := [TextEdit(node.CurrentRange(), prefix + NatToString(index))];
        forall nd | nd in NodesOf(elements)
          ensures nd.endCharacter == EndAfter(nd, [modifiedElement], old(nd.endCharacter))
        {
          assert [] + [modifiedElement] == [modifiedElement];
          EndAfterSnoc(nd, [], modifiedElement, old(nd.endCharacter));
        }
      }
    }

    /** Renames the elements from `index` on to `prefix + position`, in
        ascending order when `decrease`, descending otherwise. */
    method EnforceIDsBelowModifiedElement(index: int, elements: seq<Element>, prefix: string, decrease: bool)
      returns (r: Result<seq<TextEdit>, Error>)
      requires |elements| > 0
      requires currentDocument.Some? && currentUri.Some?
      modifies NodesOf(elements)
      ensures var o := PlannerOutcome(stpaServices.rename, currentDocument.value, currentUri.value,
                                      index, elements, prefix, decrease);
        && r == ToResult(o)
        && forall nd | nd in NodesOf(elements) :: nd.endCharacter == EndAfter(nd, o.writes, old(nd.endCharacter))
    {
      var idx: nat := if index < 0 then 0 else index;
      var n := |elements|;
      if elements[n - 1].name == prefix + NatToString(n) {
        return Success([]);
      }
      if decrease {
        var edits := RenameUpward(idx, elements, prefix);
        r := Success(edits);
      } else if idx >= n {
        r := Success([]);
      } else {
        r := RenameDownward(idx, elements, prefix);
      }
    }

    /** Decrease mode: each element from `idx` on, lowest first, is renamed
        through the service to its own position. */
    method RenameUpward(idx: nat, elements: seq<Element>, prefix: string) returns (edits: seq<TextEdit>)
      requires currentDocument.Some? && currentUri.Some?
      ensures Outcome(edits, [], false)
           == RunSteps(stpaServices.rename, currentDocument.value, currentUri.value,
                       AscendingSteps(elements, prefix, idx, |elements|))
    {
      var rename, doc, uri := stpaServices.rename, currentDocument.value, currentUri.value;
      var n := |elements|;
      edits := [];
      var i := idx;
      while i < n
        invariant idx <= i && (i <= n || i == idx)
        invariant i <= n ==> RunSteps(rename, doc, uri, AscendingSteps(elements, prefix, idx, i)) == Outcome(edits, [], false)
        invariant i > n ==> edits == []
      {
        AscendingStepRecorded(rename, doc, uri, elements, prefix, idx, i, edits);
        var renameEdits := RenameID(rename, doc, uri, Some(elements[i]), prefix, i + 1);
        edits := edits + renameEdits;
        i := i + 1;
      }
      if i > n {
        assert AscendingSteps(elements, prefix, idx, n) == [];
      }
    }

    /** Increase mode: from the last element down to `idx`, each element is
        renamed to its position by `RenameStep`. With no modified element
        (idx 0) the first, hand, rename ends in a TypeError. */
    method RenameDownward(idx: nat, elements: seq<Element>, prefix: string) returns (r: Result<seq<TextEdit>, Error>)
      requires idx < |elements|
      requires currentDocument.Some? && currentUri.Some?
      modifies NodesOf(elements)
      ensures var o := if idx == 0 then Outcome([], WriteOf(elements[|elements| - 1]), true)
                       else RunSteps(stpaServices.rename, currentDocument.value, currentUri.value,
                                     DescendingFrom(elements, prefix, idx, elements[idx - 1]));
        && r == ToResult(o)
        && forall nd | nd in NodesOf(elements) :: nd.endCharacter == EndAfter(nd, o.writes, old(nd.endCharacter))
    {
      var n := |elements|;
      if idx == 0 {
        // modifiedElement is undefined: the element is renamed by hand, then
        // reading `modifiedElement.$cstNode` throws
        var elementToRename := elements[n - 1];
        SetNameEnd(elementToRename);
        forall nd | nd in NodesOf(elements)
          ensures nd.endCharacter == EndAfter(nd, WriteOf(elementToRename), old(nd.endCharacter))
        {
          EndAfterSingle(nd, elementToRename, old(nd.endCharacter));
        }
        return Failure(TypeError("$cstNode"));
      }
      var edits := RenameDescending(idx, elements, prefix);
      r := Success(edits);
    }

    /** The loop of increase mode, from the last element down to `idx`,
        with `elements[idx - 1]` as the modified element. */
    method RenameDescending(idx: nat, elements: seq<Element>, prefix: string) returns (edits: seq<TextEdit>)
      requires 0 < idx < |elements|
      requires currentDocument.Some? && currentUri.Some?
      modifies NodesOf(elements)
      ensures var o := RunSteps(stpaServices.rename, currentDocument.value, currentUri.value,
                                DescendingFrom(elements, prefix, idx, elements[idx - 1]));
        && Outcome(edits, o.writes, o.thrown) == o && !o.thrown
        && forall nd | nd in NodesOf(elements) :: nd.endCharacter == EndAfter(nd, o.writes, old(nd.endCharacter))
    {
      var rename, doc, uri := stpaServices.rename, currentDocument.value, currentUri.value;
      var n := |elements|;
      var modifiedElement := elements[idx - 1];
      ghost var steps := DescendingFrom(elements, prefix, idx, modifiedElement);
      DescendingFromLength(elements, prefix, idx, modifiedElement);
      ghost var start := Ends(NodesOf(elements));
      edits := [];
      ghost var writes: seq<Element> := [];
      var i := n - 1;
      while i >= idx
        invariant idx - 1 <= i <= n - 1
        invariant RunSteps(rename, doc, uri, steps[..n - 1 - i]) == Outcome(edits, writes, false)
        invariant EndsAfter(NodesOf(elements), writes, start)
      {
        ghost var so := StepOutcome(rename, doc, uri, DescendingStep(elements, prefix, i, modifiedElement));
        var stepEdits := RenameStep(i, elements, modifiedElement, prefix, writes, start);
        DescendingStepRecorded(rename, doc, uri, prefix, elements, idx, modifiedElement, i, edits, writes);
        edits := edits + stepEdits;
        writes := writes + so.writes;
        i := i - 1;
      }
      assert steps[..n - 1 - i] == steps;
    }

    /** One step of increase mode: an element named unlike the modified one
        is renamed through the service; one named like it by hand. */
    method RenameStep(i: nat, elements: seq<Element>, modified: Element, prefix: string,
                      ghost writes: seq<Element>, ghost start: map<CstNode, int>)
      returns (edits: seq<TextEdit>)
      requires i < |elements| && modified in elements
      requires currentDocument.Some? && currentUri.Some?
      requires EndsAfter(NodesOf(elements), writes, start)
      modifies NodesOf(elements)
      ensures var so := StepOutcome(stpaServices.rename, currentDocument.value, currentUri.value,
                                    DescendingStep(elements, prefix, i, modified));
        && edits == so.edits
        && EndsAfter(NodesOf(elements), writes + so.writes, start)
    {
      var rename, doc, uri := stpaServices.rename, currentDocument.value, currentUri.value;
      var elementToRename := elements[i];
      if elementToRename.name != modified.name {
        edits := RenameID(rename, doc, uri, Some(elementToRename), prefix, i + 1);
        assert writes + [] == writes;
      } else {
        NodesOfSubset([elementToRename, modified], elements);
        ghost var ws := WriteOf(elementToRename) + WriteOf(modified);
        edits := RenameByHand(elementToRename, i + 1, modified, prefix);
        forall nd | nd in NodesOf(elements)
          ensures nd in start && nd.endCharacter == EndAfter(nd, writes + ws, start[nd])
        {
          if nd !in NodesOf([elementToRename, modified]) {
            EndAfterUntouched(nd, ws, old(nd.endCharacter));
          }
          EndAfterAppend(nd, writes, ws, start[nd]);
        }
      }
    }

    /** The hand rename of `target`, named like `modified`: its name token
        becomes `prefix + counter`, and the service renames the references
        of `modified`, minus any edit at the modified element's own name. */
    method RenameByHand(target: Element, counter: nat, modified: Element, prefix: string)
      returns (edits: seq<TextEdit>)
      requires currentDocument.Some? && currentUri.Some?
      modifies NodesOf([target, modified])
      ensures Outcome(edits, WriteOf(target) + WriteOf(modified), false)
           == StepOutcome(stpaServices.rename, currentDocument.value, currentUri.value,
                          ManualRename(target, prefix + NatToString(counter), modified))
      ensures forall nd | nd in NodesOf([target, modified]) ::
        nd.endCharacter == EndAfter(nd, WriteOf(target) + WriteOf(modified), old(nd.endCharacter))
    {
      var rename, doc, uri := stpaServices.rename, currentDocument.value, currentUri.value;
      SetNameEnd(target);
      edits := [];
      if target.cst.Some? {
        edits := [TextEdit(target.cst.value.CurrentRange(), prefix + NatToString(counter))];
      }
      label renamed:
      var renameEdits := RenameID(rename, doc, uri, Some(modified), prefix, counter);
      SetNameEnd(modified);
      if modified.cst.Some? {
        renameEdits := DropEditsAt(renameEdits, modified.cst.value.Start());
      }
      edits := edits + renameEdits;
      forall nd | nd in NodesOf([target, modified])
        ensures nd.endCharacter == EndAfter(nd, WriteOf(target) + WriteOf(modified), old(nd.endCharacter))
      {
        EndAfterPair(nd, target, modified, old(nd.endCharacter));
        if modified.cst != Some(nd) {
          assert nd.endCharacter == old@renamed(nd.endCharacter);
        }
      }
    }
  }

  /** The end characters of the given nodes in the current heap. */
  function Ends(nodes: set<CstNode>): (r: map<CstNode, int>)
    reads nodes
    ensures r.Keys == nodes && forall nd | nd in nodes :: r[nd] == nd.endCharacter
  {
    map nd | nd in nodes :: nd.endCharacter
  }

  /** Each of the nodes ends where the writes, applied after `start`, put it. */
  ghost predicate EndsAfter(nodes: set<CstNode>, writes: seq<Element>, start: map<CstNode, int>)
    reads nodes
  {
    forall nd | nd in nodes :: nd in start && nd.endCharacter == EndAfter(nd, writes, start[nd])
  }

  /** Sets the end of the element's name token to start + name length, as
      each rename by hand does before it reads the node's range. */
  method SetNameEnd(e: Element)
    modifies if e.cst.Some? then {e.cst.value} else {}
    ensures e.cst.Some? ==> e.cst.value.endCharacter == e.cst.value.startCharacter + |e.name|
  {
    if e.cst.Some? {
      var node := e.cst.value;
      node.endCharacter := node.startCharacter + |e.name|;
    }
  }

  lemma EndAfterSingle(node: CstNode, e: Element, init: int)
    ensures EndAfter(node, WriteOf(e), init) == if e.cst == Some(node) then node.startCharacter + |e.name| else init
  {
  }

  lemma EndAfterPair(node: CstNode, a: Element, b: Element, init: int)
    ensures EndAfter(node, WriteOf(a) + WriteOf(b), init)
         == if b.cst == Some(node) then node.startCharacter + |b.name|
            else if a.cst == Some(node) then node.startCharacter + |a.name|
            else init
  {
    EndAfterAppend(node, WriteOf(a), WriteOf(b), init);
  }

  lemma EndAfterSnoc(node: CstNode, writes: seq<Element>, e: Element, init: int)
    ensures EndAfter(node, writes + [e], init)
         == if e.cst == Some(node) then node.startCharacter + |e.name| else EndAfter(node, writes, init)
  {
    assert (writes + [e])[..|writes|] == writes;
  }

  /** The rename of element i extends the run of decrease mode by one. */
  lemma AscendingStepRecorded(rename: RenameService, doc: Document, uri: string,
                              elements: seq<Element>, prefix: string, lo: nat, i: nat, edits: seq<TextEdit>)
    requires lo <= i < |elements|
    requires RunSteps(rename, doc, uri, AscendingSteps(elements, prefix, lo, i)) == Outcome(edits, [], false)
    ensures RunSteps(rename, doc, uri, AscendingSteps(elements, prefix, lo, i + 1))
         == Outcome(edits + RenameID(rename, doc, uri, Some(elements[i]), prefix, i + 1), [], false)
  {
    var step := ServiceRename(elements[i], prefix + NatToString(i + 1));
    assert AscendingSteps(elements, prefix, lo, i + 1) == AscendingSteps(elements, prefix, lo, i) + [step];
    RunStepsSnoc(rename, doc, uri, AscendingSteps(elements, prefix, lo, i), step);
  }

  /** The step at element i extends the run of increase mode by one. */
  lemma DescendingStepRecorded(rename: RenameService, doc: Document, uri: string, prefix: string,
                               elements: seq<Element>, lo: nat, m: Element, i: nat,
                               edits: seq<TextEdit>, writes: seq<Element>)
    requires lo <= i < |elements|
    requires |DescendingFrom(elements, prefix, lo, m)| == |elements| - lo
    requires RunSteps(rename, doc, uri, DescendingFrom(elements, prefix, lo, m)[..|elements| - 1 - i])
          == Outcome(edits, writes, false)
    ensures var so := StepOutcome(rename, doc, uri, DescendingStep(elements, prefix, i, m));
      RunSteps(rename, doc, uri, DescendingFrom(elements, prefix, lo, m)[..|elements| - i])
        == Outcome(edits + so.edits, writes + so.writes, false)
  {
    var steps := DescendingFrom(elements, prefix, lo, m);
    var k := |elements| - 1 - i;
    var s := DescendingStep(elements, prefix, i, m);
    DescendingFromAt(elements, prefix, lo, m, k);
    assert steps[k] == s;
    RunStepsPrefixSnoc(rename, doc, uri, steps, k);
    var so := StepOutcome(rename, doc, uri, s);
    StepNeverThrows(rename, doc, uri, s);
    assert Then(Outcome(edits, writes, false), so) == Outcome(edits + so.edits, writes + so.writes, false);
  }

  lemma StepNeverThrows(rename: RenameService, doc: Document, uri: string, s: Step)
    ensures !StepOutcome(rename, doc, uri, s).thrown
  {
  }

  lemma RunStepsPrefixSnoc(rename: RenameService, doc: Document, uri: string, steps: seq<Step>, k: nat)
    requires k < |steps|
    ensures RunSteps(rename, doc, uri, steps[..k + 1])
         == Then(RunSteps(rename, doc, uri, steps[..k]), StepOutcome(rename, doc, uri, steps[k]))
  {
    assert steps[..k + 1][..k] == steps[..k];
  }

  lemma {:induction false} DescendingFromLength(elements: seq<Element>, prefix: string, lo: nat, m: Element)
    requires lo <= |elements|
    decreases |elements| - lo
    ensures |DescendingFrom(elements, prefix, lo, m)| == |elements| - lo
  {
    if lo < |elements| {
      DescendingFromLength(elements, prefix, lo + 1, m);
    }
  }

  /** Step k of increase mode is the step at element n-1-k. */
  lemma {:induction false} DescendingFromAt(elements: seq<Element>, prefix: string, lo: nat, m: Element, k: nat)
    requires lo <= |elements| && k < |elements| - lo
    decreases |elements| - lo
    ensures |DescendingFrom(elements, prefix, lo, m)| == |elements| - lo
    ensures DescendingFrom(elements, prefix, lo, m)[k] == DescendingStep(elements, prefix, |elements| - 1 - k, m)
  {
    DescendingFromLength(elements, prefix, lo + 1, m);
    if k < |elements| - lo - 1 {
      DescendingFromAt(elements, prefix, lo + 1, m, k);
    }
  }

  lemma RunStepsSnoc(rename: RenameService, doc: Document, uri: string, steps: seq<Step>, s: Step)
    ensures RunSteps(rename, doc, uri, steps + [s])
         == Then(RunSteps(rename, doc, uri, steps), StepOutcome(rename, doc, uri, s))
  {
    assert (steps + [s])[..|steps|] == steps;
  }

  lemma {:induction false} EnforceFromThrown(rename: RenameService, doc: Document, uri: string, m: Model,
                                             changes: seq<Change>, k: nat)
    requires k <= |changes|
    requires EnforceFrom(rename, doc, uri, m, changes[..k]).thrown
    ensures EnforceFrom(rename, doc, uri, m, changes) == EnforceFrom(rename, doc, uri, m, changes[..k])
  {
    if k < |changes| {
      var front := changes[..|changes| - 1];
      assert changes[..k] == front[..k];
      EnforceFromThrown(rename, doc, uri, m, front, k);
    } else {
      assert changes[..k] == changes;
    }
  }
}
