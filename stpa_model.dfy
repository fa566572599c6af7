/** The parsed STPA document as the language server sees it: the aspect lists
    of the `Model` produced by the parser, the elements in them (anything with
    a `name`), and the concrete-syntax-tree node that gives each element its
    position in the text. */
module StpaModel {
  import opened Wrappers

  datatype Position = Position(line: int, character: int)

  datatype Range = Range(start: Position, end: Position)

  /** An LSP text edit: replace the text in `range` by `newText`. */
  datatype TextEdit = TextEdit(range: Range, newText: string)

  /** A node of the concrete syntax tree. The offset and the start of its
      range never change; the end character of its range is written in place
      by the ID enforcer, so it is the one mutable field. */
  class CstNode {
    const offset: int
    const startLine: int
    const startCharacter: int
    const endLine: int
    var endCharacter: int

    constructor (offset: int, startLine: int, startCharacter: int, endLine: int, endCharacter: int)
      ensures this.offset == offset && this.startLine == startLine
      ensures this.startCharacter == startCharacter && this.endLine == endLine
      ensures this.endCharacter == endCharacter
    {
      this.offset := offset;
      this.startLine := startLine;
      this.startCharacter := startCharacter;
      this.endLine := endLine;
      this.endCharacter := endCharacter;
    }

    function Start(): Position {
      Position(startLine, startCharacter)
    }

    /** The node's `range` as it stands in the current heap. */
    function CurrentRange(): Range
      reads this
    {
      Range(Start(), Position(endLine, endCharacter))
    }
  }

  /** An element with a name (`elementWithName`): a loss, hazard, constraint,
      responsibility, UCA, rule context, scenario or control-structure node.
      `subComps` holds the sub-hazards or sub-constraints. */
  datatype Element = Element(name: string, cst: Option<CstNode>, subComps: seq<Element>)

  /** A container whose children are the named elements: a responsibility
      block of one system, the UCAs of one control action, or one rule with
      its contexts. */
  datatype Group = Group(cst: Option<CstNode>, children: seq<Element>)

  datatype Model = Model(
    losses: seq<Element>,
    hazards: seq<Element>,
    systemLevelConstraints: seq<Element>,
    responsibilities: seq<Group>,
    allUCAs: seq<Group>,
    rules: seq<Group>,
    controllerConstraints: seq<Element>,
    scenarios: seq<Element>,
    safetyCons: seq<Element>,
    controlStructure: Option<seq<Element>>)

  datatype ParseResult = ParseResult(value: Model, lexerErrors: nat, parserErrors: nat)

  datatype Document = Document(uri: string, parseResult: ParseResult)

  /** `groups.flatMap(g => g.children)`. */
  function Children(groups: seq<Group>): (r: seq<Element>)
    ensures forall g, e | g in groups && e in g.children :: e in r
  {
    if |groups| == 0 then [] else groups[0].children + Children(groups[1..])
  }

  /** `elements.flatMap(e => e.subComps)`. */
  function SubComponents(elements: seq<Element>): seq<Element>
  {
    if |elements| == 0 then [] else elements[0].subComps + SubComponents(elements[1..])
  }

  /** The syntax nodes of the given elements. */
  function NodesOf(elements: seq<Element>): set<CstNode>
  {
    set e | e in elements && e.cst.Some? :: e.cst.value
  }

  /** The element's current `$cstNode?.range`. */
  function RangeOf(e: Element): Option<Range>
    reads if e.cst.Some? then {e.cst.value} else {}
  {
    if e.cst.Some? then Some(e.cst.value.CurrentRange()) else None
  }
}
