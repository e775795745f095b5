/** An abstract document: elements reduced to the parts the reactive view
    helpers touch (class set, tab index, disabled flag, text content, children). */
module Dom {
  import opened Common

  /** A CSS class as the class-name generator composes it: a block, an
      optional element name and an optional modifier. */
  datatype ClassName = ClassName(block: string, element: Option<string>, modifier: Option<string>)

  type ElemId = nat

  /** A child node: a text node, a `<br>` element, or another element. */
  datatype Node = TextNode(data: string) | BrElement | ElementNode(id: ElemId)

  datatype Element = Element(
    classes: set<ClassName>,
    tabIndex: int,
    disabled: bool,
    textContent: string,
    children: seq<Node>)

  /** A freshly created element. */
  function EmptyElement(): Element
  {
    Element({}, 0, false, "", [])
  }

  type DomState = map<ElemId, Element>

  /** A change to the document, as a view callback makes it. */
  type DomUpdate = DomState -> DomState

  /** Changes element `id` by `f`, leaving every other element as it was. */
  function UpdateElement(d: DomState, id: ElemId, f: Element -> Element): (r: DomState)
    ensures r.Keys == d.Keys
    ensures id in d ==> r[id] == f(d[id])
    ensures forall k :: k in d && k != id ==> r[k] == d[k]
  {
    if id in d then d[id := f(d[id])] else d
  }

  /** `classList.add`. */
  function AddClass(e: Element, cn: ClassName): (r: Element)
    ensures r.classes == e.classes + {cn}
    ensures r.(classes := e.classes) == e
  {
    e.(classes := e.classes + {cn})
  }

  /** `classList.remove`. */
  function RemoveClass(e: Element, cn: ClassName): (r: Element)
    ensures r.classes == e.classes - {cn}
    ensures r.(classes := e.classes) == e
  {
    e.(classes := e.classes - {cn})
  }

  /** `parent.appendChild(child)`. */
  function AppendChild(parent: ElemId, child: Node): DomUpdate
  {
    (d: DomState) => UpdateElement(d, parent, (e: Element) => e.(children := e.children + [child]))
  }

  /** One observable part of an element. */
  datatype Field = HasClass(name: ClassName) | TabIndex | Disabled | TextContent | Children

  datatype FieldValue = BoolValue(b: bool) | IntValue(i: int) | TextValue(s: string) | NodesValue(nodes: seq<Node>)

  function FieldOf(e: Element, f: Field): FieldValue
  {
    match f
    case HasClass(cn) => BoolValue(cn in e.classes)
    case TabIndex => IntValue(e.tabIndex)
    case Disabled => BoolValue(e.disabled)
    case TextContent => TextValue(e.textContent)
    case Children => NodesValue(e.children)
  }

  /** The document: its elements and the next identity to hand out. */
  class Document {
    var elements: DomState
    var nextId: ElemId

    ghost predicate Valid()
      reads this
    {
      forall id :: id in elements ==> id < nextId
    }

    constructor ()
      ensures Valid() && elements == map[]
    {
      elements := map[];
      nextId := 0;
    }

    /** `createElement`: a new, empty element with an identity not in use. */
    method CreateElement() returns (id: ElemId)
      requires Valid()
      modifies this
      ensures Valid()
      ensures id !in old(elements) && elements == old(elements)[id := EmptyElement()]
    {
      id := nextId;
      elements := elements[id := EmptyElement()];
      nextId := nextId + 1;
    }

    /** Performs a document update. */
    method Apply(u: DomUpdate)
      modifies this`elements
      ensures elements == u(old(elements))
    {
      elements := u(elements);
    }
  }
}
