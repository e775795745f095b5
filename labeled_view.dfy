/** The labeled view: a row whose label text is split into lines separated
    by `<br>` elements, and whose `nol` modifier marks a row without a label. */
module Labeled {
  import opened Common
  import opened Dom
  import opened Model
  import opened Reactive

  /** Number of line feeds in `s`. */
  function CountNewlines(s: string): nat
  {
    if s == [] then 0 else (if s[0] == '\n' then 1 else 0) + CountNewlines(s[1..])
  }

  /** `s.split('\n')`: the pieces between line feeds, empty ones included. */
  function Split(s: string): (r: seq<string>)
    ensures |r| == CountNewlines(s) + 1
    ensures forall i :: 0 <= i < |r| ==> '\n' !in r[i]
  {
    if s == [] then [""]
    else
      var rest := Split(s[1..]);
      if s[0] == '\n' then [""] + rest
      else [[s[0]] + rest[0]] + rest[1..]
  }

  /** `lines.join('\n')`. */
  function Join(lines: seq<string>): string
    requires |lines| >= 1
  {
    if |lines| == 1 then lines[0] else lines[0] + "\n" + Join(lines[1..])
  }

  /** Joining the pieces of a split gives back the string. */
  lemma {:induction false} JoinSplit(s: string)
    ensures Join(Split(s)) == s
  {
    if s != [] {
      var rest := Split(s[1..]);
      JoinSplit(s[1..]);
      if s[0] != '\n' && |rest| > 1 {
        assert Join(rest) == rest[0] + "\n" + Join(rest[1..]);
        assert Split(s)[1..] == rest[1..];
      }
    }
  }

  /** Splitting a string that starts with a line-feed-free piece `a`. */
  lemma {:induction false} SplitPrefix(a: string, b: string)
    requires '\n' !in a
    ensures Split(a + b) == [a + Split(b)[0]] + Split(b)[1..]
  {
    if a != [] {
      SplitPrefix(a[1..], b);
      assert (a + b)[1..] == a[1..] + b;
      assert [a[0]] + (a[1..] + Split(b)[0]) == a + Split(b)[0];
    } else {
      assert a + b == b;
      assert a + Split(b)[0] == Split(b)[0];
      assert Split(b) == [Split(b)[0]] + Split(b)[1..];
    }
  }

  /** Splitting the join of line-feed-free pieces gives back the pieces. */
  lemma {:induction false} SplitJoin(lines: seq<string>)
    requires |lines| >= 1
    requires forall i :: 0 <= i < |lines| ==> '\n' !in lines[i]
    ensures Split(Join(lines)) == lines
  {
    if |lines| == 1 {
      SplitPrefix(lines[0], "");
      assert lines[0] + "" == lines[0];
    } else {
      var tail := Join(lines[1..]);
      SplitJoin(lines[1..]);
      SplitPrefix(lines[0], "\n" + tail);
      assert ("\n" + tail)[1..] == tail;
      assert lines[0] + "\n" + tail == lines[0] + ("\n" + tail);
      assert lines[0] + "" == lines[0];
    }
  }

  /** The fragment for the given lines: a text node per line, with one `<br>`
      before every line but the first. */
  function LineNodes(lines: seq<string>): seq<Node>
    requires |lines| >= 1
  {
    if |lines| == 1 then [TextNode(lines[0])]
    else [TextNode(lines[0]), BrElement] + LineNodes(lines[1..])
  }

  /** `createLabelNode`: one text node per line of the label, one `<br>` per
      line feed, and the fragment reads back as the label; an empty label
      gives one empty text node. */
  function CreateLabelNode(text: string): (r: seq<Node>)
    ensures Texts(r) == Split(text)
    ensures BrCount(r) == CountNewlines(text)
    ensures Flatten(r) == text
    ensures text == "" ==> r == [TextNode("")]
  {
    LineNodesTexts(Split(text));
    FlattenLineNodes(Split(text));
    JoinSplit(text);
    LineNodes(Split(text))
  }

  /** The text of a fragment: text nodes give their data, `<br>` a line feed. */
  function Flatten(nodes: seq<Node>): string
  {
    if nodes == [] then ""
    else
      (match nodes[0]
       case TextNode(t) => t
       case BrElement => "\n"
       case ElementNode(_) => "") + Flatten(nodes[1..])
  }

  /** The data of the text nodes of a fragment, in order. */
  function Texts(nodes: seq<Node>): seq<string>
  {
    if nodes == [] then []
    else (if nodes[0].TextNode? then [nodes[0].data] else []) + Texts(nodes[1..])
  }

  /** The number of `<br>` elements in a fragment. */
  function BrCount(nodes: seq<Node>): nat
  {
    if nodes == [] then 0 else (if nodes[0].BrElement? then 1 else 0) + BrCount(nodes[1..])
  }

  /** Line nodes alternate text, `<br>`, text, ...: the text of line `k / 2`
      at even positions `k`, `<br>` at odd ones. */
  lemma {:induction false} LineNodesShape(lines: seq<string>)
    requires |lines| >= 1
    ensures |LineNodes(lines)| == 2 * |lines| - 1
    ensures forall k :: 0 <= k < |LineNodes(lines)| ==>
              LineNodes(lines)[k] == if k % 2 == 0 then TextNode(lines[k / 2]) else BrElement
  {
    if |lines| > 1 {
      var ns := LineNodes(lines);
      var tail := LineNodes(lines[1..]);
      LineNodesShape(lines[1..]);
      assert ns == [TextNode(lines[0]), BrElement] + tail;
      forall k | 2 <= k < |ns|
        ensures ns[k] == if k % 2 == 0 then TextNode(lines[k / 2]) else BrElement
      {
        assert ns[k] == tail[k - 2];
        assert (k - 2) % 2 == k % 2 && (k - 2) / 2 == k / 2 - 1;
      }
    }
  }

  /** Line nodes hold one text node per line, in order, and one `<br>` fewer. */
  lemma {:induction false} LineNodesTexts(lines: seq<string>)
    requires |lines| >= 1
    ensures Texts(LineNodes(lines)) == lines
    ensures BrCount(LineNodes(lines)) == |lines| - 1
  {
    if |lines| > 1 {
      var ns := LineNodes(lines);
      var tail := LineNodes(lines[1..]);
      LineNodesTexts(lines[1..]);
      assert ns[1..] == [BrElement] + tail;
      assert ns[1..][1..] == tail;
      assert lines == [lines[0]] + lines[1..];
    }
  }

  /** Reading the fragment back, with a line feed at each `<br>`, gives the joined lines. */
  lemma {:induction false} FlattenLineNodes(lines: seq<string>)
    requires |lines| >= 1
    ensures Flatten(LineNodes(lines)) == Join(lines)
  {
    if |lines| > 1 {
      var ns := LineNodes(lines);
      FlattenLineNodes(lines[1..]);
      assert ns[1..] == [BrElement] + LineNodes(lines[1..]);
      assert ns[1..][1..] == LineNodes(lines[1..]);
      assert Flatten(ns) == lines[0] + ("\n" + Flatten(LineNodes(lines[1..])));
    }
  }

  /** The label fragment alternates text and `<br>`: the `<br>` elements
      are exactly the nodes at odd positions. */
  lemma LabelNodeAlternates(text: string)
    ensures var ns := CreateLabelNode(text);
            forall k :: 0 <= k < |ns| ==> (ns[k].BrElement? <==> k % 2 == 1)
  {
    var lines := Split(text);
    var ns := LineNodes(lines);
    LineNodesShape(lines);
    forall k | 0 <= k < |ns|
      ensures ns[k].BrElement? <==> k % 2 == 1
    {
      assert ns[k] == if k % 2 == 0 then TextNode(lines[k / 2]) else BrElement;
    }
  }

  /** The label fragment has one node more than twice the number of line
      feeds and starts and ends with a text node. */
  lemma LabelNodeEnds(text: string)
    ensures |CreateLabelNode(text)| == 2 * CountNewlines(text) + 1
    ensures CreateLabelNode(text)[0].TextNode?
    ensures CreateLabelNode(text)[|CreateLabelNode(text)| - 1].TextNode?
  {
    var lines := Split(text);
    LineNodesLast(lines);
    assert CreateLabelNode(text) == LineNodes(lines);
  }

  lemma {:induction false} LineNodesLast(lines: seq<string>)
    requires |lines| >= 1
    ensures |LineNodes(lines)| == 2 * |lines| - 1
    ensures LineNodes(lines)[|LineNodes(lines)| - 1] == TextNode(lines[|lines| - 1])
  {
    if |lines| > 1 {
      LineNodesLast(lines[1..]);
    }
  }

  /** The modifier marking a row without a label. */
  function NoLabelClass(): ClassName
  {
    ClassName("lbl", None, Some("nol"))
  }

  /** The update the labeled view's label callback applies: with a label it
      drops `nol` and replaces the label element's children by the label's
      fragment; without one it adds `nol` and leaves the children alone. */
  function LabelApplier(element: ElemId, labelElement: ElemId): Option<string> -> DomUpdate
  {
    (value: Option<string>) => (d: DomState) => LabelState(d, element, labelElement, value)
  }

  /** The change handler the labeled view registers on its `label` value. */
  function LabelHandler(element: ElemId, labelElement: ElemId): Handler<Option<string>>
  {
    Compose(ExtractValue, LabelApplier(element, labelElement))
  }

  /** The document after the label callback runs on `value`: the row has
      `nol` exactly when there is no label, and with a label the label
      element's children are its fragment; nothing else changes. */
  function LabelState(d: DomState, element: ElemId, labelElement: ElemId, value: Option<string>): (r: DomState)
    ensures r.Keys == d.Keys
    ensures forall k :: k in d && k != element && k != labelElement ==> r[k] == d[k]
    ensures element in d && labelElement in d && element != labelElement ==>
              && (NoLabelClass() in r[element].classes <==> value.None?)
              && (forall c :: c != NoLabelClass() ==> (c in r[element].classes <==> c in d[element].classes))
              && r[element].children == d[element].children
              && r[labelElement].children == (if value.Some? then CreateLabelNode(value.value) else d[labelElement].children)
              && r[labelElement].classes == d[labelElement].classes
  {
    if element !in d || labelElement !in d then d
    else if value.Some? then
      d[element := RemoveClass(d[element], NoLabelClass())]
       [labelElement := d[labelElement].(children := CreateLabelNode(value.value))]
    else d[element := AddClass(d[element], NoLabelClass())]
  }

  /** One run of the label callback on document `d`. */
  lemma LabelUpdate(element: ElemId, labelElement: ElemId, value: Option<string>, d: DomState)
    requires element in d && labelElement in d && element != labelElement
    ensures var r := LabelApplier(element, labelElement)(value)(d);
            && r.Keys == d.Keys
            && (forall k :: k in d && k != element && k != labelElement ==> r[k] == d[k])
            && (value.Some? ==>
                  && r[element] == RemoveClass(d[element], NoLabelClass())
                  && r[labelElement] == d[labelElement].(children := CreateLabelNode(value.value)))
            && (value.None? ==>
                  && r[element] == AddClass(d[element], NoLabelClass())
                  && r[labelElement] == d[labelElement])
  {
  }

  /** Creates an element carrying the single class `cn`. */
  method CreateClassedElement(doc: Document, cn: ClassName) returns (id: ElemId)
    requires doc.Valid()
    modifies doc
    ensures doc.Valid()
    ensures id !in old(doc.elements)
    ensures doc.elements == old(doc.elements)[id := EmptyElement().(classes := {cn})]
  {
    id := doc.CreateElement();
    doc.Apply((d: DomState) => UpdateElement(d, id, (e: Element) => AddClass(e, cn)));
    assert EmptyElement().classes + {cn} == {cn};
  }

  /** `parent.appendChild(child)` on the document. */
  method Append(doc: Document, parent: ElemId, child: Node)
    requires parent in doc.elements
    modifies doc`elements
    ensures doc.elements == old(doc.elements)[parent := old(doc.elements)[parent].(children := old(doc.elements)[parent].children + [child])]
  {
    doc.Apply(AppendChild(parent, child));
  }

  /** The label binding: the callback is registered on the `label` value and
      run once on its current value. */
  method BindLabel(props: ValueMap<string, Option<string>>, element: ElemId, labelElement: ElemId, doc: Document)
    requires "label" in props.values
    requires element in doc.elements && labelElement in doc.elements && element != labelElement
    modifies props.values["label"], doc`elements
    ensures props.values["label"].rawValue == old(props.values["label"].rawValue)
    ensures props.values["label"].handlers
            == old(props.values["label"].handlers) + [LabelHandler(element, labelElement)]
    ensures doc.elements.Keys == old(doc.elements).Keys
    ensures forall k :: k in old(doc.elements) && k != element && k != labelElement ==> doc.elements[k] == old(doc.elements)[k]
    ensures var text := props.values["label"].rawValue;
            doc.elements[element] == if text.Some? then RemoveClass(old(doc.elements)[element], NoLabelClass())
                                     else AddClass(old(doc.elements)[element], NoLabelClass())
    ensures var text := props.values["label"].rawValue;
            doc.elements[labelElement] == if text.Some? then old(doc.elements)[labelElement].(children := CreateLabelNode(text.value))
                                          else old(doc.elements)[labelElement]
  {
    BindValueMap(props, "label", LabelApplier(element, labelElement), doc);
    LabelUpdate(element, labelElement, props.values["label"].rawValue, old(doc.elements));
  }

  /** The row element: block class `lbl`, with the view props' modifiers bound to it. */
  method CreateRow(doc: Document, viewProps: ValueMap<string, bool>) returns (el: ElemId)
    requires doc.Valid() && IsViewProps(viewProps)
    modifies doc, viewProps.values["disabled"], viewProps.values["hidden"]
    ensures doc.Valid() && el !in old(doc.elements)
    ensures viewProps.values["disabled"].rawValue == old(viewProps.values["disabled"].rawValue)
    ensures viewProps.values["hidden"].rawValue == old(viewProps.values["hidden"].rawValue)
    ensures viewProps.values["disabled"].handlers
            == old(viewProps.values["disabled"].handlers) + [Compose(ExtractValue, ValueToModifier(el, "disabled"))]
    ensures viewProps.values["hidden"].handlers
            == old(viewProps.values["hidden"].handlers) + [Compose(ExtractValue, ValueToModifier(el, "hidden"))]
    ensures doc.elements == old(doc.elements)[el := RowElement(viewProps.values["disabled"].rawValue, viewProps.values["hidden"].rawValue)]
  {
    el := CreateClassedElement(doc, ClassName("lbl", None, None));
    BindClassModifier(viewProps, el, doc);
    assert doc.elements == old(doc.elements)[el := doc.elements[el]];
  }

  /** The label element, with the label bound to it, appended to the row. */
  method CreateLabelElement(doc: Document, props: ValueMap<string, Option<string>>, el: ElemId) returns (labelElem: ElemId)
    requires doc.Valid() && el in doc.elements && "label" in props.values
    modifies doc, props.values["label"]
    ensures doc.Valid() && labelElem !in old(doc.elements)
    ensures props.values["label"].rawValue == old(props.values["label"].rawValue)
    ensures props.values["label"].handlers
            == old(props.values["label"].handlers) + [LabelHandler(el, labelElem)]
    ensures var text := props.values["label"].rawValue;
            doc.elements == old(doc.elements)[el := WithLabel(old(doc.elements)[el], text, labelElem)][labelElem := LabelElement(text)]
  {
    labelElem := CreateClassedElement(doc, ClassName("lbl", Some("l"), None));
    ghost var m1 := doc.elements;
    BindLabel(props, el, labelElem, doc);
    assert doc.elements.Keys == m1.Keys;
    assert doc.Valid();
    ghost var m2 := doc.elements;
    Append(doc, el, ElementNode(labelElem));
    assert doc.elements.Keys == m2.Keys;
    assert doc.Valid();
    ghost var target := old(doc.elements)[el := doc.elements[el]][labelElem := doc.elements[labelElem]];
    assert doc.elements.Keys == target.Keys;
    assert forall k | k in target :: doc.elements[k] == target[k];
    assert doc.elements == target;
  }

  /** The value element, appended to the row. */
  method CreateValueElement(doc: Document, el: ElemId) returns (valueElem: ElemId)
    requires doc.Valid() && el in doc.elements
    modifies doc
    ensures doc.Valid() && valueElem !in old(doc.elements)
    ensures doc.elements == old(doc.elements)[el := WithChild(old(doc.elements)[el], ElementNode(valueElem))][valueElem := ValueElement()]
  {
    valueElem := CreateClassedElement(doc, ClassName("lbl", Some("v"), None));
    Append(doc, el, ElementNode(valueElem));
  }

  /** The row once the label is bound and the label element appended. */
  function WithLabel(row: Element, text: Option<string>, labelElement: ElemId): Element
  {
    WithChild(if text.Some? then RemoveClass(row, NoLabelClass()) else AddClass(row, NoLabelClass()), ElementNode(labelElement))
  }

  /** An element with one more child at the end. */
  function WithChild(e: Element, child: Node): Element
  {
    e.(children := e.children + [child])
  }

  /** The row element right after the view props are bound to it. */
  function RowElement(disabled: bool, hidden: bool): (r: Element)
    ensures ClassName("lbl", None, None) in r.classes
    ensures ModifierClass("disabled") in r.classes <==> disabled
    ensures ModifierClass("hidden") in r.classes <==> hidden
    ensures NoLabelClass() !in r.classes
    ensures r.children == []
  {
    ApplyClass(ApplyClass(EmptyElement().(classes := {ClassName("lbl", None, None)}), ModifierClass("disabled"), disabled),
               ModifierClass("hidden"), hidden)
  }

  /** The label element once the label is bound: the label's fragment, or no children. */
  function LabelElement(text: Option<string>): Element
  {
    var l := EmptyElement().(classes := {ClassName("lbl", Some("l"), None)});
    if text.Some? then l.(children := CreateLabelNode(text.value)) else l
  }

  /** The row element of a finished labeled view: block class `lbl`, the
      view props' modifiers, `nol` exactly when there is no label, and the
      label and value elements as its children. */
  function LabeledRow(disabled: bool, hidden: bool, text: Option<string>, labelElement: ElemId, valueElement: ElemId): (r: Element)
    ensures ClassName("lbl", None, None) in r.classes
    ensures ModifierClass("disabled") in r.classes <==> disabled
    ensures ModifierClass("hidden") in r.classes <==> hidden
    ensures NoLabelClass() in r.classes <==> text.None?
    ensures r.children == [ElementNode(labelElement), ElementNode(valueElement)]
  {
    WithChild(WithLabel(RowElement(disabled, hidden), text, labelElement), ElementNode(valueElement))
  }

  /** The value element: class `lbl__v`, no children yet. */
  function ValueElement(): Element
  {
    EmptyElement().(classes := {ClassName("lbl", Some("v"), None)})
  }

  /** The three steps of the constructor, each rewriting the row, come to
      one write per element. */
  lemma RebuildRow(m: DomState, el: ElemId, le: ElemId, ve: ElemId, row: Element, labeled: Element,
                   labelElem: Element, finished: Element, valueElem: Element)
    requires el != le && el != ve && le != ve
    ensures m[el := row][el := labeled][le := labelElem][el := finished][ve := valueElem]
            == m[el := finished][le := labelElem][ve := valueElem]
  {
    var lhs := m[el := row][el := labeled][le := labelElem][el := finished][ve := valueElem];
    var rhs := m[el := finished][le := labelElem][ve := valueElem];
    assert lhs.Keys == rhs.Keys;
    assert forall k | k in lhs :: lhs[k] == rhs[k];
  }

  /** The labeled view. The label element is a local of the source's
      constructor; it is kept here so that its state can be named. */
  class LabeledView {
    const element: ElemId
    const labelElement: ElemId
    const valueElement: ElemId

    constructor (doc: Document, props: ValueMap<string, Option<string>>, viewProps: ValueMap<string, bool>)
      requires doc.Valid()
      requires "label" in props.values && IsViewProps(viewProps)
      modifies doc, props.values["label"], viewProps.values["disabled"], viewProps.values["hidden"]
      ensures doc.Valid()
      ensures element !in old(doc.elements) && labelElement !in old(doc.elements) && valueElement !in old(doc.elements)
      ensures element != labelElement && element != valueElement && labelElement != valueElement
      ensures props.values["label"].rawValue == old(props.values["label"].rawValue)
      ensures viewProps.values["disabled"].rawValue == old(viewProps.values["disabled"].rawValue)
      ensures viewProps.values["hidden"].rawValue == old(viewProps.values["hidden"].rawValue)
      ensures viewProps.values["disabled"].handlers
              == old(viewProps.values["disabled"].handlers) + [Compose(ExtractValue, ValueToModifier(element, "disabled"))]
      ensures viewProps.values["hidden"].handlers
              == old(viewProps.values["hidden"].handlers) + [Compose(ExtractValue, ValueToModifier(element, "hidden"))]
      ensures props.values["label"].handlers
              == old(props.values["label"].handlers) + [LabelHandler(element, labelElement)]
      ensures var text := props.values["label"].rawValue;
              doc.elements == old(doc.elements)
                [element := LabeledRow(viewProps.values["disabled"].rawValue, viewProps.values["hidden"].rawValue,
                                       text, labelElement, valueElement)]
                [labelElement := LabelElement(text)]
                [valueElement := ValueElement()]
    {
      ghost var m0 := doc.elements;
      var el := CreateRow(doc, viewProps);
      var labelElem := CreateLabelElement(doc, props, el);
      var valueElem := CreateValueElement(doc, el);
      RebuildRow(m0, el, labelElem, valueElem,
                 RowElement(viewProps.values["disabled"].rawValue, viewProps.values["hidden"].rawValue),
                 WithLabel(RowElement(viewProps.values["disabled"].rawValue, viewProps.values["hidden"].rawValue),
                           props.values["label"].rawValue, labelElem),
                 LabelElement(props.values["label"].rawValue),
                 LabeledRow(viewProps.values["disabled"].rawValue, viewProps.values["hidden"].rawValue,
                            props.values["label"].rawValue, labelElem, valueElem),
                 ValueElement());
      element := el;
      labelElement := labelElem;
      valueElement := valueElem;
    }
  }
}
