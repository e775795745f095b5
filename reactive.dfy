/** Reactive view helpers: they tie observable values (view props, label
    text) to element state and keep the element in step on every change. */
module Reactive {
  import opened Common
  import opened Dom
  import opened Model

  /** `compose(h1, h2)`: first `h1`, then `h2`. */
  function Compose<A, B, C>(h1: A -> B, h2: B -> C): A -> C
  {
    (x: A) => h2(h1(x))
  }

  /** The composite runs `h1` and hands its result to `h2`. */
  lemma ComposeApplies<A, B, C>(h1: A -> B, h2: B -> C, x: A)
    ensures Compose(h1, h2)(x) == h2(h1(x))
  {
  }

  /** `extractValue`: the raw value a change event carries. */
  function ExtractValue<T>(ev: ChangeEvent<T>): (r: T)
    ensures ev == ChangeEvent(r)
  {
    ev.rawValue
  }

  /** `applyClass`: the element has `cn` exactly when `active`; no other
      class and no other part of the element changes. */
  function ApplyClass(e: Element, cn: ClassName, active: bool): (r: Element)
    ensures cn in r.classes <==> active
    ensures forall c :: c != cn ==> (c in r.classes <==> c in e.classes)
    ensures r.(classes := e.classes) == e
  {
    if active then AddClass(e, cn) else RemoveClass(e, cn)
  }

  lemma ApplyClassIdempotent(e: Element, cn: ClassName, active: bool)
    ensures ApplyClass(ApplyClass(e, cn, active), cn, active) == ApplyClass(e, cn, active)
  {
  }

  /** An update that rewrites element `id` with `write` and the new value and
      leaves the rest of the document alone; each one-element binding below
      is of this form. */
  function ElementApplier<T>(id: ElemId, write: (Element, T) -> Element): T -> DomUpdate
  {
    (value: T) => (d: DomState) => UpdateElement(d, id, (e: Element) => write(e, value))
  }

  /** `applyClass` with the class fixed. */
  function ClassSetter(cn: ClassName): (Element, bool) -> Element
  {
    (e: Element, active: bool) => ApplyClass(e, cn, active)
  }

  /** `valueToClassName`: turns a flag into `applyClass` on element `id`. */
  function ValueToClassName(id: ElemId, cn: ClassName): bool -> DomUpdate
  {
    ElementApplier(id, ClassSetter(cn))
  }

  /** The modifier class the reactive helpers toggle (block name ''). */
  function ModifierClass(modifier: string): ClassName
  {
    ClassName("", None, Some(modifier))
  }

  /** `valueToModifier`. */
  function ValueToModifier(id: ElemId, modifier: string): bool -> DomUpdate
  {
    ValueToClassName(id, ModifierClass(modifier))
  }

  /** `target.disabled = disabled`. */
  function WithDisabled(e: Element, disabled: bool): Element
  {
    e.(disabled := disabled)
  }

  /** `elem.tabIndex = disabled ? -1 : 0`. */
  function WithTabIndex(e: Element, disabled: bool): Element
  {
    e.(tabIndex := if disabled then -1 else 0)
  }

  /** The text `bindTextContent` shows: the value, or '' when it is undefined. */
  function ShownText(text: Option<string>): string
  {
    if text.Some? then text.value else ""
  }

  /** The children an element has right after its text content is set to
      `s`: none for the empty string, a single text node otherwise. */
  function TextChildren(s: string): seq<Node>
  {
    if s == "" then [] else [TextNode(s)]
  }

  /** `elem.textContent = text ?? ''`: sets the text and replaces every child
      by the text's node. */
  function WithTextContent(e: Element, text: Option<string>): Element
  {
    e.(textContent := ShownText(text), children := TextChildren(ShownText(text)))
  }

  /** The update `bindDisabled` applies. */
  function DisabledApplier(id: ElemId): bool -> DomUpdate
  {
    ElementApplier(id, WithDisabled)
  }

  /** The update `bindTabIndex` applies. */
  function TabIndexApplier(id: ElemId): bool -> DomUpdate
  {
    ElementApplier(id, WithTabIndex)
  }

  /** The update `bindTextContent` applies. */
  function TextContentApplier(id: ElemId): Option<string> -> DomUpdate
  {
    ElementApplier(id, WithTextContent)
  }

  /** The change handler `bindValue` registers runs `applyValue` on the new raw value. */
  lemma HandlerAppliesValue<T>(applyValue: T -> DomUpdate, v: T)
    ensures Compose(ExtractValue, applyValue)(ChangeEvent(v)) == applyValue(v)
  {
    assert ExtractValue(ChangeEvent(v)) == v;
  }

  /** `bindValue`: registers a change handler that applies each new raw
      value, then applies the current raw value at once. */
  method BindValue<T>(value: Value<T>, applyValue: T -> DomUpdate, doc: Document)
    modifies value`handlers, doc`elements
    ensures value.handlers == old(value.handlers) + [Compose(ExtractValue, applyValue)]
    ensures doc.elements == applyValue(value.rawValue)(old(doc.elements))
  {
    value.On(Compose(ExtractValue, applyValue));
    doc.Apply(applyValue(value.rawValue));
  }

  /** `bindValueMap`: `bindValue` on the map's value for `key`. */
  method BindValueMap<K, T>(valueMap: ValueMap<K, T>, key: K, applyValue: T -> DomUpdate, doc: Document)
    requires key in valueMap.values
    modifies valueMap.values[key], doc`elements
    ensures valueMap.values[key].rawValue == old(valueMap.values[key].rawValue)
    ensures valueMap.values[key].handlers == old(valueMap.values[key].handlers) + [Compose(ExtractValue, applyValue)]
    ensures doc.elements == applyValue(valueMap.values[key].rawValue)(old(doc.elements))
  {
    BindValue(valueMap.values[key], applyValue, doc);
  }

  /** View props: a value map with distinct `disabled` and `hidden` flags. */
  predicate IsViewProps(viewProps: ValueMap<string, bool>)
  {
    "disabled" in viewProps.values && "hidden" in viewProps.values
    && viewProps.values["disabled"] != viewProps.values["hidden"]
  }

  /** `bindClassModifier`: the element's `disabled` and `hidden` modifier
      classes follow the two flags, each independently of the other. */
  method BindClassModifier(viewProps: ValueMap<string, bool>, elem: ElemId, doc: Document)
    requires IsViewProps(viewProps)
    modifies viewProps.values["disabled"], viewProps.values["hidden"], doc`elements
    ensures viewProps.values["disabled"].rawValue == old(viewProps.values["disabled"].rawValue)
    ensures viewProps.values["hidden"].rawValue == old(viewProps.values["hidden"].rawValue)
    ensures var disabled := viewProps.values["disabled"];
            disabled.handlers == old(disabled.handlers) + [Compose(ExtractValue, ValueToModifier(elem, "disabled"))]
    ensures var hidden := viewProps.values["hidden"];
            hidden.handlers == old(hidden.handlers) + [Compose(ExtractValue, ValueToModifier(elem, "hidden"))]
    ensures doc.elements.Keys == old(doc.elements.Keys)
    ensures forall k :: k in doc.elements && k != elem ==> doc.elements[k] == old(doc.elements[k])
    ensures elem in doc.elements ==>
              doc.elements[elem] == ApplyClass(ApplyClass(old(doc.elements[elem]),
                                                          ModifierClass("disabled"), viewProps.values["disabled"].rawValue),
                                               ModifierClass("hidden"), viewProps.values["hidden"].rawValue)
    ensures elem in doc.elements ==>
              var e, e0 := doc.elements[elem], old(doc.elements[elem]);
              && (ModifierClass("disabled") in e.classes <==> viewProps.values["disabled"].rawValue)
              && (ModifierClass("hidden") in e.classes <==> viewProps.values["hidden"].rawValue)
              && (forall c :: c != ModifierClass("disabled") && c != ModifierClass("hidden") ==>
                                (c in e.classes <==> c in e0.classes))
  {
    ghost var d0 := doc.elements;
    BindValueMap(viewProps, "disabled", ValueToModifier(elem, "disabled"), doc);
    ApplierUpdate(elem, ClassSetter(ModifierClass("disabled")), viewProps.values["disabled"].rawValue, d0);
    ghost var d1 := doc.elements;
    BindValueMap(viewProps, "hidden", ValueToModifier(elem, "hidden"), doc);
    ApplierUpdate(elem, ClassSetter(ModifierClass("hidden")), viewProps.values["hidden"].rawValue, d1);
  }

  /** `bindDisabled`: the target's `disabled` equals the `disabled` flag. */
  method BindDisabled(viewProps: ValueMap<string, bool>, target: ElemId, doc: Document)
    requires "disabled" in viewProps.values
    modifies viewProps.values["disabled"], doc`elements
    ensures viewProps.values["disabled"].rawValue == old(viewProps.values["disabled"].rawValue)
    ensures var disabled := viewProps.values["disabled"];
            disabled.handlers == old(disabled.handlers) + [Compose(ExtractValue, DisabledApplier(target))]
    ensures doc.elements.Keys == old(doc.elements.Keys)
    ensures forall k :: k in doc.elements && k != target ==> doc.elements[k] == old(doc.elements[k])
    ensures target in doc.elements ==>
              doc.elements[target] == WithDisabled(old(doc.elements[target]), viewProps.values["disabled"].rawValue)
  {
    ghost var d0 := doc.elements;
    BindValueMap(viewProps, "disabled", DisabledApplier(target), doc);
    ApplierUpdate(target, WithDisabled, viewProps.values["disabled"].rawValue, d0);
  }

  /** `bindTabIndex`: the element's tab index is -1 while disabled and 0 otherwise. */
  method BindTabIndex(viewProps: ValueMap<string, bool>, elem: ElemId, doc: Document)
    requires "disabled" in viewProps.values
    modifies viewProps.values["disabled"], doc`elements
    ensures viewProps.values["disabled"].rawValue == old(viewProps.values["disabled"].rawValue)
    ensures var disabled := viewProps.values["disabled"];
            disabled.handlers == old(disabled.handlers) + [Compose(ExtractValue, TabIndexApplier(elem))]
    ensures doc.elements.Keys == old(doc.elements.Keys)
    ensures forall k :: k in doc.elements && k != elem ==> doc.elements[k] == old(doc.elements[k])
    ensures elem in doc.elements ==>
              doc.elements[elem] == WithTabIndex(old(doc.elements[elem]), viewProps.values["disabled"].rawValue)
  {
    ghost var d0 := doc.elements;
    BindValueMap(viewProps, "disabled", TabIndexApplier(elem), doc);
    ApplierUpdate(elem, WithTabIndex, viewProps.values["disabled"].rawValue, d0);
  }

  /** `bindTextContent`: the element's text is the value, or '' when it is undefined. */
  method BindTextContent<K>(valueMap: ValueMap<K, Option<string>>, key: K, elem: ElemId, doc: Document)
    requires key in valueMap.values
    modifies valueMap.values[key], doc`elements
    ensures valueMap.values[key].rawValue == old(valueMap.values[key].rawValue)
    ensures var text := valueMap.values[key];
            text.handlers == old(text.handlers) + [Compose(ExtractValue, TextContentApplier(elem))]
    ensures doc.elements.Keys == old(doc.elements.Keys)
    ensures forall k :: k in doc.elements && k != elem ==> doc.elements[k] == old(doc.elements[k])
    ensures elem in doc.elements ==>
              doc.elements[elem] == WithTextContent(old(doc.elements[elem]), valueMap.values[key].rawValue)
  {
    ghost var d0 := doc.elements;
    BindValueMap(valueMap, key, TextContentApplier(elem), doc);
    ApplierUpdate(elem, WithTextContent, valueMap.values[key].rawValue, d0);
  }

  // What each registered handler does on a change: it sets one field of one
  // element to a function of the new value and leaves everything else alone.
  // With EmitSetsField / EmitKeepsField this says what the element shows
  // after any later update of the bound value.

  /** One run of an element applier on document `d`: element `id` is
      rewritten by `write`, every other element is kept. */
  lemma ApplierUpdate<T>(id: ElemId, write: (Element, T) -> Element, value: T, d: DomState)
    ensures var r := ElementApplier(id, write)(value)(d);
            && r.Keys == d.Keys
            && (id in d ==> r[id] == write(d[id], value))
            && (forall k :: k in d && k != id ==> r[k] == d[k])
  {
  }

  /** When `write` gives field `f` the value `x` on every element, the handler
      that `bindValue` registers for the applier sets that field of `id` to
      `x` on every change, whatever the document. */
  lemma ApplierSets<T>(id: ElemId, write: (Element, T) -> Element, value: T, f: Field, x: FieldValue)
    requires forall e: Element :: FieldOf(write(e, value), f) == x
    ensures Sets(Compose(ExtractValue, ElementApplier(id, write)), ChangeEvent(value), id, f, x)
  {
    var h := Compose(ExtractValue, ElementApplier(id, write));
    var ev := ChangeEvent(value);
    HandlerAppliesValue(ElementApplier(id, write), value);
    forall d: DomState | id in d
      ensures id in h(ev)(d) && FieldOf(h(ev)(d)[id], f) == x
    {
      ApplierUpdate(id, write, value, d);
    }
  }

  /** The handler keeps field `f'` of element `id'` when that is another
      element, or a field `write` never changes. */
  lemma ApplierKeeps<T>(id: ElemId, write: (Element, T) -> Element, value: T, id': ElemId, f': Field)
    requires id' != id || forall e: Element :: FieldOf(write(e, value), f') == FieldOf(e, f')
    ensures Keeps(Compose(ExtractValue, ElementApplier(id, write)), ChangeEvent(value), id', f')
  {
    var h := Compose(ExtractValue, ElementApplier(id, write));
    var ev := ChangeEvent(value);
    HandlerAppliesValue(ElementApplier(id, write), value);
    forall d: DomState | id' in d
      ensures id' in h(ev)(d) && FieldOf(h(ev)(d)[id'], f') == FieldOf(d[id'], f')
    {
      ApplierUpdate(id, write, value, d);
    }
  }

  /** On every change, the `valueToClassName` handler sets the class's
      presence to the new flag and writes nothing else. */
  lemma ClassNameHandlerEffect(id: ElemId, cn: ClassName, active: bool)
    ensures var h := Compose(ExtractValue, ValueToClassName(id, cn));
            && Sets(h, ChangeEvent(active), id, HasClass(cn), BoolValue(active))
            && OnlyWrites(h, ChangeEvent(active), id, {HasClass(cn)})
  {
    ApplierSets(id, ClassSetter(cn), active, HasClass(cn), BoolValue(active));
    var h := Compose(ExtractValue, ValueToClassName(id, cn));
    forall id', f' | id' != id || f' !in {HasClass(cn)}
      ensures Keeps(h, ChangeEvent(active), id', f')
    {
      ApplierKeeps(id, ClassSetter(cn), active, id', f');
    }
  }

  /** On every change, the `bindTabIndex` handler sets the tab index to -1
      or 0 from the new flag and writes nothing else. */
  lemma TabIndexHandlerEffect(id: ElemId, disabled: bool)
    ensures var h := Compose(ExtractValue, TabIndexApplier(id));
            && Sets(h, ChangeEvent(disabled), id, TabIndex, IntValue(if disabled then -1 else 0))
            && OnlyWrites(h, ChangeEvent(disabled), id, {TabIndex})
  {
    ApplierSets(id, WithTabIndex, disabled, TabIndex, IntValue(if disabled then -1 else 0));
    var h := Compose(ExtractValue, TabIndexApplier(id));
    forall id', f' | id' != id || f' !in {TabIndex}
      ensures Keeps(h, ChangeEvent(disabled), id', f')
    {
      ApplierKeeps(id, WithTabIndex, disabled, id', f');
    }
  }

  /** On every change, the `bindDisabled` handler sets `disabled` to the new
      flag and writes nothing else. */
  lemma DisabledHandlerEffect(id: ElemId, disabled: bool)
    ensures var h := Compose(ExtractValue, DisabledApplier(id));
            && Sets(h, ChangeEvent(disabled), id, Disabled, BoolValue(disabled))
            && OnlyWrites(h, ChangeEvent(disabled), id, {Disabled})
  {
    ApplierSets(id, WithDisabled, disabled, Disabled, BoolValue(disabled));
    var h := Compose(ExtractValue, DisabledApplier(id));
    forall id', f' | id' != id || f' !in {Disabled}
      ensures Keeps(h, ChangeEvent(disabled), id', f')
    {
      ApplierKeeps(id, WithDisabled, disabled, id', f');
    }
  }

  /** On every change, the `bindTextContent` handler sets the text to the
      value or '', replaces the children by that text's node, and writes
      nothing else. */
  lemma TextContentHandlerEffect(id: ElemId, text: Option<string>)
    ensures var h := Compose(ExtractValue, TextContentApplier(id));
            && Sets(h, ChangeEvent(text), id, TextContent, TextValue(ShownText(text)))
            && Sets(h, ChangeEvent(text), id, Children, NodesValue(TextChildren(ShownText(text))))
            && OnlyWrites(h, ChangeEvent(text), id, {TextContent, Children})
  {
    ApplierSets(id, WithTextContent, text, TextContent, TextValue(ShownText(text)));
    ApplierSets(id, WithTextContent, text, Children, NodesValue(TextChildren(ShownText(text))));
    var h := Compose(ExtractValue, TextContentApplier(id));
    forall id', f' | id' != id || f' !in {TextContent, Children}
      ensures Keeps(h, ChangeEvent(text), id', f')
    {
      ApplierKeeps(id, WithTextContent, text, id', f');
    }
  }

  // After any change of a bound value: whatever other handlers ran before,
  // if none of the later ones touches the field, it shows the new value.

  /** After any change of the value: when handler `i` is an element
      applier whose `write` gives field `f` the value `x`, the handlers before
      it keep the element and those after it keep the field, the field is `x`. */
  lemma ApplierAfterChange<T>(d: DomState, hs: seq<Handler<T>>, i: nat, id: ElemId,
                              write: (Element, T) -> Element, value: T, f: Field, x: FieldValue)
    requires id in d && i < |hs|
    requires hs[i] == Compose(ExtractValue, ElementApplier(id, write))
    requires forall e: Element :: FieldOf(write(e, value), f) == x
    requires forall j :: 0 <= j < i ==> KeepsElement(hs[j], ChangeEvent(value), id)
    requires forall j :: i < j < |hs| ==> Keeps(hs[j], ChangeEvent(value), id, f)
    ensures id in Emit(d, hs, ChangeEvent(value)) && FieldOf(Emit(d, hs, ChangeEvent(value))[id], f) == x
  {
    ApplierSets(id, write, value, f, x);
    EmitSetsField(d, hs, ChangeEvent(value), i, id, f, x);
  }

  /** `bindTabIndex`, after any change of the `disabled` flag: the tab index is -1 or 0. */
  lemma TabIndexAfterChange(d: DomState, hs: seq<Handler<bool>>, i: nat, id: ElemId, disabled: bool)
    requires id in d && i < |hs|
    requires hs[i] == Compose(ExtractValue, TabIndexApplier(id))
    requires forall j :: 0 <= j < i ==> KeepsElement(hs[j], ChangeEvent(disabled), id)
    requires forall j :: i < j < |hs| ==> Keeps(hs[j], ChangeEvent(disabled), id, TabIndex)
    ensures id in Emit(d, hs, ChangeEvent(disabled))
    ensures Emit(d, hs, ChangeEvent(disabled))[id].tabIndex == if disabled then -1 else 0
  {
    ApplierAfterChange(d, hs, i, id, WithTabIndex, disabled, TabIndex, IntValue(if disabled then -1 else 0));
  }

  /** `bindDisabled`, after any change of the `disabled` flag: the target's `disabled` equals it. */
  lemma DisabledAfterChange(d: DomState, hs: seq<Handler<bool>>, i: nat, id: ElemId, disabled: bool)
    requires id in d && i < |hs|
    requires hs[i] == Compose(ExtractValue, DisabledApplier(id))
    requires forall j :: 0 <= j < i ==> KeepsElement(hs[j], ChangeEvent(disabled), id)
    requires forall j :: i < j < |hs| ==> Keeps(hs[j], ChangeEvent(disabled), id, Disabled)
    ensures id in Emit(d, hs, ChangeEvent(disabled))
    ensures Emit(d, hs, ChangeEvent(disabled))[id].disabled == disabled
  {
    ApplierAfterChange(d, hs, i, id, WithDisabled, disabled, Disabled, BoolValue(disabled));
  }

  /** `bindTextContent`, after any change of the value: the text is the value, or ''. */
  lemma TextContentAfterChange(d: DomState, hs: seq<Handler<Option<string>>>, i: nat, id: ElemId, text: Option<string>)
    requires id in d && i < |hs|
    requires hs[i] == Compose(ExtractValue, TextContentApplier(id))
    requires forall j :: 0 <= j < i ==> KeepsElement(hs[j], ChangeEvent(text), id)
    requires forall j :: i < j < |hs| ==> Keeps(hs[j], ChangeEvent(text), id, TextContent)
    ensures id in Emit(d, hs, ChangeEvent(text))
    ensures Emit(d, hs, ChangeEvent(text))[id].textContent == ShownText(text)
  {
    ApplierAfterChange(d, hs, i, id, WithTextContent, text, TextContent, TextValue(ShownText(text)));
  }

  /** `bindClassModifier`, after any change of a flag: the element carries the
      flag's modifier exactly when the flag is set. */
  lemma ModifierAfterChange(d: DomState, hs: seq<Handler<bool>>, i: nat, id: ElemId, modifier: string, active: bool)
    requires id in d && i < |hs|
    requires hs[i] == Compose(ExtractValue, ValueToModifier(id, modifier))
    requires forall j :: 0 <= j < i ==> KeepsElement(hs[j], ChangeEvent(active), id)
    requires forall j :: i < j < |hs| ==> Keeps(hs[j], ChangeEvent(active), id, HasClass(ModifierClass(modifier)))
    ensures id in Emit(d, hs, ChangeEvent(active))
    ensures ModifierClass(modifier) in Emit(d, hs, ChangeEvent(active))[id].classes <==> active
  {
    ApplierAfterChange(d, hs, i, id, ClassSetter(ModifierClass(modifier)), active,
                       HasClass(ModifierClass(modifier)), BoolValue(active));
  }

  /** `bindClassModifier`: the handler of one flag never touches the other
      flag's modifier, so each modifier follows its own flag only. */
  lemma ModifiersIndependent(id: ElemId, active: bool)
    ensures Keeps(Compose(ExtractValue, ValueToModifier(id, "disabled")), ChangeEvent(active), id, HasClass(ModifierClass("hidden")))
    ensures Keeps(Compose(ExtractValue, ValueToModifier(id, "hidden")), ChangeEvent(active), id, HasClass(ModifierClass("disabled")))
  {
    assert ModifierClass("disabled") != ModifierClass("hidden");
    ApplierKeeps(id, ClassSetter(ModifierClass("disabled")), active, id, HasClass(ModifierClass("hidden")));
    ApplierKeeps(id, ClassSetter(ModifierClass("hidden")), active, id, HasClass(ModifierClass("disabled")));
  }
}
