# Tweakpane binding core, modelled in Dafny

This project models the decision logic that sits on top of Tweakpane's
observable values and bindings, and proves what that logic promises:

- **Plugins.** The number input plugin, the button blade plugin, the string
  monitor plugin and the colour-object input plugin. For each: its `accept`
  validator, the binding it declares, the controller it picks (list before
  definite range before plain text; multi-line before single-line log) and
  the API it exposes. The number plugin's `createConstraint` is a method that
  appends the step, range and list constraints one by one. It is proved
  against a function that lists the present constraints in order.
- **Blade state.** `importBladeState` short-circuits. It returns the result
  together with the trace of calls it made, so "never parses" and "never
  calls back" can be stated. `exportBladeState` is a right-biased merge of
  records.
- **Labeled view.** `createLabelNode` splits the label on line feeds. It gives
  a text node per line with a `<br>` between neighbours. The fragment reads
  back as the label. The label callback toggles the `nol` modifier. The
  labeled view's constructor builds its row, label and value elements and
  binds the view props and the label.
- **Reactive helpers.** `compose`, `applyClass`, `bindValue`, `bindValueMap`,
  `bindClassModifier`, `bindDisabled`, `bindTabIndex` and `bindTextContent`.
  They act on an abstract document. A minimal observable value class runs
  change handlers in order when its raw value changes. Lemmas state what an
  element shows after any later change of a bound value.

Collaborators the source calls but does not define are fields of a
`Collaborators` record that each plugin receives. Examples are
`parseRecord` with a params schema, `findStringParam`, `findConstraint`, the
constraint factories, `Color.isColorObject` and `Color.isRgbaColorObject`.
Their results are arbitrary except that `findConstraint` returns a
constraint of the class it was asked for (`FindIsTyped`). Controllers, APIs,
constraints, formatters, readers and writers are closed tagged variants in
module `Common`. The JavaScript values that reach `accept` are the datatype
`Unknown`.

The DOM is a map from element identities to a record. The record holds the
class set, tab index, disabled flag, text content and children. A class name
is structured as block, element and modifier. A view callback is a function
from document to document. The `Document` class hands out fresh identities
and applies updates in place.

## Model

| member | source | states |
|---|---|---|
| NumberInputPlugin.Accept | packages/core/src/input-binding/number/plugin.ts:67-82 | null for every non-number value whatever the params; for a number, null exactly when the params do not parse; otherwise the initial value is the input and the params are the parse result |
| NumberInputPlugin.CreateConstraint | packages/core/src/input-binding/number/plugin.ts:34-54 | the conditional appends build a composite whose children are the present step, range and list constraints |
| NumberInputPlugin.ConstraintChildrenOrder | packages/core/src/input-binding/number/plugin.ts:38-53 | the children are exactly the present constraints, step first, then range, list last; with none present the composite is empty |
| NumberInputPlugin.Binding | packages/core/src/input-binding/number/plugin.ts:83-87 | reads with `numberFromUnknown`, writes with `writePrimitive`, constrains with `createConstraint` |
| NumberInputPlugin.Controller | packages/core/src/input-binding/number/plugin.ts:88-129 | a found list constraint gives a list controller over its options; else a found definite range gives a slider-text controller whose min and max are the range's own, parsing with `parseNumber`; else a number-text controller with `parseNumber`; no constraint at all gives number-text |
| NumberInputPlugin.Api | packages/core/src/input-binding/number/plugin.ts:130-150 | null when the raw value is not a number; a slider API for a slider-text controller, a list API for a list controller, null for anything else |
| NumberInputPlugin.ListBeatsRange | packages/core/src/input-binding/number/plugin.ts:92-101 | with both a list and a definite range found, the list controller wins |
| NumberInputPlugin.ControllerHasApi | packages/core/src/input-binding/number/plugin.ts:88-150 | for a numeric raw value, the built controller has an API exactly when it is not plain number-text, i.e. exactly when a list or definite range was found |
| ButtonBladePlugin.Accept | lib/blade/button/plugin.ts:18-34 | null unless `view` is the string "button" and a string `title` exists; otherwise exactly the found label, the title and view "button" |
| ButtonBladePlugin.Controller | lib/blade/button/plugin.ts:35-48 | a label controller for the blade showing `params.label`, wrapping a button controller showing `params.title` with the view props |
| ButtonBladePlugin.Api | lib/blade/button/plugin.ts:49-57 | a button API exactly when the controller is a label controller wrapping a button controller, null otherwise |
| ButtonBladePlugin.ControllerHasApi | lib/blade/button/plugin.ts:27-57 | the controller built from accepted params always passes the API's shape check and shows the accepted title and label |
| StringMonitorPlugin.Accept | lib/plugin/monitor-bindings/string/plugin.ts:16 | the value itself exactly when it is a string, null otherwise |
| StringMonitorPlugin.Binding | lib/plugin/monitor-bindings/string/plugin.ts:15-18 | reads with `stringFromUnknown` and declares no writer |
| StringMonitorPlugin.LineCount | lib/plugin/monitor-bindings/string/plugin.ts:27 | `params.lineCount` when it is present and neither undefined nor null, the default line count otherwise |
| StringMonitorPlugin.Controller | lib/plugin/monitor-bindings/string/plugin.ts:19-36 | a multi-log controller exactly when the buffer has more than one slot (its size, empty slots included) or a truthy `multiline` param is present, with the `??` line count; otherwise a single-log controller; both with a string formatter on the bound value |
| StringMonitorPlugin.LongBufferIsMultiline | lib/plugin/monitor-bindings/string/plugin.ts:21-25 | a buffer of more than one slot (empty slots included) is multi-line whatever the params |
| StringMonitorPlugin.ShortBufferFollowsParam | lib/plugin/monitor-bindings/string/plugin.ts:21-24 | with a buffer of at most one slot, multi-line exactly when a truthy `multiline` param is present |
| ObjectColorInputPlugin.ShouldSupportAlpha | lib/plugin/input-bindings/color/plugin-object.ts:13-17 | true exactly for an RGBA colour object |
| ObjectColorInputPlugin.Accept | lib/plugin/input-bindings/color/plugin-object.ts:28 | the value itself exactly when it is a colour object, null otherwise |
| ObjectColorInputPlugin.Binding | lib/plugin/input-bindings/color/plugin-object.ts:27-33 | reader `colorFromObject`, equality `Color.equals`, a colour-object writer supporting alpha exactly for an RGBA initial value |
| ObjectColorInputPlugin.Controller | lib/plugin/input-bindings/color/plugin-object.ts:34-45 | a swatch-text controller with the composite colour parser, alpha support exactly for an RGBA initial value, and the hex-RGBA formatter exactly when alpha is supported, hex-RGB otherwise |
| ObjectColorInputPlugin.AlphaAgrees | lib/plugin/input-bindings/color/plugin-object.ts:30-42 | the writer's alpha flag equals the controller's, and the formatter shows alpha exactly then |
| BladeStateUtil.ImportBladeState | packages/core/src/blade/common/controller/blade-state.ts:20-33 | a failing `superImport` gives false with no parse and no callback; a failing parse gives false with no callback; otherwise the result is the callback's on the parsed record; true implies the callback ran |
| BladeStateUtil.ExportBladeState | packages/core/src/blade/common/controller/blade-state.ts:41-49 | keys are the union of both states' keys; this state's values win, the rest keep the parent's; an empty own state gives the parent's export |
| BladeStateUtil.ExportIdempotent | packages/core/src/blade/common/controller/blade-state.ts:45-48 | merging the same own state twice changes nothing further |
| BladeStateUtil.ExportAssociative | packages/core/src/blade/common/controller/blade-state.ts:45-48 | chained exports through several ancestors do not depend on grouping |
| Labeled.CreateLabelNode | lib/blade/labeled/view.ts:21-35 | the text nodes are the label's lines (line feeds + 1 of them), there is one `<br>` per line feed, the fragment reads back as the label, and an empty label gives one empty text node |
| Labeled.Split | lib/blade/labeled/view.ts:24 | `split('\n')` gives one piece more than there are line feeds, none containing a line feed |
| Labeled.JoinSplit | lib/blade/labeled/view.ts:24 | joining the pieces with line feeds gives the label back |
| Labeled.SplitJoin | lib/blade/labeled/view.ts:24 | splitting a join of line-feed-free lines gives the lines back |
| Labeled.LineNodesShape | lib/blade/labeled/view.ts:27-32 | the fragment has 2n-1 nodes for n lines: line k/2's text at even positions k, `<br>` at odd ones |
| Labeled.LineNodesTexts | lib/blade/labeled/view.ts:24-32 | the text nodes hold the lines in order, and there is one `<br>` fewer than lines |
| Labeled.LineNodesLast | lib/blade/labeled/view.ts:27-32 | the last node is the last line's text, never a `<br>` |
| Labeled.FlattenLineNodes | lib/blade/labeled/view.ts:27-32 | reading the fragment back with a line feed per `<br>` gives the joined lines |
| Labeled.LabelNodeAlternates | lib/blade/labeled/view.ts:27-32 | the `<br>` elements are exactly the nodes at odd positions, so one sits between each pair of consecutive text nodes |
| Labeled.LabelNodeEnds | lib/blade/labeled/view.ts:27-32 | the fragment has twice as many nodes as line feeds, plus one, and starts and ends with a text node |
| Labeled.LabelState | lib/blade/labeled/view.ts:51-59 | after the label callback the row has `nol` exactly when the label is undefined and keeps its other classes and children; with a label the label element's children are exactly the label's fragment, without one they are kept; no other element changes |
| Labeled.LabelApplier | lib/blade/labeled/view.ts:51-59 | the callback passed to `bindValueMap`; it has no contract of its own: `LabelUpdate` states what one run of it does |
| Labeled.LabelHandler | lib/blade/labeled/view.ts:51-59 | the change handler registered on the `label` value; no contract of its own: `BindLabel` and the constructor state that it is registered, `LabelUpdate` what it does |
| Labeled.LabelUpdate | lib/blade/labeled/view.ts:51-59 | a defined label removes `nol` from the row and makes the label element's children exactly the label's fragment; an undefined label adds `nol` and leaves the children alone; nothing else changes |
| Labeled.BindLabel | lib/blade/labeled/view.ts:51-59 | registers the label callback on the `label` value and runs it once on the current label |
| Labeled.CreateRow | lib/blade/labeled/view.ts:45-47 | a fresh row element with block class `lbl` whose `disabled` and `hidden` modifiers match the view props; one modifier handler for the row is appended to each of the two flags, so the row keeps following them |
| Labeled.CreateLabelElement | lib/blade/labeled/view.ts:49-60 | a fresh `lbl__l` element holding the label's fragment (or nothing), appended to the row, with `nol` on the row exactly when the label is undefined |
| Labeled.CreateValueElement | lib/blade/labeled/view.ts:62-65 | a fresh `lbl__v` element appended to the row |
| Labeled.RowElement | lib/blade/labeled/view.ts:45-47 | the row carries `lbl` and each view-prop modifier exactly when its flag is set, and no `nol` yet |
| Labeled.LabeledRow | lib/blade/labeled/view.ts:44-66 | the finished row carries `lbl`, the modifiers of the set view-prop flags, `nol` exactly when there is no label, and the label and value elements as its children in that order |
| Labeled.LabeledView.constructor | lib/blade/labeled/view.ts:44-66 | creates exactly three fresh elements: the finished row, the label element and the value element; appends the label handler to the `label` value and the row's modifier handler to each of the `disabled` and `hidden` flags; no existing element changes |
| Reactive.Compose | lib/common/view/reactive.ts:6-11 | no contract of its own: `ComposeApplies` states its defining equation |
| Reactive.ExtractValue | lib/common/view/reactive.ts:13-15 | the result is the raw value the event carries: rebuilding the event from it gives the event back |
| Reactive.ComposeApplies | lib/common/view/reactive.ts:6-11 | `compose(h1, h2)(x) == h2(h1(x))` |
| Reactive.ApplyClass | lib/common/view/reactive.ts:17-23 | afterwards the class is present exactly when `active`; every other class and every other part of the element is unchanged |
| Reactive.ApplyClassIdempotent | lib/common/view/reactive.ts:17-23 | applying the same class state twice is the same as once |
| Reactive.HandlerAppliesValue | lib/common/view/reactive.ts:43 | the registered handler runs `applyValue` on the event's raw value |
| Model.Value.On | lib/common/view/reactive.ts:43 | `emitter.on('change', …)` appends the handler after every handler already registered |
| Reactive.BindValue | lib/common/view/reactive.ts:42-45 | registers `compose(extractValue, applyValue)` as the last change handler and applies the current raw value once, immediately |
| Reactive.BindValueMap | lib/common/view/reactive.ts:47-52 | `bindValue` on the map's value for the key, leaving its raw value alone |
| Reactive.BindClassModifier | lib/common/view/reactive.ts:54-57 | registers a modifier handler on each flag; right away the element has the `disabled` and `hidden` modifiers exactly when those flags are set; no other element changes |
| Reactive.BindDisabled | lib/common/view/reactive.ts:63-67 | registers the handler; right away the target's `disabled` equals the flag; nothing else changes |
| Reactive.BindTabIndex | lib/common/view/reactive.ts:69-73 | registers the handler; right away the tab index is -1 when disabled and 0 otherwise; nothing else changes |
| Reactive.BindTextContent | lib/common/view/reactive.ts:75-84 | registers the handler; right away the text is the value, or '' when it is undefined, and the element's children are replaced by that text's single node (none for ''); nothing else changes |
| Reactive.ValueToClassName | lib/common/view/reactive.ts:25-32 | no contract of its own: `ClassNameHandlerEffect` states what its handler does on every change |
| Reactive.ValueToModifier | lib/common/view/reactive.ts:34-40 | no contract of its own: `ModifierAfterChange` and `ModifiersIndependent` state what its handler does |
| Reactive.ApplierUpdate | lib/common/view/reactive.ts:25-84 | one run of a one-element callback (`valueToClassName`, `bindDisabled`, `bindTabIndex`, `bindTextContent`) rewrites that element and keeps the set of elements and every other element |
| Reactive.ApplierSets | lib/common/view/reactive.ts:25-84 | when the callback gives a field one value on every element, its registered handler sets that field of its element to that value on any change, whatever the document |
| Reactive.ApplierKeeps | lib/common/view/reactive.ts:25-84 | the registered handler keeps every field of every other element and every field its callback never changes |
| Reactive.ApplierAfterChange | lib/common/view/reactive.ts:42-45 | after any change, a field the bound callback sets holds its value, provided earlier handlers keep the element and later ones keep the field |
| Reactive.ClassNameHandlerEffect | lib/common/view/reactive.ts:25-32 | the handler writes that one class of that one element and nothing else |
| Reactive.TabIndexHandlerEffect | lib/common/view/reactive.ts:70-72 | the handler writes the tab index of its element and nothing else |
| Reactive.DisabledHandlerEffect | lib/common/view/reactive.ts:64-66 | the handler writes `disabled` of its target and nothing else |
| Reactive.TextContentHandlerEffect | lib/common/view/reactive.ts:81-83 | the handler sets the text to the value or '' and the children to that text's single node (none for ''), and writes nothing else |
| Reactive.TabIndexAfterChange | lib/common/view/reactive.ts:69-73 | after any change of the flag, with no later handler touching the tab index, it is -1 when disabled and 0 otherwise |
| Reactive.DisabledAfterChange | lib/common/view/reactive.ts:63-67 | after any change of the flag, with no later handler touching it, the target's `disabled` equals the flag |
| Reactive.TextContentAfterChange | lib/common/view/reactive.ts:75-84 | after any change of the value, with no later handler touching the text, it is the value or '' |
| Reactive.ModifierAfterChange | lib/common/view/reactive.ts:54-57 | after any change of a flag, with no later handler touching the modifier, the element has it exactly when the flag is set |
| Reactive.ModifiersIndependent | lib/common/view/reactive.ts:54-57 | the `disabled` flag's handler never touches the `hidden` modifier and vice versa |
| Model.Value.SetRawValue | lib/common/view/reactive.ts:42-45 | an equal value changes nothing; a different one is stored and every registered change handler runs on it, first registered first |
| Model.EmitSetsField | lib/common/view/reactive.ts:42-45 | after the handlers run, a field holds what the last handler writing it set |
| Model.EmitKeepsField | lib/common/view/reactive.ts:42-45 | a field that no handler touches is the same after a change |

## Left out

- The real DOM is not modelled: `Document`, `classList`, fragments and the
  `ClassName` generator. Elements are records. Class names are structured
  (block, element, modifier) rather than `tp-…` strings. A fragment's nodes
  are the label element's children.
- `Value`, `ValueMap`, `Binding`, `Ticker`, `CompositeConstraint`,
  `findConstraint`, `parseRecord` and its micro-parsers, `findStringParam`,
  `Color`, the formatters and the plugin registry are not part of this
  model. The plugins receive them as parameters. The observable value keeps
  only what the reactive helpers rely on: the raw value, an equality, and
  change handlers run in order. It does not model the `beforechange` event
  or emit options.
- Controllers and APIs are tagged values, not live objects. The `document`
  argument every controller receives is dropped. Value and view-props
  objects are identified by a reference number (`ValueRef`).
- NumberInputPlugin.Controller: the slider-text controller is recorded with
  the number-text props object, its min and max. It does not model
  `createSliderTextProps` or the fresh `keyScale` value it wraps.
- NumberInputPlugin.Controller requires `FindIsTyped`, i.e. that
  `findConstraint` returns a constraint of the class asked for. The
  generic lookup is not part of this model.
- Numbers are mathematical reals. NaN, infinities and the exact set of
  `typeof value === 'number'` values are not modelled.
- BladeStateUtil.ExportBladeState: records are maps, so the key order that
  object spread produces is not modelled.
- BladeStateUtil.ImportBladeState: the parser schema is a given parse function from state to an optional record.
- StringMonitorPlugin.Controller: `Constants.monitor.defaultLineCount` is
  not part of this model. It is a parameter. The single-log controller's
  own configuration is not modelled.
- Reactive.BindTextContent: the value type is string-or-undefined, so the
  case of `null` (which `??` also maps to '') is not representable.
- Reactive.BindDisabled: the target is any object with a `disabled` field
  in the source; here it is an element.
- The text content of an element is a field of its own. Setting it (in
  `bindTextContent`) also replaces the children by the text's node, as the
  DOM does. Changing the children (label fragment, `appendChild`) does not
  recompute the text content.
- The labeled view's label callback leaves the document unchanged when
  either of its two elements is missing. That cannot happen with the
  elements the constructor creates.
- The colour palette view, the single-log controller's view wiring and the
  folder, monitor-binding and text controller tests are not modelled.
