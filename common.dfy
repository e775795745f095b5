/** Values shared by every plugin of the binding core: JavaScript runtime
    values and user params, and the closed set of constraints, controllers
    and API handles that the plugins choose between. */
module Common {

  datatype Option<+T> = None | Some(value: T)

  /** A JavaScript runtime value as a plugin receives it (`unknown`). */
  datatype Unknown =
    | Undefined
    | Null
    | Bool(b: bool)
    | Num(n: real)
    | Str(s: string)
    | Arr(items: seq<Unknown>)
    | Obj(fields: map<string, Unknown>)

  /** A user-supplied params object: an open record of named values. */
  type Params = map<string, Unknown>

  /** Property access `params[key]`; a missing key reads as `undefined`. */
  function Lookup(p: Params, key: string): (r: Unknown)
    ensures key !in p ==> r == Undefined
    ensures key in p ==> r == p[key]
  {
    if key in p then p[key] else Undefined
  }

  /** JavaScript truthiness (NaN is not modelled: numbers are reals). */
  predicate Truthy(u: Unknown)
  {
    match u
    case Undefined => false
    case Null => false
    case Bool(b) => b
    case Num(n) => n != 0.0
    case Str(s) => s != ""
    case Arr(_) => true
    case Obj(_) => true
  }

  /** Nullish coalescing `u ?? fallback`. */
  function Coalesce(u: Unknown, fallback: Unknown): (r: Unknown)
    ensures u != Undefined && u != Null ==> r == u
    ensures u == Undefined || u == Null ==> r == fallback
  {
    if u.Undefined? || u.Null? then fallback else u
  }

  /** Identity of an observable value (a `Value` object) that a controller,
      a binding or a constraint holds; only identity matters here. */
  type ValueRef = nat

  /** Constraints. Each one keeps its parameters in observable values of its
      own; the composite keeps its children in order. */
  datatype Constraint =
    | StepConstraint(step: ValueRef)
    | RangeConstraint(min: ValueRef, max: ValueRef)
    | DefiniteRangeConstraint(min: ValueRef, max: ValueRef)
    | ListConstraint(options: ValueRef)
    | CompositeConstraint(children: seq<Constraint>)

  /** The class a typed `findConstraint` lookup asks for. */
  datatype ConstraintKind = StepKind | RangeKind | DefiniteRangeKind | ListKind | CompositeKind

  function KindOf(c: Constraint): ConstraintKind
  {
    match c
    case StepConstraint(_) => StepKind
    case RangeConstraint(_, _) => RangeKind
    case DefiniteRangeConstraint(_, _) => DefiniteRangeKind
    case ListConstraint(_) => ListKind
    case CompositeConstraint(_) => CompositeKind
  }

  datatype Parser = ParseNumber | CompositeColorParser

  datatype ColorStringifier = ColorToHexRgbString | ColorToHexRgbaString

  datatype Formatter = StringFormatter | ColorFormatter(stringifier: ColorStringifier)

  datatype Reader = NumberFromUnknown | StringFromUnknown | ColorFromObject

  datatype Writer = WritePrimitive | ColorObjectWriter(supportsAlpha: bool)

  /** The equality a binding's observable value uses to suppress no-op changes. */
  datatype Equality = DefaultEquality | ColorEquals

  /** The conversions a plugin's `binding` part hands to the binding layer. */
  datatype BindingSpec = BindingSpec(
    reader: Reader,
    writer: Option<Writer>,
    constraint: Option<Constraint>,
    equals: Equality)

  /** The controllers the plugins of this core build, as a closed variant;
      `OtherController` stands for any controller class not built here. */
  datatype Controller =
    | ListController(options: ValueRef, value: ValueRef, viewProps: ValueRef)
    | SliderTextController(textProps: Params, min: ValueRef, max: ValueRef, parser: Parser,
                           value: ValueRef, viewProps: ValueRef)
    | NumberTextController(parser: Parser, props: Params, value: ValueRef, viewProps: ValueRef)
    | ButtonController(title: string, viewProps: ValueRef)
    | LabelController(blade: ValueRef, labelText: Option<string>, valueController: Controller)
    | MultiLogController(formatter: Formatter, lineCount: Unknown, value: ValueRef)
    | SingleLogMonitorController(formatter: Formatter, value: ValueRef)
    | ColorSwatchTextController(formatter: Formatter, parser: Parser, supportsAlpha: bool,
                                value: ValueRef)
    | OtherController(name: string)

  /** An input-binding controller: the bound value's current raw value and the
      value controller it wraps. */
  datatype InputBindingController = InputBindingController(rawValue: Unknown, valueController: Controller)

  /** Public API handles that a plugin's `api` part may wrap a controller in. */
  datatype Api =
    | SliderInputBindingApi(binding: InputBindingController)
    | ListInputBindingApi(binding: InputBindingController)
    | ButtonApi(controller: Controller)
}
