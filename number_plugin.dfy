/** The number input plugin: its `accept` validator, the constraint chain its
    binding applies, the controller it picks and the API it exposes. */
module NumberInputPlugin {
  import opened Common

  /** Helpers the plugin calls but does not define: `parseRecord` with the
      number-input params schema, the three constraint factories, the typed
      `findConstraint` lookup and `createNumberTextPropsObject`. */
  datatype Collaborators = Collaborators(
    parseParams: Params -> Option<Params>,
    createStepConstraint: (Params, real) -> Option<Constraint>,
    createRangeConstraint: Params -> Option<Constraint>,
    createListConstraint: Unknown -> Option<Constraint>,
    findConstraint: (Constraint, ConstraintKind) -> Option<Constraint>,
    createNumberTextPropsObject: (Params, real) -> Params)

  /** `findConstraint(c, K)` only ever returns a constraint of class K. */
  ghost predicate FindIsTyped(env: Collaborators)
  {
    forall c, k :: env.findConstraint(c, k).Some? ==> KindOf(env.findConstraint(c, k).value) == k
  }

  datatype Accepted = Accepted(initialValue: real, params: Params)

  /** `accept`: numbers whose params parse are accepted with the parsed params. */
  function Accept(env: Collaborators, value: Unknown, params: Params): (r: Option<Accepted>)
    ensures !value.Num? ==> r == None
    ensures value.Num? ==> (r.None? <==> env.parseParams(params).None?)
    ensures r.Some? ==> value.Num? && r.value.initialValue == value.n
                        && Some(r.value.params) == env.parseParams(params)
  {
    if !value.Num? then None
    else
      match env.parseParams(params)
      case None => None
      case Some(p) => Some(Accepted(value.n, p))
  }

  /** The sequence holding `o`'s value when it is present, and nothing otherwise. */
  function Present(o: Option<Constraint>): (s: seq<Constraint>)
    ensures o.Some? ==> s == [o.value]
    ensures o.None? ==> s == []
  {
    if o.Some? then [o.value] else []
  }

  /** The children of the composite `createConstraint` builds: the step, range
      and list constraints that the factories produce, in that order. */
  function ConstraintChildren(env: Collaborators, params: Params, initialValue: real): seq<Constraint>
  {
    Present(env.createStepConstraint(params, initialValue))
      + Present(env.createRangeConstraint(params))
      + Present(env.createListConstraint(Lookup(params, "options")))
  }

  /** `createConstraint`: collects the present constraints by conditional
      appends and wraps them in a composite. */
  method CreateConstraint(env: Collaborators, params: Params, initialValue: real) returns (c: Constraint)
    ensures c == CompositeConstraint(ConstraintChildren(env, params, initialValue))
  {
    var constraints: seq<Constraint> := [];
    var sc := env.createStepConstraint(params, initialValue);
    if sc.Some? {
      constraints := constraints + [sc.value];
    }
    var rc := env.createRangeConstraint(params);
    if rc.Some? {
      constraints := constraints + [rc.value];
    }
    var lc := env.createListConstraint(Lookup(params, "options"));
    if lc.Some? {
      constraints := constraints + [lc.value];
    }
    c := CompositeConstraint(constraints);
  }

  /** The composite's children are exactly the present constraints, step
      before range before list; with no factory producing one, it is empty. */
  lemma ConstraintChildrenOrder(env: Collaborators, params: Params, initialValue: real)
    ensures var sc := env.createStepConstraint(params, initialValue);
            var rc := env.createRangeConstraint(params);
            var lc := env.createListConstraint(Lookup(params, "options"));
            var cs := ConstraintChildren(env, params, initialValue);
            && |cs| == |Present(sc)| + |Present(rc)| + |Present(lc)|
            && (sc.Some? ==> cs[0] == sc.value)
            && (rc.Some? ==> cs[|Present(sc)|] == rc.value)
            && (lc.Some? ==> cs[|cs| - 1] == lc.value)
            && (forall x :: x in cs <==> Some(x) == sc || Some(x) == rc || Some(x) == lc)
            && (sc.None? && rc.None? && lc.None? ==> cs == [])
  {
  }

  /** `binding`: reads with `numberFromUnknown`, constrains with
      `createConstraint` and writes back with `writePrimitive`. */
  method Binding(env: Collaborators, params: Params, initialValue: real) returns (b: BindingSpec)
    ensures b.reader == NumberFromUnknown && b.writer == Some(WritePrimitive)
    ensures b.constraint == Some(CompositeConstraint(ConstraintChildren(env, params, initialValue)))
    ensures b.equals == DefaultEquality
  {
    var c := CreateConstraint(env, params, initialValue);
    b := BindingSpec(NumberFromUnknown, Some(WritePrimitive), Some(c), DefaultEquality);
  }

  /** What `controller` receives: the bound value (identity and current raw
      value), the binding's constraint if any, the params and the view props. */
  datatype ControllerArgs = ControllerArgs(
    value: ValueRef,
    rawValue: real,
    constraint: Option<Constraint>,
    params: Params,
    viewProps: ValueRef)

  function FindIn(env: Collaborators, c: Option<Constraint>, k: ConstraintKind): Option<Constraint>
  {
    if c.Some? then env.findConstraint(c.value, k) else None
  }

  /** `controller`: a list controller when a list constraint is found, else a
      slider-text controller when a definite range is found, else a plain
      number-text controller. */
  function Controller(env: Collaborators, args: ControllerArgs): (r: Controller)
    requires FindIsTyped(env)
    ensures var lc := FindIn(env, args.constraint, ListKind);
            lc.Some? ==> r == ListController(lc.value.options, args.value, args.viewProps)
    ensures var lc := FindIn(env, args.constraint, ListKind);
            var drc := FindIn(env, args.constraint, DefiniteRangeKind);
            lc.None? && drc.Some? ==>
              && r.SliderTextController?
              && r.min == drc.value.min && r.max == drc.value.max
              && r.parser == ParseNumber
              && r.textProps == env.createNumberTextPropsObject(args.params, args.rawValue)
              && r.value == args.value && r.viewProps == args.viewProps
    ensures FindIn(env, args.constraint, ListKind).None? && FindIn(env, args.constraint, DefiniteRangeKind).None? ==>
              r == NumberTextController(ParseNumber, env.createNumberTextPropsObject(args.params, args.rawValue),
                                        args.value, args.viewProps)
    ensures args.constraint.None? ==> r.NumberTextController?
  {
    var lc := FindIn(env, args.constraint, ListKind);
    if lc.Some? then
      ListController(lc.value.options, args.value, args.viewProps)
    else
      var textProps := env.createNumberTextPropsObject(args.params, args.rawValue);
      var drc := FindIn(env, args.constraint, DefiniteRangeKind);
      if drc.Some? then
        SliderTextController(textProps, drc.value.min, drc.value.max, ParseNumber, args.value, args.viewProps)
      else
        NumberTextController(ParseNumber, textProps, args.value, args.viewProps)
  }

  /** `api`: a slider API for a slider-text controller and a list API for a
      list controller, provided the raw value is a number; null otherwise. */
  function Api(controller: InputBindingController): (r: Option<Api>)
    ensures !controller.rawValue.Num? ==> r == None
    ensures controller.rawValue.Num? && controller.valueController.SliderTextController? ==>
              r == Some(SliderInputBindingApi(controller))
    ensures controller.rawValue.Num? && controller.valueController.ListController? ==>
              r == Some(ListInputBindingApi(controller))
    ensures r.Some? ==> controller.rawValue.Num?
                        && (controller.valueController.SliderTextController? || controller.valueController.ListController?)
  {
    if !controller.rawValue.Num? then None
    else if controller.valueController.SliderTextController? then Some(SliderInputBindingApi(controller))
    else if controller.valueController.ListController? then Some(ListInputBindingApi(controller))
    else None
  }

  /** A list constraint wins over a definite range even when both are found. */
  lemma ListBeatsRange(env: Collaborators, args: ControllerArgs)
    requires FindIsTyped(env)
    requires FindIn(env, args.constraint, ListKind).Some?
    requires FindIn(env, args.constraint, DefiniteRangeKind).Some?
    ensures Controller(env, args).ListController?
    ensures !Controller(env, args).SliderTextController?
  {
  }

  /** Controller and API agree: the API of the controller this plugin builds
      is non-null exactly when a list or definite-range constraint was found,
      i.e. exactly when the controller is not a plain number-text controller. */
  lemma ControllerHasApi(env: Collaborators, args: ControllerArgs)
    requires FindIsTyped(env)
    ensures var c := Controller(env, args);
            var a := Api(InputBindingController(Num(args.rawValue), c));
            && (a.Some? <==> !c.NumberTextController?)
            && (a.Some? <==> (FindIn(env, args.constraint, ListKind).Some?
                              || FindIn(env, args.constraint, DefiniteRangeKind).Some?))
  {
  }
}
