/** The button blade plugin: params validation, the label-wrapped button
    controller it builds, and the shape check behind its API. */
module ButtonBladePlugin {
  import opened Common

  /** `findStringParam(params, key)`: the param when it is a string, else
      undefined. It is not defined here. */
  datatype Collaborators = Collaborators(findStringParam: (Params, string) -> Option<string>)

  /** Normalised button params; `view` is always "button". */
  datatype ButtonBladeParams = ButtonBladeParams(labelText: Option<string>, title: string, view: string)

  /** `accept`: the `view` param must be the string "button" and a string
      `title` must exist; the result keeps the label, the title and the view. */
  function Accept(env: Collaborators, params: Params): (r: Option<ButtonBladeParams>)
    ensures env.findStringParam(params, "view") != Some("button") ==> r == None
    ensures env.findStringParam(params, "title").None? ==> r == None
    ensures r.Some? <==> (env.findStringParam(params, "view") == Some("button")
                          && env.findStringParam(params, "title").Some?)
    ensures r.Some? ==> && r.value.labelText == env.findStringParam(params, "label")
                        && Some(r.value.title) == env.findStringParam(params, "title")
                        && r.value.view == "button"
  {
    if env.findStringParam(params, "view") != Some("button") then None
    else
      var title := env.findStringParam(params, "title");
      if title.None? then None
      else Some(ButtonBladeParams(env.findStringParam(params, "label"), title.value, "button"))
  }

  /** What `controller` receives: the blade, the accepted params and the view props. */
  datatype ControllerArgs = ControllerArgs(blade: ValueRef, params: ButtonBladeParams, viewProps: ValueRef)

  /** `controller`: a label controller showing `params.label` around a button
      controller showing `params.title`. */
  function Controller(args: ControllerArgs): (r: Controller)
    ensures r.LabelController? && r.blade == args.blade && r.labelText == args.params.labelText
    ensures r.valueController == ButtonController(args.params.title, args.viewProps)
  {
    LabelController(args.blade, args.params.labelText, ButtonController(args.params.title, args.viewProps))
  }

  /** `api`: a button API exactly for a label controller wrapping a button controller. */
  function Api(controller: Controller): (r: Option<Api>)
    ensures r.Some? <==> controller.LabelController? && controller.valueController.ButtonController?
    ensures r.Some? ==> r.value == ButtonApi(controller)
  {
    if !controller.LabelController? then None
    else if !controller.valueController.ButtonController? then None
    else Some(ButtonApi(controller))
  }

  /** Whatever `controller` builds from accepted params passes `api`'s shape
      check, and the resulting API shows the params' title and label. */
  lemma ControllerHasApi(env: Collaborators, params: Params, blade: ValueRef, viewProps: ValueRef)
    requires Accept(env, params).Some?
    ensures var p := Accept(env, params).value;
            var c := Controller(ControllerArgs(blade, p, viewProps));
            && Api(c) == Some(ButtonApi(c))
            && Some(c.valueController.title) == env.findStringParam(params, "title")
            && c.labelText == env.findStringParam(params, "label")
  {
  }
}
