/** The colour-object input plugin: accepts RGB/RGBA colour objects and keeps
    the writer's alpha handling and the controller's formatter in step. */
module ObjectColorInputPlugin {
  import opened Common

  /** `Color.isColorObject` and `Color.isRgbaColorObject`; not defined here. */
  datatype Collaborators = Collaborators(
    isColorObject: Unknown -> bool,
    isRgbaColorObject: Unknown -> bool)

  /** `shouldSupportAlpha`: the initial value is an RGBA colour object. */
  function ShouldSupportAlpha(env: Collaborators, initialValue: Unknown): (b: bool)
    ensures b <==> env.isRgbaColorObject(initialValue)
  {
    env.isRgbaColorObject(initialValue)
  }

  /** `accept`: the value itself when it is a colour object, null otherwise. */
  function Accept(env: Collaborators, value: Unknown, params: Params): (r: Option<Unknown>)
    ensures r.Some? <==> env.isColorObject(value)
    ensures r.Some? ==> r.value == value
  {
    if env.isColorObject(value) then Some(value) else None
  }

  /** `binding`: reads with `colorFromObject`, compares with `Color.equals`
      and writes with a colour-object writer whose alpha flag comes from the
      initial value. */
  function Binding(env: Collaborators, initialValue: Unknown): (b: BindingSpec)
    ensures b.reader == ColorFromObject && b.equals == ColorEquals && b.constraint.None?
    ensures b.writer == Some(ColorObjectWriter(env.isRgbaColorObject(initialValue)))
  {
    BindingSpec(ColorFromObject, Some(ColorObjectWriter(ShouldSupportAlpha(env, initialValue))), None, ColorEquals)
  }

  /** `controller`: a swatch-text controller that parses with the composite
      colour parser and formats as hex RGBA when alpha is supported, else as hex RGB. */
  function Controller(env: Collaborators, initialValue: Unknown, value: ValueRef): (r: Controller)
    ensures r.ColorSwatchTextController? && r.parser == CompositeColorParser && r.value == value
    ensures r.supportsAlpha <==> env.isRgbaColorObject(initialValue)
    ensures r.formatter == ColorFormatter(if r.supportsAlpha then ColorToHexRgbaString else ColorToHexRgbString)
  {
    var supportsAlpha := env.isRgbaColorObject(initialValue);
    var formatter := if supportsAlpha then ColorFormatter(ColorToHexRgbaString)
                     else ColorFormatter(ColorToHexRgbString);
    ColorSwatchTextController(formatter, CompositeColorParser, supportsAlpha, value)
  }

  /** The writer and the controller derive alpha support from the same
      initial value, so they agree, and the formatter shows alpha exactly then. */
  lemma AlphaAgrees(env: Collaborators, initialValue: Unknown, value: ValueRef)
    ensures var w := Binding(env, initialValue).writer.value;
            var c := Controller(env, initialValue, value);
            && w.supportsAlpha == c.supportsAlpha
            && (c.formatter.stringifier == ColorToHexRgbaString <==> w.supportsAlpha)
  {
  }
}
