/** The string monitor plugin: accepts strings and shows them in a multi-line
    log or a single-line log. */
module StringMonitorPlugin {
  import opened Common

  /** `accept`: the value itself when it is a string, null otherwise. */
  function Accept(value: Unknown, params: Params): (r: Option<Unknown>)
    ensures r.Some? <==> value.Str?
    ensures r.Some? ==> r.value == value
  {
    if value.Str? then Some(value) else None
  }

  /** `binding`: reads with `stringFromUnknown` and declares no writer. */
  function Binding(): (b: BindingSpec)
    ensures b.reader == StringFromUnknown
    ensures b.writer.None? && b.constraint.None?
  {
    BindingSpec(StringFromUnknown, None, None, DefaultEquality)
  }

  /** What `controller` receives: the monitor value (identity and its buffer,
      an array of slots whose length is the buffer size, empty slots
      included) and the params. */
  datatype ControllerArgs = ControllerArgs(value: ValueRef, buffer: seq<Option<string>>, params: Params)

  /** The buffer has more than one slot, or a truthy `multiline` param is present. */
  predicate Multiline(args: ControllerArgs)
  {
    |args.buffer| > 1 || ("multiline" in args.params && Truthy(args.params["multiline"]))
  }

  /** The line count a multi-line log shows: `params.lineCount ?? default`. */
  function LineCount(params: Params, defaultLineCount: int): (n: Unknown)
    ensures "lineCount" in params && !params["lineCount"].Undefined? && !params["lineCount"].Null? ==>
              n == params["lineCount"]
    ensures ("lineCount" !in params || params["lineCount"].Undefined? || params["lineCount"].Null?) ==>
              n == Num(defaultLineCount as real)
  {
    Coalesce(Lookup(params, "lineCount"), Num(defaultLineCount as real))
  }

  /** `controller`: a multi-log controller when `Multiline` holds, else a
      single-log controller; both format with a string formatter. The
      default line count is `Constants.monitor.defaultLineCount`. */
  function Controller(args: ControllerArgs, defaultLineCount: int): (r: Controller)
    ensures r.MultiLogController? <==> Multiline(args)
    ensures !Multiline(args) ==> r == SingleLogMonitorController(StringFormatter, args.value)
    ensures r.MultiLogController? ==> r.lineCount == LineCount(args.params, defaultLineCount)
    ensures (r.MultiLogController? || r.SingleLogMonitorController?)
            && r.formatter == StringFormatter && r.value == args.value
  {
    if Multiline(args) then
      MultiLogController(StringFormatter, LineCount(args.params, defaultLineCount), args.value)
    else
      SingleLogMonitorController(StringFormatter, args.value)
  }

  /** A buffer of more than one slot (empty ones included) is always shown
      multi-line, whatever the params say. */
  lemma LongBufferIsMultiline(args: ControllerArgs, defaultLineCount: int)
    requires |args.buffer| > 1
    ensures Controller(args, defaultLineCount).MultiLogController?
  {
  }

  /** With a buffer of at most one slot, the choice follows the `multiline`
      param: a falsy or missing one gives a single-line log. */
  lemma ShortBufferFollowsParam(args: ControllerArgs, defaultLineCount: int)
    requires |args.buffer| <= 1
    ensures Controller(args, defaultLineCount).MultiLogController?
            <==> "multiline" in args.params && Truthy(args.params["multiline"])
  {
  }
}
