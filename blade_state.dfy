/** Importing and exporting blade state: the helpers a blade controller uses
    to chain its own state after its parent class's. */
module BladeStateUtil {
  import opened Common

  /** A blade state: a plain record of named values. */
  type BladeState = map<string, Unknown>

  /** The calls `importBladeState` makes, in order. */
  datatype Call = SuperImport | Parse | Callback

  datatype ImportRun = ImportRun(result: bool, calls: seq<Call>)

  /** `importBladeState`: runs `superImport` first and stops with false when it
      fails; then parses the state and stops with false when parsing fails;
      otherwise returns what the callback returns on the parsed record. */
  function ImportBladeState<O>(
    state: BladeState,
    superImport: BladeState -> bool,
    parse: BladeState -> Option<O>,
    callback: O -> bool): (r: ImportRun)
    ensures !superImport(state) ==> r == ImportRun(false, [SuperImport])
    ensures superImport(state) && parse(state).None? ==> r == ImportRun(false, [SuperImport, Parse])
    ensures superImport(state) && parse(state).Some? ==>
              r == ImportRun(callback(parse(state).value), [SuperImport, Parse, Callback])
    ensures Callback in r.calls <==> superImport(state) && parse(state).Some?
    ensures r.result ==> Callback in r.calls
  {
    if !superImport(state) then ImportRun(false, [SuperImport])
    else
      match parse(state)
      case None => ImportRun(false, [SuperImport, Parse])
      case Some(o) => ImportRun(callback(o), [SuperImport, Parse, Callback])
  }

  /** `exportBladeState`: the parent's exported state overridden key by key
      by this blade's own state. */
  function ExportBladeState(superState: BladeState, thisState: BladeState): (r: BladeState)
    ensures r.Keys == superState.Keys + thisState.Keys
    ensures forall k :: k in thisState ==> r[k] == thisState[k]
    ensures forall k :: k in superState && k !in thisState ==> r[k] == superState[k]
    ensures thisState == map[] ==> r == superState
  {
    superState + thisState
  }

  /** Exporting the same own state twice changes nothing further. */
  lemma ExportIdempotent(superState: BladeState, thisState: BladeState)
    ensures ExportBladeState(ExportBladeState(superState, thisState), thisState)
            == ExportBladeState(superState, thisState)
  {
  }

  /** Chained exports (grandparent, parent, child) do not depend on grouping. */
  lemma ExportAssociative(a: BladeState, b: BladeState, c: BladeState)
    ensures ExportBladeState(ExportBladeState(a, b), c) == ExportBladeState(a, ExportBladeState(b, c))
  {
  }
}
