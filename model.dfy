/** A minimal observable value: a raw value, an equality that suppresses
    no-op assignments, and change handlers that run synchronously, in the
    order they were registered. Handlers act on the abstract document. */
module Model {
  import opened Dom

  /** The payload of a `change` event. */
  datatype ChangeEvent<T> = ChangeEvent(rawValue: T)

  type Handler<!T> = ChangeEvent<T> -> DomUpdate

  /** The document after running `hs` on `ev`, first handler first. */
  function Emit<T>(d: DomState, hs: seq<Handler<T>>, ev: ChangeEvent<T>): DomState
    decreases |hs|
  {
    if hs == [] then d else hs[|hs| - 1](ev)(Emit(d, hs[..|hs| - 1], ev))
  }

  class Value<T> {
    var rawValue: T
    var handlers: seq<Handler<T>>
    const equals: (T, T) -> bool

    constructor (initial: T, equals: (T, T) -> bool)
      ensures rawValue == initial && handlers == [] && this.equals == equals
    {
      rawValue := initial;
      handlers := [];
      this.equals := equals;
    }

    /** `emitter.on('change', h)`. */
    method On(h: Handler<T>)
      modifies this`handlers
      ensures handlers == old(handlers) + [h]
    {
      handlers := handlers + [h];
    }

    /** `rawValue = v`: ignored when `v` equals the current value; otherwise
        stores `v` and runs every change handler on it, in order. */
    method SetRawValue(v: T, doc: Document)
      modifies this`rawValue, doc`elements
      ensures equals(old(rawValue), v) ==> rawValue == old(rawValue) && doc.elements == old(doc.elements)
      ensures !equals(old(rawValue), v) ==>
                rawValue == v && doc.elements == Emit(old(doc.elements), handlers, ChangeEvent(v))
    {
      if equals(rawValue, v) {
        return;
      }
      rawValue := v;
      var ev := ChangeEvent(v);
      var i := 0;
      while i < |handlers|
        invariant 0 <= i <= |handlers| && rawValue == v
        invariant doc.elements == Emit(old(doc.elements), handlers[..i], ev)
      {
        assert handlers[..i + 1][..i] == handlers[..i];
        doc.elements := handlers[i](ev)(doc.elements);
        i := i + 1;
      }
      assert handlers[..|handlers|] == handlers;
    }
  }

  /** A fixed-shape map from keys to observable values; the keys are fixed
      when it is built. */
  class ValueMap<K(==), T> {
    const values: map<K, Value<T>>

    constructor (values: map<K, Value<T>>)
      ensures this.values == values
    {
      this.values := values;
    }
  }

  /** Running `h` on `ev` sets field `f` of element `id` to `x`, whatever the document. */
  ghost predicate Sets<T>(h: Handler<T>, ev: ChangeEvent<T>, id: ElemId, f: Field, x: FieldValue)
  {
    forall d: DomState :: id in d ==> id in h(ev)(d) && FieldOf(h(ev)(d)[id], f) == x
  }

  /** Running `h` on `ev` keeps element `id` and its field `f` as they were. */
  ghost predicate Keeps<T>(h: Handler<T>, ev: ChangeEvent<T>, id: ElemId, f: Field)
  {
    forall d: DomState :: id in d ==> id in h(ev)(d) && FieldOf(h(ev)(d)[id], f) == FieldOf(d[id], f)
  }

  /** Running `h` on `ev` keeps element `id` in the document. */
  ghost predicate KeepsElement<T>(h: Handler<T>, ev: ChangeEvent<T>, id: ElemId)
  {
    forall d: DomState :: id in d ==> id in h(ev)(d)
  }

  /** Running `h` on `ev` changes no field but the fields `fs` of element `id`. */
  ghost predicate OnlyWrites<T>(h: Handler<T>, ev: ChangeEvent<T>, id: ElemId, fs: set<Field>)
  {
    forall id', f' :: (id' != id || f' !in fs) ==> Keeps(h, ev, id', f')
  }

  lemma {:induction false} EmitKeepsElement<T>(d: DomState, hs: seq<Handler<T>>, ev: ChangeEvent<T>, id: ElemId)
    requires id in d
    requires forall j :: 0 <= j < |hs| ==> KeepsElement(hs[j], ev, id)
    ensures id in Emit(d, hs, ev)
  {
    if hs != [] {
      EmitKeepsElement(d, hs[..|hs| - 1], ev, id);
    }
  }

  /** A field that no handler touches is the same after a change. */
  lemma {:induction false} EmitKeepsField<T>(d: DomState, hs: seq<Handler<T>>, ev: ChangeEvent<T>, id: ElemId, f: Field)
    requires id in d
    requires forall j :: 0 <= j < |hs| ==> Keeps(hs[j], ev, id, f)
    ensures id in Emit(d, hs, ev) && FieldOf(Emit(d, hs, ev)[id], f) == FieldOf(d[id], f)
  {
    if hs != [] {
      EmitKeepsField(d, hs[..|hs| - 1], ev, id, f);
    }
  }

  /** After a change, a field holds what the last handler writing it set it
      to: handler `i` sets it to `x` and the handlers after it leave it alone. */
  lemma {:induction false} EmitSetsField<T>(d: DomState, hs: seq<Handler<T>>, ev: ChangeEvent<T>, i: nat,
                                            id: ElemId, f: Field, x: FieldValue)
    requires id in d
    requires i < |hs|
    requires forall j :: 0 <= j < i ==> KeepsElement(hs[j], ev, id)
    requires Sets(hs[i], ev, id, f, x)
    requires forall j :: i < j < |hs| ==> Keeps(hs[j], ev, id, f)
    ensures id in Emit(d, hs, ev) && FieldOf(Emit(d, hs, ev)[id], f) == x
  {
    var prefix := hs[..|hs| - 1];
    if i == |hs| - 1 {
      EmitKeepsElement(d, prefix, ev, id);
    } else {
      EmitSetsField(d, prefix, ev, i, id, f, x);
    }
  }
}
