/**
 * Ports. An inport is a signal cell whose `set` is wrapped to store an
 * envelope; an outport remembers the last value it sent and forwards every
 * send to its registered targets. The decorators put one port record on the
 * class prototype, so every instance of a class shares its ports: the model
 * has one explicit `PortSchema` per class.
 */
module Port {
  import opened Js
  import opened Seqs

  /**
   * A `Signal.State` created by the inport decorator, with `set` replaced by
   * the wrapper that stores `{__dirty: true, value: v}`.
   */
  class State {
    /** The raw stored value: `undefined` until the first write, then an envelope. */
    var current: JsValue
    /**
     * The values written through `set`, oldest first. Each write stores a
     * fresh envelope object, so the signal sees every one as a change.
     */
    ghost var writes: seq<JsValue>

    constructor ()
      ensures current == Undefined && writes == []
    {
      current := Undefined;
      writes := [];
    }

    /** The wrapped `set(v)`: stores the envelope, even when `v` equals the last value. */
    method Set(v: JsValue)
      modifies this
      ensures current == Envelope(true, v)
      ensures writes == old(writes) + [v]
    {
      current := Envelope(true, v);
      writes := writes + [v];
    }
  }

  /**
   * What the inport property getter returns for a stored value:
   * `current?.value ?? current`.
   */
  function Unwrap(current: JsValue): JsValue {
    match current
    case Envelope(_, v) => if Nullish(v) then current else v
    case _ => current
  }

  /**
   * The getter reads back what was set, except that a `null` or `undefined`
   * write reads back as the envelope itself; before any write it reads
   * `undefined`.
   */
  lemma UnwrapAfterSet(v: JsValue)
    ensures !Nullish(v) ==> Unwrap(Envelope(true, v)) == v
    ensures Nullish(v) ==> Unwrap(Envelope(true, v)) == Envelope(true, v)
    ensures Unwrap(Undefined) == Undefined
  {
  }

  /** `Inport`: a name bound to a state. */
  class Inport {
    const name: JsString
    const state: State

    constructor (name: JsString, state: State)
      ensures this.name == name && this.state == state
    {
      this.name := name;
      this.state := state;
    }

    /** `get()`: the state's raw stored value, envelope and all. */
    method Get() returns (v: JsValue)
      ensures v == state.current
    {
      v := state.current;
    }
  }

  /** `Outport`: the last value sent and the ordered list of target states. */
  class Outport {
    const name: JsString
    var targets: seq<State>
    var value: JsValue

    constructor (name: JsString)
      ensures this.name == name && targets == [] && value == Undefined
    {
      this.name := name;
      targets := [];
      value := Undefined;
    }

    /** `_registerTarget(t)`: appends, never deduplicates. */
    method RegisterTarget(t: State)
      modifies this`targets
      ensures targets == old(targets) + [t]
    {
      targets := targets + [t];
    }

    /**
     * `send(v)`: records `v`, then calls `set(v)` on each target in
     * registration order (`calls` lists the receivers of those calls in the
     * order they are made), so a target registered `k` times receives `v`
     * `k` times. The target list is left as it was.
     */
    method Send(v: JsValue) returns (ghost calls: seq<State>)
      modifies this`value, targets
      ensures value == v && targets == old(targets)
      ensures calls == targets
      ensures forall t :: t in targets ==> t.current == Envelope(true, v)
      ensures forall t :: t in targets ==> t.writes == old(t.writes) + Repeat(v, Count(targets, t))
    {
      value := v;
      calls := [];
      for i := 0 to |targets|
        invariant value == v
        invariant calls == targets[..i]
        invariant forall t :: t in targets ==> t.writes == old(t.writes) + Repeat(v, Count(targets[..i], t))
        invariant forall t :: t in targets ==> t.current == if Count(targets[..i], t) > 0 then Envelope(true, v) else old(t.current)
      {
        label before:
        targets[i].Set(v);
        calls := calls + [targets[i]];
        forall t | t in targets
          ensures t.writes == old(t.writes) + Repeat(v, Count(targets[..i + 1], t))
          ensures t.current == if Count(targets[..i + 1], t) > 0 then Envelope(true, v) else old(t.current)
        {
          if t != targets[i] {
            assert t.writes == old@before(t.writes) && t.current == old@before(t.current);
          }
          RepeatRound(v, targets, i, t, old(t.writes), old@before(t.writes), t.writes);
        }
      }
      assert targets[..|targets|] == targets;
      forall t | t in targets
        ensures t.current == Envelope(true, v)
      {
        CountPositive(targets, t);
      }
    }
  }

  /** `"_" + name`, the key of an inport's state accessor. */
  function StateAccessor(name: JsString): JsString {
    [Underscore] + name
  }

  /** The inport a key such as `_value` is the state accessor of. */
  function AccessedInport(key: JsString): Option<JsString> {
    if |key| > 0 && key[0] == Underscore then Some(key[1..]) else None
  }

  lemma AccessedInportOfAccessor(name: JsString)
    ensures AccessedInport(StateAccessor(name)) == Some(name)
  {
  }

  /** What reading a decorated property of an instance yields. */
  datatype PropertyValue =
    | InportValue(value: JsValue)
    | StateObject(state: State)
    | OutportObject(port: Outport)
    | NotAPort

  /**
   * The decorators define each port's properties as non-configurable, so a
   * class whose ports would define one property twice fails while it is
   * defined: no outport may share a name with an inport or with an inport's
   * state accessor, and no inport may be named like another's accessor.
   */
  predicate DistinctProperties(inNames: seq<JsString>, outNames: seq<JsString>) {
    (forall n :: n in outNames ==> n !in inNames) &&
    (forall n, m :: n in outNames && m in inNames ==> n != StateAccessor(m)) &&
    (forall n, m :: n in inNames && m in inNames ==> n != StateAccessor(m))
  }

  /**
   * The `ports` record of one decorated class: one state per inport and one
   * `Outport` per outport, created once when the class is defined and shared
   * by all its instances.
   */
  class PortSchema {
    const inports: map<JsString, State>
    const outports: map<JsString, Outport>

    /** No property is defined twice and distinct ports are distinct objects. */
    ghost predicate Valid() {
      (forall n :: n in outports ==> n !in inports) &&
      (forall n, m :: n in outports && m in inports ==> n != StateAccessor(m)) &&
      (forall n, m :: n in inports && m in inports ==> n != StateAccessor(m)) &&
      (forall n, m :: n in inports && m in inports && n != m ==> inports[n] != inports[m]) &&
      (forall n, m :: n in outports && m in outports && n != m ==> outports[n] != outports[m])
    }

    /** Applying the decorators of a class: the inports, then the outports. */
    constructor (inNames: seq<JsString>, outNames: seq<JsString>)
      requires DistinctProperties(inNames, outNames)
      ensures Valid()
      ensures inports.Keys == set n | n in inNames
      ensures outports.Keys == set n | n in outNames
      ensures forall n :: n in inports ==> fresh(inports[n]) && inports[n].current == Undefined && inports[n].writes == []
      ensures forall n :: n in outports ==>
        fresh(outports[n]) && outports[n].name == n && outports[n].targets == [] && outports[n].value == Undefined
    {
      var ins: map<JsString, State> := map[];
      for i := 0 to |inNames|
        invariant ins.Keys == set n | n in inNames[..i]
        invariant forall n :: n in ins ==> fresh(ins[n]) && ins[n].current == Undefined && ins[n].writes == []
        invariant forall n, m :: n in ins && m in ins && n != m ==> ins[n] != ins[m]
      {
        var s := new State();
        ins := ins[inNames[i] := s];
        assert inNames[..i + 1] == inNames[..i] + [inNames[i]];
      }
      var outs: map<JsString, Outport> := map[];
      for i := 0 to |outNames|
        invariant outs.Keys == set n | n in outNames[..i]
        invariant forall n :: n in outs ==>
          fresh(outs[n]) && outs[n].name == n && outs[n].targets == [] && outs[n].value == Undefined
        invariant forall n, m :: n in outs && m in outs && n != m ==> outs[n] != outs[m]
        invariant forall n :: n in ins ==> ins[n].current == Undefined && ins[n].writes == []
      {
        var p := new Outport(outNames[i]);
        outs := outs[outNames[i] := p];
        assert outNames[..i + 1] == outNames[..i] + [outNames[i]];
      }
      assert inNames[..|inNames|] == inNames;
      assert outNames[..|outNames|] == outNames;
      inports := ins;
      outports := outs;
    }

    /**
     * Reading property `key` through the prototype's getters: an outport's
     * name always yields the same `Outport`, an inport's name its unwrapped
     * value, an inport's `_` accessor its state.
     */
    method GetProperty(key: JsString) returns (r: PropertyValue)
      requires Valid()
      ensures key in outports ==> r == OutportObject(outports[key])
      ensures key in inports ==> r == InportValue(Unwrap(inports[key].current))
      ensures forall n :: n in inports && key == StateAccessor(n) ==> r == StateObject(inports[n])
      ensures r == NotAPort <==>
        key !in outports && key !in inports && forall n :: n in inports ==> key != StateAccessor(n)
    {
      if key in outports {
        r := OutportObject(outports[key]);
      } else if key in inports {
        r := InportValue(Unwrap(inports[key].current));
      } else if AccessedInport(key).Some? && AccessedInport(key).value in inports {
        assert key == StateAccessor(key[1..]);
        r := StateObject(inports[key[1..]]);
      } else {
        r := NotAPort;
      }
    }

    /** The inport that assigning to `key` writes: `key` itself or the one it is the accessor of. */
    function InportAt(key: JsString): JsString
      requires key in inports || AccessedInport(key).Some?
    {
      if key in inports then key else key[1..]
    }

    /**
     * Assigning `v` to an inport's property or to its `_` accessor: both
     * setters call the wrapped `set`.
     */
    method AssignInport(key: JsString, v: JsValue)
      requires Valid()
      requires key in inports || (AccessedInport(key).Some? && AccessedInport(key).value in inports)
      modifies inports[InportAt(key)]
      ensures InportAt(key) in inports
      ensures key in inports || key == StateAccessor(InportAt(key))
      ensures inports[InportAt(key)].current == Envelope(true, v)
      ensures inports[InportAt(key)].writes == old(inports[InportAt(key)].writes) + [v]
    {
      if key !in inports {
        assert key == StateAccessor(key[1..]);
      }
      inports[InportAt(key)].Set(v);
    }

    /** Assigning `v` to an outport's property calls `send(v)` on it. */
    method AssignOutport(key: JsString, v: JsValue) returns (ghost calls: seq<State>)
      requires key in outports
      modifies (outports[key] as Outport)`value, outports[key].targets
      ensures outports[key].value == v && outports[key].targets == old(outports[key].targets)
      ensures calls == outports[key].targets
      ensures forall t :: t in outports[key].targets ==> t.current == Envelope(true, v)
      ensures forall t :: t in outports[key].targets ==>
        t.writes == old(t.writes) + Repeat(v, Count(outports[key].targets, t))
    {
      calls := outports[key].Send(v);
    }
  }
}
