/**
 * `LitGraph`: a registry of node instances by id, selector resolution against
 * that registry and an optional host root, and `edge`, which wires outports
 * to inport states.
 */
module Graph {
  import opened Js
  import opened Seqs
  import opened Log
  import opened Port
  import opened Instance

  /**
   * The host root the graph resolves selectors against, reduced to what its
   * two lookups answer: the element with each id, and the matches of each
   * selector. Either lookup may be missing (a headless root has neither).
   */
  datatype Host = Host(
    getElementById: Option<map<JsString, NodeInstance>>,
    querySelectorAll: Option<map<JsString, seq<NodeInstance>>>)

  datatype GraphError =
    | DuplicateId(id: JsString)
    | SourceNotFound(selector: JsString)
    | SourcePortMissing(port: JsString, selector: JsString)
    | TargetNotFound(selector: JsString)
    | TargetPortUndefined
    | TargetStateMissing(key: JsString, selector: JsString)

  datatype Outcome = Pass | Fail(error: GraphError)

  /** What `root.getElementById?.(sel)` finds. */
  function ById(root: Host, sel: JsString): Option<NodeInstance> {
    match root.getElementById
    case Some(elements) => if sel in elements then Some(elements[sel]) else None
    case None => None
  }

  /** What `root.querySelectorAll(sel)` finds, nothing when the root has no such method. */
  function QueryAll(root: Host, sel: JsString): seq<NodeInstance> {
    match root.querySelectorAll
    case Some(matches) => if sel in matches then matches[sel] else []
    case None => []
  }

  /**
   * The matches `resolveNodes(sel)` collects: the registry's entry, then the
   * root's element with that id, and only when both are missing, everything
   * `querySelectorAll` returns.
   */
  function Resolve(nodes: map<JsString, NodeInstance>, root: Host, sel: JsString): seq<NodeInstance> {
    var fromMap := if sel in nodes then [nodes[sel]] else [];
    var byId := match ById(root, sel) case Some(n) => [n] case None => [];
    if |fromMap + byId| == 0 then QueryAll(root, sel) else fromMap + byId
  }

  /**
   * Resolution does not stop at the registry: a registry match and an id
   * match are both returned, registry first, and the broad query is used
   * exactly when neither exists.
   */
  lemma ResolveOrder(nodes: map<JsString, NodeInstance>, root: Host, sel: JsString)
    ensures sel in nodes ==> |Resolve(nodes, root, sel)| >= 1 && Resolve(nodes, root, sel)[0] == nodes[sel]
    ensures ById(root, sel).Some? ==>
      var at := if sel in nodes then 1 else 0;
      |Resolve(nodes, root, sel)| == at + 1 && Resolve(nodes, root, sel)[at] == ById(root, sel).value
    ensures sel !in nodes && ById(root, sel).None? ==> Resolve(nodes, root, sel) == QueryAll(root, sel)
    ensures sel in nodes || ById(root, sel).Some? ==>
      Resolve(nodes, root, sel) ==
        (if sel in nodes then [nodes[sel]] else []) + (if ById(root, sel).Some? then [ById(root, sel).value] else [])
    ensures |Resolve(nodes, root, sel)| == 0 <==>
      sel !in nodes && ById(root, sel).None? && |QueryAll(root, sel)| == 0
  {
  }

  /**
   * `path.split('.')` destructured as `[selector, port]`: the text before the
   * first dot, and the text between the first and second dot, or no port
   * when there is no dot.
   */
  function SplitPath(path: JsString): (JsString, Option<JsString>) {
    var i := IndexOf(path, Dot);
    if i < 0 then (path, None)
    else
      var rest := path[i + 1..];
      var k := IndexOf(rest, Dot);
      (path[..i], Some(if k < 0 then rest else rest[..k]))
  }

  /** Splitting inverts joining a dot-free selector and port with a dot. */
  lemma SplitPathJoin(sel: JsString, port: JsString)
    requires Dot !in sel && Dot !in port
    ensures SplitPath(sel + [Dot] + port) == (sel, Some(port))
  {
    var path := sel + [Dot] + port;
    var i := IndexOf(path, Dot);
    assert path[|sel|] == Dot;
    assert path[..|sel|] == sel;
    assert path[|sel| + 1..] == port;
  }

  /** Neither part of a split contains a dot; there is no port exactly when the path has no dot. */
  lemma SplitPathParts(path: JsString)
    ensures Dot !in SplitPath(path).0
    ensures SplitPath(path).1.Some? ==> Dot !in SplitPath(path).1.value
    ensures SplitPath(path).1.None? <==> Dot !in path
  {
  }

  /** The key `node?.[srcPort]` reads: the port name, or `undefined` when the path had no dot. */
  function PortKey(port: Option<JsString>): JsString {
    match port
    case Some(p) => p
    case None => UndefinedText
  }

  /** The destination state key: the port name if it starts with `_`, else `_` and the name. */
  function StateKey(port: JsString): JsString {
    if |port| > 0 && port[0] == Underscore then port else StateAccessor(port)
  }

  /** Prefixing twice is prefixing once, and the key always names an inport's accessor. */
  lemma StateKeyIdempotent(port: JsString)
    ensures StateKey(StateKey(port)) == StateKey(port)
    ensures AccessedInport(StateKey(port)) == Some(if |port| > 0 && port[0] == Underscore then port[1..] else port)
  {
  }

  predicate AllHaveOutport(ns: seq<NodeInstance>, key: JsString) {
    forall j :: 0 <= j < |ns| ==> OutportOf(ns[j], key).Some?
  }

  /** The outports named `key` on each of `ns`, in order. */
  function OutportsOf(ns: seq<NodeInstance>, key: JsString): seq<Outport>
    requires AllHaveOutport(ns, key)
  {
    seq(|ns|, j requires 0 <= j < |ns| => OutportOf(ns[j], key).value)
  }

  /** An edge's source: an outport given directly, or a `"selector.port"` path. */
  datatype Source = SourcePort(port: Outport) | SourcePath(path: JsString)

  /** An edge's destination: a state given directly, or a `"selector.port"` path. */
  datatype Destination = DestinationState(state: State) | DestinationPath(path: JsString)

  /**
   * The outports an edge wires from, or why the source side fails: no node
   * matches the selector, or some match lacks the port.
   */
  function SourcePorts(nodes: map<JsString, NodeInstance>, root: Host, src: Source): (r: Result<seq<Outport>, GraphError>)
    ensures r.Ok? ==> |r.value| > 0
  {
    match src
    case SourcePort(o) => Ok([o])
    case SourcePath(path) =>
      var (sel, port) := SplitPath(path);
      var ns := Resolve(nodes, root, sel);
      if |ns| == 0 then Err(SourceNotFound(sel))
      else if !AllHaveOutport(ns, PortKey(port)) then Err(SourcePortMissing(PortKey(port), sel))
      else Ok(OutportsOf(ns, PortKey(port)))
  }

  /** The outports an edge may touch: none when its source side fails. */
  function Sources(nodes: map<JsString, NodeInstance>, root: Host, src: Source): seq<Outport> {
    match SourcePorts(nodes, root, src)
    case Ok(outs) => outs
    case Err(_) => []
  }

  /** The position of the first node without the state `key`, or `|ns|` when all have it. */
  function FirstMissing(ns: seq<NodeInstance>, key: JsString): (k: nat)
    ensures k <= |ns|
  {
    if |ns| == 0 || StateOf(ns[0], key).None? then 0 else 1 + FirstMissing(ns[1..], key)
  }

  /** The states named `key` on the nodes before the first one without it, in order. */
  function Found(ns: seq<NodeInstance>, key: JsString): seq<State> {
    if |ns| == 0 then []
    else match StateOf(ns[0], key)
      case None => []
      case Some(s) => [s] + Found(ns[1..], key)
  }

  /**
   * `FirstMissing` is what its name says: every node before it has the
   * state, the node at it does not, and `Found` holds exactly those states.
   */
  lemma {:induction false} FirstMissingSpec(ns: seq<NodeInstance>, key: JsString)
    ensures forall j :: 0 <= j < FirstMissing(ns, key) ==> StateOf(ns[j], key).Some?
    ensures FirstMissing(ns, key) < |ns| ==> StateOf(ns[FirstMissing(ns, key)], key).None?
    ensures |Found(ns, key)| == FirstMissing(ns, key)
    ensures forall j :: 0 <= j < FirstMissing(ns, key) ==> Found(ns, key)[j] == StateOf(ns[j], key).value
  {
    if |ns| > 0 && StateOf(ns[0], key).Some? {
      FirstMissingSpec(ns[1..], key);
      assert forall j :: 1 <= j < |ns| ==> ns[1..][j - 1] == ns[j];
    }
  }

  /** The first missing state is at `k` when the nodes before `k` all have one and node `k` (if any) has none. */
  lemma {:induction false} FirstMissingAt(ns: seq<NodeInstance>, key: JsString, k: nat)
    requires k <= |ns|
    requires forall i :: 0 <= i < k ==> StateOf(ns[i], key).Some?
    requires k < |ns| ==> StateOf(ns[k], key).None?
    ensures FirstMissing(ns, key) == k
    ensures Found(ns, key) == Found(ns[..k], key)
  {
    if k > 0 {
      FirstMissingAt(ns[1..], key, k - 1);
      assert ns[..k][1..] == ns[1..][..k - 1];
    }
  }

  /** Extending nodes that all have the state by one more node extends `Found` by its state, if any. */
  lemma {:induction false} FoundSnoc(ns: seq<NodeInstance>, n: NodeInstance, key: JsString)
    requires forall i :: 0 <= i < |ns| ==> StateOf(ns[i], key).Some?
    ensures Found(ns + [n], key) == Found(ns, key) + (match StateOf(n, key) case Some(s) => [s] case None => [])
  {
    if |ns| > 0 {
      assert (ns + [n])[1..] == ns[1..] + [n];
      FoundSnoc(ns[1..], n, key);
    }
  }

  /**
   * The destination side of an edge, as it unfolds for each outport: the
   * states found before the first failure, and that failure if any.
   */
  datatype TargetPlan = TargetPlan(states: seq<State>, error: Option<GraphError>)

  function TargetStates(nodes: map<JsString, NodeInstance>, root: Host, dst: Destination): TargetPlan {
    match dst
    case DestinationState(s) => TargetPlan([s], None)
    case DestinationPath(path) =>
      var (sel, port) := SplitPath(path);
      var ns := Resolve(nodes, root, sel);
      if |ns| == 0 then TargetPlan([], Some(TargetNotFound(sel)))
      else if port.None? then TargetPlan([], Some(TargetPortUndefined))
      else
        var key := StateKey(port.value);
        TargetPlan(Found(ns, key), if FirstMissing(ns, key) < |ns| then Some(TargetStateMissing(key, sel)) else None)
  }

  /** One outport paired with each state, in order. */
  function Pairs(out: Outport, states: seq<State>): seq<(Outport, State)> {
    seq(|states|, j requires 0 <= j < |states| => (out, states[j]))
  }

  /** Every outport paired with every state, outport by outport. */
  function Cross(outs: seq<Outport>, states: seq<State>): seq<(Outport, State)> {
    if |outs| == 0 then [] else Cross(outs[..|outs| - 1], states) + Pairs(outs[|outs| - 1], states)
  }

  /** The states a sequence of registrations adds to outport `o`, in order. */
  function WiredTo(wired: seq<(Outport, State)>, o: Outport): seq<State> {
    if |wired| == 0 then []
    else WiredTo(wired[..|wired| - 1], o) + (if wired[|wired| - 1].0 == o then [wired[|wired| - 1].1] else [])
  }

  /** The registrations one call of `edge` makes, in order, and how it ends. */
  datatype Run = Run(wired: seq<(Outport, State)>, outcome: Outcome)

  /**
   * `edge(src, dst)`: a source failure registers nothing; otherwise the
   * destination is resolved for the first outport, and a destination failure
   * leaves in place the connections that outport already made.
   */
  function EdgeRun(nodes: map<JsString, NodeInstance>, root: Host, src: Source, dst: Destination): Run {
    match SourcePorts(nodes, root, src)
    case Err(e) => Run([], Fail(e))
    case Ok(outs) => Run(Wiring(outs, TargetStates(nodes, root, dst)), PlanOutcome(TargetStates(nodes, root, dst)))
  }

  /**
   * The registrations made once the outports `outs` are known: every outport
   * to every state, or, when the destination fails, the first outport to the
   * states found before the failure.
   */
  function Wiring(outs: seq<Outport>, plan: TargetPlan): seq<(Outport, State)>
    requires |outs| > 0
  {
    if plan.error.None? then Cross(outs, plan.states) else Pairs(outs[0], plan.states)
  }

  /** How a round of the destination side ends. */
  function PlanOutcome(plan: TargetPlan): Outcome {
    match plan.error
    case None => Pass
    case Some(e) => Fail(e)
  }

  lemma WiredToAppend(wired: seq<(Outport, State)>, p: (Outport, State))
    ensures forall o :: WiredTo(wired + [p], o) == WiredTo(wired, o) + (if p.0 == o then [p.1] else [])
  {
    assert (wired + [p])[..|wired|] == wired;
  }

  /** Registering `out` to each of `states` adds exactly `states` to `out` and nothing to any other outport. */
  lemma {:induction false} WiredToPairs(wired: seq<(Outport, State)>, out: Outport, states: seq<State>)
    ensures forall o :: WiredTo(wired + Pairs(out, states), o) == WiredTo(wired, o) + (if out == o then states else [])
  {
    if |states| > 0 {
      var n := |states| - 1;
      WiredToPairs(wired, out, states[..n]);
      assert Pairs(out, states) == Pairs(out, states[..n]) + [(out, states[n])];
      assert wired + Pairs(out, states) == (wired + Pairs(out, states[..n])) + [(out, states[n])];
      WiredToAppend(wired + Pairs(out, states[..n]), (out, states[n]));
      assert states == states[..n] + [states[n]];
    } else {
      assert wired + Pairs(out, states) == wired;
    }
  }

  /** A cross product has one registration per outport and state. */
  lemma {:induction false} CrossLength(outs: seq<Outport>, states: seq<State>)
    ensures |Cross(outs, states)| == |outs| * |states|
  {
    if |outs| > 0 {
      var n := |outs| - 1;
      CrossLength(outs[..n], states);
      assert |outs| * |states| == n * |states| + |states|;
    }
  }

  lemma RowBound(i: nat, n: nat, m: nat, j: nat)
    requires i < n && j < m
    ensures i * m + j < n * m
  {
    assert (i + 1) * m == i * m + m;
    assert (i + 1) * m <= n * m;
  }

  /** The cross product is ordered outport by outport, and by state within each outport. */
  lemma {:induction false} CrossAt(outs: seq<Outport>, states: seq<State>, i: nat, j: nat)
    requires i < |outs| && j < |states|
    ensures i * |states| + j < |Cross(outs, states)|
    ensures Cross(outs, states)[i * |states| + j] == (outs[i], states[j])
  {
    var n, m := |outs| - 1, |states|;
    var front := Cross(outs[..n], states);
    assert Cross(outs, states) == front + Pairs(outs[n], states);
    CrossLength(outs[..n], states);
    RowBound(i, n + 1, m, j);
    CrossLength(outs, states);
    if i < n {
      CrossAt(outs[..n], states, i, j);
      RowBound(i, n, m, j);
    } else {
      assert i * m + j == |front| + j;
    }
  }

  /** Wiring every outport to every state adds the states to `o` once per occurrence of `o`. */
  lemma {:induction false} WiredToCross(outs: seq<Outport>, states: seq<State>)
    ensures forall o :: WiredTo(Cross(outs, states), o) == Copies(states, Count(outs, o))
  {
    if |outs| > 0 {
      var n := |outs| - 1;
      WiredToCross(outs[..n], states);
      WiredToPairs(Cross(outs[..n], states), outs[n], states);
      forall o
        ensures WiredTo(Cross(outs, states), o) == Copies(states, Count(outs, o))
      {
        assert outs == outs[..n] + [outs[n]];
        CountAppend(outs[..n], outs[n], o);
      }
    }
  }

  /** A source that fails to resolve fails the edge before anything is registered. */
  lemma SourceFailureWiresNothing(nodes: map<JsString, NodeInstance>, root: Host, src: Source, dst: Destination)
    requires SourcePorts(nodes, root, src).Err?
    ensures EdgeRun(nodes, root, src, dst) == Run([], Fail(SourcePorts(nodes, root, src).error))
    ensures Sources(nodes, root, src) == []
  {
  }

  /** Endpoints given as objects are used as they are: one registration, no resolution, no failure. */
  lemma DirectEndpointsAreNotResolved(nodes: map<JsString, NodeInstance>, root: Host, o: Outport, s: State)
    ensures Sources(nodes, root, SourcePort(o)) == [o]
    ensures EdgeRun(nodes, root, SourcePort(o), DestinationState(s)) == Run([(o, s)], Pass)
  {
    assert Cross([o], [s]) == Cross([], [s]) + Pairs(o, [s]);
  }

  /**
   * A successful edge registers the cross product of the source outports and
   * the destination states, `|sources| * |states|` targets in all, and gives
   * each outport the states once for each time it occurs among the sources.
   */
  lemma SuccessfulEdgeIsCrossProduct(nodes: map<JsString, NodeInstance>, root: Host, src: Source, dst: Destination)
    requires EdgeRun(nodes, root, src, dst).outcome == Pass
    ensures var run, outs, states := EdgeRun(nodes, root, src, dst), Sources(nodes, root, src), TargetStates(nodes, root, dst).states;
      && run.wired == Cross(outs, states)
      && |run.wired| == |outs| * |states|
      && (forall o :: WiredTo(run.wired, o) == Copies(states, Count(outs, o)))
  {
    var outs, plan := Sources(nodes, root, src), TargetStates(nodes, root, dst);
    assert SourcePorts(nodes, root, src).Ok?;
    EdgeRunOfSources(nodes, root, src, dst);
    assert plan.error.None?;
    assert EdgeRun(nodes, root, src, dst).wired == Cross(outs, plan.states);
    CrossLength(outs, plan.states);
    WiredToCross(outs, plan.states);
  }

  /**
   * With selector paths on both sides, a successful edge registers one
   * target per source match and destination match: the sources are the
   * matches' outports and the states are the matches' states, in order.
   */
  lemma {:induction false} PathEdgeCoversAllMatches(nodes: map<JsString, NodeInstance>, root: Host, src: JsString, dst: JsString)
    requires EdgeRun(nodes, root, SourcePath(src), DestinationPath(dst)).outcome == Pass
    ensures var srcNodes, dstNodes := Resolve(nodes, root, SplitPath(src).0), Resolve(nodes, root, SplitPath(dst).0);
      var key := StateKey(SplitPath(dst).1.value);
      && |Sources(nodes, root, SourcePath(src))| == |srcNodes|
      && (forall i :: 0 <= i < |srcNodes| ==>
            Some(Sources(nodes, root, SourcePath(src))[i]) == OutportOf(srcNodes[i], PortKey(SplitPath(src).1)))
      && |TargetStates(nodes, root, DestinationPath(dst)).states| == |dstNodes|
      && (forall j :: 0 <= j < |dstNodes| ==>
            Some(TargetStates(nodes, root, DestinationPath(dst)).states[j]) == StateOf(dstNodes[j], key))
      && |EdgeRun(nodes, root, SourcePath(src), DestinationPath(dst)).wired| == |srcNodes| * |dstNodes|
  {
    var dstNodes := Resolve(nodes, root, SplitPath(dst).0);
    var key := StateKey(SplitPath(dst).1.value);
    FirstMissingSpec(dstNodes, key);
    SuccessfulEdgeIsCrossProduct(nodes, root, SourcePath(src), DestinationPath(dst));
  }

  /**
   * When a destination node lacks the state, `edge` fails, yet the first
   * source outport keeps its connections to the states of the destination
   * nodes before that one, and no other outport gains any.
   */
  lemma DestinationFailureKeepsEarlierConnections(
    nodes: map<JsString, NodeInstance>, root: Host, src: Source, dst: JsString)
    requires SourcePorts(nodes, root, src).Ok?
    requires TargetStates(nodes, root, DestinationPath(dst)).error.Some?
    ensures var run, outs := EdgeRun(nodes, root, src, DestinationPath(dst)), Sources(nodes, root, src);
      var (sel, port) := SplitPath(dst);
      && run.outcome.Fail?
      && (run.outcome.error.TargetStateMissing? ==>
            && port.Some?
            && var dstNodes, key := Resolve(nodes, root, sel), StateKey(port.value);
            && |run.wired| == FirstMissing(dstNodes, key) < |dstNodes|
            && WiredTo(run.wired, outs[0]) == Found(dstNodes, key))
      && (!run.outcome.error.TargetStateMissing? ==> run.wired == [])
      && (forall o :: o != outs[0] ==> WiredTo(run.wired, o) == [])
  {
    var outs := Sources(nodes, root, src);
    var plan := TargetStates(nodes, root, DestinationPath(dst));
    var (sel, port) := SplitPath(dst);
    var dstNodes := Resolve(nodes, root, sel);
    WiredToPairs([], outs[0], plan.states);
    assert [] + Pairs(outs[0], plan.states) == Pairs(outs[0], plan.states);
    if port.Some? && |dstNodes| > 0 {
      FirstMissingSpec(dstNodes, StateKey(port.value));
    }
  }

  /**
   * `edge` is not all-or-nothing: a destination whose first match has the
   * state and whose later match lacks it makes the edge fail after
   * registering targets.
   */
  lemma EdgeIsNotAtomic(nodes: map<JsString, NodeInstance>, root: Host, src: Source, dst: JsString)
    requires SourcePorts(nodes, root, src).Ok?
    requires var (sel, port) := SplitPath(dst); var dstNodes := Resolve(nodes, root, sel);
      port.Some? && 0 < FirstMissing(dstNodes, StateKey(port.value)) < |dstNodes|
    ensures EdgeRun(nodes, root, src, DestinationPath(dst)).outcome.Fail?
    ensures |EdgeRun(nodes, root, src, DestinationPath(dst)).wired| > 0
  {
    var (sel, port) := SplitPath(dst);
    FirstMissingSpec(Resolve(nodes, root, sel), StateKey(port.value));
  }

  /**
   * An all-or-nothing edge: every lookup on both sides succeeds before
   * anything is registered, and a failure registers nothing.
   */
  function AtomicEdgeRun(nodes: map<JsString, NodeInstance>, root: Host, src: Source, dst: Destination): Run {
    match SourcePorts(nodes, root, src)
    case Err(e) => Run([], Fail(e))
    case Ok(outs) =>
      var plan := TargetStates(nodes, root, dst);
      match plan.error
      case Some(e) => Run([], Fail(e))
      case None => Run(Cross(outs, plan.states), Pass)
  }

  /**
   * The all-or-nothing edge fails exactly when `edge` does, with the same
   * error, registers nothing when it fails, and registers what `edge` does
   * when it succeeds.
   */
  lemma AtomicEdgeAllOrNothing(nodes: map<JsString, NodeInstance>, root: Host, src: Source, dst: Destination)
    ensures AtomicEdgeRun(nodes, root, src, dst).outcome == EdgeRun(nodes, root, src, dst).outcome
    ensures AtomicEdgeRun(nodes, root, src, dst).outcome.Fail? ==> AtomicEdgeRun(nodes, root, src, dst).wired == []
    ensures AtomicEdgeRun(nodes, root, src, dst).outcome.Pass? ==>
      AtomicEdgeRun(nodes, root, src, dst).wired == EdgeRun(nodes, root, src, dst).wired
  {
  }

  /** Once the sources resolve, `edge` makes the registrations `Wiring` lists and ends as the plan says. */
  lemma EdgeRunOfSources(nodes: map<JsString, NodeInstance>, root: Host, src: Source, dst: Destination)
    requires SourcePorts(nodes, root, src).Ok?
    ensures Sources(nodes, root, src) == SourcePorts(nodes, root, src).value
    ensures EdgeRun(nodes, root, src, dst) ==
      Run(Wiring(Sources(nodes, root, src), TargetStates(nodes, root, dst)), PlanOutcome(TargetStates(nodes, root, dst)))
  {
  }

  /** What `Wiring` adds to each outport: its share of the cross product, or on failure the first outport's states. */
  lemma WiringPerOutport(outs: seq<Outport>, plan: TargetPlan)
    requires |outs| > 0
    ensures forall o :: (WiredTo(Wiring(outs, plan), o) ==
      if plan.error.None? then Copies(plan.states, Count(outs, o)) else if o == outs[0] then plan.states else [])
  {
    if plan.error.None? {
      WiredToCross(outs, plan.states);
    } else {
      WiredToPairs([], outs[0], plan.states);
      assert [] + Pairs(outs[0], plan.states) == Wiring(outs, plan);
      assert forall o :: WiredTo([], o) == [];
    }
  }

  class LitGraph {
    var nodes: map<JsString, NodeInstance>
    var logLevel: Level
    const root: Host

    /** A graph over `root`, with no nodes and level `info`. */
    constructor (root: Host)
      ensures nodes == map[] && logLevel == Info && this.root == root
    {
      nodes := map[];
      logLevel := Info;
      this.root := root;
    }

    /** `setLogLevel(level)`: records the level and passes it to the logger. */
    method SetLogLevel(level: Level, settings: LogSettings)
      modifies this`logLevel, settings
      ensures logLevel == level && settings.logLevel == LevelText(level)
      ensures forall l :: settings.Enabled(l) <==> Rank(l) >= Rank(LevelText(level))
    {
      logLevel := level;
      settings.SetLogLevel(LevelText(level));
    }

    method GetLogLevel() returns (level: Level)
      ensures level == logLevel
    {
      level := logLevel;
    }

    /**
     * `node(id, Ctor)`: a duplicate id fails and leaves the registry alone;
     * otherwise a new instance is added under `id` and nothing else changes.
     */
    method Node(id: JsString, ctor: NodeClass) returns (r: Result<NodeInstance, GraphError>)
      modifies this`nodes
      ensures id in old(nodes) ==> r == Err(DuplicateId(id)) && nodes == old(nodes)
      ensures id !in old(nodes) ==>
        r.Ok? && fresh(r.value) && r.value.schema == ctor.schema && r.value.className == ctor.name &&
        nodes == old(nodes)[id := r.value]
    {
      if id in nodes {
        return Err(DuplicateId(id));
      }
      var inst := new NodeInstance(ctor.schema, None, None, ctor.name);
      nodes := nodes[id := inst];
      r := Ok(inst);
    }

    /** `resolveNodes(sel)`, collecting matches with `push`. */
    method ResolveNodes(sel: JsString) returns (results: seq<NodeInstance>)
      ensures results == Resolve(nodes, root, sel)
    {
      results := [];
      if sel in nodes {
        results := results + [nodes[sel]];
      }
      var byId := ById(root, sel);
      if byId.Some? {
        results := results + [byId.value];
      }
      if |results| == 0 && root.querySelectorAll.Some? {
        var all := QueryAll(root, sel);
        for i := 0 to |all|
          invariant results == all[..i]
        {
          results := results + [all[i]];
        }
        assert all[..|all|] == all;
      }
    }

    /** The source half of `edge`: collecting the outports with `push`, or failing. */
    method SourceOutports(src: Source) returns (r: Result<seq<Outport>, GraphError>)
      ensures r == SourcePorts(nodes, root, src)
    {
      match src {
        case SourcePort(o) =>
          r := Ok([o]);
        case SourcePath(path) =>
          var (sel, port) := SplitPath(path);
          var srcNodes := ResolveNodes(sel);
          if |srcNodes| == 0 {
            return Err(SourceNotFound(sel));
          }
          var key := PortKey(port);
          var outports: seq<Outport> := [];
          for i := 0 to |srcNodes|
            invariant |outports| == i
            invariant forall j :: 0 <= j < i ==> OutportOf(srcNodes[j], key) == Some(outports[j])
          {
            var p := OutportOf(srcNodes[i], key);
            if p.None? {
              return Err(SourcePortMissing(key, sel));
            }
            outports := outports + [p.value];
          }
          assert outports == OutportsOf(srcNodes, key);
          r := Ok(outports);
      }
    }

    /**
     * One round of `edge`'s loop: resolves the destination and connects `out`
     * to each state it finds, stopping at the first failure. Whether or not
     * it fails, `out` keeps the states connected so far.
     */
    method ConnectOutport(out: Outport, dst: Destination, ghost plan: TargetPlan) returns (outcome: Outcome)
      requires plan == TargetStates(nodes, root, dst)
      modifies out`targets
      ensures out.targets == old(out.targets) + plan.states
      ensures outcome == PlanOutcome(plan)
    {
      match dst {
        case DestinationState(s) =>
          out.RegisterTarget(s);
          outcome := Pass;
        case DestinationPath(path) =>
          var (sel, port) := SplitPath(path);
          var dstNodes := ResolveNodes(sel);
          if |dstNodes| == 0 {
            return Fail(TargetNotFound(sel));
          }
          if port.None? {
            return Fail(TargetPortUndefined);
          }
          var key := StateKey(port.value);
          var k := ConnectStates(out, dstNodes, key);
          if k < |dstNodes| {
            return Fail(TargetStateMissing(key, sel));
          }
          outcome := Pass;
      }
    }

    /**
     * The `forEach` over the destination nodes: connects `out` to the state
     * `key` of each node in turn and stops at the first node without one,
     * returning its position.
     */
    method ConnectStates(out: Outport, dstNodes: seq<NodeInstance>, key: JsString) returns (k: nat)
      modifies out`targets
      ensures k == FirstMissing(dstNodes, key)
      ensures out.targets == old(out.targets) + Found(dstNodes, key)
    {
      k := 0;
      while k < |dstNodes|
        invariant k <= |dstNodes|
        invariant forall i :: 0 <= i < k ==> StateOf(dstNodes[i], key).Some?
        invariant out.targets == old(out.targets) + Found(dstNodes[..k], key)
      {
        var st := StateOf(dstNodes[k], key);
        if st.None? {
          FirstMissingAt(dstNodes, key, k);
          return;
        }
        out.RegisterTarget(st.value);
        assert dstNodes[..k + 1] == dstNodes[..k] + [dstNodes[k]];
        FoundSnoc(dstNodes[..k], dstNodes[k], key);
        k := k + 1;
      }
      FirstMissingAt(dstNodes, key, k);
    }

    /**
     * `edge(src, dst)`, as written: the source side is resolved completely
     * before anything is connected; then each outport in turn resolves the
     * destination and is connected to each state as soon as it is found.
     */
    method Edge(src: Source, dst: Destination) returns (outcome: Outcome)
      modifies Sources(nodes, root, src)`targets
      ensures outcome == EdgeRun(nodes, root, src, dst).outcome
      ensures forall o :: o in Sources(nodes, root, src) && old(allocated(o)) ==>
        o.targets == old(o.targets) + WiredTo(EdgeRun(nodes, root, src, dst).wired, o)
    {
      var sources := SourceOutports(src);
      if sources.Err? {
        return Fail(sources.error);
      }
      var outports := sources.value;
      ghost var plan := TargetStates(nodes, root, dst);
      EdgeRunOfSources(nodes, root, src, dst);
      outcome := ConnectAll(outports, dst, plan);
      WiringPerOutport(outports, plan);
    }

    /**
     * The loop of `edge` over the source outports, stopping at the first
     * failure: each outport is connected to the states as often as it occurs
     * among the sources, or, on failure, only the first one is connected.
     */
    method ConnectAll(outports: seq<Outport>, dst: Destination, ghost plan: TargetPlan) returns (outcome: Outcome)
      requires |outports| > 0 && plan == TargetStates(nodes, root, dst)
      modifies outports`targets
      ensures outcome == PlanOutcome(plan)
      ensures plan.error.None? ==>
        forall o :: o in outports ==> o.targets == old(o.targets) + Copies(plan.states, Count(outports, o))
      ensures plan.error.Some? ==>
        forall o :: o in outports ==> o.targets == old(o.targets) + (if o == outports[0] then plan.states else [])
    {
      for i := 0 to |outports|
        invariant forall o :: o in outports ==> o.targets == old(o.targets) + Copies(plan.states, Count(outports[..i], o))
        invariant i > 0 ==> plan.error.None?
      {
        label before:
        outcome := ConnectOutport(outports[i], dst, plan);
        if outcome.Fail? {
          assert i == 0;
          CountPrefixStep(outports, 0);
          return;
        }
        forall o | o in outports
          ensures o.targets == old(o.targets) + Copies(plan.states, Count(outports[..i + 1], o))
        {
          if o != outports[i] {
            assert o.targets == old@before(o.targets);
          }
          CopiesRound(plan.states, outports, i, o, old(o.targets), old@before(o.targets), o.targets);
        }
      }
      assert outports[..|outports|] == outports;
      outcome := Pass;
    }

    /**
     * The all-or-nothing `edge`: resolves the source, then looks up every
     * destination state without registering any, and only then connects.
     */
    method EdgeAtomic(src: Source, dst: Destination) returns (outcome: Outcome)
      modifies Sources(nodes, root, src)`targets
      ensures outcome == AtomicEdgeRun(nodes, root, src, dst).outcome
      ensures forall o :: o in Sources(nodes, root, src) && old(allocated(o)) ==>
        o.targets == old(o.targets) + WiredTo(AtomicEdgeRun(nodes, root, src, dst).wired, o)
    {
      var sources := SourceOutports(src);
      if sources.Err? {
        return Fail(sources.error);
      }
      var outports := sources.value;
      ghost var plan := TargetStates(nodes, root, dst);
      assert outports == Sources(nodes, root, src);
      outcome := CheckDestination(dst);
      if outcome.Fail? {
        assert forall o :: WiredTo([], o) == [];
        return;
      }
      assert AtomicEdgeRun(nodes, root, src, dst) == Run(Cross(outports, plan.states), Pass);
      outcome := ConnectAll(outports, dst, plan);
      WiredToCross(outports, plan.states);
    }

    /** Resolves the destination and looks up each state, registering nothing. */
    method CheckDestination(dst: Destination) returns (outcome: Outcome)
      ensures outcome == PlanOutcome(TargetStates(nodes, root, dst))
    {
      match dst {
        case DestinationState(_) =>
          outcome := Pass;
        case DestinationPath(path) =>
          var (sel, port) := SplitPath(path);
          var dstNodes := ResolveNodes(sel);
          if |dstNodes| == 0 {
            return Fail(TargetNotFound(sel));
          }
          if port.None? {
            return Fail(TargetPortUndefined);
          }
          var key := StateKey(port.value);
          var k := FindMissing(dstNodes, key);
          outcome := if k < |dstNodes| then Fail(TargetStateMissing(key, sel)) else Pass;
      }
    }

    /** The position of the first node without the state `key`, found by a scan. */
    method FindMissing(dstNodes: seq<NodeInstance>, key: JsString) returns (k: nat)
      ensures k == FirstMissing(dstNodes, key)
    {
      k := 0;
      while k < |dstNodes| && StateOf(dstNodes[k], key).Some?
        invariant k <= |dstNodes|
        invariant forall i :: 0 <= i < k ==> StateOf(dstNodes[i], key).Some?
      {
        k := k + 1;
      }
      FirstMissingAt(dstNodes, key, k);
    }
  }
}
