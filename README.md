# lit-graph core, modelled in Dafny

This project models the sequential core of a small dataflow library built on
signals:

- **The graph.** `LitGraph` keeps a registry of node instances by id.
  It resolves a selector to an ordered list of matches: the registry's
  entry, then the host root's element with that id, then, only when both
  are missing, everything the root's `querySelectorAll` returns. `edge`
  wires outports to inport states; each endpoint is either an object or a
  `"selector.port"` path.
- **Ports.**
  - An inport is a signal cell whose `set` stores the envelope
    `{__dirty: true, value}`. The property getter unwraps it.
  - An outport keeps the last value sent and an ordered list of targets,
    and `send` delivers to each target in order.
  - The decorators put the port record on the class prototype, so all
    instances of a class share one set of ports. The model makes this
    explicit as one `PortSchema` per class.
- **Logging.**
  - The 32-bit base-31 string hash.
  - The terminal colour index and the CSS hue derived from the hash.
  - The level filter, an `indexOf` comparison over `debug`, `info`,
    `warn` and `error`.
  - The two installers that give a node its logging identity and logger
    without ever replacing an existing one.

Strings are sequences of UTF-16 code units. JavaScript's `| 0` and `>>> 0`
are written out as reductions modulo 2^32. Thrown errors become `Fail` or
`Err` outcomes that name the failing condition. The host root is reduced to
what its two lookups answer, each given as a map that may be missing.

`edge` is modelled as the code behaves, which is not all-or-nothing. A
failure part-way through leaves the registrations made before it in place.
"## Findings" records this and models an all-or-nothing `edge` beside it.
Each way `edge` can fail has its own `Graph.GraphError` constructor:
- three fail with a plain `Error`: an unresolved source or target selector
  (src/graph.ts:74, 98) and a missing source port (src/graph.ts:80);
- a missing target state also fails with a plain `Error` (src/graph.ts:105);
- a destination path without a dot fails with a TypeError, because
  `dstPort.startsWith` is read on `undefined` (src/graph.ts:101); the model
  calls this failure `TargetPortUndefined`.

Files, one module each:

| file | module | models |
|---|---|---|
| js.dfy | `Js` | strings as code units, `Option`/`Result`, the values ports carry |
| seqs.dfy | `Seqs` | counting, repetition and `indexOf` over sequences |
| log.dfy | `Log` | `src/log.ts`: hash, colours, level filter, the module-level level |
| port.dfy | `Port` | `src/port.ts`: states, `Inport`, `Outport`, the per-class port record |
| instance.dfy | `Instance` | node instances and the port properties `edge` reads from them |
| logger_install.dfy | `LoggerInstall` | `src/log.ts`: `installElementLogger`, `installHeadlessLogger` |
| graph.dfy | `Graph` | `src/graph.ts`: `LitGraph` and the specification of `edge` |

The stateful parts are classes whose methods are proved against
specification functions:

- `Outport.Send` is stated through `Count` and `Repeat`, with a ghost list
  of the targets it calls, in the order it calls them.
- `LitGraph.ResolveNodes` is proved equal to `Resolve`.
- `LitGraph.Edge` is proved to make the registrations listed by `EdgeRun`
  and to end as `EdgeRun` says. The lemmas about `EdgeRun` state what
  `edge` promises.
- `HashString` is the source's loop, proved equal to the function `Hash`.

## Model

| member | source | states |
|---|---|---|
| Log.ToInt32 | src/log.ts:7 | `x \| 0` is the signed 32-bit integer congruent to `x` modulo 2^32 |
| Log.ToUint32 | src/log.ts:9 | `x >>> 0` is the integer in [0, 2^32) congruent to `x` |
| Log.SignedIntermediateIsHarmless | src/log.ts:7-9 | applying `\| 0` before `>>> 0` does not change the unsigned result |
| Log.Hash | src/log.ts:4-10 | the hash always lies in [0, 2^32) |
| Log.HashOfEmpty | src/log.ts:5-9 | the empty string hashes to 0 |
| Log.HashAppend | src/log.ts:6-9 | recurrence: hash(s + [c]) = (31 * hash(s) + c) mod 2^32 |
| Log.HashString | src/log.ts:4-10 | the loop with its signed 32-bit accumulator returns exactly `Hash(str)` |
| Log.AnsiColorIndex | src/log.ts:13-18 | the 256-colour index is in [16, 231] |
| Log.CssHue | src/log.ts:21-24 | the hue is in [0, 359] |
| Log.CreateLogger | src/log.ts:49-51 | a logger prints its id, and both colours derived from the id are in range |
| Seqs.IndexOf | src/log.ts:53 | `indexOf` is the first position of the element, or -1 exactly when the element is absent |
| Log.RankOfLevel | src/log.ts:52-53 | the rank of each level's name is its position in debug < info < warn < error |
| Log.ShouldLogIsSeverityOrder | src/log.ts:53 | for the four levels, a call logs if and only if its level is at least the threshold |
| Log.ThresholdExtremes | src/log.ts:52-53 | at threshold `debug` every level logs; at `error`, exactly `error` logs |
| Log.UnknownNames | src/log.ts:53 | an unknown threshold lets every call through; a call at an unknown level logs exactly when the threshold is unknown too |
| Log.LogSettings.constructor | src/log.ts:41 | the level starts as `info` |
| Log.LogSettings.SetLogLevel | src/log.ts:42-44 | any string becomes the threshold for every logger, including loggers created earlier |
| Port.State.constructor | src/port.ts:24 | a new state holds `undefined` and has received no writes |
| Port.State.Set | src/port.ts:28-31 | the wrapped `set` stores the envelope `{__dirty: true, value: v}` and records every write, including one equal to the last |
| Port.UnwrapAfterSet | src/port.ts:39-43 | after `set(v)` the getter reads `v`, or the envelope itself when `v` is null or undefined; before any write it reads `undefined` |
| Port.Inport.Get | src/port.ts:8 | `get()` returns the raw stored value, envelope included |
| Port.Outport.constructor | src/port.ts:50-54 | a new outport has no targets and no value |
| Port.Outport.RegisterTarget | src/port.ts:62-64 | appends the target at the end, without deduplicating |
| Port.Outport.Send | src/port.ts:56-61 | records the value and leaves the target list unchanged; calls `set(v)` on the targets exactly in registration order; each target ends holding the envelope and receives `v` once per registration |
| Port.AccessedInportOfAccessor | src/port.ts:33 | `_name` is the state accessor of inport `name` |
| Port.PortSchema.constructor | src/port.ts:24-82 | one fresh, empty state per inport and one fresh outport per outport, created once per class |
| Port.PortSchema.GetProperty | src/port.ts:33-85 | an outport name always reads the same `Outport`; an inport name reads its unwrapped value; `_name` reads the state; any other key is not a port |
| Port.PortSchema.AssignInport | src/port.ts:33-44 | assigning to `name` or to `_name` both go through the wrapped `set` of that inport's state |
| Port.PortSchema.AssignOutport | src/port.ts:84-87 | assigning to an outport property is `send` on that outport: the value is recorded and the targets are called in registration order |
| Instance.NodeInstance.constructor | src/graph.ts:41 | a new instance has the class's shared ports and no logging identity yet |
| Instance.StateOfAccessor | src/graph.ts:103 | looking up `_name` on a node finds the state of inport `name` exactly when the class has that inport |
| Instance.WriteThroughOneReadThroughAnother | src/port.ts:24-26 | ports live on the class: a value written through one instance is what another instance of the class reads |
| LoggerInstall.FirstTruthy | src/log.ts:84 | `a \|\| b \|\| ... \|\| last` is the first truthy candidate, or `last` when none is truthy |
| LoggerInstall.ElementInstall | src/log.ts:83-94 | the id is the first truthy of `__nodeId`, the argument, `id`, `localName`, else the class name; `__nodeId` and `log` are written only when unset |
| LoggerInstall.ElementInstallIdempotent | src/log.ts:84-86 | installing the element logger twice equals installing it once |
| LoggerInstall.HeadlessInstall | src/log.ts:96-107 | `__nodeId` becomes the argument only when unset; `log` is created only when unset, and no logger is created for an undefined id |
| LoggerInstall.HeadlessInstallIdempotent | src/log.ts:98-99 | installing the headless logger twice equals installing it once |
| LoggerInstall.InstallersNeverOverwrite | src/log.ts:85-99 | once a node has an identity and a logger, neither installer changes them |
| LoggerInstall.InstallElementLogger | src/log.ts:83-94 | the method leaves exactly the identity `ElementInstall` describes |
| LoggerInstall.InstallHeadlessLogger | src/log.ts:96-107 | the method fails exactly when it must create a logger for an undefined id, and leaves the identity `HeadlessInstall` describes |
| Graph.ResolveOrder | src/graph.ts:47-61 | when the registry or the id lookup matches, the result is exactly the registry match followed by the id match (both are kept, the query is not run); when neither matches, it is exactly the query's matches; it is empty exactly when all three find nothing |
| Graph.SplitPathJoin | src/graph.ts:70 | splitting `sel + "." + port` at the dot returns `sel` and `port` when neither contains a dot |
| Graph.SplitPathParts | src/graph.ts:70 | neither part of a split contains a dot, and there is no port exactly when the path has no dot |
| Graph.StateKeyIdempotent | src/graph.ts:101 | prefixing `_` twice equals prefixing once, and the key always names an inport's state accessor |
| Graph.SourcePorts | src/graph.ts:69-86 | a source that resolves yields at least one outport |
| Graph.FirstMissing | src/graph.ts:102-106 | the position of the first destination node without the state is at most the number of nodes |
| Graph.FirstMissingSpec | src/graph.ts:102-107 | every node before that position has the state, the node at it does not, and the states found are exactly those nodes' states, in order |
| Graph.FirstMissingAt | src/graph.ts:102-107 | a scan that stops at the first node without the state stops at `FirstMissing` |
| Graph.CrossLength | src/graph.ts:92-108 | wiring every outport to every state makes `outports * states` registrations |
| Graph.CrossAt | src/graph.ts:92-108 | registration `i * states + j` pairs outport `i` with state `j`: outport by outport, states in order |
| Graph.WiredToPairs | src/graph.ts:102-108 | connecting one outport to a list of states adds exactly those states, in order, to that outport and nothing to any other |
| Graph.WiredToCross | src/graph.ts:92-108 | the cross product gives each outport the states once for each time it occurs among the sources |
| Graph.SourceFailureWiresNothing | src/graph.ts:69-83 | a source that fails to resolve fails the edge before any registration |
| Graph.DirectEndpointsAreNotResolved | src/graph.ts:84-110 | an outport and a state given as objects are connected once, as they are, without resolution |
| Graph.SuccessfulEdgeIsCrossProduct | src/graph.ts:92-108 | a successful edge registers the cross product: `sources * states` registrations, and each outport receives the states once per occurrence |
| Graph.PathEdgeCoversAllMatches | src/graph.ts:69-108 | with paths on both sides, the sources are the source matches' outports and the states are the destination matches' states, in order, so `matches * matches` registrations are made |
| Graph.DestinationFailureKeepsEarlierConnections | src/graph.ts:102-107 | when a destination node lacks the state, the edge fails, but the first outport keeps its connections to the states of the earlier nodes and no other outport gains any |
| Graph.EdgeIsNotAtomic | src/graph.ts:102-107 | a destination whose first match has the state and a later match lacks it makes `edge` fail after registering targets |
| Graph.AtomicEdgeAllOrNothing | src/graph.ts:63-113 | the all-or-nothing edge fails exactly when `edge` does, registers nothing when it fails, and registers what `edge` does when it succeeds |
| Graph.LitGraph.constructor | src/graph.ts:8-9 | a new graph has no nodes and level `info` |
| Graph.LitGraph.SetLogLevel | src/graph.ts:31-34 | records the level and sets the logger's level to its name; from then on every logger, including one created earlier, prints exactly the calls ranked at or above it |
| Graph.LitGraph.GetLogLevel | src/graph.ts:35-37 | returns the level last set |
| Graph.LitGraph.Node | src/graph.ts:39-45 | a duplicate id fails and leaves the registry unchanged; a new id adds exactly `id -> instance`, a fresh instance of the class |
| Graph.LitGraph.ResolveNodes | src/graph.ts:47-61 | the pushes produce exactly `Resolve(sel)` |
| Graph.LitGraph.SourceOutports | src/graph.ts:67-86 | collects the outports of every source match, or fails as `SourcePorts` says |
| Graph.LitGraph.ConnectOutport | src/graph.ts:93-111 | one round of the outport loop appends the states found before any failure to that outport, and ends as the destination plan says |
| Graph.LitGraph.ConnectStates | src/graph.ts:102-108 | the destination `forEach` connects the states in order and stops at the first node without one |
| Graph.LitGraph.ConnectAll | src/graph.ts:92-112 | on success each outport gains the states once per occurrence; on failure only the first outport gains the states found |
| Graph.LitGraph.Edge | src/graph.ts:63-113 | `edge` ends as `EdgeRun` says, and each source outport gains exactly the registrations `EdgeRun` lists for it |
| Graph.LitGraph.EdgeAtomic | src/graph.ts:63-113 | corrected `edge`: every lookup happens before any registration, so it either wires everything `edge` would or nothing |
| Graph.LitGraph.CheckDestination | src/graph.ts:93-106 | resolves the destination and looks up every state without registering anything, failing as `edge` would |
| Graph.LitGraph.FindMissing | src/graph.ts:102-106 | the scan returns the position of the first node without the state |

## Left out

- `src/node.ts` is not part of this model. This covers the execution watcher, the `node` decorator and the asynchronous scheduling they rely on.
- The `initHeadlessNode` call in `node` (src/graph.ts:42) is left out: `src/node.ts` does not define that function.
- Root selection in the `LitGraph` constructor and the `__litgraph` property it defines on the root are left out. The root appears only as its two lookups.
- The host lookups are maps fixed for the lifetime of the graph. A live document that changes between two resolutions is not modelled.
- The decorators' prototype mutation is left out. The resulting port record is built explicitly by `PortSchema`.
- The outport decorator's unused `initial` signal (src/port.ts:79-80) is left out.
- Console output, the prefix strings, the level colours and browser detection are left out. Only the numbers and the filter decision are modelled.
- `Port.State.writes` is a ghost history of writes. It stands in for the signal library's change notifications, which are not visible.
- Numbers carried by ports are integers; floating point is not modelled.
- `Port.Outport.Send` is `async` in the source but contains no `await`. It is modelled as completing before it returns.
- `Instance.NodeInstance.constructor`: an arbitrary constructor's own side effects are not modelled. A node is an instance holding its class's port record.
- `Graph.SourcePorts`: a source property that is truthy but not an outport counts as a missing port, so the model fails at once. Such properties include an inport holding a truthy value, an inport's `_` state accessor, `log`, `ports`, `__nodeId` and method names. The source pushes such a value (src/graph.ts:79-82) and throws a TypeError only when `_registerTarget` is called on it (src/graph.ts:89, 92). By then every outport ahead of it has been connected in full, unless the destination fails first, in which case that error is thrown instead. An inport whose value reads as falsy (never set, or set to `0`, `false` or `""`) fails at once in the source as well, as modelled.
- `Graph.TargetStates`: a destination key that names something other than an inport's state accessor is treated as missing. An outport named with a leading `_` would be registered as a target by the source.
- `Graph.LitGraph.Edge`: the postcondition speaks of the outports that existed before the call. These are all the outports a source can resolve to, since `edge` creates none.
- `Port.PortSchema.constructor`: it requires that no property is defined twice. The source fails when such a class is defined, so no instances of it exist.
- Error message texts are not modelled. Each error carries the selector or key the message names.

## Findings

| source | as written | input that shows it | evidently intended | confidence | as-written member | corrected member |
|---|---|---|---|---|---|---|
| src/graph.ts:102-107 | `connect` runs inside the same destination `forEach` that throws on a missing state, so registrations already made stay in place when `edge` fails | a destination path `"sel.port"` whose first match has inport `port` and whose second match does not | `edge` is all-or-nothing: every lookup succeeds before anything is registered, and a failure leaves every target list as it was | not executed | Graph.EdgeIsNotAtomic | Graph.LitGraph.EdgeAtomic |
