/**
 * Node instances as the graph and the logger see them: an object whose class
 * carries a port record, plus the properties the logger reads and installs.
 */
module Instance {
  import opened Js
  import opened Log
  import opened Port

  /** A decorated class: its shared port record and its `name`. */
  datatype NodeClass = NodeClass(schema: PortSchema, name: JsString)

  class NodeInstance {
    /** The port record of the instance's class, shared with every other instance of it. */
    const schema: PortSchema
    /** `instance.id` */
    const elementId: Option<JsString>
    /** `instance.localName`, which only elements have */
    const localName: Option<JsString>
    /** `instance.constructor.name` */
    const className: JsString
    /** `instance.__nodeId`, the logging identity */
    var nodeId: Option<JsString>
    /** `instance.log` */
    var log: Option<Logger>

    constructor (schema: PortSchema, elementId: Option<JsString>, localName: Option<JsString>, className: JsString)
      ensures this.schema == schema && this.elementId == elementId
      ensures this.localName == localName && this.className == className
      ensures nodeId == None && log == None
    {
      this.schema := schema;
      this.elementId := elementId;
      this.localName := localName;
      this.className := className;
      nodeId := None;
      log := None;
    }
  }

  /** `node?.[key]` read as an edge source: the outport of that name, if there is one. */
  function OutportOf(node: NodeInstance, key: JsString): Option<Outport> {
    if key in node.schema.outports then Some(node.schema.outports[key]) else None
  }

  /** `node[key]` read as an edge destination: the state `key` is the `_` accessor of, if any. */
  function StateOf(node: NodeInstance, key: JsString): Option<State> {
    match AccessedInport(key)
    case Some(n) => if n in node.schema.inports then Some(node.schema.inports[n]) else None
    case None => None
  }

  lemma StateOfAccessor(node: NodeInstance, name: JsString)
    ensures StateOf(node, StateAccessor(name)).Some? <==> name in node.schema.inports
    ensures name in node.schema.inports ==> StateOf(node, StateAccessor(name)) == Some(node.schema.inports[name])
  {
    AccessedInportOfAccessor(name);
  }

  /**
   * The ports live on the class, not the instance: a value written to an
   * inport through one instance is what another instance of the same class
   * reads from it.
   */
  method WriteThroughOneReadThroughAnother(a: NodeInstance, b: NodeInstance, name: JsString, v: JsValue)
    returns (seen: PropertyValue)
    requires a.schema == b.schema && a.schema.Valid()
    requires name in a.schema.inports && !Nullish(v)
    modifies a.schema.inports[name]
    ensures seen == InportValue(v)
  {
    a.schema.AssignInport(name, v);
    seen := b.schema.GetProperty(name);
  }
}
