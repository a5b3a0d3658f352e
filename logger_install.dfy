/**
 * `installElementLogger` and `installHeadlessLogger`: how a node gets its
 * logging identity `__nodeId` and its `log`, neither ever replaced once set.
 */
module LoggerInstall {
  import opened Js
  import opened Log
  import opened Instance

  /**
   * `c0 || c1 || ... || last` over string-valued properties: the first truthy
   * candidate, or `last` (truthy or not) when there is none.
   */
  function FirstTruthy(candidates: seq<Option<JsString>>, last: JsString): (r: JsString)
    ensures (forall i :: 0 <= i < |candidates| ==> !Truthy(candidates[i])) ==> r == last
    ensures forall i :: 0 <= i < |candidates| && Truthy(candidates[i]) ==>
      (forall j :: 0 <= j < i ==> !Truthy(candidates[j])) ==> r == candidates[i].value
  {
    if |candidates| == 0 then last
    else if Truthy(candidates[0]) then candidates[0].value
    else
      var r := FirstTruthy(candidates[1..], last);
      assert forall i :: 1 <= i < |candidates| ==> candidates[1..][i - 1] == candidates[i];
      r
  }

  /** The two properties the installers write. */
  datatype Identity = Identity(nodeId: Option<JsString>, log: Option<Logger>)

  /**
   * The id `installElementLogger` settles on: the first truthy of the current
   * `__nodeId`, the id argument, `instance.id` and `localName`, else the
   * constructor's name.
   */
  function ElementNodeId(
    current: Option<JsString>, id: Option<JsString>, elementId: Option<JsString>,
    localName: Option<JsString>, className: JsString): JsString
  {
    FirstTruthy([current, id, elementId, localName], className)
  }

  /**
   * What `installElementLogger` leaves behind: `__nodeId` and `log` are set
   * only when they were unset, and a new logger prints the chosen id.
   */
  function ElementInstall(
    before: Identity, id: Option<JsString>, elementId: Option<JsString>,
    localName: Option<JsString>, className: JsString): (after: Identity)
    ensures Truthy(before.nodeId) ==> after.nodeId == before.nodeId
    ensures after.nodeId == Some(ElementNodeId(before.nodeId, id, elementId, localName, className))
    ensures before.log.Some? ==> after.log == before.log
    ensures before.log.None? ==> after.log == Some(CreateLogger(after.nodeId.value))
  {
    var nodeId := ElementNodeId(before.nodeId, id, elementId, localName, className);
    Identity(
      if Truthy(before.nodeId) then before.nodeId else Some(nodeId),
      if before.log.Some? then before.log else Some(CreateLogger(nodeId)))
  }

  /** Installing the element logger a second time changes nothing. */
  lemma ElementInstallIdempotent(
    before: Identity, id: Option<JsString>, elementId: Option<JsString>,
    localName: Option<JsString>, className: JsString)
    ensures var once := ElementInstall(before, id, elementId, localName, className);
      ElementInstall(once, id, elementId, localName, className) == once
  {
    var once := ElementInstall(before, id, elementId, localName, className);
    if !Truthy(once.nodeId) {
      assert !Truthy(before.nodeId);
      var nodeId := ElementNodeId(before.nodeId, id, elementId, localName, className);
      assert ElementNodeId(once.nodeId, id, elementId, localName, className) == nodeId;
    }
  }

  /**
   * `installHeadlessLogger` throws when it must create a logger for an
   * undefined id: `hashString` then reads the length of `undefined`.
   */
  predicate HeadlessInstallThrows(before: Identity, id: Option<JsString>) {
    before.log.None? && id.None?
  }

  /** What `installHeadlessLogger` leaves behind, whether or not it throws. */
  function HeadlessInstall(before: Identity, id: Option<JsString>): (after: Identity)
    ensures Truthy(before.nodeId) ==> after.nodeId == before.nodeId
    ensures !Truthy(before.nodeId) ==> after.nodeId == id
    ensures before.log.Some? ==> after.log == before.log
    ensures before.log.None? && id.Some? ==> after.log == Some(CreateLogger(id.value))
    ensures HeadlessInstallThrows(before, id) ==> after.log == None
  {
    Identity(
      if Truthy(before.nodeId) then before.nodeId else id,
      if before.log.Some? then before.log
      else if id.Some? then Some(CreateLogger(id.value))
      else None)
  }

  /** Installing the headless logger a second time changes nothing. */
  lemma HeadlessInstallIdempotent(before: Identity, id: Option<JsString>)
    ensures HeadlessInstall(HeadlessInstall(before, id), id) == HeadlessInstall(before, id)
  {
  }

  /** Neither installer replaces an identity or a logger the other installed. */
  lemma InstallersNeverOverwrite(
    before: Identity, id: Option<JsString>, headlessId: Option<JsString>, elementId: Option<JsString>,
    localName: Option<JsString>, className: JsString)
    requires Truthy(before.nodeId) && before.log.Some?
    ensures ElementInstall(before, id, elementId, localName, className) == before
    ensures HeadlessInstall(before, headlessId) == before
  {
  }

  method InstallElementLogger(instance: NodeInstance, id: Option<JsString>)
    modifies instance
    ensures Identity(instance.nodeId, instance.log) ==
      ElementInstall(Identity(old(instance.nodeId), old(instance.log)), id,
        instance.elementId, instance.localName, instance.className)
  {
    var nodeId := FirstTruthy([instance.nodeId, id, instance.elementId, instance.localName], instance.className);
    if !Truthy(instance.nodeId) {
      instance.nodeId := Some(nodeId);
    }
    if instance.log.None? {
      instance.log := Some(CreateLogger(nodeId));
    }
  }

  /** Returns false where the source throws; `__nodeId` has been written by then. */
  method InstallHeadlessLogger(instance: NodeInstance, id: Option<JsString>) returns (ok: bool)
    modifies instance
    ensures ok == !HeadlessInstallThrows(Identity(old(instance.nodeId), old(instance.log)), id)
    ensures Identity(instance.nodeId, instance.log) ==
      HeadlessInstall(Identity(old(instance.nodeId), old(instance.log)), id)
  {
    ok := true;
    if !Truthy(instance.nodeId) {
      instance.nodeId := id;
    }
    if instance.log.None? {
      if id.None? {
        ok := false;
        return;
      }
      instance.log := Some(CreateLogger(id.value));
    }
  }
}
