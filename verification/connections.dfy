/**
 * The connection protocol of `LGraphNode`: `connect`, `disconnectInput`,
 * `disconnectOutput`, `removeInput`, `removeOutput`, the data path
 * `setOutputData` / `getInputData` / `getInputNode`, and the graph's
 * `connectionChange` and `removeLink`.
 *
 * Every operation is a function of the whole graph. A node calls these on
 * itself, so the node is named by its id and must belong to the graph.
 * Slot arguments may be numbers or names, and target arguments may be ids or
 * node objects, as in the source.
 */
module Connections {
  import opened Base
  import opened SlotTypes
  import opened Link
  import opened Nodes
  import opened Graphs
  import opened Order

  /** A slot argument: an index, or a name looked up with `find*Slot` (`slot.constructor === String`). */
  datatype SlotRef = At(index: int) | Named(name: string)

  /**
   * A target-node argument: missing, a number looked up with `getNodeById`,
   * or a node object of this graph (named by its id).
   */
  datatype NodeRef = NoNode | ById(id: int) | ByNode(id: int)

  /** The index a slot argument designates on the input side (-1 for an unknown name). */
  function InputIndex(n: Node, slot: SlotRef): int
  {
    match slot
    case At(i) => i
    case Named(x) => FindInputSlot(n, x)
  }

  /** The index a slot argument designates on the output side (-1 for an unknown name). */
  function OutputIndex(n: Node, slot: SlotRef): int
  {
    match slot
    case At(i) => i
    case Named(x) => FindOutputSlot(n, x)
  }

  // ---------------------------------------------------------------------------
  // Frames
  // ---------------------------------------------------------------------------

  /** The node store keeps its ids, its order and each node's id. */
  predicate SameStore(g: Graph, g': Graph)
  {
    g'.nodeList == g.nodeList && g'.nodes.Keys == g.nodes.Keys &&
    forall id :: id in g.nodes ==> g'.nodes[id].id == g.nodes[id].id
  }

  /** As `SameStore`, and every node keeps its number of inputs and outputs. */
  predicate SameShape(g: Graph, g': Graph)
  {
    SameStore(g, g') &&
    forall id :: id in g.nodes ==>
      |g'.nodes[id].inputs| == |g.nodes[id].inputs| && |g'.nodes[id].outputs| == |g.nodes[id].outputs|
  }

  /** `n'` is `n` except, at most, for the links its slots hold. */
  predicate OnlyLinksDiffer(n: Node, n': Node)
  {
    |n'.inputs| == |n.inputs| && |n'.outputs| == |n.outputs| &&
    n' == n.(inputs := n'.inputs, outputs := n'.outputs) &&
    (forall i :: 0 <= i < |n.inputs| ==> n'.inputs[i] == n.inputs[i].(link := n'.inputs[i].link)) &&
    (forall i :: 0 <= i < |n.outputs| ==> n'.outputs[i] == n.outputs[i].(links := n'.outputs[i].links))
  }

  lemma OnlyLinksDifferTrans(a: Node, b: Node, c: Node)
    requires OnlyLinksDiffer(a, b) && OnlyLinksDiffer(b, c)
    ensures OnlyLinksDiffer(a, c)
  {
  }

  lemma SameStoreOk(g: Graph, g': Graph)
    requires StoreOk(g) && SameStore(g, g')
    ensures StoreOk(g')
  {
  }

  /** Replace node `id` by `n`, which keeps its id. */
  function SetNode(g: Graph, id: int, n: Node): (g': Graph)
    requires id in g.nodes && n.id == g.nodes[id].id
    ensures SameStore(g, g') && (StoreOk(g) ==> StoreOk(g'))
    ensures g' == g.(nodes := g.nodes[id := n])
  {
    g.(nodes := g.nodes[id := n])
  }

  function SetInputLink(g: Graph, id: int, i: int, link: Option<int>): (g': Graph)
    requires id in g.nodes && 0 <= i < |g.nodes[id].inputs|
    ensures SameShape(g, g') && (StoreOk(g) ==> StoreOk(g'))
  {
    var n := g.nodes[id];
    g.(nodes := g.nodes[id := n.(inputs := n.inputs[i := n.inputs[i].(link := link)])])
  }

  function SetOutputLinks(g: Graph, id: int, i: int, links: Option<seq<int>>): (g': Graph)
    requires id in g.nodes && 0 <= i < |g.nodes[id].outputs|
    ensures SameShape(g, g') && (StoreOk(g) ==> StoreOk(g'))
  {
    var n := g.nodes[id];
    g.(nodes := g.nodes[id := n.(outputs := n.outputs[i := n.outputs[i].(links := links)])])
  }

  /**
   * `connectionChange`: recompute the execution order, then count a change
   * that is not saved in the history.
   */
  function ConnectionChange(g: Graph, cfg: Config): (g': Graph)
    ensures g'.nodes == g.nodes && g'.nodeList == g.nodeList && g'.links == g.links && g'.lastLinkId == g.lastLinkId
    ensures g'.ordered == Some(SnapshotOf(g)) && g'.version == g.version + 1
  {
    OnGraphChanged(UpdateExecutionOrder(g), cfg, "connectionChange", false)
  }

  /** `connectionChange` at the end of an operation that started from `g0` and kept its shape. */
  function Settled(g0: Graph, g: Graph, cfg: Config): (g': Graph)
    requires StoreOk(g0) && SameShape(g0, g)
    ensures StoreOk(g') && SameShape(g0, g')
    ensures g'.nodes == g.nodes && g'.links == g.links && g'.lastLinkId == g.lastLinkId
    ensures g'.version == g.version + 1 && g'.ordered == Some(SnapshotOf(g))
  {
    SameStoreOk(g0, g);
    var g' := ConnectionChange(g, cfg);
    NodesKept(g, g');
    SameShapeTrans(g0, g, g');
    g'
  }

  // ---------------------------------------------------------------------------
  // disconnectInput
  // ---------------------------------------------------------------------------

  /**
   * `disconnectInput(slot, {doProcessChange})`. The input's `link` is cleared
   * first; if the link is stored but its origin node, origin output or origin
   * list is missing, the call returns false at that point, so the link stays
   * in `graph.links` and no order update happens. Otherwise the id is removed
   * from the origin output's list and from `graph.links`.
   */
  function DisconnectInput(g: Graph, cfg: Config, id: int, slot: SlotRef, doProcessChange: bool): (r: (Graph, bool))
    requires StoreOk(g) && id in g.nodes
    ensures StoreOk(r.0) && SameShape(g, r.0) && r.0.lastLinkId == g.lastLinkId
    ensures var s := InputIndex(g.nodes[id], slot);
      !(0 <= s < |g.nodes[id].inputs|) ==> r == (g, false)
    ensures !r.1 ==> r.0.links == g.links
    ensures r.0.links.Keys <= g.links.Keys
  {
    var n := g.nodes[id];
    var s := InputIndex(n, slot);
    if !(0 <= s < |n.inputs|) then (g, false)
    else
      match n.inputs[s].link
      case None => (Settled(g, g, cfg), true)
      case Some(k) =>
        var g1 := SetInputLink(g, id, s, None);
        var r := DetachAtOrigin(g1, cfg, k, doProcessChange);
        SameShapeTrans(g, g1, r.0);
        r
  }

  /**
   * The second half of `disconnectInput`, once the input is cleared: take
   * link `k` out of its origin output's list and out of the store.
   */
  function DetachAtOrigin(g: Graph, cfg: Config, k: int, doSave: bool): (r: (Graph, bool))
    requires StoreOk(g)
    ensures StoreOk(r.0) && SameShape(g, r.0) && r.0.lastLinkId == g.lastLinkId
    ensures !r.1 ==> r.0 == g
    ensures r.0.links.Keys <= g.links.Keys
  {
    if k !in g.links then (Settled(g, g, cfg), true)
    else
      var l := g.links[k];
      if l.originId !in g.nodes then (g, false)
      else
        var o := g.nodes[l.originId];
        if !(0 <= l.originSlot < |o.outputs|) || o.outputs[l.originSlot].links.None?
           || |o.outputs[l.originSlot].links.value| == 0 then (g, false)
        else (Unlist(g, cfg, k, doSave), true)
  }

  /**
   * `disconnectInput` as its early returns evidently intend: once the input
   * is cleared, a link whose origin cannot be found is still deleted from
   * `graph.links`, so no stored link is left without a target input.
   */
  function DisconnectInputIntended(g: Graph, cfg: Config, id: int, slot: SlotRef, doProcessChange: bool): (r: (Graph, bool))
    requires StoreOk(g) && id in g.nodes
    ensures StoreOk(r.0) && SameShape(g, r.0) && r.0.lastLinkId == g.lastLinkId
    ensures var s := InputIndex(g.nodes[id], slot);
      0 <= s < |g.nodes[id].inputs| && g.nodes[id].inputs[s].link.Some? ==>
        r.0.links == g.links - {g.nodes[id].inputs[s].link.value}
  {
    var n := g.nodes[id];
    var s := InputIndex(n, slot);
    if !(0 <= s < |n.inputs|) then (g, false)
    else
      match n.inputs[s].link
      case None => (Settled(g, g, cfg), true)
      case Some(k) =>
        var g1 := SetInputLink(g, id, s, None);
        var r := DetachAtOriginIntended(g1, cfg, k, doProcessChange);
        SameShapeTrans(g, g1, r.0);
        r
  }

  /** `DetachAtOrigin`, except that a link it cannot unlist at its origin is deleted anyway. */
  function DetachAtOriginIntended(g: Graph, cfg: Config, k: int, doSave: bool): (r: (Graph, bool))
    requires StoreOk(g)
    ensures StoreOk(r.0) && SameShape(g, r.0) && r.0.lastLinkId == g.lastLinkId
    ensures r.0.links == g.links - {k}
    ensures r.1 ==> r == DetachAtOrigin(g, cfg, k, doSave)
  {
    var r := DetachAtOrigin(g, cfg, k, doSave);
    if r.1 then r
    else
      NodesKept(g, g.(links := g.links - {k}));
      (g.(links := g.links - {k}), false)
  }

  /** Splice link `k` out of its origin output's list, delete it, and count the change. */
  function Unlist(g: Graph, cfg: Config, k: int, doSave: bool): (g': Graph)
    requires StoreOk(g) && k in g.links
    requires var l := g.links[k]; l.originId in g.nodes && 0 <= l.originSlot < |g.nodes[l.originId].outputs|
    requires g.nodes[g.links[k].originId].outputs[g.links[k].originSlot].links.Some?
    ensures StoreOk(g') && SameShape(g, g') && g'.lastLinkId == g.lastLinkId
    ensures g'.links == g.links - {k}
  {
    var l := g.links[k];
    var ks := g.nodes[l.originId].outputs[l.originSlot].links.value;
    var g1 := SetOutputLinks(g, l.originId, l.originSlot, Some(RemoveFirst(ks, k)));
    var g2 := OnGraphChanged(g1.(links := g1.links - {k}), cfg, "disconnectInput", doSave);
    NodesKept(g1, g2);
    SameShapeTrans(g, g1, g2);
    Settled(g, g2, cfg)
  }

  /** Changes outside the node store keep its shape and its well-formedness. */
  lemma NodesKept(g: Graph, g': Graph)
    requires g'.nodes == g.nodes && g'.nodeList == g.nodeList
    ensures SameShape(g, g') && (StoreOk(g) ==> StoreOk(g'))
  {
  }

  lemma SameShapeTrans(a: Graph, b: Graph, c: Graph)
    requires SameShape(a, b) && SameShape(b, c)
    ensures SameShape(a, c)
  {
  }

  // ---------------------------------------------------------------------------
  // disconnectOutput
  // ---------------------------------------------------------------------------

  /**
   * The targeted loop of `disconnectOutput`: from position `i` of the output's
   * list `ks`, find the first link ending at node `t`, splice it out of the
   * list, clear the input it ends at and delete it. A listed id with no stored
   * link, or a link naming a missing input, throws a TypeError.
   */
  function DropTo(g: Graph, cfg: Config, id: int, s: int, ks: seq<int>, i: nat, t: int, doSave: bool): (r: Outcome<()>)
    requires StoreOk(g) && id in g.nodes && 0 <= s < |g.nodes[id].outputs| && t in g.nodes && i <= |ks|
    ensures StoreOk(r.g) && SameShape(g, r.g) && r.g.lastLinkId == g.lastLinkId
    ensures r.g.links.Keys <= g.links.Keys
    ensures r.Threw? ==> r.err == TypeError
    ensures r.g.version >= g.version
    decreases |ks| - i
  {
    if i == |ks| then Done(g, ())
    else
      var k := ks[i];
      if k !in g.links then Threw(g, TypeError)
      else
        var l := g.links[k];
        if l.targetId != t then DropTo(g, cfg, id, s, ks, i + 1, t, doSave)
        else
          var g1 := SetOutputLinks(g, id, s, Some(ks[..i] + ks[i + 1..]));
          if !(0 <= l.targetSlot < |g1.nodes[t].inputs|) then Threw(g1, TypeError)
          else
            var g2 := SetInputLink(g1, t, l.targetSlot, None);
            Done(OnGraphChanged(g2.(links := g2.links - {k}), cfg, "disconnectOutput", doSave), ())
  }

  /**
   * The loop over all links of `disconnectOutput`: each stored link counts a
   * change, clears the input it ends at when its target node exists (a
   * missing input throws a TypeError), and is deleted; ids with no stored
   * link are skipped. The output's list itself is left for the caller.
   */
  function DropLinks(g: Graph, cfg: Config, ks: seq<int>, doSave: bool): (r: Outcome<()>)
    requires StoreOk(g)
    ensures StoreOk(r.g) && SameShape(g, r.g) && r.g.lastLinkId == g.lastLinkId
    ensures r.g.links.Keys <= g.links.Keys
    ensures r.Threw? ==> r.err == TypeError
    ensures r.g.version >= g.version
    ensures forall x :: x in g.nodes ==> r.g.nodes[x].outputs == g.nodes[x].outputs
    decreases |ks|
  {
    if |ks| == 0 then Done(g, ())
    else
      var k := ks[0];
      if k !in g.links then DropLinks(g, cfg, ks[1..], doSave)
      else
        var l := g.links[k];
        var g1 := OnGraphChanged(g, cfg, "disconnectOutput", doSave);
        if l.targetId in g1.nodes then
          if !(0 <= l.targetSlot < |g1.nodes[l.targetId].inputs|) then Threw(g1, TypeError)
          else
            var g2 := SetInputLink(g1, l.targetId, l.targetSlot, None);
            DropLinks(g2.(links := g2.links - {k}), cfg, ks[1..], doSave)
        else DropLinks(g1.(links := g1.links - {k}), cfg, ks[1..], doSave)
  }

  /** The node a truthy target argument designates, if the argument is truthy and the node exists. */
  function TargetOf(g: Graph, target: NodeRef): (r: Option<int>)
    requires target.ByNode? ==> target.id in g.nodes
    ensures r.Some? ==> r.value in g.nodes
  {
    match target
    case NoNode => None
    case ById(x) => if x != 0 && x in g.nodes then Some(x) else None
    case ByNode(x) => Some(x)
  }

  /** A target argument is truthy unless it is missing or the number 0. */
  predicate TargetGiven(target: NodeRef)
  {
    !(target.NoNode? || target == ById(0))
  }

  /**
   * `disconnectOutput(slot, target_node, {doProcessChange})`. Returns false
   * for an unknown or out-of-range slot and for an output without links.
   * With a target, only the first link to that node is removed, and a target
   * id with no node throws "Target Node not found". Without one, every link of
   * the output is removed and its list becomes null.
   */
  function DisconnectOutput(g: Graph, cfg: Config, id: int, slot: SlotRef, target: NodeRef, doProcessChange: bool): (r: Outcome<bool>)
    requires StoreOk(g) && id in g.nodes
    requires target.ByNode? ==> target.id in g.nodes
    ensures StoreOk(r.g) && SameShape(g, r.g) && r.g.lastLinkId == g.lastLinkId
    ensures r.g.links.Keys <= g.links.Keys
    ensures var n := g.nodes[id]; var s := OutputIndex(n, slot);
      !(0 <= s < |n.outputs|) || n.outputs[s].links.None? || n.outputs[s].links == Some([]) ==> r == Done(g, false)
    ensures r.Done? && !r.value ==> r.g == g
    ensures r.Done? && r.value ==> r.g.version > g.version
    ensures r.Threw? ==> r.err == TypeError || (r.err == GraphError("Target Node not found") && r.g == g)
  {
    var n := g.nodes[id];
    var s := OutputIndex(n, slot);
    if !(0 <= s < |n.outputs|) then Done(g, false)
    else
      match n.outputs[s].links
      case None => Done(g, false)
      case Some(ks) =>
        if |ks| == 0 then Done(g, false)
        else if TargetGiven(target) then
          match TargetOf(g, target)
          case None => Threw(g, GraphError("Target Node not found"))
          case Some(t) => DisconnectTo(g, cfg, id, s, t, doProcessChange)
        else DisconnectAll(g, cfg, id, s, doProcessChange)
  }

  /** `disconnectOutput` with a target node `t`, on an output whose list is not empty. */
  function DisconnectTo(g: Graph, cfg: Config, id: int, s: int, t: int, doProcessChange: bool): (r: Outcome<bool>)
    requires StoreOk(g) && id in g.nodes && 0 <= s < |g.nodes[id].outputs| && t in g.nodes
    requires g.nodes[id].outputs[s].links.Some?
    ensures StoreOk(r.g) && SameShape(g, r.g) && r.g.lastLinkId == g.lastLinkId
    ensures r.g.links.Keys <= g.links.Keys && r.g.version >= g.version
    ensures r.Done? ==> r.value && r.g.version > g.version
    ensures r.Threw? ==> r.err == TypeError
  {
    var r1 := DropTo(g, cfg, id, s, g.nodes[id].outputs[s].links.value, 0, t, doProcessChange);
    if r1.Threw? then Threw(r1.g, r1.err)
    else Done(Settled(g, r1.g, cfg), true)
  }

  /** `disconnectOutput` without a target, on an output whose list is not empty. */
  function DisconnectAll(g: Graph, cfg: Config, id: int, s: int, doProcessChange: bool): (r: Outcome<bool>)
    requires StoreOk(g) && id in g.nodes && 0 <= s < |g.nodes[id].outputs|
    requires g.nodes[id].outputs[s].links.Some?
    ensures StoreOk(r.g) && SameShape(g, r.g) && r.g.lastLinkId == g.lastLinkId
    ensures r.g.links.Keys <= g.links.Keys && r.g.version >= g.version
    ensures r.Done? ==> r.value && r.g.version > g.version
    ensures r.Threw? ==> r.err == TypeError
  {
    var r1 := DropLinks(g, cfg, g.nodes[id].outputs[s].links.value, doProcessChange);
    if r1.Threw? then Threw(r1.g, r1.err)
    else
      var g1 := SetOutputLinks(r1.g, id, s, None);
      SameShapeTrans(g, r1.g, g1);
      Done(Settled(g, g1, cfg), true)
  }

  // ---------------------------------------------------------------------------
  // connect
  // ---------------------------------------------------------------------------

  /**
   * `connect(slot, target_node, target_slot)`. Returns null (`None`) for an
   * unknown or out-of-range output, a target equal to the node itself, an
   * unknown or out-of-range target input, an EVENT target slot while
   * `do_add_triggers_slots` is off, a negative output index, a refusal by
   * either node's connection hook, and types that `isValidConnection`
   * rejects. A missing target throws "target node is null"; a negative
   * target index other than EVENT reaches `input.type` on `undefined`.
   */
  function Connect(g: Graph, cfg: Config, id: int, slot: SlotRef, target: NodeRef, targetSlot: SlotRef): (r: Outcome<Option<LLink>>)
    requires StoreOk(g) && id in g.nodes
    requires target.ByNode? ==> target.id in g.nodes
    ensures StoreOk(r.g) && SameStore(g, r.g)
  {
    var n := g.nodes[id];
    var s := OutputIndex(n, slot);
    if (slot.Named? && s == -1) || s >= |n.outputs| then Done(g, None)
    else
      match TargetOf(g, target)
      case None => Threw(g, GraphError("target node is null"))
      case Some(t) => if t == id then Done(g, None) else ConnectTo(g, cfg, id, s, t, targetSlot)
  }

  /** `connect` once the output index `s` and the target node `t` are known: resolve the target slot. */
  function ConnectTo(g: Graph, cfg: Config, id: int, s: int, t: int, targetSlot: SlotRef): (r: Outcome<Option<LLink>>)
    requires StoreOk(g) && id in g.nodes && t in g.nodes && id != t && s < |g.nodes[id].outputs|
    ensures StoreOk(r.g) && SameStore(g, r.g)
  {
    match targetSlot
    case Named(x) =>
      var ts := FindInputSlot(g.nodes[t], x);
      if ts == -1 then Done(g, None) else Attach(g, cfg, id, s, t, ts)
    case At(i) =>
      if i == -1 then
        if cfg.doAddTriggersSlots then AttachToTrigger(g, cfg, id, s, t) else Done(g, None)
      else if i >= |g.nodes[t].inputs| then Done(g, None)
      else Attach(g, cfg, id, s, t, i)
  }

  /**
   * `connect` to the EVENT slot with `do_add_triggers_slots` on: switch the
   * target to ON_TRIGGER, which gives it an "onTrigger" input, and connect
   * to that input.
   */
  function AttachToTrigger(g: Graph, cfg: Config, id: int, s: int, t: int): (r: Outcome<Option<LLink>>)
    requires StoreOk(g) && id in g.nodes && t in g.nodes && id != t && s < |g.nodes[id].outputs|
    ensures StoreOk(r.g) && SameStore(g, r.g)
  {
    var g1 := WithTriggerSlots(g, cfg, t);
    var r := Attach(g1, cfg, id, s, t, FindInputSlot(g1.nodes[t], "onTrigger"));
    SameStoreTrans(g, g1, r.g);
    r
  }

  /** `target_node.changeMode(LiteGraph.ON_TRIGGER)` inside the graph. */
  function WithTriggerSlots(g: Graph, cfg: Config, t: int): (g': Graph)
    requires StoreOk(g) && t in g.nodes
    ensures StoreOk(g') && SameStore(g, g')
    ensures g' == g.(nodes := g.nodes[t := g'.nodes[t]], registry := g'.registry)
    ensures 0 <= FindInputSlot(g'.nodes[t], "onTrigger")
  {
    var (tn', reg', _) := ChangeMode(g.nodes[t], g.registry, cfg.autoLoadSlotTypes, Num(3));
    SetNode(g, t, tn').(registry := reg')
  }

  lemma SameStoreTrans(a: Graph, b: Graph, c: Graph)
    requires SameStore(a, b) && SameStore(b, c)
    ensures SameStore(a, c)
  {
  }

  /**
   * The second half of `connect`, once output `s` of `id` and input `ts` of
   * `t` are chosen: the index checks, the connection hooks and the type test.
   */
  function Attach(g: Graph, cfg: Config, id: int, s: int, t: int, ts: int): (r: Outcome<Option<LLink>>)
    requires StoreOk(g) && id in g.nodes && t in g.nodes && id != t
    requires s < |g.nodes[id].outputs| && ts < |g.nodes[t].inputs|
    ensures StoreOk(r.g) && SameShape(g, r.g)
  {
    if s < 0 then Done(g, None)
    else if ts < 0 then Threw(g, TypeError)
    else if !Accepts(g.nodes[id], s, g.nodes[t], ts) then Done(g, None)
    else Plug(g, cfg, id, s, t, ts, LinkType(g.nodes[id].outputs[s], g.nodes[t].inputs[ts]))
  }

  /**
   * Neither node's connection hook refuses, and the output's type may feed
   * the input's type.
   */
  predicate Accepts(n: Node, s: int, tn: Node, ts: int)
    requires 0 <= s < |n.outputs| && 0 <= ts < |tn.inputs|
  {
    !n.refusesLinks && IsValidConnection(n.outputs[s].otype, tn.inputs[ts].itype) && !tn.refusesLinks
  }

  /** The type of a new link: `input.type || output.type`. */
  function LinkType(out: Output, inp: Input): (t: SlotType)
    ensures TypeTruthy(inp.itype) ==> t == inp.itype
    ensures !TypeTruthy(inp.itype) ==> t == out.otype
  {
    if TypeTruthy(inp.itype) then inp.itype else out.otype
  }

  /**
   * The accepted `connect`: unplug the target input, clear an EVENT output
   * when several links per event output are not allowed, and create link
   * `last_link_id + 1` of type `input.type || output.type`.
   */
  function Plug(g: Graph, cfg: Config, id: int, s: int, t: int, ts: int, ltype: SlotType): (r: Outcome<Option<LLink>>)
    requires StoreOk(g) && id in g.nodes && t in g.nodes
    requires 0 <= s < |g.nodes[id].outputs| && 0 <= ts < |g.nodes[t].inputs|
    ensures StoreOk(r.g) && SameShape(g, r.g)
    ensures r.Done? ==> r.value == Some(NewLink(g.lastLinkId + 1, ltype, id, s, t, ts))
    ensures r.Threw? ==> r.err == TypeError
    ensures r.Done? ==> r.g.lastLinkId == g.lastLinkId + 1 && g.lastLinkId + 1 in r.g.links && r.g.links[g.lastLinkId + 1] == r.value.value
  {
    var g1 := Unplug(g, cfg, t, ts);
    var r2 := ClearEventOutput(g1, cfg, id, s);
    SameShapeTrans(g, g1, r2.g);
    if r2.Threw? then Threw(r2.g, r2.err)
    else
      var l := NewLink(g.lastLinkId + 1, ltype, id, s, t, ts);
      Done(AddLink(g, r2.g, cfg, l), Some(l))
  }

  /** `disconnectInput(target_slot, {doProcessChange: false})` when the input holds a link. */
  function Unplug(g: Graph, cfg: Config, t: int, ts: int): (g': Graph)
    requires StoreOk(g) && t in g.nodes && 0 <= ts < |g.nodes[t].inputs|
    ensures StoreOk(g') && SameShape(g, g') && g'.lastLinkId == g.lastLinkId
  {
    if g.nodes[t].inputs[ts].link.Some? then DisconnectInput(g, cfg, t, At(ts), false).0 else g
  }

  /**
   * Before linking an EVENT output that already has links, `connect` removes
   * them all unless `allow_multi_output_for_events` is on.
   */
  function ClearEventOutput(g: Graph, cfg: Config, id: int, s: int): (r: Outcome<bool>)
    requires StoreOk(g) && id in g.nodes && 0 <= s < |g.nodes[id].outputs|
    ensures StoreOk(r.g) && SameShape(g, r.g) && r.g.lastLinkId == g.lastLinkId
    ensures r.Threw? ==> r.err == TypeError
  {
    var out := g.nodes[id].outputs[s];
    if out.links.Some? && |out.links.value| > 0 && out.otype == EVENT && !cfg.allowMultiOutputForEvents
    then DisconnectAll(g, cfg, id, s, false) else Done(g, true)
  }

  /**
   * Store link `l` under its id, which becomes `last_link_id`, append the id
   * to the origin output's list (a null list becomes a new one), plug it into
   * the target input, and count the change in the history.
   */
  function AddLink(g0: Graph, g: Graph, cfg: Config, l: LLink): (g': Graph)
    requires StoreOk(g0) && SameShape(g0, g)
    requires l.originId in g.nodes && 0 <= l.originSlot < |g.nodes[l.originId].outputs|
    requires l.targetId in g.nodes && 0 <= l.targetSlot < |g.nodes[l.targetId].inputs|
    ensures StoreOk(g') && SameShape(g0, g')
    ensures g'.lastLinkId == l.id && g'.links == g.links[l.id := l]
  {
    var h1 := g.(lastLinkId := l.id, links := g.links[l.id := l]);
    NodesKept(g, h1);
    SameShapeTrans(g0, g, h1);
    var h2 := SetOutputLinks(h1, l.originId, l.originSlot, Some(Appended(h1.nodes[l.originId].outputs[l.originSlot].links, l.id)));
    SameShapeTrans(g0, h1, h2);
    var h3 := SetInputLink(h2, l.targetId, l.targetSlot, Some(l.id));
    SameShapeTrans(g0, h2, h3);
    var h4 := OnGraphChanged(h3, cfg, "connect", true);
    NodesKept(h3, h4);
    SameShapeTrans(g0, h3, h4);
    Settled(g0, h4, cfg)
  }

  /** An output's list with id `k` pushed onto it; a null list becomes `[k]`. */
  function Appended(ks: Option<seq<int>>, k: int): (r: seq<int>)
    ensures |r| > 0 && r[|r| - 1] == k
    ensures forall x {:trigger x in r} :: x in r <==> x == k || (ks.Some? && x in ks.value)
  {
    (if ks.None? then [] else ks.value) + [k]
  }

  /** `graph.removeLink(link_id)`: disconnect the input the link ends at, when that node exists. */
  function RemoveLink(g: Graph, cfg: Config, k: int): (g': Graph)
    requires StoreOk(g)
    ensures StoreOk(g') && SameShape(g, g')
    ensures k !in g.links ==> g' == g
  {
    if k !in g.links then g
    else
      var l := g.links[k];
      if l.targetId in g.nodes then DisconnectInput(g, cfg, l.targetId, At(l.targetSlot), true).0 else g
  }

  // ---------------------------------------------------------------------------
  // The data path
  // ---------------------------------------------------------------------------

  /** A query that may throw. */
  datatype Result<T> = Ok(value: T) | Err(err: JsError)

  /** Set the data of every stored link among `ks`. */
  function SetLinkData(links: map<int, LLink>, ks: seq<int>, data: JsVal): (r: map<int, LLink>)
    ensures r.Keys == links.Keys
    ensures forall k :: k in links ==> r[k] == if k in ks then links[k].(data := data) else links[k]
    decreases |ks|
  {
    if |ks| == 0 then links
    else
      var links' := if ks[0] in links then links[ks[0] := links[ks[0]].(data := data)] else links;
      SetLinkData(links', ks[1..], data)
  }

  /**
   * `setOutputData(slot, data)`: store `data` in the output and in every
   * stored link of its list. An unknown name, -1, an index past the end or a
   * negative index changes nothing.
   */
  function SetOutputData(g: Graph, id: int, slot: SlotRef, data: JsVal): (g': Graph)
    requires id in g.nodes
    ensures g' == g.(nodes := g'.nodes, links := g'.links)
    ensures id in g'.nodes && g'.nodes == g.nodes[id := g'.nodes[id]] && g'.links.Keys == g.links.Keys
    ensures g'.nodes[id] == g.nodes[id].(outputs := g'.nodes[id].outputs)
    ensures |g'.nodes[id].outputs| == |g.nodes[id].outputs|
    ensures forall i :: 0 <= i < |g.nodes[id].outputs| ==> g'.nodes[id].outputs[i].links == g.nodes[id].outputs[i].links
    ensures var s := OutputIndex(g.nodes[id], slot);
      !(0 <= s < |g.nodes[id].outputs|) ==> g' == g
  {
    var n := g.nodes[id];
    var s := OutputIndex(n, slot);
    if !(0 <= s < |n.outputs|) then g
    else
      var out := n.outputs[s];
      var g1 := g.(nodes := g.nodes[id := n.(outputs := n.outputs[s := out.(data := data)])]);
      match out.links
      case None => g1
      case Some(ks) => g1.(links := SetLinkData(g.links, ks, data))
  }

  /**
   * `getInputData(slot)` without `force_update`: `undefined` past the end or
   * for an unplugged input, `null` when the link id has no stored link, and
   * otherwise the link's data. A negative index reads `.link` of `undefined`.
   */
  function GetInputData(g: Graph, id: int, slot: int): (r: Result<JsVal>)
    requires id in g.nodes
    ensures r.Err? <==> slot < 0
    ensures slot >= |g.nodes[id].inputs| ==> r == Ok(Undef)
  {
    var n := g.nodes[id];
    if slot >= |n.inputs| then Ok(Undef)
    else if slot < 0 then Err(TypeError)
    else
      match n.inputs[slot].link
      case None => Ok(Undef)
      case Some(k) => if k in g.links then Ok(g.links[k].data) else Ok(Null)
  }

  /** `getInputNode(slot)`: the origin node of the link plugged into an input, if every step of the way exists. */
  function GetInputNode(g: Graph, id: int, slot: int): (r: Option<Node>)
    requires id in g.nodes
    ensures r.Some? ==> 0 <= slot < |g.nodes[id].inputs| && g.nodes[id].inputs[slot].link.Some?
  {
    var n := g.nodes[id];
    if !(0 <= slot < |n.inputs|) then None
    else
      match n.inputs[slot].link
      case None => None
      case Some(k) => if k in g.links then GetNodeById(g, g.links[k].originId) else None
  }

  // ---------------------------------------------------------------------------
  // removeInput / removeOutput
  // ---------------------------------------------------------------------------

  /** Where `splice(k, ...)` and `slice(k)` start in an array of length `len`. */
  function RelativeIndex(k: int, len: nat): (r: nat)
    ensures r <= len
    ensures 0 <= k <= len ==> r == k
  {
    if k < 0 then (if len + k < 0 then 0 else len + k) else if k > len then len else k
  }

  /** The `target_slot--` loop of `removeInput`, over the inputs after the removed one. */
  function ShiftTargets(links: map<int, LLink>, ins: seq<Input>): (r: map<int, LLink>)
    ensures r.Keys == links.Keys
    decreases |ins|
  {
    if |ins| == 0 then links
    else
      var links' :=
        match ins[0].link
        case None => links
        case Some(k) =>
          if k in links && links[k].targetSlot != 0 then links[k := links[k].(targetSlot := links[k].targetSlot - 1)]
          else links;
      ShiftTargets(links', ins[1..])
  }

  /** The `origin_slot -= 1` loop of `removeOutput`, over the outputs after the removed one. */
  function ShiftOrigins(links: map<int, LLink>, outs: seq<Output>): (r: map<int, LLink>)
    ensures r.Keys == links.Keys
    decreases |outs|
  {
    if |outs| == 0 then links
    else
      var links' :=
        match outs[0].links
        case None => links
        case Some(ks) => ShiftOriginsOf(links, ks);
      ShiftOrigins(links', outs[1..])
  }

  function ShiftOriginsOf(links: map<int, LLink>, ks: seq<int>): (r: map<int, LLink>)
    ensures r.Keys == links.Keys
    decreases |ks|
  {
    if |ks| == 0 then links
    else
      var links' := if ks[0] in links then links[ks[0] := links[ks[0]].(originSlot := links[ks[0]].originSlot - 1)] else links;
      ShiftOriginsOf(links', ks[1..])
  }

  /**
   * `removeInput(slot)`: disconnect the input, splice it out (a negative
   * index counts from the end, as `splice` does), then decrement the truthy
   * `target_slot` of the links plugged into the inputs from `slice(slot)` on.
   */
  function RemoveInput(g: Graph, cfg: Config, id: int, slot: int): (g': Graph)
    requires StoreOk(g) && id in g.nodes
    ensures StoreOk(g') && SameStore(g, g')
    ensures 0 <= slot < |g.nodes[id].inputs| ==> |g'.nodes[id].inputs| == |g.nodes[id].inputs| - 1
  {
    var g1 := DisconnectInput(g, cfg, id, At(slot), true).0;
    var g2 := DropInput(g1, id, slot);
    var ins := g2.nodes[id].inputs;
    g2.(links := ShiftTargets(g2.links, ins[RelativeIndex(slot, |ins|)..]))
  }

  /** `inputs.splice(slot, 1)`. */
  function DropInput(g: Graph, id: int, slot: int): (g': Graph)
    requires StoreOk(g) && id in g.nodes
    ensures StoreOk(g') && SameStore(g, g') && g'.links == g.links
    ensures g'.nodes[id].inputs == RemoveAt(g.nodes[id].inputs, RelativeIndex(slot, |g.nodes[id].inputs|))
  {
    var n := g.nodes[id];
    SetNode(g, id, n.(inputs := RemoveAt(n.inputs, RelativeIndex(slot, |n.inputs|))))
  }

  /**
   * `removeOutput(slot)`: disconnect every link of the output (which may
   * throw), drop the output at that index (no output for a negative index),
   * then decrement `origin_slot` of the stored links of the outputs from
   * `slice(slot)` on.
   */
  function RemoveOutput(g: Graph, cfg: Config, id: int, slot: int): (r: Outcome<()>)
    requires StoreOk(g) && id in g.nodes
    ensures StoreOk(r.g) && SameStore(g, r.g)
    ensures r.Done? && 0 <= slot < |g.nodes[id].outputs| ==> |r.g.nodes[id].outputs| == |g.nodes[id].outputs| - 1
    ensures r.Done? ==> r.g.nodes[id].outputs == RemoveAt(g.nodes[id].outputs, slot)
  {
    var r1 := DisconnectOutput(g, cfg, id, At(slot), NoNode, true);
    if r1.Threw? then Threw(r1.g, r1.err)
    else
      DisconnectOutputThenDrop(g, cfg, id, slot);
      var g2 := DropOutput(r1.g, id, slot);
      var outs := g2.nodes[id].outputs;
      Done(g2.(links := ShiftOrigins(g2.links, outs[RelativeIndex(slot, |outs|)..])), ())
  }

  /** Disconnecting every link of output `slot` leaves the node's other outputs as they were. */
  lemma DisconnectOutputKeepsOthers(g: Graph, cfg: Config, id: int, slot: int)
    requires StoreOk(g) && id in g.nodes
    ensures var r := DisconnectOutput(g, cfg, id, At(slot), NoNode, true); var outs := g.nodes[id].outputs;
      r.Done? ==>
        |r.g.nodes[id].outputs| == |outs| &&
        forall i :: 0 <= i < |outs| && i != slot ==> r.g.nodes[id].outputs[i] == outs[i]
  {
  }

  /** Once output `slot` is dropped, disconnecting it first makes no difference to the outputs. */
  lemma DisconnectOutputThenDrop(g: Graph, cfg: Config, id: int, slot: int)
    requires StoreOk(g) && id in g.nodes
    ensures var r := DisconnectOutput(g, cfg, id, At(slot), NoNode, true); var outs := g.nodes[id].outputs;
      r.Done? ==> |r.g.nodes[id].outputs| == |outs| && RemoveAt(r.g.nodes[id].outputs, slot) == RemoveAt(outs, slot)
  {
    var r := DisconnectOutput(g, cfg, id, At(slot), NoNode, true);
    if r.Done? {
      DisconnectOutputKeepsOthers(g, cfg, id, slot);
      SameRemoved(g.nodes[id].outputs, r.g.nodes[id].outputs, slot);
    }
  }

  /** Two lists that differ at most at index `k` lose the same thing when `k` is removed. */
  lemma SameRemoved<T>(s: seq<T>, s': seq<T>, k: int)
    requires |s'| == |s| && forall i :: 0 <= i < |s| && i != k ==> s'[i] == s[i]
    ensures RemoveAt(s', k) == RemoveAt(s, k)
  {
    if 0 <= k < |s| {
      assert RemoveAt(s', k) == s'[..k] + s'[k + 1..];
      assert s'[..k] == s[..k];
      assert s'[k + 1..] == s[k + 1..];
    } else {
      assert s' == s;
    }
  }

  /** `outputs.filter((_, index) => index !== slot)`. */
  function DropOutput(g: Graph, id: int, slot: int): (g': Graph)
    requires StoreOk(g) && id in g.nodes
    ensures StoreOk(g') && SameStore(g, g') && g'.links == g.links
    ensures g'.nodes[id].outputs == RemoveAt(g.nodes[id].outputs, slot)
  {
    var n := g.nodes[id];
    SetNode(g, id, n.(outputs := RemoveAt(n.outputs, slot)))
  }

  /** `s` without the element at index `k`, when there is one. */
  function RemoveAt<T>(s: seq<T>, k: int): (r: seq<T>)
    ensures 0 <= k < |s| ==> |r| == |s| - 1 && forall i :: 0 <= i < |r| ==> r[i] == if i < k then s[i] else s[i + 1]
    ensures !(0 <= k < |s|) ==> r == s
  {
    if 0 <= k < |s| then s[..k] + s[k + 1..] else s
  }
}
