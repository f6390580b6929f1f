/**
 * Running nodes: `doExecute`, `actionDo`, `trigger`, `triggerSlot`,
 * `executePendingActions`, `refreshAncestors` and `LGraph.runStep`.
 *
 * A node's `onExecute` and `onAction` callbacks are scripts of commands
 * (trigger an event, trigger a slot, write an output). Every callback
 * invocation is appended to the graph's `log`. JavaScript's call stack is
 * a `fuel` budget: calling a callback or the after-execute hook with none
 * left raises a RangeError, as an unbounded chain of events does in the
 * source. The random part of
 * an `action_call` id is a counter.
 *
 * Every `LiteGraph.debug?.(…)` call on these paths is modelled as the
 * logger it is evidently meant to be: it does nothing. (The library ships
 * `debug = false`, and calling `false` throws a TypeError; the model does
 * not follow that, see `Graphs.OnGraphChangedAsWritten`.)
 *
 * `asWritten` then selects between two versions of the remaining code.
 * With `true`, the stray `ç` in `actionDo` and the undeclared loop variable
 * `iN` in `refreshAncestors` raise ReferenceErrors. With `false`, both sites
 * do what their code evidently intends.
 */
module Execution {
  import opened Base
  import opened SlotTypes
  import opened Link
  import opened Nodes
  import opened Graphs
  import opened Connections
  import opened Order
  import opened Ancestors
  import opened Dataflow

  // ---------------------------------------------------------------------------
  // What execution never changes
  // ---------------------------------------------------------------------------

  /** A node without what execution may change: output data, the action queue, `exec_version` and `action_call`. */
  function Bones(n: Node): Node
  {
    n.(outputs := Dry(n.outputs), waiting := [], execVersion := None, actionCall := None)
  }

  /** Outputs without their data. */
  function Dry(outs: seq<Output>): (r: seq<Output>)
    ensures |r| == |outs| && forall i :: 0 <= i < |outs| ==> r[i] == outs[i].(data := Undef)
  {
    seq(|outs|, i requires 0 <= i < |outs| => outs[i].(data := Undef))
  }

  /** What execution never changes: the node store without execution state, the link ends, the counters and the order. */
  datatype Skeleton = Skeleton(nodeList: seq<int>, nodes: map<int, Node>, links: map<int, LLink>,
                               lastNodeId: int, lastLinkId: int, ordered: Option<Snapshot>, iteration: int)

  function SkeletonOf(g: Graph): Skeleton
  {
    Skeleton(g.nodeList, NodeBones(g.nodes), LinkEnds(g.links), g.lastNodeId, g.lastLinkId, g.ordered, g.iteration)
  }

  function NodeBones(nodes: map<int, Node>): (m: map<int, Node>)
    ensures m.Keys == nodes.Keys && forall x :: x in nodes ==> m[x] == Bones(nodes[x])
  {
    map x | x in nodes :: Bones(nodes[x])
  }

  function LinkEnds(links: map<int, LLink>): (m: map<int, LLink>)
    ensures m.Keys == links.Keys && forall k :: k in links ==> m[k] == links[k].(data := Undef)
  {
    map k | k in links :: links[k].(data := Undef)
  }

  lemma TouchBones(nodes: map<int, Node>, id: int, n: Node)
    requires id in nodes && Bones(n) == Bones(nodes[id])
    ensures NodeBones(nodes[id := n]) == NodeBones(nodes)
  {
    var a, b := NodeBones(nodes[id := n]), NodeBones(nodes);
    assert forall x :: x in a ==> a[x] == b[x];
  }

  lemma LinkEndsSame(links: map<int, LLink>, links': map<int, LLink>)
    requires links'.Keys == links.Keys && forall k :: k in links ==> SameEnds(links[k], links'[k])
    ensures LinkEnds(links') == LinkEnds(links)
  {
    var a, b := LinkEnds(links'), LinkEnds(links);
    forall k | k in a ensures a[k] == b[k] {
      assert SameEnds(links[k], links'[k]);
    }
  }

  /** `g'` has the nodes, slots, callbacks, modes and links of `g`; only data and execution state may differ. */
  predicate SameWiring(g: Graph, g': Graph)
  {
    SkeletonOf(g) == SkeletonOf(g')
  }

  /** What a reader of `SameWiring` may use. */
  lemma SameWiringMeans(g: Graph, g': Graph)
    requires SameWiring(g, g')
    ensures g'.nodeList == g.nodeList && g'.nodes.Keys == g.nodes.Keys && g'.links.Keys == g.links.Keys
    ensures g'.lastNodeId == g.lastNodeId && g'.lastLinkId == g.lastLinkId && g'.ordered == g.ordered
    ensures g'.iteration == g.iteration
    ensures forall x :: x in g.nodes ==> Bones(g'.nodes[x]) == Bones(g.nodes[x])
    ensures forall k :: k in g.links ==> SameEnds(g.links[k], g'.links[k])
  {
    var B, B' := NodeBones(g.nodes), NodeBones(g'.nodes);
    var E, E' := LinkEnds(g.links), LinkEnds(g'.links);
    forall x | x in g.nodes ensures Bones(g'.nodes[x]) == Bones(g.nodes[x]) {
      assert B[x] == B'[x];
    }
    forall k | k in g.links ensures SameEnds(g.links[k], g'.links[k]) {
      assert E[k] == E'[k];
    }
  }

  lemma SameWiringStoreOk(g: Graph, g': Graph)
    requires StoreOk(g) && SameWiring(g, g')
    ensures StoreOk(g')
  {
    SameWiringMeans(g, g');
    forall x | x in g'.nodes ensures g'.nodes[x].id == x {
      assert Bones(g'.nodes[x]).id == Bones(g.nodes[x]).id;
    }
  }

  /** Replace node `id` by `n`, which has the same bones. */
  function Touch(g: Graph, id: int, n: Node): (g': Graph)
    requires StoreOk(g) && id in g.nodes && Bones(n) == Bones(g.nodes[id])
    ensures g' == g.(nodes := g.nodes[id := n])
    ensures StoreOk(g') && SameWiring(g, g')
  {
    var g' := g.(nodes := g.nodes[id := n]);
    TouchBones(g.nodes, id, n);
    SameWiringStoreOk(g, g');
    g'
  }

  lemma SetOutputDataWiring(g: Graph, id: int, slot: SlotRef, data: JsVal)
    requires StoreOk(g) && id in g.nodes
    ensures StoreOk(SetOutputData(g, id, slot, data)) && SameWiring(g, SetOutputData(g, id, slot, data))
  {
    var g' := SetOutputData(g, id, slot, data);
    var n := g.nodes[id];
    var s := OutputIndex(n, slot);
    if 0 <= s < |n.outputs| {
      SetOutputDataNode(g, id, slot, data);
      DryIgnoresData(n.outputs, s, data);
      SetOutputDataBones(g, id, slot, data);
      SetOutputDataEnds(g, id, slot, data);
      SameWiringStoreOk(g, g');
    }
  }

  lemma SetOutputDataEnds(g: Graph, id: int, slot: SlotRef, data: JsVal)
    requires id in g.nodes
    ensures LinkEnds(SetOutputData(g, id, slot, data).links) == LinkEnds(g.links)
  {
    SetOutputDataLinks(g, id, slot, data);
    LinkEndsSame(g.links, SetOutputData(g, id, slot, data).links);
  }

  lemma SetOutputDataNode(g: Graph, id: int, slot: SlotRef, data: JsVal)
    requires id in g.nodes && 0 <= OutputIndex(g.nodes[id], slot) < |g.nodes[id].outputs|
    ensures var n, s := g.nodes[id], OutputIndex(g.nodes[id], slot);
      SetOutputData(g, id, slot, data).nodes[id] == n.(outputs := n.outputs[s := n.outputs[s].(data := data)])
  {
    var n, s := g.nodes[id], OutputIndex(g.nodes[id], slot);
    var nodes := g.nodes[id := n.(outputs := n.outputs[s := n.outputs[s].(data := data)])];
    var g1 := g.(nodes := nodes);
    match n.outputs[s].links {
      case None => assert SetOutputData(g, id, slot, data) == g1;
      case Some(ks) => assert SetOutputData(g, id, slot, data) == g1.(links := SetLinkData(g.links, ks, data));
    }
  }

  lemma SetOutputDataBones(g: Graph, id: int, slot: SlotRef, data: JsVal)
    requires id in g.nodes && 0 <= OutputIndex(g.nodes[id], slot) < |g.nodes[id].outputs|
    requires var n, s := g.nodes[id], OutputIndex(g.nodes[id], slot);
      Dry(n.outputs[s := n.outputs[s].(data := data)]) == Dry(n.outputs)
    ensures NodeBones(SetOutputData(g, id, slot, data).nodes) == NodeBones(g.nodes)
  {
    SetOutputDataNode(g, id, slot, data);
    TouchBones(g.nodes, id, SetOutputData(g, id, slot, data).nodes[id]);
  }

  lemma DryIgnoresData(outs: seq<Output>, s: int, data: JsVal)
    requires 0 <= s < |outs|
    ensures Dry(outs[s := outs[s].(data := data)]) == Dry(outs)
  {
    var a, b := Dry(outs[s := outs[s].(data := data)]), Dry(outs);
    assert forall i :: 0 <= i < |a| ==> a[i] == b[i];
  }

  // ---------------------------------------------------------------------------
  // Bookkeeping
  // ---------------------------------------------------------------------------

  /** A fresh `action_call` id `<id>_<kind>_<n>`; the source draws `n` at random, the model counts. */
  function FreshCall(g: Graph, id: int, kind: string): (r: (Graph, string))
    ensures r.0 == g.(nextCall := g.nextCall + 1) && r.1 != ""
  {
    (g.(nextCall := g.nextCall + 1), IntToString(id) + "_" + kind + "_" + NatToString(g.nextCall))
  }

  /** `options.action_call ??= fresh`: a given id is kept, even an empty one. */
  function GivenOrFresh(g: Graph, call: Option<string>, id: int, kind: string): (r: (Graph, string))
    ensures call.Some? ==> r == (g, call.value)
    ensures call.None? ==> r == FreshCall(g, id, kind)
  {
    if call.Some? then (g, call.value) else FreshCall(g, id, kind)
  }

  /** Choosing a call id touches only the counter of fresh ids. */
  lemma CallIdKeeps(g: Graph, call: Option<string>, id: int, kind: string)
    requires StoreOk(g)
    ensures var g1 := GivenOrFresh(g, call, id, kind).0;
      StoreOk(g1) && SameWiring(g, g1) && g1.log == g.log && g1.executing == g.executing
  {
    var g1 := GivenOrFresh(g, call, id, kind).0;
    assert SameWiring(g, g1);
    SameWiringStoreOk(g, g1);
  }

  /** `if (!options.action_call) options.action_call = fresh`: an empty id is replaced too. */
  function TruthyOrFresh(g: Graph, call: Option<string>, id: int, kind: string): (r: (Graph, string))
    ensures r.1 != ""
    ensures call.Some? && call.value != "" ==> r == (g, call.value)
    ensures !(call.Some? && call.value != "") ==> r == FreshCall(g, id, kind)
  {
    if call.Some? && call.value != "" then (g, call.value) else FreshCall(g, id, kind)
  }

  /** `nodes_executing[id]` is set: the node's `onExecute` is on the call stack. */
  predicate Busy(g: Graph, id: int)
  {
    id in g.executing && g.executing[id]
  }

  /** `nodes_executedAction[id]` is a non-empty id equal to the non-empty call id `c`. */
  predicate AlreadyCalled(g: Graph, id: int, c: string)
  {
    id in g.executedAction && g.executedAction[id] != "" && c != "" && g.executedAction[id] == c
  }

  /** `exec_version && exec_version >= iteration`: the node already ran in this step (0 counts as never). */
  predicate RanThisStep(n: Node, iteration: int)
  {
    n.execVersion.Some? && n.execVersion.value != 0 && n.execVersion.value >= iteration
  }

  /** `nodes_executedAction[id] = c` when `c` is non-empty. */
  function Recorded(m: map<int, string>, id: int, c: string): (m': map<int, string>)
    ensures c != "" ==> m' == m[id := c]
    ensures c == "" ==> m' == m
  {
    if c != "" then m[id := c] else m
  }

  /** After `onExecute` returns: clear the busy flag, stamp `exec_version`, and record a non-empty call id. */
  function AfterExecute(g: Graph, id: int, c: string): (g': Graph)
    requires StoreOk(g) && id in g.nodes
    ensures StoreOk(g') && SameWiring(g, g')
    ensures g'.log == g.log && !Busy(g', id) && g'.nodes[id].execVersion == Some(g.iteration)
    ensures c != "" ==> id in g'.executedAction && g'.executedAction[id] == c
  {
    var g1 := g.(executing := g.executing[id := false], executedAction := Recorded(g.executedAction, id, c));
    Touch(g1, id, Stamped(g.nodes[id], g.iteration, c))
  }

  /** `exec_version = iteration`, and `action_call = c` when `c` is non-empty. */
  function Stamped(n: Node, iteration: int, c: string): (n': Node)
    ensures Bones(n') == Bones(n) && n'.execVersion == Some(iteration)
  {
    n.(execVersion := Some(iteration), actionCall := CallOr(n.actionCall, c))
  }

  /** A non-empty call id `c` replaces the recorded one. */
  function CallOr(prev: Option<string>, c: string): Option<string>
  {
    if c != "" then Some(c) else prev
  }

  /** After `onAction` returns: `nodes_actioning[id] = false`, and record a non-empty call id. */
  function AfterAction(g: Graph, id: int, c: string): (g': Graph)
    requires StoreOk(g) && id in g.nodes
    ensures StoreOk(g') && SameWiring(g, g')
  {
    var n := g.nodes[id];
    var g1 := g.(actioning := g.actioning[id := Idle], executedAction := Recorded(g.executedAction, id, c));
    Touch(g1, id, n.(actionCall := CallOr(n.actionCall, c)))
  }

  /** What `nodes_actioning[id]` holds once `onAction` has returned. */
  const Idle: JsVal := Bool(false)

  /** `node._waiting_actions.push(entry)`. */
  function Defer(g: Graph, id: int, e: Deferred): (g': Graph)
    requires StoreOk(g) && id in g.nodes
    ensures StoreOk(g') && SameWiring(g, g')
    ensures g'.nodes[id].waiting == g.nodes[id].waiting + [e] && g'.log == g.log
  {
    Touch(g, id, g.nodes[id].(waiting := g.nodes[id].waiting + [e]))
  }

  /** The options `refreshAncestors` passes to `getAncestors`; ON_REQUEST is undefined, so an unset mode passes `modesOnly`. */
  const RefreshFilters: Filters := Filters([Never, OnEvent, OnTrigger], [Always, NoMode], [ACTION], [])

  // ---------------------------------------------------------------------------
  // The callbacks and the event machinery
  // ---------------------------------------------------------------------------

  /** Run the commands of a callback of node `id` from index `i`; the first exception ends the script. */
  function RunScript(g: Graph, cfg: Config, id: int, script: seq<Cmd>, i: nat, asWritten: bool, fuel: nat): (r: Outcome<()>)
    requires StoreOk(g) && id in g.nodes && i <= |script|
    ensures StoreOk(r.g) && SameWiring(g, r.g)
    decreases fuel, 7, |script| - i
  {
    if i == |script| then Done(g, ())
    else
      var r1 := RunCmd(g, cfg, id, script[i], asWritten, fuel);
      if r1.Threw? then r1
      else
        var r2 := RunScript(r1.g, cfg, id, script, i + 1, asWritten, fuel);
        r2
  }

  /** One command of a callback of node `id`. */
  function RunCmd(g: Graph, cfg: Config, id: int, cmd: Cmd, asWritten: bool, fuel: nat): (r: Outcome<()>)
    requires StoreOk(g) && id in g.nodes
    ensures StoreOk(r.g) && SameWiring(g, r.g)
    decreases fuel, 7, 0
  {
    match cmd
    case Trigger(action, param) => Trigger(g, cfg, id, action, param, asWritten, fuel)
    case TriggerSlot(slot, param, linkId) => TriggerSlot(g, cfg, id, slot, param, linkId, None, asWritten, fuel)
    case SetOutput(slot, value) => WriteOutput(g, id, slot, value)
  }

  /** `this.setOutputData(slot, value)` from a callback. */
  function WriteOutput(g: Graph, id: int, slot: int, value: JsVal): (r: Outcome<()>)
    requires StoreOk(g) && id in g.nodes
    ensures r == Done(SetOutputData(g, id, At(slot), value), ())
    ensures StoreOk(r.g) && SameWiring(g, r.g)
  {
    SetOutputDataWiring(g, id, At(slot), value);
    Done(SetOutputData(g, id, At(slot), value), ())
  }

  /**
   * `trigger(action, param)`: nothing when the node has no outputs; otherwise
   * `triggerSlot` on every output of type EVENT whose name is `action`, or
   * on every such output when `action` is empty.
   */
  function Trigger(g: Graph, cfg: Config, id: int, action: string, param: JsVal, asWritten: bool, fuel: nat): (r: Outcome<()>)
    requires StoreOk(g) && id in g.nodes
    ensures StoreOk(r.g) && SameWiring(g, r.g)
    decreases fuel, 6, |g.nodes[id].outputs| + 1
  {
    TriggerFrom(g, cfg, id, g.nodes[id].outputs, 0, action, param, asWritten, fuel)
  }

  /** The `outputs.forEach` of `trigger`, from output `i`. */
  function TriggerFrom(g: Graph, cfg: Config, id: int, outs: seq<Output>, i: nat, action: string, param: JsVal, asWritten: bool, fuel: nat): (r: Outcome<()>)
    requires StoreOk(g) && id in g.nodes && i <= |outs|
    ensures StoreOk(r.g) && SameWiring(g, r.g)
    decreases fuel, 6, |outs| - i
  {
    if i == |outs| then Done(g, ())
    else if outs[i].otype == EVENT && (action == "" || outs[i].name == action) then
      var r1 := TriggerSlot(g, cfg, id, i, param, None, None, asWritten, fuel);
      if r1.Threw? then r1
      else
        var r2 := TriggerFrom(r1.g, cfg, id, outs, i + 1, action, param, asWritten, fuel);
        r2
    else TriggerFrom(g, cfg, id, outs, i + 1, action, param, asWritten, fuel)
  }

  /**
   * `triggerSlot(slot, param, link_id, options)`: nothing for a missing
   * output, an output without links, or while ancestors are being
   * refreshed; otherwise every link of the output is fired in turn (only
   * `link_id` when one is given). `call` is `options.action_call`.
   */
  function TriggerSlot(g: Graph, cfg: Config, id: int, slot: int, param: JsVal, linkId: Option<int>, call: Option<string>,
                       asWritten: bool, fuel: nat): (r: Outcome<()>)
    requires StoreOk(g) && id in g.nodes
    ensures StoreOk(r.g) && SameWiring(g, r.g)
    ensures g.ancestorsCall ==> r == Done(g, ())
    decreases fuel, 5, 0
  {
    var n := g.nodes[id];
    if !(0 <= slot < |n.outputs|) then Done(g, ())
    else
      match n.outputs[slot].links
      case None => Done(g, ())
      case Some(ks) => if ks == [] || g.ancestorsCall then Done(g, ()) else Fire(g, cfg, id, ks, 0, param, linkId, call, asWritten, fuel)
  }

  /**
   * The loop of `triggerSlot` from link `ks[k]`. A missing link or target
   * is skipped. An ON_TRIGGER target runs `doExecute` when it has
   * `onExecute`; any other target
   * with `onAction` gets the action named after the input the link enters,
   * queued when actions are deferred and the target has `onExecute`, run by
   * `actionDo` otherwise. One options object, hence one call id, serves the
   * whole loop.
   */
  function Fire(g: Graph, cfg: Config, id: int, ks: seq<int>, k: nat, param: JsVal, linkId: Option<int>, call: Option<string>,
                asWritten: bool, fuel: nat): (r: Outcome<()>)
    requires StoreOk(g) && id in g.nodes && k <= |ks|
    ensures StoreOk(r.g) && SameWiring(g, r.g)
    decreases fuel, 4, |ks| - k
  {
    if k == |ks| then Done(g, ())
    else if (linkId.Some? && linkId.value != ks[k]) || ks[k] !in g.links || g.links[ks[k]].targetId !in g.nodes then
      Fire(g, cfg, id, ks, k + 1, param, linkId, call, asWritten, fuel)
    else
      var l := g.links[ks[k]];
      var t := g.nodes[l.targetId];
      if t.mode != OnTrigger && t.onAction.None? then Fire(g, cfg, id, ks, k + 1, param, linkId, call, asWritten, fuel)
      else
        var r1 := FireOne(g, cfg, id, l.targetId, l.targetSlot, param, call, asWritten, fuel);
        if r1.Threw? then Threw(r1.g, r1.err)
        else
          var r2 := Fire(r1.g, cfg, id, ks, k + 1, param, linkId, Some(r1.value), asWritten, fuel);
          r2
  }

  /** One target of `triggerSlot`, which is ON_TRIGGER or has `onAction`; the value is the call id, now set. */
  function FireOne(g: Graph, cfg: Config, id: int, target: int, targetSlot: int, param: JsVal, call: Option<string>,
                   asWritten: bool, fuel: nat): (r: Outcome<string>)
    requires StoreOk(g) && id in g.nodes && target in g.nodes
    requires g.nodes[target].mode == OnTrigger || g.nodes[target].onAction.Some?
    ensures StoreOk(r.g) && SameWiring(g, r.g)
    decreases fuel, 3, 1
  {
    if g.nodes[target].mode == OnTrigger then
      var (g1, c) := TruthyOrFresh(g, call, id, "trigg");
      SameWiringStoreOk(g, g1);
      FireExecute(g1, cfg, target, param, c, asWritten, fuel)
    else
      var (g1, c) := TruthyOrFresh(g, call, id, "act");
      SameWiringStoreOk(g, g1);
      FireAction(g1, cfg, target, targetSlot, param, c, asWritten, fuel)
  }

  /**
   * An ON_TRIGGER target: refresh its ancestors when so configured, then,
   * when the target has `onExecute`, `doExecute` with call id `c`.
   */
  function FireExecute(g: Graph, cfg: Config, target: int, param: JsVal, c: string, asWritten: bool, fuel: nat): (r: Outcome<string>)
    requires StoreOk(g) && target in g.nodes
    ensures StoreOk(r.g) && SameWiring(g, r.g)
    decreases fuel, 3, 0
  {
    var r1 := if cfg.refreshAncestorsOnTriggers then RefreshAncestors(g, cfg, target, "trigger", param, Some(c), asWritten, fuel)
              else Done(g, ());
    if r1.Threw? then Threw(r1.g, r1.err)
    else
      SameWiringMeans(g, r1.g);
      if r1.g.nodes[target].onExecute.None? then Done(r1.g, c)
      else
        var r2 := DoExecute(r1.g, cfg, target, param, Some(c), asWritten, fuel);
        if r2.Threw? then Threw(r2.g, r2.err) else Done(r2.g, c)
  }

  /**
   * A target with `onAction`: the action is named after the input the link
   * enters (a missing input is a TypeError); refresh the ancestors when so
   * configured, then queue the action or run `actionDo` with call id `c`.
   */
  function FireAction(g: Graph, cfg: Config, target: int, targetSlot: int, param: JsVal, c: string, asWritten: bool, fuel: nat): (r: Outcome<string>)
    requires StoreOk(g) && target in g.nodes
    ensures StoreOk(r.g) && SameWiring(g, r.g)
    decreases fuel, 3, 0
  {
    var t := g.nodes[target];
    if !(0 <= targetSlot < |t.inputs|) then Threw(g, TypeError)
    else
      var name := t.inputs[targetSlot].name;
      var r1 := if cfg.refreshAncestorsOnActions then RefreshAncestors(g, cfg, target, name, param, Some(c), asWritten, fuel)
                else Done(g, ());
      if r1.Threw? then Threw(r1.g, r1.err)
      else
        SameWiringMeans(g, r1.g);
        var r2 := if cfg.useDeferredActions && t.onExecute.Some? then Done(Defer(r1.g, target, Deferred(name, param, Some(c), targetSlot)), ())
                  else ActionDo(r1.g, cfg, target, name, param, Some(c), targetSlot, asWritten, fuel);
        if r2.Threw? then Threw(r2.g, r2.err) else Done(r2.g, c)
  }

  /**
   * `refreshAncestors({action, param, options})`: unless the node's subtree
   * is already marked done and recalculation is prevented, block slot
   * triggering, run `doExecute` on every ancestor that runs on its own (in
   * execution order), mark each of them and the node itself done, and
   * unblock. As written, the loop assigns the undeclared `iN` and throws a
   * ReferenceError as soon as there is an ancestor, with triggering still
   * blocked.
   */
  function RefreshAncestors(g: Graph, cfg: Config, id: int, action: string, param: JsVal, call: Option<string>,
                            asWritten: bool, fuel: nat): (r: Outcome<()>)
    requires StoreOk(g) && id in g.nodes
    ensures StoreOk(r.g) && SameWiring(g, r.g)
    ensures r.Done? ==> id in r.g.ancestorsDone && r.g.ancestorsDone[id]
    ensures r.Done? && !Prevented(g, cfg, id) ==> !r.g.ancestorsCall
    ensures asWritten ==> (r.Threw? <==> !Prevented(g, cfg, id) && BlockedList(g, id) != [])
    ensures asWritten && r.Threw? ==> r.err == ReferenceError && r.g.ancestorsCall
    decreases fuel, 2, 1
  {
    if Prevented(g, cfg, id) then Done(g, ())
    else
      RefreshRun(Block(g), cfg, id, AncestorsParam(id, param), AncestorsCall(id, action, call), asWritten, fuel)
  }

  /** `ancestorsCall = true`: block slot triggering. */
  function Block(g: Graph): (g': Graph)
    requires StoreOk(g)
    ensures g' == g.(ancestorsCall := true) && StoreOk(g') && SameWiring(g, g')
  {
    g.(ancestorsCall := true)
  }

  /** The ancestors `refreshAncestors` runs, looked up once triggering is blocked. */
  function BlockedList(g: Graph, id: int): seq<int>
    requires StoreOk(g) && id in g.nodes
  {
    var b := Block(g);
    assert b.nodes == g.nodes;
    RefreshList(b, id)
  }

  /** `refreshAncestors` once triggering is blocked: run the ancestors with parameter `p` and call id `c`, then unblock. */
  function RefreshRun(g: Graph, cfg: Config, id: int, p: JsVal, c: string, asWritten: bool, fuel: nat): (r: Outcome<()>)
    requires StoreOk(g) && id in g.nodes && g.ancestorsCall
    ensures StoreOk(r.g) && SameWiring(g, r.g)
    ensures r.Done? ==> id in r.g.ancestorsDone && r.g.ancestorsDone[id] && !r.g.ancestorsCall
    ensures asWritten ==> (r.Threw? <==> RefreshList(g, id) != [])
    ensures asWritten && r.Threw? ==> r == Threw(g, ReferenceError)
    decreases fuel, 2, 0
  {
    var anc := RefreshList(g, id);
    if asWritten && anc != [] then Threw(g, ReferenceError)
    else
      var r1 := RunAncestors(g, cfg, anc, 0, p, c, asWritten, fuel);
      if r1.Threw? then r1
      else Done(Unblock(r1.g, id), ())
  }

  /** `ancestorsCall = false` and the node's subtree marked done. */
  function Unblock(g: Graph, id: int): (g': Graph)
    requires StoreOk(g)
    ensures StoreOk(g') && SameWiring(g, g')
    ensures id in g'.ancestorsDone && g'.ancestorsDone[id] && !g'.ancestorsCall
  {
    g.(ancestorsCall := false, ancestorsDone := g.ancestorsDone[id := true])
  }

  /** `preventAncestorRecalculation` is on and the node's ancestors are already marked done in this step. */
  predicate Prevented(g: Graph, cfg: Config, id: int)
  {
    cfg.preventAncestorRecalculation && id in g.ancestorsDone && g.ancestorsDone[id]
  }

  /** The tag `<id>_ancestors` that `refreshAncestors` uses for a missing action or parameter. */
  function AncestorsTag(id: int): (t: string)
    ensures t != ""
  {
    IntToString(id) + "_ancestors"
  }

  /** The parameter the ancestors run with: the given one when truthy, the tag otherwise. */
  function AncestorsParam(id: int, param: JsVal): (p: JsVal)
    ensures Truthy(p) && (Truthy(param) ==> p == param)
  {
    if Truthy(param) then param else Str(AncestorsTag(id))
  }

  /** The call id the ancestors run with: the given one, else the action, else the tag. */
  function AncestorsCall(id: int, action: string, call: Option<string>): (c: string)
    ensures call.Some? ==> c == call.value
    ensures call.None? ==> c != "" && (action != "" ==> c == action)
  {
    if call.Some? then call.value else if action == "" then AncestorsTag(id) else action
  }

  /** `getAncestors(this, optsAncestors)` in `refreshAncestors`. */
  function RefreshList(g: Graph, id: int): (anc: seq<int>)
    requires StoreOk(g) && id in g.nodes
    ensures anc == GetAncestors(g, id, RefreshFilters)
    ensures forall i :: 0 <= i < |anc| ==> anc[i] in g.nodes
  {
    GetAncestorsSound(g, id, RefreshFilters, InputType);
    GetAncestors(g, id, RefreshFilters)
  }

  /** The loop of `refreshAncestors` from ancestor `anc[j]`. */
  function RunAncestors(g: Graph, cfg: Config, anc: seq<int>, j: nat, p: JsVal, c: string, asWritten: bool, fuel: nat): (r: Outcome<()>)
    requires StoreOk(g) && j <= |anc| && forall i :: 0 <= i < |anc| ==> anc[i] in g.nodes
    ensures StoreOk(r.g) && SameWiring(g, r.g)
    decreases fuel, 1, |anc| - j
  {
    if j == |anc| then Done(g, ())
    else
      var r1 := DoExecute(g, cfg, anc[j], p, Some(c), asWritten, fuel);
      if r1.Threw? then r1
      else
        var g2 := r1.g.(ancestorsDone := r1.g.ancestorsDone[anc[j] := true]);
        var r2 := RunAncestors(g2, cfg, anc, j + 1, p, c, asWritten, fuel);
        r2
  }

  /**
   * `doExecute(param, options)`: for a node with `onExecute`, unless it is
   * already executing (or a guard switched on in the settings stops it),
   * mark it executing, call `onExecute`, unmark it, stamp `exec_version` with
   * the iteration and record the call id. Unless a guard returned early,
   * `onAfterExecuteNode` then runs, also for a node without `onExecute`.
   */
  function DoExecute(g: Graph, cfg: Config, id: int, param: JsVal, call: Option<string>, asWritten: bool, fuel: nat): (r: Outcome<()>)
    requires StoreOk(g) && id in g.nodes
    ensures StoreOk(r.g) && SameWiring(g, r.g)
    ensures g.nodes[id].onExecute.None? && FindOutputSlot(g.nodes[id], "onExecuted") == -1 ==> r == Done(g, ())
    ensures Busy(g, id) && g.nodes[id].onExecute.Some? ==> r.Done? && r.g.log == g.log && r.g.executing == g.executing
    decreases fuel, 0, 2
  {
    var n := g.nodes[id];
    if n.onExecute.None? then AfterHook(g, cfg, id, param, call, asWritten, fuel)
    else
      var (g1, c) := GivenOrFresh(g, call, id, "exec");
      CallIdKeeps(g, call, id, "exec");
      if ExecGuarded(g1, cfg, id, c) then Done(g1, ())
      else
        var r1 := InvokeExecute(g1, cfg, id, param, c, asWritten, fuel);
        if r1.Threw? then r1
        else
          SameWiringMeans(g1, r1.g);
          AfterHook(r1.g, cfg, id, param, Some(c), asWritten, fuel)
  }

  /**
   * `onAfterExecuteNode(param, options)`: when the node has an output named
   * "onExecuted", trigger it with the same parameter and call id. The nested
   * call costs a unit of the stack budget: a node whose "onExecuted" output
   * leads back to itself recurses without any callback in between.
   */
  function AfterHook(g: Graph, cfg: Config, id: int, param: JsVal, call: Option<string>, asWritten: bool, fuel: nat): (r: Outcome<()>)
    requires StoreOk(g) && id in g.nodes
    ensures StoreOk(r.g) && SameWiring(g, r.g)
    ensures FindOutputSlot(g.nodes[id], "onExecuted") == -1 ==> r == Done(g, ())
    decreases fuel, 0, 0
  {
    var s := FindOutputSlot(g.nodes[id], "onExecuted");
    if s == -1 then Done(g, ())
    else if fuel == 0 then Threw(g, RangeError)
    else TriggerSlot(g, cfg, id, s, param, None, call, asWritten, fuel - 1)
  }

  /** One of the guards of `doExecute` stops a call with id `c`: already executing, already run this step, or call already recorded. */
  predicate ExecGuarded(g: Graph, cfg: Config, id: int, c: string)
    requires id in g.nodes
  {
    Busy(g, id) || (cfg.ensureNodeSingleExecution && RanThisStep(g.nodes[id], g.iteration)) ||
    (cfg.ensureUniqueExecutionAndActionCall && AlreadyCalled(g, id, c))
  }

  /** The unguarded part of `doExecute`: mark, log and run `onExecute` with call id `c`, then unmark and stamp. */
  function InvokeExecute(g: Graph, cfg: Config, id: int, param: JsVal, c: string, asWritten: bool, fuel: nat): (r: Outcome<()>)
    requires StoreOk(g) && id in g.nodes && g.nodes[id].onExecute.Some?
    ensures StoreOk(r.g) && SameWiring(g, r.g)
    decreases fuel, 0, 1
  {
    var g1 := g.(executing := g.executing[id := true], log := g.log + [Executed(id, param, Some(c))]);
    if fuel == 0 then Threw(g1, RangeError)
    else
      var r1 := RunScript(g1, cfg, id, g.nodes[id].onExecute.value, 0, asWritten, fuel - 1);
      if r1.Threw? then r1
      else
        SameWiringMeans(g1, r1.g);
        Done(AfterExecute(r1.g, id, c), ())
  }

  /**
   * `actionDo(action, param, options, slot)`: for a node with `onAction`,
   * unless a guard switched on in the settings stops it, record the action
   * in `nodes_actioning`, call `onAction`, clear the entry and record the
   * call id. When `ensureUniqueExecutionAndActionCall` finds the call id
   * already recorded the call returns; as written, the stray `ç` after the
   * (no-op) log call throws a ReferenceError there instead.
   */
  function ActionDo(g: Graph, cfg: Config, id: int, action: string, param: JsVal, call: Option<string>, slot: int,
                    asWritten: bool, fuel: nat): (r: Outcome<()>)
    requires StoreOk(g) && id in g.nodes
    ensures StoreOk(r.g) && SameWiring(g, r.g)
    ensures g.nodes[id].onAction.None? && FindOutputSlot(g.nodes[id], "onExecuted") == -1 ==> r == Done(g, ())
    ensures UniqueGuardHits(g, cfg, id, call) ==> r == if asWritten then Threw(g, ReferenceError) else Done(g, ())
    decreases fuel, 0, 3
  {
    var n := g.nodes[id];
    if n.onAction.None? then AfterHook(g, cfg, id, param, call, asWritten, fuel)
    else
      var kind := ActionKind(action);
      var (g1, c) := GivenOrFresh(g, call, id, kind);
      CallIdKeeps(g, call, id, kind);
      GuardedAction(g1, cfg, id, action, param, c, slot, asWritten, fuel)
  }

  /** The kind part of a fresh `actionDo` call id: the action, or "action" for none. */
  function ActionKind(action: string): string
  {
    if action == "" then "action" else action
  }

  /** `actionDo` once the call id `c` is chosen: the two guards, then the call. */
  function GuardedAction(g: Graph, cfg: Config, id: int, action: string, param: JsVal, c: string, slot: int,
                         asWritten: bool, fuel: nat): (r: Outcome<()>)
    requires StoreOk(g) && id in g.nodes && g.nodes[id].onAction.Some?
    ensures StoreOk(r.g) && SameWiring(g, r.g)
    ensures UniqueGuardHits(g, cfg, id, Some(c)) ==> r == if asWritten then Threw(g, ReferenceError) else Done(g, ())
    decreases fuel, 0, 2
  {
    if cfg.ensureNodeSingleAction && id in g.actioning && g.actioning[id] == Str(c) then Done(g, ())
    else if cfg.ensureUniqueExecutionAndActionCall && AlreadyCalled(g, id, c) then
      if asWritten then Threw(g, ReferenceError) else Done(g, ())
    else
      var r1 := InvokeAction(g, cfg, id, action, param, c, slot, asWritten, fuel);
      if r1.Threw? then r1
      else
        SameWiringMeans(g, r1.g);
        AfterHook(r1.g, cfg, id, param, Some(c), asWritten, fuel)
  }

  /** What `nodes_actioning[id]` holds while `onAction` runs: the action, or "actioning" for none. */
  function Actioning(action: string): (v: JsVal)
    ensures v.Str? && v.s != ""
  {
    Str(if action == "" then "actioning" else action)
  }

  /**
   * The call `actionDo` is given has already been recorded for the node, and
   * `ensureUniqueExecutionAndActionCall` is on, while the single-action
   * guard before it lets the call through.
   */
  predicate UniqueGuardHits(g: Graph, cfg: Config, id: int, call: Option<string>)
    requires id in g.nodes
  {
    g.nodes[id].onAction.Some? && call.Some? && cfg.ensureUniqueExecutionAndActionCall && AlreadyCalled(g, id, call.value) &&
    !(cfg.ensureNodeSingleAction && id in g.actioning && g.actioning[id] == Str(call.value))
  }

  /** The unguarded part of `actionDo`: record, log and run `onAction` with call id `c`, then clear and record the id. */
  function InvokeAction(g: Graph, cfg: Config, id: int, action: string, param: JsVal, c: string, slot: int,
                        asWritten: bool, fuel: nat): (r: Outcome<()>)
    requires StoreOk(g) && id in g.nodes && g.nodes[id].onAction.Some?
    ensures StoreOk(r.g) && SameWiring(g, r.g)
    decreases fuel, 0, 1
  {
    var g1 := g.(actioning := g.actioning[id := Actioning(action)], log := g.log + [Actioned(id, action, param, Some(c), slot)]);
    assert g1.nodes == g.nodes;
    if fuel == 0 then Threw(g1, RangeError)
    else
      var r1 := RunScript(g1, cfg, id, g.nodes[id].onAction.value, 0, asWritten, fuel - 1);
      if r1.Threw? then r1
      else
        SameWiringMeans(g1, r1.g);
        Done(AfterAction(r1.g, id, c), ())
  }

  // ---------------------------------------------------------------------------
  // Deferred actions and the step loop
  // ---------------------------------------------------------------------------

  /**
   * `executePendingActions()`: nothing when the queue is empty; otherwise
   * `onAction` is called with every entry queued when the call began, in
   * order, and the queue is emptied, which drops what the calls queued
   * meanwhile. A node without `onAction` throws a TypeError; an exception
   * leaves the queue as it was.
   */
  function ExecutePendingActions(g: Graph, cfg: Config, id: int, asWritten: bool, fuel: nat): (r: Outcome<()>)
    requires StoreOk(g) && id in g.nodes
    ensures StoreOk(r.g) && SameWiring(g, r.g)
    ensures g.nodes[id].waiting == [] ==> r == Done(g, ())
    ensures r.Done? ==> r.g.nodes[id].waiting == []
  {
    var q := g.nodes[id].waiting;
    if q == [] then Done(g, ())
    else
      var r1 := DrainQueue(g, cfg, id, q, 0, asWritten, fuel);
      if r1.Threw? then r1
      else
        SameWiringMeans(g, r1.g);
        Done(Touch(r1.g, id, r1.g.nodes[id].(waiting := [])), ())
  }

  /** The `forEach` of `executePendingActions` from entry `q[k]`: `onAction(action, param, options, slot)`. */
  function DrainQueue(g: Graph, cfg: Config, id: int, q: seq<Deferred>, k: nat, asWritten: bool, fuel: nat): (r: Outcome<()>)
    requires StoreOk(g) && id in g.nodes && k <= |q|
    ensures StoreOk(r.g) && SameWiring(g, r.g)
    decreases |q| - k
  {
    if k == |q| then Done(g, ())
    else
      var r1 := ReplayEntry(g, cfg, id, q[k], asWritten, fuel);
      if r1.Threw? then r1
      else
        SameWiringMeans(g, r1.g);
        DrainQueue(r1.g, cfg, id, q, k + 1, asWritten, fuel)
  }

  /** One round of that loop: log the replayed call and run `onAction`, which must exist. */
  function ReplayEntry(g: Graph, cfg: Config, id: int, e: Deferred, asWritten: bool, fuel: nat): (r: Outcome<()>)
    requires StoreOk(g) && id in g.nodes
    ensures StoreOk(r.g) && SameWiring(g, r.g)
    ensures g.nodes[id].onAction.None? ==> r == Threw(g, TypeError)
  {
    match g.nodes[id].onAction
    case None => Threw(g, TypeError)
    case Some(script) =>
      RunScript(Logged(g, Replay1(id, e)), cfg, id, script, 0, asWritten, fuel)
  }

  /** The graph with one more entry in its call log. */
  function Logged(g: Graph, ev: Event): (g': Graph)
    requires StoreOk(g)
    ensures g' == g.(log := g.log + [ev]) && StoreOk(g') && SameWiring(g, g')
  {
    g.(log := g.log + [ev])
  }

  /** The log entry of `onAction` replaying entry `e` of node `id`'s queue. */
  function Replay1(id: int, e: Deferred): Event
  {
    Actioned(id, e.action, e.param, e.callId, e.slot)
  }

  /** What `runStep` iterates over: `_nodes_executable` once the order is computed, `_nodes` before. */
  function StepNodes(g: Graph): seq<int>
  {
    match NodesExecutable(g)
    case Some(ids) => ids
    case None => g.nodeList
  }

  /**
   * `runStep(num, do_not_catch_errors)`: `num` passes over the nodes, each
   * running a node's pending actions (when actions are deferred) and then,
   * for an ALWAYS node, `doExecute()`. The iteration counter then advances
   * by one, however many passes ran, and the per-step guard maps are
   * emptied. With `do_not_catch_errors` an exception escapes and nothing
   * of that happens. Otherwise an exception sets `errors_in_execution`; it
   * is rethrown, again skipping the rest, when `throw_errors` is on, and
   * otherwise the graph is stopped and the step completes.
   */
  function RunStep(g: Graph, cfg: Config, num: int, doNotCatch: bool, asWritten: bool, fuel: nat): (r: Outcome<()>)
    requires StoreOk(g)
    ensures StoreOk(r.g)
    ensures r.Done? ==> r.g.iteration == g.iteration + 1 && Fresh(r.g)
    ensures r.Threw? ==> r.g.iteration == g.iteration
    ensures r.Threw? && !doNotCatch ==> r.g.errorsInExecution
    ensures !doNotCatch && !cfg.throwErrors ==> r.Done?
    ensures r.Done? && !doNotCatch ==> (r.g.errorsInExecution ==> r.g.status == Stopped)
  {
    var r1 := Passes(g, cfg, StepNodes(g), 0, num, asWritten, fuel);
    SameWiringMeans(g, r1.g);
    if r1.Threw? then
      if doNotCatch then r1
      else
        var g1 := r1.g.(errorsInExecution := true);
        if cfg.throwErrors then Threw(g1, r1.err) else Done(EndStep(g1.(status := Stopped)), ())
    else if doNotCatch then Done(EndStep(r1.g), ())
    else Done(EndStep(r1.g.(errorsInExecution := false)), ())
  }

  /** The per-step guard maps are empty. */
  predicate Fresh(g: Graph)
  {
    g.executing == map[] && g.actioning == map[] && g.ancestorsDone == map[] && g.executedAction == map[]
  }

  /** The end of a step: the iteration advances and the per-step guard maps are emptied. */
  function EndStep(g: Graph): (g': Graph)
    requires StoreOk(g)
    ensures StoreOk(g') && g'.iteration == g.iteration + 1 && Fresh(g')
    ensures g'.nodes == g.nodes && g'.links == g.links && g'.log == g.log && g'.status == g.status
  {
    g.(iteration := g.iteration + 1, executing := map[], actioning := map[], ancestorsDone := map[], executedAction := map[])
  }

  /** Passes `i` to `num - 1` of `runStep`. */
  function Passes(g: Graph, cfg: Config, ids: seq<int>, i: int, num: int, asWritten: bool, fuel: nat): (r: Outcome<()>)
    requires StoreOk(g)
    ensures StoreOk(r.g) && SameWiring(g, r.g)
    decreases num - i
  {
    if i >= num then Done(g, ())
    else
      var r1 := Pass(g, cfg, ids, 0, asWritten, fuel);
      if r1.Threw? then r1 else Passes(r1.g, cfg, ids, i + 1, num, asWritten, fuel)
  }

  /** One pass of `runStep` over `ids`, from `ids[k]`; an id with no node behind it is skipped. */
  function Pass(g: Graph, cfg: Config, ids: seq<int>, k: nat, asWritten: bool, fuel: nat): (r: Outcome<()>)
    requires StoreOk(g) && k <= |ids|
    ensures StoreOk(r.g) && SameWiring(g, r.g)
    decreases |ids| - k
  {
    if k == |ids| then Done(g, ())
    else if ids[k] !in g.nodes then Pass(g, cfg, ids, k + 1, asWritten, fuel)
    else
      var r1 := StepNode(g, cfg, ids[k], asWritten, fuel);
      if r1.Threw? then r1 else Pass(r1.g, cfg, ids, k + 1, asWritten, fuel)
  }

  /** What one pass does to one node: pending actions first, then `doExecute()` for an ALWAYS node. */
  function StepNode(g: Graph, cfg: Config, id: int, asWritten: bool, fuel: nat): (r: Outcome<()>)
    requires StoreOk(g) && id in g.nodes
    ensures StoreOk(r.g) && SameWiring(g, r.g)
  {
    var r1 := if cfg.useDeferredActions && g.nodes[id].waiting != [] then ExecutePendingActions(g, cfg, id, asWritten, fuel)
              else Done(g, ());
    if r1.Threw? then r1
    else
      SameWiringMeans(g, r1.g);
      if r1.g.nodes[id].mode == Always then DoExecute(r1.g, cfg, id, Undef, None, asWritten, fuel) else r1
  }
}
