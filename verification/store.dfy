/**
 * The node store of `LGraph`: `add` with its id assignment and node-count
 * limit, `remove` with its cascade of disconnects, and `clear`. A graph
 * keeps its two indexes of nodes (`_nodes` and `_nodes_by_id`) and its
 * three records of every link in agreement through all of them.
 */
module Store {
  import opened Base
  import opened Link
  import opened Nodes
  import opened Graphs
  import opened Connections
  import opened Order
  import opened Integrity

  /** The message of the error `add` throws once the graph is full: the program's own text, verbatim. */
  const NodeLimitMessage: string := "LiteGraph: 图中的节点数量已达到最大值"

  // ---------------------------------------------------------------------------
  // add
  // ---------------------------------------------------------------------------

  /** The counter and id after the duplicate check: an id other than -1 that is already taken becomes `++last_node_id`. */
  function Deduped(last: int, taken: bool, id: int): (int, int)
  {
    if id != -1 && taken then (last + 1, last + 1) else (last, id)
  }

  /** The counter and id after the assignment: -1 becomes `++last_node_id`, and a larger id raises the counter to it. */
  function Assigned(last: int, id: int): (int, int)
  {
    if id == -1 then (last + 1, last + 1)
    else if last < id then (id, id)
    else (last, id)
  }

  /** The node appended to `_nodes` and stored in `_nodes_by_id` under `id`, which it now carries. */
  function Stored(g: Graph, n: Node, id: int): (g': Graph)
    ensures g' == g.(nodes := g'.nodes, nodeList := g'.nodeList)
    ensures g'.nodes == g.nodes[id := n.(id := id)] && g'.nodeList == g.nodeList + [id]
  {
    g.(nodes := g.nodes[id := n.(id := id)], nodeList := g.nodeList + [id])
  }

  /**
   * `add(node, skip_compute_order, {doProcessChange})` for a node (groups
   * are not modelled). Its value is the id the node is stored under. A
   * full graph throws, after the duplicate check may already have bumped
   * the counter.
   */
  function Add(g: Graph, cfg: Config, n: Node, skipOrder: bool, doSave: bool): (r: Outcome<int>)
    ensures r.Threw? <==> |g.nodeList| >= cfg.maxNodes
    ensures r.Threw? ==> r.err == GraphError(NodeLimitMessage) && r.g.nodes == g.nodes && r.g.nodeList == g.nodeList
    ensures r.g.links == g.links && r.g.lastLinkId == g.lastLinkId
    ensures r.Done? ==> r.g.nodes == g.nodes[r.value := n.(id := r.value)] && r.g.nodeList == g.nodeList + [r.value]
  {
    var d := Deduped(g.lastNodeId, n.id in g.nodes, n.id);
    if |g.nodeList| >= cfg.maxNodes then Threw(Counted(g, d.0), GraphError(NodeLimitMessage))
    else
      var a := Assigned(d.0, d.1);
      Done(Placed(Counted(g, a.0), cfg, n, a.1, skipOrder, doSave), a.1)
  }

  /** The graph with `last_node_id` set to `c`. */
  function Counted(g: Graph, c: int): (g': Graph)
    ensures g'.nodes == g.nodes && g'.nodeList == g.nodeList && g'.links == g.links
    ensures g'.lastLinkId == g.lastLinkId && g'.lastNodeId == c
  {
    g.(lastNodeId := c)
  }

  /** The rest of `add` once the id is settled: record the change, store the node, and recompute the order unless skipped. */
  function Placed(g: Graph, cfg: Config, n: Node, id: int, skipOrder: bool, doSave: bool): (g': Graph)
    ensures g'.nodes == g.nodes[id := n.(id := id)] && g'.nodeList == g.nodeList + [id]
    ensures g'.links == g.links && g'.lastLinkId == g.lastLinkId && g'.lastNodeId == g.lastNodeId
  {
    var g1 := Stored(OnGraphChanged(g, cfg, "nodeAdd", doSave), n, id);
    if skipOrder then g1 else UpdateExecutionOrder(g1)
  }

  /**
   * The id `add` gives: the node's own unless it is -1 or taken, else
   * `++last_node_id`; the counter ends at the larger of itself and that
   * id. (A counter of -2 would make the renamed id -1 and be bumped twice.)
   */
  lemma AddAssignsId(g: Graph, cfg: Config, n: Node, skipOrder: bool, doSave: bool)
    requires g.lastNodeId >= -1 && |g.nodeList| < cfg.maxNodes
    ensures var r := Add(g, cfg, n, skipOrder, doSave);
      r.Done? && r.value == (if n.id == -1 || n.id in g.nodes then g.lastNodeId + 1 else n.id) &&
      r.g.lastNodeId == if r.value > g.lastNodeId then r.value else g.lastNodeId
  {
    var d := Deduped(g.lastNodeId, n.id in g.nodes, n.id);
    var a := Assigned(d.0, d.1);
    assert a.1 == (if n.id == -1 || n.id in g.nodes then g.lastNodeId + 1 else n.id);
    assert a.0 == if a.1 > g.lastNodeId then a.1 else g.lastNodeId;
  }

  /** A node that holds no link: every input unplugged, every output list null or empty. */
  predicate HoldsNoLink(n: Node)
  {
    (forall i :: 0 <= i < |n.inputs| ==> n.inputs[i].link.None?) &&
    (forall i :: 0 <= i < |n.outputs| ==> Empty(n.outputs[i].links))
  }

  /** An output's `links` that holds nothing: null or `[]`. */
  predicate Empty(links: Option<seq<int>>)
  {
    links.None? || links == Some([])
  }

  /**
   * While `last_node_id` bounds every id, `add` below the limit stores the
   * node under an id no node had, and the counter still bounds every id:
   * the two node indexes stay in agreement.
   */
  lemma AddKeepsStore(g: Graph, cfg: Config, n: Node, skipOrder: bool, doSave: bool)
    requires StoreOk(g) && IdsBelowCounter(g) && g.lastNodeId >= -1 && |g.nodeList| < cfg.maxNodes
    ensures var r := Add(g, cfg, n, skipOrder, doSave);
      r.Done? && r.value !in g.nodes && StoreOk(r.g) && IdsBelowCounter(r.g)
  {
    var r := Add(g, cfg, n, skipOrder, doSave);
    AddAssignsId(g, cfg, n, skipOrder, doSave);
    assert r.value !in g.nodes;
    assert NoDup(r.g.nodeList) by {
      forall i, j | 0 <= i < j < |r.g.nodeList| ensures r.g.nodeList[i] != r.g.nodeList[j] {
        if j == |g.nodeList| {
          assert r.g.nodeList[i] == g.nodeList[i];
        }
      }
    }
  }

  /** Adding a node that holds no link below the limit keeps a well-formed graph well-formed. */
  lemma AddKeepsWF(g: Graph, cfg: Config, n: Node, skipOrder: bool, doSave: bool)
    requires WF(g) && IdsBelowCounter(g) && g.lastNodeId >= -1 && |g.nodeList| < cfg.maxNodes && HoldsNoLink(n)
    ensures WF(Add(g, cfg, n, skipOrder, doSave).g)
  {
    var r := Add(g, cfg, n, skipOrder, doSave);
    AddKeepsStore(g, cfg, n, skipOrder, doSave);
    NewNodeKeepsLinks(g, r.g, r.value, n.(id := r.value));
  }

  /** `g'` is `g` with one more node `m` under the fresh id `id`, and the same links. */
  ghost predicate GrownBy(g: Graph, g': Graph, id: int, m: Node)
  {
    id !in g.nodes && g'.nodes == g.nodes[id := m] && g'.links == g.links && g'.lastLinkId == g.lastLinkId
  }

  /** A new node that holds no link leaves every link registered at both ends, and every slot backed. */
  lemma NewNodeKeepsLinks(g: Graph, g': Graph, id: int, m: Node)
    requires LinksOk(g) && GrownBy(g, g', id, m) && HoldsNoLink(m)
    ensures LinksOk(g')
  {
    forall k | k in g'.links ensures LinkRegistered(g', k) && k <= g'.lastLinkId {
      assert LinkRegistered(g, k);
    }
    forall x, i | x in g'.nodes && 0 <= i < |g'.nodes[x].inputs| ensures InputBacked(g', x, i) {
      if x != id {
        assert InputBacked(g, x, i);
      }
    }
    forall x, i | x in g'.nodes && 0 <= i < |g'.nodes[x].outputs| ensures OutputBacked(g', x, i) {
      if x != id {
        assert OutputBacked(g, x, i);
      } else {
        assert Empty(m.outputs[i].links);
      }
    }
  }

  // ---------------------------------------------------------------------------
  // remove
  // ---------------------------------------------------------------------------

  /** The input loop of `remove` from input `i` on: `disconnectInput(i)` on every plugged input. */
  function UnplugInputs(g: Graph, cfg: Config, id: int, i: nat): (g': Graph)
    requires StoreOk(g) && id in g.nodes && i <= |g.nodes[id].inputs|
    ensures StoreOk(g') && SameShape(g, g') && g'.lastLinkId == g.lastLinkId && g'.links.Keys <= g.links.Keys
    decreases |g.nodes[id].inputs| - i
  {
    if i == |g.nodes[id].inputs| then g
    else
      var g1 := if g.nodes[id].inputs[i].link.Some? then DisconnectInput(g, cfg, id, At(i), false).0 else g;
      var g2 := UnplugInputs(g1, cfg, id, i + 1);
      SameShapeTrans(g, g1, g2);
      g2
  }

  /** The output loop of `remove` from output `i` on: untargeted `disconnectOutput(i)` on every non-empty list. */
  function UnplugOutputs(g: Graph, cfg: Config, id: int, i: nat): (r: Outcome<()>)
    requires StoreOk(g) && id in g.nodes && i <= |g.nodes[id].outputs|
    ensures StoreOk(r.g) && SameShape(g, r.g) && r.g.lastLinkId == g.lastLinkId && r.g.links.Keys <= g.links.Keys
    decreases |g.nodes[id].outputs| - i
  {
    if i == |g.nodes[id].outputs| then Done(g, ())
    else if Empty(g.nodes[id].outputs[i].links) then UnplugOutputs(g, cfg, id, i + 1)
    else
      var r1 := DisconnectOutput(g, cfg, id, At(i), NoNode, false);
      if r1.Threw? then Threw(r1.g, r1.err)
      else
        var r2 := UnplugOutputs(r1.g, cfg, id, i + 1);
        SameShapeTrans(g, r1.g, r2.g);
        r2
  }

  /** The end of `remove`: record the change, take the node out of both indexes and recompute the order. */
  function Detach(g: Graph, cfg: Config, id: int): (g': Graph)
    requires StoreOk(g) && id in g.nodes
    ensures StoreOk(g') && g'.ordered.Some?
    ensures g'.nodes == g.nodes - {id} && g'.nodeList == RemoveFirst(g.nodeList, id)
    ensures g'.links == g.links && g'.lastLinkId == g.lastLinkId && g'.lastNodeId == g.lastNodeId
  {
    RemoveFirstNoDup(g.nodeList, id);
    var g1 := OnGraphChanged(g, cfg, "nodeRemove", true);
    UpdateExecutionOrder(g1.(nodeList := RemoveFirst(g1.nodeList, id), nodes := g1.nodes - {id}))
  }

  /**
   * `remove(node)` by the node's id: nothing for an unknown node or one with
   * `ignore_remove`; otherwise every plugged input and every non-empty
   * output is disconnected, the node leaves both indexes and the order is
   * recomputed.
   */
  function Remove(g: Graph, cfg: Config, id: int): (r: Outcome<()>)
    requires StoreOk(g)
    ensures StoreOk(r.g)
    ensures id !in g.nodes || g.nodes[id].ignoreRemove ==> r == Done(g, ())
    ensures r.Done? && id in g.nodes && !g.nodes[id].ignoreRemove ==>
      id !in r.g.nodes && r.g.nodeList == RemoveFirst(g.nodeList, id) && r.g.ordered.Some?
  {
    if id !in g.nodes || g.nodes[id].ignoreRemove then Done(g, ())
    else
      var g1 := UnplugInputs(g, cfg, id, 0);
      var r2 := UnplugOutputs(g1, cfg, id, 0);
      if r2.Threw? then Threw(r2.g, r2.err)
      else Done(Detach(r2.g, cfg, id), ())
  }

  /** Link `l` has an end at node `id`. */
  predicate Touches(l: LLink, id: int)
  {
    l.originId == id || l.targetId == id
  }

  /** Every link of `R` is stored in `links` and ends (`atTarget`) or starts at node `id`. */
  ghost predicate EndsAt(links: map<int, LLink>, R: set<int>, id: int, atTarget: bool)
  {
    forall k :: k in R ==> k in links && (if atTarget then links[k].targetId else links[k].originId) == id
  }

  /** The inputs of node `id` from `i` on are unplugged. */
  ghost predicate InputsFreeFrom(g: Graph, id: int, i: nat)
    requires id in g.nodes
  {
    forall j :: i <= j < |g.nodes[id].inputs| ==> g.nodes[id].inputs[j].link.None?
  }

  /** The outputs of node `id` from `i` on hold nothing. */
  ghost predicate OutputsFreeFrom(g: Graph, id: int, i: nat)
    requires id in g.nodes
  {
    forall j :: i <= j < |g.nodes[id].outputs| ==> Empty(g.nodes[id].outputs[j].links)
  }

  /** Two rounds of removal whose links all had an end at `id` remove links that all had an end at `id`. */
  lemma EndsAtTrans(a: Graph, b: Graph, R1: set<int>, R2: set<int>, id: int, atTarget: bool)
    requires b.links == a.links - R1 && EndsAt(a.links, R1, id, atTarget) && EndsAt(b.links, R2, id, atTarget)
    ensures EndsAt(a.links, R1 + R2, id, atTarget)
  {
  }

  /** One turn of the input loop on a plugged input: it is unplugged, taking out only the link it held. */
  lemma UnplugInputStep(g: Graph, cfg: Config, id: int, i: nat) returns (R1: set<int>)
    requires WF(g) && id in g.nodes && i < |g.nodes[id].inputs| && g.nodes[id].inputs[i].link.Some?
    ensures var g1 := DisconnectInput(g, cfg, id, At(i), false).0;
      Removed(g, g1, R1) && WF(g1) && EndsAt(g.links, R1, id, true) && g1.nodes[id].inputs[i].link.None?
  {
    var g1 := DisconnectInput(g, cfg, id, At(i), false).0;
    R1 := Held(g.nodes[id].inputs[i].link);
    DisconnectInputRemoves(g, cfg, id, At(i), false);
    assert InputBacked(g, id, i);
    RemovedKeepsWF(g, g1, R1);
  }

  /**
   * The input loop on a well-formed graph takes out only links that end at
   * the node, and leaves the inputs from `i` on unplugged.
   */
  lemma {:induction false} UnplugInputsRemoves(g: Graph, cfg: Config, id: int, i: nat) returns (R: set<int>)
    requires WF(g) && id in g.nodes && i <= |g.nodes[id].inputs|
    ensures var g' := UnplugInputs(g, cfg, id, i);
      Removed(g, g', R) && EndsAt(g.links, R, id, true) && InputsFreeFrom(g', id, i)
    decreases |g.nodes[id].inputs| - i
  {
    var g' := UnplugInputs(g, cfg, id, i);
    if i == |g.nodes[id].inputs| {
      RemovedNothing(g, g');
      R := {};
    } else if g.nodes[id].inputs[i].link.None? {
      R := UnplugInputsRemoves(g, cfg, id, i + 1);
      InputsFreeStep(g, g', R, id, i);
    } else {
      var g1 := DisconnectInput(g, cfg, id, At(i), false).0;
      var R1 := UnplugInputStep(g, cfg, id, i);
      var R2 := UnplugInputsRemoves(g1, cfg, id, i + 1);
      RemovedTrans(g, g1, g', R1, R2);
      EndsAtTrans(g, g1, R1, R2, id, true);
      R := R1 + R2;
      InputsFreeStep(g1, g', R2, id, i);
    }
  }

  /** An unplugged input stays unplugged when links are taken out. */
  lemma InputsFreeStep(g1: Graph, g': Graph, R: set<int>, id: int, i: nat)
    requires id in g1.nodes && Removed(g1, g', R) && i < |g1.nodes[id].inputs| && g1.nodes[id].inputs[i].link.None?
    requires InputsFreeFrom(g', id, i + 1)
    ensures InputsFreeFrom(g', id, i)
  {
    assert g'.nodes[id].inputs[i].link == Cleared(g1.nodes[id].inputs[i].link, R);
  }

  /** One turn of the output loop on a non-empty list: the output is emptied, taking out only the links it listed. */
  lemma UnplugOutputStep(g: Graph, cfg: Config, id: int, i: nat) returns (R1: set<int>)
    requires WF(g) && id in g.nodes && i < |g.nodes[id].outputs| && !Empty(g.nodes[id].outputs[i].links)
    ensures var r1 := DisconnectOutput(g, cfg, id, At(i), NoNode, false);
      r1.Done? && Removed(g, r1.g, R1) && WF(r1.g) && EndsAt(g.links, R1, id, false) && Empty(r1.g.nodes[id].outputs[i].links)
  {
    var ks := g.nodes[id].outputs[i].links.value;
    var r1 := DisconnectOutput(g, cfg, id, At(i), NoNode, false);
    DisconnectOutputRemoves(g, cfg, id, At(i), NoNode, false);
    assert OutputBacked(g, id, i);
    RemovedKeepsWF(g, r1.g, Listed(ks));
    R1 := Listed(ks);
  }

  /**
   * The output loop on a well-formed graph never throws: it takes out only
   * links that start at the node, and leaves the outputs from `i` on holding
   * nothing.
   */
  lemma {:induction false} UnplugOutputsRemoves(g: Graph, cfg: Config, id: int, i: nat) returns (R: set<int>)
    requires WF(g) && id in g.nodes && i <= |g.nodes[id].outputs|
    ensures var r := UnplugOutputs(g, cfg, id, i);
      r.Done? && Removed(g, r.g, R) && EndsAt(g.links, R, id, false) && OutputsFreeFrom(r.g, id, i)
    decreases |g.nodes[id].outputs| - i
  {
    var r := UnplugOutputs(g, cfg, id, i);
    if i == |g.nodes[id].outputs| {
      RemovedNothing(g, r.g);
      R := {};
    } else if Empty(g.nodes[id].outputs[i].links) {
      R := UnplugOutputsRemoves(g, cfg, id, i + 1);
      OutputsFreeStep(g, r.g, R, id, i);
    } else {
      var r1 := DisconnectOutput(g, cfg, id, At(i), NoNode, false);
      var R1 := UnplugOutputStep(g, cfg, id, i);
      var R2 := UnplugOutputsRemoves(r1.g, cfg, id, i + 1);
      RemovedTrans(g, r1.g, r.g, R1, R2);
      EndsAtTrans(g, r1.g, R1, R2, id, false);
      R := R1 + R2;
      OutputsFreeStep(r1.g, r.g, R2, id, i);
    }
  }

  /** An output holding nothing still holds nothing when links are taken out. */
  lemma OutputsFreeStep(g1: Graph, g': Graph, R: set<int>, id: int, i: nat)
    requires id in g1.nodes && Removed(g1, g', R) && i < |g1.nodes[id].outputs| && Empty(g1.nodes[id].outputs[i].links)
    requires OutputsFreeFrom(g', id, i + 1)
    ensures OutputsFreeFrom(g', id, i)
  {
    EmptyStaysEmpty(g1.nodes[id].outputs[i].links, g'.nodes[id].outputs[i].links, R);
  }

  /** An output list that held nothing holds nothing once links are taken out. */
  lemma EmptyStaysEmpty(a: Option<seq<int>>, b: Option<seq<int>>, R: set<int>)
    requires Empty(a) && ListShrunk(a, b, R)
    ensures Empty(b)
  {
    if a.Some? && b.Some? {
      NothingLeft(a.value, b.value, R);
    }
  }

  /** A list that keeps the elements of an empty list is empty. */
  lemma NothingLeft(ks: seq<int>, ks': seq<int>, R: set<int>)
    requires ks == [] && forall k :: k in ks' <==> k in ks && k !in R
    ensures ks' == []
  {
    if ks' != [] {
      HeadKept(ks, ks', R);
      assert false;
    }
  }

  lemma HeadKept(ks: seq<int>, ks': seq<int>, R: set<int>)
    requires ks' != [] && forall k :: k in ks' <==> k in ks && k !in R
    ensures ks'[0] in ks
  {
    var k := ks'[0];
    assert k in ks';
  }

  /** On a well-formed graph, no link has an end at a node that holds no link. */
  lemma NoLinkTouches(g: Graph, id: int)
    requires WF(g) && id in g.nodes && HoldsNoLink(g.nodes[id])
    ensures forall k :: k in g.links ==> !Touches(g.links[k], id)
  {
    forall k | k in g.links ensures !Touches(g.links[k], id) {
      assert LinkRegistered(g, k);
    }
  }

  /** Taking a node that holds no link out of a well-formed graph keeps it well-formed. */
  lemma DetachKeepsWF(g: Graph, cfg: Config, id: int)
    requires WF(g) && id in g.nodes && HoldsNoLink(g.nodes[id])
    ensures WF(Detach(g, cfg, id))
  {
    var g' := Detach(g, cfg, id);
    NoLinkTouches(g, id);
    forall k | k in g'.links ensures LinkRegistered(g', k) && k <= g'.lastLinkId {
      assert LinkRegistered(g, k);
    }
    forall x, i | x in g'.nodes && 0 <= i < |g'.nodes[x].inputs| ensures InputBacked(g', x, i) {
      assert InputBacked(g, x, i);
    }
    forall x, i | x in g'.nodes && 0 <= i < |g'.nodes[x].outputs| ensures OutputBacked(g', x, i) {
      assert OutputBacked(g, x, i);
    }
  }

  /**
   * Both loops of `remove` on a well-formed graph: no exception, and what
   * they take out are links with an end at the node, which then holds none.
   */
  lemma UnplugAll(g: Graph, cfg: Config, id: int) returns (R: set<int>)
    requires WF(g) && id in g.nodes
    ensures var g1 := UnplugInputs(g, cfg, id, 0); var r2 := UnplugOutputs(g1, cfg, id, 0);
      r2.Done? && Removed(g, r2.g, R) && WF(r2.g) && HoldsNoLink(r2.g.nodes[id]) &&
      forall k :: k in R ==> k in g.links && Touches(g.links[k], id)
  {
    var g1 := UnplugInputs(g, cfg, id, 0);
    var R1 := UnplugInputsRemoves(g, cfg, id, 0);
    RemovedKeepsWF(g, g1, R1);
    var r2 := UnplugOutputs(g1, cfg, id, 0);
    var R2 := UnplugOutputsRemoves(g1, cfg, id, 0);
    RemovedKeepsWF(g1, r2.g, R2);
    RemovedTrans(g, g1, r2.g, R1, R2);
    StillUnplugged(g1, r2.g, R2, id);
    R := R1 + R2;
  }

  /** Inputs unplugged before links are taken out stay unplugged. */
  lemma StillUnplugged(g1: Graph, g2: Graph, R: set<int>, id: int)
    requires id in g1.nodes && Removed(g1, g2, R) && InputsFreeFrom(g1, id, 0)
    ensures InputsFreeFrom(g2, id, 0)
  {
    forall j | 0 <= j < |g2.nodes[id].inputs| ensures g2.nodes[id].inputs[j].link.None? {
      assert g2.nodes[id].inputs[j].link == Cleared(g1.nodes[id].inputs[j].link, R);
    }
  }

  /**
   * Once only links with an end at `id` were taken out, and the well-formed
   * result has none left at `id`, the links left are exactly those of `g`
   * without an end at `id`.
   */
  lemma LinksLeft(g: Graph, g2: Graph, R: set<int>, id: int)
    requires g2.links == g.links - R && (forall k :: k in R ==> k in g.links && Touches(g.links[k], id))
    requires WF(g2) && id in g2.nodes && HoldsNoLink(g2.nodes[id])
    ensures forall k :: k in g2.links <==> k in g.links && !Touches(g.links[k], id)
    ensures forall k :: k in g2.links ==> g2.links[k] == g.links[k]
  {
    NoLinkTouches(g2, id);
  }

  /**
   * `remove` on a well-formed graph, for a node that allows it: it does not
   * throw, the graph stays well-formed, the node leaves both indexes, and
   * the links left are exactly those with no end at the node, unchanged;
   * every other node differs at most in the links its slots hold.
   */
  lemma RemoveSpec(g: Graph, cfg: Config, id: int)
    requires WF(g) && id in g.nodes && !g.nodes[id].ignoreRemove
    ensures var r := Remove(g, cfg, id);
      r.Done? && WF(r.g) && r.g.nodes.Keys == g.nodes.Keys - {id} && r.g.nodeList == RemoveFirst(g.nodeList, id) &&
      (forall k :: k in r.g.links <==> k in g.links && !Touches(g.links[k], id)) &&
      (forall k :: k in r.g.links ==> r.g.links[k] == g.links[k]) &&
      (forall x :: x in r.g.nodes ==> OnlyLinksDiffer(g.nodes[x], r.g.nodes[x]))
  {
    var R := UnplugAll(g, cfg, id);
    var g2 := UnplugOutputs(UnplugInputs(g, cfg, id, 0), cfg, id, 0).g;
    DetachKeepsWF(g2, cfg, id);
    LinksLeft(g, g2, R, id);
  }

  // ---------------------------------------------------------------------------
  // clear
  // ---------------------------------------------------------------------------

  /**
   * `clear()`: stopped, no nodes, links or execution order, both counters
   * and the iteration at 0, `_version` at -1, empty guard maps, history and
   * global slots. The slot-type registry, the `ancestorsCall` and
   * `errors_in_execution` flags (which `clear` does not assign) and the
   * model's call-id counter and call log are kept.
   */
  function Clear(g: Graph): (g': Graph)
    ensures g'.nodes == map[] && g'.nodeList == [] && g'.links == map[] && g'.ordered.None?
    ensures g'.lastNodeId == 0 && g'.lastLinkId == 0 && g'.version == -1 && g'.iteration == 0 && g'.status == Stopped
    ensures g'.registry == g.registry && g'.ancestorsCall == g.ancestorsCall && g'.errorsInExecution == g.errorsInExecution
  {
    Blank.(registry := g.registry, ancestorsCall := g.ancestorsCall, errorsInExecution := g.errorsInExecution,
           nextCall := g.nextCall, log := g.log)
  }

  /** A cleared graph is well-formed, and the first node added to it without an id gets id 1. */
  lemma ClearThenAdd(g: Graph, cfg: Config, n: Node, skipOrder: bool, doSave: bool)
    requires n.id == -1 && cfg.maxNodes > 0 && HoldsNoLink(n)
    ensures WF(Clear(g)) && IdsBelowCounter(Clear(g))
    ensures var r := Add(Clear(g), cfg, n, skipOrder, doSave);
      r.Done? && r.value == 1 && r.g.nodeList == [1] && r.g.lastNodeId == 1 && WF(r.g)
  {
    var c := Clear(g);
    AddAssignsId(c, cfg, n, skipOrder, doSave);
    AddKeepsWF(c, cfg, n, skipOrder, doSave);
  }
}
