/**
 * `LGraph.configure(data, keep_old)`: rebuild a graph from its serialized
 * form. The link tuples are decoded first (falsy entries are skipped), the
 * scalar fields are copied over, every node is created from its class or,
 * when the class is unknown or its constructor throws, replaced by a blank
 * placeholder that keeps the stored info and is flagged `has_errors`; then
 * every stored node is configured from its info, the execution order is
 * rebuilt and, unless the data carries a truthy `_version`, the change is
 * announced. Groups, `extra` and the `onConfigure` callback are not modelled.
 */
module Loading {
  import opened Base
  import opened Link
  import opened Nodes
  import opened Graphs
  import opened Order
  import opened Store
  import opened Registry
  import opened SlotTypes

  /**
   * The fields of a serialized graph that `configure` reads, `None` where
   * the field is absent. A `None` entry of `links` is a falsy array entry.
   */
  datatype GraphData = GraphData(
    nodes: Option<seq<NodeInfo>>,
    links: Option<seq<Option<LinkTuple>>>,
    lastNodeId: Option<int>,
    lastLinkId: Option<int>,
    version: Option<int>)

  /** `new LLink()` configured from tuple `t`: no data has travelled yet. */
  function Decoded(t: LinkTuple): (l: LLink)
    ensures Serialize(l) == t && l.data == Undef
  {
    Configure(NewLink(0, TNone, 0, 0, 0, 0), LinkArray(t))
  }

  /**
   * The link-decoding loop: each non-null tuple becomes a link stored under
   * its own id, a later tuple overwriting an earlier one with the same id.
   */
  function DecodeLinks(ts: seq<Option<LinkTuple>>): (m: map<int, LLink>)
  {
    if ts == [] then map[]
    else
      var m := DecodeLinks(ts[..|ts| - 1]);
      var t := ts[|ts| - 1];
      if t.None? then m else m[t.value.0 := Decoded(t.value)]
  }

  /** Entry `i` of `ts` is a tuple for link `k`. */
  predicate Carries(ts: seq<Option<LinkTuple>>, i: int, k: int)
  {
    0 <= i < |ts| && ts[i].Some? && ts[i].value.0 == k
  }

  /** The decoded store holds exactly the ids some non-null tuple carries, each link with no data. */
  lemma {:induction false} DecodeLinksKeys(ts: seq<Option<LinkTuple>>, k: int)
    ensures k in DecodeLinks(ts) <==> exists i :: Carries(ts, i, k)
    ensures k in DecodeLinks(ts) ==> DecodeLinks(ts)[k].data == Undef
    decreases |ts|
  {
    if ts != [] {
      var ts' := ts[..|ts| - 1];
      DecodeLinksKeys(ts', k);
      if k in DecodeLinks(ts) && k !in DecodeLinks(ts') {
        assert Carries(ts, |ts| - 1, k);
      }
      if exists i :: Carries(ts', i, k) {
        var i :| Carries(ts', i, k);
        assert Carries(ts, i, k);
      }
      if exists i :: Carries(ts, i, k) {
        var i :| Carries(ts, i, k);
        if i < |ts| - 1 {
          assert Carries(ts', i, k);
        } else {
          assert ts[|ts| - 1].value.0 == k;
        }
      }
    }
  }

  /** A tuple that no later tuple overrides is what its link serializes to. */
  lemma {:induction false} DecodeLinksLastWins(ts: seq<Option<LinkTuple>>, i: int)
    requires 0 <= i < |ts| && ts[i].Some?
    requires forall j :: i < j < |ts| && ts[j].Some? ==> ts[j].value.0 != ts[i].value.0
    ensures ts[i].value.0 in DecodeLinks(ts)
    ensures Serialize(DecodeLinks(ts)[ts[i].value.0]) == ts[i].value
    decreases |ts|
  {
    if i < |ts| - 1 {
      var ts' := ts[..|ts| - 1];
      assert ts'[i] == ts[i];
      DecodeLinksLastWins(ts', i);
    }
  }

  /**
   * The record after `clear()` (unless `keep_old`) and the field copy:
   * links, both counters and `_version` taken from the data where present,
   * and `_nodes` emptied, while `_nodes_by_id` is left as it was.
   */
  function Loaded(g: Graph, d: GraphData): (g': Graph)
    ensures g'.nodes == g.nodes && g'.nodeList == []
    ensures g'.links == if d.links.Some? then DecodeLinks(d.links.value) else g.links
    ensures g'.lastNodeId == GetOr(d.lastNodeId, g.lastNodeId) && g'.version == GetOr(d.version, g.version)
    ensures g'.lastLinkId == GetOr(d.lastLinkId, g.lastLinkId)
  {
    var g1 := Relinked(g, if d.links.Some? then DecodeLinks(d.links.value) else g.links);
    Recounted(g1, GetOr(d.lastNodeId, g.lastNodeId), GetOr(d.lastLinkId, g.lastLinkId), GetOr(d.version, g.version))
  }

  /** `g` with its link store replaced and `_nodes` emptied. */
  function Relinked(g: Graph, links: map<int, LLink>): (g': Graph)
    ensures g'.nodes == g.nodes && g'.nodeList == [] && g'.links == links
    ensures g'.lastNodeId == g.lastNodeId && g'.lastLinkId == g.lastLinkId && g'.version == g.version
  {
    g.(links := links, nodeList := [])
  }

  /** `g` with both counters and `_version` replaced. */
  function Recounted(g: Graph, lastNodeId: int, lastLinkId: int, version: int): (g': Graph)
    ensures g'.nodes == g.nodes && g'.nodeList == g.nodeList && g'.links == g.links
    ensures g'.lastNodeId == lastNodeId && g'.lastLinkId == lastLinkId && g'.version == version
  {
    g.(lastNodeId := lastNodeId, lastLinkId := lastLinkId, version := version)
  }

  /** `createNode` succeeds for this type: the class is registered and its constructor does not throw. */
  predicate Known(classes: map<string, NodeClass>, ntype: string)
  {
    ntype in classes && !classes[ntype].ctorThrows
  }

  /** The stand-in for a node whose class cannot be built: `new LGraphNode()` keeping the stored info. */
  function Placeholder(info: NodeInfo): (n: Node)
    ensures n.hasErrors && n.lastSerialization == Some(info) && n.title == "Unnamed"
    ensures n.inputs == [] && n.outputs == []
  {
    BlankNode("Unnamed").(hasErrors := true, lastSerialization := Some(info))
  }

  /** The node built for `info`, under the stored id, and the registry after building it. */
  function Built(classes: map<string, NodeClass>, reg: SlotRegistry, autoLoad: bool, info: NodeInfo): (res: (Node, SlotRegistry))
    ensures res.0.id == info.id
    ensures res.0.hasErrors <==> !Known(classes, info.ntype)
    ensures !Known(classes, info.ntype) ==> res.0.lastSerialization == Some(info) && res.1 == reg
    ensures HoldsNoLink(res.0)
  {
    var c := CreateNode(classes, reg, autoLoad, info.ntype, info.title);
    assert c.0.Some? ==> HoldsNoLink(c.0.value) by {
      if c.0.Some? { NewSlotsHoldNoLink(classes[info.ntype]); }
    }
    if c.0.Some? then (c.0.value.(id := info.id), c.1) else (Placeholder(info).(id := info.id), c.1)
  }

  /** A freshly constructed node's slots are unplugged. */
  lemma NewSlotsHoldNoLink(c: NodeClass)
    ensures forall i :: 0 <= i < |NewInputs(c.inputs)| ==> NewInputs(c.inputs)[i].link.None?
    ensures forall i :: 0 <= i < |NewOutputs(c.outputs)| ==> Empty(NewOutputs(c.outputs)[i].links)
  {
  }

  /**
   * The creation loop from entry `i` on: each node is built and handed to
   * `add(node, true, {doProcessChange: false})`; a throwing `add` ends the
   * whole call. The value is the `error` flag.
   */
  function AddNodes(g: Graph, cfg: Config, classes: map<string, NodeClass>, infos: seq<NodeInfo>, i: nat, err: bool): (r: Outcome<bool>)
    requires i <= |infos|
    ensures r.g.links == g.links
    decreases |infos| - i
  {
    if i == |infos| then Done(g, err)
    else
      var b := Built(classes, g.registry, cfg.autoLoadSlotTypes, infos[i]);
      var r := Add(g.(registry := b.1), cfg, b.0, true, false);
      if r.Threw? then Threw(r.g, r.err)
      else AddNodes(r.g, cfg, classes, infos, i + 1, err || !Known(classes, infos[i].ntype))
  }

  /** The configure loop from entry `i` on: `getNodeById(info.id)?.configure(info)`. */
  function ConfigureNodes(g: Graph, infos: seq<NodeInfo>, i: nat): (g': Graph)
    requires i <= |infos|
    ensures g'.nodes.Keys == g.nodes.Keys && g'.nodeList == g.nodeList && g'.links == g.links && g'.version == g.version
    ensures forall id :: id in g'.nodes ==>
      g'.nodes[id].hasErrors == g.nodes[id].hasErrors && g'.nodes[id].lastSerialization == g.nodes[id].lastSerialization &&
      (g.nodes[id].id == id ==> g'.nodes[id].id == id)
    decreases |infos| - i
  {
    if i == |infos| then g
    else
      var id := infos[i].id;
      match GetNodeById(g, id)
      case None => ConfigureNodes(g, infos, i + 1)
      case Some(n) => ConfigureNodes(g.(nodes := g.nodes[id := ConfigureNode(n, infos[i])]), infos, i + 1)
  }

  /** `updateExecutionOrder`, then `onGraphChanged` unless the data carried a truthy `_version`. */
  function Finish(g: Graph, cfg: Config, version: Option<int>): (g': Graph)
    ensures g'.nodes == g.nodes && g'.nodeList == g.nodeList && g'.links == g.links
    ensures g'.version == if version.Some? && version.value != 0 then g.version else g.version + 1
  {
    var g1 := UpdateExecutionOrder(g);
    if version.Some? && version.value != 0 then g1 else OnGraphChanged(g1, cfg, "graphConfigure", false)
  }

  /**
   * `configure(data, keep_old)`. No data: nothing happens and the value is
   * `undefined` (`None`). Otherwise the value is whether some node had to be
   * replaced by a placeholder; a throwing `add` ends the call.
   */
  function ConfigureGraph(g: Graph, cfg: Config, classes: map<string, NodeClass>, data: Option<GraphData>, keepOld: bool): (r: Outcome<Option<bool>>)
    ensures data.None? ==> r == Done(g, None)
    ensures r.Done? && data.Some? ==> r.value.Some?
  {
    if data.None? then Done(g, None)
    else
      var d := data.value;
      var g1 := Loaded(if keepOld then g else Clear(g), d);
      var infos := GetOr(d.nodes, []);
      var r1 := AddNodes(g1, cfg, classes, infos, 0, false);
      if r1.Threw? then Threw(r1.g, r1.err)
      else Done(Finish(ConfigureNodes(r1.g, infos, 0), cfg, d.version), Some(r1.value))
  }

  /** The link store after loading is the one decoded from the non-null tuples. */
  lemma ConfigureLinks(g: Graph, cfg: Config, classes: map<string, NodeClass>, d: GraphData, keepOld: bool)
    requires d.links.Some?
    ensures var r := ConfigureGraph(g, cfg, classes, Some(d), keepOld);
      r.Done? ==> (r.g.links == DecodeLinks(d.links.value) &&
        forall k :: k in r.g.links <==> exists i :: Carries(d.links.value, i, k))
  {
    forall k {
      DecodeLinksKeys(d.links.value, k);
    }
  }

  /** The ids of the stored infos, in order. */
  function Ids(infos: seq<NodeInfo>): (ids: seq<int>)
    ensures |ids| == |infos| && forall i :: 0 <= i < |infos| ==> ids[i] == infos[i].id
  {
    if infos == [] then [] else [infos[0].id] + Ids(infos[1..])
  }

  /** The ids from entry `i` on start with entry `i`'s. */
  lemma IdsFrom(infos: seq<NodeInfo>, i: nat)
    requires i < |infos|
    ensures Ids(infos[i..]) == [infos[i].id] + Ids(infos[i + 1..])
  {
    assert infos[i..][1..] == infos[i + 1..];
  }

  /** Listing entry `i`'s id and then the ids after it lists the ids from entry `i` on. */
  lemma IdsAppended(list: seq<int>, list1: seq<int>, infos: seq<NodeInfo>, i: nat)
    requires i < |infos| && list1 == list + [infos[i].id]
    ensures list + Ids(infos[i..]) == list1 + Ids(infos[i + 1..])
  {
    IdsFrom(infos, i);
    assert list + ([infos[i].id] + Ids(infos[i + 1..])) == (list + [infos[i].id]) + Ids(infos[i + 1..]);
  }

  /** No two infos share an id. */
  predicate DistinctIds(infos: seq<NodeInfo>)
  {
    forall i, j :: 0 <= i < j < |infos| ==> infos[i].id != infos[j].id
  }

  /** Every info from entry `i` on has an id that is not -1 and is not yet stored. */
  ghost predicate FreshFrom(g: Graph, infos: seq<NodeInfo>, i: nat)
  {
    forall j :: i <= j < |infos| ==> infos[j].id != -1 && infos[j].id !in g.nodes
  }

  /** Node `n` is what loading makes of `info`: flagged exactly when its class is unknown, keeping the info then. */
  ghost predicate LoadedAs(n: Node, classes: map<string, NodeClass>, info: NodeInfo)
  {
    n.id == info.id && (n.hasErrors <==> !Known(classes, info.ntype)) &&
    (!Known(classes, info.ntype) ==> n.lastSerialization == Some(info))
  }

  /** `add` keeps a node's own id when it is not -1 and not taken, whatever the counter. */
  lemma AddKeepsGivenId(g: Graph, cfg: Config, n: Node)
    requires n.id != -1 && n.id !in g.nodes && |g.nodeList| < cfg.maxNodes
    ensures var r := Add(g, cfg, n, true, false); r.Done? && r.value == n.id
  {
    var d := Deduped(g.lastNodeId, n.id in g.nodes, n.id);
    assert d.1 == n.id;
  }

  /** The preconditions of the creation-loop lemmas: room for every node, distinct and unused ids. */
  ghost predicate Loadable(g: Graph, cfg: Config, infos: seq<NodeInfo>, i: nat)
  {
    i <= |infos| && StoreOk(g) && FreshFrom(g, infos, i) && DistinctIds(infos) &&
    |g.nodeList| + |infos| - i <= cfg.maxNodes
  }

  /**
   * With room for every node and distinct, unused ids, the creation loop
   * does not throw and appends the ids in order.
   */
  lemma {:induction false} AddNodesStores(g: Graph, cfg: Config, classes: map<string, NodeClass>, infos: seq<NodeInfo>, i: nat, err: bool)
    requires Loadable(g, cfg, infos, i)
    ensures var r := AddNodes(g, cfg, classes, infos, i, err);
      r.Done? && StoreOk(r.g) && r.g.nodeList == g.nodeList + Ids(infos[i..])
    decreases |infos| - i
  {
    if i < |infos| {
      var err' := err || !Known(classes, infos[i].ntype);
      var g1 := AddStep(g, cfg, classes, infos, i, err);
      AddNodesStores(g1, cfg, classes, infos, i + 1, err');
      IdsAppended(g.nodeList, g1.nodeList, infos, i);
    }
  }

  /**
   * Under the same conditions, the nodes already stored are left alone and
   * each new one is stored under its own id, flagged exactly when its class
   * is unknown.
   */
  lemma {:induction false} AddNodesFlags(g: Graph, cfg: Config, classes: map<string, NodeClass>, infos: seq<NodeInfo>, i: nat, err: bool)
    requires Loadable(g, cfg, infos, i)
    ensures var r := AddNodes(g, cfg, classes, infos, i, err); Kept(g, r.g) && AllLoaded(r.g, classes, infos, i)
    decreases |infos| - i
  {
    if i < |infos| {
      var err' := err || !Known(classes, infos[i].ntype);
      var g1 := AddStep(g, cfg, classes, infos, i, err);
      AddNodesFlags(g1, cfg, classes, infos, i + 1, err');
      LoadedStep(g, g1, AddNodes(g1, cfg, classes, infos, i + 1, err').g, classes, infos, i);
    }
  }

  /** Every node of `g` is still in `g'`, unchanged. */
  ghost predicate Kept(g: Graph, g': Graph)
  {
    forall id :: id in g.nodes ==> id in g'.nodes && g'.nodes[id] == g.nodes[id]
  }

  /** Every node stored from entry `i` on is what loading makes of its info. */
  ghost predicate AllLoaded(g: Graph, classes: map<string, NodeClass>, infos: seq<NodeInfo>, i: nat)
  {
    forall j :: i <= j < |infos| ==> infos[j].id in g.nodes && LoadedAs(g.nodes[infos[j].id], classes, infos[j])
  }

  /** Entry `i` stored as loaded and kept, and the later ones loaded: all from `i` on are loaded. */
  lemma LoadedStep(g: Graph, g1: Graph, g2: Graph, classes: map<string, NodeClass>, infos: seq<NodeInfo>, i: nat)
    requires i < |infos| && infos[i].id in g1.nodes && LoadedAs(g1.nodes[infos[i].id], classes, infos[i])
    requires Kept(g, g1) && Kept(g1, g2) && AllLoaded(g2, classes, infos, i + 1)
    ensures Kept(g, g2) && AllLoaded(g2, classes, infos, i)
  {
  }

  /** Under the same conditions, the loop reports an error exactly when some class from entry `i` on is unknown. */
  lemma {:induction false} AddNodesError(g: Graph, cfg: Config, classes: map<string, NodeClass>, infos: seq<NodeInfo>, i: nat, err: bool)
    requires Loadable(g, cfg, infos, i)
    ensures var r := AddNodes(g, cfg, classes, infos, i, err);
      r.Done? && (r.value <==> err || exists j :: i <= j < |infos| && !Known(classes, infos[j].ntype))
    decreases |infos| - i
  {
    if i < |infos| {
      var err' := err || !Known(classes, infos[i].ntype);
      var g1 := AddStep(g, cfg, classes, infos, i, err);
      AddNodesError(g1, cfg, classes, infos, i + 1, err');
      if !AddNodes(g1, cfg, classes, infos, i + 1, err').value {
        assert !err' && forall j :: i + 1 <= j < |infos| ==> Known(classes, infos[j].ntype);
      } else if !err' {
        var j :| i <= j < |infos| && !Known(classes, infos[j].ntype);
      }
    }
  }

  /** One round of the creation loop: entry `i` is stored under its own id and the loop goes on from there. */
  lemma AddStep(g: Graph, cfg: Config, classes: map<string, NodeClass>, infos: seq<NodeInfo>, i: nat, err: bool) returns (g1: Graph)
    requires Loadable(g, cfg, infos, i) && i < |infos|
    ensures Loadable(g1, cfg, infos, i + 1) && g1.nodeList == g.nodeList + [infos[i].id] && Kept(g, g1)
    ensures infos[i].id in g1.nodes && LoadedAs(g1.nodes[infos[i].id], classes, infos[i])
    ensures AddNodes(g, cfg, classes, infos, i, err) == AddNodes(g1, cfg, classes, infos, i + 1, err || !Known(classes, infos[i].ntype))
  {
    var b := Built(classes, g.registry, cfg.autoLoadSlotTypes, infos[i]);
    g1 := Add(g.(registry := b.1), cfg, b.0, true, false).g;
    AddStored(g, cfg, b.0, b.1);
    StoredStep(g, g1, cfg, infos, i, b.0);
  }

  /** `add` stores a node with a fresh id of its own under that id, at the end of the list. */
  lemma AddStored(g: Graph, cfg: Config, n: Node, reg: SlotRegistry)
    requires n.id != -1 && n.id !in g.nodes && |g.nodeList| < cfg.maxNodes
    ensures var r := Add(g.(registry := reg), cfg, n, true, false);
      r.Done? && r.value == n.id && r.g.nodes == g.nodes[n.id := n] && r.g.nodeList == g.nodeList + [n.id]
  {
    AddKeepsGivenId(g.(registry := reg), cfg, n);
  }

  /** Storing entry `i`'s node under its own id keeps the creation loop's conditions for the entries after it. */
  lemma StoredStep(g: Graph, g1: Graph, cfg: Config, infos: seq<NodeInfo>, i: nat, n: Node)
    requires Loadable(g, cfg, infos, i) && i < |infos| && n.id == infos[i].id
    requires g1.nodes == g.nodes[n.id := n] && g1.nodeList == g.nodeList + [n.id]
    ensures Loadable(g1, cfg, infos, i + 1) && Kept(g, g1)
  {
    AddedKeepsStore(g, g1, n.id, n);
    FreshStep(g, g1, infos, i);
  }

  /** Storing a node under an unused id that is its own keeps the store consistent. */
  lemma AddedKeepsStore(g: Graph, g1: Graph, id: int, n: Node)
    requires StoreOk(g) && id !in g.nodes && n.id == id
    requires g1.nodes == g.nodes[id := n] && g1.nodeList == g.nodeList + [id]
    ensures StoreOk(g1)
  {
    assert id !in g.nodeList;
    NoDupAppend(g.nodeList, id);
  }

  /** Appending an element that is not yet in a duplicate-free sequence keeps it duplicate-free. */
  lemma NoDupAppend(s: seq<int>, x: int)
    requires NoDup(s) && x !in s
    ensures NoDup(s + [x])
  {
  }

  /** After storing entry `i`, the later entries are still fresh, the ids being distinct. */
  lemma FreshStep(g: Graph, g1: Graph, infos: seq<NodeInfo>, i: nat)
    requires i < |infos| && FreshFrom(g, infos, i) && DistinctIds(infos)
    requires g1.nodes.Keys == g.nodes.Keys + {infos[i].id}
    ensures FreshFrom(g1, infos, i + 1)
  {
  }

  /**
   * `h` holds exactly the nodes of `infos`, listed in the order given, each
   * under its own id; a node whose class is unknown or whose constructor
   * throws is a placeholder flagged `has_errors` that keeps its stored info,
   * and no other node is flagged.
   */
  ghost predicate HoldsExactly(h: Graph, classes: map<string, NodeClass>, infos: seq<NodeInfo>)
  {
    StoreOk(h) && h.nodeList == Ids(infos) && h.nodes.Keys == (set j | 0 <= j < |infos| :: infos[j].id) &&
    forall j :: 0 <= j < |infos| ==>
      (h.nodes[infos[j].id].hasErrors <==> !Known(classes, infos[j].ntype)) &&
      (!Known(classes, infos[j].ntype) ==> h.nodes[infos[j].id].lastSerialization == Some(infos[j]))
  }

  /**
   * Loading fresh data (no `keep_old`) whose nodes have distinct ids other
   * than -1 and fit under the node limit leaves exactly those nodes, and
   * the value reports whether any placeholder was needed.
   */
  lemma ConfigureFresh(g: Graph, cfg: Config, classes: map<string, NodeClass>, d: GraphData)
    requires d.nodes.Some? && DistinctIds(d.nodes.value) && |d.nodes.value| <= cfg.maxNodes
    requires forall j :: 0 <= j < |d.nodes.value| ==> d.nodes.value[j].id != -1
    ensures var infos := d.nodes.value; var r := ConfigureGraph(g, cfg, classes, Some(d), false);
      r.Done? && HoldsExactly(r.g, classes, infos) &&
      r.value == Some(exists j :: 0 <= j < |infos| && !Known(classes, infos[j].ntype))
  {
    var infos := d.nodes.value;
    var g1 := Loaded(Clear(g), d);
    CreatedFresh(g1, cfg, classes, infos);
    var r1 := AddNodes(g1, cfg, classes, infos, 0, false);
    ConfiguredFresh(r1.g, classes, infos);
    FinishedFresh(ConfigureNodes(r1.g, infos, 0), cfg, classes, infos, d.version);
  }

  /** The creation loop run on an empty store stores exactly the given nodes. */
  lemma CreatedFresh(g1: Graph, cfg: Config, classes: map<string, NodeClass>, infos: seq<NodeInfo>)
    requires g1.nodes == map[] && g1.nodeList == [] && DistinctIds(infos) && |infos| <= cfg.maxNodes
    requires forall j :: 0 <= j < |infos| ==> infos[j].id != -1
    ensures var r1 := AddNodes(g1, cfg, classes, infos, 0, false);
      r1.Done? && HoldsExactly(r1.g, classes, infos) &&
      (r1.value <==> exists j :: 0 <= j < |infos| && !Known(classes, infos[j].ntype))
  {
    EmptyLoadable(g1, cfg, infos);
    AddNodesStores(g1, cfg, classes, infos, 0, false);
    AddNodesFlags(g1, cfg, classes, infos, 0, false);
    AddNodesError(g1, cfg, classes, infos, 0, false);
    ExactlyLoaded(g1, AddNodes(g1, cfg, classes, infos, 0, false).g, classes, infos);
  }

  /** An empty store can take every node of a list that fits and has distinct ids other than -1. */
  lemma EmptyLoadable(g1: Graph, cfg: Config, infos: seq<NodeInfo>)
    requires g1.nodes == map[] && g1.nodeList == [] && DistinctIds(infos) && |infos| <= cfg.maxNodes
    requires forall j :: 0 <= j < |infos| ==> infos[j].id != -1
    ensures Loadable(g1, cfg, infos, 0)
  {
    forall j | 0 <= j < |infos|
      ensures infos[j].id != -1 && infos[j].id !in g1.nodes
    {
    }
  }

  /** What the creation loop guarantees from an empty store is what `HoldsExactly` demands. */
  lemma ExactlyLoaded(g1: Graph, h: Graph, classes: map<string, NodeClass>, infos: seq<NodeInfo>)
    requires g1.nodeList == [] && StoreOk(h) && h.nodeList == g1.nodeList + Ids(infos[0..])
    requires AllLoaded(h, classes, infos, 0)
    ensures HoldsExactly(h, classes, infos)
  {
    assert infos[0..] == infos;
    assert h.nodeList == Ids(infos);
    StoreKeys(h, Ids(infos));
    IdsKeys(infos);
    forall j | 0 <= j < |infos|
      ensures (h.nodes[infos[j].id].hasErrors <==> !Known(classes, infos[j].ntype)) &&
        (!Known(classes, infos[j].ntype) ==> h.nodes[infos[j].id].lastSerialization == Some(infos[j]))
    {
      assert LoadedAs(h.nodes[infos[j].id], classes, infos[j]);
    }
  }

  /** The ids listed are the ids of the entries. */
  lemma IdsKeys(infos: seq<NodeInfo>)
    ensures (set j | 0 <= j < |Ids(infos)| :: Ids(infos)[j]) == (set j | 0 <= j < |infos| :: infos[j].id)
  {
    var ids := Ids(infos);
    var keys := set j | 0 <= j < |infos| :: infos[j].id;
    forall x | x in keys
      ensures x in set j | 0 <= j < |ids| :: ids[j]
    {
      var j :| 0 <= j < |infos| && infos[j].id == x;
      assert ids[j] == x;
    }
  }

  /** Configuring the stored nodes changes none of what `HoldsExactly` speaks of. */
  lemma ConfiguredFresh(h: Graph, classes: map<string, NodeClass>, infos: seq<NodeInfo>)
    requires HoldsExactly(h, classes, infos)
    ensures HoldsExactly(ConfigureNodes(h, infos, 0), classes, infos)
  {
    var h2 := ConfigureNodes(h, infos, 0);
    ConfiguredKeepsStore(h, h2);
    SameFlags(h, h2, classes, infos);
  }

  /** Two stores with the same keys, list and flags agree on `HoldsExactly`. */
  lemma SameFlags(h: Graph, h2: Graph, classes: map<string, NodeClass>, infos: seq<NodeInfo>)
    requires HoldsExactly(h, classes, infos) && StoreOk(h2)
    requires h2.nodes.Keys == h.nodes.Keys && h2.nodeList == h.nodeList
    requires forall id :: id in h2.nodes ==>
      h2.nodes[id].hasErrors == h.nodes[id].hasErrors && h2.nodes[id].lastSerialization == h.nodes[id].lastSerialization
    ensures HoldsExactly(h2, classes, infos)
  {
  }

  /** Nor do rebuilding the execution order and announcing the change. */
  lemma FinishedFresh(h: Graph, cfg: Config, classes: map<string, NodeClass>, infos: seq<NodeInfo>, version: Option<int>)
    requires HoldsExactly(h, classes, infos)
    ensures HoldsExactly(Finish(h, cfg, version), classes, infos)
  {
  }

  /** A consistent store's keys are the ids listed. */
  lemma StoreKeys(g: Graph, ids: seq<int>)
    requires StoreOk(g) && g.nodeList == ids
    ensures g.nodes.Keys == set j | 0 <= j < |ids| :: ids[j]
  {
    forall id | id in g.nodes
      ensures id in set j | 0 <= j < |ids| :: ids[j]
    {
      var j :| 0 <= j < |ids| && ids[j] == id;
    }
    forall j | 0 <= j < |ids|
      ensures ids[j] in g.nodes
    {
      var id := ids[j];
      assert id in g.nodeList;
    }
  }

  /** The configure loop keeps the store consistent: it only rewrites nodes under their own ids. */
  lemma ConfiguredKeepsStore(g: Graph, g2: Graph)
    requires StoreOk(g)
    requires g2.nodes.Keys == g.nodes.Keys && g2.nodeList == g.nodeList
    requires forall id :: id in g2.nodes && g.nodes[id].id == id ==> g2.nodes[id].id == id
    ensures StoreOk(g2)
  {
  }

  /**
   * The version after loading fresh data that is fully stored: each `add`
   * announces a change, so the version is the stored `_version` (-1 after
   * `clear()` when none is stored) plus one per node, plus one more unless
   * the stored `_version` is truthy.
   */
  lemma ConfigureVersion(g: Graph, cfg: Config, classes: map<string, NodeClass>, d: GraphData)
    ensures var r := ConfigureGraph(g, cfg, classes, Some(d), false);
      r.Done? ==> (r.g.version == GetOr(d.version, -1) + |GetOr(d.nodes, [])| +
        (if d.version.Some? && d.version.value != 0 then 0 else 1))
  {
    var infos := GetOr(d.nodes, []);
    var g1 := Loaded(Clear(g), d);
    AddNodesVersion(g1, cfg, classes, infos, 0, false);
  }

  /** Each round of the creation loop that does not throw bumps the version once. */
  lemma {:induction false} AddNodesVersion(g: Graph, cfg: Config, classes: map<string, NodeClass>, infos: seq<NodeInfo>, i: nat, err: bool)
    requires i <= |infos|
    ensures var r := AddNodes(g, cfg, classes, infos, i, err); r.Done? ==> r.g.version == g.version + |infos| - i
    decreases |infos| - i
  {
    if i < |infos| {
      var b := Built(classes, g.registry, cfg.autoLoadSlotTypes, infos[i]);
      var g0 := g.(registry := b.1);
      AddBumpsVersion(g0, cfg, b.0);
      var r := Add(g0, cfg, b.0, true, false);
      if r.Done? {
        AddNodesVersion(r.g, cfg, classes, infos, i + 1, err || !Known(classes, infos[i].ntype));
      }
    }
  }

  /** `add` announces the new node: the version goes up by one. */
  lemma AddBumpsVersion(g: Graph, cfg: Config, n: Node)
    ensures var r := Add(g, cfg, n, true, false); r.Done? ==> r.g.version == g.version + 1
  {
  }

  /**
   * With `keep_old` and no stored nodes, the nodes already in the graph
   * stay reachable by id but are dropped from the node list.
   */
  lemma ConfigureKeepOld(g: Graph, cfg: Config, classes: map<string, NodeClass>, d: GraphData)
    requires d.nodes.None?
    ensures var r := ConfigureGraph(g, cfg, classes, Some(d), true);
      r.Done? && r.g.nodes.Keys == g.nodes.Keys && r.g.nodeList == [] && r.value == Some(false)
  {
  }
}
