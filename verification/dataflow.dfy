/**
 * The data path: `setOutputData` writes a value into an output and into
 * every link on its list, and `getInputData` (without `force_update`) reads
 * a link's value at its target input. On a well-formed graph the value
 * written at an output is what each of its targets reads, and no other
 * input reads anything new.
 */
module Dataflow {
  import opened Base
  import opened Link
  import opened Nodes
  import opened Graphs
  import opened Connections

  /** What `setOutputData` leaves alone in the node store: every node but `id`, and `id` except its output data. */
  lemma SetOutputDataNodes(g: Graph, id: int, slot: SlotRef, data: JsVal)
    requires id in g.nodes
    ensures var g' := SetOutputData(g, id, slot, data);
      g'.nodeList == g.nodeList && g'.nodes.Keys == g.nodes.Keys && g'.lastLinkId == g.lastLinkId &&
      (forall x :: x in g.nodes && x != id ==> g'.nodes[x] == g.nodes[x]) &&
      g'.nodes[id] == g.nodes[id].(outputs := g'.nodes[id].outputs) &&
      |g'.nodes[id].outputs| == |g.nodes[id].outputs| &&
      (forall i :: 0 <= i < |g.nodes[id].outputs| ==> g'.nodes[id].outputs[i].links == g.nodes[id].outputs[i].links)
  {
  }

  /** `setOutputData` changes only the data of links, and only of those on the written output's list. */
  lemma SetOutputDataLinks(g: Graph, id: int, slot: SlotRef, data: JsVal)
    requires id in g.nodes
    ensures var g' := SetOutputData(g, id, slot, data); var s := OutputIndex(g.nodes[id], slot);
      g'.links.Keys == g.links.Keys &&
      forall k :: k in g.links ==>
        g'.links[k] ==
          if 0 <= s < |g.nodes[id].outputs| && g.nodes[id].outputs[s].links.Some? && k in g.nodes[id].outputs[s].links.value
          then g.links[k].(data := data) else g.links[k]
  {
    var n := g.nodes[id];
    var s := OutputIndex(n, slot);
    var g' := SetOutputData(g, id, slot, data);
    if 0 <= s < |n.outputs| && n.outputs[s].links.Some? {
      assert g'.links == SetLinkData(g.links, n.outputs[s].links.value, data);
    } else {
      assert g'.links == g.links;
    }
  }

  /** `g'` differs from `g` at most in the data of node `id`'s outputs and of the links. */
  ghost predicate DataOnly(g: Graph, g': Graph, id: int)
  {
    id in g.nodes && g' == g.(nodes := g'.nodes, links := g'.links) &&
    g'.nodes.Keys == g.nodes.Keys && g'.links.Keys == g.links.Keys &&
    (forall x :: x in g.nodes && x != id ==> g'.nodes[x] == g.nodes[x]) &&
    g'.nodes[id] == g.nodes[id].(outputs := g'.nodes[id].outputs) &&
    |g'.nodes[id].outputs| == |g.nodes[id].outputs| &&
    (forall i :: 0 <= i < |g.nodes[id].outputs| ==> g'.nodes[id].outputs[i].links == g.nodes[id].outputs[i].links) &&
    (forall k :: k in g.links ==> SameEnds(g.links[k], g'.links[k]))
  }

  /** Two versions of a link that may differ only in their data. */
  predicate SameEnds(l: LLink, l': LLink)
  {
    l' == l.(data := l'.data)
  }

  /** Changing data moves no link, so a well-formed graph stays well-formed. */
  lemma DataOnlyKeepsWF(g: Graph, g': Graph, id: int)
    requires WF(g) && DataOnly(g, g', id)
    ensures WF(g')
  {
    assert SameStore(g, g');
    SameStoreOk(g, g');
    forall k | k in g'.links ensures LinkRegistered(g', k) && k <= g'.lastLinkId {
      DataOnlyKeepsRegistered(g, g', id, k);
    }
    forall x, i | x in g'.nodes && 0 <= i < |g'.nodes[x].inputs| ensures InputBacked(g', x, i) {
      DataOnlyKeepsInput(g, g', id, x, i);
    }
    forall x, i | x in g'.nodes && 0 <= i < |g'.nodes[x].outputs| ensures OutputBacked(g', x, i) {
      DataOnlyKeepsOutput(g, g', id, x, i);
    }
  }

  lemma DataOnlyKeepsRegistered(g: Graph, g': Graph, id: int, k: int)
    requires WF(g) && DataOnly(g, g', id) && k in g'.links
    ensures LinkRegistered(g', k) && k <= g'.lastLinkId
  {
    assert LinkRegistered(g, k);
    assert SameEnds(g.links[k], g'.links[k]);
  }

  lemma DataOnlyKeepsInput(g: Graph, g': Graph, id: int, x: int, i: int)
    requires WF(g) && DataOnly(g, g', id) && x in g'.nodes && 0 <= i < |g'.nodes[x].inputs|
    ensures InputBacked(g', x, i)
  {
    assert g'.nodes[x].inputs == g.nodes[x].inputs;
    assert InputBacked(g, x, i);
    var link := g.nodes[x].inputs[i].link;
    if link.Some? {
      var k := link.value;
      assert k in g.links;
      assert SameEnds(g.links[k], g'.links[k]);
    }
  }

  lemma DataOnlyKeepsOutput(g: Graph, g': Graph, id: int, x: int, i: int)
    requires WF(g) && DataOnly(g, g', id) && x in g'.nodes && 0 <= i < |g'.nodes[x].outputs|
    ensures OutputBacked(g', x, i)
  {
    assert g'.nodes[x].outputs[i].links == g.nodes[x].outputs[i].links;
    assert OutputBacked(g, x, i);
  }

  /** `setOutputData` keeps a graph well-formed: it moves no link. */
  lemma SetOutputDataKeepsWF(g: Graph, id: int, slot: SlotRef, data: JsVal)
    requires WF(g) && id in g.nodes
    ensures WF(SetOutputData(g, id, slot, data))
  {
    SetOutputDataNodes(g, id, slot, data);
    SetOutputDataLinks(g, id, slot, data);
    DataOnlyKeepsWF(g, SetOutputData(g, id, slot, data), id);
  }

  /**
   * On a well-formed graph, after `setOutputData(s, data)` every target of
   * a link on output `s`'s list reads `data` with `getInputData`.
   */
  lemma DataReachesTarget(g: Graph, id: int, s: int, data: JsVal, k: int)
    requires WF(g) && id in g.nodes && 0 <= s < |g.nodes[id].outputs|
    requires g.nodes[id].outputs[s].links.Some? && k in g.nodes[id].outputs[s].links.value
    ensures k in g.links && g.links[k].targetId in g.nodes
    ensures var l := g.links[k];
      GetInputData(SetOutputData(g, id, At(s), data), l.targetId, l.targetSlot) == Ok(data)
  {
    assert OutputBacked(g, id, s);
    assert LinkRegistered(g, k);
    SetOutputDataNodes(g, id, At(s), data);
    SetOutputDataLinks(g, id, At(s), data);
  }

  /**
   * On a well-formed graph `setOutputData` changes what an input reads only
   * when the input's link is on the written output's list; every other
   * input reads what it read before.
   */
  lemma SetOutputDataFrame(g: Graph, id: int, slot: SlotRef, data: JsVal, x: int, i: int)
    requires WF(g) && id in g.nodes && x in g.nodes
    requires 0 <= i < |g.nodes[x].inputs|
    requires var s := OutputIndex(g.nodes[id], slot); var link := g.nodes[x].inputs[i].link;
      !(link.Some? && 0 <= s < |g.nodes[id].outputs| && g.nodes[id].outputs[s].links.Some? &&
        link.value in g.nodes[id].outputs[s].links.value)
    ensures GetInputData(SetOutputData(g, id, slot, data), x, i) == GetInputData(g, x, i)
  {
    SetOutputDataNodes(g, id, slot, data);
    SetOutputDataLinks(g, id, slot, data);
  }

  /**
   * `getInputNode(slot)` on a well-formed graph finds a node exactly when the
   * input exists and is plugged, and the node it finds is the origin of the
   * link plugged in.
   */
  lemma InputNodeIsOrigin(g: Graph, id: int, slot: int)
    requires WF(g) && id in g.nodes
    ensures var r := GetInputNode(g, id, slot); var ins := g.nodes[id].inputs;
      (r.Some? <==> 0 <= slot < |ins| && ins[slot].link.Some?) &&
      (r.Some? ==> ins[slot].link.value in g.links && r == Some(g.nodes[g.links[ins[slot].link.value].originId]))
  {
    var ins := g.nodes[id].inputs;
    if 0 <= slot < |ins| && ins[slot].link.Some? {
      assert InputBacked(g, id, slot);
      assert LinkRegistered(g, ins[slot].link.value);
    }
  }

  /**
   * `getInputData` on a well-formed graph: an existing input reads the data
   * of the link plugged into it, or `undefined` when unplugged; it never
   * reads the `null` of a missing link.
   */
  lemma InputDataIsLinkData(g: Graph, id: int, slot: int)
    requires WF(g) && id in g.nodes && 0 <= slot < |g.nodes[id].inputs|
    ensures var link := g.nodes[id].inputs[slot].link;
      link.Some? ==> link.value in g.links
    ensures var link := g.nodes[id].inputs[slot].link;
      GetInputData(g, id, slot) == if link.Some? then Ok(g.links[link.value].data) else Ok(Undef)
  {
    assert InputBacked(g, id, slot);
  }
}
