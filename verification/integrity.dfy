/**
 * The three places that record a link — `graph.links`, the origin output's
 * `links` list and the target input's `link` — stay in agreement across the
 * connection protocol: every disconnect takes a set of links out of all
 * three places at once, and `connect` puts one link into all three.
 */
module Integrity {
  import opened Base
  import opened SlotTypes
  import opened Link
  import opened Nodes
  import opened Graphs
  import opened Connections

  // ---------------------------------------------------------------------------
  // Taking links out
  // ---------------------------------------------------------------------------

  /** An input's `link` once the links in `R` are gone. */
  function Cleared(link: Option<int>, R: set<int>): Option<int>
  {
    if link.Some? && link.value in R then None else link
  }

  /**
   * An output's `links` once the links in `R` are gone: a null list stays
   * null, and a list either becomes null because all of it went, or keeps
   * exactly the ids not in `R`, still without repetitions.
   */
  ghost predicate ListShrunk(a: Option<seq<int>>, b: Option<seq<int>>, R: set<int>)
  {
    match a
    case None => b.None?
    case Some(ks) =>
      match b
      case None => forall k :: k in ks ==> k in R
      case Some(ks') => (NoDup(ks) ==> NoDup(ks')) && forall k :: k in ks' <==> k in ks && k !in R
  }

  /**
   * `g'` is `g` with the links in `R` taken out of all three places; nothing
   * else about the nodes or the links changes.
   */
  ghost predicate Removed(g: Graph, g': Graph, R: set<int>)
  {
    SameShape(g, g') && g'.lastLinkId == g.lastLinkId && g'.links == g.links - R &&
    (forall id :: id in g.nodes ==> OnlyLinksDiffer(g.nodes[id], g'.nodes[id])) &&
    (forall id, i :: id in g.nodes && 0 <= i < |g.nodes[id].inputs| ==>
       g'.nodes[id].inputs[i].link == Cleared(g.nodes[id].inputs[i].link, R)) &&
    (forall id, i :: id in g.nodes && 0 <= i < |g.nodes[id].outputs| ==>
       ListShrunk(g.nodes[id].outputs[i].links, g'.nodes[id].outputs[i].links, R))
  }

  /** Taking a set of links out of all three places keeps them in agreement. */
  lemma RemovedKeepsWF(g: Graph, g': Graph, R: set<int>)
    requires WF(g) && Removed(g, g', R)
    ensures WF(g')
  {
    SameStoreOk(g, g');
    forall k | k in g'.links
      ensures LinkRegistered(g', k) && k <= g'.lastLinkId
    {
      RemovedKeepsRegistered(g, g', R, k);
    }
    forall id, i | id in g'.nodes && 0 <= i < |g'.nodes[id].inputs|
      ensures InputBacked(g', id, i)
    {
      RemovedKeepsInput(g, g', R, id, i);
    }
    forall id, i | id in g'.nodes && 0 <= i < |g'.nodes[id].outputs|
      ensures OutputBacked(g', id, i)
    {
      RemovedKeepsOutput(g, g', R, id, i);
    }
  }

  lemma RemovedKeepsRegistered(g: Graph, g': Graph, R: set<int>, k: int)
    requires WF(g) && Removed(g, g', R) && k in g'.links
    ensures LinkRegistered(g', k) && k <= g'.lastLinkId
  {
    assert k in g.links && k !in R && g'.links[k] == g.links[k];
    assert LinkRegistered(g, k);
    var l := g.links[k];
    var a := g.nodes[l.originId].outputs[l.originSlot].links;
    assert ListShrunk(a, g'.nodes[l.originId].outputs[l.originSlot].links, R);
    assert g'.nodes[l.targetId].inputs[l.targetSlot].link == Cleared(g.nodes[l.targetId].inputs[l.targetSlot].link, R);
  }

  lemma RemovedKeepsInput(g: Graph, g': Graph, R: set<int>, id: int, i: int)
    requires WF(g) && Removed(g, g', R) && id in g'.nodes && 0 <= i < |g'.nodes[id].inputs|
    ensures InputBacked(g', id, i)
  {
    assert InputBacked(g, id, i);
    assert g'.nodes[id].inputs[i].link == Cleared(g.nodes[id].inputs[i].link, R);
  }

  lemma RemovedKeepsOutput(g: Graph, g': Graph, R: set<int>, id: int, i: int)
    requires WF(g) && Removed(g, g', R) && id in g'.nodes && 0 <= i < |g'.nodes[id].outputs|
    ensures OutputBacked(g', id, i)
  {
    assert OutputBacked(g, id, i);
    assert ListShrunk(g.nodes[id].outputs[i].links, g'.nodes[id].outputs[i].links, R);
  }

  /** Two removals in a row remove the union. */
  lemma RemovedTrans(a: Graph, b: Graph, c: Graph, R1: set<int>, R2: set<int>)
    requires Removed(a, b, R1) && Removed(b, c, R2)
    ensures Removed(a, c, R1 + R2)
  {
    SameShapeTrans(a, b, c);
    forall x | x in a.nodes ensures OnlyLinksDiffer(a.nodes[x], c.nodes[x]) {
      OnlyLinksDifferTrans(a.nodes[x], b.nodes[x], c.nodes[x]);
    }
    forall x, i | x in a.nodes && 0 <= i < |a.nodes[x].outputs|
      ensures ListShrunk(a.nodes[x].outputs[i].links, c.nodes[x].outputs[i].links, R1 + R2)
    {
      ListShrunkTrans(a.nodes[x].outputs[i].links, b.nodes[x].outputs[i].links, c.nodes[x].outputs[i].links, R1, R2);
    }
    forall x, i | x in a.nodes && 0 <= i < |a.nodes[x].inputs|
      ensures c.nodes[x].inputs[i].link == Cleared(a.nodes[x].inputs[i].link, R1 + R2)
    {
      assert b.nodes[x].inputs[i].link == Cleared(a.nodes[x].inputs[i].link, R1);
    }
    MinusUnion(a.links, R1, R2);
  }

  lemma ListShrunkTrans(a: Option<seq<int>>, b: Option<seq<int>>, c: Option<seq<int>>, R1: set<int>, R2: set<int>)
    requires ListShrunk(a, b, R1) && ListShrunk(b, c, R2)
    ensures ListShrunk(a, c, R1 + R2)
  {
  }

  lemma MinusUnion<V>(m: map<int, V>, R1: set<int>, R2: set<int>)
    ensures (m - R1) - R2 == m - (R1 + R2)
  {
  }

  /** Bookkeeping that leaves the nodes and the links alone keeps a removal a removal. */
  lemma RemovedFrame(a: Graph, b: Graph, c: Graph, R: set<int>)
    requires Removed(a, b, R)
    requires c.nodes == b.nodes && c.nodeList == b.nodeList && c.links == b.links && c.lastLinkId == b.lastLinkId
    ensures Removed(a, c, R)
  {
  }

  /** Removing nothing. */
  lemma RemovedNothing(g: Graph, g': Graph)
    requires g'.nodes == g.nodes && g'.nodeList == g.nodeList && g'.links == g.links && g'.lastLinkId == g.lastLinkId
    ensures Removed(g, g', {})
  {
    NodesKept(g, g');
    assert g.links - {} == g.links;
    forall id, i | id in g.nodes && 0 <= i < |g.nodes[id].outputs|
      ensures ListShrunk(g.nodes[id].outputs[i].links, g'.nodes[id].outputs[i].links, {})
    {
    }
  }

  /** The links an input holds: none, or the one in its `link`. */
  function Held(link: Option<int>): set<int>
  {
    if link.Some? then {link.value} else {}
  }

  /** `SetInputLink` changes that one input's `link` and nothing else about the slots. */
  lemma SetInputLinkEffect(g: Graph, id: int, s: int, v: Option<int>, x: int)
    requires id in g.nodes && 0 <= s < |g.nodes[id].inputs| && x in g.nodes
    ensures var g' := SetInputLink(g, id, s, v);
      g'.links == g.links && g'.lastLinkId == g.lastLinkId && g'.nodeList == g.nodeList &&
      g'.nodes[x].outputs == g.nodes[x].outputs && OnlyLinksDiffer(g.nodes[x], g'.nodes[x]) &&
      forall i :: 0 <= i < |g.nodes[x].inputs| ==>
        g'.nodes[x].inputs[i].link == if x == id && i == s then v else g.nodes[x].inputs[i].link
  {
  }

  /** `SetOutputLinks` changes that one output's `links` and nothing else about the slots. */
  lemma SetOutputLinksEffect(g: Graph, id: int, s: int, v: Option<seq<int>>, x: int)
    requires id in g.nodes && 0 <= s < |g.nodes[id].outputs| && x in g.nodes
    ensures var g' := SetOutputLinks(g, id, s, v);
      g'.links == g.links && g'.lastLinkId == g.lastLinkId && g'.nodeList == g.nodeList &&
      g'.nodes[x].inputs == g.nodes[x].inputs && OnlyLinksDiffer(g.nodes[x], g'.nodes[x]) &&
      forall i :: 0 <= i < |g.nodes[x].outputs| ==>
        g'.nodes[x].outputs[i].links == if x == id && i == s then v else g.nodes[x].outputs[i].links
  {
  }

  /** An input write then an output write change node `x` at most in its links. */
  lemma TwoWritesFrame(g: Graph, t: int, ts: int, v: Option<int>, o: int, os: int, w: Option<seq<int>>, x: int)
    requires t in g.nodes && 0 <= ts < |g.nodes[t].inputs| && o in g.nodes && 0 <= os < |g.nodes[o].outputs| && x in g.nodes
    ensures var g1 := SetInputLink(g, t, ts, v);
      o in g1.nodes && 0 <= os < |g1.nodes[o].outputs| &&
      OnlyLinksDiffer(g.nodes[x], SetOutputLinks(g1, o, os, w).nodes[x])
  {
    var g1 := SetInputLink(g, t, ts, v);
    SetInputLinkEffect(g, t, ts, v, x);
    SetOutputLinksEffect(g1, o, os, w, x);
    OnlyLinksDifferTrans(g.nodes[x], g1.nodes[x], SetOutputLinks(g1, o, os, w).nodes[x]);
  }

  /** An output write then an input write change node `x` at most in its links. */
  lemma TwoWritesFrame'(g: Graph, o: int, os: int, w: Option<seq<int>>, t: int, ts: int, v: Option<int>, x: int)
    requires t in g.nodes && 0 <= ts < |g.nodes[t].inputs| && o in g.nodes && 0 <= os < |g.nodes[o].outputs| && x in g.nodes
    ensures var g1 := SetOutputLinks(g, o, os, w);
      t in g1.nodes && 0 <= ts < |g1.nodes[t].inputs| &&
      OnlyLinksDiffer(g.nodes[x], SetInputLink(g1, t, ts, v).nodes[x])
  {
    var g1 := SetOutputLinks(g, o, os, w);
    SetOutputLinksEffect(g, o, os, w, x);
    SetInputLinkEffect(g1, t, ts, v, x);
    OnlyLinksDifferTrans(g.nodes[x], g1.nodes[x], SetInputLink(g1, t, ts, v).nodes[x]);
  }

  /** An input write on `g`, which differs from `g0` only in links, keeps node `x` so. */
  lemma InputWriteFrame(g0: Graph, g: Graph, t: int, ts: int, v: Option<int>, x: int)
    requires t in g.nodes && 0 <= ts < |g.nodes[t].inputs| && x in g0.nodes && x in g.nodes
    requires OnlyLinksDiffer(g0.nodes[x], g.nodes[x])
    ensures OnlyLinksDiffer(g0.nodes[x], SetInputLink(g, t, ts, v).nodes[x])
  {
    SetInputLinkEffect(g, t, ts, v, x);
    OnlyLinksDifferTrans(g0.nodes[x], g.nodes[x], SetInputLink(g, t, ts, v).nodes[x]);
  }

  /** An output write on `g`, which differs from `g0` only in links, keeps node `x` so. */
  lemma OutputWriteFrame(g0: Graph, g: Graph, o: int, os: int, w: Option<seq<int>>, x: int)
    requires o in g.nodes && 0 <= os < |g.nodes[o].outputs| && x in g0.nodes && x in g.nodes
    requires OnlyLinksDiffer(g0.nodes[x], g.nodes[x])
    ensures OnlyLinksDiffer(g0.nodes[x], SetOutputLinks(g, o, os, w).nodes[x])
  {
    SetOutputLinksEffect(g, o, os, w, x);
    OnlyLinksDifferTrans(g0.nodes[x], g.nodes[x], SetOutputLinks(g, o, os, w).nodes[x]);
  }

  /**
   * Clearing the input that holds link `k`, splicing `k` out of its origin
   * list and deleting it removes exactly `k`.
   */
  lemma UnplugOne(g: Graph, id: int, s: int)
    requires WF(g) && id in g.nodes && 0 <= s < |g.nodes[id].inputs| && g.nodes[id].inputs[s].link.Some?
    ensures var k := g.nodes[id].inputs[s].link.value;
      k in g.links &&
      var l := g.links[k];
      l.originId in g.nodes && 0 <= l.originSlot < |g.nodes[l.originId].outputs| &&
      g.nodes[l.originId].outputs[l.originSlot].links.Some? &&
      k in g.nodes[l.originId].outputs[l.originSlot].links.value &&
      var g1 := SetInputLink(g, id, s, None);
      var ks := g.nodes[l.originId].outputs[l.originSlot].links.value;
      var h := SetOutputLinks(g1, l.originId, l.originSlot, Some(RemoveFirst(ks, k)));
      Removed(g, h.(links := h.links - {k}), {k})
  {
    var k := g.nodes[id].inputs[s].link.value;
    assert InputBacked(g, id, s);
    assert LinkRegistered(g, k);
    var l := g.links[k];
    var o, os := l.originId, l.originSlot;
    var g1 := SetInputLink(g, id, s, None);
    var ks := g.nodes[o].outputs[os].links.value;
    assert OutputBacked(g, o, os);
    var h := SetOutputLinks(g1, o, os, Some(RemoveFirst(ks, k)));
    SameShapeTrans(g, g1, h);
    UnplugOneFrame(g, id, s);
    UnplugOneInputs(g, id, s);
    UnplugOneOutputs(g, id, s);
  }

  lemma UnplugOneFrame(g: Graph, id: int, s: int)
    requires WF(g) && id in g.nodes && 0 <= s < |g.nodes[id].inputs| && g.nodes[id].inputs[s].link.Some?
    ensures var k := g.nodes[id].inputs[s].link.value;
      k in g.links &&
      var l := g.links[k];
      l.originId in g.nodes && 0 <= l.originSlot < |g.nodes[l.originId].outputs| &&
      g.nodes[l.originId].outputs[l.originSlot].links.Some? &&
      var g1 := SetInputLink(g, id, s, None);
      var ks := g.nodes[l.originId].outputs[l.originSlot].links.value;
      var h := SetOutputLinks(g1, l.originId, l.originSlot, Some(RemoveFirst(ks, k)));
      forall x :: x in g.nodes ==> OnlyLinksDiffer(g.nodes[x], h.nodes[x])
  {
    var k := g.nodes[id].inputs[s].link.value;
    assert InputBacked(g, id, s);
    assert LinkRegistered(g, k);
    var l := g.links[k];
    var o, os := l.originId, l.originSlot;
    var g1 := SetInputLink(g, id, s, None);
    var ks := g.nodes[o].outputs[os].links.value;
    assert OutputBacked(g, o, os);
    forall x | x in g.nodes ensures OnlyLinksDiffer(g.nodes[x], SetOutputLinks(g1, o, os, Some(RemoveFirst(ks, k))).nodes[x]) {
      TwoWritesFrame(g, id, s, None, o, os, Some(RemoveFirst(ks, k)), x);
    }
  }

  lemma UnplugOneInputs(g: Graph, id: int, s: int)
    requires WF(g) && id in g.nodes && 0 <= s < |g.nodes[id].inputs| && g.nodes[id].inputs[s].link.Some?
    ensures var k := g.nodes[id].inputs[s].link.value;
      k in g.links &&
      var l := g.links[k];
      l.originId in g.nodes && 0 <= l.originSlot < |g.nodes[l.originId].outputs| &&
      g.nodes[l.originId].outputs[l.originSlot].links.Some? &&
      var g1 := SetInputLink(g, id, s, None);
      var ks := g.nodes[l.originId].outputs[l.originSlot].links.value;
      var h := SetOutputLinks(g1, l.originId, l.originSlot, Some(RemoveFirst(ks, k)));
      forall x, i :: x in g.nodes && 0 <= i < |g.nodes[x].inputs| ==>
        h.nodes[x].inputs[i].link == Cleared(g.nodes[x].inputs[i].link, {k})
  {
    var k := g.nodes[id].inputs[s].link.value;
    assert InputBacked(g, id, s);
    assert LinkRegistered(g, k);
    var l := g.links[k];
    var o, os := l.originId, l.originSlot;
    var g1 := SetInputLink(g, id, s, None);
    var ks := g.nodes[o].outputs[os].links.value;
    assert OutputBacked(g, o, os);
    forall x, i | x in g.nodes && 0 <= i < |g.nodes[x].inputs| {
      UnplugOneInput(g, id, s, x, i);
    }
  }

  lemma UnplugOneOutputs(g: Graph, id: int, s: int)
    requires WF(g) && id in g.nodes && 0 <= s < |g.nodes[id].inputs| && g.nodes[id].inputs[s].link.Some?
    ensures var k := g.nodes[id].inputs[s].link.value;
      k in g.links &&
      var l := g.links[k];
      l.originId in g.nodes && 0 <= l.originSlot < |g.nodes[l.originId].outputs| &&
      g.nodes[l.originId].outputs[l.originSlot].links.Some? &&
      var g1 := SetInputLink(g, id, s, None);
      var ks := g.nodes[l.originId].outputs[l.originSlot].links.value;
      var h := SetOutputLinks(g1, l.originId, l.originSlot, Some(RemoveFirst(ks, k)));
      forall x, i :: x in g.nodes && 0 <= i < |g.nodes[x].outputs| ==>
        ListShrunk(g.nodes[x].outputs[i].links, h.nodes[x].outputs[i].links, {k})
  {
    var k := g.nodes[id].inputs[s].link.value;
    assert InputBacked(g, id, s);
    assert LinkRegistered(g, k);
    var l := g.links[k];
    var o, os := l.originId, l.originSlot;
    var g1 := SetInputLink(g, id, s, None);
    var ks := g.nodes[o].outputs[os].links.value;
    assert OutputBacked(g, o, os);
    forall x, i | x in g.nodes && 0 <= i < |g.nodes[x].outputs| {
      UnplugOneOutput(g, id, s, x, i);
    }
  }

  lemma UnplugOneInput(g: Graph, id: int, s: int, x: int, i: int)
    requires WF(g) && id in g.nodes && 0 <= s < |g.nodes[id].inputs| && g.nodes[id].inputs[s].link.Some?
    requires x in g.nodes && 0 <= i < |g.nodes[x].inputs|
    ensures var k := g.nodes[id].inputs[s].link.value;
      k in g.links &&
      var l := g.links[k];
      l.originId in g.nodes && 0 <= l.originSlot < |g.nodes[l.originId].outputs| &&
      g.nodes[l.originId].outputs[l.originSlot].links.Some? &&
      var g1 := SetInputLink(g, id, s, None);
      var ks := g.nodes[l.originId].outputs[l.originSlot].links.value;
      var h := SetOutputLinks(g1, l.originId, l.originSlot, Some(RemoveFirst(ks, k)));
      h.nodes[x].inputs[i].link == Cleared(g.nodes[x].inputs[i].link, {k})
  {
    var k := g.nodes[id].inputs[s].link.value;
    assert InputBacked(g, id, s);
    assert LinkRegistered(g, k);
    var l := g.links[k];
    var o, os := l.originId, l.originSlot;
    var g1 := SetInputLink(g, id, s, None);
    var ks := g.nodes[o].outputs[os].links.value;
    assert OutputBacked(g, o, os);
    SetInputLinkEffect(g, id, s, None, x);
    SetOutputLinksEffect(g1, o, os, Some(RemoveFirst(ks, k)), x);
    assert InputBacked(g, x, i);
  }

  lemma UnplugOneOutput(g: Graph, id: int, s: int, x: int, i: int)
    requires WF(g) && id in g.nodes && 0 <= s < |g.nodes[id].inputs| && g.nodes[id].inputs[s].link.Some?
    requires x in g.nodes && 0 <= i < |g.nodes[x].outputs|
    ensures var k := g.nodes[id].inputs[s].link.value;
      k in g.links &&
      var l := g.links[k];
      l.originId in g.nodes && 0 <= l.originSlot < |g.nodes[l.originId].outputs| &&
      g.nodes[l.originId].outputs[l.originSlot].links.Some? &&
      var g1 := SetInputLink(g, id, s, None);
      var ks := g.nodes[l.originId].outputs[l.originSlot].links.value;
      var h := SetOutputLinks(g1, l.originId, l.originSlot, Some(RemoveFirst(ks, k)));
      ListShrunk(g.nodes[x].outputs[i].links, h.nodes[x].outputs[i].links, {k})
  {
    var k := g.nodes[id].inputs[s].link.value;
    assert InputBacked(g, id, s);
    assert LinkRegistered(g, k);
    var l := g.links[k];
    var o, os := l.originId, l.originSlot;
    var g1 := SetInputLink(g, id, s, None);
    var ks := g.nodes[o].outputs[os].links.value;
    assert OutputBacked(g, o, os);
    RemoveFirstNoDup(ks, k);
    SetInputLinkEffect(g, id, s, None, x);
    SetOutputLinksEffect(g1, o, os, Some(RemoveFirst(ks, k)), x);
    assert OutputBacked(g, x, i);
  }

  /**
   * On a well-formed graph, `disconnectInput` on a valid slot succeeds and
   * takes the link it held, if any, out of all three places.
   */
  lemma DisconnectInputRemoves(g: Graph, cfg: Config, id: int, slot: SlotRef, doProcessChange: bool)
    requires WF(g) && id in g.nodes
    ensures var s := InputIndex(g.nodes[id], slot);
      var r := DisconnectInput(g, cfg, id, slot, doProcessChange);
      0 <= s < |g.nodes[id].inputs| ==> r.1 && Removed(g, r.0, Held(g.nodes[id].inputs[s].link))
  {
    var s := InputIndex(g.nodes[id], slot);
    var r := DisconnectInput(g, cfg, id, slot, doProcessChange);
    if 0 <= s < |g.nodes[id].inputs| {
      match g.nodes[id].inputs[s].link
      case None =>
        RemovedNothing(g, r.0);
      case Some(k) =>
        DisconnectLinkedInput(g, cfg, id, slot, s, doProcessChange);
    }
  }

  lemma DisconnectLinkedInput(g: Graph, cfg: Config, id: int, slot: SlotRef, s: int, doProcessChange: bool)
    requires WF(g) && id in g.nodes && s == InputIndex(g.nodes[id], slot)
    requires 0 <= s < |g.nodes[id].inputs| && g.nodes[id].inputs[s].link.Some?
    ensures var r := DisconnectInput(g, cfg, id, slot, doProcessChange);
      r.1 && Removed(g, r.0, {g.nodes[id].inputs[s].link.value})
  {
    var k := g.nodes[id].inputs[s].link.value;
    UnplugOne(g, id, s);
    var l := g.links[k];
    var g1 := SetInputLink(g, id, s, None);
    var ks := g.nodes[l.originId].outputs[l.originSlot].links.value;
    var h := SetOutputLinks(g1, l.originId, l.originSlot, Some(RemoveFirst(ks, k)));
    var hl := h.(links := h.links - {k});
    SetInputLinkEffect(g, id, s, None, l.originId);
    DisconnectInputUnfold(g, cfg, id, slot, s, doProcessChange);
    UnlistUnfold(g1, cfg, k, doProcessChange);
    var h2 := OnGraphChanged(hl, cfg, "disconnectInput", doProcessChange);
    RemovedFrame(g, hl, h2, {k});
    RemovedFrame(g, h2, DisconnectInput(g, cfg, id, slot, doProcessChange).0, {k});
  }

  /** The path `disconnectInput` takes when the origin of the link is in place. */
  lemma DisconnectInputUnfold(g: Graph, cfg: Config, id: int, slot: SlotRef, s: int, doProcessChange: bool)
    requires StoreOk(g) && id in g.nodes && s == InputIndex(g.nodes[id], slot)
    requires 0 <= s < |g.nodes[id].inputs| && g.nodes[id].inputs[s].link.Some?
    requires var k := g.nodes[id].inputs[s].link.value;
      k in g.links && var l := g.links[k];
      l.originId in g.nodes && 0 <= l.originSlot < |g.nodes[l.originId].outputs| &&
      var g1 := SetInputLink(g, id, s, None);
      g1.nodes[l.originId].outputs[l.originSlot].links.Some? && |g1.nodes[l.originId].outputs[l.originSlot].links.value| > 0
    ensures var k := g.nodes[id].inputs[s].link.value;
      var g1 := SetInputLink(g, id, s, None);
      DisconnectInput(g, cfg, id, slot, doProcessChange) == (Unlist(g1, cfg, k, doProcessChange), true)
  {
    var k := g.nodes[id].inputs[s].link.value;
    var g1 := SetInputLink(g, id, s, None);
    assert DetachAtOrigin(g1, cfg, k, doProcessChange) == (Unlist(g1, cfg, k, doProcessChange), true);
  }

  /** The steps of `Unlist`. */
  lemma UnlistUnfold(g: Graph, cfg: Config, k: int, doSave: bool)
    requires StoreOk(g) && k in g.links
    requires var l := g.links[k]; l.originId in g.nodes && 0 <= l.originSlot < |g.nodes[l.originId].outputs|
    requires g.nodes[g.links[k].originId].outputs[g.links[k].originSlot].links.Some?
    ensures var l := g.links[k];
      var ks := g.nodes[l.originId].outputs[l.originSlot].links.value;
      var h := SetOutputLinks(g, l.originId, l.originSlot, Some(RemoveFirst(ks, k)));
      var h2 := OnGraphChanged(h.(links := h.links - {k}), cfg, "disconnectInput", doSave);
      h2.nodes == h.nodes && h2.nodeList == h.nodeList && h2.links == h.links - {k} && h2.lastLinkId == h.lastLinkId &&
      var r := Unlist(g, cfg, k, doSave);
      r.nodes == h2.nodes && r.nodeList == h2.nodeList && r.links == h2.links && r.lastLinkId == h2.lastLinkId
  {
  }

  // ---------------------------------------------------------------------------
  // disconnectOutput
  // ---------------------------------------------------------------------------

  /** The first stored link of `ks` that ends at node `t`, as a set: empty if there is none. */
  function FirstTo(g: Graph, ks: seq<int>, t: int): set<int>
  {
    if |ks| == 0 then {}
    else if ks[0] in g.links && g.links[ks[0]].targetId == t then {ks[0]}
    else FirstTo(g, ks[1..], t)
  }

  /**
   * Splicing the link at position `j` out of an output's list, clearing the
   * input it ends at and deleting it removes exactly that link.
   */
  lemma UnplugAt(g: Graph, o: int, os: int, j: int)
    requires WF(g) && o in g.nodes && 0 <= os < |g.nodes[o].outputs| && g.nodes[o].outputs[os].links.Some?
    requires 0 <= j < |g.nodes[o].outputs[os].links.value|
    ensures var ks := g.nodes[o].outputs[os].links.value; var k := ks[j];
      k in g.links && var l := g.links[k];
      l.targetId in g.nodes && 0 <= l.targetSlot < |g.nodes[l.targetId].inputs| &&
      var g1 := SetOutputLinks(g, o, os, Some(ks[..j] + ks[j + 1..]));
      var g2 := SetInputLink(g1, l.targetId, l.targetSlot, None);
      Removed(g, g2.(links := g2.links - {k}), {k})
  {
    var ks := g.nodes[o].outputs[os].links.value;
    var k := ks[j];
    assert OutputBacked(g, o, os);
    assert LinkRegistered(g, k);
    var l := g.links[k];
    var g1 := SetOutputLinks(g, o, os, Some(ks[..j] + ks[j + 1..]));
    var g2 := SetInputLink(g1, l.targetId, l.targetSlot, None);
    UnplugAtFrame(g, o, os, j);
    UnplugAtInputs(g, o, os, j);
    UnplugAtOutputs(g, o, os, j);
    SameShapeTrans(g, g1, g2);
  }

  lemma UnplugAtFrame(g: Graph, o: int, os: int, j: int)
    requires WF(g) && o in g.nodes && 0 <= os < |g.nodes[o].outputs| && g.nodes[o].outputs[os].links.Some?
    requires 0 <= j < |g.nodes[o].outputs[os].links.value|
    ensures var ks := g.nodes[o].outputs[os].links.value; var k := ks[j];
      k in g.links && var l := g.links[k];
      l.targetId in g.nodes && 0 <= l.targetSlot < |g.nodes[l.targetId].inputs| &&
      var g1 := SetOutputLinks(g, o, os, Some(ks[..j] + ks[j + 1..]));
      var g2 := SetInputLink(g1, l.targetId, l.targetSlot, None);
      forall x :: x in g.nodes ==> OnlyLinksDiffer(g.nodes[x], g2.nodes[x])
  {
    var ks := g.nodes[o].outputs[os].links.value;
    var k := ks[j];
    assert OutputBacked(g, o, os);
    assert LinkRegistered(g, k);
    var l := g.links[k];
    var g1 := SetOutputLinks(g, o, os, Some(ks[..j] + ks[j + 1..]));
    var g2 := SetInputLink(g1, l.targetId, l.targetSlot, None);
    forall x | x in g.nodes ensures OnlyLinksDiffer(g.nodes[x], g2.nodes[x]) {
      TwoWritesFrame'(g, o, os, Some(ks[..j] + ks[j + 1..]), l.targetId, l.targetSlot, None, x);
    }
  }

  lemma UnplugAtInputs(g: Graph, o: int, os: int, j: int)
    requires WF(g) && o in g.nodes && 0 <= os < |g.nodes[o].outputs| && g.nodes[o].outputs[os].links.Some?
    requires 0 <= j < |g.nodes[o].outputs[os].links.value|
    ensures var ks := g.nodes[o].outputs[os].links.value; var k := ks[j];
      k in g.links && var l := g.links[k];
      l.targetId in g.nodes && 0 <= l.targetSlot < |g.nodes[l.targetId].inputs| &&
      var g1 := SetOutputLinks(g, o, os, Some(ks[..j] + ks[j + 1..]));
      var g2 := SetInputLink(g1, l.targetId, l.targetSlot, None);
      forall x, i :: x in g.nodes && 0 <= i < |g.nodes[x].inputs| ==>
        g2.nodes[x].inputs[i].link == Cleared(g.nodes[x].inputs[i].link, {k})
  {
    assert OutputBacked(g, o, os);
    assert LinkRegistered(g, g.nodes[o].outputs[os].links.value[j]);
    forall x, i | x in g.nodes && 0 <= i < |g.nodes[x].inputs| {
      UnplugAtInput(g, o, os, j, x, i);
    }
  }

  lemma UnplugAtOutputs(g: Graph, o: int, os: int, j: int)
    requires WF(g) && o in g.nodes && 0 <= os < |g.nodes[o].outputs| && g.nodes[o].outputs[os].links.Some?
    requires 0 <= j < |g.nodes[o].outputs[os].links.value|
    ensures var ks := g.nodes[o].outputs[os].links.value; var k := ks[j];
      k in g.links && var l := g.links[k];
      l.targetId in g.nodes && 0 <= l.targetSlot < |g.nodes[l.targetId].inputs| &&
      var g1 := SetOutputLinks(g, o, os, Some(ks[..j] + ks[j + 1..]));
      var g2 := SetInputLink(g1, l.targetId, l.targetSlot, None);
      forall x, i :: x in g.nodes && 0 <= i < |g.nodes[x].outputs| ==>
        ListShrunk(g.nodes[x].outputs[i].links, g2.nodes[x].outputs[i].links, {k})
  {
    assert OutputBacked(g, o, os);
    assert LinkRegistered(g, g.nodes[o].outputs[os].links.value[j]);
    forall x, i | x in g.nodes && 0 <= i < |g.nodes[x].outputs| {
      UnplugAtOutput(g, o, os, j, x, i);
    }
  }

  lemma UnplugAtInput(g: Graph, o: int, os: int, j: int, x: int, i: int)
    requires WF(g) && o in g.nodes && 0 <= os < |g.nodes[o].outputs| && g.nodes[o].outputs[os].links.Some?
    requires 0 <= j < |g.nodes[o].outputs[os].links.value|
    requires x in g.nodes && 0 <= i < |g.nodes[x].inputs|
    ensures var ks := g.nodes[o].outputs[os].links.value; var k := ks[j];
      k in g.links && var l := g.links[k];
      l.targetId in g.nodes && 0 <= l.targetSlot < |g.nodes[l.targetId].inputs| &&
      var g1 := SetOutputLinks(g, o, os, Some(ks[..j] + ks[j + 1..]));
      var g2 := SetInputLink(g1, l.targetId, l.targetSlot, None);
      g2.nodes[x].inputs[i].link == Cleared(g.nodes[x].inputs[i].link, {k})
  {
    var ks := g.nodes[o].outputs[os].links.value;
    var k := ks[j];
    assert OutputBacked(g, o, os);
    assert LinkRegistered(g, k);
    var l := g.links[k];
    var g1 := SetOutputLinks(g, o, os, Some(ks[..j] + ks[j + 1..]));
    SetOutputLinksEffect(g, o, os, Some(ks[..j] + ks[j + 1..]), x);
    SetInputLinkEffect(g1, l.targetId, l.targetSlot, None, x);
    assert InputBacked(g, x, i);
  }

  lemma UnplugAtOutput(g: Graph, o: int, os: int, j: int, x: int, i: int)
    requires WF(g) && o in g.nodes && 0 <= os < |g.nodes[o].outputs| && g.nodes[o].outputs[os].links.Some?
    requires 0 <= j < |g.nodes[o].outputs[os].links.value|
    requires x in g.nodes && 0 <= i < |g.nodes[x].outputs|
    ensures var ks := g.nodes[o].outputs[os].links.value; var k := ks[j];
      k in g.links && var l := g.links[k];
      l.targetId in g.nodes && 0 <= l.targetSlot < |g.nodes[l.targetId].inputs| &&
      var g1 := SetOutputLinks(g, o, os, Some(ks[..j] + ks[j + 1..]));
      var g2 := SetInputLink(g1, l.targetId, l.targetSlot, None);
      ListShrunk(g.nodes[x].outputs[i].links, g2.nodes[x].outputs[i].links, {k})
  {
    var ks := g.nodes[o].outputs[os].links.value;
    var k := ks[j];
    assert OutputBacked(g, o, os);
    assert LinkRegistered(g, k);
    var l := g.links[k];
    SpliceNoDup(ks, j);
    var g1 := SetOutputLinks(g, o, os, Some(ks[..j] + ks[j + 1..]));
    SetOutputLinksEffect(g, o, os, Some(ks[..j] + ks[j + 1..]), x);
    SetInputLinkEffect(g1, l.targetId, l.targetSlot, None, x);
    assert OutputBacked(g, x, i);
  }

  /**
   * On a well-formed graph the targeted loop of `disconnectOutput` does not
   * throw, and removes exactly the first link from position `i` on that
   * ends at `t`.
   */
  lemma {:induction false} DropToRemoves(g: Graph, cfg: Config, id: int, s: int, i: nat, t: int, doSave: bool)
    requires WF(g) && id in g.nodes && 0 <= s < |g.nodes[id].outputs| && g.nodes[id].outputs[s].links.Some?
    requires t in g.nodes && i <= |g.nodes[id].outputs[s].links.value|
    ensures var ks := g.nodes[id].outputs[s].links.value;
      var r := DropTo(g, cfg, id, s, ks, i, t, doSave);
      r.Done? && Removed(g, r.g, FirstTo(g, ks[i..], t))
    decreases |g.nodes[id].outputs[s].links.value| - i
  {
    var ks := g.nodes[id].outputs[s].links.value;
    if i == |ks| {
      assert ks[i..] == [];
      RemovedNothing(g, g);
    } else {
      var k := ks[i];
      assert ks[i..][0] == k && ks[i..][1..] == ks[i + 1..];
      assert OutputBacked(g, id, s);
      if g.links[k].targetId != t {
        DropToRemoves(g, cfg, id, s, i + 1, t, doSave);
      } else {
        DropToStep(g, cfg, id, s, i, doSave);
      }
    }
  }

  /** The step of the targeted loop that finds the link. */
  lemma DropToStep(g: Graph, cfg: Config, id: int, s: int, i: nat, doSave: bool)
    requires WF(g) && id in g.nodes && 0 <= s < |g.nodes[id].outputs| && g.nodes[id].outputs[s].links.Some?
    requires i < |g.nodes[id].outputs[s].links.value|
    requires var k := g.nodes[id].outputs[s].links.value[i]; k in g.links && g.links[k].targetId in g.nodes
    ensures var ks := g.nodes[id].outputs[s].links.value; var k := ks[i];
      var r := DropTo(g, cfg, id, s, ks, i, g.links[k].targetId, doSave);
      r.Done? && Removed(g, r.g, {k})
  {
    var ks := g.nodes[id].outputs[s].links.value;
    var k := ks[i];
    var l := g.links[k];
    UnplugAt(g, id, s, i);
    var g1 := SetOutputLinks(g, id, s, Some(ks[..i] + ks[i + 1..]));
    var g2 := SetInputLink(g1, l.targetId, l.targetSlot, None);
    var h := g2.(links := g2.links - {k});
    var h2 := OnGraphChanged(h, cfg, "disconnectOutput", doSave);
    assert DropTo(g, cfg, id, s, ks, i, l.targetId, doSave) == Done(h2, ());
    RemovedFrame(g, h, h2, {k});
  }

  /**
   * On a well-formed graph, `disconnectOutput` with a target node on an
   * output that has links does not throw, reports true, and removes exactly
   * the first link of the output that ends at that node (none if no link
   * does).
   */
  lemma DisconnectToRemoves(g: Graph, cfg: Config, id: int, s: int, t: int, doProcessChange: bool)
    requires WF(g) && id in g.nodes && 0 <= s < |g.nodes[id].outputs| && t in g.nodes
    requires g.nodes[id].outputs[s].links.Some?
    ensures var r := DisconnectTo(g, cfg, id, s, t, doProcessChange);
      r == Done(r.g, true) && Removed(g, r.g, FirstTo(g, g.nodes[id].outputs[s].links.value, t))
  {
    var ks := g.nodes[id].outputs[s].links.value;
    DropToRemoves(g, cfg, id, s, 0, t, doProcessChange);
    assert ks[0..] == ks;
    var r1 := DropTo(g, cfg, id, s, ks, 0, t, doProcessChange);
    var g' := Settled(g, r1.g, cfg);
    RemovedFrame(g, r1.g, g', FirstTo(g, ks, t));
  }

  /**
   * Inside the untargeted loop of `disconnectOutput`: the links in `D` are
   * deleted and the inputs that held them cleared, while every output list
   * is still as it was in `g0`.
   */
  ghost predicate InputsCleared(g0: Graph, g: Graph, D: set<int>)
  {
    SameShape(g0, g) && g.lastLinkId == g0.lastLinkId && g.links == g0.links - D &&
    (forall x :: x in g0.nodes ==> OnlyLinksDiffer(g0.nodes[x], g.nodes[x])) &&
    (forall x, i :: x in g0.nodes && 0 <= i < |g0.nodes[x].inputs| ==>
       g.nodes[x].inputs[i].link == Cleared(g0.nodes[x].inputs[i].link, D)) &&
    (forall x, i :: x in g0.nodes && 0 <= i < |g0.nodes[x].outputs| ==>
       g.nodes[x].outputs[i].links == g0.nodes[x].outputs[i].links)
  }

  /** The ids a list holds, as a set. */
  function Listed(ks: seq<int>): set<int>
  {
    set k | k in ks
  }

  /** One turn of the untargeted loop on a stored link `k` of a well-formed `g0`. */
  lemma DropLinksStep(g0: Graph, g: Graph, cfg: Config, k: int, D: set<int>, doSave: bool)
    requires WF(g0) && InputsCleared(g0, g, D) && k in g0.links && k !in D
    ensures StoreOk(g) && k in g.links && g.links[k] == g0.links[k]
    ensures var l := g0.links[k];
      var g1 := OnGraphChanged(g, cfg, "disconnectOutput", doSave);
      l.targetId in g1.nodes && 0 <= l.targetSlot < |g1.nodes[l.targetId].inputs| &&
      var g2 := SetInputLink(g1, l.targetId, l.targetSlot, None);
      InputsCleared(g0, g2.(links := g2.links - {k}), D + {k})
  {
    SameStoreOk(g0, g);
    var g1 := OnGraphChanged(g, cfg, "disconnectOutput", doSave);
    InputsClearedFrame(g0, g, g1, D);
    ClearOne(g0, g1, k, D);
  }

  /** Bookkeeping that leaves the nodes and the links alone keeps the loop state. */
  lemma InputsClearedFrame(g0: Graph, g: Graph, g': Graph, D: set<int>)
    requires InputsCleared(g0, g, D)
    requires g'.nodes == g.nodes && g'.nodeList == g.nodeList && g'.links == g.links && g'.lastLinkId == g.lastLinkId
    ensures InputsCleared(g0, g', D)
  {
  }

  /** Clearing the input link `k` ends at and deleting `k` moves it into the removed set. */
  lemma ClearOne(g0: Graph, g1: Graph, k: int, D: set<int>)
    requires WF(g0) && InputsCleared(g0, g1, D) && k in g0.links && k !in D
    ensures var l := g0.links[k];
      l.targetId in g1.nodes && 0 <= l.targetSlot < |g1.nodes[l.targetId].inputs| &&
      var g2 := SetInputLink(g1, l.targetId, l.targetSlot, None);
      InputsCleared(g0, g2.(links := g2.links - {k}), D + {k})
  {
    assert LinkRegistered(g0, k);
    var l := g0.links[k];
    var g2 := SetInputLink(g1, l.targetId, l.targetSlot, None);
    SameShapeTrans(g0, g1, g2);
    ClearOneFrame(g0, g1, k, D);
    ClearOneInputs(g0, g1, k, D);
    ClearOneOutputs(g0, g1, k, D);
    MinusOneMore(g0.links, D, k);
  }

  lemma ClearOneFrame(g0: Graph, g1: Graph, k: int, D: set<int>)
    requires WF(g0) && InputsCleared(g0, g1, D) && k in g0.links && k !in D
    ensures var l := g0.links[k];
      l.targetId in g1.nodes && 0 <= l.targetSlot < |g1.nodes[l.targetId].inputs| &&
      var g2 := SetInputLink(g1, l.targetId, l.targetSlot, None);
      forall x :: x in g0.nodes ==> OnlyLinksDiffer(g0.nodes[x], g2.nodes[x])
  {
    assert LinkRegistered(g0, k);
    var l := g0.links[k];
    var g2 := SetInputLink(g1, l.targetId, l.targetSlot, None);
    forall x | x in g0.nodes ensures OnlyLinksDiffer(g0.nodes[x], g2.nodes[x]) {
      InputWriteFrame(g0, g1, l.targetId, l.targetSlot, None, x);
    }
  }

  lemma ClearOneInputs(g0: Graph, g1: Graph, k: int, D: set<int>)
    requires WF(g0) && InputsCleared(g0, g1, D) && k in g0.links && k !in D
    ensures var l := g0.links[k];
      l.targetId in g1.nodes && 0 <= l.targetSlot < |g1.nodes[l.targetId].inputs| &&
      var g2 := SetInputLink(g1, l.targetId, l.targetSlot, None);
      forall x, i :: x in g0.nodes && 0 <= i < |g0.nodes[x].inputs| ==>
        g2.nodes[x].inputs[i].link == Cleared(g0.nodes[x].inputs[i].link, D + {k})
  {
    assert LinkRegistered(g0, k);
    var l := g0.links[k];
    var g2 := SetInputLink(g1, l.targetId, l.targetSlot, None);
    forall x, i | x in g0.nodes && 0 <= i < |g0.nodes[x].inputs| {
      DropLinksStepInput(g0, g1, k, D, x, i);
    }
  }

  lemma ClearOneOutputs(g0: Graph, g1: Graph, k: int, D: set<int>)
    requires WF(g0) && InputsCleared(g0, g1, D) && k in g0.links && k !in D
    ensures var l := g0.links[k];
      l.targetId in g1.nodes && 0 <= l.targetSlot < |g1.nodes[l.targetId].inputs| &&
      var g2 := SetInputLink(g1, l.targetId, l.targetSlot, None);
      forall x, i :: x in g0.nodes && 0 <= i < |g0.nodes[x].outputs| ==>
        g2.nodes[x].outputs[i].links == g0.nodes[x].outputs[i].links
  {
    assert LinkRegistered(g0, k);
    var l := g0.links[k];
    var g2 := SetInputLink(g1, l.targetId, l.targetSlot, None);
    forall x | x in g0.nodes {
      SetInputLinkEffect(g1, l.targetId, l.targetSlot, None, x);
    }
  }

  lemma MinusOneMore<V>(m: map<int, V>, D: set<int>, k: int)
    ensures (m - D) - {k} == m - (D + {k})
  {
  }

  lemma DropLinksStepInput(g0: Graph, g1: Graph, k: int, D: set<int>, x: int, i: int)
    requires WF(g0) && InputsCleared(g0, g1, D) && k in g0.links && k !in D
    requires x in g0.nodes && 0 <= i < |g0.nodes[x].inputs|
    ensures var l := g0.links[k];
      l.targetId in g1.nodes && 0 <= l.targetSlot < |g1.nodes[l.targetId].inputs| &&
      SetInputLink(g1, l.targetId, l.targetSlot, None).nodes[x].inputs[i].link == Cleared(g0.nodes[x].inputs[i].link, D + {k})
  {
    assert LinkRegistered(g0, k);
    var l := g0.links[k];
    SetInputLinkEffect(g1, l.targetId, l.targetSlot, None, x);
    assert InputBacked(g0, x, i);
  }

  /**
   * On a well-formed `g0`, the untargeted loop over the links of output `s`
   * of node `id`, resumed at position `j`, does not throw, and ends with
   * every listed link deleted and every input that held one cleared.
   */
  lemma {:induction false} DropLinksClears(g0: Graph, g: Graph, cfg: Config, id: int, s: int, j: nat, doSave: bool)
    requires WF(g0) && id in g0.nodes && 0 <= s < |g0.nodes[id].outputs| && g0.nodes[id].outputs[s].links.Some?
    requires j <= |g0.nodes[id].outputs[s].links.value|
    requires InputsCleared(g0, g, Listed(g0.nodes[id].outputs[s].links.value[..j]))
    ensures StoreOk(g)
    ensures var ks := g0.nodes[id].outputs[s].links.value;
      var r := DropLinks(g, cfg, ks[j..], doSave);
      r.Done? && InputsCleared(g0, r.g, Listed(ks))
    decreases |g0.nodes[id].outputs[s].links.value| - j
  {
    SameStoreOk(g0, g);
    var ks := g0.nodes[id].outputs[s].links.value;
    if j == |ks| {
      assert ks[j..] == [] && ks[..j] == ks;
    } else {
      var g' := DropLinksTurn(g0, g, cfg, id, s, j, doSave);
      DropLinksClears(g0, g', cfg, id, s, j + 1, doSave);
    }
  }

  /** One turn of the untargeted loop, at position `j` of the list. */
  lemma DropLinksTurn(g0: Graph, g: Graph, cfg: Config, id: int, s: int, j: nat, doSave: bool) returns (g': Graph)
    requires WF(g0) && id in g0.nodes && 0 <= s < |g0.nodes[id].outputs| && g0.nodes[id].outputs[s].links.Some?
    requires j < |g0.nodes[id].outputs[s].links.value|
    requires InputsCleared(g0, g, Listed(g0.nodes[id].outputs[s].links.value[..j]))
    ensures var ks := g0.nodes[id].outputs[s].links.value;
      StoreOk(g) && StoreOk(g') && InputsCleared(g0, g', Listed(ks[..j + 1])) &&
      DropLinks(g, cfg, ks[j..], doSave) == DropLinks(g', cfg, ks[j + 1..], doSave)
  {
    var ks := g0.nodes[id].outputs[s].links.value;
    var k := ks[j];
    var D := Listed(ks[..j]);
    assert ks[..j + 1] == ks[..j] + [k];
    assert Listed(ks[..j + 1]) == D + {k};
    assert OutputBacked(g0, id, s);
    assert k !in D;
    DropLinksStep(g0, g, cfg, k, D, doSave);
    var l := g0.links[k];
    var g1 := OnGraphChanged(g, cfg, "disconnectOutput", doSave);
    var g2 := SetInputLink(g1, l.targetId, l.targetSlot, None);
    g' := g2.(links := g2.links - {k});
    SameStoreOk(g0, g');
    DropLinksUnfold(g, cfg, ks, j, doSave);
  }

  /** The branch the untargeted loop takes, at position `j`, on a stored link whose target input exists. */
  lemma DropLinksUnfold(g: Graph, cfg: Config, ks: seq<int>, j: nat, doSave: bool)
    requires StoreOk(g) && j < |ks| && ks[j] in g.links
    requires var l := g.links[ks[j]]; l.targetId in g.nodes && 0 <= l.targetSlot < |g.nodes[l.targetId].inputs|
    ensures var l := g.links[ks[j]];
      var g1 := OnGraphChanged(g, cfg, "disconnectOutput", doSave);
      l.targetId in g1.nodes && 0 <= l.targetSlot < |g1.nodes[l.targetId].inputs| &&
      var g2 := SetInputLink(g1, l.targetId, l.targetSlot, None);
      DropLinks(g, cfg, ks[j..], doSave) == DropLinks(g2.(links := g2.links - {ks[j]}), cfg, ks[j + 1..], doSave)
  {
    assert ks[j..][0] == ks[j] && ks[j..][1..] == ks[j + 1..];
  }

  /** Setting the emptied list to null completes the removal of every link it held. */
  lemma ListDropped(g0: Graph, g: Graph, id: int, s: int)
    requires WF(g0) && id in g0.nodes && 0 <= s < |g0.nodes[id].outputs| && g0.nodes[id].outputs[s].links.Some?
    requires InputsCleared(g0, g, Listed(g0.nodes[id].outputs[s].links.value))
    ensures id in g.nodes && 0 <= s < |g.nodes[id].outputs|
    ensures var g' := SetOutputLinks(g, id, s, None);
      Removed(g0, g', Listed(g0.nodes[id].outputs[s].links.value)) && g'.nodes[id].outputs[s].links.None?
  {
    var g' := SetOutputLinks(g, id, s, None);
    SameShapeTrans(g0, g, g');
    ListDroppedFrame(g0, g, id, s);
    ListDroppedInputs(g0, g, id, s);
    ListDroppedOutputs(g0, g, id, s);
    SetOutputLinksEffect(g, id, s, None, id);
  }

  lemma ListDroppedFrame(g0: Graph, g: Graph, id: int, s: int)
    requires WF(g0) && id in g0.nodes && 0 <= s < |g0.nodes[id].outputs| && g0.nodes[id].outputs[s].links.Some?
    requires InputsCleared(g0, g, Listed(g0.nodes[id].outputs[s].links.value))
    ensures id in g.nodes && 0 <= s < |g.nodes[id].outputs|
    ensures var g' := SetOutputLinks(g, id, s, None); var R := Listed(g0.nodes[id].outputs[s].links.value);
      forall x :: x in g0.nodes ==> OnlyLinksDiffer(g0.nodes[x], g'.nodes[x])
  {
    forall x | x in g0.nodes ensures OnlyLinksDiffer(g0.nodes[x], SetOutputLinks(g, id, s, None).nodes[x]) {
      OutputWriteFrame(g0, g, id, s, None, x);
    }
  }

  lemma ListDroppedInputs(g0: Graph, g: Graph, id: int, s: int)
    requires WF(g0) && id in g0.nodes && 0 <= s < |g0.nodes[id].outputs| && g0.nodes[id].outputs[s].links.Some?
    requires InputsCleared(g0, g, Listed(g0.nodes[id].outputs[s].links.value))
    ensures id in g.nodes && 0 <= s < |g.nodes[id].outputs|
    ensures var g' := SetOutputLinks(g, id, s, None); var R := Listed(g0.nodes[id].outputs[s].links.value);
      forall x, i :: x in g0.nodes && 0 <= i < |g0.nodes[x].inputs| ==>
        g'.nodes[x].inputs[i].link == Cleared(g0.nodes[x].inputs[i].link, R)
  {
    forall x | x in g0.nodes {
      SetOutputLinksEffect(g, id, s, None, x);
    }
  }

  lemma ListDroppedOutputs(g0: Graph, g: Graph, id: int, s: int)
    requires WF(g0) && id in g0.nodes && 0 <= s < |g0.nodes[id].outputs| && g0.nodes[id].outputs[s].links.Some?
    requires InputsCleared(g0, g, Listed(g0.nodes[id].outputs[s].links.value))
    ensures id in g.nodes && 0 <= s < |g.nodes[id].outputs|
    ensures var g' := SetOutputLinks(g, id, s, None); var R := Listed(g0.nodes[id].outputs[s].links.value);
      forall x, i :: x in g0.nodes && 0 <= i < |g0.nodes[x].outputs| ==>
        ListShrunk(g0.nodes[x].outputs[i].links, g'.nodes[x].outputs[i].links, R)
  {
    assert OutputBacked(g0, id, s);
    forall x, i | x in g0.nodes && 0 <= i < |g0.nodes[x].outputs|
      ensures ListShrunk(g0.nodes[x].outputs[i].links, SetOutputLinks(g, id, s, None).nodes[x].outputs[i].links, Listed(g0.nodes[id].outputs[s].links.value))
    {
      SetOutputLinksEffect(g, id, s, None, x);
      assert OutputBacked(g0, x, i);
    }
  }

  /**
   * On a well-formed graph, `disconnectOutput` without a target on an output
   * that has links does not throw, reports true, removes every link the
   * output listed and leaves its list null.
   */
  lemma DisconnectAllRemoves(g: Graph, cfg: Config, id: int, s: int, doProcessChange: bool)
    requires WF(g) && id in g.nodes && 0 <= s < |g.nodes[id].outputs| && g.nodes[id].outputs[s].links.Some?
    ensures var r := DisconnectAll(g, cfg, id, s, doProcessChange);
      r == Done(r.g, true) && Removed(g, r.g, Listed(g.nodes[id].outputs[s].links.value)) &&
      r.g.nodes[id].outputs[s].links.None?
  {
    var ks := g.nodes[id].outputs[s].links.value;
    assert ks[..0] == [] && ks[0..] == ks;
    assert Listed([]) == {};
    RemovedNothing(g, g);
    DropLinksClears(g, g, cfg, id, s, 0, doProcessChange);
    var r1 := DropLinks(g, cfg, ks, doProcessChange);
    ListDropped(g, r1.g, id, s);
    var g1 := SetOutputLinks(r1.g, id, s, None);
    RemovedFrame(g, g1, Settled(g, g1, cfg), Listed(ks));
  }

  /**
   * On a well-formed graph, `disconnectOutput` on an output that has links
   * removes every link of the output when no target is given, removes the
   * first link to the target when one is, and throws "Target Node not
   * found" without changing anything for a target id with no node.
   */
  lemma DisconnectOutputRemoves(g: Graph, cfg: Config, id: int, slot: SlotRef, target: NodeRef, doProcessChange: bool)
    requires WF(g) && id in g.nodes && (target.ByNode? ==> target.id in g.nodes)
    ensures var n := g.nodes[id]; var s := OutputIndex(n, slot);
      var r := DisconnectOutput(g, cfg, id, slot, target, doProcessChange);
      0 <= s < |n.outputs| && n.outputs[s].links.Some? && |n.outputs[s].links.value| > 0 ==>
        var ks := n.outputs[s].links.value;
        if !TargetGiven(target) then
          r == Done(r.g, true) && Removed(g, r.g, Listed(ks)) && r.g.nodes[id].outputs[s].links.None?
        else if TargetOf(g, target).None? then r == Threw(g, GraphError("Target Node not found"))
        else r == Done(r.g, true) && Removed(g, r.g, FirstTo(g, ks, TargetOf(g, target).value))
  {
    var n := g.nodes[id];
    var s := OutputIndex(n, slot);
    if 0 <= s < |n.outputs| && n.outputs[s].links.Some? && |n.outputs[s].links.value| > 0 {
      if !TargetGiven(target) {
        DisconnectAllRemoves(g, cfg, id, s, doProcessChange);
      } else if TargetOf(g, target).Some? {
        DisconnectToRemoves(g, cfg, id, s, TargetOf(g, target).value, doProcessChange);
      }
    }
  }

  /** `disconnectOutput` keeps a well-formed graph well-formed, whatever it returns. */
  lemma DisconnectOutputKeepsWF(g: Graph, cfg: Config, id: int, slot: SlotRef, target: NodeRef, doProcessChange: bool)
    requires WF(g) && id in g.nodes && (target.ByNode? ==> target.id in g.nodes)
    ensures WF(DisconnectOutput(g, cfg, id, slot, target, doProcessChange).g)
  {
    var n := g.nodes[id];
    var s := OutputIndex(n, slot);
    var r := DisconnectOutput(g, cfg, id, slot, target, doProcessChange);
    if 0 <= s < |n.outputs| && n.outputs[s].links.Some? && |n.outputs[s].links.value| > 0 {
      var ks := n.outputs[s].links.value;
      DisconnectOutputRemoves(g, cfg, id, slot, target, doProcessChange);
      if !TargetGiven(target) {
        RemovedKeepsWF(g, r.g, Listed(ks));
      } else if TargetOf(g, target).Some? {
        RemovedKeepsWF(g, r.g, FirstTo(g, ks, TargetOf(g, target).value));
      }
    }
  }

  /** `disconnectInput` keeps a well-formed graph well-formed, whatever it returns. */
  lemma DisconnectInputKeepsWF(g: Graph, cfg: Config, id: int, slot: SlotRef, doProcessChange: bool)
    requires WF(g) && id in g.nodes
    ensures WF(DisconnectInput(g, cfg, id, slot, doProcessChange).0)
  {
    var s := InputIndex(g.nodes[id], slot);
    DisconnectInputRemoves(g, cfg, id, slot, doProcessChange);
    if 0 <= s < |g.nodes[id].inputs| {
      RemovedKeepsWF(g, DisconnectInput(g, cfg, id, slot, doProcessChange).0, Held(g.nodes[id].inputs[s].link));
    }
  }

  /**
   * As written, `disconnectInput` clears the input before it looks for the
   * link's origin: when the stored link names a node that is gone, the call
   * returns false with the input already cleared and the link still stored,
   * so the link is registered nowhere but in `graph.links`.
   */
  lemma DisconnectInputStrandsLink(g: Graph, cfg: Config, id: int, slot: SlotRef, doProcessChange: bool)
    requires StoreOk(g) && id in g.nodes
    requires var s := InputIndex(g.nodes[id], slot);
      0 <= s < |g.nodes[id].inputs| && g.nodes[id].inputs[s].link.Some? &&
      var k := g.nodes[id].inputs[s].link.value; k in g.links && g.links[k].originId !in g.nodes
    ensures var s := InputIndex(g.nodes[id], slot); var k := g.nodes[id].inputs[s].link.value;
      var r := DisconnectInput(g, cfg, id, slot, doProcessChange);
      !r.1 && r.0.nodes[id].inputs[s].link.None? && k in r.0.links && r.0.links == g.links
  {
  }

  /**
   * The corrected `disconnectInput` differs from the one as written only
   * where the origin of a stored link is missing, which no well-formed graph
   * allows: on well-formed graphs the two agree.
   */
  lemma DisconnectInputIntendedAgrees(g: Graph, cfg: Config, id: int, slot: SlotRef, doProcessChange: bool)
    requires WF(g) && id in g.nodes
    ensures DisconnectInputIntended(g, cfg, id, slot, doProcessChange) == DisconnectInput(g, cfg, id, slot, doProcessChange)
  {
    DisconnectInputRemoves(g, cfg, id, slot, doProcessChange);
  }

  // ---------------------------------------------------------------------------
  // Growing a node
  // ---------------------------------------------------------------------------

  /** Appending unlinked slots to one node keeps the three places in agreement. */
  lemma GrownKeepsWF(g: Graph, g': Graph, t: int)
    requires WF(g) && t in g.nodes && t in g'.nodes && GainsUnlinkedSlots(g.nodes[t], g'.nodes[t])
    requires g'.nodes == g.nodes[t := g'.nodes[t]]
    requires g'.nodeList == g.nodeList && g'.links == g.links && g'.lastLinkId == g.lastLinkId
    ensures WF(g')
  {
    assert SameStore(g, g');
    SameStoreOk(g, g');
    forall k | k in g'.links ensures LinkRegistered(g', k) && k <= g'.lastLinkId {
      assert LinkRegistered(g, k);
    }
    forall x, i | x in g'.nodes && 0 <= i < |g'.nodes[x].inputs| ensures InputBacked(g', x, i) {
      if x != t || i < |g.nodes[t].inputs| {
        assert InputBacked(g, x, i);
      }
    }
    forall x, i | x in g'.nodes && 0 <= i < |g'.nodes[x].outputs| ensures OutputBacked(g', x, i) {
      if x != t || i < |g.nodes[t].outputs| {
        assert OutputBacked(g, x, i);
      }
    }
  }

  // ---------------------------------------------------------------------------
  // Putting a link in
  // ---------------------------------------------------------------------------

  /**
   * `g'` is `g` with link `l` put into all three places: stored under its id,
   * which becomes `last_link_id`, pushed onto its origin output's list and
   * held by its target input; every other slot keeps what it had.
   */
  ghost predicate Added(g: Graph, g': Graph, l: LLink)
  {
    SameShape(g, g') && g'.lastLinkId == l.id && g'.links == g.links[l.id := l] &&
    (forall x :: x in g.nodes ==> OnlyLinksDiffer(g.nodes[x], g'.nodes[x])) &&
    (forall x, i :: x in g.nodes && 0 <= i < |g.nodes[x].inputs| ==>
       g'.nodes[x].inputs[i].link == if x == l.targetId && i == l.targetSlot then Some(l.id) else g.nodes[x].inputs[i].link) &&
    (forall x, i :: x in g.nodes && 0 <= i < |g.nodes[x].outputs| ==>
       g'.nodes[x].outputs[i].links ==
         if x == l.originId && i == l.originSlot then Some(Appended(g.nodes[x].outputs[i].links, l.id))
         else g.nodes[x].outputs[i].links)
  }

  /** What adding a link needs: a fresh id, slots that exist, and a free target input. */
  ghost predicate CanAdd(g: Graph, l: LLink)
  {
    l.id > g.lastLinkId &&
    l.originId in g.nodes && 0 <= l.originSlot < |g.nodes[l.originId].outputs| &&
    l.targetId in g.nodes && 0 <= l.targetSlot < |g.nodes[l.targetId].inputs| &&
    g.nodes[l.targetId].inputs[l.targetSlot].link.None?
  }

  /** Putting a fresh link into a free input keeps the three places in agreement and registers the link. */
  lemma AddedKeepsWF(g: Graph, g': Graph, l: LLink)
    requires WF(g) && CanAdd(g, l) && Added(g, g', l)
    ensures WF(g') && l.id in g'.links && LinkRegistered(g', l.id)
  {
    SameStoreOk(g, g');
    forall k | k in g'.links ensures LinkRegistered(g', k) && k <= g'.lastLinkId {
      AddedKeepsRegistered(g, g', l, k);
    }
    forall x, i | x in g'.nodes && 0 <= i < |g'.nodes[x].inputs| ensures InputBacked(g', x, i) {
      assert InputBacked(g, x, i);
    }
    forall x, i | x in g'.nodes && 0 <= i < |g'.nodes[x].outputs| ensures OutputBacked(g', x, i) {
      AddedKeepsOutput(g, g', l, x, i);
    }
  }

  lemma AddedKeepsRegistered(g: Graph, g': Graph, l: LLink, k: int)
    requires WF(g) && CanAdd(g, l) && Added(g, g', l) && k in g'.links
    ensures LinkRegistered(g', k) && k <= g'.lastLinkId
  {
    if k != l.id {
      assert LinkRegistered(g, k);
      var m := g.links[k];
      assert g'.nodes[m.targetId].inputs[m.targetSlot].link == g.nodes[m.targetId].inputs[m.targetSlot].link;
      assert k in g'.nodes[m.originId].outputs[m.originSlot].links.value;
    } else {
      assert g'.nodes[l.originId].outputs[l.originSlot].links == Some(Appended(g.nodes[l.originId].outputs[l.originSlot].links, l.id));
    }
  }

  lemma AddedKeepsOutput(g: Graph, g': Graph, l: LLink, x: int, i: int)
    requires WF(g) && CanAdd(g, l) && Added(g, g', l) && x in g'.nodes && 0 <= i < |g'.nodes[x].outputs|
    ensures OutputBacked(g', x, i)
  {
    assert OutputBacked(g, x, i);
    if x == l.originId && i == l.originSlot {
      var a := g.nodes[x].outputs[i].links;
      var ks := Appended(a, l.id);
      assert l.id !in g.links;
      forall p, q | 0 <= p < q < |ks| ensures ks[p] != ks[q] {
        if q == |ks| - 1 {
          assert ks[p] in a.value;
        }
      }
    }
  }

  /** `AddLink` puts the link into all three places. */
  lemma AddLinkAdds(g0: Graph, g: Graph, cfg: Config, l: LLink)
    requires StoreOk(g0) && SameShape(g0, g)
    requires l.originId in g.nodes && 0 <= l.originSlot < |g.nodes[l.originId].outputs|
    requires l.targetId in g.nodes && 0 <= l.targetSlot < |g.nodes[l.targetId].inputs|
    ensures Added(g, AddLink(g0, g, cfg, l), l)
  {
    var h1 := g.(lastLinkId := l.id, links := g.links[l.id := l]);
    var v := Some(Appended(h1.nodes[l.originId].outputs[l.originSlot].links, l.id));
    var h2 := SetOutputLinks(h1, l.originId, l.originSlot, v);
    var h3 := SetInputLink(h2, l.targetId, l.targetSlot, Some(l.id));
    AddLinkUnfold(g0, g, cfg, l);
    PushedFrame(g, l);
    PushedInputs(g, l);
    PushedOutputs(g, l);
    SameShapeTrans(g, h1, h2);
    SameShapeTrans(g, h2, h3);
  }

  lemma PushedFrame(g: Graph, l: LLink)
    requires l.originId in g.nodes && 0 <= l.originSlot < |g.nodes[l.originId].outputs|
    requires l.targetId in g.nodes && 0 <= l.targetSlot < |g.nodes[l.targetId].inputs|
    ensures var h1 := g.(lastLinkId := l.id, links := g.links[l.id := l]);
      var v := Some(Appended(h1.nodes[l.originId].outputs[l.originSlot].links, l.id));
      var h2 := SetOutputLinks(h1, l.originId, l.originSlot, v);
      l.targetId in h2.nodes && 0 <= l.targetSlot < |h2.nodes[l.targetId].inputs| &&
      var h3 := SetInputLink(h2, l.targetId, l.targetSlot, Some(l.id));
      forall x :: x in g.nodes ==> OnlyLinksDiffer(g.nodes[x], h3.nodes[x])
  {
    var h1 := g.(lastLinkId := l.id, links := g.links[l.id := l]);
    var v := Some(Appended(h1.nodes[l.originId].outputs[l.originSlot].links, l.id));
    var h2 := SetOutputLinks(h1, l.originId, l.originSlot, v);
    var h3 := SetInputLink(h2, l.targetId, l.targetSlot, Some(l.id));
    forall x | x in g.nodes ensures OnlyLinksDiffer(g.nodes[x], h3.nodes[x]) {
      TwoWritesFrame'(h1, l.originId, l.originSlot, v, l.targetId, l.targetSlot, Some(l.id), x);
    }
  }

  lemma PushedInputs(g: Graph, l: LLink)
    requires l.originId in g.nodes && 0 <= l.originSlot < |g.nodes[l.originId].outputs|
    requires l.targetId in g.nodes && 0 <= l.targetSlot < |g.nodes[l.targetId].inputs|
    ensures var h1 := g.(lastLinkId := l.id, links := g.links[l.id := l]);
      var v := Some(Appended(h1.nodes[l.originId].outputs[l.originSlot].links, l.id));
      var h2 := SetOutputLinks(h1, l.originId, l.originSlot, v);
      l.targetId in h2.nodes && 0 <= l.targetSlot < |h2.nodes[l.targetId].inputs| &&
      var h3 := SetInputLink(h2, l.targetId, l.targetSlot, Some(l.id));
      forall x, i :: x in g.nodes && 0 <= i < |g.nodes[x].inputs| ==>
        h3.nodes[x].inputs[i].link == if x == l.targetId && i == l.targetSlot then Some(l.id) else g.nodes[x].inputs[i].link
  {
    var h1 := g.(lastLinkId := l.id, links := g.links[l.id := l]);
    var v := Some(Appended(h1.nodes[l.originId].outputs[l.originSlot].links, l.id));
    var h2 := SetOutputLinks(h1, l.originId, l.originSlot, v);
    var h3 := SetInputLink(h2, l.targetId, l.targetSlot, Some(l.id));
    forall x | x in g.nodes
      ensures forall i :: 0 <= i < |g.nodes[x].inputs| ==>
        h3.nodes[x].inputs[i].link == if x == l.targetId && i == l.targetSlot then Some(l.id) else g.nodes[x].inputs[i].link
    {
      SetOutputLinksEffect(h1, l.originId, l.originSlot, v, x);
      SetInputLinkEffect(h2, l.targetId, l.targetSlot, Some(l.id), x);
    }
  }

  lemma PushedOutputs(g: Graph, l: LLink)
    requires l.originId in g.nodes && 0 <= l.originSlot < |g.nodes[l.originId].outputs|
    requires l.targetId in g.nodes && 0 <= l.targetSlot < |g.nodes[l.targetId].inputs|
    ensures var h1 := g.(lastLinkId := l.id, links := g.links[l.id := l]);
      var v := Some(Appended(h1.nodes[l.originId].outputs[l.originSlot].links, l.id));
      var h2 := SetOutputLinks(h1, l.originId, l.originSlot, v);
      l.targetId in h2.nodes && 0 <= l.targetSlot < |h2.nodes[l.targetId].inputs| &&
      var h3 := SetInputLink(h2, l.targetId, l.targetSlot, Some(l.id));
      forall x, i :: x in g.nodes && 0 <= i < |g.nodes[x].outputs| ==>
        h3.nodes[x].outputs[i].links ==
          if x == l.originId && i == l.originSlot then Some(Appended(g.nodes[x].outputs[i].links, l.id))
          else g.nodes[x].outputs[i].links
  {
    var h1 := g.(lastLinkId := l.id, links := g.links[l.id := l]);
    var v := Some(Appended(h1.nodes[l.originId].outputs[l.originSlot].links, l.id));
    var h2 := SetOutputLinks(h1, l.originId, l.originSlot, v);
    var h3 := SetInputLink(h2, l.targetId, l.targetSlot, Some(l.id));
    forall x | x in g.nodes
      ensures forall i :: 0 <= i < |g.nodes[x].outputs| ==>
        h3.nodes[x].outputs[i].links ==
          if x == l.originId && i == l.originSlot then Some(Appended(g.nodes[x].outputs[i].links, l.id))
          else g.nodes[x].outputs[i].links
    {
      SetOutputLinksEffect(h1, l.originId, l.originSlot, v, x);
      SetInputLinkEffect(h2, l.targetId, l.targetSlot, Some(l.id), x);
    }
  }

  /** The stores `AddLink` leaves: its last slot write, with the bookkeeping after it. */
  lemma AddLinkUnfold(g0: Graph, g: Graph, cfg: Config, l: LLink)
    requires StoreOk(g0) && SameShape(g0, g)
    requires l.originId in g.nodes && 0 <= l.originSlot < |g.nodes[l.originId].outputs|
    requires l.targetId in g.nodes && 0 <= l.targetSlot < |g.nodes[l.targetId].inputs|
    ensures var h1 := g.(lastLinkId := l.id, links := g.links[l.id := l]);
      var v := Some(Appended(h1.nodes[l.originId].outputs[l.originSlot].links, l.id));
      var h2 := SetOutputLinks(h1, l.originId, l.originSlot, v);
      l.targetId in h2.nodes && 0 <= l.targetSlot < |h2.nodes[l.targetId].inputs| &&
      var h3 := SetInputLink(h2, l.targetId, l.targetSlot, Some(l.id));
      var r := AddLink(g0, g, cfg, l);
      r.nodes == h3.nodes && r.nodeList == g.nodeList && r.links == g.links[l.id := l] && r.lastLinkId == l.id
  {
  }

  // ---------------------------------------------------------------------------
  // connect
  // ---------------------------------------------------------------------------

  /**
   * The links an accepted `connect` from output `s` of `id` to input `ts` of
   * `t` takes out before it adds its own: the one the input held, and, for an
   * EVENT output while several links per event output are not allowed, every
   * link the output had.
   */
  function Displaced(g: Graph, cfg: Config, id: int, s: int, t: int, ts: int): set<int>
    requires id in g.nodes && 0 <= s < |g.nodes[id].outputs| && t in g.nodes && 0 <= ts < |g.nodes[t].inputs|
  {
    var out := g.nodes[id].outputs[s];
    Held(g.nodes[t].inputs[ts].link) +
    if out.otype == EVENT && !cfg.allowMultiOutputForEvents && out.links.Some? then Listed(out.links.value) else {}
  }

  /** Freeing the target input: `disconnectInput(target_slot)` when it holds a link. */
  lemma UnplugRemoves(g: Graph, cfg: Config, t: int, ts: int)
    requires WF(g) && t in g.nodes && 0 <= ts < |g.nodes[t].inputs|
    ensures Removed(g, Unplug(g, cfg, t, ts), Held(g.nodes[t].inputs[ts].link))
  {
    if g.nodes[t].inputs[ts].link.Some? {
      DisconnectInputRemoves(g, cfg, t, At(ts), false);
    } else {
      RemovedNothing(g, g);
    }
  }

  /** What a shrink of an output's list says about the ids it kept. */
  lemma ShrunkListed(a: Option<seq<int>>, b: Option<seq<int>>, H: set<int>)
    requires ListShrunk(a, b, H)
    ensures a.Some? && b.Some? ==> H + Listed(b.value) == H + Listed(a.value)
    ensures a.Some? && (b.None? || |b.value| == 0) ==> Listed(a.value) <= H
  {
    if a.Some? && b.Some? {
      forall k ensures k in H + Listed(b.value) <==> k in H + Listed(a.value) {
      }
    }
    if a.Some? && (b.None? || |b.value| == 0) {
      forall k | k in Listed(a.value) ensures k in H {
        if b.Some? { assert k !in b.value; }
      }
    }
  }

  /**
   * Clearing an EVENT output after the target input was freed removes, in
   * all, the links `Displaced` names.
   */
  lemma ClearEventOutputRemoves(g: Graph, g1: Graph, cfg: Config, id: int, s: int, t: int, ts: int)
    requires WF(g) && id in g.nodes && 0 <= s < |g.nodes[id].outputs| && t in g.nodes && 0 <= ts < |g.nodes[t].inputs|
    requires Removed(g, g1, Held(g.nodes[t].inputs[ts].link))
    ensures StoreOk(g1)
    ensures var r := ClearEventOutput(g1, cfg, id, s);
      r.Done? && Removed(g, r.g, Displaced(g, cfg, id, s, t, ts))
  {
    var H := Held(g.nodes[t].inputs[ts].link);
    RemovedKeepsWF(g, g1, H);
    var out0 := g.nodes[id].outputs[s];
    var out1 := g1.nodes[id].outputs[s];
    assert OnlyLinksDiffer(g.nodes[id], g1.nodes[id]);
    assert out1.otype == out0.otype;
    ShrunkListed(out0.links, out1.links, H);
    var D := Displaced(g, cfg, id, s, t, ts);
    var r := ClearEventOutput(g1, cfg, id, s);
    if out1.links.Some? && |out1.links.value| > 0 && out1.otype == EVENT && !cfg.allowMultiOutputForEvents {
      DisconnectAllRemoves(g1, cfg, id, s, false);
      RemovedTrans(g, g1, r.g, H, Listed(out1.links.value));
      assert H + Listed(out1.links.value) == D;
      RemovedSame(g, r.g, H + Listed(out1.links.value), D);
    } else {
      assert r == Done(g1, true);
      assert H == D;
      RemovedSame(g, g1, H, D);
    }
  }

  lemma RemovedSame(g: Graph, g': Graph, R1: set<int>, R2: set<int>)
    requires Removed(g, g', R1) && R1 == R2
    ensures Removed(g, g', R2)
  {
  }

  /** The links `Displaced` names are gone and link `l` is in; `mid` is the graph in between. */
  ghost predicate Replaced(g: Graph, mid: Graph, g': Graph, D: set<int>, l: LLink)
  {
    Removed(g, mid, D) && CanAdd(mid, l) && Added(mid, g', l)
  }

  /** `g'` is `g` with the links `D` taken out and then link `l` put in. */
  ghost predicate ReplacedBy(g: Graph, g': Graph, D: set<int>, l: LLink)
  {
    exists mid :: Replaced(g, mid, g', D, l)
  }

  /**
   * On a well-formed graph the accepted `connect` does not throw: it takes
   * out the links `Displaced` names, reaching `mid`, and then adds link
   * `last_link_id + 1` to `mid`; the graph stays well-formed.
   */
  lemma PlugReplaces(g: Graph, cfg: Config, id: int, s: int, t: int, ts: int, ltype: SlotType) returns (mid: Graph)
    requires WF(g) && id in g.nodes && t in g.nodes
    requires 0 <= s < |g.nodes[id].outputs| && 0 <= ts < |g.nodes[t].inputs|
    ensures var r := Plug(g, cfg, id, s, t, ts, ltype); var l := NewLink(g.lastLinkId + 1, ltype, id, s, t, ts);
      r == Done(r.g, Some(l)) && Replaced(g, mid, r.g, Displaced(g, cfg, id, s, t, ts), l) && WF(r.g) &&
      l.id in r.g.links && LinkRegistered(r.g, l.id)
  {
    var l := NewLink(g.lastLinkId + 1, ltype, id, s, t, ts);
    mid := FreeBoth(g, cfg, id, s, t, ts);
    PlugUnfold(g, cfg, id, s, t, ts, ltype, mid);
    PutIn(g, mid, cfg, Displaced(g, cfg, id, s, t, ts), l);
  }

  /** The removals of the accepted `connect`. */
  lemma FreeBoth(g: Graph, cfg: Config, id: int, s: int, t: int, ts: int) returns (mid: Graph)
    requires WF(g) && id in g.nodes && t in g.nodes
    requires 0 <= s < |g.nodes[id].outputs| && 0 <= ts < |g.nodes[t].inputs|
    ensures var g1 := Unplug(g, cfg, t, ts);
      id in g1.nodes && 0 <= s < |g1.nodes[id].outputs| &&
      ClearEventOutput(g1, cfg, id, s) == Done(mid, true) &&
      Removed(g, mid, Displaced(g, cfg, id, s, t, ts))
    ensures SameShape(g, mid) && id in mid.nodes && t in mid.nodes
    ensures 0 <= s < |mid.nodes[id].outputs| && 0 <= ts < |mid.nodes[t].inputs|
  {
    var g1 := Unplug(g, cfg, t, ts);
    UnplugRemoves(g, cfg, t, ts);
    ClearEventOutputRemoves(g, g1, cfg, id, s, t, ts);
    mid := ClearEventOutput(g1, cfg, id, s).g;
  }

  /** `Plug` once its removals have reached `mid`. */
  lemma PlugUnfold(g: Graph, cfg: Config, id: int, s: int, t: int, ts: int, ltype: SlotType, mid: Graph)
    requires StoreOk(g) && id in g.nodes && t in g.nodes
    requires 0 <= s < |g.nodes[id].outputs| && 0 <= ts < |g.nodes[t].inputs|
    requires var g1 := Unplug(g, cfg, t, ts);
      id in g1.nodes && 0 <= s < |g1.nodes[id].outputs| && ClearEventOutput(g1, cfg, id, s) == Done(mid, true)
    requires SameShape(g, mid) && id in mid.nodes && t in mid.nodes
    requires 0 <= s < |mid.nodes[id].outputs| && 0 <= ts < |mid.nodes[t].inputs|
    ensures var l := NewLink(g.lastLinkId + 1, ltype, id, s, t, ts);
      Plug(g, cfg, id, s, t, ts, ltype) == Done(AddLink(g, mid, cfg, l), Some(l))
  {
  }

  /** Adding the new link after the removals. */
  lemma PutIn(g: Graph, mid: Graph, cfg: Config, D: set<int>, l: LLink)
    requires WF(g) && Removed(g, mid, D) && l.id == g.lastLinkId + 1
    requires l.originId in g.nodes && 0 <= l.originSlot < |g.nodes[l.originId].outputs|
    requires l.targetId in g.nodes && 0 <= l.targetSlot < |g.nodes[l.targetId].inputs|
    requires Held(g.nodes[l.targetId].inputs[l.targetSlot].link) <= D
    ensures SameShape(g, mid)
    ensures var g' := AddLink(g, mid, cfg, l); Replaced(g, mid, g', D, l) && WF(g') && l.id in g'.links && LinkRegistered(g', l.id)
  {
    RemovedKeepsWF(g, mid, D);
    assert mid.nodes[l.targetId].inputs[l.targetSlot].link == Cleared(g.nodes[l.targetId].inputs[l.targetSlot].link, D);
    AddLinkAdds(g, mid, cfg, l);
    AddedKeepsWF(mid, AddLink(g, mid, cfg, l), l);
  }

  /** The link a `connect` created: fresh, stored under its id, and in both of its slots. */
  ghost predicate NewlyLinked(g: Graph, g': Graph, l: LLink, id: int, t: int)
  {
    l.id == g.lastLinkId + 1 && l.id !in g.links && l.originId == id && l.targetId == t &&
    l.id in g'.links && g'.links[l.id] == l && LinkRegistered(g', l.id)
  }

  /**
   * The second half of `connect` on a well-formed graph: it links exactly
   * when both indices are valid, neither hook refuses and the types may be
   * connected; it throws only for a negative input index; a refusal leaves
   * the graph as it was; and the graph stays well-formed. The link it makes
   * is link `last_link_id + 1` of type `input.type || output.type`, and the
   * graph changes only by the links `Displaced` names and that link.
   */
  lemma AttachSpec(g: Graph, cfg: Config, id: int, s: int, t: int, ts: int)
    requires WF(g) && id in g.nodes && t in g.nodes && id != t
    requires s < |g.nodes[id].outputs| && ts < |g.nodes[t].inputs|
    ensures var r := Attach(g, cfg, id, s, t, ts);
      WF(r.g) &&
      (r.Done? && r.value.Some? <==> 0 <= s && 0 <= ts && Accepts(g.nodes[id], s, g.nodes[t], ts)) &&
      (r.Threw? <==> 0 <= s && ts < 0) &&
      (r.Done? && r.value.Some? ==> r.value.value.originSlot == s && r.value.value.targetSlot == ts && NewlyLinked(g, r.g, r.value.value, id, t)) &&
      (!(r.Done? && r.value.Some?) ==> r.g == g)
    ensures var r := Attach(g, cfg, id, s, t, ts);
      r.Done? && r.value.Some? ==> ConnectedIn(g, r.g, cfg, id, s, t, r.value.value)
  {
    if 0 <= s && 0 <= ts && Accepts(g.nodes[id], s, g.nodes[t], ts) {
      var ltype := LinkType(g.nodes[id].outputs[s], g.nodes[t].inputs[ts]);
      PlugLinks(g, cfg, id, s, t, ts, ltype);
    }
    AttachReplaces(g, cfg, id, s, t, ts);
  }

  /** The link the second half of `connect` makes, and the links it takes out for it. */
  lemma AttachReplaces(g: Graph, cfg: Config, id: int, s: int, t: int, ts: int)
    requires WF(g) && id in g.nodes && t in g.nodes && id != t
    requires s < |g.nodes[id].outputs| && ts < |g.nodes[t].inputs|
    ensures var r := Attach(g, cfg, id, s, t, ts);
      r.Done? && r.value.Some? ==> ConnectedIn(g, r.g, cfg, id, s, t, r.value.value)
  {
    if 0 <= s && 0 <= ts && Accepts(g.nodes[id], s, g.nodes[t], ts) {
      var ltype := LinkType(g.nodes[id].outputs[s], g.nodes[t].inputs[ts]);
      var mid := PlugReplaces(g, cfg, id, s, t, ts, ltype);
    }
  }

  /**
   * A link `connect` made in graph `h`, ending as graph `g'`: link
   * `last_link_id + 1` from output `s` of `id` to an input of `t`, of type
   * `input.type || output.type`, with `h` changed only by the links
   * `Displaced` names and that link.
   */
  ghost predicate ConnectedIn(h: Graph, g': Graph, cfg: Config, id: int, s: int, t: int, l: LLink)
  {
    id in h.nodes && t in h.nodes && 0 <= s < |h.nodes[id].outputs| && 0 <= l.targetSlot < |h.nodes[t].inputs| &&
    l == NewLink(h.lastLinkId + 1, LinkType(h.nodes[id].outputs[s], h.nodes[t].inputs[l.targetSlot]), id, s, t, l.targetSlot) &&
    ReplacedBy(h, g', Displaced(h, cfg, id, s, t, l.targetSlot), l)
  }

  /**
   * The graph `connect` links in: for the EVENT slot with
   * `do_add_triggers_slots` on, the graph after the target was switched to
   * ON_TRIGGER; otherwise the graph as given.
   */
  function Prepared(g: Graph, cfg: Config, t: int, targetSlot: SlotRef): Graph
    requires StoreOk(g)
  {
    if targetSlot == At(-1) && cfg.doAddTriggersSlots && t in g.nodes then WithTriggerSlots(g, cfg, t) else g
  }

  /** The accepted `connect` returns a new link that the graph then holds. */
  lemma PlugLinks(g: Graph, cfg: Config, id: int, s: int, t: int, ts: int, ltype: SlotType)
    requires WF(g) && id in g.nodes && t in g.nodes
    requires 0 <= s < |g.nodes[id].outputs| && 0 <= ts < |g.nodes[t].inputs|
    ensures var r := Plug(g, cfg, id, s, t, ts, ltype);
      WF(r.g) && r.Done? && r.value.Some? &&
      r.value.value == NewLink(g.lastLinkId + 1, ltype, id, s, t, ts) && NewlyLinked(g, r.g, r.value.value, id, t)
  {
    var l := NewLink(g.lastLinkId + 1, ltype, id, s, t, ts);
    var mid := PlugReplaces(g, cfg, id, s, t, ts, ltype);
    assert g.lastLinkId + 1 !in g.links;
  }

  /** Switching the target to ON_TRIGGER only appends unlinked slots, so the graph stays well-formed. */
  lemma WithTriggerSlotsKeepsWF(g: Graph, cfg: Config, t: int)
    requires WF(g) && t in g.nodes
    ensures var g1 := WithTriggerSlots(g, cfg, t);
      WF(g1) && g1.links == g.links && g1.lastLinkId == g.lastLinkId &&
      forall x :: x in g.nodes && x != t ==> g1.nodes[x] == g.nodes[x]
  {
    var g1 := WithTriggerSlots(g, cfg, t);
    ChangeModeGainsUnlinkedSlots(g.nodes[t], g.registry, cfg.autoLoadSlotTypes, Num(3));
    assert g1.nodes[t] == ChangeMode(g.nodes[t], g.registry, cfg.autoLoadSlotTypes, Num(3)).0;
    GrownKeepsWF(g, g1, t);
  }

  /**
   * `connect` to the EVENT slot with `do_add_triggers_slots` on keeps the
   * graph well-formed; whatever it links ends at the target's "onTrigger"
   * input, and when it links nothing the links are as they were.
   */
  lemma AttachToTriggerSpec(g: Graph, cfg: Config, id: int, s: int, t: int)
    requires WF(g) && id in g.nodes && t in g.nodes && id != t && s < |g.nodes[id].outputs|
    ensures var r := AttachToTrigger(g, cfg, id, s, t);
      WF(r.g) &&
      (r.Done? && r.value.Some? ==>
         r.value.value.originSlot == s && NewlyLinked(g, r.g, r.value.value, id, t) &&
         r.g.nodes[t].inputs[r.value.value.targetSlot].name == "onTrigger") &&
      (!(r.Done? && r.value.Some?) ==> r.g.links == g.links)
    ensures var r := AttachToTrigger(g, cfg, id, s, t);
      r.Done? && r.value.Some? ==> ConnectedIn(WithTriggerSlots(g, cfg, t), r.g, cfg, id, s, t, r.value.value)
  {
    AttachToTriggerReplaces(g, cfg, id, s, t);
    var g1 := WithTriggerSlots(g, cfg, t);
    WithTriggerSlotsKeepsWF(g, cfg, t);
    var ts := FindInputSlot(g1.nodes[t], "onTrigger");
    AttachSpec(g1, cfg, id, s, t, ts);
    var r := Attach(g1, cfg, id, s, t, ts);
    if r.Done? && r.value.Some? {
      assert OnlyLinksDiffer(g1.nodes[t], r.g.nodes[t]) by {
        var mid := PlugReplaces(g1, cfg, id, s, t, ts, LinkType(g1.nodes[id].outputs[s], g1.nodes[t].inputs[ts]));
        assert Removed(g1, mid, Displaced(g1, cfg, id, s, t, ts)) && Added(mid, r.g, r.value.value);
        OnlyLinksDifferTrans(g1.nodes[t], mid.nodes[t], r.g.nodes[t]);
      }
    }
  }

  /** The link `connect` to the EVENT slot makes, stated against the graph with the trigger slots added. */
  lemma AttachToTriggerReplaces(g: Graph, cfg: Config, id: int, s: int, t: int)
    requires WF(g) && id in g.nodes && t in g.nodes && id != t && s < |g.nodes[id].outputs|
    ensures var r := AttachToTrigger(g, cfg, id, s, t);
      r.Done? && r.value.Some? ==> ConnectedIn(WithTriggerSlots(g, cfg, t), r.g, cfg, id, s, t, r.value.value)
  {
    var g1 := WithTriggerSlots(g, cfg, t);
    WithTriggerSlotsKeepsWF(g, cfg, t);
    AttachReplaces(g1, cfg, id, s, t, FindInputSlot(g1.nodes[t], "onTrigger"));
  }

  /**
   * `connect` on a well-formed graph keeps it well-formed. A link it returns
   * is fresh (`last_link_id + 1`), leaves output `slot` of `id` for another
   * node, and is stored and registered in both slots; when it returns no
   * link the links are as they were, and, while `do_add_triggers_slots` is
   * off, the whole graph is.
   */
  lemma ConnectSpec(g: Graph, cfg: Config, id: int, slot: SlotRef, target: NodeRef, targetSlot: SlotRef)
    requires WF(g) && id in g.nodes
    requires target.ByNode? ==> target.id in g.nodes
    ensures var r := Connect(g, cfg, id, slot, target, targetSlot);
      WF(r.g) &&
      (r.Done? && r.value.Some? ==>
         var l := r.value.value;
         l.targetId != id && l.originSlot == OutputIndex(g.nodes[id], slot) && NewlyLinked(g, r.g, l, id, l.targetId)) &&
      (!(r.Done? && r.value.Some?) ==> r.g.links == g.links) &&
      (!(r.Done? && r.value.Some?) && !cfg.doAddTriggersSlots ==> r.g == g)
    ensures var r := Connect(g, cfg, id, slot, target, targetSlot);
      r.Done? && r.value.Some? ==>
        var l := r.value.value;
        ConnectedIn(Prepared(g, cfg, l.targetId, targetSlot), r.g, cfg, id, OutputIndex(g.nodes[id], slot), l.targetId, l)
  {
    var n := g.nodes[id];
    var s := OutputIndex(n, slot);
    if !((slot.Named? && s == -1) || s >= |n.outputs|) {
      match TargetOf(g, target)
      case None =>
      case Some(t) =>
        if t != id {
          ConnectToSpec(g, cfg, id, s, t, targetSlot);
        }
    }
  }

  /** `connect` once the output index and the target node are known. */
  lemma ConnectToSpec(g: Graph, cfg: Config, id: int, s: int, t: int, targetSlot: SlotRef)
    requires WF(g) && id in g.nodes && t in g.nodes && id != t && s < |g.nodes[id].outputs|
    ensures var r := ConnectTo(g, cfg, id, s, t, targetSlot);
      WF(r.g) &&
      (r.Done? && r.value.Some? ==> r.value.value.originSlot == s && NewlyLinked(g, r.g, r.value.value, id, t)) &&
      (!(r.Done? && r.value.Some?) ==> r.g.links == g.links) &&
      (!(r.Done? && r.value.Some?) && !cfg.doAddTriggersSlots ==> r.g == g)
    ensures var r := ConnectTo(g, cfg, id, s, t, targetSlot);
      r.Done? && r.value.Some? ==> ConnectedIn(Prepared(g, cfg, t, targetSlot), r.g, cfg, id, s, t, r.value.value)
  {
    ConnectToKeepsWF(g, cfg, id, s, t, targetSlot);
    ConnectToReplaces(g, cfg, id, s, t, targetSlot);
  }

  /** The well-formedness half of `ConnectToSpec`. */
  lemma ConnectToKeepsWF(g: Graph, cfg: Config, id: int, s: int, t: int, targetSlot: SlotRef)
    requires WF(g) && id in g.nodes && t in g.nodes && id != t && s < |g.nodes[id].outputs|
    ensures var r := ConnectTo(g, cfg, id, s, t, targetSlot);
      WF(r.g) &&
      (r.Done? && r.value.Some? ==> r.value.value.originSlot == s && NewlyLinked(g, r.g, r.value.value, id, t)) &&
      (!(r.Done? && r.value.Some?) ==> r.g.links == g.links) &&
      (!(r.Done? && r.value.Some?) && !cfg.doAddTriggersSlots ==> r.g == g)
  {
    match targetSlot
    case Named(x) =>
      var ts := FindInputSlot(g.nodes[t], x);
      if ts != -1 {
        AttachSpec(g, cfg, id, s, t, ts);
      }
    case At(i) =>
      if i == -1 {
        if cfg.doAddTriggersSlots {
          AttachToTriggerSpec(g, cfg, id, s, t);
        }
      } else if i < |g.nodes[t].inputs| {
        AttachSpec(g, cfg, id, s, t, i);
      }
  }

  /** The link half of `ConnectToSpec`. */
  lemma ConnectToReplaces(g: Graph, cfg: Config, id: int, s: int, t: int, targetSlot: SlotRef)
    requires WF(g) && id in g.nodes && t in g.nodes && id != t && s < |g.nodes[id].outputs|
    ensures var r := ConnectTo(g, cfg, id, s, t, targetSlot);
      r.Done? && r.value.Some? ==> ConnectedIn(Prepared(g, cfg, t, targetSlot), r.g, cfg, id, s, t, r.value.value)
  {
    if targetSlot == At(-1) && cfg.doAddTriggersSlots {
      assert ConnectTo(g, cfg, id, s, t, targetSlot) == AttachToTrigger(g, cfg, id, s, t);
      AttachToTriggerReplaces(g, cfg, id, s, t);
    } else {
      assert Prepared(g, cfg, t, targetSlot) == g;
      var ts := if targetSlot.Named? then FindInputSlot(g.nodes[t], targetSlot.name) else targetSlot.index;
      if ts != -1 && ts < |g.nodes[t].inputs| {
        assert ConnectTo(g, cfg, id, s, t, targetSlot) == Attach(g, cfg, id, s, t, ts);
        AttachReplaces(g, cfg, id, s, t, ts);
      }
    }
  }

  /**
   * `graph.removeLink(id)` on a well-formed graph takes exactly that link out
   * of the store, the target input and the origin list, and nothing else;
   * an unknown id changes nothing.
   */
  lemma RemoveLinkSpec(g: Graph, cfg: Config, k: int)
    requires WF(g)
    ensures var g' := RemoveLink(g, cfg, k);
      WF(g') && g'.links == g.links - {k} && (k in g.links ==> Removed(g, g', {k}))
  {
    if k in g.links {
      var l := g.links[k];
      assert LinkRegistered(g, k);
      DisconnectInputRemoves(g, cfg, l.targetId, At(l.targetSlot), true);
      assert Held(g.nodes[l.targetId].inputs[l.targetSlot].link) == {k};
      RemovedKeepsWF(g, RemoveLink(g, cfg, k), {k});
    }
  }
}
