/**
 * `removeInput` and `removeOutput`: dropping a slot renumbers the slots
 * after it, and the renumbering loops move the links of those slots one
 * place down, so that on a well-formed graph the three records of every
 * link still agree afterwards.
 */
module Reshape {
  import opened Base
  import opened Link
  import opened Nodes
  import opened Graphs
  import opened Connections
  import opened Integrity

  // ---------------------------------------------------------------------------
  // The input side
  // ---------------------------------------------------------------------------

  /** The links into node `id` whose target slot lies in `[lo, hi)`, each moved one slot down. */
  function TargetsShifted(links: map<int, LLink>, id: int, lo: int, hi: int): map<int, LLink>
  {
    map k | k in links ::
      if links[k].targetId == id && lo <= links[k].targetSlot < hi
      then links[k].(targetSlot := links[k].targetSlot - 1) else links[k]
  }

  /**
   * The inputs `ins` of node `id` from index `lo` on and the store agree: a
   * plugged input names a stored link that ends there, and a stored link
   * ending at one of those inputs is the one plugged into it.
   */
  ghost predicate InputsAgree(links: map<int, LLink>, ins: seq<Input>, id: int, lo: int)
  {
    (forall j :: 0 <= lo <= j < |ins| && ins[j].link.Some? ==>
       ins[j].link.value in links && links[ins[j].link.value].targetId == id && links[ins[j].link.value].targetSlot == j) &&
    (forall k :: k in links && links[k].targetId == id && 0 <= lo <= links[k].targetSlot ==>
       links[k].targetSlot < |ins| && ins[links[k].targetSlot].link == Some(k))
  }

  /** One turn of the `target_slot--` loop: the input at index `j` moves its link down. */
  lemma ShiftTargetsStep(links: map<int, LLink>, ins: seq<Input>, id: int, lo: int, j: int)
    requires 1 <= lo <= j < |ins| && InputsAgree(links, ins, id, lo)
    ensures var m := TargetsShifted(links, id, lo, j);
      (match ins[j].link
       case None => m
       case Some(k) =>
         if k in m && m[k].targetSlot != 0 then m[k := m[k].(targetSlot := m[k].targetSlot - 1)] else m)
      == TargetsShifted(links, id, lo, j + 1)
  {
    var m := TargetsShifted(links, id, lo, j);
    var m' := TargetsShifted(links, id, lo, j + 1);
    match ins[j].link
    case None =>
      forall x | x in links ensures m[x] == m'[x] {
      }
    case Some(k) =>
      assert m[k] == links[k];
      forall x | x in links && x != k ensures m[x] == m'[x] {
      }
  }

  /** The loop from index `j` on finishes the shift that the turns before `j` began. */
  lemma {:induction false} ShiftTargetsFrom(links: map<int, LLink>, ins: seq<Input>, id: int, lo: int, j: int)
    requires 1 <= lo <= j <= |ins| && InputsAgree(links, ins, id, lo)
    ensures ShiftTargets(TargetsShifted(links, id, lo, j), ins[j..]) == TargetsShifted(links, id, lo, |ins|)
    decreases |ins| - j
  {
    if j < |ins| {
      assert ins[j..][0] == ins[j] && ins[j..][1..] == ins[j + 1..];
      ShiftTargetsStep(links, ins, id, lo, j);
      ShiftTargetsFrom(links, ins, id, lo, j + 1);
    }
  }

  /**
   * The `target_slot--` loop over the inputs from `lo` on moves exactly the
   * links that end at those inputs one slot down. Its truthiness test never
   * fires there, since those links end at slot `lo` or later and `lo` is at
   * least 1.
   */
  lemma ShiftTargetsMovesDown(links: map<int, LLink>, ins: seq<Input>, id: int, lo: int)
    requires 1 <= lo <= |ins| && InputsAgree(links, ins, id, lo)
    ensures ShiftTargets(links, ins[lo..]) == TargetsShifted(links, id, lo, |ins|)
  {
    assert TargetsShifted(links, id, lo, lo) == links;
    ShiftTargetsFrom(links, ins, id, lo, lo);
  }

  /** Node `id` without input `slot`, which is unplugged, and the links after it moved down. */
  ghost predicate InputDropped(g: Graph, g': Graph, id: int, slot: int)
    requires id in g.nodes && 0 <= slot < |g.nodes[id].inputs|
  {
    var ins := g.nodes[id].inputs;
    g' == g.(nodes := g.nodes[id := g.nodes[id].(inputs := RemoveAt(ins, slot))],
             links := TargetsShifted(g.links, id, slot + 1, |ins|))
  }

  /** Dropping an unplugged input and moving the later links down keeps the graph well-formed. */
  lemma InputDroppedKeepsWF(g: Graph, g': Graph, id: int, slot: int)
    requires WF(g) && id in g.nodes && 0 <= slot < |g.nodes[id].inputs|
    requires g.nodes[id].inputs[slot].link.None? && InputDropped(g, g', id, slot)
    ensures WF(g')
  {
    assert SameStore(g, g');
    SameStoreOk(g, g');
    forall k | k in g'.links ensures LinkRegistered(g', k) && k <= g'.lastLinkId {
      InputDroppedKeepsRegistered(g, g', id, slot, k);
    }
    forall x, i | x in g'.nodes && 0 <= i < |g'.nodes[x].inputs| ensures InputBacked(g', x, i) {
      InputDroppedKeepsInput(g, g', id, slot, x, i);
    }
    forall x, i | x in g'.nodes && 0 <= i < |g'.nodes[x].outputs| ensures OutputBacked(g', x, i) {
      InputDroppedKeepsOutput(g, g', id, slot, x, i);
    }
  }

  lemma InputDroppedKeepsRegistered(g: Graph, g': Graph, id: int, slot: int, k: int)
    requires WF(g) && id in g.nodes && 0 <= slot < |g.nodes[id].inputs|
    requires g.nodes[id].inputs[slot].link.None? && InputDropped(g, g', id, slot) && k in g'.links
    ensures LinkRegistered(g', k) && k <= g'.lastLinkId
  {
    assert LinkRegistered(g, k);
    var l := g.links[k];
    if l.targetId == id {
      assert l.targetSlot != slot;
    }
  }

  lemma InputDroppedKeepsInput(g: Graph, g': Graph, id: int, slot: int, x: int, i: int)
    requires WF(g) && id in g.nodes && 0 <= slot < |g.nodes[id].inputs|
    requires g.nodes[id].inputs[slot].link.None? && InputDropped(g, g', id, slot)
    requires x in g'.nodes && 0 <= i < |g'.nodes[x].inputs|
    ensures InputBacked(g', x, i)
  {
    if x == id && i >= slot {
      assert g'.nodes[x].inputs[i] == g.nodes[x].inputs[i + 1];
      assert InputBacked(g, x, i + 1);
    } else {
      assert InputBacked(g, x, i);
    }
  }

  lemma InputDroppedKeepsOutput(g: Graph, g': Graph, id: int, slot: int, x: int, i: int)
    requires WF(g) && id in g.nodes && 0 <= slot < |g.nodes[id].inputs|
    requires g.nodes[id].inputs[slot].link.None? && InputDropped(g, g', id, slot)
    requires x in g'.nodes && 0 <= i < |g'.nodes[x].outputs|
    ensures OutputBacked(g', x, i)
  {
    assert OutputBacked(g, x, i);
  }

  /** On a well-formed graph the inputs of a node and the store agree everywhere. */
  lemma InputsAgreeInWF(g: Graph, id: int, lo: int)
    requires WF(g) && id in g.nodes && 0 <= lo
    ensures InputsAgree(g.links, g.nodes[id].inputs, id, lo)
  {
    var ins := g.nodes[id].inputs;
    forall j | lo <= j < |ins| && ins[j].link.Some?
      ensures ins[j].link.value in g.links && g.links[ins[j].link.value].targetId == id && g.links[ins[j].link.value].targetSlot == j
    {
      assert InputBacked(g, id, j);
    }
    forall k | k in g.links && g.links[k].targetId == id && lo <= g.links[k].targetSlot
      ensures g.links[k].targetSlot < |ins| && ins[g.links[k].targetSlot].link == Some(k)
    {
      assert LinkRegistered(g, k);
    }
  }

  /**
   * `removeInput(slot)` on a well-formed graph, for a non-negative index:
   * the graph stays well-formed. For an existing input, the node loses
   * exactly that input, the link plugged into it (if any) is gone, and the
   * links into the later inputs now name their new, lower index; every
   * other link is as it was. Past the end nothing changes.
   */
  lemma RemoveInputSpec(g: Graph, cfg: Config, id: int, slot: int)
    requires WF(g) && id in g.nodes && 0 <= slot
    ensures var g' := RemoveInput(g, cfg, id, slot); var ins := g.nodes[id].inputs;
      WF(g') &&
      (slot < |ins| ==>
         g'.nodes[id].inputs == RemoveAt(ins, slot) &&
         g'.links == TargetsShifted(g.links - Held(ins[slot].link), id, slot + 1, |ins|)) &&
      (slot >= |ins| ==> g' == g)
  {
    if slot < |g.nodes[id].inputs| {
      RemoveInputInRange(g, cfg, id, slot);
    } else {
      RemoveInputPastEnd(g, cfg, id, slot);
    }
  }

  lemma RemoveInputPastEnd(g: Graph, cfg: Config, id: int, slot: int)
    requires WF(g) && id in g.nodes && |g.nodes[id].inputs| <= slot
    ensures RemoveInput(g, cfg, id, slot) == g
  {
    var n := g.nodes[id];
    assert DisconnectInput(g, cfg, id, At(slot), true).0 == g;
    assert RemoveAt(n.inputs, RelativeIndex(slot, |n.inputs|)) == n.inputs;
    assert g.nodes[id := n] == g.nodes;
    assert DropInput(g, id, slot) == g;
    assert n.inputs[RelativeIndex(slot, |n.inputs|)..] == [];
  }

  lemma RemoveInputInRange(g: Graph, cfg: Config, id: int, slot: int)
    requires WF(g) && id in g.nodes && 0 <= slot < |g.nodes[id].inputs|
    ensures var g' := RemoveInput(g, cfg, id, slot); var ins := g.nodes[id].inputs;
      WF(g') && g'.nodes[id].inputs == RemoveAt(ins, slot) &&
      g'.links == TargetsShifted(g.links - Held(ins[slot].link), id, slot + 1, |ins|)
  {
    var ins := g.nodes[id].inputs;
    var H := Held(ins[slot].link);
    var g1 := DisconnectInput(g, cfg, id, At(slot), true).0;
    DisconnectInputRemoves(g, cfg, id, At(slot), true);
    RemovedKeepsWF(g, g1, H);
    var ins1 := g1.nodes[id].inputs;
    UnpluggedInputs(g, g1, id, slot);
    InputsAgreeInWF(g1, id, slot + 1);
    ShiftTargetsMovesDown(g1.links, ins1, id, slot + 1);
    var g2 := DropInput(g1, id, slot);
    var ins2 := g2.nodes[id].inputs;
    assert ins2[RelativeIndex(slot, |ins2|)..] == ins1[slot + 1..];
    var g' := g2.(links := ShiftTargets(g2.links, ins2[RelativeIndex(slot, |ins2|)..]));
    assert InputDropped(g1, g', id, slot);
    InputDroppedKeepsWF(g1, g', id, slot);
  }

  /** After `disconnectInput(slot)` that input is unplugged and the node's other inputs are as they were. */
  lemma UnpluggedInputs(g: Graph, g1: Graph, id: int, slot: int)
    requires WF(g) && id in g.nodes && 0 <= slot < |g.nodes[id].inputs|
    requires Removed(g, g1, Held(g.nodes[id].inputs[slot].link))
    ensures g1.nodes[id].inputs[slot].link.None?
    ensures RemoveAt(g1.nodes[id].inputs, slot) == RemoveAt(g.nodes[id].inputs, slot)
  {
    var ins := g.nodes[id].inputs;
    var ins1 := g1.nodes[id].inputs;
    assert OnlyLinksDiffer(g.nodes[id], g1.nodes[id]);
    forall i | 0 <= i < |ins| && i != slot ensures ins1[i] == ins[i] {
      assert ins1[i] == ins[i].(link := ins1[i].link);
      assert ins1[i].link == Cleared(ins[i].link, Held(ins[slot].link));
      assert InputBacked(g, id, i) && InputBacked(g, id, slot);
    }
  }

  // ---------------------------------------------------------------------------
  // The output side
  // ---------------------------------------------------------------------------

  /** The links out of node `id` whose origin slot lies in `[lo, hi)`, each moved one slot down. */
  function OriginsShifted(links: map<int, LLink>, id: int, lo: int, hi: int): map<int, LLink>
  {
    map k | k in links ::
      if links[k].originId == id && lo <= links[k].originSlot < hi
      then links[k].(originSlot := links[k].originSlot - 1) else links[k]
  }

  /** The stored links among `ks`, each moved one origin slot down. */
  function OriginsDown(links: map<int, LLink>, ks: seq<int>): map<int, LLink>
  {
    map k | k in links :: if k in ks then links[k].(originSlot := links[k].originSlot - 1) else links[k]
  }

  /**
   * The outputs `outs` of node `id` from index `lo` on and the store agree:
   * each list names, once each, stored links that leave from there, and a
   * stored link leaving from one of those outputs is on its list.
   */
  ghost predicate OutputsAgree(links: map<int, LLink>, outs: seq<Output>, id: int, lo: int)
  {
    (forall j, k :: 0 <= lo <= j < |outs| && outs[j].links.Some? && k in outs[j].links.value ==>
       k in links && links[k].originId == id && links[k].originSlot == j) &&
    (forall j :: 0 <= lo <= j < |outs| && outs[j].links.Some? ==> NoDup(outs[j].links.value)) &&
    (forall k :: k in links && links[k].originId == id && 0 <= lo <= links[k].originSlot ==>
       links[k].originSlot < |outs| && outs[links[k].originSlot].links.Some? && k in outs[links[k].originSlot].links.value)
  }

  /** The inner `origin_slot -= 1` loop over one list with no repeats moves each of its stored links once. */
  lemma {:induction false} ShiftOriginsOfDown(links: map<int, LLink>, ks: seq<int>)
    requires NoDup(ks)
    ensures ShiftOriginsOf(links, ks) == OriginsDown(links, ks)
    decreases |ks|
  {
    if |ks| > 0 {
      var links' := if ks[0] in links then links[ks[0] := links[ks[0]].(originSlot := links[ks[0]].originSlot - 1)] else links;
      assert NoDup(ks[1..]) by {
        forall i, j | 0 <= i < j < |ks[1..]| ensures ks[1..][i] != ks[1..][j] {
          assert ks[1..][i] == ks[i + 1] && ks[1..][j] == ks[j + 1];
        }
      }
      ShiftOriginsOfDown(links', ks[1..]);
      forall x | x in links ensures OriginsDown(links', ks[1..])[x] == OriginsDown(links, ks)[x] {
        if x == ks[0] {
          assert x !in ks[1..] by {
            forall j | 0 <= j < |ks[1..]| ensures ks[1..][j] != ks[0] {
              assert ks[1..][j] == ks[j + 1];
            }
          }
        } else {
          assert x in ks <==> x in ks[1..] by {
            if x in ks {
              var j :| 0 <= j < |ks| && ks[j] == x;
              assert ks[1..][j - 1] == x;
            }
          }
        }
      }
    }
  }

  /** One turn of the outer loop: the output at index `j` moves its links down. */
  lemma ShiftOriginsStep(links: map<int, LLink>, outs: seq<Output>, id: int, lo: int, j: int)
    requires 0 <= lo <= j < |outs| && OutputsAgree(links, outs, id, lo)
    ensures var m := OriginsShifted(links, id, lo, j);
      (match outs[j].links
       case None => m
       case Some(ks) => ShiftOriginsOf(m, ks))
      == OriginsShifted(links, id, lo, j + 1)
  {
    var m := OriginsShifted(links, id, lo, j);
    var m' := OriginsShifted(links, id, lo, j + 1);
    match outs[j].links
    case None =>
      forall x | x in links ensures m[x] == m'[x] {
      }
    case Some(ks) =>
      ShiftOriginsOfDown(m, ks);
      forall x | x in links ensures OriginsDown(m, ks)[x] == m'[x] {
      }
  }

  /** The loop from index `j` on finishes the shift that the turns before `j` began. */
  lemma {:induction false} ShiftOriginsFrom(links: map<int, LLink>, outs: seq<Output>, id: int, lo: int, j: int)
    requires 0 <= lo <= j <= |outs| && OutputsAgree(links, outs, id, lo)
    ensures ShiftOrigins(OriginsShifted(links, id, lo, j), outs[j..]) == OriginsShifted(links, id, lo, |outs|)
    decreases |outs| - j
  {
    if j < |outs| {
      assert outs[j..][0] == outs[j] && outs[j..][1..] == outs[j + 1..];
      ShiftOriginsStep(links, outs, id, lo, j);
      ShiftOriginsFrom(links, outs, id, lo, j + 1);
    }
  }

  /** The `origin_slot -= 1` loops over the outputs from `lo` on move exactly the links that leave from those outputs. */
  lemma ShiftOriginsMovesDown(links: map<int, LLink>, outs: seq<Output>, id: int, lo: int)
    requires 0 <= lo <= |outs| && OutputsAgree(links, outs, id, lo)
    ensures ShiftOrigins(links, outs[lo..]) == OriginsShifted(links, id, lo, |outs|)
  {
    assert OriginsShifted(links, id, lo, lo) == links;
    ShiftOriginsFrom(links, outs, id, lo, lo);
  }

  /** Node `id` without output `slot`, which has no links, and the links after it moved down. */
  ghost predicate OutputDropped(g: Graph, g': Graph, id: int, slot: int)
    requires id in g.nodes && 0 <= slot < |g.nodes[id].outputs|
  {
    var outs := g.nodes[id].outputs;
    g' == g.(nodes := g.nodes[id := g.nodes[id].(outputs := RemoveAt(outs, slot))],
             links := OriginsShifted(g.links, id, slot + 1, |outs|))
  }

  /** An output list that names no link: null or empty. */
  predicate Unlinked(o: Output)
  {
    o.links.None? || o.links == Some([])
  }

  /** Dropping an output without links and moving the later links down keeps the graph well-formed. */
  lemma OutputDroppedKeepsWF(g: Graph, g': Graph, id: int, slot: int)
    requires WF(g) && id in g.nodes && 0 <= slot < |g.nodes[id].outputs|
    requires Unlinked(g.nodes[id].outputs[slot]) && OutputDropped(g, g', id, slot)
    ensures WF(g')
  {
    assert SameStore(g, g');
    SameStoreOk(g, g');
    forall k | k in g'.links ensures LinkRegistered(g', k) && k <= g'.lastLinkId {
      OutputDroppedKeepsRegistered(g, g', id, slot, k);
    }
    forall x, i | x in g'.nodes && 0 <= i < |g'.nodes[x].inputs| ensures InputBacked(g', x, i) {
      OutputDroppedKeepsInput(g, g', id, slot, x, i);
    }
    forall x, i | x in g'.nodes && 0 <= i < |g'.nodes[x].outputs| ensures OutputBacked(g', x, i) {
      OutputDroppedKeepsOutput(g, g', id, slot, x, i);
    }
  }

  lemma OutputDroppedKeepsRegistered(g: Graph, g': Graph, id: int, slot: int, k: int)
    requires WF(g) && id in g.nodes && 0 <= slot < |g.nodes[id].outputs|
    requires Unlinked(g.nodes[id].outputs[slot]) && OutputDropped(g, g', id, slot) && k in g'.links
    ensures LinkRegistered(g', k) && k <= g'.lastLinkId
  {
    assert LinkRegistered(g, k);
    var l := g.links[k];
    if l.originId == id {
      assert l.originSlot != slot;
    }
  }

  lemma OutputDroppedKeepsInput(g: Graph, g': Graph, id: int, slot: int, x: int, i: int)
    requires WF(g) && id in g.nodes && 0 <= slot < |g.nodes[id].outputs|
    requires Unlinked(g.nodes[id].outputs[slot]) && OutputDropped(g, g', id, slot)
    requires x in g'.nodes && 0 <= i < |g'.nodes[x].inputs|
    ensures InputBacked(g', x, i)
  {
    assert InputBacked(g, x, i);
  }

  lemma OutputDroppedKeepsOutput(g: Graph, g': Graph, id: int, slot: int, x: int, i: int)
    requires WF(g) && id in g.nodes && 0 <= slot < |g.nodes[id].outputs|
    requires Unlinked(g.nodes[id].outputs[slot]) && OutputDropped(g, g', id, slot)
    requires x in g'.nodes && 0 <= i < |g'.nodes[x].outputs|
    ensures OutputBacked(g', x, i)
  {
    if x == id && i >= slot {
      assert g'.nodes[x].outputs[i] == g.nodes[x].outputs[i + 1];
      assert OutputBacked(g, x, i + 1);
    } else {
      assert OutputBacked(g, x, i);
    }
  }

  /** On a well-formed graph the outputs of a node and the store agree everywhere. */
  lemma OutputsAgreeInWF(g: Graph, id: int, lo: int)
    requires WF(g) && id in g.nodes && 0 <= lo
    ensures OutputsAgree(g.links, g.nodes[id].outputs, id, lo)
  {
    var outs := g.nodes[id].outputs;
    forall j, k | lo <= j < |outs| && outs[j].links.Some? && k in outs[j].links.value
      ensures k in g.links && g.links[k].originId == id && g.links[k].originSlot == j
    {
      assert OutputBacked(g, id, j);
    }
    forall j | lo <= j < |outs| && outs[j].links.Some? ensures NoDup(outs[j].links.value) {
      assert OutputBacked(g, id, j);
    }
    forall k | k in g.links && g.links[k].originId == id && lo <= g.links[k].originSlot
      ensures g.links[k].originSlot < |outs| && outs[g.links[k].originSlot].links.Some? && k in outs[g.links[k].originSlot].links.value
    {
      assert LinkRegistered(g, k);
    }
  }

  /** The ids an output list names. */
  function Named(links: Option<seq<int>>): set<int>
  {
    if links.Some? then Listed(links.value) else {}
  }

  /**
   * `removeOutput(slot)` on a well-formed graph, for a non-negative index:
   * it does not throw and the graph stays well-formed. For an existing
   * output, the node loses exactly that output, the links of that output are
   * gone, and the links out of the later outputs now name their new, lower
   * index; every other link is as it was. Past the end nothing changes.
   */
  lemma RemoveOutputSpec(g: Graph, cfg: Config, id: int, slot: int)
    requires WF(g) && id in g.nodes && 0 <= slot
    ensures var r := RemoveOutput(g, cfg, id, slot); var outs := g.nodes[id].outputs;
      r.Done? && WF(r.g) &&
      (slot < |outs| ==>
         |r.g.nodes[id].outputs| == |outs| - 1 && r.g.nodes[id].outputs == RemoveAt(outs, slot) &&
         r.g.links == OriginsShifted(g.links - Named(outs[slot].links), id, slot + 1, |outs|)) &&
      (slot >= |outs| ==> r.g == g)
  {
    if slot < |g.nodes[id].outputs| {
      RemoveOutputInRange(g, cfg, id, slot);
    } else {
      RemoveOutputPastEnd(g, cfg, id, slot);
    }
  }

  lemma RemoveOutputPastEnd(g: Graph, cfg: Config, id: int, slot: int)
    requires WF(g) && id in g.nodes && |g.nodes[id].outputs| <= slot
    ensures RemoveOutput(g, cfg, id, slot) == Done(g, ())
  {
    var n := g.nodes[id];
    assert DisconnectOutput(g, cfg, id, At(slot), NoNode, true) == Done(g, false);
    assert RemoveAt(n.outputs, slot) == n.outputs;
    assert g.nodes[id := n] == g.nodes;
    assert DropOutput(g, id, slot) == g;
    assert n.outputs[RelativeIndex(slot, |n.outputs|)..] == [];
  }

  /** `disconnectOutput(slot)` takes out the links the output names and leaves it without links. */
  lemma DisconnectOutputEmpties(g: Graph, cfg: Config, id: int, slot: int)
    requires WF(g) && id in g.nodes && 0 <= slot < |g.nodes[id].outputs|
    ensures var r := DisconnectOutput(g, cfg, id, At(slot), NoNode, true);
      r.Done? && Removed(g, r.g, Named(g.nodes[id].outputs[slot].links)) && Unlinked(r.g.nodes[id].outputs[slot])
  {
    var o := g.nodes[id].outputs[slot];
    DisconnectOutputRemoves(g, cfg, id, At(slot), NoNode, true);
    if o.links.None? || o.links == Some([]) {
      RemovedNothing(g, g);
      assert Named(o.links) == {};
    }
  }

  lemma RemoveOutputInRange(g: Graph, cfg: Config, id: int, slot: int)
    requires WF(g) && id in g.nodes && 0 <= slot < |g.nodes[id].outputs|
    ensures var r := RemoveOutput(g, cfg, id, slot); var outs := g.nodes[id].outputs;
      r.Done? && WF(r.g) && |r.g.nodes[id].outputs| == |outs| - 1 &&
      r.g.links == OriginsShifted(g.links - Named(outs[slot].links), id, slot + 1, |outs|)
  {
    var R := Named(g.nodes[id].outputs[slot].links);
    var r1 := DisconnectOutput(g, cfg, id, At(slot), NoNode, true);
    DisconnectOutputEmpties(g, cfg, id, slot);
    var g1 := r1.g;
    RemovedKeepsWF(g, g1, R);
    var outs1 := g1.nodes[id].outputs;
    OutputsAgreeInWF(g1, id, slot + 1);
    ShiftOriginsMovesDown(g1.links, outs1, id, slot + 1);
    var g2 := DropOutput(g1, id, slot);
    var outs2 := g2.nodes[id].outputs;
    assert outs2[RelativeIndex(slot, |outs2|)..] == outs1[slot + 1..];
    var g' := g2.(links := ShiftOrigins(g2.links, outs2[RelativeIndex(slot, |outs2|)..]));
    assert OutputDropped(g1, g', id, slot);
    OutputDroppedKeepsWF(g1, g', id, slot);
  }
}
