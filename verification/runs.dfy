/**
 * What running nodes guarantees: execution never rewires a graph, a
 * `doExecute` call runs its callback exactly when no guard stops it,
 * deferred actions are queued by `triggerSlot` and replayed by
 * `executePendingActions` in order, and a step keeps a well-formed graph
 * well-formed.
 *
 * Callbacks are general scripts in the model; several facts below are
 * stated for quiet callbacks, which only write outputs, so that the log
 * holds nothing but the calls under study.
 */
module Runs {
  import opened Base
  import opened SlotTypes
  import opened Link
  import opened Nodes
  import opened Graphs
  import opened Connections
  import opened Order
  import opened Ancestors
  import opened Dataflow
  import opened Execution

  // ---------------------------------------------------------------------------
  // Execution keeps the wiring, hence well-formedness
  // ---------------------------------------------------------------------------

  /** Two nodes with the same bones have the same id, mode, callbacks, inputs and output link lists. */
  lemma BonesKeep(n: Node, n': Node)
    requires Bones(n') == Bones(n)
    ensures n'.id == n.id && n'.mode == n.mode && n'.inputs == n.inputs
    ensures n'.onExecute == n.onExecute && n'.onAction == n.onAction
    ensures |n'.outputs| == |n.outputs|
    ensures forall i :: 0 <= i < |n.outputs| ==> n'.outputs[i].links == n.outputs[i].links
  {
    var d, d' := Dry(n.outputs), Dry(n'.outputs);
    assert |d'| == |d|;
    forall i | 0 <= i < |n.outputs| ensures n'.outputs[i].links == n.outputs[i].links {
      assert d'[i] == d[i];
    }
  }

  /** Running nodes moves no link: a well-formed graph stays well-formed. */
  lemma SameWiringKeepsWF(g: Graph, g': Graph)
    requires WF(g) && SameWiring(g, g')
    ensures WF(g')
  {
    SameWiringStoreOk(g, g');
    SameWiringMeans(g, g');
    forall k | k in g'.links ensures LinkRegistered(g', k) && k <= g'.lastLinkId {
      KeepsRegistered(g, g', k);
    }
    forall x, i | x in g'.nodes && 0 <= i < |g'.nodes[x].inputs| ensures InputBacked(g', x, i) {
      KeepsInput(g, g', x, i);
    }
    forall x, i | x in g'.nodes && 0 <= i < |g'.nodes[x].outputs| ensures OutputBacked(g', x, i) {
      KeepsOutput(g, g', x, i);
    }
  }

  lemma KeepsRegistered(g: Graph, g': Graph, k: int)
    requires WF(g) && SameWiring(g, g') && k in g'.links
    ensures LinkRegistered(g', k) && k <= g'.lastLinkId
  {
    SameWiringMeans(g, g');
    assert LinkRegistered(g, k);
    var l := g.links[k];
    assert SameEnds(l, g'.links[k]);
    var o, t := l.originId, l.targetId;
    BonesKeep(g.nodes[o], g'.nodes[o]);
    BonesKeep(g.nodes[t], g'.nodes[t]);
    assert g'.nodes[o].outputs[l.originSlot].links == g.nodes[o].outputs[l.originSlot].links;
    assert g'.nodes[t].inputs[l.targetSlot] == g.nodes[t].inputs[l.targetSlot];
  }

  lemma KeepsInput(g: Graph, g': Graph, x: int, i: int)
    requires WF(g) && SameWiring(g, g') && x in g'.nodes && 0 <= i < |g'.nodes[x].inputs|
    ensures InputBacked(g', x, i)
  {
    SameWiringMeans(g, g');
    BonesKeep(g.nodes[x], g'.nodes[x]);
    assert InputBacked(g, x, i);
    var link := g.nodes[x].inputs[i].link;
    if link.Some? {
      assert SameEnds(g.links[link.value], g'.links[link.value]);
    }
  }

  lemma KeepsOutput(g: Graph, g': Graph, x: int, i: int)
    requires WF(g) && SameWiring(g, g') && x in g'.nodes && 0 <= i < |g'.nodes[x].outputs|
    ensures OutputBacked(g', x, i)
  {
    SameWiringMeans(g, g');
    BonesKeep(g.nodes[x], g'.nodes[x]);
    assert OutputBacked(g, x, i);
    var o := g.nodes[x].outputs[i];
    if o.links.Some? {
      forall k | k in o.links.value ensures k in g'.links && g'.links[k].originId == x && g'.links[k].originSlot == i {
        assert SameEnds(g.links[k], g'.links[k]);
      }
    }
  }

  /** `runStep` keeps a well-formed graph well-formed, whether it completes or throws. */
  lemma RunStepKeepsWF(g: Graph, cfg: Config, num: int, doNotCatch: bool, asWritten: bool, fuel: nat)
    requires WF(g)
    ensures WF(RunStep(g, cfg, num, doNotCatch, asWritten, fuel).g)
  {
    var r1 := Passes(g, cfg, StepNodes(g), 0, num, asWritten, fuel);
    SameWiringKeepsWF(g, r1.g);
    var g1 := r1.g.(errorsInExecution := true);
    assert WF(g1) by { assert SameWiring(r1.g, g1); SameWiringKeepsWF(r1.g, g1); }
    assert WF(EndStep(r1.g)) by { KeepsWFOutsideWiring(r1.g, EndStep(r1.g)); }
    assert WF(EndStep(g1.(status := Stopped))) by { KeepsWFOutsideWiring(g1, EndStep(g1.(status := Stopped))); }
    assert WF(EndStep(r1.g.(errorsInExecution := false))) by {
      KeepsWFOutsideWiring(r1.g, EndStep(r1.g.(errorsInExecution := false)));
    }
  }

  /** A graph that keeps the node store, the links and the counters keeps well-formedness. */
  lemma KeepsWFOutsideWiring(g: Graph, g': Graph)
    requires WF(g) && g'.nodes == g.nodes && g'.nodeList == g.nodeList && g'.links == g.links && g'.lastLinkId == g.lastLinkId
    ensures WF(g')
  {
    forall k | k in g'.links ensures LinkRegistered(g', k) && k <= g'.lastLinkId {
      assert LinkRegistered(g, k);
    }
    forall x, i | x in g'.nodes && 0 <= i < |g'.nodes[x].inputs| ensures InputBacked(g', x, i) {
      assert InputBacked(g, x, i);
    }
    forall x, i | x in g'.nodes && 0 <= i < |g'.nodes[x].outputs| ensures OutputBacked(g', x, i) {
      assert OutputBacked(g, x, i);
    }
  }

  // ---------------------------------------------------------------------------
  // Quiet callbacks
  // ---------------------------------------------------------------------------

  /** A callback that only writes outputs. */
  predicate Quiet(script: seq<Cmd>)
  {
    forall i :: 0 <= i < |script| ==> script[i].SetOutput?
  }

  /** A quiet callback completes and changes nothing but node and link data. */
  lemma {:induction false} RunQuiet(g: Graph, cfg: Config, id: int, script: seq<Cmd>, i: nat, asWritten: bool, fuel: nat)
    requires StoreOk(g) && id in g.nodes && i <= |script| && Quiet(script)
    ensures var r := RunScript(g, cfg, id, script, i, asWritten, fuel);
      r.Done? && r.g == g.(nodes := r.g.nodes, links := r.g.links)
    decreases |script| - i
  {
    if i < |script| {
      var c := script[i];
      assert c.SetOutput?;
      var r1 := WriteOutput(g, id, c.slot, c.value);
      assert RunCmd(g, cfg, id, c, asWritten, fuel) == r1;
      SameWiringMeans(g, r1.g);
      assert RunScript(g, cfg, id, script, i, asWritten, fuel) == RunScript(r1.g, cfg, id, script, i + 1, asWritten, fuel);
      RunQuiet(r1.g, cfg, id, script, i + 1, asWritten, fuel);
    }
  }

  /** `doExecute(param, {action_call: c})` stopped by a guard changes nothing, whatever the node's callback. */
  lemma DoExecuteGuarded(g: Graph, cfg: Config, id: int, param: JsVal, c: string, asWritten: bool, fuel: nat)
    requires StoreOk(g) && id in g.nodes && g.nodes[id].onExecute.Some?
    ensures ExecGuarded(g, cfg, id, c) ==> DoExecute(g, cfg, id, param, Some(c), asWritten, fuel) == Done(g, ())
  {
    assert GivenOrFresh(g, Some(c), id, "exec") == (g, c);
  }

  /**
   * `doExecute(param, {action_call: c})` on a node with a quiet `onExecute`
   * and stack to spare, when no guard stops it: the callback runs, logged
   * once, the node is left not executing, stamped with the current
   * iteration and, for a non-empty `c`, with `c` recorded, and then
   * `onAfterExecuteNode` runs with the same parameter and call id, which
   * does nothing for a node without an "onExecuted" output.
   */
  lemma DoExecuteRunsUnlessGuarded(g: Graph, cfg: Config, id: int, param: JsVal, c: string, asWritten: bool, f: nat)
    requires StoreOk(g) && id in g.nodes && g.nodes[id].onExecute.Some? && Quiet(g.nodes[id].onExecute.value)
    ensures var r0 := InvokeExecute(g, cfg, id, param, c, asWritten, f + 1);
      !ExecGuarded(g, cfg, id, c) ==>
        r0.Done? && r0.g.log == g.log + [Executed(id, param, Some(c))] &&
        !Busy(r0.g, id) && r0.g.nodes[id].execVersion == Some(g.iteration) &&
        (c != "" ==> id in r0.g.executedAction && r0.g.executedAction[id] == c) &&
        DoExecute(g, cfg, id, param, Some(c), asWritten, f + 1) == AfterHook(r0.g, cfg, id, param, Some(c), asWritten, f + 1) &&
        (FindOutputSlot(g.nodes[id], "onExecuted") == -1 ==> DoExecute(g, cfg, id, param, Some(c), asWritten, f + 1) == r0)
  {
    assert GivenOrFresh(g, Some(c), id, "exec") == (g, c);
    if !ExecGuarded(g, cfg, id, c) {
      InvokeQuiet(g, cfg, id, param, c, asWritten, f);
      var r0 := InvokeExecute(g, cfg, id, param, c, asWritten, f + 1);
      HookOutputKept(g, r0.g, id);
    }
  }

  /** Running callbacks keeps the position of a node's "onExecuted" output. */
  lemma HookOutputKept(g: Graph, g': Graph, id: int)
    requires SameWiring(g, g') && id in g.nodes
    ensures id in g'.nodes && FindOutputSlot(g'.nodes[id], "onExecuted") == FindOutputSlot(g.nodes[id], "onExecuted")
  {
    SameWiringMeans(g, g');
    var o, o' := g.nodes[id].outputs, g'.nodes[id].outputs;
    assert Dry(o') == Dry(o) by {
      assert Bones(g'.nodes[id]).outputs == Bones(g.nodes[id]).outputs;
    }
    assert |o'| == |o| && forall i :: 0 <= i < |o| ==> o'[i].name == o[i].name by {
      forall i | 0 <= i < |o| ensures o'[i].name == o[i].name {
        assert Dry(o')[i] == Dry(o)[i];
      }
    }
  }

  /** The callback of a quiet `onExecute` completes, logged once, and leaves the node as `AfterExecute` stamps it. */
  lemma InvokeQuiet(g: Graph, cfg: Config, id: int, param: JsVal, c: string, asWritten: bool, f: nat)
    requires StoreOk(g) && id in g.nodes && g.nodes[id].onExecute.Some? && Quiet(g.nodes[id].onExecute.value)
    ensures var r := InvokeExecute(g, cfg, id, param, c, asWritten, f + 1);
      r.Done? && r.g.log == g.log + [Executed(id, param, Some(c))] &&
      !Busy(r.g, id) && r.g.nodes[id].execVersion == Some(g.iteration) &&
      (c != "" ==> id in r.g.executedAction && r.g.executedAction[id] == c)
  {
    var g2 := g.(executing := g.executing[id := true], log := g.log + [Executed(id, param, Some(c))]);
    RunQuiet(g2, cfg, id, g.nodes[id].onExecute.value, 0, asWritten, f);
  }

  /** A quiet `onAction` called with a non-empty call id `c` completes, records `c` for the node and leaves it idle. */
  lemma InvokeActionQuiet(g: Graph, cfg: Config, id: int, action: string, param: JsVal, c: string, slot: int, asWritten: bool, f: nat)
    requires StoreOk(g) && id in g.nodes && g.nodes[id].onAction.Some? && Quiet(g.nodes[id].onAction.value) && c != ""
    ensures var r := InvokeAction(g, cfg, id, action, param, c, slot, asWritten, f + 1);
      r.Done? && AlreadyCalled(r.g, id, c) && id in r.g.actioning && r.g.actioning[id] == Idle
  {
    var g1 := g.(actioning := g.actioning[id := Actioning(action)], log := g.log + [Actioned(id, action, param, Some(c), slot)]);
    RunQuiet(g1, cfg, id, g.nodes[id].onAction.value, 0, asWritten, f);
  }

  /**
   * `actionDo(action, param, {action_call: c})` twice in a row on a node
   * with a quiet `onAction`, no "onExecuted" output and
   * `ensureUniqueExecutionAndActionCall` on: the first call runs `onAction`
   * and records `c`, so the guard catches the second. As written the second
   * call throws a ReferenceError; as intended it returns with nothing
   * changed.
   */
  lemma RepeatedActionCall(g: Graph, cfg: Config, id: int, action: string, param: JsVal, c: string, slot: int, asWritten: bool, f: nat)
    requires StoreOk(g) && id in g.nodes && g.nodes[id].onAction.Some? && Quiet(g.nodes[id].onAction.value) && c != ""
    requires FindOutputSlot(g.nodes[id], "onExecuted") == -1
    requires cfg.ensureUniqueExecutionAndActionCall && !AlreadyCalled(g, id, c)
    requires !(cfg.ensureNodeSingleAction && id in g.actioning && g.actioning[id] == Str(c))
    ensures var r := ActionDo(g, cfg, id, action, param, Some(c), slot, asWritten, f + 1);
      r.Done? &&
      ActionDo(r.g, cfg, id, action, param, Some(c), slot, true, f + 1) == Threw(r.g, ReferenceError) &&
      ActionDo(r.g, cfg, id, action, param, Some(c), slot, false, f + 1) == Done(r.g, ())
  {
    var r1 := InvokeAction(g, cfg, id, action, param, c, slot, asWritten, f + 1);
    ActionDoUnguarded(g, cfg, id, action, param, c, slot, asWritten, f);
    KeepsCallbacks(g, r1.g, id);
    assert UniqueGuardHits(r1.g, cfg, id, Some(c));
  }

  /** The first of the two calls: no guard stops it, so it is the quiet `onAction` call and its (empty) after-execute hook. */
  lemma ActionDoUnguarded(g: Graph, cfg: Config, id: int, action: string, param: JsVal, c: string, slot: int, asWritten: bool, f: nat)
    requires StoreOk(g) && id in g.nodes && g.nodes[id].onAction.Some? && Quiet(g.nodes[id].onAction.value) && c != ""
    requires FindOutputSlot(g.nodes[id], "onExecuted") == -1
    requires !(cfg.ensureUniqueExecutionAndActionCall && AlreadyCalled(g, id, c))
    requires !(cfg.ensureNodeSingleAction && id in g.actioning && g.actioning[id] == Str(c))
    ensures var r1 := InvokeAction(g, cfg, id, action, param, c, slot, asWritten, f + 1);
      r1.Done? && AlreadyCalled(r1.g, id, c) && id in r1.g.actioning && r1.g.actioning[id] == Idle &&
      ActionDo(g, cfg, id, action, param, Some(c), slot, asWritten, f + 1) == r1
  {
    assert GivenOrFresh(g, Some(c), id, ActionKind(action)) == (g, c);
    var r1 := InvokeAction(g, cfg, id, action, param, c, slot, asWritten, f + 1);
    InvokeActionQuiet(g, cfg, id, action, param, c, slot, asWritten, f);
    HookOutputKept(g, r1.g, id);
  }

  /** A node `doExecute` leaves alone: no `onExecute` and no "onExecuted" output. */
  predicate Passive(n: Node)
  {
    n.onExecute.None? && FindOutputSlot(n, "onExecuted") == -1
  }

  /** Node `x` is marked done in `m`. */
  predicate Marked(m: map<int, bool>, x: int)
  {
    x in m && m[x]
  }

  /** `m` with `anc[j..]` marked done, one after the other. */
  function MarkAll(m: map<int, bool>, anc: seq<int>, j: nat): (m': map<int, bool>)
    requires j <= |anc|
    decreases |anc| - j
  {
    if j == |anc| then m else MarkAll(m[anc[j] := true], anc, j + 1)
  }

  /** Marking keeps what was marked and marks every node it is given. */
  lemma {:induction false} MarkAllMarks(m: map<int, bool>, anc: seq<int>, j: nat)
    requires j <= |anc|
    ensures forall x :: Marked(m, x) ==> Marked(MarkAll(m, anc, j), x)
    ensures forall i :: j <= i < |anc| ==> Marked(MarkAll(m, anc, j), anc[i])
    decreases |anc| - j
  {
    if j < |anc| {
      var m2 := m[anc[j] := true];
      MarkAllMarks(m2, anc, j + 1);
      assert Marked(m2, anc[j]);
      assert forall x :: Marked(m, x) ==> Marked(m2, x);
    }
  }

  /** The loop of `refreshAncestors` over passive ancestors only marks each of them done. */
  lemma {:induction false} RunPassive(g: Graph, cfg: Config, anc: seq<int>, j: nat, p: JsVal, c: string, asWritten: bool, fuel: nat)
    requires StoreOk(g) && j <= |anc| && (forall i :: 0 <= i < |anc| ==> anc[i] in g.nodes)
    requires forall i :: j <= i < |anc| ==> Passive(g.nodes[anc[i]])
    ensures RunAncestors(g, cfg, anc, j, p, c, asWritten, fuel) == Done(g.(ancestorsDone := MarkAll(g.ancestorsDone, anc, j)), ())
    decreases |anc| - j
  {
    if j < |anc| {
      var g2 := g.(ancestorsDone := g.ancestorsDone[anc[j] := true]);
      PassiveSkipped(g, cfg, anc, j, p, c, asWritten, fuel);
      RunPassive(g2, cfg, anc, j + 1, p, c, asWritten, fuel);
    }
  }

  /** One round of that loop on a passive ancestor: mark it and go on. */
  lemma PassiveSkipped(g: Graph, cfg: Config, anc: seq<int>, j: nat, p: JsVal, c: string, asWritten: bool, fuel: nat)
    requires StoreOk(g) && j < |anc| && (forall i :: 0 <= i < |anc| ==> anc[i] in g.nodes) && Passive(g.nodes[anc[j]])
    ensures var g2 := g.(ancestorsDone := g.ancestorsDone[anc[j] := true]);
      RunAncestors(g, cfg, anc, j, p, c, asWritten, fuel) == RunAncestors(g2, cfg, anc, j + 1, p, c, asWritten, fuel)
  {
    assert DoExecute(g, cfg, anc[j], p, Some(c), asWritten, fuel) == Done(g, ());
  }

  /**
   * `refreshAncestors` as intended, for a node whose ancestors are all
   * passive: it completes with triggering unblocked, the node and each
   * ancestor marked done, and nothing else changed.
   */
  lemma RefreshPassiveAncestors(g: Graph, cfg: Config, id: int, action: string, param: JsVal, call: Option<string>, fuel: nat)
    requires StoreOk(g) && id in g.nodes && !Prevented(g, cfg, id) && !g.ancestorsCall
    requires var anc := BlockedList(g, id); forall i :: 0 <= i < |anc| ==> Passive(g.nodes[anc[i]])
    ensures var r := RefreshAncestors(g, cfg, id, action, param, call, false, fuel); var anc := BlockedList(g, id);
      r.Done? && r.g == g.(ancestorsDone := r.g.ancestorsDone) &&
      Marked(r.g.ancestorsDone, id) && forall i :: 0 <= i < |anc| ==> Marked(r.g.ancestorsDone, anc[i])
  {
    var anc := BlockedList(g, id);
    RefreshPassiveUnfold(g, cfg, id, action, param, call, fuel);
    MarkAllThen(g.ancestorsDone, anc, id);
  }

  /** Marking `anc` and then `id` marks all of them. */
  lemma MarkAllThen(m: map<int, bool>, anc: seq<int>, id: int)
    ensures var m' := MarkAll(m, anc, 0)[id := true];
      Marked(m', id) && forall i :: 0 <= i < |anc| ==> Marked(m', anc[i])
  {
    var m1 := MarkAll(m, anc, 0);
    MarkAllMarks(m, anc, 0);
    forall i | 0 <= i < |anc| ensures Marked(m1[id := true], anc[i]) {
      assert Marked(m1, anc[i]);
    }
  }

  /**
   * The same call as written: the undeclared `iN` throws a ReferenceError as
   * soon as there is an ancestor, whatever the ancestors are, and leaves
   * `ancestorsCall` set, so every later `triggerSlot` of the graph does
   * nothing.
   */
  lemma RefreshThrowsAsWritten(g: Graph, cfg: Config, id: int, action: string, param: JsVal, call: Option<string>, fuel: nat)
    requires StoreOk(g) && id in g.nodes && !Prevented(g, cfg, id) && BlockedList(g, id) != []
    ensures var r := RefreshAncestors(g, cfg, id, action, param, call, true, fuel);
      r == Threw(g.(ancestorsCall := true), ReferenceError) &&
      forall x, slot, p, lk, c, aw, f | x in r.g.nodes :: Execution.TriggerSlot(r.g, cfg, x, slot, p, lk, c, aw, f) == Done(r.g, ())
  {
    var b := Block(g);
    var P, C := AncestorsParam(id, param), AncestorsCall(id, action, call);
    assert RefreshAncestors(g, cfg, id, action, param, call, true, fuel) == RefreshRun(b, cfg, id, P, C, true, fuel);
  }

  /** The intended `refreshAncestors` over passive ancestors, step by step. */
  lemma RefreshPassiveUnfold(g: Graph, cfg: Config, id: int, action: string, param: JsVal, call: Option<string>, fuel: nat)
    requires StoreOk(g) && id in g.nodes && !Prevented(g, cfg, id) && !g.ancestorsCall
    requires var anc := BlockedList(g, id); forall i :: 0 <= i < |anc| ==> Passive(g.nodes[anc[i]])
    ensures RefreshAncestors(g, cfg, id, action, param, call, false, fuel) ==
      Done(g.(ancestorsDone := MarkAll(g.ancestorsDone, BlockedList(g, id), 0)[id := true]), ())
  {
    var b := Block(g);
    var anc := RefreshList(b, id);
    assert anc == BlockedList(g, id);
    var P, C := AncestorsParam(id, param), AncestorsCall(id, action, call);
    RunPassive(b, cfg, anc, 0, P, C, false, fuel);
    var r1 := RunAncestors(b, cfg, anc, 0, P, C, false, fuel);
    assert RefreshAncestors(g, cfg, id, action, param, call, false, fuel) == RefreshRun(b, cfg, id, P, C, false, fuel);
    assert RefreshRun(b, cfg, id, P, C, false, fuel) == Done(Unblock(r1.g, id), ());
  }

  /** An output `trigger(action)` fires: of type EVENT, and named `action` unless that is empty. */
  predicate Selected(o: Output, action: string)
  {
    o.otype == EVENT && (action == "" || o.name == action)
  }

  /**
   * `trigger(action, param)` does nothing while ancestors are being
   * refreshed, and nothing on a node none of whose outputs is an EVENT
   * output named `action` (any EVENT output for an empty `action`).
   */
  lemma TriggerInert(g: Graph, cfg: Config, id: int, action: string, param: JsVal, asWritten: bool, fuel: nat)
    requires StoreOk(g) && id in g.nodes
    requires g.ancestorsCall || forall j :: 0 <= j < |g.nodes[id].outputs| ==> !Selected(g.nodes[id].outputs[j], action)
    ensures Execution.Trigger(g, cfg, id, action, param, asWritten, fuel) == Done(g, ())
  {
    var outs := g.nodes[id].outputs;
    assert Inert(g, outs, 0, action);
    var j := 0;
    while j < |outs|
      invariant j <= |outs| && Inert(g, outs, j, action)
      invariant TriggerFrom(g, cfg, id, outs, 0, action, param, asWritten, fuel) == TriggerFrom(g, cfg, id, outs, j, action, param, asWritten, fuel)
    {
      TriggerFromSkips(g, cfg, id, outs, j, action, param, asWritten, fuel);
      j := j + 1;
    }
    TriggerFromEnd(g, cfg, id, outs, action, param, asWritten, fuel);
  }

  /** Nothing the loop of `trigger` reaches from output `i` on can fire. */
  predicate Inert(g: Graph, outs: seq<Output>, i: nat, action: string)
  {
    g.ancestorsCall || forall j :: i <= j < |outs| ==> !Selected(outs[j], action)
  }

  lemma TriggerFromEnd(g: Graph, cfg: Config, id: int, outs: seq<Output>, action: string, param: JsVal, asWritten: bool, fuel: nat)
    requires StoreOk(g) && id in g.nodes
    ensures TriggerFrom(g, cfg, id, outs, |outs|, action, param, asWritten, fuel) == Done(g, ())
  {
  }

  /** The loop of `trigger` passes over an output that cannot fire. */
  lemma TriggerFromSkips(g: Graph, cfg: Config, id: int, outs: seq<Output>, i: nat, action: string, param: JsVal,
                         asWritten: bool, fuel: nat)
    requires StoreOk(g) && id in g.nodes && i < |outs| && Inert(g, outs, i, action)
    ensures Inert(g, outs, i + 1, action)
    ensures TriggerFrom(g, cfg, id, outs, i, action, param, asWritten, fuel) == TriggerFrom(g, cfg, id, outs, i + 1, action, param, asWritten, fuel)
  {
    if Selected(outs[i], action) {
      assert Execution.TriggerSlot(g, cfg, id, i, param, None, None, asWritten, fuel) == Done(g, ());
    }
  }

  // ---------------------------------------------------------------------------
  // Deferred actions
  // ---------------------------------------------------------------------------

  /** The log entries of `onAction` calls replaying the queue `q` of node `id`, in order. */
  function Replayed(id: int, q: seq<Deferred>): (es: seq<Event>)
    ensures |es| == |q|
    ensures forall i :: 0 <= i < |q| ==> es[i] == Replay1(id, q[i])
  {
    seq(|q|, i requires 0 <= i < |q| => Replay1(id, q[i]))
  }

  lemma ReplayedCons(id: int, q: seq<Deferred>, k: nat)
    requires k < |q|
    ensures Replayed(id, q[k..]) == [Replay1(id, q[k])] + Replayed(id, q[k + 1..])
  {
    var a, b := Replayed(id, q[k..]), [Replay1(id, q[k])] + Replayed(id, q[k + 1..]);
    assert forall i :: 0 <= i < |a| ==> a[i] == b[i];
  }

  /** One replayed call of a quiet `onAction` completes and logs exactly that call. */
  lemma ReplayQuiet(g: Graph, cfg: Config, id: int, e: Deferred, asWritten: bool, fuel: nat)
    requires StoreOk(g) && id in g.nodes
    requires g.nodes[id].onAction.Some? && Quiet(g.nodes[id].onAction.value)
    ensures var r := ReplayEntry(g, cfg, id, e, asWritten, fuel);
      r.Done? && r.g.log == g.log + [Replay1(id, e)] && r.g.executing == g.executing
  {
    var g1, script := Logged(g, Replay1(id, e)), g.nodes[id].onAction.value;
    RunQuiet(g1, cfg, id, script, 0, asWritten, fuel);
    assert ReplayEntry(g, cfg, id, e, asWritten, fuel) == RunScript(g1, cfg, id, script, 0, asWritten, fuel);
  }

  /** Running callbacks keeps every node's callbacks. */
  lemma KeepsCallbacks(g: Graph, g': Graph, id: int)
    requires SameWiring(g, g') && id in g.nodes
    ensures id in g'.nodes && g'.nodes[id].onAction == g.nodes[id].onAction && g'.nodes[id].onExecute == g.nodes[id].onExecute
    ensures g'.nodes[id].mode == g.nodes[id].mode
  {
    SameWiringMeans(g, g');
    BonesKeep(g.nodes[id], g'.nodes[id]);
  }

  /** With a quiet `onAction`, the loop of `executePendingActions` from `q[k]` calls `onAction` once per entry, in queue order. */
  lemma {:induction false} DrainInOrder(g: Graph, cfg: Config, id: int, q: seq<Deferred>, k: nat, asWritten: bool, fuel: nat)
    requires StoreOk(g) && id in g.nodes && k <= |q|
    requires g.nodes[id].onAction.Some? && Quiet(g.nodes[id].onAction.value)
    ensures var r := DrainQueue(g, cfg, id, q, k, asWritten, fuel);
      r.Done? && r.g.log == g.log + Replayed(id, q[k..]) && r.g.executing == g.executing
    decreases |q| - k
  {
    if k < |q| {
      var r1 := ReplayEntry(g, cfg, id, q[k], asWritten, fuel);
      ReplayQuiet(g, cfg, id, q[k], asWritten, fuel);
      KeepsCallbacks(g, r1.g, id);
      assert DrainQueue(g, cfg, id, q, k, asWritten, fuel) == DrainQueue(r1.g, cfg, id, q, k + 1, asWritten, fuel);
      DrainInOrder(r1.g, cfg, id, q, k + 1, asWritten, fuel);
      ReplayedCons(id, q, k);
      AppendOne(g.log, Replay1(id, q[k]), Replayed(id, q[k + 1..]));
    } else {
      assert Replayed(id, q[k..]) == [];
    }
  }

  lemma AppendOne<T>(a: seq<T>, x: T, b: seq<T>)
    ensures (a + [x]) + b == a + ([x] + b)
  {
  }

  /**
   * `executePendingActions()` with a quiet `onAction`: one `onAction` call
   * per queued entry, in the order the entries were queued, and an empty
   * queue afterwards.
   */
  lemma PendingInOrder(g: Graph, cfg: Config, id: int, asWritten: bool, fuel: nat)
    requires StoreOk(g) && id in g.nodes
    requires g.nodes[id].onAction.Some? && Quiet(g.nodes[id].onAction.value)
    ensures var r := ExecutePendingActions(g, cfg, id, asWritten, fuel);
      r.Done? && r.g.log == g.log + Replayed(id, g.nodes[id].waiting) && r.g.nodes[id].waiting == [] &&
      r.g.executing == g.executing
  {
    var q := g.nodes[id].waiting;
    if q != [] {
      DrainInOrder(g, cfg, id, q, 0, asWritten, fuel);
      assert q[0..] == q;
    }
  }

  // ---------------------------------------------------------------------------
  // One node in one pass of runStep
  // ---------------------------------------------------------------------------

  /** A node that does not run on its own and has nothing to replay is left alone by a pass. */
  lemma StepNodeIdle(g: Graph, cfg: Config, id: int, asWritten: bool, fuel: nat)
    requires StoreOk(g) && id in g.nodes && g.nodes[id].mode != Always
    ensures !cfg.useDeferredActions || g.nodes[id].waiting == [] ==> StepNode(g, cfg, id, asWritten, fuel) == Done(g, ())
  {
  }

  /**
   * `doExecute()` with no options on an ALWAYS-style poll of a node with a
   * quiet `onExecute` and no "onExecuted" output, not executing and with the
   * step guards off: one `onExecute` call under a fresh call id, logged.
   */
  lemma PollRuns(g: Graph, cfg: Config, id: int, asWritten: bool, f: nat)
    requires StoreOk(g) && id in g.nodes && g.nodes[id].onExecute.Some? && Quiet(g.nodes[id].onExecute.value)
    requires FindOutputSlot(g.nodes[id], "onExecuted") == -1 && !Busy(g, id)
    requires !cfg.ensureNodeSingleExecution && !cfg.ensureUniqueExecutionAndActionCall
    ensures var r := DoExecute(g, cfg, id, Undef, None, asWritten, f + 1);
      r.Done? && r.g.log == g.log + [Executed(id, Undef, Some(FreshCall(g, id, "exec").1))]
  {
    var (g1, c) := FreshCall(g, id, "exec");
    CallIdKeeps(g, None, id, "exec");
    assert !ExecGuarded(g1, cfg, id, c);
    InvokeQuiet(g1, cfg, id, Undef, c, asWritten, f);
    var r0 := InvokeExecute(g1, cfg, id, Undef, c, asWritten, f + 1);
    HookOutputKept(g1, r0.g, id);
  }

  /**
   * One pass over an ALWAYS node with queued actions, actions deferred,
   * quiet callbacks, no "onExecuted" output, not executing and the step
   * guards off: every queued action is replayed, in order, before the one
   * `onExecute` call, and the queue is left empty.
   */
  lemma StepNodeDrainsThenPolls(g: Graph, cfg: Config, id: int, asWritten: bool, f: nat)
    requires StoreOk(g) && id in g.nodes && cfg.useDeferredActions && g.nodes[id].mode == Always
    requires g.nodes[id].onAction.Some? && Quiet(g.nodes[id].onAction.value)
    requires g.nodes[id].onExecute.Some? && Quiet(g.nodes[id].onExecute.value)
    requires FindOutputSlot(g.nodes[id], "onExecuted") == -1 && !Busy(g, id)
    requires !cfg.ensureNodeSingleExecution && !cfg.ensureUniqueExecutionAndActionCall
    ensures var r := StepNode(g, cfg, id, asWritten, f + 1);
      r.Done? && exists c :: r.g.log == g.log + Replayed(id, g.nodes[id].waiting) + [Executed(id, Undef, Some(c))]
  {
    var g1 := Drained(g, cfg, id, asWritten, f + 1);
    KeepsCallbacks(g, g1, id);
    HookOutputKept(g, g1, id);
    PollRuns(g1, cfg, id, asWritten, f);
    StepNodeSplits(g, cfg, id, asWritten, f + 1, g1);
  }

  /** A pass over one node is the replay of its queue, then the poll of an ALWAYS node. */
  lemma StepNodeSplits(g: Graph, cfg: Config, id: int, asWritten: bool, fuel: nat, g1: Graph)
    requires StoreOk(g) && id in g.nodes && StoreOk(g1) && id in g1.nodes && g1.nodes[id].mode == g.nodes[id].mode
    requires (if cfg.useDeferredActions && g.nodes[id].waiting != [] then ExecutePendingActions(g, cfg, id, asWritten, fuel)
              else Done(g, ())) == Done(g1, ())
    ensures StepNode(g, cfg, id, asWritten, fuel) ==
      if g.nodes[id].mode == Always then DoExecute(g1, cfg, id, Undef, None, asWritten, fuel) else Done(g1, ())
  {
  }

  /** The first half of a pass over a node with a quiet `onAction` and actions deferred: the queue is replayed in order. */
  lemma Drained(g: Graph, cfg: Config, id: int, asWritten: bool, fuel: nat) returns (g1: Graph)
    requires StoreOk(g) && id in g.nodes && cfg.useDeferredActions
    requires g.nodes[id].onAction.Some? && Quiet(g.nodes[id].onAction.value)
    ensures StoreOk(g1) && SameWiring(g, g1) && g1.log == g.log + Replayed(id, g.nodes[id].waiting) && g1.executing == g.executing
    ensures (if g.nodes[id].waiting != [] then ExecutePendingActions(g, cfg, id, asWritten, fuel) else Done(g, ())) == Done(g1, ())
  {
    var q := g.nodes[id].waiting;
    if q != [] {
      PendingInOrder(g, cfg, id, asWritten, fuel);
      g1 := ExecutePendingActions(g, cfg, id, asWritten, fuel).g;
    } else {
      assert Replayed(id, q) == [];
      g1 := g;
    }
  }

  /**
   * `triggerSlot(slot, param, undefined, {action_call: c})` on an output
   * whose one link `k` enters input `s` of node `t`, an action target with
   * `onExecute`, with actions deferred and no ancestor refresh: the outcome
   * is exactly the entry queued at `t`, named after the input, carrying the
   * call id; no callback runs and nothing is logged.
   */
  lemma TriggerDefers(g: Graph, cfg: Config, id: int, slot: int, k: int, t: int, s: int, param: JsVal, c: string, asWritten: bool, fuel: nat)
    requires StoreOk(g) && id in g.nodes && 0 <= slot < |g.nodes[id].outputs| && c != ""
    requires g.nodes[id].outputs[slot].links == Some([k]) && k in g.links && g.links[k].targetId == t && g.links[k].targetSlot == s
    requires t in g.nodes && 0 <= s < |g.nodes[t].inputs|
    requires g.nodes[t].mode != OnTrigger && g.nodes[t].onAction.Some? && g.nodes[t].onExecute.Some?
    requires cfg.useDeferredActions && !cfg.refreshAncestorsOnActions && !g.ancestorsCall
    ensures Execution.TriggerSlot(g, cfg, id, slot, param, None, Some(c), asWritten, fuel) ==
      Done(Defer(g, t, Deferred(g.nodes[t].inputs[s].name, param, Some(c), s)), ())
  {
    FireDefers(g, cfg, id, [k], t, s, param, c, asWritten, fuel);
  }

  /** The loop of `triggerSlot` over a single link into a deferring action target queues one entry. */
  lemma FireDefers(g: Graph, cfg: Config, id: int, ks: seq<int>, t: int, s: int, param: JsVal, c: string, asWritten: bool, fuel: nat)
    requires StoreOk(g) && id in g.nodes && |ks| == 1 && ks[0] in g.links && g.links[ks[0]].targetId == t && g.links[ks[0]].targetSlot == s
    requires t in g.nodes && 0 <= s < |g.nodes[t].inputs| && c != ""
    requires g.nodes[t].mode != OnTrigger && g.nodes[t].onAction.Some? && g.nodes[t].onExecute.Some?
    requires cfg.useDeferredActions && !cfg.refreshAncestorsOnActions
    ensures Fire(g, cfg, id, ks, 0, param, None, Some(c), asWritten, fuel) ==
      Done(Defer(g, t, Deferred(g.nodes[t].inputs[s].name, param, Some(c), s)), ())
  {
    FireOneDefers(g, cfg, id, t, s, param, c, asWritten, fuel);
    var g1 := Defer(g, t, Deferred(g.nodes[t].inputs[s].name, param, Some(c), s));
    FireStepAt(g, cfg, id, ks, 0, param, Some(c), asWritten, fuel);
    assert Fire(g1, cfg, id, ks, 1, param, None, Some(c), asWritten, fuel) == Done(g1, ());
  }

  /** One action target of `triggerSlot` with actions deferred: the entry is queued, named after the input. */
  lemma FireOneDefers(g: Graph, cfg: Config, id: int, t: int, s: int, param: JsVal, c: string, asWritten: bool, fuel: nat)
    requires StoreOk(g) && id in g.nodes && t in g.nodes && 0 <= s < |g.nodes[t].inputs| && c != ""
    requires g.nodes[t].mode != OnTrigger && g.nodes[t].onAction.Some? && g.nodes[t].onExecute.Some?
    requires cfg.useDeferredActions && !cfg.refreshAncestorsOnActions
    ensures FireOne(g, cfg, id, t, s, param, Some(c), asWritten, fuel) ==
      Done(Defer(g, t, Deferred(g.nodes[t].inputs[s].name, param, Some(c), s)), c)
  {
    assert TruthyOrFresh(g, Some(c), id, "act") == (g, c);
    assert FireAction(g, cfg, t, s, param, c, asWritten, fuel) == Done(Defer(g, t, Deferred(g.nodes[t].inputs[s].name, param, Some(c), s)), c);
  }

  /** Link `l` enters an input of a target that defers actions: not ON_TRIGGER, with `onAction` and `onExecute`. */
  predicate DefersAt(g: Graph, l: LLink)
  {
    l.targetId in g.nodes && 0 <= l.targetSlot < |g.nodes[l.targetId].inputs| &&
    g.nodes[l.targetId].mode != OnTrigger && g.nodes[l.targetId].onAction.Some? && g.nodes[l.targetId].onExecute.Some?
  }

  /** Every link of `ks` is stored and enters a deferring target. */
  predicate DeferringLinks(g: Graph, ks: seq<int>)
  {
    forall j :: 0 <= j < |ks| ==> ks[j] in g.links && DefersAt(g, g.links[ks[j]])
  }

  /**
   * The entries node `x` should receive from the links `ks[k..]`, in link
   * order: one per link entering `x`, named after the input it enters.
   */
  function Entries(g: Graph, ks: seq<int>, k: nat, x: int, param: JsVal, c: string): (es: seq<Deferred>)
    requires DeferringLinks(g, ks) && k <= |ks|
    ensures |es| <= |ks| - k
    decreases |ks| - k
  {
    if k == |ks| then []
    else
      var l := g.links[ks[k]];
      (if l.targetId == x then [Deferred(g.nodes[x].inputs[l.targetSlot].name, param, Some(c), l.targetSlot)] else []) +
      Entries(g, ks, k + 1, x, param, c)
  }

  /** The entries depend only on the links and the targets' inputs. */
  lemma {:induction false} EntriesKeep(g: Graph, g': Graph, ks: seq<int>, k: nat, x: int, param: JsVal, c: string)
    requires DeferringLinks(g, ks) && DeferringLinks(g', ks) && g'.links == g.links && k <= |ks|
    requires forall y :: y in g.nodes ==> y in g'.nodes && g'.nodes[y].inputs == g.nodes[y].inputs
    ensures Entries(g', ks, k, x, param, c) == Entries(g, ks, k, x, param, c)
    decreases |ks| - k
  {
    if k < |ks| {
      EntriesKeep(g, g', ks, k + 1, x, param, c);
    }
  }

  /** The loop of `triggerSlot` from link `ks[k]`, with no link filter: the first target, then the rest under the call id it set. */
  lemma FireStepAt(g: Graph, cfg: Config, id: int, ks: seq<int>, k: nat, param: JsVal, call: Option<string>, asWritten: bool, fuel: nat)
    requires StoreOk(g) && id in g.nodes && k < |ks| && ks[k] in g.links && g.links[ks[k]].targetId in g.nodes
    requires g.nodes[g.links[ks[k]].targetId].mode == OnTrigger || g.nodes[g.links[ks[k]].targetId].onAction.Some?
    ensures var l := g.links[ks[k]]; var r1 := FireOne(g, cfg, id, l.targetId, l.targetSlot, param, call, asWritten, fuel);
      Fire(g, cfg, id, ks, k, param, None, call, asWritten, fuel) ==
      if r1.Threw? then Threw(r1.g, r1.err) else Fire(r1.g, cfg, id, ks, k + 1, param, None, Some(r1.value), asWritten, fuel)
  {
  }

  /** The entry link `ks[k]` delivers to its deferring target. */
  function EntryAt(g: Graph, ks: seq<int>, k: nat, param: JsVal, c: string): (e: Deferred)
    requires DeferringLinks(g, ks) && k < |ks|
  {
    var l := g.links[ks[k]];
    Deferred(g.nodes[l.targetId].inputs[l.targetSlot].name, param, Some(c), l.targetSlot)
  }

  /** One round of the deferring loop: queue the entry for link `ks[k]`, then go on with the same call id. */
  lemma DeferStep(g: Graph, cfg: Config, id: int, ks: seq<int>, k: nat, param: JsVal, c: string, asWritten: bool, fuel: nat)
    requires StoreOk(g) && id in g.nodes && k < |ks| && c != "" && DeferringLinks(g, ks)
    requires cfg.useDeferredActions && !cfg.refreshAncestorsOnActions
    ensures var g1 := Defer(g, g.links[ks[k]].targetId, EntryAt(g, ks, k, param, c));
      Fire(g, cfg, id, ks, k, param, None, Some(c), asWritten, fuel) == Fire(g1, cfg, id, ks, k + 1, param, None, Some(c), asWritten, fuel)
  {
    var l := g.links[ks[k]];
    assert DefersAt(g, l);
    FireStepAt(g, cfg, id, ks, k, param, Some(c), asWritten, fuel);
    FireOneDefers(g, cfg, id, l.targetId, l.targetSlot, param, c, asWritten, fuel);
  }

  /** Deferring an entry keeps every link entering a deferring target. */
  lemma DeferKeepsTargets(g: Graph, t: int, e: Deferred, ks: seq<int>)
    requires StoreOk(g) && t in g.nodes && DeferringLinks(g, ks)
    ensures var g1 := Defer(g, t, e);
      DeferringLinks(g1, ks) && g1.links == g.links && g1.log == g.log && g1 == g.(nodes := g1.nodes) &&
      g1.nodes == g.nodes[t := g.nodes[t].(waiting := g.nodes[t].waiting + [e])] &&
      forall y :: y in g.nodes ==> y in g1.nodes && g1.nodes[y].inputs == g.nodes[y].inputs
  {
  }

  /** The queue of each node after one deferred entry and then the rest of the links. */
  lemma QueuesAfter(g: Graph, g1: Graph, rg: Graph, ks: seq<int>, k: nat, param: JsVal, c: string)
    requires DeferringLinks(g, ks) && DeferringLinks(g1, ks) && k < |ks| && g1.links == g.links
    requires var t := g.links[ks[k]].targetId;
      g1.nodes == g.nodes[t := g.nodes[t].(waiting := g.nodes[t].waiting + [EntryAt(g, ks, k, param, c)])]
    requires rg.nodes.Keys == g1.nodes.Keys
    requires forall x :: x in g1.nodes ==> rg.nodes[x] == g1.nodes[x].(waiting := g1.nodes[x].waiting + Entries(g1, ks, k + 1, x, param, c))
    ensures rg.nodes.Keys == g.nodes.Keys
    ensures forall x :: x in g.nodes ==> rg.nodes[x] == g.nodes[x].(waiting := g.nodes[x].waiting + Entries(g, ks, k, x, param, c))
  {
    forall x | x in g.nodes ensures rg.nodes[x] == g.nodes[x].(waiting := g.nodes[x].waiting + Entries(g, ks, k, x, param, c)) {
      EntriesKeep(g, g1, ks, k + 1, x, param, c);
      QueueAt(g.nodes[x].waiting, g1.nodes[x].waiting, x == g.links[ks[k]].targetId, EntryAt(g, ks, k, param, c),
              Entries(g, ks, k, x, param, c), Entries(g, ks, k + 1, x, param, c));
    }
  }

  /** One node's queue: one deferred entry if the link enters it, then the rest. */
  lemma QueueAt(w: seq<Deferred>, w1: seq<Deferred>, hit: bool, e: Deferred, all: seq<Deferred>, rest: seq<Deferred>)
    requires w1 == if hit then w + [e] else w
    requires all == (if hit then [e] else []) + rest
    ensures w1 + rest == w + all
  {
    if hit {
      AppendOne(w, e, rest);
    } else {
      assert all == rest;
    }
  }

  /**
   * With actions deferred and no ancestor refresh, the loop of
   * `triggerSlot(…, {action_call: c})` over links that all enter deferring
   * targets runs no callback and logs nothing: each target's queue grows by
   * exactly one entry per link entering it, in link order, and nothing else
   * in the graph changes.
   */
  lemma {:induction false} FireDefersAll(g: Graph, cfg: Config, id: int, ks: seq<int>, k: nat, param: JsVal, c: string, asWritten: bool, fuel: nat)
    requires StoreOk(g) && id in g.nodes && k <= |ks| && c != "" && DeferringLinks(g, ks)
    requires cfg.useDeferredActions && !cfg.refreshAncestorsOnActions
    ensures var r := Fire(g, cfg, id, ks, k, param, None, Some(c), asWritten, fuel);
      r.Done? && r.g == g.(nodes := r.g.nodes) && r.g.nodes.Keys == g.nodes.Keys &&
      forall x :: x in g.nodes ==> r.g.nodes[x] == g.nodes[x].(waiting := g.nodes[x].waiting + Entries(g, ks, k, x, param, c))
    decreases |ks| - k, 1
  {
    if k == |ks| {
      forall x | x in g.nodes ensures g.nodes[x] == g.nodes[x].(waiting := g.nodes[x].waiting + Entries(g, ks, k, x, param, c)) {
        assert g.nodes[x].waiting + [] == g.nodes[x].waiting;
      }
    } else {
      FireDefersNext(g, cfg, id, ks, k, param, c, asWritten, fuel);
    }
  }

  /** The deferring loop from a link that is still to come: queue its entry, then the rest. */
  lemma {:induction false} FireDefersNext(g: Graph, cfg: Config, id: int, ks: seq<int>, k: nat, param: JsVal, c: string, asWritten: bool, fuel: nat)
    requires StoreOk(g) && id in g.nodes && k < |ks| && c != "" && DeferringLinks(g, ks)
    requires cfg.useDeferredActions && !cfg.refreshAncestorsOnActions
    ensures var r := Fire(g, cfg, id, ks, k, param, None, Some(c), asWritten, fuel);
      r.Done? && r.g == g.(nodes := r.g.nodes) && r.g.nodes.Keys == g.nodes.Keys &&
      forall x :: x in g.nodes ==> r.g.nodes[x] == g.nodes[x].(waiting := g.nodes[x].waiting + Entries(g, ks, k, x, param, c))
    decreases |ks| - k, 0
  {
    var e := EntryAt(g, ks, k, param, c);
    var g1 := Defer(g, g.links[ks[k]].targetId, e);
    DeferStep(g, cfg, id, ks, k, param, c, asWritten, fuel);
    DeferKeepsTargets(g, g.links[ks[k]].targetId, e, ks);
    FireDefersAll(g1, cfg, id, ks, k + 1, param, c, asWritten, fuel);
    var r := Fire(g1, cfg, id, ks, k + 1, param, None, Some(c), asWritten, fuel);
    QueuesAfter(g, g1, r.g, ks, k, param, c);
  }

  /**
   * `triggerSlot(slot, param, undefined, {action_call: c})` on an output
   * whose links all enter deferring targets, with actions deferred and no
   * ancestor refresh running or configured: every target's queue grows by
   * one entry per link entering it, in link order, carrying the call id;
   * no callback runs and nothing else changes.
   */
  lemma TriggerDefersAll(g: Graph, cfg: Config, id: int, slot: int, param: JsVal, c: string, asWritten: bool, fuel: nat)
    requires StoreOk(g) && id in g.nodes && 0 <= slot < |g.nodes[id].outputs| && c != ""
    requires g.nodes[id].outputs[slot].links.Some? && DeferringLinks(g, g.nodes[id].outputs[slot].links.value)
    requires cfg.useDeferredActions && !cfg.refreshAncestorsOnActions && !g.ancestorsCall
    ensures var ks := g.nodes[id].outputs[slot].links.value;
      var r := Execution.TriggerSlot(g, cfg, id, slot, param, None, Some(c), asWritten, fuel);
      r.Done? && r.g == g.(nodes := r.g.nodes) && r.g.nodes.Keys == g.nodes.Keys &&
      forall x :: x in g.nodes ==> r.g.nodes[x] == g.nodes[x].(waiting := g.nodes[x].waiting + Entries(g, ks, 0, x, param, c))
  {
    var ks := g.nodes[id].outputs[slot].links.value;
    assert Execution.TriggerSlot(g, cfg, id, slot, param, None, Some(c), asWritten, fuel) ==
      Fire(g, cfg, id, ks, 0, param, None, Some(c), asWritten, fuel);
    FireDefersAll(g, cfg, id, ks, 0, param, c, asWritten, fuel);
  }

  /**
   * Whatever the callbacks do, the loop of `triggerSlot(…, {action_call: c})`
   * skips a link to a missing target, or to one neither ON_TRIGGER nor with
   * `onAction`; with a call id already set and no ancestor refresh, it also
   * skips an ON_TRIGGER target without `onExecute`.
   */
  lemma FireSkips(g: Graph, cfg: Config, id: int, ks: seq<int>, k: nat, param: JsVal, call: Option<string>, asWritten: bool, fuel: nat)
    requires StoreOk(g) && id in g.nodes && k < |ks|
    requires ks[k] !in g.links || g.links[ks[k]].targetId !in g.nodes ||
      (g.nodes[g.links[ks[k]].targetId].mode != OnTrigger && g.nodes[g.links[ks[k]].targetId].onAction.None?) ||
      (g.nodes[g.links[ks[k]].targetId].mode == OnTrigger && g.nodes[g.links[ks[k]].targetId].onExecute.None? &&
       call.Some? && call.value != "" && !cfg.refreshAncestorsOnTriggers)
    ensures Fire(g, cfg, id, ks, k, param, None, call, asWritten, fuel) == Fire(g, cfg, id, ks, k + 1, param, None, call, asWritten, fuel)
  {
    if ks[k] in g.links && g.links[ks[k]].targetId in g.nodes && g.nodes[g.links[ks[k]].targetId].mode == OnTrigger {
      var t := g.links[ks[k]].targetId;
      FireStepAt(g, cfg, id, ks, k, param, call, asWritten, fuel);
      assert TruthyOrFresh(g, call, id, "trigg") == (g, call.value);
      assert FireExecute(g, cfg, t, param, call.value, asWritten, fuel) == Done(g, call.value);
    }
  }

  /** An ON_TRIGGER target with `onExecute` of `triggerSlot` without ancestor refresh runs `doExecute` with the loop's call id. */
  lemma FireOneTrigger(g: Graph, cfg: Config, id: int, t: int, s: int, param: JsVal, c: string, asWritten: bool, fuel: nat)
    requires StoreOk(g) && id in g.nodes && t in g.nodes && g.nodes[t].mode == OnTrigger && g.nodes[t].onExecute.Some? && c != ""
    requires !cfg.refreshAncestorsOnTriggers
    ensures var r := DoExecute(g, cfg, t, param, Some(c), asWritten, fuel);
      FireOne(g, cfg, id, t, s, param, Some(c), asWritten, fuel) == if r.Threw? then Threw(r.g, r.err) else Done(r.g, c)
  {
    assert TruthyOrFresh(g, Some(c), id, "trigg") == (g, c);
    assert FireOne(g, cfg, id, t, s, param, Some(c), asWritten, fuel) == FireExecute(g, cfg, t, param, c, asWritten, fuel);
    FireExecuteDirect(g, cfg, t, param, c, asWritten, fuel);
  }

  /** Without ancestor refresh, the part of `triggerSlot` for an ON_TRIGGER target with `onExecute` is its `doExecute`. */
  lemma FireExecuteDirect(g: Graph, cfg: Config, t: int, param: JsVal, c: string, asWritten: bool, fuel: nat)
    requires StoreOk(g) && t in g.nodes && g.nodes[t].onExecute.Some? && !cfg.refreshAncestorsOnTriggers
    ensures var r := DoExecute(g, cfg, t, param, Some(c), asWritten, fuel);
      FireExecute(g, cfg, t, param, c, asWritten, fuel) == if r.Threw? then Threw(r.g, r.err) else Done(r.g, c)
  {
  }

  /**
   * Whatever the callbacks do, a link into an ON_TRIGGER target with
   * `onExecute` makes the loop of `triggerSlot(…, {action_call: c})` without ancestor refresh run
   * the target's `doExecute` with call id `c`; an exception ends the loop,
   * otherwise it goes on with the same call id.
   */
  lemma FireRunsTrigger(g: Graph, cfg: Config, id: int, ks: seq<int>, k: nat, param: JsVal, c: string, asWritten: bool, fuel: nat)
    requires StoreOk(g) && id in g.nodes && k < |ks| && c != "" && !cfg.refreshAncestorsOnTriggers
    requires ks[k] in g.links && g.links[ks[k]].targetId in g.nodes && g.nodes[g.links[ks[k]].targetId].mode == OnTrigger
    requires g.nodes[g.links[ks[k]].targetId].onExecute.Some?
    ensures var r := DoExecute(g, cfg, g.links[ks[k]].targetId, param, Some(c), asWritten, fuel);
      Fire(g, cfg, id, ks, k, param, None, Some(c), asWritten, fuel) ==
        if r.Threw? then Threw(r.g, r.err) else Fire(r.g, cfg, id, ks, k + 1, param, None, Some(c), asWritten, fuel)
  {
    var l := g.links[ks[k]];
    FireStepAt(g, cfg, id, ks, k, param, Some(c), asWritten, fuel);
    FireOneTrigger(g, cfg, id, l.targetId, l.targetSlot, param, c, asWritten, fuel);
  }

  /** An action target of `triggerSlot` that does not defer, without ancestor refresh, runs `actionDo` for the input the link enters. */
  lemma FireOneAction(g: Graph, cfg: Config, id: int, t: int, s: int, param: JsVal, c: string, asWritten: bool, fuel: nat)
    requires StoreOk(g) && id in g.nodes && t in g.nodes && c != "" && !cfg.refreshAncestorsOnActions
    requires g.nodes[t].mode != OnTrigger && g.nodes[t].onAction.Some? && 0 <= s < |g.nodes[t].inputs|
    requires !(cfg.useDeferredActions && g.nodes[t].onExecute.Some?)
    ensures var r := ActionDo(g, cfg, t, g.nodes[t].inputs[s].name, param, Some(c), s, asWritten, fuel);
      FireOne(g, cfg, id, t, s, param, Some(c), asWritten, fuel) == if r.Threw? then Threw(r.g, r.err) else Done(r.g, c)
  {
    assert TruthyOrFresh(g, Some(c), id, "act") == (g, c);
    assert FireOne(g, cfg, id, t, s, param, Some(c), asWritten, fuel) == FireAction(g, cfg, t, s, param, c, asWritten, fuel);
    FireActionDirect(g, cfg, t, s, param, c, asWritten, fuel);
  }

  /** Without ancestor refresh, the part of `triggerSlot` for an action target that does not defer is its `actionDo`. */
  lemma FireActionDirect(g: Graph, cfg: Config, t: int, s: int, param: JsVal, c: string, asWritten: bool, fuel: nat)
    requires StoreOk(g) && t in g.nodes && !cfg.refreshAncestorsOnActions && 0 <= s < |g.nodes[t].inputs|
    requires !(cfg.useDeferredActions && g.nodes[t].onExecute.Some?)
    ensures var r := ActionDo(g, cfg, t, g.nodes[t].inputs[s].name, param, Some(c), s, asWritten, fuel);
      FireAction(g, cfg, t, s, param, c, asWritten, fuel) == if r.Threw? then Threw(r.g, r.err) else Done(r.g, c)
  {
  }

  /**
   * Whatever the callbacks do, a link into an action target that does not
   * defer makes the loop of `triggerSlot(…, {action_call: c})` without
   * ancestor refresh run the target's `actionDo` for the input the link
   * enters, with call id `c`; an exception ends the loop, otherwise it goes
   * on with the same call id.
   */
  lemma FireRunsAction(g: Graph, cfg: Config, id: int, ks: seq<int>, k: nat, param: JsVal, c: string, asWritten: bool, fuel: nat)
    requires StoreOk(g) && id in g.nodes && k < |ks| && c != "" && !cfg.refreshAncestorsOnActions
    requires ks[k] in g.links && g.links[ks[k]].targetId in g.nodes
    requires var l := g.links[ks[k]]; var t := g.nodes[l.targetId];
      t.mode != OnTrigger && t.onAction.Some? && 0 <= l.targetSlot < |t.inputs| && !(cfg.useDeferredActions && t.onExecute.Some?)
    ensures var l := g.links[ks[k]];
      var r := ActionDo(g, cfg, l.targetId, g.nodes[l.targetId].inputs[l.targetSlot].name, param, Some(c), l.targetSlot, asWritten, fuel);
      Fire(g, cfg, id, ks, k, param, None, Some(c), asWritten, fuel) ==
        if r.Threw? then Threw(r.g, r.err) else Fire(r.g, cfg, id, ks, k + 1, param, None, Some(c), asWritten, fuel)
  {
    var l := g.links[ks[k]];
    FireStepAt(g, cfg, id, ks, k, param, Some(c), asWritten, fuel);
    FireOneAction(g, cfg, id, l.targetId, l.targetSlot, param, c, asWritten, fuel);
  }
}
