/**
 * `LGraph` as a value: the node store (`_nodes`, `_nodes_by_id`), the link
 * store (`links`), the id counters, the execution bookkeeping, the named
 * global inputs and outputs, and the action history; the process-wide
 * `LiteGraph` settings the engine consults are gathered in `Config`.
 * This module holds the operations that touch only this record:
 * `getNodeById`, `onGraphChanged` with the history-pointer ring, the history
 * walk, and the global input/output API.
 */
module Graphs {
  import opened Base
  import opened SlotTypes
  import opened Link
  import opened Registry
  import opened Nodes

  /** The process-wide settings of `LiteGraph` the engine reads. */
  datatype Config = Config(
    maxNodes: int,                              // MAX_NUMBER_OF_NODES
    useDeferredActions: bool,                   // use_deferred_actions
    allowMultiOutputForEvents: bool,            // allow_multi_output_for_events
    doAddTriggersSlots: bool,                   // do_add_triggers_slots
    throwErrors: bool,                          // throw_errors
    catchExceptions: bool,                      // catch_exceptions
    autoLoadSlotTypes: bool,                    // auto_load_slot_types
    ensureNodeSingleExecution: bool,
    ensureUniqueExecutionAndActionCall: bool,
    ensureNodeSingleAction: bool,
    refreshAncestorsOnTriggers: bool,
    refreshAncestorsOnActions: bool,
    preventAncestorRecalculation: bool,
    actionHistoryEnabled: bool,                 // actionHistory_enabled
    actionHistoryMaxSave: Option<int>)          // actionHistoryMaxSave, None when undefined

  /** The values the `LiteGraph` constructor sets; the flags it never sets are `undefined`, hence off. */
  const Defaults: Config := Config(1000, true, true, false, true, true, false,
                                   false, false, false, false, false, false, false, None)

  datatype Status = Stopped | Running

  /** A named global input or output: `{name, type, value}`. */
  datatype GlobalSlot = GlobalSlot(name: string, stype: SlotType, value: JsVal)

  /** An `actionHistory` slot: unset (`false`) or a saved action; the graph snapshot itself is not modelled. */
  datatype HistoryEntry = Unset | Saved(actionName: string)

  /** `history`: `actionHistory`, `actionHistoryVersions` and `actionHistoryPtr`. */
  datatype History = History(entries: map<int, HistoryEntry>, versions: seq<int>, ptr: int)

  const EmptyHistory: History := History(map[], [], 0)

  /** A user callback invocation, recorded so that the order of execution is observable. */
  datatype Event =
    | Executed(node: int, param: JsVal, callId: Option<string>)                     // onExecute(param, options)
    | Actioned(node: int, action: string, param: JsVal, callId: Option<string>, slot: int)   // onAction(action, param, options, slot)

  /**
   * The node store and the links as `updateExecutionOrder` last saw them.
   * `_nodes_in_order`, each node's `order` and `_nodes_executable` are the
   * execution order of this snapshot, so the graph keeps the snapshot and
   * derives them from it.
   */
  datatype Snapshot = Snapshot(nodes: map<int, Node>, nodeList: seq<int>, links: map<int, LLink>, lastLinkId: int)

  datatype Graph = Graph(
    nodes: map<int, Node>,                 // _nodes_by_id
    nodeList: seq<int>,                    // _nodes, by id, in insertion order
    links: map<int, LLink>,
    lastNodeId: int,
    lastLinkId: int,
    version: int,                          // _version
    status: Status,
    iteration: int,
    ordered: Option<Snapshot>,             // what `updateExecutionOrder` last ordered; None until then
    inputs: map<string, GlobalSlot>,
    outputs: map<string, GlobalSlot>,
    executing: map<int, bool>,             // nodes_executing
    actioning: map<int, JsVal>,            // nodes_actioning
    ancestorsDone: map<int, bool>,         // node_ancestorsCalculated
    executedAction: map<int, string>,      // nodes_executedAction
    ancestorsCall: bool,
    errorsInExecution: bool,
    history: History,
    registry: SlotRegistry,                // the process-wide slot-type registry
    nextCall: nat,                         // source of fresh `action_call` ids
    log: seq<Event>)

  /**
   * The record `clear()` leaves: no nodes or links, counters at 0, version
   * -1, stopped, no execution order yet, empty guard maps and history. The
   * slot-type registry is process-wide and is not part of what `clear()`
   * resets; this value carries an empty one.
   */
  const Blank: Graph := Graph(map[], [], map[], 0, 0, -1, Stopped, 0, None, map[], map[],
                              map[], map[], map[], map[], false, false, EmptyHistory, EmptyRegistry, 0, [])

  /**
   * How a mutating engine call ends: normally with a value, or with an
   * exception, in which case the changes made before the throw remain.
   */
  datatype Outcome<T> = Done(g: Graph, value: T) | Threw(g: Graph, err: JsError)

  // ---------------------------------------------------------------------------
  // Well-formedness
  // ---------------------------------------------------------------------------

  /** The node store: `_nodes` and `_nodes_by_id` hold the same nodes, each under its own id. */
  predicate StoreOk(g: Graph)
  {
    NoDup(g.nodeList) &&
    (forall id :: id in g.nodes ==> id in g.nodeList) &&
    (forall id :: id in g.nodeList ==> id in g.nodes) &&
    (forall id :: id in g.nodes ==> g.nodes[id].id == id)
  }

  /** Link `k` is registered at both ends: in its origin output's list and in its target input. */
  predicate LinkRegistered(g: Graph, k: int)
    requires k in g.links
  {
    var l := g.links[k];
    l.id == k &&
    l.originId in g.nodes && 0 <= l.originSlot < |g.nodes[l.originId].outputs| &&
    g.nodes[l.originId].outputs[l.originSlot].links.Some? &&
    k in g.nodes[l.originId].outputs[l.originSlot].links.value &&
    l.targetId in g.nodes && 0 <= l.targetSlot < |g.nodes[l.targetId].inputs| &&
    g.nodes[l.targetId].inputs[l.targetSlot].link == Some(k)
  }

  /** Input `i` of node `id` holds nothing or a stored link that ends there. */
  predicate InputBacked(g: Graph, id: int, i: int)
    requires id in g.nodes && 0 <= i < |g.nodes[id].inputs|
  {
    var inp := g.nodes[id].inputs[i];
    inp.link.Some? ==>
      inp.link.value in g.links && g.links[inp.link.value].targetId == id && g.links[inp.link.value].targetSlot == i
  }

  /** Output `i` of node `id` lists each of its links once, and only stored links that start there. */
  predicate OutputBacked(g: Graph, id: int, i: int)
    requires id in g.nodes && 0 <= i < |g.nodes[id].outputs|
  {
    var o := g.nodes[id].outputs[i];
    o.links.Some? ==>
      NoDup(o.links.value) &&
      forall k :: k in o.links.value ==> k in g.links && g.links[k].originId == id && g.links[k].originSlot == i
  }

  /** The three places that record a link agree, and link ids never exceed `last_link_id`. */
  predicate LinksOk(g: Graph)
  {
    (forall k :: k in g.links ==> LinkRegistered(g, k) && k <= g.lastLinkId) &&
    (forall id, i :: id in g.nodes && 0 <= i < |g.nodes[id].inputs| ==> InputBacked(g, id, i)) &&
    (forall id, i :: id in g.nodes && 0 <= i < |g.nodes[id].outputs| ==> OutputBacked(g, id, i))
  }

  /** Node ids never exceed `last_node_id`. */
  predicate IdsBelowCounter(g: Graph)
  {
    forall id :: id in g.nodes ==> id <= g.lastNodeId
  }

  predicate WF(g: Graph)
  {
    StoreOk(g) && LinksOk(g)
  }

  // ---------------------------------------------------------------------------
  // Lookup
  // ---------------------------------------------------------------------------

  /** `getNodeById(id)`: the node stored under that id, if any. */
  function GetNodeById(g: Graph, id: int): (r: Option<Node>)
    ensures r.Some? <==> id in g.nodes
    ensures r.Some? ==> r.value == g.nodes[id]
    ensures StoreOk(g) && r.Some? ==> r.value.id == id && id in g.nodeList
  {
    if id in g.nodes then Some(g.nodes[id]) else None
  }

  // ---------------------------------------------------------------------------
  // onGraphChanged and the history ring
  // ---------------------------------------------------------------------------

  /**
   * The history update of `onGraphChanged` when saving is on: versions after
   * the pointer are dropped, the oldest one is dropped (and its entry unset)
   * once the list holds `actionHistoryMaxSave` versions, and the new entry is
   * stored at the index equal to the remaining length, which the pointer then
   * designates.
   */
  function SaveHistory(h: History, maxSave: Option<int>, action: string): (h': History)
    ensures |h'.versions| >= 1 && h'.ptr == |h'.versions| - 1 && h'.versions[h'.ptr] == h'.ptr
    ensures h'.ptr in h'.entries && h'.entries[h'.ptr] == Saved(action)
    ensures maxSave.None? ==> h'.versions == h.versions[..Clip(h.ptr + 1, |h.versions|)] + [Clip(h.ptr + 1, |h.versions|)]
  {
    var kept := h.versions[..Clip(h.ptr + 1, |h.versions|)];
    var (trimmed, entries) :=
      if maxSave.Some? && |kept| >= maxSave.value && |kept| > 0 then (kept[1..], h.entries[kept[0] := Unset])
      else if maxSave.Some? && |kept| >= maxSave.value then (kept, h.entries)
      else (kept, h.entries);
    var p := |trimmed|;
    History(entries[p := Saved(action)], trimmed + [p], p)
  }

  /**
   * The length left by `while (ptr < versions.length - 1) versions.pop()`:
   * `ptr + 1` when that is shorter, never below 0.
   */
  function Clip(k: int, len: nat): (r: nat)
    ensures r <= len
    ensures 0 <= k <= len ==> r == k
    ensures k > len ==> r == len
  {
    if k < 0 then 0 else if k > len then len else k
  }

  /** The history shape `onGraphChanged` maintains when there is no save limit: version `i` sits at index `i`. */
  predicate HistoryOk(h: History)
  {
    -1 <= h.ptr <= |h.versions| &&
    (forall i :: 0 <= i < |h.versions| ==> h.versions[i] == i) &&
    (forall i :: 0 <= i < |h.versions| ==> i in h.entries && h.entries[i].Saved?)
  }

  /** Without a save limit, saving keeps the history shape and points at the new last version. */
  lemma SaveHistoryKeepsShape(h: History, action: string)
    requires HistoryOk(h)
    ensures var h' := SaveHistory(h, None, action);
      HistoryOk(h') && h'.ptr == |h'.versions| - 1 &&
      |h'.versions| == (if h.ptr + 1 < |h.versions| then h.ptr + 2 else |h.versions| + 1)
  {
    var h' := SaveHistory(h, None, action);
    var c := Clip(h.ptr + 1, |h.versions|);
    assert h'.versions == h.versions[..c] + [c];
    forall i | 0 <= i < |h'.versions| ensures h'.versions[i] == i && i in h'.entries && h'.entries[i].Saved? {
      if i < c {
        assert h'.versions[i] == h.versions[i];
      }
    }
  }

  /**
   * With a save limit, the version list is shifted but the new index is its
   * length, so once full the last index is reused: saving into a full list of
   * two versions `[0, 1]` leaves `[1, 1]`.
   */
  lemma BoundedHistoryRepeatsIndex()
    ensures var h := History(map[0 := Saved("a"), 1 := Saved("b")], [0, 1], 1);
      SaveHistory(h, Some(2), "c").versions == [1, 1]
  {
    var h := History(map[0 := Saved("a"), 1 := Saved("b")], [0, 1], 1);
    assert h.versions[..Clip(2, 2)] == [0, 1];
  }

  /**
   * `onGraphChanged({action, doSave})` with the debug logger treated as a
   * no-op: `_version` is incremented, and when `doSave` and history saving
   * are both on, the action is recorded in the history ring.
   */
  function OnGraphChanged(g: Graph, cfg: Config, action: string, doSave: bool): (g': Graph)
    ensures g'.version == g.version + 1
    ensures g' == g.(version := g'.version, history := g'.history)
    ensures !(doSave && cfg.actionHistoryEnabled) ==> g'.history == g.history
    ensures doSave && cfg.actionHistoryEnabled ==>
      g'.history == SaveHistory(g.history, cfg.actionHistoryMaxSave, action)
  {
    var g1 := g.(version := g.version + 1);
    if doSave && cfg.actionHistoryEnabled then g1.(history := SaveHistory(g.history, cfg.actionHistoryMaxSave, action))
    else g1
  }

  /**
   * `onGraphChanged` as written: `LiteGraph.debug` is the boolean `false`, so
   * `LiteGraph.debug?.(...)` calls a non-function right after `_version` is
   * incremented and throws a TypeError. `debug` is the value of that field;
   * only `undefined`/`null` would make the optional call a no-op.
   */
  function OnGraphChangedAsWritten(g: Graph, cfg: Config, action: string, doSave: bool, debug: JsVal): (r: (Graph, Option<JsError>))
    ensures r.0.version == g.version + 1
    ensures r.1.Some? <==> !(debug == Undef || debug == Null)
    ensures r.1.None? ==> r.0 == OnGraphChanged(g, cfg, action, doSave)
  {
    if debug == Undef || debug == Null then (OnGraphChanged(g, cfg, action, doSave), None)
    else (g.(version := g.version + 1), Some(TypeError))
  }

  /** With the shipped `debug = false`, every graph change throws. */
  lemma GraphChangeThrowsWithShippedDebug(g: Graph, cfg: Config, action: string, doSave: bool)
    ensures OnGraphChangedAsWritten(g, cfg, action, doSave, Bool(false)).1 == Some(TypeError)
  {
  }

  /** The outcome of a history step: the new history and whether a saved state was loaded. */
  function LoadPointer(h: History, p: int, restore: int): (r: (History, bool))
    ensures r.1 <==> p in h.entries && h.entries[p].Saved?
    ensures r.0 == h.(ptr := if r.1 then p else restore)
  {
    if p in h.entries && h.entries[p].Saved? then (h.(ptr := p), true) else (h.(ptr := restore), false)
  }

  /**
   * `actionHistoryBack`: when the pointer is at least 0, step it back and
   * load that entry; if there is no saved entry there, restore the pointer
   * and report false.
   */
  function ActionHistoryBack(h: History): (r: (History, bool))
    ensures r.1 <==> h.ptr >= 0 && h.ptr - 1 in h.entries && h.entries[h.ptr - 1].Saved?
    ensures r.0 == h.(ptr := if r.1 then h.ptr - 1 else h.ptr)
  {
    if h.ptr >= 0 then LoadPointer(h, h.ptr - 1, h.ptr) else (h, false)
  }

  /** `actionHistoryForward`: the mirror image, allowed while the pointer is below the number of versions. */
  function ActionHistoryForward(h: History): (r: (History, bool))
    ensures r.1 <==> h.ptr < |h.versions| && h.ptr + 1 in h.entries && h.entries[h.ptr + 1].Saved?
    ensures r.0 == h.(ptr := if r.1 then h.ptr + 1 else h.ptr)
  {
    if h.ptr < |h.versions| then LoadPointer(h, h.ptr + 1, h.ptr) else (h, false)
  }

  /** Going back and then forward returns to the same pointer. */
  lemma BackThenForward(h: History)
    requires HistoryOk(h) && h.ptr < |h.versions|
    requires ActionHistoryBack(h).1
    ensures ActionHistoryForward(ActionHistoryBack(h).0) == (h, true)
  {
  }

  /** In a well-shaped history, stepping back succeeds exactly when the pointer is past the first version. */
  lemma BackSucceedsIffPastFirst(h: History)
    requires HistoryOk(h) && h.ptr <= |h.versions|
    requires forall i :: i in h.entries && h.entries[i].Saved? ==> 0 <= i < |h.versions|
    ensures ActionHistoryBack(h).1 <==> h.ptr >= 1
  {
  }

  // ---------------------------------------------------------------------------
  // Global inputs and outputs
  // ---------------------------------------------------------------------------

  /** `addInput(name, type, value)`: a no-op when the name is taken, else a new entry and a saved change. */
  function AddGlobalInput(g: Graph, cfg: Config, name: string, t: SlotType, value: JsVal): (g': Graph)
    ensures name in g.inputs ==> g' == g
    ensures name !in g.inputs ==>
      g'.inputs == g.inputs[name := GlobalSlot(name, t, value)] &&
      g' == OnGraphChanged(g, cfg, "addInput", true).(inputs := g'.inputs)
  {
    if name in g.inputs then g
    else OnGraphChanged(g.(inputs := g.inputs[name := GlobalSlot(name, t, value)]), cfg, "addInput", true)
  }

  /** `setInputData(name, data)`: stores the value of an existing input; unknown names are ignored. */
  function SetGlobalInputData(g: Graph, name: string, data: JsVal): (g': Graph)
    ensures name !in g.inputs ==> g' == g
    ensures name in g.inputs ==> g' == g.(inputs := g.inputs[name := g.inputs[name].(value := data)])
  {
    if name in g.inputs then g.(inputs := g.inputs[name := g.inputs[name].(value := data)]) else g
  }

  /** `getInputData(name)`: the stored value, or null for an unknown name. */
  function GetGlobalInputData(g: Graph, name: string): (v: JsVal)
    ensures name !in g.inputs ==> v == Null
    ensures name in g.inputs ==> v == g.inputs[name].value
  {
    if name in g.inputs then g.inputs[name].value else Null
  }

  /** A value written to an existing global input is read back. */
  lemma GlobalInputRoundTrip(g: Graph, name: string, data: JsVal)
    requires name in g.inputs
    ensures GetGlobalInputData(SetGlobalInputData(g, name, data), name) == data
  {
  }

  /**
   * `renameInput(old, new)`: returns `undefined` without change when the names
   * are equal, `false` when the old name is missing or the new one is taken,
   * and otherwise moves the entry (whose `name` field keeps the old name) and
   * returns `undefined`.
   */
  function RenameGlobalInput(g: Graph, cfg: Config, oldName: string, newName: string): (r: (Graph, JsVal))
    ensures oldName == newName ==> r == (g, Undef)
    ensures oldName != newName && (oldName !in g.inputs || newName in g.inputs) ==> r == (g, Bool(false))
    ensures oldName != newName && oldName in g.inputs && newName !in g.inputs ==>
      r.1 == Undef && r.0.inputs.Keys == g.inputs.Keys - {oldName} + {newName} &&
      r.0.inputs[newName] == g.inputs[oldName] &&
      (forall k :: k in g.inputs && k != oldName ==> r.0.inputs[k] == g.inputs[k]) &&
      r.0 == OnGraphChanged(g, cfg, "renameInput", true).(inputs := r.0.inputs)
  {
    if oldName == newName then (g, Undef)
    else if oldName !in g.inputs then (g, Bool(false))
    else if newName in g.inputs then (g, Bool(false))
    else (OnGraphChanged(g.(inputs := (g.inputs - {oldName})[newName := g.inputs[oldName]]), cfg, "renameInput", true), Undef)
  }

  /** Renaming there and back restores the inputs. */
  lemma RenameGlobalInputBack(g: Graph, cfg: Config, a: string, b: string)
    requires a != b && a in g.inputs && b !in g.inputs
    ensures var g1 := RenameGlobalInput(g, cfg, a, b).0;
      RenameGlobalInput(g1, cfg, b, a).0.inputs == g.inputs
  {
    var g1 := RenameGlobalInput(g, cfg, a, b).0;
    var g2 := RenameGlobalInput(g1, cfg, b, a).0;
    assert g2.inputs.Keys == g.inputs.Keys;
  }

  /** Whether a type change is skipped: the current type is truthy and prints the same, ignoring case. */
  predicate SameTypeName(current: SlotType, t: SlotType)
  {
    TypeTruthy(current) && Lower(TypeString(current)) == Lower(TypeString(t))
  }

  /**
   * `changeInputType(name, type)`: `false` for an unknown name; `undefined`
   * and no change when the type prints the same; otherwise stores it.
   */
  function ChangeGlobalInputType(g: Graph, cfg: Config, name: string, t: SlotType): (r: (Graph, JsVal))
    ensures name !in g.inputs ==> r == (g, Bool(false))
    ensures name in g.inputs && SameTypeName(g.inputs[name].stype, t) ==> r == (g, Undef)
    ensures name in g.inputs && !SameTypeName(g.inputs[name].stype, t) ==>
      r.1 == Undef && r.0 == OnGraphChanged(g, cfg, "changeInputType", true).(inputs := g.inputs[name := g.inputs[name].(stype := t)])
  {
    if name !in g.inputs then (g, Bool(false))
    else if SameTypeName(g.inputs[name].stype, t) then (g, Undef)
    else (OnGraphChanged(g.(inputs := g.inputs[name := g.inputs[name].(stype := t)]), cfg, "changeInputType", true), Undef)
  }

  /** `removeInput(name)`: true exactly when there was such an input, which is then gone. */
  function RemoveGlobalInput(g: Graph, cfg: Config, name: string): (r: (Graph, bool))
    ensures r.1 <==> name in g.inputs
    ensures !r.1 ==> r.0 == g
    ensures r.1 ==> r.0 == OnGraphChanged(g, cfg, "graphRemoveInput", true).(inputs := g.inputs - {name})
    ensures name !in r.0.inputs
  {
    if name !in g.inputs then (g, false)
    else (OnGraphChanged(g.(inputs := g.inputs - {name}), cfg, "graphRemoveInput", true), true)
  }

  /** Adding a new input and removing it again leaves the inputs as they were. */
  lemma AddThenRemoveGlobalInput(g: Graph, cfg: Config, name: string, t: SlotType, value: JsVal)
    requires name !in g.inputs
    ensures RemoveGlobalInput(AddGlobalInput(g, cfg, name, t, value), cfg, name).0.inputs == g.inputs
  {
    assert (g.inputs[name := GlobalSlot(name, t, value)]) - {name} == g.inputs;
  }

  /** `addOutput(name, type, value)`: unlike `addInput`, always (over)writes the entry. */
  function AddGlobalOutput(g: Graph, cfg: Config, name: string, t: SlotType, value: JsVal): (g': Graph)
    ensures g'.outputs == g.outputs[name := GlobalSlot(name, t, value)]
    ensures g' == OnGraphChanged(g, cfg, "addOutput", true).(outputs := g'.outputs)
  {
    OnGraphChanged(g.(outputs := g.outputs[name := GlobalSlot(name, t, value)]), cfg, "addOutput", true)
  }

  function SetGlobalOutputData(g: Graph, name: string, value: JsVal): (g': Graph)
    ensures name !in g.outputs ==> g' == g
    ensures name in g.outputs ==> g' == g.(outputs := g.outputs[name := g.outputs[name].(value := value)])
  {
    if name in g.outputs then g.(outputs := g.outputs[name := g.outputs[name].(value := value)]) else g
  }

  function GetGlobalOutputData(g: Graph, name: string): (v: JsVal)
    ensures name !in g.outputs ==> v == Null
    ensures name in g.outputs ==> v == g.outputs[name].value
  {
    if name in g.outputs then g.outputs[name].value else Null
  }

  lemma GlobalOutputRoundTrip(g: Graph, name: string, value: JsVal)
    requires name in g.outputs
    ensures GetGlobalOutputData(SetGlobalOutputData(g, name, value), name) == value
  {
  }

  /**
   * `renameOutput(old, new)`: `false` when the old name is missing or the new
   * one is taken (so also when they are equal); otherwise moves the entry and
   * bumps `_version` directly, without the history.
   */
  function RenameGlobalOutput(g: Graph, oldName: string, newName: string): (r: (Graph, JsVal))
    ensures oldName !in g.outputs || newName in g.outputs ==> r == (g, Bool(false))
    ensures oldName in g.outputs && newName !in g.outputs ==>
      r.1 == Undef && r.0.version == g.version + 1 && r.0.history == g.history &&
      r.0.outputs.Keys == g.outputs.Keys - {oldName} + {newName} && r.0.outputs[newName] == g.outputs[oldName] &&
      r.0 == g.(version := r.0.version, outputs := r.0.outputs)
  {
    if oldName !in g.outputs || newName in g.outputs then (g, Bool(false))
    else (g.(outputs := (g.outputs - {oldName})[newName := g.outputs[oldName]], version := g.version + 1), Undef)
  }

  /** Unlike inputs, renaming an output to its own name reports failure. */
  lemma RenameOutputToItself(g: Graph, cfg: Config, name: string)
    requires name in g.outputs && name in g.inputs
    ensures RenameGlobalOutput(g, name, name).1 == Bool(false)
    ensures RenameGlobalInput(g, cfg, name, name).1 == Undef
  {
  }

  function ChangeGlobalOutputType(g: Graph, cfg: Config, name: string, t: SlotType): (r: (Graph, JsVal))
    ensures name !in g.outputs ==> r == (g, Bool(false))
    ensures name in g.outputs && SameTypeName(g.outputs[name].stype, t) ==> r == (g, Undef)
    ensures name in g.outputs && !SameTypeName(g.outputs[name].stype, t) ==>
      r.1 == Undef && r.0 == OnGraphChanged(g, cfg, "changeOutputType", true).(outputs := g.outputs[name := g.outputs[name].(stype := t)])
  {
    if name !in g.outputs then (g, Bool(false))
    else if SameTypeName(g.outputs[name].stype, t) then (g, Undef)
    else (OnGraphChanged(g.(outputs := g.outputs[name := g.outputs[name].(stype := t)]), cfg, "changeOutputType", true), Undef)
  }

  function RemoveGlobalOutput(g: Graph, cfg: Config, name: string): (r: (Graph, bool))
    ensures r.1 <==> name in g.outputs
    ensures !r.1 ==> r.0 == g
    ensures r.1 ==> r.0 == OnGraphChanged(g, cfg, "removeOutput", true).(outputs := g.outputs - {name})
    ensures name !in r.0.outputs
  {
    if name !in g.outputs then (g, false)
    else (OnGraphChanged(g.(outputs := g.outputs - {name}), cfg, "removeOutput", true), true)
  }
}
