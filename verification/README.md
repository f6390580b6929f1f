# litegraph.js dataflow core in Dafny

This project models the engine of litegraph.js, a node-graph library. A
graph holds nodes. Each node has input and output slots. Links run from an
output slot of one node to an input slot of another. The engine keeps the
graph consistent while nodes are added, connected, disconnected and removed.
It computes an execution order and runs the nodes. Running a node means
polling it each step, firing events along its output links, and delivering
actions, either at once or deferred to the next step.

The model is a set of pure functions over immutable values. Each module
follows one part of the program:

- `Base`: optional values, JavaScript values and exceptions, and the string
  helpers the engine relies on (`toLowerCase` on ASCII, `split`, `indexOf`,
  `String(n)`).
- `Link`: `LLink`, with its two serialized shapes.
- `SlotTypes`: slot types and `LiteGraph.isValidConnection`.
- `Registry`: the slot-type registry of `registerNodeAndSlotType`.
- `Util`: `hex2num`, `num2hex` and `clamp`.
- `Nodes`: `LGraphNode` on its own. This covers slot lookup, slot creation,
  `changeMode`, `setProperty`, `configure` and `LiteGraph.createNode`.
- `Graphs`: the `LGraph` record and the settings the engine reads (`Config`,
  whose `Defaults` are the values the `LiteGraph` constructor sets). It also
  holds `getNodeById`, `onGraphChanged` with its history ring, the history
  walk, and the named global inputs and outputs.
- `Order` and `OrderTopology`: `computeExecutionOrder` and
  `updateExecutionOrder`, and what they guarantee on well-formed graphs.
- `Ancestors`: `getAncestors`.
- `Connections`, `Integrity`, `Dataflow`, `Reshape`: the connection
  protocol. This covers `connect`, `disconnectInput`, `disconnectOutput`,
  `removeInput`, `removeOutput`, `setOutputData`, `getInputData`,
  `getInputNode`, `connectionChange` and `removeLink`.
- `Store`: `add`, `remove` and `clear`.
- `Execution` and `Runs`: `doExecute` with its after-execute hook,
  `actionDo`, `trigger`, `triggerSlot`, `executePendingActions`,
  `refreshAncestors` and `runStep`.
- `Loading`: `LGraph.configure`.

A graph is well-formed (`WF`) when two conditions hold. First, its two node
indexes agree (`StoreOk`). Second, every link is recorded consistently in
three places (`LinksOk`): the graph's `links`, the origin output's `links`
list and the target input's `link`. Most operations are proved to keep `WF`.

A few modelling choices apply throughout:

- A node's callbacks (`onExecute`, `onAction`) are scripts of commands:
  trigger an event, trigger a slot, or write an output. Every callback call
  is appended to the graph's call log, so the order of execution is
  observable.
- JavaScript's call stack is a `fuel` budget. Running out of it raises a
  RangeError, as an unbounded chain of events does in the program.
- The random suffix of an `action_call` id is a counter kept in the graph.
- `LiteGraph.ON_REQUEST` is never defined in the program, so it reads as
  `undefined`. The model treats it as the unset mode.
- JavaScript's `/` is floating-point division. In `num2hex` its result only
  reaches `charAt`, which truncates the index toward zero. So `Util.TruncDiv`
  followed by `Util.CharAt` gives what `/` followed by `charAt` gives on
  integers. JavaScript's `%` takes the sign of the dividend; `Util.TruncRem`
  writes it out.

## Model

| member | source | states |
|---|---|---|
| `Link.NewLink` | src/llink.js:18-28 | A new link carries the six given fields and no data. |
| `Link.Configure` | src/llink.js:34-52 | Either shape sets the six fields, and the carried data is kept. |
| `Link.ConfigureSerializeRoundTrip` | src/llink.js:58-67 | Configuring any link from its serialized tuple reproduces it, apart from the data. |
| `Link.SerializeConfigureRoundTrip` | src/llink.js:34-42 | Serializing a link configured from a tuple gives back that tuple. |
| `Link.ConfigureShapesAgree` | src/llink.js:43-51 | The array shape and the object shape of the same fields configure the same link. |
| `SlotTypes.Normalise` | src/litegraph.js:695-696 | `""` and `"*"` become the falsy wildcard, and every other type is kept as it is. |
| `SlotTypes.IsValidConnectionMeansCompatible` | src/litegraph.js:694-730 | `isValidConnection` holds exactly when the types meet a reference compatibility relation: a wildcard, an EVENT/ACTION pair, equal values, or a shared lower-cased element of the comma lists. |
| `SlotTypes.IsValidConnectionSymmetric` | src/litegraph.js:694-730 | The answer does not depend on which type is the output's. |
| `SlotTypes.PlainTypesCompareCaseInsensitively` | src/litegraph.js:706-715 | Two plain types are compatible exactly when they are equal ignoring case. |
| `SlotTypes.AlwaysAccepted` | src/litegraph.js:697-704 | Wildcards, equal types and EVENT into ACTION are always accepted. |
| `SlotTypes.AnyPairValidIff` | src/litegraph.js:717-729 | The nested loops accept exactly when some pair of list elements match. |
| `SlotTypes.ElementValidIffMatch` | src/litegraph.js:695-715 | Two comma-free lower-case elements are compatible exactly when they match. |
| `Registry.AddNameKeepsStrictOrder` | src/litegraph.js:327-336 | Adding a name to a strictly sorted list keeps it strictly sorted and adds exactly that name. |
| `Registry.RegisterNamesOrdered` | src/litegraph.js:293-339 | Registration keeps both name lists strictly sorted, adds exactly the lower-cased names of the type's parts, and leaves the other direction alone. |
| `Registry.RegisterNamesRecordsClass` | src/litegraph.js:316-324 | Registration records the class under every registered name. |
| `Registry.ClassStaysRegistered` | src/litegraph.js:316-324 | A later registration never removes a class already recorded under a name. |
| `Registry.RegisterNodeAndSlotTypeSpec` | src/litegraph.js:293-339 | Both lists stay strictly sorted and gain exactly the type's names, and the class is recorded under each of them. |
| `Util.Hex2NumNum2Hex` | src/litegraph.js:896-927 | `hex2num` undoes `num2hex` on every triplet of bytes. |
| `Util.Num2HexHex2Num` | src/litegraph.js:896-927 | A "#" and six upper-case hex digits survive `hex2num` followed by `num2hex`. |
| `Util.Num2HexShape` | src/litegraph.js:916-927 | `num2hex` of a byte triplet is "#" and six upper-case hex digits. |
| `Util.Hex2NumIgnoresHash` | src/litegraph.js:897-899 | A leading "#" does not change the value. |
| `Util.Hex2NumIgnoresCase` | src/litegraph.js:900 | Letter case does not change the value. |
| `Util.Clamp` | src/litegraph.js:985-987 | With ordered bounds the result lies between them, and it is the value itself when the value already does. |
| `Util.ClampIdempotent` | src/litegraph.js:985-987 | Clamping twice is clamping once. |
| `Util.TruncDiv` | src/litegraph.js:921 | The index `charAt` reads after `/`, for a positive divisor: Euclidean division on a non-negative dividend. On a negative dividend it is at most zero, and the product with the divisor lies within one divisor above the dividend, so it rounds toward zero. |
| `Util.TruncRem` | src/litegraph.js:922 | JavaScript `%` for a positive divisor: with the truncated quotient it recombines to the dividend. On a non-negative dividend it is the Euclidean remainder, in `[0, b)`. On a negative dividend it lies in `(-b, 0]`, taking the dividend's sign. |
| `Util.TruncDivRemUnique` | src/litegraph.js:921-922 | The truncated quotient and remainder are the only pair that recombines to the dividend while the remainder has the dividend's sign and is smaller than the divisor. |
| `Base.LowerKeepsChar` | src/litegraph.js:709-710 | Lower-casing never creates or removes a character that is not a letter. |
| `Base.JoinSplit` | src/litegraph.js:718-719 | Joining the pieces of a split with the separator gives back the string. |
| `Nodes.BlankNode` | src/lgraphnode.js:115-140 | A new node has id -1, the given title, no slots, no properties, no callbacks and nothing queued. |
| `Nodes.FindInputSlot` | src/lgraphnode.js:1534-1544 | The result is the first input with that name, or -1 when there is none. |
| `Nodes.FindOutputSlot` | src/lgraphnode.js:1553-1563 | The result is the first output with that name, or -1 when there is none. |
| `Nodes.FindInputSlotFree` | src/lgraphnode.js:1573-1592 | The result is the first unlinked input of an accepted type, or -1 when there is none. |
| `Nodes.FindOutputSlotFreeAsWritten` | src/lgraphnode.js:1600-1619 | As written, an output whose `links` is an empty array counts as occupied. |
| `Nodes.FindOutputSlotFree` | src/lgraphnode.js:1600-1619 | Corrected, the result is the first output of an accepted type with no links at all. |
| `Nodes.EmptyLinksOutputExample` | src/lgraphnode.js:1610 | An output whose links were all disconnected is reported free only by the corrected search. |
| `Nodes.FreeOutputSearchesAgree` | src/lgraphnode.js:1600-1619 | The two searches agree on every node whose outputs never hold an empty links array. |
| `Nodes.FindSlotByTypeImpl` | src/lgraphnode.js:1644-1692 | When some slot passes the first pass, the first such slot is returned: its type list meets the searched type, event markers included, and with free slots preferred it is not a busy output. Failing that, with free slots preferred and occupied ones allowed, the first slot whose list meets the type in the second pass is returned, busy or not. Otherwise the result is -1. A busy output is returned under `preferFreeSlot` only when no free slot matches and occupied ones are allowed. |
| `Nodes.FindSlotByTypeFindsListedType` | src/lgraphnode.js:1660-1672 | Corrected, a slot whose type list contains the searched plain type is found by the first pass, or an earlier hit is. |
| `Nodes.EventSearchMissesSecondElement` | src/lgraphnode.js:1664-1666 | As written, a search for `"_event_"` misses an output typed `"a,_event_"`. |
| `Nodes.EventSlotMissed` | src/lgraphnode.js:1664 | As written, the comparison misses the marker in the second list element. |
| `Nodes.EventSlotHit` | src/lgraphnode.js:1664 | Corrected, the same comparison finds it. |
| `Nodes.AddInput` | src/lgraphnode.js:1053-1080 | The node gains exactly one unlinked input at the end, and the type is registered as an input type of the node's class. |
| `Nodes.AddOutput` | src/lgraphnode.js:1056-1080 | The node gains exactly one output with null links at the end. Its type is registered only with `auto_load_slot_types`. |
| `Nodes.AddOnTriggerInput` | src/lgraphnode.js:711-718 | The result is the index of an input named "onTrigger". One of type EVENT is added only when none exists. |
| `Nodes.AddOnExecutedOutput` | src/lgraphnode.js:720-727 | The result is the index of an output named "onExecuted". One of type ACTION is added only when none exists. |
| `Nodes.ChangeMode` | src/lgraphnode.js:737-760 | An unknown mode value fails and changes nothing. A known one is stored, and ON_TRIGGER first guarantees the two trigger slots. |
| `Nodes.ChangeModeOnTriggerIdempotent` | src/lgraphnode.js:740-743 | Switching to ON_TRIGGER twice adds no further slots. |
| `Nodes.ChangeModeGainsUnlinkedSlots` | src/lgraphnode.js:737-760 | A mode change never touches a link; at most it appends unlinked slots. |
| `Nodes.SetProperty` | src/lgraphnode.js:352-374 | A strictly equal value changes nothing. Otherwise the value is stored, and it is put back when the hook vetoes the change. |
| `Nodes.SetPropertyThenRead` | src/lgraphnode.js:352-374 | After the call the property reads as the new value unless the hook vetoed it. |
| `Nodes.VetoedSetPropertyKeepsReadings` | src/lgraphnode.js:360-366 | A vetoed change leaves every property reading as it was. |
| `Nodes.ConfigureNode` | src/lgraphnode.js:158-226 | Id and type are copied, the title falls back to the class title, and an absent mode is kept. Properties are merged key by key, and the serialized slot lists overwrite a prefix of the node's own. |
| `Nodes.ConfigureWithOwnInfo` | src/lgraphnode.js:158-226 | Configuring a titled node from its own serialized fields changes nothing. |
| `Nodes.ConfigureRestoresSlots` | src/lgraphnode.js:158-226 | Configuring a fresh node from a node's fields reproduces that node's slots and properties. |
| `Nodes.CreateNode` | src/litegraph.js:488-552 | An unregistered type, or a throwing constructor with `catch_exceptions`, gives null. Otherwise the node has the type, the title and the slots and callbacks of its class, and an unset class mode becomes ALWAYS. |
| `Graphs.GetNodeById` | src/lgraph.js:873-878 | The result is the node stored under that id, or none. |
| `Graphs.SaveHistory` | src/lgraph.js:1574-1600 | The new version is appended, the pointer moves to it, and the action is saved there. Without a limit, the versions after the old pointer are dropped first. |
| `Graphs.SaveHistoryKeepsShape` | src/lgraph.js:1574-1600 | Without a save limit the history stays well-shaped and points at its new last version. |
| `Graphs.BoundedHistoryRepeatsIndex` | src/lgraph.js:1589-1597 | With a save limit of 2, saving into the full list [0, 1] gives [1, 1]: the new index repeats the last one. |
| `Graphs.OnGraphChanged` | src/lgraph.js:1555-1604 | Treating the debug logger as a no-op, `_version` goes up by one, and history is saved exactly when both saving flags are on. |
| `Graphs.OnGraphChangedAsWritten` | src/lgraph.js:1555-1566 | As written, any `debug` value other than undefined or null throws a TypeError right after `_version` is incremented. With those two it is `OnGraphChanged`. |
| `Graphs.GraphChangeThrowsWithShippedDebug` | src/litegraph.js:104 | With the shipped setting every graph change throws. |
| `Graphs.ActionHistoryBack` | src/lgraph.js:1611-1634 | A step back succeeds exactly when the pointer is at least 0 and the entry before it was saved. Otherwise the pointer stays. |
| `Graphs.ActionHistoryForward` | src/lgraph.js:1641-1663 | A step forward succeeds exactly when the pointer is below the number of versions and the entry after it was saved. Otherwise the pointer stays. |
| `Graphs.BackThenForward` | src/lgraph.js:1611-1663 | Going back and then forward returns to the same pointer. |
| `Graphs.BackSucceedsIffPastFirst` | src/lgraph.js:1611-1634 | In a well-shaped history, stepping back succeeds exactly when the pointer is past the first version. |
| `Graphs.AddGlobalInput` | src/lgraph.js:1008-1021 | A taken name changes nothing. A new name gains an entry with the given type and value. |
| `Graphs.GlobalInputRoundTrip` | src/lgraph.js:1029-1049 | A value written to an existing global input reads back. |
| `Graphs.RenameGlobalInput` | src/lgraph.js:1057-1077 | Equal names give `undefined` and no change. A missing old name or a taken new one gives `false`. Otherwise the entry moves. |
| `Graphs.RenameGlobalInputBack` | src/lgraph.js:1057-1077 | Renaming there and back restores the inputs. |
| `Graphs.ChangeGlobalInputType` | src/lgraph.js:1085-1101 | An unknown name gives `false`. A type that prints the same changes nothing. Otherwise the type is stored. |
| `Graphs.RemoveGlobalInput` | src/lgraph.js:1109-1120 | The result is true exactly when the input existed, and it is then gone. |
| `Graphs.AddThenRemoveGlobalInput` | src/lgraph.js:1008-1120 | Adding a new input and removing it leaves the inputs as they were. |
| `Graphs.AddGlobalOutput` | src/lgraph.js:1129-1135 | Unlike inputs, the entry is always written. |
| `Graphs.GlobalOutputRoundTrip` | src/lgraph.js:1143-1163 | A value written to an existing global output reads back. |
| `Graphs.RenameGlobalOutput` | src/lgraph.js:1171-1187 | A missing old name or a taken new one gives `false`. Otherwise the entry moves. |
| `Graphs.RenameOutputToItself` | src/lgraph.js:1171-1187 | Renaming an output to its own name reports failure. |
| `Graphs.ChangeGlobalOutputType` | src/lgraph.js:1195-1211 | An unknown name gives `false`. A type that prints the same changes nothing. Otherwise the type is stored. |
| `Graphs.RemoveGlobalOutput` | src/lgraph.js:1218-1228 | The result is true exactly when the output existed, and it is then gone. |
| `Order.KahnOrder` | src/lgraph.js:380-436 | The main loop emits distinct nodes of the graph. |
| `Order.SortByPriority` | src/lgraph.js:455-463 | The sort is a permutation that runs by non-decreasing priority. |
| `Order.SortByPriorityStable` | src/lgraph.js:455-463 | Each priority class keeps its relative order. |
| `Order.ComputeExecutionOrderSpec` | src/lgraph.js:341-471 | The order holds every node of the graph exactly once, by non-decreasing priority. |
| `Order.ComputeExecutionOrderStable` | src/lgraph.js:437-463 | Within each priority the order keeps the unsorted order: the emitted nodes, then the left-over ones. |
| `Order.UpdateExecutionOrderSpec` | src/lgraph.js:319-331 | Every node appears exactly once, and each node's `order` is its position in the list. The executable list holds exactly the nodes with `onExecute`. |
| `OrderTopology.LinkedInputsCountInLinks` | src/lgraph.js:390-402 | In a well-formed graph, a node's count of linked inputs is the number of links ending at it. |
| `OrderTopology.KahnOrderTopological` | src/lgraph.js:380-436 | In a well-formed graph, every link into an emitted node starts at a node emitted earlier. |
| `OrderTopology.StartNodesEmitted` | src/lgraph.js:390-402 | Every node without a linked input is emitted. |
| `OrderTopology.LeftOverFed` | src/lgraph.js:437-452 | A node the loop never emits has an incoming link from another node it never emits. |
| `OrderTopology.KahnOrderComplete` | src/lgraph.js:380-436 | In a well-formed acyclic graph the loop emits every node, so nothing is left over. |
| `OrderTopology.KahnOrderRanks` | src/lgraph.js:380-436 | Conversely, when every node is emitted, the emission positions number the graph acyclically. |
| `OrderTopology.OrderIsEmission` | src/lgraph.js:437-463 | Under one priority and with nothing left over, the execution order is the emission order. |
| `OrderTopology.LinksRunForward` | src/lgraph.js:319-331 | In a well-formed acyclic graph with one priority, each link's origin gets a smaller `order` than its target. |
| `Ancestors.GetAncestorsSound` | src/lgraph.js:479-567 | The result is distinct nodes, never the start itself. Each is upstream through input links and has an admitted mode. The result is in execution order when every found node has one. |
| `Ancestors.GetAncestorsComplete` | src/lgraph.js:479-567 | Without filters, the result is exactly the nodes upstream of the start. |
| `Ancestors.CollectSorts` | src/lgraph.js:556-566 | The sort keeps the crawled nodes and orders them by execution order. |
| `Ancestors.CrawlClosed` | src/lgraph.js:505-553 | Without filters the crawl visits the start and is closed under following any input link. |
| `Ancestors.TypesOnlyReadsModeAsWritten` | src/lgraph.js:548 | As written, with `typesOnly: ["number"]`, node 1 feeding node 2 through a "number" input is not found. The corrected crawl finds it. |
| `Ancestors.TypesOnlyFollowsListedTypes` | src/lgraph.js:540-552 | Corrected, every node feeding the start through an input of a listed type is found. |
| `Connections.ConnectionChange` | src/lgraph.js:1280-1285 | The execution order is rebuilt from the current graph, and the version goes up by one. |
| `Connections.Connect` | src/lgraphnode.js:1809-1991 | The node store stays consistent and keeps the same nodes. |
| `Connections.DisconnectInput` | src/lgraphnode.js:2145-2227 | A bad slot gives false and no change. Links are only ever removed, and a false result removes none. The node store keeps its shape. |
| `Connections.DisconnectInputIntended` | src/lgraphnode.js:2145-2227 | Corrected, a plugged link leaves the link store in every case. |
| `Connections.DisconnectOutput` | src/lgraphnode.js:2000-2137 | A bad slot or an output without links gives false and no change. Links are only ever removed, and a true result bumps the version. The only errors are a TypeError and "Target Node not found", which changes nothing. |
| `Connections.RemoveLink` | src/lgraph.js:1339-1350 | An unknown link changes nothing, and the node store keeps its shape. |
| `Connections.SetOutputData` | src/lgraphnode.js:385-412 | Only output data and link data change: no slot, link or node moves. A bad slot changes nothing. |
| `Connections.GetInputData` | src/lgraphnode.js:449-489 | A negative index is a TypeError, and an index past the end reads `undefined`. |
| `Connections.GetInputNode` | src/lgraphnode.js:589-605 | A node is found only for an existing, plugged input. |
| `Connections.RemoveInput` | src/lgraphnode.js:1139-1151 | The node store stays consistent, and an existing input is dropped. |
| `Connections.RemoveOutput` | src/lgraphnode.js:1158-1178 | The node store stays consistent. A completed call leaves the node's outputs without exactly the one at `slot`, the others unchanged and in order. |
| `Integrity.DisconnectInputRemoves` | src/lgraphnode.js:2145-2227 | On a well-formed graph a valid slot succeeds, and its link leaves all three places. |
| `Integrity.DisconnectInputKeepsWF` | src/lgraphnode.js:2145-2227 | `disconnectInput` keeps a graph well-formed. |
| `Integrity.DisconnectInputStrandsLink` | src/lgraphnode.js:2168-2176 | As written, a link whose origin is gone stays in the link store after its input is cleared. |
| `Integrity.DisconnectInputIntendedAgrees` | src/lgraphnode.js:2145-2227 | On a well-formed graph the corrected and the as-written versions agree. |
| `Integrity.DisconnectOutputRemoves` | src/lgraphnode.js:2000-2137 | On a well-formed graph, without a target every link of the output leaves all three places and the list becomes null. An unknown target throws "Target Node not found". With a target, the first link to it is removed. |
| `Integrity.DisconnectOutputKeepsWF` | src/lgraphnode.js:2000-2137 | `disconnectOutput` keeps a graph well-formed. |
| `Integrity.DisconnectToRemoves` | src/lgraphnode.js:2022-2075 | The first link of the list that ends at the target leaves all three places. |
| `Integrity.DisconnectAllRemoves` | src/lgraphnode.js:2076-2132 | Every link of the output leaves all three places, and the list becomes null. |
| `Integrity.AttachSpec` | src/lgraphnode.js:1869-1990 | On a well-formed graph it links exactly when both slots are non-negative and the target accepts: no hook refuses and the types may connect. It throws exactly for a negative target slot. A new link is recorded in all three places; otherwise the graph is unchanged. The new link has id `last_link_id + 1` and the type of the input, or of the output when the input's is falsy. The resulting graph is the old one with only two changes: the link the input held is taken out, and so are the EVENT output's links when only one is allowed; then the new link is added. |
| `Integrity.PlugLinks` | src/lgraphnode.js:1904-1990 | Plugging records the link `last_link_id + 1` in all three places and keeps the graph well-formed. |
| `Integrity.AttachToTriggerSpec` | src/lgraphnode.js:1847-1857 | Connecting to the EVENT slot keeps the graph well-formed. A link it makes ends at the target's "onTrigger" input and is made as `Integrity.AttachSpec` states, in the graph after the target switched to ON_TRIGGER; otherwise no link changes. |
| `Integrity.ConnectSpec` | src/lgraphnode.js:1809-1991 | It keeps a graph well-formed. A returned link leaves the given output for another node and is recorded in all three places. It has id `last_link_id + 1` and the type of the input, or of the output when the input's is falsy. The graph differs from the one linked in only by the displaced links and the new one. That graph is the given one, or, for the EVENT slot with trigger slots on, the given one after the target switched to ON_TRIGGER. A null result changes no link, and nothing at all when trigger slots are off. |
| `Integrity.ConnectToSpec` | src/lgraphnode.js:1841-1990 | Once the target node is known, a returned link leaves the given output and is recorded in all three places. It has id `last_link_id + 1` and the type of the input, or of the output when the input's is falsy, and the graph changes only by the displaced links and the new one. A null result changes no link. |
| `Integrity.RemoveLinkSpec` | src/lgraph.js:1339-1350 | On a well-formed graph exactly that link leaves the store, its input and its origin list, and nothing else changes. |
| `Dataflow.SetOutputDataKeepsWF` | src/lgraphnode.js:385-412 | Writing data keeps a graph well-formed. |
| `Dataflow.DataReachesTarget` | src/lgraphnode.js:385-489 | After a write, every target of a link on the output reads the written value. |
| `Dataflow.SetOutputDataFrame` | src/lgraphnode.js:385-489 | Any input whose link is not on the written output's list reads what it read before. |
| `Dataflow.InputNodeIsOrigin` | src/lgraphnode.js:589-605 | On a well-formed graph a node is found exactly when the input is plugged, and it is the link's origin. |
| `Dataflow.InputDataIsLinkData` | src/lgraphnode.js:449-489 | On a well-formed graph an input reads its link's data, or `undefined` when unplugged. |
| `Reshape.RemoveInputSpec` | src/lgraphnode.js:1139-1151 | The graph stays well-formed. An existing input is spliced out, its link is gone, and links into later inputs end one slot lower. An index past the end changes nothing. |
| `Reshape.RemoveOutputSpec` | src/lgraphnode.js:1158-1178 | It does not throw and the graph stays well-formed. Exactly the output at `slot` is dropped, the others keep their order, its links are gone, and links from later outputs start one slot lower. An index past the end changes nothing. |
| `Reshape.ShiftTargetsMovesDown` | src/lgraphnode.js:1143-1146 | The loop moves exactly the links ending at later inputs one slot down. |
| `Reshape.ShiftOriginsMovesDown` | src/lgraphnode.js:1162-1173 | The loops move exactly the links leaving later outputs one slot down. |
| `Store.Add` | src/lgraph.js:697-779 | A full graph throws the node-limit error and keeps its nodes. Otherwise the node is stored and listed under the returned id. Links never change. |
| `Store.AddAssignsId` | src/lgraph.js:722-752 | A node keeps its own id unless it is -1 or taken; otherwise it gets `++last_node_id`. |
| `Store.AddKeepsStore` | src/lgraph.js:722-752 | While the counter bounds every id, the new id is one no node had, the store stays consistent, and the counter still bounds every id. |
| `Store.AddKeepsWF` | src/lgraph.js:697-779 | Adding a node that holds no link keeps a graph well-formed. |
| `Store.Remove` | src/lgraph.js:786-866 | An unknown node or one with `ignore_remove` changes nothing. Otherwise the node leaves both indexes and the order is rebuilt. |
| `Store.RemoveSpec` | src/lgraph.js:786-866 | It does not throw and the graph stays well-formed. The node leaves both indexes, exactly the links touching it are gone, and other nodes change only in their links. |
| `Store.Clear` | src/lgraph.js:47-114 | No nodes, links or order remain, the counters restart, and the graph is stopped. The registry and the error flags are kept. |
| `Store.ClearThenAdd` | src/lgraph.js:47-114 | A cleared graph is well-formed, and the first node added without an id gets id 1. |
| `Loading.DecodeLinksKeys` | src/lgraph.js:1413-1426 | The decoded store holds exactly the ids of the non-null tuples. |
| `Loading.DecodeLinksLastWins` | src/lgraph.js:1415-1424 | A tuple that no later tuple overrides is what its link serializes to. |
| `Loading.Placeholder` | src/lgraph.js:1442-1451 | An unbuildable node becomes a blank node flagged `has_errors` that keeps the stored info. |
| `Loading.ConfigureGraph` | src/lgraph.js:1401-1487 | No data gives `undefined` and no change. A completed load with data always reports whether there was an error. |
| `Loading.ConfigureLinks` | src/lgraph.js:1413-1431 | After loading, the link store is the one decoded from the non-null tuples. |
| `Loading.AddNodesFlags` | src/lgraph.js:1439-1455 | Nodes already stored are kept. Each new one is stored under its id and flagged exactly when its class is unknown. |
| `Loading.AddNodesError` | src/lgraph.js:1439-1455 | The loop reports an error exactly when some class is unknown. |
| `Loading.ConfigureFresh` | src/lgraph.js:1401-1487 | Fresh data with distinct ids under the limit leaves exactly those nodes, and the value says whether a placeholder was needed. |
| `Loading.ConfigureVersion` | src/lgraph.js:1474-1484 | After loading fresh data, the version is the stored `_version` (or -1) plus one per node, plus one more unless the stored version is truthy. |
| `Loading.ConfigureKeepOld` | src/lgraph.js:1406-1437 | With `keep_old` and no stored nodes, the old nodes stay reachable by id but leave the node list, and no error is reported. |
| `Execution.Trigger` | src/lgraphnode.js:879-891 | Triggering an event keeps the store consistent and never moves a link. |
| `Execution.TriggerSlot` | src/lgraphnode.js:900-984 | During an ancestor refresh it does nothing. It never moves a link. |
| `Execution.DoExecute` | src/lgraphnode.js:781-819 | No link moves. A node without `onExecute` or an "onExecuted" output is left alone. A node already executing is not run again. |
| `Execution.AfterHook` | src/lgraphnode.js:729-735 | Without an "onExecuted" output the hook does nothing. No link moves. |
| `Execution.ActionDo` | src/lgraphnode.js:836-871 | No link moves. A node without `onAction` or an "onExecuted" output is left alone. A hit unique-call guard throws a ReferenceError as written and does nothing once corrected. |
| `Execution.GuardedAction` | src/lgraphnode.js:842-867 | A hit unique-call guard throws a ReferenceError as written and does nothing once corrected. No link moves. |
| `Execution.ExecutePendingActions` | src/lgraphnode.js:766-773 | An empty queue does nothing, and a completed call leaves the queue empty. |
| `Execution.RefreshAncestors` | src/lgraphnode.js:2465-2513 | A completed refresh marks the node done and, unless prevented, unblocks triggering. As written, it throws exactly when there is an ancestor to run, leaving triggering blocked. |
| `Execution.RunStep` | src/lgraph.js:240-311 | A completed step advances the iteration and empties the per-step guards; a thrown one keeps the iteration. A caught error sets the error flag and stops the graph, and without `throw_errors` nothing escapes. |
| `Runs.RunStepKeepsWF` | src/lgraph.js:240-311 | A step keeps a well-formed graph well-formed, whether it completes or throws. |
| `Runs.DoExecuteGuarded` | src/lgraphnode.js:787-801 | A call that a guard stops changes nothing, whatever the callback. |
| `Runs.DoExecuteRunsUnlessGuarded` | src/lgraphnode.js:781-819 | When no guard stops it, a quiet callback runs once and is logged. The node is stamped with the iteration and call id, and then the after-execute hook runs. |
| `Runs.InvokeQuiet` | src/lgraphnode.js:804-815 | A quiet `onExecute` completes, is logged once, and leaves the node idle and stamped. |
| `Runs.InvokeActionQuiet` | src/lgraphnode.js:857-867 | A quiet `onAction` with a call id completes, records the id and leaves the node idle. |
| `Runs.ActionDoUnguarded` | src/lgraphnode.js:836-871 | With no guard hit, `actionDo` is the `onAction` call: it completes, records the call id and leaves the node idle. |
| `Runs.RepeatedActionCall` | src/lgraphnode.js:849-854 | A second `actionDo` with the same call id throws a ReferenceError as written, and does nothing once corrected. |
| `Runs.MarkAllMarks` | src/lgraphnode.js:2504-2507 | Marking keeps what was marked and marks every given node. |
| `Runs.RunPassive` | src/lgraphnode.js:2504-2507 | The loop over passive ancestors only marks each of them done. |
| `Runs.RefreshPassiveAncestors` | src/lgraphnode.js:2465-2513 | Corrected, with only passive ancestors the refresh completes unblocked. The node and every ancestor are marked, and nothing else changes. |
| `Runs.RefreshThrowsAsWritten` | src/lgraphnode.js:2504 | As written, any ancestor makes the refresh throw a ReferenceError with triggering still blocked, so every later `triggerSlot` does nothing. |
| `Runs.TriggerInert` | src/lgraphnode.js:879-891 | During an ancestor refresh, or with no EVENT output of that name, `trigger` does nothing. |
| `Runs.TriggerFromSkips` | src/lgraphnode.js:886-890 | The loop passes over an output that cannot fire. |
| `Runs.DrainInOrder` | src/lgraphnode.js:766-773 | The replay loop calls a quiet `onAction` once per entry, in queue order. |
| `Runs.PendingInOrder` | src/lgraphnode.js:766-773 | A quiet `onAction` is called once per queued entry in queue order, and the queue ends empty. |
| `Runs.StepNodeIdle` | src/lgraph.js:253-260 | A pass leaves alone a node that is not ALWAYS and has nothing to replay. |
| `Runs.PollRuns` | src/lgraph.js:253-260 | Polling an idle node with a quiet `onExecute` runs it once, logged under a fresh call id. |
| `Runs.StepNodeDrainsThenPolls` | src/lgraph.js:253-260 | A pass over an ALWAYS node logs the replay of its whole queue first, then one poll. |
| `Runs.StepNodeSplits` | src/lgraph.js:253-260 | A pass over one node is the queue replay, when actions are deferred, followed by the poll of an ALWAYS node. |
| `Runs.TriggerDefers` | src/lgraphnode.js:962-977 | A single link into a deferring action target queues one entry named after its input, and nothing else changes. |
| `Runs.FireDefersAll` | src/lgraphnode.js:934-981 | With deferral on, the loop over links into deferring targets runs no callback. It queues one entry per link, in link order, at each target. |
| `Runs.TriggerDefersAll` | src/lgraphnode.js:900-984 | `triggerSlot` on an output whose links all enter deferring targets queues one entry per link, in link order. Nothing else changes. |
| `Runs.FireSkips` | src/lgraphnode.js:940-951 | A link with no stored link or no target, or to a target that is neither ON_TRIGGER nor has `onAction`, is skipped. With the call id set and no ancestor refresh, so is a link to an ON_TRIGGER target without `onExecute`. |
| `Runs.FireRunsTrigger` | src/lgraphnode.js:952-961 | A link into an ON_TRIGGER target that has `onExecute` runs its `doExecute` with the loop's call id. The loop stops at an error, whatever the callbacks do. |
| `Runs.FireRunsAction` | src/lgraphnode.js:962-981 | A link into an action target that does not defer runs its `actionDo`, named after the input. The loop stops at an error. |
| `Runs.FireActionDirect` | src/lgraphnode.js:962-981 | Without ancestor refresh, an action target's part of the loop is its `actionDo`. |

## Left out

- Canvas drawing, timing (`getTime`, `_last_trigger_time`), file and URL loading, and the groups are not modelled. None of them affects the graph's structure or the order of execution.
- The shipped `LiteGraph.debug` is the boolean `false`, and every `LiteGraph.debug?.(…)` call then throws a TypeError. The model treats every such call as a no-op logger; only `Graphs.OnGraphChangedAsWritten` follows the shipped value. This covers lgraphnode.js lines 732, 788, 792, 799, 848, 852, 968 and 1892, and lgraph.js lines 1483 and 1619-1683. The shipped behaviour is shown once, in the Findings row below; modelling it everywhere would leave almost every operation a constant throw.
- `Execution.ActionDo`: `asWritten` selects the intended no-op logger plus the `ç` and `iN` ReferenceErrors. It does not select the TypeError that line 848 would raise first under the shipped `debug`.
- The random four-digit suffix of an `action_call` id is replaced by a counter kept in the graph. This makes ids fresh, where random draws could repeat.
- `use_uuids` is off, as it is by default. Node ids are integers and `uuidv4` is not modelled.
- `Base.Lower`: lower-cases the ASCII letters only; JavaScript's `toLowerCase` also maps other Unicode letters.
- `Base.Upper`: upper-cases the ASCII letters only. JavaScript's `toUpperCase` also maps other Unicode letters and can change a string's length ("ß" becomes "SS"). `Util.Hex2Num` applies it to any string, so it and `Util.Hex2NumIgnoresCase` match the source only on ASCII input.
- `Nodes.CreateNode`: `catch_exceptions` is taken as on, its default, so a throwing constructor gives null. With it off, the exception would propagate; that is not modelled. The `options` argument, whose fields the source copies onto the new node one by one (litegraph.js:536-541), is not modelled either: a node here has a fixed set of fields.
- `Execution.GuardedAction`: the single-action guard compares `nodes_actioning[id]` with the call id strictly. JavaScript's loose `==` would also treat the idle value `false` as equal to a call id that converts to 0, such as "" or "0". `triggerSlot` and `actionDo` never produce such an id; only a caller passing one explicitly would see the difference.
- `Util.Clamp`: works over integers rather than JavaScript numbers, so NaN and fractions are not covered.
- Slot types compare a string with a number as the decimal spelling of an integer. Other numeric spellings, such as "-1.0", are not modelled.
- Graph `configure`: groups, `extra`, `onConfigure` and data fields the model does not hold are not copied. Links given as an object rather than an array are not decoded.
- `clear` does not call `stop()` or the nodes' `onRemoved` callbacks: the run loop and timers are not modelled, and callbacks are only `onExecute` and `onAction`.
- The node callbacks other than `onExecute` and `onAction` are not modelled: `onConnectInput`, `onConnectOutput`, `onPropertyChanged`, `onConnectionsChange`, `onAdded` and `onRemoved`. The refusal hooks of `connect` and `setProperty` are modelled as yes/no capabilities of the node's class.
- `connectByType`, `connectByTypeOutput` and `findSlotByType` with `returnObj` are not modelled. Only the search they rely on is.
- `getInputData` with `force_update`, and `getInputData` with `refresh_tree`, are not modelled: they run the origin node on demand.
- The depth of the JavaScript stack is the `fuel` parameter. A chain of triggers that exhausts it raises a RangeError, whatever the real stack size would be.
- `actionHistoryLoad` records only that a saved state was loaded. The graph snapshot itself is not modelled, so a loaded snapshot does not replace the graph.
- `Runs.DoExecuteRunsUnlessGuarded`: stated for quiet callbacks only, which write outputs but trigger nothing. With general scripts the claim about the call log would have to follow every nested trigger.
- `Runs.PendingInOrder`: stated for a quiet `onAction` only, for the same reason.
- `Runs.DrainInOrder`: stated for a quiet `onAction` only.
- `Runs.PollRuns`: stated for a quiet `onExecute` only.
- `Runs.StepNodeDrainsThenPolls`: stated for quiet callbacks only. `Runs.StepNodeSplits` gives the drain-then-poll split for any callbacks.
- `Runs.TriggerDefers`: covers a single link; `Runs.TriggerDefersAll` covers any list of links.
- `Execution.Trigger`: its own contract says only that no link moves. What it dispatches is stated by `Runs.TriggerInert` and by the `Runs.Fire…` lemmas for the loop of `triggerSlot`.
- `Execution.TriggerSlot`: its own contract covers the early exits and the wiring. The per-target dispatch is stated by `Runs.FireSkips`, `Runs.FireRunsTrigger`, `Runs.FireRunsAction` and `Runs.FireDefersAll`.

## Findings

| source | as written | input that shows it | evidently intended | confidence | as-written member | corrected member |
|---|---|---|---|---|---|---|
| src/lgraphnode.js:852 | A stray `ç` follows the debug call in the unique-call guard of `actionDo`. In strict class code it is an undeclared identifier and throws a ReferenceError. | `ensureUniqueExecutionAndActionCall` on, and `actionDo` called twice with the same `action_call` on a node with a quiet `onAction` | the guard returns and the repeated action is skipped | not executed | `Runs.RepeatedActionCall` | `Execution.GuardedAction` |
| src/lgraphnode.js:2504 | `for(iN in aAncestors)` assigns the undeclared `iN` in strict code, which throws a ReferenceError on the first ancestor. `ancestorsCall` then stays true. | `refreshAncestors()` on any node with one ancestor | every ancestor runs, and the node and its ancestors are marked done | not executed | `Runs.RefreshThrowsAsWritten` | `Runs.RefreshPassiveAncestors` |
| src/lgraph.js:548 | The `typesOnly` filter compares the list with the node's `mode` instead of the input's type. | `typesOnly: ["number"]`, where node 2's input of type "number" is fed by node 1 in mode 0 | node 1 is an ancestor of node 2 | not executed | `Ancestors.TypesOnlyReadsModeAsWritten` | `Ancestors.TypesOnlyFollowsListedTypes` |
| src/lgraphnode.js:1664-1666 | The first pass of `findSlotByType` compares list element `iS` of the slot before that element's `_event_` marker is replaced. | searching outputs for `"_event_"` on a node whose only output is typed `"a,_event_"` | the output is found | not executed | `Nodes.EventSearchMissesSecondElement` | `Nodes.EventSlotHit` |
| src/lgraphnode.js:2168-2191 | `disconnectInput` clears the input and then returns early, keeping the link in `graph.links`, when the origin node is missing (2174-2175) or the origin output is missing or has no links (2179-2180). Otherwise it deletes the link from `graph.links` (2191), even when the id is not in the output's list. | an input holding a link whose origin node is no longer in the graph | the link leaves the link store too | not executed | `Integrity.DisconnectInputStrandsLink` | `Connections.DisconnectInputIntended` |
| src/lgraphnode.js:1610 | `findOutputSlotFree` treats any truthy `links`, including an empty array, as occupied. | an output whose only link was disconnected (`links == []`) | the output is free | not executed | `Nodes.FindOutputSlotFreeAsWritten` | `Nodes.FindOutputSlotFree` |
| src/lgraph.js:1566 | `LiteGraph.debug` is set to `false` (litegraph.js:104), and `LiteGraph.debug?.(…)` calls it, which throws a TypeError. | any `add` of a node to a graph | `debug` is a logger that does nothing when debugging is off | not executed | `Graphs.OnGraphChangedAsWritten` | `Graphs.OnGraphChanged` |

The corrected `disconnectInput` agrees with the code as written on every well-formed graph (`Integrity.DisconnectInputIntendedAgrees`). For that reason, the rest of the model keeps the code as written there. Everywhere else it uses the corrected behaviour.

