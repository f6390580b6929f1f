/**
 * `LGraphNode` as the engine sees it: its slots, mode, properties and the
 * capabilities its class provides (`onExecute`, `onAction`, the connection
 * and property hooks), and the operations that only touch the node itself:
 * slot lookup, slot creation, `changeMode`, `setProperty`, `configure`, and
 * `LiteGraph.createNode`.
 */
module Nodes {
  import opened Base
  import opened SlotTypes
  import opened Registry

  /** The execution modes `LiteGraph.ALWAYS` .. `ON_TRIGGER` (0 .. 3), plus an unset mode. */
  datatype Mode = Always | OnEvent | Never | OnTrigger | NoMode

  /** The value a mode has in the source: 0 .. 3, and `undefined` for an unset mode. */
  function ModeValue(m: Mode): (v: JsVal)
    ensures m != NoMode <==> v.Num?
    ensures v.Num? ==> 0 <= v.n <= 3
  {
    match m
    case Always => Num(0)
    case OnEvent => Num(1)
    case Never => Num(2)
    case OnTrigger => Num(3)
    case NoMode => Undef
  }

  /**
   * What a user callback (`onExecute` or `onAction`) does, as a script of the
   * engine calls it makes on its own node, in order.
   */
  datatype Cmd =
    | Trigger(action: string, param: JsVal)                          // this.trigger(action, param); "" triggers every event output
    | TriggerSlot(slot: int, param: JsVal, linkId: Option<int>)      // this.triggerSlot(slot, param, link_id)
    | SetOutput(slot: int, value: JsVal)                             // this.setOutputData(slot, value)

  /** An input slot: `link` is the id of the link plugged into it, or null. */
  datatype Input = Input(name: string, itype: SlotType, link: Option<int>)

  /** An output slot: `links` is null or the ids of the links leaving it; `data` is `_data`. */
  datatype Output = Output(name: string, otype: SlotType, links: Option<seq<int>>, data: JsVal)

  /** One entry of `_waiting_actions`: `[name, param, options, slot]`. */
  datatype Deferred = Deferred(action: string, param: JsVal, callId: Option<string>, slot: int)

  /** `onPropertyChanged`: missing, present, or present and returning `false` (which vetoes the change). */
  datatype PropHook = NoHook | AcceptsChange | RejectsChange

  /** The fields of a serialized node that `configure` reads; `title == ""` stands for a missing title. */
  datatype NodeInfo = NodeInfo(
    id: int,
    ntype: string,
    title: string,
    mode: Option<Mode>,
    inputs: Option<seq<Input>>,
    outputs: Option<seq<Output>>,
    properties: map<string, JsVal>)

  datatype Node = Node(
    id: int,                        // -1 until added to a graph
    ntype: string,                  // `type`, "" for null
    ctorType: JsVal,                // `constructor.type`, the class's registered name
    classTitle: string,             // `constructor.title`
    title: string,
    mode: Mode,
    inputs: seq<Input>,
    outputs: seq<Output>,
    properties: map<string, JsVal>,
    priority: int,                  // `priority`, 0 when unset
    classPriority: int,             // `constructor.priority`, 0 when unset
    onExecute: Option<seq<Cmd>>,
    onAction: Option<seq<Cmd>>,
    propHook: PropHook,
    refusesLinks: bool,             // `onConnectInput`/`onConnectOutput` return false
    ignoreRemove: bool,
    waiting: seq<Deferred>,         // `_waiting_actions`
    execVersion: Option<int>,       // `exec_version`
    actionCall: Option<string>,     // `action_call`
    hasErrors: bool,
    lastSerialization: Option<NodeInfo>)

  /** `new LGraphNode(title)`: no slots, no properties, no capabilities. */
  function BlankNode(title: string): (n: Node)
    ensures n.id == -1 && n.title == title && n.inputs == [] && n.outputs == [] && n.properties == map[]
    ensures n.onExecute.None? && n.onAction.None? && n.waiting == []
  {
    Node(-1, "", Undef, "", title, NoMode, [], [], map[], 0, 0, None, None, NoHook, false, false, [], None, None, false, None)
  }

  // ---------------------------------------------------------------------------
  // Slot lookup
  // ---------------------------------------------------------------------------

  function InputIndexFrom(ins: seq<Input>, name: string, i: nat): (r: int)
    requires i <= |ins|
    ensures r == -1 || i <= r < |ins|
    ensures r >= 0 ==> ins[r].name == name && forall j :: i <= j < r ==> ins[j].name != name
    ensures r == -1 <==> forall j :: i <= j < |ins| ==> ins[j].name != name
    decreases |ins| - i
  {
    if i == |ins| then -1
    else if ins[i].name == name then i
    else InputIndexFrom(ins, name, i + 1)
  }

  function OutputIndexFrom(outs: seq<Output>, name: string, i: nat): (r: int)
    requires i <= |outs|
    ensures r == -1 || i <= r < |outs|
    ensures r >= 0 ==> outs[r].name == name && forall j :: i <= j < r ==> outs[j].name != name
    ensures r == -1 <==> forall j :: i <= j < |outs| ==> outs[j].name != name
    decreases |outs| - i
  {
    if i == |outs| then -1
    else if outs[i].name == name then i
    else OutputIndexFrom(outs, name, i + 1)
  }

  /** `findInputSlot(name)`: the first input with that name, else -1. */
  function FindInputSlot(n: Node, name: string): (r: int)
    ensures -1 <= r < |n.inputs|
    ensures r >= 0 ==> n.inputs[r].name == name && forall j :: 0 <= j < r ==> n.inputs[j].name != name
    ensures r == -1 <==> forall j :: 0 <= j < |n.inputs| ==> n.inputs[j].name != name
  {
    InputIndexFrom(n.inputs, name, 0)
  }

  /** `findOutputSlot(name)`: the first output with that name, else -1. */
  function FindOutputSlot(n: Node, name: string): (r: int)
    ensures -1 <= r < |n.outputs|
    ensures r >= 0 ==> n.outputs[r].name == name && forall j :: 0 <= j < r ==> n.outputs[j].name != name
    ensures r == -1 <==> forall j :: 0 <= j < |n.outputs| ==> n.outputs[j].name != name
  {
    OutputIndexFrom(n.outputs, name, 0)
  }

  /** `input.link && input.link != null`: a link id of 0 counts as no link. */
  predicate InputLinkTruthy(inp: Input)
  {
    inp.link.Some? && inp.link.value != 0
  }

  /** The input `findInputSlotFree` accepts: no (truthy) link and a type not excluded. */
  predicate FreeInput(inp: Input, typesNotAccepted: seq<SlotType>)
  {
    !InputLinkTruthy(inp) && inp.itype !in typesNotAccepted
  }

  function FreeInputFrom(ins: seq<Input>, typesNotAccepted: seq<SlotType>, i: nat): (r: int)
    requires i <= |ins|
    ensures r == -1 || i <= r < |ins|
    ensures r >= 0 ==> FreeInput(ins[r], typesNotAccepted) && forall j :: i <= j < r ==> !FreeInput(ins[j], typesNotAccepted)
    ensures r == -1 <==> forall j :: i <= j < |ins| ==> !FreeInput(ins[j], typesNotAccepted)
    decreases |ins| - i
  {
    if i == |ins| then -1
    else if InputLinkTruthy(ins[i]) then FreeInputFrom(ins, typesNotAccepted, i + 1)
    else if ins[i].itype in typesNotAccepted then FreeInputFrom(ins, typesNotAccepted, i + 1)
    else i
  }

  /** `findInputSlotFree({typesNotAccepted})`: the first free input of an accepted type, else -1. */
  function FindInputSlotFree(n: Node, typesNotAccepted: seq<SlotType>): (r: int)
    ensures -1 <= r < |n.inputs|
    ensures r >= 0 ==> (FreeInput(n.inputs[r], typesNotAccepted) &&
      forall j :: 0 <= j < r ==> !FreeInput(n.inputs[j], typesNotAccepted))
    ensures r == -1 <==> forall j :: 0 <= j < |n.inputs| ==> !FreeInput(n.inputs[j], typesNotAccepted)
  {
    FreeInputFrom(n.inputs, typesNotAccepted, 0)
  }

  /**
   * Whether `findOutputSlotFree` skips an output. As written, any links
   * array counts, the empty one included; corrected, only a non-empty one.
   */
  predicate OutputTaken(o: Output, asWritten: bool)
  {
    if asWritten then o.links.Some? else o.links.Some? && |o.links.value| > 0
  }

  predicate FreeOutput(o: Output, typesNotAccepted: seq<SlotType>, asWritten: bool)
  {
    !OutputTaken(o, asWritten) && o.otype !in typesNotAccepted
  }

  function FreeOutputFrom(outs: seq<Output>, typesNotAccepted: seq<SlotType>, asWritten: bool, i: nat): (r: int)
    requires i <= |outs|
    ensures r == -1 || i <= r < |outs|
    ensures r >= 0 ==> (FreeOutput(outs[r], typesNotAccepted, asWritten) &&
      forall j :: i <= j < r ==> !FreeOutput(outs[j], typesNotAccepted, asWritten))
    ensures r == -1 <==> forall j :: i <= j < |outs| ==> !FreeOutput(outs[j], typesNotAccepted, asWritten)
    decreases |outs| - i
  {
    if i == |outs| then -1
    else if OutputTaken(outs[i], asWritten) then FreeOutputFrom(outs, typesNotAccepted, asWritten, i + 1)
    else if outs[i].otype in typesNotAccepted then FreeOutputFrom(outs, typesNotAccepted, asWritten, i + 1)
    else i
  }

  /** `findOutputSlotFree` as written: an output whose `links` is `[]` is treated as occupied. */
  function FindOutputSlotFreeAsWritten(n: Node, typesNotAccepted: seq<SlotType>): (r: int)
    ensures -1 <= r < |n.outputs|
    ensures r >= 0 ==> n.outputs[r].links.None? && n.outputs[r].otype !in typesNotAccepted
    ensures r == -1 <==> forall j :: 0 <= j < |n.outputs| ==> !FreeOutput(n.outputs[j], typesNotAccepted, true)
  {
    FreeOutputFrom(n.outputs, typesNotAccepted, true, 0)
  }

  /** `findOutputSlotFree`, corrected: the first output with no links (null or empty) of an accepted type. */
  function FindOutputSlotFree(n: Node, typesNotAccepted: seq<SlotType>): (r: int)
    ensures -1 <= r < |n.outputs|
    ensures r >= 0 ==> (n.outputs[r].links.None? || n.outputs[r].links.value == []) && n.outputs[r].otype !in typesNotAccepted
    ensures r >= 0 ==> forall j :: 0 <= j < r ==> !FreeOutput(n.outputs[j], typesNotAccepted, false)
    ensures r == -1 <==> forall j :: 0 <= j < |n.outputs| ==> !FreeOutput(n.outputs[j], typesNotAccepted, false)
  {
    FreeOutputFrom(n.outputs, typesNotAccepted, false, 0)
  }

  /** An output whose links were all disconnected (`links == []`) is reported free only by the corrected search. */
  lemma EmptyLinksOutputExample()
    ensures var n := BlankNode("n").(outputs := [Output("out", TStr("number"), Some([]), Undef)]);
      FindOutputSlotFreeAsWritten(n, []) == -1 && FindOutputSlotFree(n, []) == 0
  {
  }

  /** The corrected search agrees with the one as written except on outputs with an empty links array. */
  lemma {:induction false} FreeOutputSearchesAgree(outs: seq<Output>, typesNotAccepted: seq<SlotType>, i: nat)
    requires i <= |outs|
    requires forall j :: i <= j < |outs| ==> outs[j].links != Some([])
    ensures FreeOutputFrom(outs, typesNotAccepted, true, i) == FreeOutputFrom(outs, typesNotAccepted, false, i)
    decreases |outs| - i
  {
    if i < |outs| {
      assert OutputTaken(outs[i], true) == OutputTaken(outs[i], false);
      FreeOutputSearchesAgree(outs, typesNotAccepted, i + 1);
    }
  }

  // ---------------------------------------------------------------------------
  // findSlotByType
  // ---------------------------------------------------------------------------

  /** An element of the split type lists: a string, or the number a marker was replaced by. */
  datatype Tok = TokStr(s: string) | TokNum(n: int)

  /** Loose equality between two list elements. */
  predicate TokEq(a: Tok, b: Tok)
  {
    match (a, b)
    case (TokStr(x), TokStr(y)) => x == y
    case (TokNum(x), TokNum(y)) => x == y
    case (TokStr(x), TokNum(y)) => LooseStrNumEq(x, y)
    case (TokNum(x), TokStr(y)) => LooseStrNumEq(y, x)
  }

  /** `(t + "").toLowerCase().split(",")`. */
  function Pieces(t: SlotType): (ps: seq<Tok>)
    ensures |ps| == |Split(Lower(TypeString(t)), ',')|
    ensures forall i :: 0 <= i < |ps| ==> ps[i] == TokStr(Split(Lower(TypeString(t)), ',')[i])
  {
    var parts := Split(Lower(TypeString(t)), ',');
    seq(|parts|, i requires 0 <= i < |parts| => TokStr(parts[i]))
  }

  /** The searched type after `if (type == "" || type == "*") type = 0`. */
  function SearchedType(t: SlotType): SlotType
  {
    if t == TStr("") || t == TStr("*") || t == TNum(0) then TNum(0) else t
  }

  /** A slot's type after `type == "0" || type == "*" ? "0" : type`. */
  function SlotTypeOf(t: SlotType): SlotType
  {
    if t == TStr("0") || t == TStr("*") || t == TNum(0) then TStr("0") else t
  }

  /**
   * The marker replacement applied inside the loops: `"_event_"` becomes
   * `EVENT` (only in the first pass) and `"*"` becomes 0.
   */
  function Mark(t: Tok, withEvent: bool): Tok
  {
    if withEvent && t == TokStr("_event_") then TokNum(-1)
    else if t == TokStr("*") then TokNum(0)
    else t
  }

  /**
   * Whether the type lists of a search and of a slot meet. The source
   * replaces the markers of `aDest[sI]` and then compares against
   * `aDest[dI]`, so as written a destination element is only replaced once
   * the outer index has reached it; corrected, every element is.
   */
  predicate ListsMeet(src: seq<Tok>, dst: seq<Tok>, withEvent: bool, asWritten: bool)
  {
    exists sI, dI :: 0 <= sI < |src| && 0 <= dI < |dst| &&
      TokEq(Mark(src[sI], withEvent), if asWritten && dI > sI then dst[dI] else Mark(dst[dI], withEvent))
  }

  /** Whether slot `i` of the given direction matches type `t` in the first (`withEvent`) or second pass. */
  predicate SlotMatches(types: seq<SlotType>, i: nat, t: SlotType, withEvent: bool, asWritten: bool)
    requires i < |types|
  {
    ListsMeet(Pieces(SearchedType(t)), Pieces(SlotTypeOf(types[i])), withEvent, asWritten)
  }

  /** `aSlots[i].links && aSlots[i].links !== null`: inputs have no `links` field, so they never count. */
  predicate SlotBusy(n: Node, input: bool, i: nat)
  {
    !input && i < |n.outputs| && n.outputs[i].links.Some?
  }

  function TypesOf(n: Node, input: bool): (types: seq<SlotType>)
    ensures |types| == (if input then |n.inputs| else |n.outputs|)
  {
    if input then seq(|n.inputs|, i requires 0 <= i < |n.inputs| => n.inputs[i].itype)
    else seq(|n.outputs|, i requires 0 <= i < |n.outputs| => n.outputs[i].otype)
  }

  /** A slot the first pass returns. */
  predicate FirstPassHit(n: Node, input: bool, i: nat, t: SlotType, preferFree: bool, asWritten: bool)
    requires i < |TypesOf(n, input)|
  {
    SlotMatches(TypesOf(n, input), i, t, true, asWritten) && !(preferFree && SlotBusy(n, input, i))
  }

  function FirstPassFrom(n: Node, input: bool, t: SlotType, preferFree: bool, asWritten: bool, i: nat): (r: int)
    requires i <= |TypesOf(n, input)|
    ensures r == -1 || i <= r < |TypesOf(n, input)|
    ensures r >= 0 ==> FirstPassHit(n, input, r, t, preferFree, asWritten)
    ensures r >= 0 ==> forall j :: i <= j < r ==> !FirstPassHit(n, input, j, t, preferFree, asWritten)
    ensures r == -1 <==> forall j :: i <= j < |TypesOf(n, input)| ==> !FirstPassHit(n, input, j, t, preferFree, asWritten)
  {
    FirstTrue(FirstPassHits(n, input, t, preferFree, asWritten), i)
  }

  /** For every slot, whether the first pass returns it. */
  function FirstPassHits(n: Node, input: bool, t: SlotType, preferFree: bool, asWritten: bool): (bs: seq<bool>)
    ensures |bs| == |TypesOf(n, input)|
    ensures forall j :: 0 <= j < |bs| ==> bs[j] == FirstPassHit(n, input, j, t, preferFree, asWritten)
  {
    seq(|TypesOf(n, input)|, j requires 0 <= j < |TypesOf(n, input)| => FirstPassHit(n, input, j, t, preferFree, asWritten))
  }

  function SecondPassFrom(n: Node, input: bool, t: SlotType, asWritten: bool, i: nat): (r: int)
    requires i <= |TypesOf(n, input)|
    ensures r == -1 || i <= r < |TypesOf(n, input)|
    ensures r >= 0 ==> SlotMatches(TypesOf(n, input), r, t, false, asWritten)
    ensures r >= 0 ==> forall j :: i <= j < r ==> !SlotMatches(TypesOf(n, input), j, t, false, asWritten)
    ensures r == -1 <==> forall j :: i <= j < |TypesOf(n, input)| ==> !SlotMatches(TypesOf(n, input), j, t, false, asWritten)
  {
    FirstTrue(Matches(TypesOf(n, input), t, asWritten), i)
  }

  /** For every slot type in `types`, whether it meets `t` (events not special). */
  function Matches(types: seq<SlotType>, t: SlotType, asWritten: bool): (bs: seq<bool>)
    ensures |bs| == |types|
    ensures forall j :: 0 <= j < |bs| ==> bs[j] == SlotMatches(types, j, t, false, asWritten)
  {
    seq(|types|, j requires 0 <= j < |types| => SlotMatches(types, j, t, false, asWritten))
  }

  /** The first index from `i` on where `bs` holds, or -1. */
  function FirstTrue(bs: seq<bool>, i: nat): (r: int)
    requires i <= |bs|
    ensures r == -1 || i <= r < |bs|
    ensures r >= 0 ==> bs[r] && forall j :: i <= j < r ==> !bs[j]
    ensures r == -1 <==> forall j :: i <= j < |bs| ==> !bs[j]
    decreases |bs| - i
  {
    if i == |bs| then -1
    else if bs[i] then i
    else FirstTrue(bs, i + 1)
  }

  /**
   * `findSlotByType(input, type, false, preferFreeSlot, doNotUseOccupied)`:
   * the first slot whose type list meets the searched one (skipping busy
   * outputs when `preferFreeSlot`); failing that, with `preferFreeSlot` and
   * not `doNotUseOccupied`, the first matching slot, busy or not; else -1.
   */
  function FindSlotByTypeImpl(n: Node, input: bool, t: SlotType, preferFree: bool, doNotUseOccupied: bool, asWritten: bool): (r: int)
    ensures -1 <= r < |TypesOf(n, input)|
    ensures r >= 0 ==> (SlotMatches(TypesOf(n, input), r, t, true, asWritten) ||
      (preferFree && !doNotUseOccupied && SlotMatches(TypesOf(n, input), r, t, false, asWritten)))
    ensures r == -1 ==> forall j :: 0 <= j < |TypesOf(n, input)| ==> !FirstPassHit(n, input, j, t, preferFree, asWritten)
    ensures r == -1 && preferFree && !doNotUseOccupied ==>
      forall j :: 0 <= j < |TypesOf(n, input)| ==> !SlotMatches(TypesOf(n, input), j, t, false, asWritten)
    ensures !preferFree ==> r == FirstPassFrom(n, input, t, false, asWritten, 0)
    ensures (exists j :: 0 <= j < |TypesOf(n, input)| && FirstPassHit(n, input, j, t, preferFree, asWritten)) ==>
      r >= 0 && FirstPassHit(n, input, r, t, preferFree, asWritten) &&
      forall j :: 0 <= j < r ==> !FirstPassHit(n, input, j, t, preferFree, asWritten)
    ensures preferFree && !doNotUseOccupied && r >= 0 &&
            (forall j :: 0 <= j < |TypesOf(n, input)| ==> !FirstPassHit(n, input, j, t, preferFree, asWritten)) ==>
      SlotMatches(TypesOf(n, input), r, t, false, asWritten) &&
      forall j :: 0 <= j < r ==> !SlotMatches(TypesOf(n, input), j, t, false, asWritten)
    ensures !(preferFree && !doNotUseOccupied) &&
            (forall j :: 0 <= j < |TypesOf(n, input)| ==> !FirstPassHit(n, input, j, t, preferFree, asWritten)) ==>
      r == -1
    ensures r >= 0 && preferFree && SlotBusy(n, input, r) ==>
      !doNotUseOccupied && forall j :: 0 <= j < |TypesOf(n, input)| ==> !FirstPassHit(n, input, j, t, preferFree, asWritten)
  {
    var first := FirstPassFrom(n, input, t, preferFree, asWritten, 0);
    if first >= 0 then first
    else if preferFree && !doNotUseOccupied then SecondPassFrom(n, input, t, asWritten, 0)
    else -1
  }

  function FindSlotByTypeAsWritten(n: Node, input: bool, t: SlotType, preferFree: bool, doNotUseOccupied: bool): int
  {
    FindSlotByTypeImpl(n, input, t, preferFree, doNotUseOccupied, true)
  }

  function FindSlotByType(n: Node, input: bool, t: SlotType, preferFree: bool, doNotUseOccupied: bool): int
  {
    FindSlotByTypeImpl(n, input, t, preferFree, doNotUseOccupied, false)
  }

  lemma MarkIdempotent(t: Tok, withEvent: bool)
    ensures Mark(Mark(t, withEvent), withEvent) == Mark(t, withEvent)
  {
  }

  /**
   * Corrected, a slot whose (lower-cased) type list contains the searched
   * plain type is found by the first pass: the search returns that slot or
   * an earlier one.
   */
  lemma FindSlotByTypeFindsListedType(n: Node, input: bool, x: string, i: nat)
    requires x != "" && x != "*" && x != "0" && ',' !in x && IsLowered(x)
    requires i < |TypesOf(n, input)|
    requires !SlotBusy(n, input, i)
    requires TokStr(x) in Pieces(SlotTypeOf(TypesOf(n, input)[i]))
    ensures 0 <= FindSlotByType(n, input, TStr(x), true, true) <= i
    ensures 0 <= FindSlotByType(n, input, TStr(x), false, false) <= i
  {
    ListedTypeMatches(TypesOf(n, input), x, i);
    assert FirstPassHit(n, input, i, TStr(x), true, false);
    assert FirstPassHit(n, input, i, TStr(x), false, false);
  }

  /** A plain lower-case type matches every slot whose type list contains it. */
  lemma ListedTypeMatches(types: seq<SlotType>, x: string, i: nat)
    requires x != "" && x != "*" && x != "0" && ',' !in x && IsLowered(x)
    requires i < |types| && TokStr(x) in Pieces(SlotTypeOf(types[i]))
    ensures SearchedType(TStr(x)) == TStr(x)
    ensures SlotMatches(types, i, TStr(x), true, false)
  {
    OnePiece(x);
    var src := Pieces(TStr(x));
    var dst := Pieces(SlotTypeOf(types[i]));
    var dI :| 0 <= dI < |dst| && dst[dI] == TokStr(x);
    assert TokEq(Mark(src[0], true), Mark(dst[dI], true));
  }

  /** A lower-case string type without commas is a one-element list. */
  lemma OnePiece(x: string)
    requires IsLowered(x) && ',' !in x
    ensures Pieces(TStr(x)) == [TokStr(x)]
  {
    LoweredFixed(x);
    SplitNoSep(x, ',');
  }

  /** A lower-case string type with one comma is a two-element list. */
  lemma TwoPieces(x: string, y: string)
    requires IsLowered(x) && IsLowered(y) && ',' !in x && ',' !in y
    ensures Pieces(TStr(x + [','] + y)) == [TokStr(x), TokStr(y)]
  {
    var s := x + [','] + y;
    assert IsLowered(s) by {
      forall i | 0 <= i < |s| ensures !IsUpperAscii(s[i]) {
        if i < |x| { assert s[i] == x[i]; }
        else if i > |x| { assert s[i] == y[i - |x| - 1]; }
      }
    }
    LoweredFixed(s);
    SplitNoSep(y, ',');
    SplitAtSep(x, ',', y);
  }

  /** The marker "_event_" as a one-element type list. */
  lemma EventPieces()
    ensures Pieces(TStr("_event_")) == [TokStr("_event_")]
  {
    OnePiece("_event_");
  }

  /** The type list "a,_event_" splits into its two elements. */
  lemma EventListPieces()
    ensures Pieces(TStr("a,_event_")) == [TokStr("a"), TokStr("_event_")]
  {
    TwoPieces("a", "_event_");
    assert "a" + [','] + "_event_" == "a,_event_";
  }

  /** Neither "a" nor "_event_" is the decimal spelling of -1. */
  lemma NotMinusOne(x: string)
    requires x == "a" || x == "_event_"
    ensures !LooseStrNumEq(x, -1)
  {
    assert IntToString(-1) == "-" + NatToString(1);
    assert IntToString(-1)[0] == '-';
  }

  /** The lists of "_event_" and "a,_event_" meet only when every destination marker is replaced. */
  lemma EventListsMeet()
    ensures !ListsMeet([TokStr("_event_")], [TokStr("a"), TokStr("_event_")], true, true)
    ensures ListsMeet([TokStr("_event_")], [TokStr("a"), TokStr("_event_")], true, false)
  {
    var src := [TokStr("_event_")];
    var dst := [TokStr("a"), TokStr("_event_")];
    NotMinusOne("a");
    NotMinusOne("_event_");
    assert Mark(src[0], true) == TokNum(-1);
    assert Mark(dst[0], true) == TokStr("a");
    assert TokEq(Mark(src[0], true), Mark(dst[1], true));
  }

  /** On a node with a single output, the first pass reports that output exactly when it is a hit. */
  lemma SingleOutputFirstPass(n: Node, t: SlotType, asWritten: bool)
    requires |n.outputs| == 1
    ensures FirstPassFrom(n, false, t, false, asWritten, 0) == (if FirstPassHit(n, false, 0, t, false, asWritten) then 0 else -1)
  {
  }

  /**
   * As written, searching the outputs for `"_event_"` misses an output typed
   * `"a,_event_"`: the second element is compared before its marker is replaced.
   */
  lemma EventSearchMissesSecondElement()
    ensures var n := BlankNode("n").(outputs := [Output("o", TStr("a,_event_"), None, Undef)]);
      FindSlotByTypeAsWritten(n, false, TStr("_event_"), false, false) == -1 &&
      FindSlotByType(n, false, TStr("_event_"), false, false) == 0
  {
    var n := BlankNode("n").(outputs := [Output("o", TStr("a,_event_"), None, Undef)]);
    var t := TStr("_event_");
    assert TypesOf(n, false) == [TStr("a,_event_")];
    EventSlotMissed(TypesOf(n, false), t);
    EventSlotHit(TypesOf(n, false), t);
    SingleOutputFirstPass(n, t, true);
    SingleOutputFirstPass(n, t, false);
  }

  /** As written, the first pass's comparison misses `"_event_"` in a slot typed `"a,_event_"`. */
  lemma EventSlotMissed(types: seq<SlotType>, t: SlotType)
    requires types == [TStr("a,_event_")] && t == TStr("_event_")
    ensures !SlotMatches(types, 0, t, true, true)
  {
    EventPieces();
    EventListPieces();
    EventListsMeet();
  }

  /** Corrected, the same comparison finds it. */
  lemma EventSlotHit(types: seq<SlotType>, t: SlotType)
    requires types == [TStr("a,_event_")] && t == TStr("_event_")
    ensures SlotMatches(types, 0, t, true, false)
  {
    EventPieces();
    EventListPieces();
    EventListsMeet();
  }

  // ---------------------------------------------------------------------------
  // Adding slots and changing the mode
  // ---------------------------------------------------------------------------

  /**
   * `addInput(name, type)`: appends an unlinked input and registers its type
   * for the node's class in the input table.
   */
  function AddInput(n: Node, reg: SlotRegistry, name: string, t: SlotType): (res: (Node, SlotRegistry))
    ensures res.0 == n.(inputs := n.inputs + [Input(name, t, None)])
    ensures res.1 == RegisterNodeAndSlotType(reg, n.ctorType, t, false)
  {
    (n.(inputs := n.inputs + [Input(name, t, None)]), RegisterNodeAndSlotType(reg, n.ctorType, t, false))
  }

  /**
   * `addOutput(name, type)`: appends an output with null links; its type is
   * registered only when `auto_load_slot_types` is on.
   */
  function AddOutput(n: Node, reg: SlotRegistry, autoLoadSlotTypes: bool, name: string, t: SlotType): (res: (Node, SlotRegistry))
    ensures res.0 == n.(outputs := n.outputs + [Output(name, t, None, Undef)])
    ensures !autoLoadSlotTypes ==> res.1 == reg
    ensures autoLoadSlotTypes ==> res.1 == RegisterNodeAndSlotType(reg, n.ctorType, t, true)
  {
    var n' := n.(outputs := n.outputs + [Output(name, t, None, Undef)]);
    if autoLoadSlotTypes then (n', RegisterNodeAndSlotType(reg, n.ctorType, t, true)) else (n', reg)
  }

  /** `addOnTriggerInput`: the index of the "onTrigger" input, adding an EVENT input of that name if there is none. */
  function AddOnTriggerInput(n: Node, reg: SlotRegistry): (res: (Node, SlotRegistry, int))
    ensures 0 <= res.2 < |res.0.inputs| && res.0.inputs[res.2].name == "onTrigger"
    ensures res.2 == FindInputSlot(res.0, "onTrigger")
    ensures FindInputSlot(n, "onTrigger") >= 0 ==> res.0 == n && res.1 == reg
    ensures FindInputSlot(n, "onTrigger") == -1 ==> res.0.inputs == n.inputs + [Input("onTrigger", EVENT, None)]
    ensures res.0 == n.(inputs := res.0.inputs)
  {
    var s := FindInputSlot(n, "onTrigger");
    if s == -1 then
      var (n', reg') := AddInput(n, reg, "onTrigger", EVENT);
      assert n'.inputs[|n.inputs|].name == "onTrigger";
      (n', reg', FindInputSlot(n', "onTrigger"))
    else (n, reg, s)
  }

  /** `addOnExecutedOutput`: the index of the "onExecuted" output, adding an ACTION output of that name if there is none. */
  function AddOnExecutedOutput(n: Node, reg: SlotRegistry, autoLoadSlotTypes: bool): (res: (Node, SlotRegistry, int))
    ensures 0 <= res.2 < |res.0.outputs| && res.0.outputs[res.2].name == "onExecuted"
    ensures res.2 == FindOutputSlot(res.0, "onExecuted")
    ensures FindOutputSlot(n, "onExecuted") >= 0 ==> res.0 == n && res.1 == reg
    ensures FindOutputSlot(n, "onExecuted") == -1 ==> res.0.outputs == n.outputs + [Output("onExecuted", ACTION, None, Undef)]
    ensures res.0 == n.(outputs := res.0.outputs)
  {
    var s := FindOutputSlot(n, "onExecuted");
    if s == -1 then
      var (n', reg') := AddOutput(n, reg, autoLoadSlotTypes, "onExecuted", ACTION);
      assert n'.outputs[|n.outputs|].name == "onExecuted";
      (n', reg', FindOutputSlot(n', "onExecuted"))
    else (n, reg, s)
  }

  /** The mode a `changeMode` argument names; `undefined` is `ON_REQUEST`, which the source never defines. */
  function ModeOf(v: JsVal): (m: Option<Mode>)
    ensures m.Some? ==> ModeValue(m.value) == v
  {
    match v
    case Num(k) =>
      if k == 0 then Some(Always) else if k == 1 then Some(OnEvent)
      else if k == 2 then Some(Never) else if k == 3 then Some(OnTrigger) else None
    case Undef => Some(NoMode)
    case _ => None
  }

  /**
   * `changeMode(modeTo)`: for ON_TRIGGER, first makes sure the node has an
   * "onTrigger" input and an "onExecuted" output; any value that is not one of
   * the four modes (or `undefined`, matching the undefined `ON_REQUEST` case)
   * is refused with `false` and changes nothing.
   */
  function ChangeMode(n: Node, reg: SlotRegistry, autoLoadSlotTypes: bool, modeTo: JsVal): (res: (Node, SlotRegistry, bool))
    ensures res.2 <==> ModeOf(modeTo).Some?
    ensures !res.2 ==> res.0 == n && res.1 == reg
    ensures res.2 ==> ModeValue(res.0.mode) == modeTo
    ensures res.2 && modeTo != Num(3) ==> res.0 == n.(mode := res.0.mode) && res.1 == reg
    ensures res.2 && modeTo == Num(3) ==>
      FindInputSlot(res.0, "onTrigger") >= 0 && FindOutputSlot(res.0, "onExecuted") >= 0 &&
      res.0 == n.(mode := OnTrigger, inputs := res.0.inputs, outputs := res.0.outputs)
  {
    match ModeOf(modeTo)
    case None => (n, reg, false)
    case Some(m) =>
      if m == OnTrigger then
        var (n1, reg1, _) := AddOnTriggerInput(n, reg);
        var (n2, reg2, _) := AddOnExecutedOutput(n1, reg1, autoLoadSlotTypes);
        (n2.(mode := OnTrigger), reg2, true)
      else (n.(mode := m), reg, true)
  }

  /** Switching a node to ON_TRIGGER twice adds no further slots. */
  lemma ChangeModeOnTriggerIdempotent(n: Node, reg: SlotRegistry, autoLoadSlotTypes: bool)
    ensures var (n1, reg1, _) := ChangeMode(n, reg, autoLoadSlotTypes, Num(3));
      ChangeMode(n1, reg1, autoLoadSlotTypes, Num(3)) == (n1, reg1, true)
  {
  }

  /**
   * `n'` is `n` with unlinked slots appended: the existing slots keep their
   * links, and the new ones hold none.
   */
  predicate GainsUnlinkedSlots(n: Node, n': Node)
  {
    n'.id == n.id && |n.inputs| <= |n'.inputs| && |n.outputs| <= |n'.outputs| &&
    (forall i :: 0 <= i < |n'.inputs| ==> n'.inputs[i].link == if i < |n.inputs| then n.inputs[i].link else None) &&
    (forall i :: 0 <= i < |n'.outputs| ==> n'.outputs[i].links == if i < |n.outputs| then n.outputs[i].links else None)
  }

  /** Changing the mode never touches a link: at most it appends unlinked slots. */
  lemma ChangeModeGainsUnlinkedSlots(n: Node, reg: SlotRegistry, autoLoadSlotTypes: bool, modeTo: JsVal)
    ensures GainsUnlinkedSlots(n, ChangeMode(n, reg, autoLoadSlotTypes, modeTo).0)
  {
    if ModeOf(modeTo) == Some(OnTrigger) {
      var (n1, reg1, _) := AddOnTriggerInput(n, reg);
      var (n2, _, _) := AddOnExecutedOutput(n1, reg1, autoLoadSlotTypes);
      GainsOnTrigger(n, reg);
      GainsOnExecuted(n1, reg1, autoLoadSlotTypes);
      GainsTrans(n, n1, n2);
      GainsTrans(n, n2, n2.(mode := OnTrigger));
    }
  }

  lemma GainsOnTrigger(n: Node, reg: SlotRegistry)
    ensures GainsUnlinkedSlots(n, AddOnTriggerInput(n, reg).0)
  {
  }

  lemma GainsOnExecuted(n: Node, reg: SlotRegistry, autoLoadSlotTypes: bool)
    ensures GainsUnlinkedSlots(n, AddOnExecutedOutput(n, reg, autoLoadSlotTypes).0)
  {
  }

  lemma GainsTrans(a: Node, b: Node, c: Node)
    requires GainsUnlinkedSlots(a, b) && GainsUnlinkedSlots(b, c)
    ensures GainsUnlinkedSlots(a, c)
  {
  }

  // ---------------------------------------------------------------------------
  // Properties
  // ---------------------------------------------------------------------------

  /** `properties[name]`, `undefined` when missing. */
  function PropertyValue(props: map<string, JsVal>, name: string): JsVal
  {
    if name in props then props[name] else Undef
  }

  /**
   * `setProperty(name, value)`: nothing happens when the value is strictly
   * equal to the current one; otherwise the value is stored, and put back to
   * the previous value (now an explicit `undefined` if the key was missing)
   * when `onPropertyChanged` returns `false`.
   */
  function SetProperty(n: Node, name: string, value: JsVal): (n': Node)
    ensures value == PropertyValue(n.properties, name) ==> n' == n
    ensures value != PropertyValue(n.properties, name) ==>
      n' == n.(properties := n'.properties) && name in n'.properties &&
      n'.properties[name] == (if n.propHook == RejectsChange then PropertyValue(n.properties, name) else value) &&
      forall k :: k != name ==> (k in n'.properties <==> k in n.properties) && (k in n.properties ==> n'.properties[k] == n.properties[k])
  {
    var prev := PropertyValue(n.properties, name);
    if value == prev then n
    else if n.propHook == RejectsChange then n.(properties := n.properties[name := prev])
    else n.(properties := n.properties[name := value])
  }

  /** After `setProperty`, reading the property gives the new value unless the hook vetoed it. */
  lemma SetPropertyThenRead(n: Node, name: string, value: JsVal)
    ensures PropertyValue(SetProperty(n, name, value).properties, name) ==
      (if n.propHook == RejectsChange then PropertyValue(n.properties, name) else value)
  {
  }

  /** A vetoed change leaves every property reading as it was. */
  lemma VetoedSetPropertyKeepsReadings(n: Node, name: string, value: JsVal, k: string)
    requires n.propHook == RejectsChange
    ensures PropertyValue(SetProperty(n, name, value).properties, k) == PropertyValue(n.properties, k)
  {
  }

  // ---------------------------------------------------------------------------
  // configure
  // ---------------------------------------------------------------------------

  /** `cloneObject(list, target)` into an existing array: the copied elements overwrite a prefix of the target. */
  function Overlay<T>(target: seq<T>, r: seq<T>): (s: seq<T>)
    ensures |s| == if |r| >= |target| then |r| else |target|
    ensures forall i :: 0 <= i < |r| ==> s[i] == r[i]
    ensures forall i :: |r| <= i < |target| ==> s[i] == target[i]
  {
    if |r| >= |target| then r else r + target[|r|..]
  }

  /**
   * `node.configure(info)`: copies id, type, mode and title; merges the
   * properties key by key; copies the serialized slot lists over the node's
   * own (slots beyond the serialized ones stay); a missing title falls back
   * to the class title.
   */
  function ConfigureNode(n: Node, info: NodeInfo): (n': Node)
    ensures n'.id == info.id && n'.ntype == info.ntype
    ensures n'.title == if info.title != "" then info.title else n.classTitle
    ensures n'.mode == if info.mode.Some? then info.mode.value else n.mode
    ensures n'.properties == n.properties + info.properties
    ensures info.inputs.Some? ==> |n'.inputs| >= |info.inputs.value| && n'.inputs[..|info.inputs.value|] == info.inputs.value
    ensures info.inputs.None? ==> n'.inputs == n.inputs
    ensures info.outputs.Some? ==> |n'.outputs| >= |info.outputs.value| && n'.outputs[..|info.outputs.value|] == info.outputs.value
    ensures info.outputs.None? ==> n'.outputs == n.outputs
    ensures n' == n.(id := n'.id, ntype := n'.ntype, title := n'.title, mode := n'.mode, properties := n'.properties,
                     inputs := n'.inputs, outputs := n'.outputs)
  {
    n.(id := info.id, ntype := info.ntype, title := NonEmptyOr(info.title, n.classTitle), mode := GetOr(info.mode, n.mode),
       properties := n.properties + info.properties,
       inputs := OverlayOr(n.inputs, info.inputs), outputs := OverlayOr(n.outputs, info.outputs))
  }

  function NonEmptyOr(a: string, b: string): string
  {
    if a != "" then a else b
  }

  function GetOr<T>(o: Option<T>, d: T): T
  {
    if o.Some? then o.value else d
  }

  /** A serialized slot list, when present, copied over the node's own. */
  function OverlayOr<T>(target: seq<T>, r: Option<seq<T>>): (s: seq<T>)
    ensures r.Some? ==> |s| >= |r.value| && s[..|r.value|] == r.value
    ensures r.None? ==> s == target
  {
    if r.Some? then Overlay(target, r.value) else target
  }

  /** The fields of a node that its serialized form carries and `configure` reads back. */
  function InfoOf(n: Node): (info: NodeInfo)
    ensures info.id == n.id && info.inputs == Some(n.inputs) && info.outputs == Some(n.outputs)
  {
    NodeInfo(n.id, n.ntype, n.title, Some(n.mode), Some(n.inputs), Some(n.outputs), n.properties)
  }

  /** Configuring a node from its own serialized fields changes nothing (when it has a title). */
  lemma ConfigureWithOwnInfo(n: Node)
    requires n.title != ""
    ensures ConfigureNode(n, InfoOf(n)) == n
  {
    assert n.properties + n.properties == n.properties;
  }

  /** Configuring a node with no properties and no more slots from a node's fields reproduces its slots and properties. */
  lemma ConfigureRestoresSlots(blank: Node, n: Node)
    requires blank.properties == map[] && |blank.inputs| <= |n.inputs| && |blank.outputs| <= |n.outputs|
    ensures var m := ConfigureNode(blank, InfoOf(n));
      m.inputs == n.inputs && m.outputs == n.outputs && m.properties == n.properties && m.mode == n.mode && m.id == n.id
  {
    assert map[] + n.properties == n.properties;
  }

  // ---------------------------------------------------------------------------
  // createNode
  // ---------------------------------------------------------------------------

  /** A registered node class, as far as its constructor shapes the new node. */
  datatype NodeClass = NodeClass(
    title: string,                          // `base_class.title`, "" when unset
    ctorThrows: bool,                       // the constructor throws
    mode: Mode,                             // the mode the constructor sets
    inputs: seq<(string, SlotType)>,        // `addInput` calls of the constructor
    outputs: seq<(string, SlotType)>,       // `addOutput` calls of the constructor
    properties: map<string, JsVal>,
    priority: int,
    classPriority: int,
    onExecute: Option<seq<Cmd>>,
    onAction: Option<seq<Cmd>>,
    propHook: PropHook,
    refusesLinks: bool,
    ignoreRemove: bool)

  /** The unlinked inputs the constructor's `addInput` calls create, in order. */
  function NewInputs(slots: seq<(string, SlotType)>): (ins: seq<Input>)
    ensures |ins| == |slots|
    ensures forall i :: 0 <= i < |slots| ==> ins[i] == Input(slots[i].0, slots[i].1, None)
  {
    seq(|slots|, i requires 0 <= i < |slots| => Input(slots[i].0, slots[i].1, None))
  }

  /** The outputs with null links the constructor's `addOutput` calls create, in order. */
  function NewOutputs(slots: seq<(string, SlotType)>): (outs: seq<Output>)
    ensures |outs| == |slots|
    ensures forall i :: 0 <= i < |slots| ==> outs[i] == Output(slots[i].0, slots[i].1, None, Undef)
  {
    seq(|slots|, i requires 0 <= i < |slots| => Output(slots[i].0, slots[i].1, None, Undef))
  }

  function AddInputs(n: Node, reg: SlotRegistry, slots: seq<(string, SlotType)>): (res: (Node, SlotRegistry))
    ensures res.0 == n.(inputs := n.inputs + NewInputs(slots))
    decreases |slots|
  {
    if |slots| == 0 then
      assert n.inputs + NewInputs(slots) == n.inputs;
      (n, reg)
    else
      var (n1, reg1) := AddInput(n, reg, slots[0].0, slots[0].1);
      NewInputsCons(n.inputs, slots);
      AddInputs(n1, reg1, slots[1..])
  }

  lemma NewInputsCons(ins: seq<Input>, slots: seq<(string, SlotType)>)
    requires |slots| > 0
    ensures (ins + [Input(slots[0].0, slots[0].1, None)]) + NewInputs(slots[1..]) == ins + NewInputs(slots)
  {
    var a, b := (ins + [Input(slots[0].0, slots[0].1, None)]) + NewInputs(slots[1..]), ins + NewInputs(slots);
    assert |a| == |b|;
    forall i | 0 <= i < |a| ensures a[i] == b[i] {
      if i > |ins| {
        assert a[i] == NewInputs(slots[1..])[i - |ins| - 1];
      }
    }
  }

  function AddOutputs(n: Node, reg: SlotRegistry, autoLoadSlotTypes: bool, slots: seq<(string, SlotType)>): (res: (Node, SlotRegistry))
    ensures res.0 == n.(outputs := n.outputs + NewOutputs(slots))
    ensures !autoLoadSlotTypes ==> res.1 == reg
    decreases |slots|
  {
    if |slots| == 0 then
      assert n.outputs + NewOutputs(slots) == n.outputs;
      (n, reg)
    else
      var (n1, reg1) := AddOutput(n, reg, autoLoadSlotTypes, slots[0].0, slots[0].1);
      NewOutputsCons(n.outputs, slots);
      AddOutputs(n1, reg1, autoLoadSlotTypes, slots[1..])
  }

  lemma NewOutputsCons(outs: seq<Output>, slots: seq<(string, SlotType)>)
    requires |slots| > 0
    ensures (outs + [Output(slots[0].0, slots[0].1, None, Undef)]) + NewOutputs(slots[1..]) == outs + NewOutputs(slots)
  {
    var a, b := (outs + [Output(slots[0].0, slots[0].1, None, Undef)]) + NewOutputs(slots[1..]), outs + NewOutputs(slots);
    assert |a| == |b|;
    forall i | 0 <= i < |a| ensures a[i] == b[i] {
      if i > |outs| {
        assert a[i] == NewOutputs(slots[1..])[i - |outs| - 1];
      }
    }
  }

  /**
   * `LiteGraph.createNode(type, title)`: null for an unregistered type or a
   * throwing constructor (with `catch_exceptions` on); otherwise a node of
   * that type, titled `title || base_class.title || type`, with the
   * constructor's slots and properties, and mode ALWAYS when the constructor
   * left it unset (or 0). The slots the constructor adds register their types.
   */
  function CreateNode(classes: map<string, NodeClass>, reg: SlotRegistry, autoLoadSlotTypes: bool, ntype: string, title: string): (res: (Option<Node>, SlotRegistry))
    ensures res.0.Some? <==> ntype in classes && !classes[ntype].ctorThrows
    ensures res.0.None? ==> res.1 == reg
    ensures res.0.Some? ==> var n := res.0.value; var c := classes[ntype];
      n.id == -1 && n.ntype == ntype && n.ctorType == Str(ntype) && n.classTitle == c.title &&
      n.title == (if title != "" then title else if c.title != "" then c.title else ntype) &&
      n.mode == (if c.mode == NoMode then Always else c.mode) && n.mode != NoMode &&
      n.inputs == NewInputs(c.inputs) && n.outputs == NewOutputs(c.outputs) &&
      n.properties == c.properties && n.onExecute == c.onExecute && n.onAction == c.onAction &&
      n.waiting == [] && n.execVersion.None? && !n.hasErrors
  {
    if ntype !in classes || classes[ntype].ctorThrows then (None, reg)
    else
      var c := classes[ntype];
      var base := Node(-1, ntype, Str(ntype), c.title, FirstNonEmpty(title, c.title, ntype), c.mode, [], [], c.properties, c.priority,
                       c.classPriority, c.onExecute, c.onAction, c.propHook, c.refusesLinks, c.ignoreRemove, [], None, None, false, None);
      var (n1, reg1) := AddInputs(base, reg, c.inputs);
      var (n2, reg2) := AddOutputs(n1, reg1, autoLoadSlotTypes, c.outputs);
      (Some(n2.(mode := ModeOrAlways(n2.mode))), reg2)
  }

  /** `title || base_class.title || type`. */
  function FirstNonEmpty(a: string, b: string, c: string): string
  {
    if a != "" then a else if b != "" then b else c
  }

  /** An unset mode (or ALWAYS) becomes ALWAYS. */
  function ModeOrAlways(m: Mode): Mode
  {
    if m == NoMode || m == Always then Always else m
  }
}
