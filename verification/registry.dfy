/**
 * The slot-type registry of `LiteGraph.registerNodeAndSlotType`: for every
 * slot type name, which node classes offer an input (or output) of that
 * type, plus the sorted, duplicate-free lists of all lower-cased input and
 * output type names.
 */
module Registry {
  import opened Base
  import opened SlotTypes

  datatype SlotRegistry = SlotRegistry(
    inTypes: map<string, seq<JsVal>>,    // registered_slot_in_types[name].nodes
    outTypes: map<string, seq<JsVal>>,   // registered_slot_out_types[name].nodes
    slotTypesIn: seq<string>,            // slot_types_in
    slotTypesOut: seq<string>)           // slot_types_out

  const EmptyRegistry: SlotRegistry := SlotRegistry(map[], map[], [], [])

  // ---------------------------------------------------------------------------
  // Sorting the type lists (`push` followed by `sort()`)
  // ---------------------------------------------------------------------------

  predicate Sorted(s: seq<string>)
  {
    forall i, j :: 0 <= i < j < |s| ==> LexLe(s[i], s[j])
  }

  /** Sorted without repetitions: each name strictly before the next. */
  predicate StrictlySorted(s: seq<string>)
  {
    Sorted(s) && NoDup(s)
  }

  function Insert(x: string, s: seq<string>): (r: seq<string>)
    requires Sorted(s)
    ensures Sorted(r)
    ensures multiset(r) == multiset(s) + multiset{x}
  {
    if |s| == 0 then [x]
    else if LexLe(x, s[0]) then
      assert forall j :: 0 <= j < |s| ==> LexLe(x, s[j]) by {
        forall j | 0 <= j < |s| ensures LexLe(x, s[j]) {
          if j > 0 { LexLeTrans(x, s[0], s[j]); }
        }
      }
      [x] + s
    else
      LexLeTotal(x, s[0]);
      assert s == [s[0]] + s[1..];
      var rest := Insert(x, s[1..]);
      assert forall k :: 0 <= k < |rest| ==> LexLe(s[0], rest[k]) by {
        forall k | 0 <= k < |rest| ensures LexLe(s[0], rest[k]) {
          assert rest[k] in multiset(rest);
          assert rest[k] == x || rest[k] in multiset(s[1..]);
          if rest[k] != x {
            var j :| 0 <= j < |s[1..]| && s[1..][j] == rest[k];
            assert s[j + 1] == rest[k];
          }
        }
      }
      [s[0]] + rest
  }

  /** `Array.prototype.sort()` with the default (code-unit) comparison. */
  function SortNames(s: seq<string>): (r: seq<string>)
    ensures Sorted(r)
    ensures multiset(r) == multiset(s)
  {
    if |s| == 0 then []
    else
      assert s == [s[0]] + s[1..];
      Insert(s[0], SortNames(s[1..]))
  }

  /** Sorted, duplicate-free lists are strictly increasing. */
  lemma StrictlySortedIncreasing(s: seq<string>)
    requires StrictlySorted(s)
    ensures forall i, j :: 0 <= i < j < |s| ==> !LexLe(s[j], s[i])
  {
    forall i, j | 0 <= i < j < |s| ensures !LexLe(s[j], s[i]) {
      if LexLe(s[j], s[i]) {
        LexLeAntisym(s[i], s[j]);
      }
    }
  }

  /** `if (!list.includes(x)) { list.push(x); list.sort(); }` */
  function AddName(list: seq<string>, x: string): (r: seq<string>)
    ensures x in list ==> r == list
    ensures x !in list ==> multiset(r) == multiset(list) + multiset{x}
    ensures x !in list ==> Sorted(r)
  {
    if x in list then list else SortNames(list + [x])
  }

  /** Adding a name to a strictly sorted list keeps it strictly sorted and adds exactly that name. */
  lemma AddNameKeepsStrictOrder(list: seq<string>, x: string)
    requires StrictlySorted(list)
    ensures StrictlySorted(AddName(list, x))
    ensures forall y :: y in AddName(list, x) <==> y in list || y == x
  {
    var r := AddName(list, x);
    if x !in list {
      var ext := list + [x];
      assert NoDup(ext);
      MultisetNoDup(ext);
      assert multiset(ext) == multiset(list) + multiset{x};
      assert multiset(r) == multiset(ext);
      forall y ensures multiset(r)[y] <= 1 {}
      NoDupFromMultiset(r);
      forall y ensures y in r <==> y in list || y == x {
        assert y in r <==> multiset(r)[y] > 0;
        assert y in ext <==> multiset(ext)[y] > 0;
      }
    }
  }

  // ---------------------------------------------------------------------------
  // Registration
  // ---------------------------------------------------------------------------

  /**
   * The names a slot type is registered under: the comma-separated parts of a
   * string type (an empty part meaning "*"), "_event_" for EVENT/ACTION, and
   * "*" for any other value.
   */
  function TypeNames(slotType: SlotType): (names: seq<string>)
    ensures |names| >= 1
    ensures forall i :: 0 <= i < |names| ==> names[i] != ""
  {
    var parts :=
      match slotType
      case TStr(s) => Split(s, ',')
      case TNum(n) => if n == -1 then ["_event_"] else ["*"]
      case TNone => ["*"];
    seq(|parts|, i requires 0 <= i < |parts| => if parts[i] == "" then "*" else parts[i])
  }

  /** Record `classType` under `name` in a `registered_slot_*_types` table, once. */
  function AddClass(table: map<string, seq<JsVal>>, name: string, classType: JsVal): (t: map<string, seq<JsVal>>)
    ensures t.Keys == table.Keys + {name}
    ensures classType in t[name]
    ensures forall k :: k in table && k != name ==> t[k] == table[k]
    ensures name in table ==> forall c :: c in t[name] <==> c in table[name] || c == classType
    ensures name in table && NoDup(table[name]) ==> NoDup(t[name])
  {
    var nodes := if name in table then table[name] else [];
    if classType in nodes then table[name := nodes] else table[name := nodes + [classType]]
  }

  function RegisterName(r: SlotRegistry, classType: JsVal, name: string, out: bool): (r': SlotRegistry)
  {
    if out then r.(outTypes := AddClass(r.outTypes, name, classType), slotTypesOut := AddName(r.slotTypesOut, Lower(name)))
    else r.(inTypes := AddClass(r.inTypes, name, classType), slotTypesIn := AddName(r.slotTypesIn, Lower(name)))
  }

  function RegisterNames(r: SlotRegistry, classType: JsVal, names: seq<string>, out: bool): SlotRegistry
    decreases |names|
  {
    if |names| == 0 then r
    else RegisterNames(RegisterName(r, classType, names[0], out), classType, names[1..], out)
  }

  /**
   * `LiteGraph.registerNodeAndSlotType(type, slot_type, out)`. `classType` is
   * the value of `base_class.constructor.type` the source derives from `type`.
   */
  function RegisterNodeAndSlotType(r: SlotRegistry, classType: JsVal, slotType: SlotType, out: bool): SlotRegistry
  {
    RegisterNames(r, classType, TypeNames(slotType), out)
  }

  /** The sorted type-name list of one direction. */
  function Names(r: SlotRegistry, out: bool): seq<string>
  {
    if out then r.slotTypesOut else r.slotTypesIn
  }

  /** The class table of one direction. */
  function Table(r: SlotRegistry, out: bool): map<string, seq<JsVal>>
  {
    if out then r.outTypes else r.inTypes
  }

  /** The registry invariant: both type lists sorted and free of repetitions. */
  predicate ListsOrdered(r: SlotRegistry)
  {
    StrictlySorted(r.slotTypesIn) && StrictlySorted(r.slotTypesOut)
  }

  /**
   * Registration keeps the lists strictly sorted and adds exactly the
   * lower-cased names of the registered types; the other direction is untouched.
   */
  lemma {:induction false} RegisterNamesOrdered(r: SlotRegistry, classType: JsVal, names: seq<string>, out: bool)
    requires ListsOrdered(r)
    ensures var r' := RegisterNames(r, classType, names, out);
      ListsOrdered(r') &&
      (forall y :: y in Names(r', out) <==> y in Names(r, out) || exists i :: 0 <= i < |names| && y == Lower(names[i])) &&
      Names(r', !out) == Names(r, !out) && Table(r', !out) == Table(r, !out)
    decreases |names|
  {
    if |names| > 0 {
      var r1 := RegisterName(r, classType, names[0], out);
      AddNameKeepsStrictOrder(Names(r, out), Lower(names[0]));
      assert ListsOrdered(r1);
      RegisterNamesOrdered(r1, classType, names[1..], out);
      var r' := RegisterNames(r1, classType, names[1..], out);
      forall y
        ensures y in Names(r', out) <==> y in Names(r, out) || exists i :: 0 <= i < |names| && y == Lower(names[i])
      {
        if exists i :: 0 <= i < |names[1..]| && y == Lower(names[1..][i]) {
          var i :| 0 <= i < |names[1..]| && y == Lower(names[1..][i]);
          assert y == Lower(names[i + 1]);
        }
        if exists i :: 0 <= i < |names| && y == Lower(names[i]) {
          var i :| 0 <= i < |names| && y == Lower(names[i]);
          if i > 0 {
            assert y == Lower(names[1..][i - 1]);
          }
        }
      }
    }
  }

  /** Registration records the class under every registered name. */
  lemma {:induction false} RegisterNamesRecordsClass(r: SlotRegistry, classType: JsVal, names: seq<string>, out: bool)
    ensures var r' := RegisterNames(r, classType, names, out);
      forall i :: 0 <= i < |names| ==> names[i] in Table(r', out) && classType in Table(r', out)[names[i]]
    decreases |names|
  {
    if |names| > 0 {
      var r1 := RegisterName(r, classType, names[0], out);
      RegisterNamesRecordsClass(r1, classType, names[1..], out);
      ClassStaysRegistered(r1, classType, names[1..], out, names[0]);
      var r' := RegisterNames(r1, classType, names[1..], out);
      forall i | 0 <= i < |names|
        ensures names[i] in Table(r', out) && classType in Table(r', out)[names[i]]
      {
        if i > 0 {
          assert names[1..][i - 1] == names[i];
        }
      }
    }
  }

  /** Later registrations never remove a class already recorded under a name. */
  lemma {:induction false} ClassStaysRegistered(r: SlotRegistry, classType: JsVal, names: seq<string>, out: bool, name: string)
    requires name in Table(r, out) && classType in Table(r, out)[name]
    ensures var r' := RegisterNames(r, classType, names, out);
      name in Table(r', out) && classType in Table(r', out)[name]
    decreases |names|
  {
    if |names| > 0 {
      ClassStaysRegistered(RegisterName(r, classType, names[0], out), classType, names[1..], out, name);
    }
  }

  /**
   * `registerNodeAndSlotType` keeps both lists strictly sorted, adds the
   * lower-cased name of every part of the type and nothing else, records the
   * class under every part, and leaves the other direction untouched.
   */
  lemma RegisterNodeAndSlotTypeSpec(r: SlotRegistry, classType: JsVal, slotType: SlotType, out: bool)
    requires ListsOrdered(r)
    ensures var r' := RegisterNodeAndSlotType(r, classType, slotType, out);
      var names := TypeNames(slotType);
      ListsOrdered(r') &&
      (forall y :: y in Names(r', out) <==> y in Names(r, out) || exists i :: 0 <= i < |names| && y == Lower(names[i])) &&
      (forall i :: 0 <= i < |names| ==> names[i] in Table(r', out) && classType in Table(r', out)[names[i]]) &&
      Names(r', !out) == Names(r, !out) && Table(r', !out) == Table(r, !out)
  {
    RegisterNamesOrdered(r, classType, TypeNames(slotType), out);
    RegisterNamesRecordsClass(r, classType, TypeNames(slotType), out);
  }
}
