/**
 * `computeExecutionOrder` and `updateExecutionOrder`: Kahn's algorithm over
 * the links, the left-over nodes (those on or behind a cycle) appended in
 * the order `for...in` visits an object's keys, and a stable sort by class
 * or node priority.
 */
module Order {
  import opened Base
  import opened Link
  import opened Nodes
  import opened Graphs

  /** `num`: how many of the inputs hold a link. */
  function LinkedInputs(ins: seq<Input>): (c: nat)
    ensures c <= |ins|
    ensures c == 0 <==> forall i :: 0 <= i < |ins| ==> ins[i].link.None?
  {
    if |ins| == 0 then 0
    else (if ins[0].link.Some? then 1 else 0) + LinkedInputs(ins[1..])
  }

  /** The link ids leaving a node, output by output and in list order; outputs without links add nothing. */
  function OutLinkIds(outs: seq<Output>): (ks: seq<int>)
    ensures forall k :: k in ks <==> exists i :: 0 <= i < |outs| && outs[i].links.Some? && k in outs[i].links.value
  {
    if |outs| == 0 then []
    else
      var rest := OutLinkIds(outs[1..]);
      var here := if outs[0].links.Some? then outs[0].links.value else [];
      assert forall k :: k in rest <==> exists i :: 1 <= i < |outs| && outs[i].links.Some? && k in outs[i].links.value by {
        forall k | k in rest ensures exists i :: 1 <= i < |outs| && outs[i].links.Some? && k in outs[i].links.value {
          var i :| 0 <= i < |outs[1..]| && outs[1..][i].links.Some? && k in outs[1..][i].links.value;
          assert outs[i + 1] == outs[1..][i];
        }
        forall k | exists i :: 1 <= i < |outs| && outs[i].links.Some? && k in outs[i].links.value ensures k in rest {
          var i :| 1 <= i < |outs| && outs[i].links.Some? && k in outs[i].links.value;
          assert outs[1..][i - 1] == outs[i];
        }
      }
      here + rest
  }

  // ---------------------------------------------------------------------------
  // Kahn's algorithm
  // ---------------------------------------------------------------------------

  /** The loop state: `S`, `L`, `remaining_links` and `visited_links`. */
  datatype Kahn = Kahn(queue: seq<int>, done: seq<int>, rem: map<int, int>, visited: set<int>)

  /** Nodes still waiting for at least one link. Start nodes have no entry: their count is `NaN` in the source. */
  function Waiting(rem: map<int, int>): set<int>
  {
    set t | t in rem.Keys && rem[t] >= 1
  }

  /** The state facts the loop keeps: every node is queued or emitted at most once, never while still waiting. */
  predicate Inv(g: Graph, st: Kahn)
  {
    NoDup(st.done + st.queue) &&
    AllIn(g, st.done + st.queue) &&
    (forall t :: t in st.rem && st.rem[t] >= 1 ==> t !in st.done + st.queue)
  }

  /** The start nodes among `ids`, in order: those with no linked input. */
  function StartNodes(g: Graph, ids: seq<int>): (r: seq<int>)
    requires AllIn(g, ids)
    ensures AllIn(g, r)
    ensures forall x {:trigger x in r} :: x in r <==> x in ids && LinkedInputs(g.nodes[x].inputs) == 0
    ensures NoDup(ids) ==> NoDup(r)
  {
    if |ids| == 0 then []
    else
      var rest := StartNodes(g, ids[1..]);
      assert ids[0] in rest ==> ids[0] in ids[1..];
      if LinkedInputs(g.nodes[ids[0]].inputs) == 0 then [ids[0]] + rest else rest
  }

  /** The state before the main loop: the start nodes queued, every other node waiting for its linked inputs. */
  function Init(g: Graph): (st: Kahn)
    requires StoreOk(g)
    ensures Inv(g, st)
    ensures st.done == [] && st.visited == {}
    ensures forall t {:trigger t in st.rem} :: t in st.rem <==> t in g.nodes && LinkedInputs(g.nodes[t].inputs) > 0
  {
    assert AllIn(g, g.nodeList) by {
      forall i | 0 <= i < |g.nodeList| ensures g.nodeList[i] in g.nodes {
        var x := g.nodeList[i];
        assert x in g.nodeList;
      }
    }
    var q := StartNodes(g, g.nodeList);
    var rem := map t | t in g.nodes.Keys && LinkedInputs(g.nodes[t].inputs) > 0 :: LinkedInputs(g.nodes[t].inputs);
    assert [] + q == q;
    Kahn(q, [], rem, {})
  }

  lemma WaitingUpdate(rem: map<int, int>, t: int, c: int)
    ensures c >= 1 ==> Waiting(rem[t := c]) == Waiting(rem) + {t}
    ensures c < 1 ==> Waiting(rem[t := c]) == Waiting(rem) - {t}
  {
  }

  /**
   * One link of the node just emitted: unknown and already visited links are
   * skipped; a link to a missing node is only marked; otherwise the target's
   * count drops and the target is queued when it reaches zero.
   */
  function Step(g: Graph, st: Kahn, k: int): (r: Kahn)
    requires Inv(g, st)
    ensures Inv(g, r)
    ensures r.done == st.done && r.rem.Keys == st.rem.Keys && st.visited <= r.visited
    ensures r.queue == st.queue || (|r.queue| == |st.queue| + 1 && r.queue[..|st.queue|] == st.queue)
    ensures |Waiting(r.rem)| + |r.queue| <= |Waiting(st.rem)| + |st.queue|
  {
    if k !in g.links then st
    else
      var l := g.links[k];
      if l.id in st.visited then st
      else if l.targetId !in g.nodes then st.(visited := st.visited + {l.id})
      else
        var t := l.targetId;
        var st2 := st.(visited := st.visited + {l.id});
        if t !in st.rem then st2
        else
          var c := st.rem[t] - 1;
          WaitingUpdate(st.rem, t, c);
          if c == 0 then
            assert st.rem[t] >= 1;
            assert (st.done + st.queue) + [t] == st.done + (st.queue + [t]);
            assert (st.queue + [t])[..|st.queue|] == st.queue;
            st2.(rem := st.rem[t := c], queue := st.queue + [t])
          else
            st2.(rem := st.rem[t := c])
  }

  /** The links of one emitted node, in turn (the two inner loops). */
  function Visit(g: Graph, st: Kahn, ks: seq<int>): (r: Kahn)
    requires Inv(g, st)
    ensures Inv(g, r)
    ensures r.done == st.done && r.rem.Keys == st.rem.Keys && st.visited <= r.visited
    ensures |r.queue| >= |st.queue| && r.queue[..|st.queue|] == st.queue
    ensures |Waiting(r.rem)| + |r.queue| <= |Waiting(st.rem)| + |st.queue|
    decreases |ks|
  {
    if |ks| == 0 then st
    else
      var st1 := Step(g, st, ks[0]);
      var r := Visit(g, st1, ks[1..]);
      assert r.queue[..|st.queue|] == r.queue[..|st1.queue|][..|st.queue|];
      r
  }

  /** The main loop: take the head of the queue, emit it, and visit its links. */
  function Drain(g: Graph, st: Kahn): (r: Kahn)
    requires Inv(g, st)
    ensures Inv(g, r) && r.queue == []
    ensures |r.done| >= |st.done| && r.done[..|st.done|] == st.done
    ensures forall x :: x in st.done + st.queue ==> x in r.done
    decreases |Waiting(st.rem)| + |st.queue|
  {
    if |st.queue| == 0 then st
    else
      var u := st.queue[0];
      assert (st.done + st.queue)[|st.done|] == u;
      var st1 := st.(queue := st.queue[1..], done := st.done + [u]);
      assert st1.done + st1.queue == st.done + st.queue;
      var st2 := Visit(g, st1, OutLinkIds(g.nodes[u].outputs));
      var r := Drain(g, st2);
      assert r.done[..|st.done|] == r.done[..|st1.done|][..|st.done|];
      assert forall x :: x in st.done + st.queue ==> x in st1.done || x in st1.queue;
      assert forall x :: x in st1.queue ==> x in st2.queue by {
        forall x | x in st1.queue ensures x in st2.queue {
          var i :| 0 <= i < |st1.queue| && st1.queue[i] == x;
          assert st2.queue[..|st1.queue|][i] == x;
        }
      }
      r
  }

  /** The nodes the main loop emits, in emission order. */
  function KahnOrder(g: Graph): (L: seq<int>)
    requires StoreOk(g)
    ensures NoDup(L)
    ensures AllIn(g, L)
  {
    var r := Drain(g, Init(g));
    assert r.done + [] == r.done;
    r.done
  }

  // ---------------------------------------------------------------------------
  // The left-over nodes
  // ---------------------------------------------------------------------------

  /** Whether `for...in` treats a numeric key as an array index, visiting it before all other keys. */
  predicate IndexKey(id: int)
  {
    0 <= id < 0xFFFF_FFFF
  }

  /** `s` without the elements of `d`, in order. */
  function Without(s: seq<int>, d: seq<int>): (r: seq<int>)
    ensures forall x {:trigger x in r} :: x in r <==> x in s && x !in d
    ensures NoDup(s) ==> NoDup(r)
  {
    if |s| == 0 then []
    else if s[0] in d then Without(s[1..], d)
    else
      var rest := Without(s[1..], d);
      assert s[0] in rest ==> s[0] in s[1..];
      [s[0]] + rest
  }

  /** The elements of `s` that are (or are not) array-index keys, in order. */
  function Keys(s: seq<int>, index: bool): (r: seq<int>)
    ensures forall x {:trigger x in r} :: x in r <==> x in s && IndexKey(x) == index
  {
    if |s| == 0 then []
    else if IndexKey(s[0]) == index then [s[0]] + Keys(s[1..], index)
    else Keys(s[1..], index)
  }

  lemma {:induction false} KeysPartition(s: seq<int>)
    ensures multiset(Keys(s, true)) + multiset(Keys(s, false)) == multiset(s)
  {
    if |s| > 0 {
      KeysPartition(s[1..]);
      assert s == [s[0]] + s[1..];
    }
  }

  predicate Ascending(s: seq<int>)
  {
    forall i, j :: 0 <= i < j < |s| ==> s[i] <= s[j]
  }

  function InsertInt(x: int, s: seq<int>): (r: seq<int>)
    requires Ascending(s)
    ensures Ascending(r)
    ensures multiset(r) == multiset(s) + multiset{x}
  {
    if |s| == 0 then [x]
    else if x <= s[0] then [x] + s
    else
      assert s == [s[0]] + s[1..];
      var rest := InsertInt(x, s[1..]);
      HeadBelowInsertInt(x, s, rest);
      [s[0]] + rest
  }

  lemma HeadBelowInsertInt(x: int, s: seq<int>, rest: seq<int>)
    requires Ascending(s) && |s| > 0 && x > s[0]
    requires multiset(rest) == multiset(s[1..]) + multiset{x} && Ascending(rest)
    ensures Ascending([s[0]] + rest)
  {
    var r := [s[0]] + rest;
    forall k | 0 <= k < |rest| ensures s[0] <= rest[k] {
      assert rest[k] in multiset(rest);
      if rest[k] != x {
        assert rest[k] in multiset(s[1..]);
        var j :| 0 <= j < |s[1..]| && s[1..][j] == rest[k];
        assert s[j + 1] == rest[k];
      }
    }
    forall i, j | 0 <= i < j < |r| ensures r[i] <= r[j] {
      if i == 0 {
        assert r[j] == rest[j - 1];
      } else {
        assert r[i] == rest[i - 1] && r[j] == rest[j - 1];
      }
    }
  }

  function SortInts(s: seq<int>): (r: seq<int>)
    ensures Ascending(r)
    ensures multiset(r) == multiset(s)
  {
    if |s| == 0 then []
    else
      assert s == [s[0]] + s[1..];
      InsertInt(s[0], SortInts(s[1..]))
  }

  /**
   * The nodes the main loop never emitted, in `for...in` order over `M`
   * (which received them in `_nodes` order): array-index ids ascending, then
   * the other ids in insertion order.
   */
  function Tail(g: Graph, L: seq<int>): (r: seq<int>)
    ensures multiset(r) == multiset(Without(g.nodeList, L))
    ensures forall x {:trigger x in r} :: x in r <==> x in g.nodeList && x !in L
  {
    var rest := Without(g.nodeList, L);
    var r := SortInts(Keys(rest, true)) + Keys(rest, false);
    KeysPartition(rest);
    forall x ensures x in r <==> x in g.nodeList && x !in L {
      assert x in r <==> x in multiset(r);
      assert x in rest <==> x in multiset(rest);
    }
    r
  }

  // ---------------------------------------------------------------------------
  // The priority sort
  // ---------------------------------------------------------------------------

  /** `constructor.priority || priority || 0`. */
  function Priority(n: Node): int
  {
    if n.classPriority != 0 then n.classPriority else n.priority
  }

  predicate AllIn(g: Graph, s: seq<int>)
  {
    forall i :: 0 <= i < |s| ==> s[i] in g.nodes
  }

  predicate ByPriority(g: Graph, s: seq<int>)
    requires AllIn(g, s)
  {
    forall i, j :: 0 <= i < j < |s| ==> Priority(g.nodes[s[i]]) <= Priority(g.nodes[s[j]])
  }

  /** The elements of `s` with priority `p`, in order. */
  function WithPriority(g: Graph, s: seq<int>, p: int): (r: seq<int>)
    requires AllIn(g, s)
    ensures forall x {:trigger x in r} :: x in r <==> x in s && Priority(g.nodes[x]) == p
  {
    if |s| == 0 then []
    else if Priority(g.nodes[s[0]]) == p then [s[0]] + WithPriority(g, s[1..], p)
    else WithPriority(g, s[1..], p)
  }

  /** Insertion before the first element of equal or higher priority, so that earlier elements stay first among equals. */
  function InsertByPriority(g: Graph, x: int, s: seq<int>): (r: seq<int>)
    requires x in g.nodes && AllIn(g, s) && ByPriority(g, s)
    ensures multiset(r) == multiset(s) + multiset{x}
    ensures AllIn(g, r) && ByPriority(g, r)
  {
    if |s| == 0 then [x]
    else if Priority(g.nodes[x]) <= Priority(g.nodes[s[0]]) then [x] + s
    else
      assert s == [s[0]] + s[1..];
      var rest := InsertByPriority(g, x, s[1..]);
      var r := [s[0]] + rest;
      HeadBelowInsert(g, x, s, rest);
      assert multiset(r) == multiset(s) + multiset{x};
      r
  }

  lemma HeadBelowInsert(g: Graph, x: int, s: seq<int>, rest: seq<int>)
    requires x in g.nodes && AllIn(g, s) && ByPriority(g, s) && |s| > 0
    requires Priority(g.nodes[x]) > Priority(g.nodes[s[0]])
    requires multiset(rest) == multiset(s[1..]) + multiset{x}
    requires AllIn(g, rest) && ByPriority(g, rest)
    ensures AllIn(g, [s[0]] + rest) && ByPriority(g, [s[0]] + rest)
  {
    var r := [s[0]] + rest;
    forall k | 0 <= k < |rest| ensures Priority(g.nodes[s[0]]) <= Priority(g.nodes[rest[k]]) {
      assert rest[k] in multiset(rest);
      if rest[k] != x {
        assert rest[k] in multiset(s[1..]);
        var j :| 0 <= j < |s[1..]| && s[1..][j] == rest[k];
        assert s[j + 1] == rest[k];
      }
    }
    forall i, j | 0 <= i < j < |r| ensures Priority(g.nodes[r[i]]) <= Priority(g.nodes[r[j]]) {
      if i == 0 {
        assert r[j] == rest[j - 1];
      } else {
        assert r[i] == rest[i - 1] && r[j] == rest[j - 1];
      }
    }
  }

  /** Inserting `x` adds it at the front of its priority class and changes no other class. */
  lemma {:induction false} InsertByPriorityClasses(g: Graph, x: int, s: seq<int>, p: int)
    requires x in g.nodes && AllIn(g, s) && ByPriority(g, s)
    ensures WithPriority(g, InsertByPriority(g, x, s), p) ==
      if Priority(g.nodes[x]) == p then [x] + WithPriority(g, s, p) else WithPriority(g, s, p)
  {
    if |s| > 0 && Priority(g.nodes[x]) > Priority(g.nodes[s[0]]) {
      var rest := InsertByPriority(g, x, s[1..]);
      InsertByPriorityClasses(g, x, s[1..], p);
      var r := [s[0]] + rest;
      assert r[1..] == rest;
    } else if |s| > 0 {
      assert ([x] + s)[1..] == s;
    }
  }

  /**
   * `L.sort(...)` with the comparator of priority, then position: the result
   * runs by non-decreasing priority.
   */
  function SortByPriority(g: Graph, s: seq<int>): (r: seq<int>)
    requires AllIn(g, s)
    ensures multiset(r) == multiset(s)
    ensures AllIn(g, r) && ByPriority(g, r)
  {
    if |s| == 0 then []
    else
      assert s == [s[0]] + s[1..];
      InsertByPriority(g, s[0], SortByPriority(g, s[1..]))
  }

  /** The sort is stable: each priority class keeps its relative order. */
  lemma {:induction false} SortByPriorityStable(g: Graph, s: seq<int>, p: int)
    requires AllIn(g, s)
    ensures WithPriority(g, SortByPriority(g, s), p) == WithPriority(g, s, p)
  {
    if |s| > 0 {
      SortByPriorityStable(g, s[1..], p);
      InsertByPriorityClasses(g, s[0], SortByPriority(g, s[1..]), p);
    }
  }

  // ---------------------------------------------------------------------------
  // The whole computation
  // ---------------------------------------------------------------------------

  lemma NoDupCount(s: seq<int>, x: int)
    requires NoDup(s)
    ensures multiset(s)[x] == if x in s then 1 else 0
  {
    MultisetNoDup(s);
  }

  lemma TailAllIn(g: Graph, L: seq<int>)
    requires StoreOk(g) && AllIn(g, L)
    ensures AllIn(g, L + Tail(g, L))
  {
    var all := L + Tail(g, L);
    forall i | 0 <= i < |all| ensures all[i] in g.nodes {
      if i >= |L| {
        var x := all[i];
        assert x in Tail(g, L);
        assert x in g.nodeList;
      }
    }
  }

  /** `L` before the sort: the emitted nodes, then the left-over ones. */
  function Unsorted(g: Graph): (L: seq<int>)
    requires StoreOk(g)
    ensures AllIn(g, L)
  {
    var L := KahnOrder(g);
    TailAllIn(g, L);
    L + Tail(g, L)
  }

  lemma KahnTailPermutation(g: Graph, L: seq<int>)
    requires StoreOk(g) && NoDup(L) && AllIn(g, L)
    ensures multiset(L + Tail(g, L)) == multiset(g.nodeList)
  {
    var rest := Without(g.nodeList, L);
    forall x ensures multiset(L + Tail(g, L))[x] == multiset(g.nodeList)[x] {
      NoDupCount(L, x);
      NoDupCount(rest, x);
      NoDupCount(g.nodeList, x);
      if x in L {
        var i :| 0 <= i < |L| && L[i] == x;
        assert x in g.nodes;
      }
    }
  }

  /**
   * `computeExecutionOrder(false)`: the emitted nodes, then the left-over
   * ones, sorted by priority.
   */
  function ComputeExecutionOrder(g: Graph): (r: seq<int>)
    requires StoreOk(g)
  {
    SortByPriority(g, Unsorted(g))
  }

  /** The execution order holds every node of the graph exactly once, by non-decreasing priority. */
  lemma ComputeExecutionOrderSpec(g: Graph)
    requires StoreOk(g)
    ensures var r := ComputeExecutionOrder(g);
      AllIn(g, r) && ByPriority(g, r) && multiset(r) == multiset(g.nodeList) && NoDup(r) &&
      forall x :: x in r <==> x in g.nodes
  {
    var L := KahnOrder(g);
    var r := ComputeExecutionOrder(g);
    KahnTailPermutation(g, L);
    assert multiset(r) == multiset(g.nodeList);
    MultisetNoDup(g.nodeList);
    NoDupFromMultiset(r);
    forall x ensures x in r <==> x in g.nodes {
      assert x in r <==> x in multiset(r);
      assert x in g.nodeList <==> x in multiset(g.nodeList);
    }
  }

  /**
   * Among nodes of equal priority the order keeps the emission order followed
   * by the left-over order.
   */
  lemma ComputeExecutionOrderStable(g: Graph, p: int)
    requires StoreOk(g)
    ensures WithPriority(g, ComputeExecutionOrder(g), p) == WithPriority(g, Unsorted(g), p)
  {
    SortByPriorityStable(g, Unsorted(g), p);
  }

  /** `nodes_in_order` filtered to the nodes that have `onExecute`, in order. */
  function Executable(g: Graph, s: seq<int>): (r: seq<int>)
    ensures forall x {:trigger x in r} :: x in r <==> x in s && x in g.nodes && g.nodes[x].onExecute.Some?
    ensures NoDup(s) ==> NoDup(r)
  {
    if |s| == 0 then []
    else if s[0] in g.nodes && g.nodes[s[0]].onExecute.Some? then
      var rest := Executable(g, s[1..]);
      assert s[0] in rest ==> s[0] in s[1..];
      [s[0]] + rest
    else Executable(g, s[1..])
  }

  /** The `order` field each node receives: its position in the list. */
  function Positions(L: seq<int>): (m: map<int, int>)
    ensures forall x {:trigger x in m} :: x in m <==> x in L
    ensures NoDup(L) ==> forall i :: 0 <= i < |L| ==> L[i] in m && m[L[i]] == i
  {
    var m := map x | x in L :: IndexOf(L, x);
    assert NoDup(L) ==> forall i :: 0 <= i < |L| ==> m[L[i]] == i by {
      if NoDup(L) {
        forall i | 0 <= i < |L| ensures m[L[i]] == i {
          var k := IndexOf(L, L[i]);
          assert L[k] == L[i];
        }
      }
    }
    m
  }

  /** The node and link stores of `g`, as `updateExecutionOrder` reads them. */
  function SnapshotOf(g: Graph): Snapshot
  {
    Snapshot(g.nodes, g.nodeList, g.links, g.lastLinkId)
  }

  /** A cleared graph holding only the stores a snapshot recorded. */
  function Replay(s: Snapshot): (g: Graph)
    ensures g.nodes == s.nodes && g.nodeList == s.nodeList && g.links == s.links && g.lastLinkId == s.lastLinkId
  {
    Blank.(nodes := s.nodes, nodeList := s.nodeList, links := s.links, lastLinkId := s.lastLinkId)
  }

  /**
   * `updateExecutionOrder`: records the stores it orders; the order, the
   * positions and the executable list are read from that record below.
   * Nothing else changes.
   */
  function UpdateExecutionOrder(g: Graph): (g': Graph)
    ensures g' == g.(ordered := g'.ordered) && g'.ordered.Some?
    ensures Replay(g'.ordered.value) == Blank.(nodes := g.nodes, nodeList := g.nodeList, links := g.links, lastLinkId := g.lastLinkId)
  {
    g.(ordered := Some(SnapshotOf(g)))
  }

  /**
   * `_nodes_in_order`: empty until the order is first computed. A snapshot
   * is only ever taken of a consistent store; for any other the plain
   * insertion order stands in.
   */
  function NodesInOrder(g: Graph): seq<int>
  {
    match g.ordered
    case None => []
    case Some(s) => if StoreOk(Replay(s)) then ComputeExecutionOrder(Replay(s)) else s.nodeList
  }

  /** Each node's `order` field: its position in `_nodes_in_order`. */
  function NodeOrder(g: Graph): map<int, int>
  {
    Positions(NodesInOrder(g))
  }

  /** `_nodes_executable`: null until the order is first computed. */
  function NodesExecutable(g: Graph): Option<seq<int>>
  {
    match g.ordered
    case None => None
    case Some(s) => Some(Executable(Replay(s), NodesInOrder(g)))
  }

  /**
   * After `updateExecutionOrder` the order holds every node of the graph
   * exactly once, grouped by priority; every node's `order` is its position
   * in it; and `_nodes_executable` lists exactly the nodes that have
   * `onExecute`.
   */
  lemma UpdateExecutionOrderSpec(g: Graph)
    requires StoreOk(g)
    ensures var g' := UpdateExecutionOrder(g); var L := NodesInOrder(g');
      NoDup(L) && (forall x :: x in L <==> x in g.nodes) && ByPriority(g, L) &&
      (forall x :: x in NodeOrder(g') <==> x in g.nodes) &&
      (forall i :: 0 <= i < |L| ==> NodeOrder(g')[L[i]] == i) &&
      NodesExecutable(g').Some? && NoDup(NodesExecutable(g').value) &&
      forall x :: x in NodesExecutable(g').value <==> x in g.nodes && g.nodes[x].onExecute.Some?
  {
    var h := Replay(SnapshotOf(g));
    assert StoreOk(h);
    ComputeExecutionOrderSpec(h);
    assert ByPriority(h, NodesInOrder(UpdateExecutionOrder(g)));
  }
}

/**
 * Why the emitted part of the execution order is topological: in a
 * well-formed graph, every link into an emitted node starts at a node
 * emitted before it.
 */
module OrderTopology {
  import opened Base
  import opened Link
  import opened Nodes
  import opened Graphs
  import opened Order

  /** The links that end at node `t`. */
  function InLinks(g: Graph, t: int): set<int>
  {
    set k | k in g.links.Keys && g.links[k].targetId == t
  }

  /** The link ids held by the inputs, as a set. */
  function LinkSet(ins: seq<Input>): (s: set<int>)
    ensures forall x :: x in s <==> exists i :: 0 <= i < |ins| && ins[i].link == Some(x)
  {
    if |ins| == 0 then {}
    else
      var rest := LinkSet(ins[1..]);
      assert forall x :: x in rest <==> exists i :: 1 <= i < |ins| && ins[i].link == Some(x) by {
        forall x | x in rest ensures exists i :: 1 <= i < |ins| && ins[i].link == Some(x) {
          var i :| 0 <= i < |ins[1..]| && ins[1..][i].link == Some(x);
          assert ins[i + 1] == ins[1..][i];
        }
        forall x | exists i :: 1 <= i < |ins| && ins[i].link == Some(x) ensures x in rest {
          var i :| 1 <= i < |ins| && ins[i].link == Some(x);
          assert ins[1..][i - 1] == ins[i];
        }
      }
      (if ins[0].link.Some? then {ins[0].link.value} else {}) + rest
  }

  /** No two inputs hold the same link. */
  predicate DistinctLinks(ins: seq<Input>)
  {
    forall i, j :: 0 <= i < j < |ins| && ins[i].link.Some? ==> ins[j].link != ins[i].link
  }

  lemma {:induction false} DistinctLinksCount(ins: seq<Input>)
    requires DistinctLinks(ins)
    ensures |LinkSet(ins)| == LinkedInputs(ins)
  {
    if |ins| > 0 {
      assert DistinctLinks(ins[1..]) by {
        forall i, j | 0 <= i < j < |ins[1..]| && ins[1..][i].link.Some? ensures ins[1..][j].link != ins[1..][i].link {
          assert ins[1..][i] == ins[i + 1] && ins[1..][j] == ins[j + 1];
        }
      }
      DistinctLinksCount(ins[1..]);
      if ins[0].link.Some? {
        assert ins[0].link.value !in LinkSet(ins[1..]);
      }
    }
  }

  /** In a well-formed graph the number of linked inputs of a node is the number of links ending there. */
  lemma LinkedInputsCountInLinks(g: Graph, t: int)
    requires WF(g) && t in g.nodes
    ensures LinkedInputs(g.nodes[t].inputs) == |InLinks(g, t)|
  {
    var ins := g.nodes[t].inputs;
    forall i, j | 0 <= i < j < |ins| && ins[i].link.Some? ensures ins[j].link != ins[i].link {
      assert InputBacked(g, t, i);
      assert InputBacked(g, t, j);
    }
    DistinctLinksCount(ins);
    forall k ensures k in LinkSet(ins) <==> k in InLinks(g, t) {
      if k in LinkSet(ins) {
        var i :| 0 <= i < |ins| && ins[i].link == Some(k);
        assert InputBacked(g, t, i);
      }
      if k in InLinks(g, t) {
        assert LinkRegistered(g, k);
        assert ins[g.links[k].targetSlot].link == Some(k);
      }
    }
    assert LinkSet(ins) == InLinks(g, t);
  }

  /** Each waiting count is the number of links into that node not yet visited. */
  predicate Counts(g: Graph, st: Kahn)
  {
    forall t :: t in st.rem ==> st.rem[t] == |InLinks(g, t) - st.visited|
  }

  /** Nodes without a count have no incoming links. */
  predicate Sources(g: Graph, st: Kahn)
  {
    forall t :: t in g.nodes && t !in st.rem ==> InLinks(g, t) == {}
  }

  /** Visited links start at emitted nodes. */
  predicate VisitedFromDone(g: Graph, st: Kahn)
  {
    forall k :: k in st.visited ==> k in g.links && g.links[k].originId in st.done
  }

  /** Every link into a queued or emitted node starts at an emitted node placed before it. */
  predicate Ordered(g: Graph, done: seq<int>, queue: seq<int>)
  {
    var D := done + queue;
    forall j, k :: 0 <= j < |D| && k in g.links && g.links[k].targetId == D[j] ==>
       g.links[k].originId in done && g.links[k].originId in D[..j]
  }

  /** The facts behind the topological order, kept by every step of the loop. */
  predicate TopoInv(g: Graph, st: Kahn)
  {
    Counts(g, st) && Sources(g, st) && VisitedFromDone(g, st) && Ordered(g, st.done, st.queue)
  }

  lemma InitTopo(g: Graph)
    requires WF(g)
    ensures TopoInv(g, Init(g))
  {
    var st := Init(g);
    forall t | t in g.nodes ensures LinkedInputs(g.nodes[t].inputs) == |InLinks(g, t)| {
      LinkedInputsCountInLinks(g, t);
    }
    assert st.done + st.queue == st.queue;
    forall j | 0 <= j < |st.queue| ensures InLinks(g, st.queue[j]) == {} {
      var t := st.queue[j];
      assert t in st.queue;
    }
  }

  /** Visiting a new link into `t` lowers `t`'s count by one and leaves the others exact. */
  lemma StepCounts(g: Graph, st: Kahn, k: int, t: int)
    requires Counts(g, st)
    requires k in g.links && g.links[k].targetId == t && k !in st.visited && t in st.rem
    ensures st.rem[t] >= 1
    ensures forall t' :: t' in st.rem[t := st.rem[t] - 1] ==>
      st.rem[t := st.rem[t] - 1][t'] == |InLinks(g, t') - (st.visited + {k})|
  {
    assert k in InLinks(g, t) - st.visited;
    forall t' | t' in st.rem ensures (if t' == t then st.rem[t] - 1 else st.rem[t']) == |InLinks(g, t') - (st.visited + {k})| {
      if t' == t {
        assert InLinks(g, t) - (st.visited + {k}) == (InLinks(g, t) - st.visited) - {k};
      } else {
        assert InLinks(g, t') - (st.visited + {k}) == InLinks(g, t') - st.visited;
      }
    }
  }

  /** Appending a node all of whose incoming links start at emitted nodes keeps the order facts. */
  lemma AppendKeepsOrder(g: Graph, done: seq<int>, queue: seq<int>, t: int)
    requires Ordered(g, done, queue)
    requires forall k :: k in InLinks(g, t) ==> g.links[k].originId in done
    ensures Ordered(g, done, queue + [t])
  {
    var D := done + queue;
    var D' := done + (queue + [t]);
    assert D' == D + [t];
    forall j, k | 0 <= j < |D'| && k in g.links && g.links[k].targetId == D'[j]
      ensures g.links[k].originId in done && g.links[k].originId in D'[..j]
    {
      if j < |D| {
        assert D'[..j] == D[..j];
        assert D'[j] == D[j];
      } else {
        assert k in InLinks(g, t);
        assert D'[..j] == D;
      }
    }
  }

  lemma StepTopo(g: Graph, st: Kahn, k: int, u: int)
    requires Inv(g, st) && TopoInv(g, st)
    requires u in st.done && k in g.links && LinkRegistered(g, k) && g.links[k].originId == u
    ensures TopoInv(g, Step(g, st, k))
  {
    if k !in st.visited {
      var t := g.links[k].targetId;
      assert k in InLinks(g, t);
      assert t in st.rem;
      StepFresh(g, st, k, t, u);
    }
  }

  /** The effect of visiting a fresh link into a counted node, established part by part. */
  lemma StepFresh(g: Graph, st: Kahn, k: int, t: int, u: int)
    requires Inv(g, st) && TopoInv(g, st)
    requires u in st.done && k in g.links && LinkRegistered(g, k) && g.links[k].originId == u
    requires g.links[k].targetId == t && k !in st.visited && t in st.rem
    ensures TopoInv(g, Step(g, st, k))
  {
    var r := Step(g, st, k);
    assert r.visited == st.visited + {k} && r.rem == st.rem[t := st.rem[t] - 1] && r.done == st.done;
    StepCounts(g, st, k, t);
    assert Counts(g, r);
    assert Sources(g, r);
    assert VisitedFromDone(g, r);
    if st.rem[t] == 1 {
      assert r.queue == st.queue + [t];
      forall k' | k' in InLinks(g, t) ensures g.links[k'].originId in st.done {
        assert k' in r.visited;
      }
      AppendKeepsOrder(g, st.done, st.queue, t);
    } else {
      assert r.queue == st.queue;
    }
  }

  lemma {:induction false} VisitTopo(g: Graph, st: Kahn, ks: seq<int>, u: int)
    requires Inv(g, st) && TopoInv(g, st)
    requires u in st.done
    requires forall k :: k in ks ==> k in g.links && LinkRegistered(g, k) && g.links[k].originId == u
    ensures TopoInv(g, Visit(g, st, ks))
    decreases |ks|
  {
    if |ks| > 0 {
      StepTopo(g, st, ks[0], u);
      var st1 := Step(g, st, ks[0]);
      assert forall k :: k in ks[1..] ==> k in ks;
      VisitTopo(g, st1, ks[1..], u);
    }
  }

  lemma {:induction false} DrainTopo(g: Graph, st: Kahn)
    requires WF(g) && Inv(g, st) && TopoInv(g, st)
    ensures TopoInv(g, Drain(g, st))
    decreases |Waiting(st.rem)| + |st.queue|
  {
    if |st.queue| > 0 {
      var u := st.queue[0];
      assert (st.done + st.queue)[|st.done|] == u;
      var st1 := st.(queue := st.queue[1..], done := st.done + [u]);
      assert st1.done + st1.queue == st.done + st.queue;
      assert TopoInv(g, st1);
      var ks := OutLinkIds(g.nodes[u].outputs);
      forall k | k in ks ensures k in g.links && LinkRegistered(g, k) && g.links[k].originId == u {
        var i :| 0 <= i < |g.nodes[u].outputs| && g.nodes[u].outputs[i].links.Some? && k in g.nodes[u].outputs[i].links.value;
        assert OutputBacked(g, u, i);
      }
      VisitTopo(g, st1, ks, u);
      DrainTopo(g, Visit(g, st1, ks));
    }
  }

  /**
   * In a well-formed graph, every link into a node the main loop emits
   * starts at a node emitted earlier; only nodes on or behind a cycle are
   * left for the tail.
   */
  lemma KahnOrderTopological(g: Graph)
    requires WF(g)
    ensures var L := KahnOrder(g);
      forall j, k :: 0 <= j < |L| && k in g.links && g.links[k].targetId == L[j] ==> g.links[k].originId in L[..j]
  {
    InitTopo(g);
    DrainTopo(g, Init(g));
    var r := Drain(g, Init(g));
    assert r.done + r.queue == r.done;
  }

  /** Every node with no linked input is emitted by the main loop. */
  lemma StartNodesEmitted(g: Graph, t: int)
    requires StoreOk(g) && t in g.nodes && LinkedInputs(g.nodes[t].inputs) == 0
    ensures t in KahnOrder(g)
  {
    var st := Init(g);
    assert t in g.nodeList;
    assert t in st.queue;
  }

  // ---------------------------------------------------------------------------
  // Acyclic graphs are emitted whole
  // ---------------------------------------------------------------------------

  /** Every node is queued or emitted once it has no count or its count reached zero. */
  predicate Reached(g: Graph, st: Kahn)
  {
    forall t :: t in g.nodes && (t !in st.rem || st.rem[t] == 0) ==> t in st.done + st.queue
  }

  /** Every link leaving an emitted node has been visited. */
  predicate Explored(g: Graph, st: Kahn)
  {
    forall k :: k in g.links && g.links[k].originId in st.done ==> k in st.visited
  }

  lemma InitReached(g: Graph)
    requires StoreOk(g)
    ensures Reached(g, Init(g)) && Explored(g, Init(g))
  {
    var st := Init(g);
    forall t | t in g.nodes && (t !in st.rem || st.rem[t] == 0) ensures t in st.done + st.queue {
      assert t in g.nodeList;
      assert st.done + st.queue == st.queue;
    }
  }

  lemma StepReached(g: Graph, st: Kahn, k: int)
    requires Inv(g, st) && Reached(g, st)
    ensures Reached(g, Step(g, st, k))
  {
    var r := Step(g, st, k);
    forall t | t in g.nodes && (t !in r.rem || r.rem[t] == 0) ensures t in r.done + r.queue {
      assert t in st.done + st.queue || t in r.queue;
      if t in st.done + st.queue && t !in st.done {
        var i :| 0 <= i < |st.queue| && st.queue[i] == t;
        assert r.queue[..|st.queue|][i] == t;
      }
    }
  }

  lemma {:induction false} VisitReached(g: Graph, st: Kahn, ks: seq<int>)
    requires Inv(g, st) && Reached(g, st)
    ensures Reached(g, Visit(g, st, ks))
    decreases |ks|
  {
    if |ks| > 0 {
      StepReached(g, st, ks[0]);
      VisitReached(g, Step(g, st, ks[0]), ks[1..]);
    }
  }

  /** Visiting a list of links marks every stored one among them. */
  lemma {:induction false} VisitMarks(g: Graph, st: Kahn, ks: seq<int>)
    requires Inv(g, st)
    ensures forall k :: k in ks && k in g.links && g.links[k].id == k ==> k in Visit(g, st, ks).visited
    decreases |ks|
  {
    if |ks| > 0 {
      var st1 := Step(g, st, ks[0]);
      VisitMarks(g, st1, ks[1..]);
      forall k | k in ks && k in g.links && g.links[k].id == k ensures k in Visit(g, st, ks).visited {
        if k != ks[0] {
          assert k in ks[1..];
        }
      }
    }
  }

  lemma {:induction false} DrainReached(g: Graph, st: Kahn)
    requires WF(g) && Inv(g, st) && Reached(g, st) && Explored(g, st)
    ensures Reached(g, Drain(g, st)) && Explored(g, Drain(g, st))
    decreases |Waiting(st.rem)| + |st.queue|
  {
    if |st.queue| > 0 {
      var u := st.queue[0];
      assert (st.done + st.queue)[|st.done|] == u;
      var st1 := st.(queue := st.queue[1..], done := st.done + [u]);
      assert st1.done + st1.queue == st.done + st.queue;
      var ks := OutLinkIds(g.nodes[u].outputs);
      var st2 := Visit(g, st1, ks);
      VisitReached(g, st1, ks);
      VisitMarks(g, st1, ks);
      forall k | k in g.links && g.links[k].originId in st2.done ensures k in st2.visited {
        if g.links[k].originId == u {
          assert LinkRegistered(g, k);
          assert k in ks;
        } else {
          assert g.links[k].originId in st.done;
        }
      }
      DrainReached(g, st2);
    }
  }

  /** At the end of the loop, a node not emitted still waits for a link whose origin was not emitted. */
  lemma EndFed(g: Graph, r: Kahn, t: int)
    requires WF(g) && Counts(g, r) && Reached(g, r) && Explored(g, r) && r.queue == []
    requires t in g.nodes && t !in r.done
    ensures exists k :: k in g.links && g.links[k].targetId == t && g.links[k].originId in g.nodes && g.links[k].originId !in r.done
  {
    assert r.done + r.queue == r.done;
    assert t in r.rem && r.rem[t] != 0;
    if forall k :: k in g.links && g.links[k].targetId == t ==> k in r.visited {
      assert false;
    }
    var k :| k in g.links && g.links[k].targetId == t && k !in r.visited;
    assert LinkRegistered(g, k);
  }

  /** In a well-formed graph, a node the main loop never emits has a link from another node it never emits. */
  lemma LeftOverFed(g: Graph, t: int)
    requires WF(g) && t in g.nodes && t !in KahnOrder(g)
    ensures exists k :: k in g.links && g.links[k].targetId == t && g.links[k].originId in g.nodes && g.links[k].originId !in KahnOrder(g)
  {
    var st := Init(g);
    InitTopo(g);
    InitReached(g);
    DrainTopo(g, st);
    DrainReached(g, st);
    EndFed(g, Drain(g, st), t);
  }

  /**
   * A numbering of the nodes in which every link leads to a higher number:
   * the graph has no cycle.
   */
  predicate Ranked(g: Graph, rank: map<int, nat>)
  {
    forall k :: k in g.links ==>
      g.links[k].originId in rank && g.links[k].targetId in rank && rank[g.links[k].originId] < rank[g.links[k].targetId]
  }

  lemma {:induction false} EmittedByRank(g: Graph, rank: map<int, nat>, t: int)
    requires WF(g) && Ranked(g, rank) && t in g.nodes && t in rank
    ensures t in KahnOrder(g)
    decreases rank[t]
  {
    if t !in KahnOrder(g) {
      LeftOverFed(g, t);
      var k :| k in g.links && g.links[k].targetId == t && g.links[k].originId in g.nodes && g.links[k].originId !in KahnOrder(g);
      EmittedByRank(g, rank, g.links[k].originId);
    }
  }

  /** In a well-formed acyclic graph the main loop emits every node: nothing is left for the tail. */
  lemma KahnOrderComplete(g: Graph, rank: map<int, nat>)
    requires WF(g) && Ranked(g, rank) && g.nodes.Keys <= rank.Keys
    ensures forall t :: t in g.nodes ==> t in KahnOrder(g)
  {
    forall t | t in g.nodes ensures t in KahnOrder(g) {
      EmittedByRank(g, rank, t);
    }
  }

  /** Each element's position in a list, as a numbering. */
  function Numbering(L: seq<int>): (m: map<int, nat>)
    ensures forall x {:trigger x in m} :: x in m <==> x in L
    ensures forall x :: x in m ==> m[x] < |L| && L[m[x]] == x
    ensures forall i :: 0 <= i < |L| ==> L[i] in m && m[L[i]] <= i
  {
    map x | x in L :: IndexOf(L, x)
  }

  /** A list that holds every node and runs every link forward numbers the graph acyclically by position. */
  lemma PositionsRank(g: Graph, L: seq<int>)
    requires LinksOk(g) && forall t :: t in g.nodes ==> t in L
    requires forall j, k :: 0 <= j < |L| && k in g.links && g.links[k].targetId == L[j] ==> g.links[k].originId in L[..j]
    ensures Ranked(g, Numbering(L)) && g.nodes.Keys <= Numbering(L).Keys
  {
    var rank := Numbering(L);
    forall k | k in g.links
      ensures g.links[k].originId in rank && g.links[k].targetId in rank && rank[g.links[k].originId] < rank[g.links[k].targetId]
    {
      assert LinkRegistered(g, k);
      var t := g.links[k].targetId;
      var o := g.links[k].originId;
      assert t in rank && o in rank;
      var j := rank[t];
      assert L[j] == t;
      assert o in L[..j];
      var i :| 0 <= i < j && L[..j][i] == o;
      assert L[i] == o;
    }
    forall t | t in g.nodes ensures t in rank {
      assert t in L;
    }
  }

  /** Conversely, when every node is emitted, the emission positions number the graph acyclically. */
  lemma KahnOrderRanks(g: Graph)
    requires WF(g) && forall t :: t in g.nodes ==> t in KahnOrder(g)
    ensures Ranked(g, Numbering(KahnOrder(g))) && g.nodes.Keys <= Numbering(KahnOrder(g)).Keys
  {
    KahnOrderTopological(g);
    PositionsRank(g, KahnOrder(g));
  }

  // ---------------------------------------------------------------------------
  // Links run forward in the execution order
  // ---------------------------------------------------------------------------

  /** All nodes share one priority. */
  predicate OnePriority(g: Graph)
  {
    forall x, y :: x in g.nodes && y in g.nodes ==> Priority(g.nodes[x]) == Priority(g.nodes[y])
  }

  lemma {:induction false} WithPriorityAll(g: Graph, s: seq<int>, p: int)
    requires AllIn(g, s) && forall i :: 0 <= i < |s| ==> Priority(g.nodes[s[i]]) == p
    ensures WithPriority(g, s, p) == s
  {
    if |s| > 0 {
      WithPriorityAll(g, s[1..], p);
      assert s == [s[0]] + s[1..];
    }
  }

  lemma {:induction false} WithoutAll(s: seq<int>, d: seq<int>)
    requires forall i :: 0 <= i < |s| ==> s[i] in d
    ensures Without(s, d) == []
  {
    if |s| > 0 {
      WithoutAll(s[1..], d);
    }
  }

  /** Nothing is left over once every node is emitted. */
  lemma TailEmpty(g: Graph, L: seq<int>)
    requires StoreOk(g) && forall t :: t in g.nodes ==> t in L
    ensures Tail(g, L) == []
  {
    var tl := Tail(g, L);
    forall i | 0 <= i < |g.nodeList| ensures g.nodeList[i] in L {
      var x := g.nodeList[i];
      assert x in g.nodeList;
    }
    WithoutAll(g.nodeList, L);
    assert |multiset(tl)| == 0;
  }

  /** Sorting a list whose elements share one priority leaves it as it is. */
  lemma SortOnePriority(g: Graph, s: seq<int>, p: int)
    requires AllIn(g, s) && forall x :: x in g.nodes ==> Priority(g.nodes[x]) == p
    ensures SortByPriority(g, s) == s
  {
    var r := SortByPriority(g, s);
    forall i | 0 <= i < |s| ensures Priority(g.nodes[s[i]]) == p {
      var x := s[i];
      assert x in g.nodes;
    }
    forall i | 0 <= i < |r| ensures Priority(g.nodes[r[i]]) == p {
      var x := r[i];
      assert x in g.nodes;
    }
    WithPriorityAll(g, s, p);
    WithPriorityAll(g, r, p);
    SortByPriorityStable(g, s, p);
  }

  /** Under one priority `p` and with nothing left over, the execution order is the emission order. */
  lemma OrderIsEmission(g: Graph, p: int)
    requires StoreOk(g) && (forall x :: x in g.nodes ==> Priority(g.nodes[x]) == p)
    requires forall t :: t in g.nodes ==> t in KahnOrder(g)
    ensures ComputeExecutionOrder(g) == KahnOrder(g)
  {
    var L := KahnOrder(g);
    TailEmpty(g, L);
    assert L + [] == L;
    assert Unsorted(g) == L;
    SortOnePriority(g, L, p);
  }

  /** Two graphs with the same stores are well-formed alike. */
  lemma SameStoresWF(g: Graph, h: Graph)
    requires WF(g) && h.nodes == g.nodes && h.nodeList == g.nodeList && h.links == g.links && h.lastLinkId == g.lastLinkId
    ensures WF(h)
  {
    forall k | k in h.links ensures LinkRegistered(h, k) && k <= h.lastLinkId {
      assert LinkRegistered(g, k);
    }
    forall id, i | id in h.nodes && 0 <= i < |h.nodes[id].inputs| ensures InputBacked(h, id, i) {
      assert InputBacked(g, id, i);
    }
    forall id, i | id in h.nodes && 0 <= i < |h.nodes[id].outputs| ensures OutputBacked(h, id, i) {
      assert OutputBacked(g, id, i);
    }
  }

  /** An acyclic graph under one priority is ordered in emission order, which runs every link forward. */
  lemma EmissionRunsForward(h: Graph, rank: map<int, nat>, p: int)
    requires WF(h) && Ranked(h, rank) && h.nodes.Keys <= rank.Keys
    requires forall x :: x in h.nodes ==> Priority(h.nodes[x]) == p
    ensures var L := ComputeExecutionOrder(h);
      forall k :: k in h.links ==> exists i, j :: 0 <= i < j < |L| && L[i] == h.links[k].originId && L[j] == h.links[k].targetId
  {
    KahnOrderComplete(h, rank);
    OrderIsEmission(h, p);
    var L := KahnOrder(h);
    KahnOrderTopological(h);
    forall k | k in h.links
      ensures exists i, j :: 0 <= i < j < |L| && L[i] == h.links[k].originId && L[j] == h.links[k].targetId
    {
      assert LinkRegistered(h, k);
      var t := h.links[k].targetId;
      var j :| 0 <= j < |L| && L[j] == t;
      assert h.links[k].originId in L[..j];
      var i :| 0 <= i < j && L[..j][i] == h.links[k].originId;
      assert L[i] == h.links[k].originId;
    }
  }

  /**
   * In a well-formed acyclic graph whose nodes share one priority, every
   * link's origin gets a smaller `order` than its target from
   * `updateExecutionOrder`.
   */
  lemma LinksRunForward(g: Graph, rank: map<int, nat>)
    requires WF(g) && Ranked(g, rank) && g.nodes.Keys <= rank.Keys && OnePriority(g)
    ensures var m := NodeOrder(UpdateExecutionOrder(g));
      forall k :: k in g.links ==>
        g.links[k].originId in m && g.links[k].targetId in m && m[g.links[k].originId] < m[g.links[k].targetId]
  {
    var h := Replay(SnapshotOf(g));
    SameStoresWF(g, h);
    var L := NodesInOrder(UpdateExecutionOrder(g));
    assert L == ComputeExecutionOrder(h);
    var m := NodeOrder(UpdateExecutionOrder(g));
    forall k | k in g.links
      ensures g.links[k].originId in m && g.links[k].targetId in m && m[g.links[k].originId] < m[g.links[k].targetId]
    {
      assert LinkRegistered(g, k);
      var o := g.links[k].originId;
      EmissionRunsForward(h, rank, Priority(h.nodes[o]));
      ComputeExecutionOrderSpec(h);
      var i, j :| 0 <= i < j < |L| && L[i] == o && L[j] == g.links[k].targetId;
    }
  }
}
