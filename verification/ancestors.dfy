/**
 * `LGraph.getAncestors`: a breadth-first crawl up the input links of a
 * node. Nodes are filtered by mode, and the inputs followed are filtered by
 * type. The nodes found are then sorted by their position in the execution
 * order.
 */
module Ancestors {
  import opened Base
  import opened SlotTypes
  import opened Link
  import opened Nodes
  import opened Graphs
  import opened Connections
  import opened Order

  /** The `modesSkip`, `modesOnly`, `typesSkip` and `typesOnly` options; an empty list filters nothing. */
  datatype Filters = Filters(modesSkip: seq<Mode>, modesOnly: seq<Mode>, typesSkip: seq<SlotType>, typesOnly: seq<SlotType>)

  const NoFilters: Filters := Filters([], [], [], [])

  /** What the `typesOnly` list is compared with. */
  datatype TypeGate =
    | OriginMode    // as written: the `mode` of the node the input comes from
    | InputType     // as evidently intended: the input's own type

  /** A node's `mode` as a list element: its number, or `undefined` for an unset mode. */
  function ModeEntry(m: Mode): (t: SlotType)
    ensures t == TNone <==> m == NoMode
  {
    match ModeValue(m)
    case Num(n) => TNum(n)
    case _ => TNone
  }

  /** A node other than the start is kept and crawled through when its mode passes both mode lists. */
  predicate ModeAdmitted(f: Filters, m: Mode)
  {
    m !in f.modesSkip && (f.modesOnly == [] || m in f.modesOnly)
  }

  /** An input of type `t` coming from node `origin` is followed when it passes both type lists. */
  predicate InputAdmitted(f: Filters, gate: TypeGate, t: SlotType, origin: Node)
  {
    t !in f.typesSkip &&
    (f.typesOnly == [] || (if gate == OriginMode then ModeEntry(origin.mode) else t) in f.typesOnly)
  }

  /** The id of the node input `i` of `b` comes from (`getInputNode(i).id`), if any. */
  function InputOrigin(g: Graph, b: int, i: int): Option<int>
    requires b in g.nodes
  {
    match GetInputNode(g, b, i)
    case None => None
    case Some(o) => Some(o.id)
  }

  /** Node `a` feeds node `b`: some input of `b` comes from `a`. */
  ghost predicate Feeds(g: Graph, a: int, b: int)
  {
    b in g.nodes && exists i :: 0 <= i < |g.nodes[b].inputs| && InputOrigin(g, b, i) == Some(a)
  }

  /** `p` walks up input links: each element feeds the one before it. */
  ghost predicate Chain(g: Graph, p: seq<int>)
  {
    |p| > 0 && (forall i :: 0 <= i < |p| ==> p[i] in g.nodes) &&
    forall i :: 0 <= i < |p| - 1 ==> Feeds(g, p[i + 1], p[i])
  }

  /** `x` is upstream of `s`: a chain of input links leads from `s` back to `x` (every node is upstream of itself). */
  ghost predicate Upstream(g: Graph, s: int, x: int)
  {
    exists p :: Chain(g, p) && p[0] == s && p[|p| - 1] == x
  }

  /** The result of the crawl: `visited`, and `ancestors` in the order they were found. */
  datatype Walk = Walk(visited: set<int>, found: seq<int>)

  /**
   * The nodes pushed for the inputs of `cur` from index `i` on. An input is
   * followed when its origin node exists, passes the type lists, and is
   * neither among the ancestors found nor visited.
   */
  function Pushed(g: Graph, f: Filters, gate: TypeGate, cur: int, i: int, acc: seq<int>, visited: set<int>): (r: seq<int>)
    requires StoreOk(g) && cur in g.nodes && 0 <= i <= |g.nodes[cur].inputs|
    ensures forall x :: x in r ==> x in g.nodes && x !in acc && x !in visited && Feeds(g, x, cur)
    ensures forall j :: i <= j < |g.nodes[cur].inputs| && GetInputNode(g, cur, j).Some? &&
              InputAdmitted(f, gate, g.nodes[cur].inputs[j].itype, GetInputNode(g, cur, j).value) &&
              GetInputNode(g, cur, j).value.id !in acc && GetInputNode(g, cur, j).value.id !in visited
              ==> GetInputNode(g, cur, j).value.id in r
    decreases |g.nodes[cur].inputs| - i
  {
    if i == |g.nodes[cur].inputs| then []
    else
      var rest := Pushed(g, f, gate, cur, i + 1, acc, visited);
      match GetInputNode(g, cur, i)
      case None => rest
      case Some(o) =>
        if !InputAdmitted(f, gate, g.nodes[cur].inputs[i].itype, o) || o.id in acc || o.id in visited then rest
        else
          assert InputOrigin(g, cur, i) == Some(o.id);
          [o.id] + rest
  }

  /** The crawl loop: take the head of `pending`, skip it if visited, record it if its mode passes, then push its inputs. */
  function Crawl(g: Graph, f: Filters, gate: TypeGate, start: int, pending: seq<int>, visited: set<int>, acc: seq<int>): (w: Walk)
    requires StoreOk(g) && (forall x :: x in pending ==> x in g.nodes) && visited <= g.nodes.Keys
    decreases |g.nodes.Keys - visited|, |pending|
  {
    if pending == [] then Walk(visited, acc)
    else
      var cur := pending[0];
      if cur in visited then Crawl(g, f, gate, start, pending[1..], visited, acc)
      else
        var seen := visited + {cur};
        assert g.nodes.Keys - seen < g.nodes.Keys - visited by {
          assert cur in g.nodes.Keys - visited;
        }
        if cur != start && !ModeAdmitted(f, g.nodes[cur].mode) then Crawl(g, f, gate, start, pending[1..], seen, acc)
        else
          var acc' := if cur != start && cur !in acc then acc + [cur] else acc;
          Crawl(g, f, gate, start, pending[1..] + Pushed(g, f, gate, cur, 0, acc', seen), seen, acc')
  }

  /** Keys `ord` has for every element of `s`. */
  predicate Keyed(ord: map<int, int>, s: seq<int>)
  {
    forall i :: 0 <= i < |s| ==> s[i] in ord
  }

  /** `s` is in ascending `ord` order. */
  predicate ByOrder(ord: map<int, int>, s: seq<int>)
    requires Keyed(ord, s)
  {
    forall i, j :: 0 <= i < j < |s| ==> ord[s[i]] <= ord[s[j]]
  }

  /** Insertion before the first element of equal or higher key, so that earlier elements stay first among equals. */
  function InsertByOrder(ord: map<int, int>, x: int, s: seq<int>): (r: seq<int>)
    requires x in ord && Keyed(ord, s) && ByOrder(ord, s)
    ensures multiset(r) == multiset(s) + multiset{x}
    ensures Keyed(ord, r) && ByOrder(ord, r)
  {
    if |s| == 0 then [x]
    else if ord[x] <= ord[s[0]] then [x] + s
    else
      assert s == [s[0]] + s[1..];
      var rest := InsertByOrder(ord, x, s[1..]);
      HeadBelowRest(ord, x, s, rest);
      [s[0]] + rest
  }

  lemma HeadBelowRest(ord: map<int, int>, x: int, s: seq<int>, rest: seq<int>)
    requires x in ord && Keyed(ord, s) && ByOrder(ord, s) && |s| > 0 && ord[x] > ord[s[0]]
    requires multiset(rest) == multiset(s[1..]) + multiset{x}
    requires Keyed(ord, rest) && ByOrder(ord, rest)
    ensures multiset([s[0]] + rest) == multiset(s) + multiset{x}
    ensures Keyed(ord, [s[0]] + rest) && ByOrder(ord, [s[0]] + rest)
  {
    assert s == [s[0]] + s[1..];
    var r := [s[0]] + rest;
    HeadBelowAll(ord, x, s, rest);
    forall i, j | 0 <= i < j < |r| ensures ord[r[i]] <= ord[r[j]] {
      if i == 0 {
        assert r[j] == rest[j - 1];
      } else {
        assert r[i] == rest[i - 1] && r[j] == rest[j - 1];
      }
    }
  }

  /** Every element of `rest`, being `x` or an element of the sorted `s[1..]`, is ordered no earlier than `s[0]`. */
  lemma HeadBelowAll(ord: map<int, int>, x: int, s: seq<int>, rest: seq<int>)
    requires x in ord && Keyed(ord, s) && ByOrder(ord, s) && |s| > 0 && ord[x] > ord[s[0]]
    requires multiset(rest) == multiset(s[1..]) + multiset{x}
    requires Keyed(ord, rest)
    ensures forall k :: 0 <= k < |rest| ==> ord[s[0]] <= ord[rest[k]]
  {
    forall k | 0 <= k < |rest| ensures ord[s[0]] <= ord[rest[k]] {
      assert rest[k] in multiset(rest);
      if rest[k] != x {
        assert rest[k] in multiset(s[1..]);
        var j :| 0 <= j < |s[1..]| && s[1..][j] == rest[k];
        assert s[j + 1] == rest[k];
      }
    }
  }

  /** `ancestors.sort((a, b) => a.order - b.order)`: a stable sort by `order`. */
  function SortByOrder(ord: map<int, int>, s: seq<int>): (r: seq<int>)
    requires Keyed(ord, s)
    ensures multiset(r) == multiset(s)
    ensures Keyed(ord, r) && ByOrder(ord, r)
  {
    if |s| == 0 then []
    else
      assert s == [s[0]] + s[1..];
      InsertByOrder(ord, s[0], SortByOrder(ord, s[1..]))
  }

  /**
   * The crawl from node `id` followed by the sort. The comparator reads each
   * node's `order`; when some ancestor has none the comparison yields `NaN`
   * and the resulting order is left to the engine, so the crawl order is
   * kept.
   */
  function Collect(g: Graph, id: int, f: Filters, gate: TypeGate): seq<int>
    requires StoreOk(g) && id in g.nodes
  {
    var found := Crawl(g, f, gate, id, [id], {}, []).found;
    var ord := NodeOrder(g);
    if Keyed(ord, found) then SortByOrder(ord, found) else found
  }

  /** `getAncestors(node, opts)` as written: `typesOnly` is looked up with the origin node's `mode`. */
  function GetAncestorsAsWritten(g: Graph, id: int, f: Filters): seq<int>
    requires StoreOk(g) && id in g.nodes
  {
    Collect(g, id, f, OriginMode)
  }

  /** `getAncestors(node, opts)` with `typesOnly` looked up with the input's type. */
  function GetAncestors(g: Graph, id: int, f: Filters): seq<int>
    requires StoreOk(g) && id in g.nodes
  {
    Collect(g, id, f, InputType)
  }

  // ---------------------------------------------------------------------------
  // What the crawl finds
  // ---------------------------------------------------------------------------

  lemma UpstreamStep(g: Graph, s: int, x: int, a: int)
    requires Upstream(g, s, x) && Feeds(g, a, x) && a in g.nodes
    ensures Upstream(g, s, a)
  {
    var p :| Chain(g, p) && p[0] == s && p[|p| - 1] == x;
    var q := p + [a];
    forall i | 0 <= i < |q| - 1 ensures Feeds(g, q[i + 1], q[i]) {
      if i < |p| - 1 {
        assert q[i] == p[i] && q[i + 1] == p[i + 1];
      }
    }
    assert Chain(g, q) && q[0] == s && q[|q| - 1] == a;
  }

  /** `r` could be what `getAncestors` returns for `start`: distinct nodes upstream of `start`, not `start`, whose modes pass. */
  ghost predicate Ancestry(g: Graph, f: Filters, start: int, r: seq<int>)
  {
    start in g.nodes && NoDup(r) && start !in r &&
    forall i :: 0 <= i < |r| ==> r[i] in g.nodes && ModeAdmitted(f, g.nodes[r[i]].mode) && Upstream(g, start, r[i])
  }

  /** The crawl state keeps to `Ancestry`, and everything still pending is upstream of the start. */
  ghost predicate Sound(g: Graph, f: Filters, start: int, pending: seq<int>, acc: seq<int>)
  {
    Ancestry(g, f, start, acc) && forall x :: x in pending ==> Upstream(g, start, x)
  }

  lemma {:induction false} CrawlSound(g: Graph, f: Filters, gate: TypeGate, start: int, pending: seq<int>, visited: set<int>, acc: seq<int>)
    requires StoreOk(g) && (forall x :: x in pending ==> x in g.nodes) && visited <= g.nodes.Keys
    requires Sound(g, f, start, pending, acc)
    ensures Ancestry(g, f, start, Crawl(g, f, gate, start, pending, visited, acc).found)
    decreases |g.nodes.Keys - visited|, |pending|
  {
    if pending != [] {
      var cur := pending[0];
      if cur in visited {
        CrawlSound(g, f, gate, start, pending[1..], visited, acc);
      } else {
        var seen := visited + {cur};
        assert g.nodes.Keys - seen < g.nodes.Keys - visited by {
          assert cur in g.nodes.Keys - visited;
        }
        if cur != start && !ModeAdmitted(f, g.nodes[cur].mode) {
          CrawlSound(g, f, gate, start, pending[1..], seen, acc);
        } else {
          var acc' := if cur != start && cur !in acc then acc + [cur] else acc;
          var pushed := Pushed(g, f, gate, cur, 0, acc', seen);
          assert Upstream(g, start, cur);
          forall x | x in pushed ensures Upstream(g, start, x) {
            UpstreamStep(g, start, cur, x);
          }
          assert Ancestry(g, f, start, acc');
          CrawlSound(g, f, gate, start, pending[1..] + pushed, seen, acc');
        }
      }
    }
  }

  /** Everything pending ends up visited, and nothing found is dropped. */
  lemma {:induction false} CrawlCovers(g: Graph, f: Filters, gate: TypeGate, start: int, pending: seq<int>, visited: set<int>, acc: seq<int>)
    requires StoreOk(g) && (forall x :: x in pending ==> x in g.nodes) && visited <= g.nodes.Keys
    ensures var w := Crawl(g, f, gate, start, pending, visited, acc);
      visited <= w.visited && (forall x :: x in pending ==> x in w.visited) && (forall x :: x in acc ==> x in w.found)
    decreases |g.nodes.Keys - visited|, |pending|
  {
    if pending != [] {
      var cur := pending[0];
      if cur in visited {
        CrawlCovers(g, f, gate, start, pending[1..], visited, acc);
      } else {
        var seen := visited + {cur};
        assert g.nodes.Keys - seen < g.nodes.Keys - visited by {
          assert cur in g.nodes.Keys - visited;
        }
        if cur != start && !ModeAdmitted(f, g.nodes[cur].mode) {
          CrawlCovers(g, f, gate, start, pending[1..], seen, acc);
        } else {
          var acc' := if cur != start && cur !in acc then acc + [cur] else acc;
          CrawlCovers(g, f, gate, start, pending[1..] + Pushed(g, f, gate, cur, 0, acc', seen), seen, acc');
        }
      }
    }
  }

  /** Every visited node but the start is among those found. */
  predicate ListsVisited(w: Walk, start: int)
  {
    forall x :: x in w.visited && x != start ==> x in w.found
  }

  /** Without mode lists every visited node but the start is recorded. */
  lemma {:induction false} CrawlLists(g: Graph, f: Filters, gate: TypeGate, start: int, pending: seq<int>, visited: set<int>, acc: seq<int>)
    requires StoreOk(g) && (forall x :: x in pending ==> x in g.nodes) && visited <= g.nodes.Keys
    requires f.modesSkip == [] && f.modesOnly == []
    requires forall x :: x in visited && x != start ==> x in acc
    ensures ListsVisited(Crawl(g, f, gate, start, pending, visited, acc), start)
    decreases |g.nodes.Keys - visited|, |pending|
  {
    if pending != [] {
      var cur := pending[0];
      if cur in visited {
        CrawlLists(g, f, gate, start, pending[1..], visited, acc);
      } else {
        var seen := visited + {cur};
        assert g.nodes.Keys - seen < g.nodes.Keys - visited by {
          assert cur in g.nodes.Keys - visited;
        }
        assert ModeAdmitted(f, g.nodes[cur].mode);
        var acc' := if cur != start && cur !in acc then acc + [cur] else acc;
        CrawlLists(g, f, gate, start, pending[1..] + Pushed(g, f, gate, cur, 0, acc', seen), seen, acc');
      }
    }
  }

  /** Every input of a visited node leads to a visited or pending node. */
  ghost predicate Closed(g: Graph, start: int, pending: seq<int>, visited: set<int>, acc: seq<int>)
  {
    (start in visited || start in pending) && (forall x :: x in acc ==> x in visited) &&
    forall v, i :: v in visited && v in g.nodes && 0 <= i < |g.nodes[v].inputs| && InputOrigin(g, v, i).Some? ==>
      InputOrigin(g, v, i).value in visited || InputOrigin(g, v, i).value in pending
  }

  /** Without filters the crawl ends with the start visited and the visited set closed under input links. */
  lemma {:induction false} CrawlClosed(g: Graph, gate: TypeGate, start: int, pending: seq<int>, visited: set<int>, acc: seq<int>)
    requires StoreOk(g) && (forall x :: x in pending ==> x in g.nodes) && visited <= g.nodes.Keys
    requires Closed(g, start, pending, visited, acc)
    ensures var w := Crawl(g, NoFilters, gate, start, pending, visited, acc);
      start in w.visited &&
      forall v, i :: v in w.visited && v in g.nodes && 0 <= i < |g.nodes[v].inputs| && InputOrigin(g, v, i).Some? ==>
        InputOrigin(g, v, i).value in w.visited
    decreases |g.nodes.Keys - visited|, |pending|
  {
    if pending != [] {
      var cur := pending[0];
      if cur in visited {
        CrawlClosed(g, gate, start, pending[1..], visited, acc);
      } else {
        var seen := visited + {cur};
        assert g.nodes.Keys - seen < g.nodes.Keys - visited by {
          assert cur in g.nodes.Keys - visited;
        }
        var acc' := if cur != start && cur !in acc then acc + [cur] else acc;
        var pushed := Pushed(g, NoFilters, gate, cur, 0, acc', seen);
        var rest := pending[1..] + pushed;
        forall v, i | v in seen && v in g.nodes && 0 <= i < |g.nodes[v].inputs| && InputOrigin(g, v, i).Some?
          ensures InputOrigin(g, v, i).value in seen || InputOrigin(g, v, i).value in rest
        {
          var o := InputOrigin(g, v, i).value;
          if v == cur {
            assert InputAdmitted(NoFilters, gate, g.nodes[cur].inputs[i].itype, GetInputNode(g, cur, i).value);
          } else if o != cur && o in pending {
            assert o in pending[1..];
          }
        }
        CrawlClosed(g, gate, start, rest, seen, acc');
      }
    }
  }

  /** A set closed under input links that holds the start of a chain holds the whole chain. */
  lemma {:induction false} ChainInside(g: Graph, p: seq<int>, V: set<int>, k: int)
    requires Chain(g, p) && p[0] in V && 0 <= k < |p|
    requires forall v, i :: v in V && v in g.nodes && 0 <= i < |g.nodes[v].inputs| && InputOrigin(g, v, i).Some? ==>
      InputOrigin(g, v, i).value in V
    ensures p[k] in V
    decreases k
  {
    if k > 0 {
      ChainInside(g, p, V, k - 1);
      assert Feeds(g, p[k], p[k - 1]);
      var i :| 0 <= i < |g.nodes[p[k - 1]].inputs| && InputOrigin(g, p[k - 1], i) == Some(p[k]);
    }
  }

  lemma SameElements(r: seq<int>, s: seq<int>)
    requires multiset(r) == multiset(s)
    ensures forall x :: x in r <==> x in s
    ensures NoDup(s) ==> NoDup(r)
  {
    forall x ensures x in r <==> x in s {
      assert x in r <==> x in multiset(r);
      assert x in s <==> x in multiset(s);
    }
    if NoDup(s) {
      MultisetNoDup(s);
      NoDupFromMultiset(r);
    }
  }

  /** The sort keeps the crawl's nodes, and orders them by `order` whenever every one has an order. */
  lemma CollectSorts(g: Graph, id: int, f: Filters, gate: TypeGate)
    requires StoreOk(g) && id in g.nodes
    ensures var found := Crawl(g, f, gate, id, [id], {}, []).found; var r := Collect(g, id, f, gate);
      (forall x :: x in r <==> x in found) && (NoDup(found) ==> NoDup(r)) &&
      (Keyed(NodeOrder(g), found) ==> Keyed(NodeOrder(g), r) && ByOrder(NodeOrder(g), r))
  {
    var found := Crawl(g, f, gate, id, [id], {}, []).found;
    var ord := NodeOrder(g);
    if Keyed(ord, found) {
      SameElements(SortByOrder(ord, found), found);
    }
  }

  /**
   * `getAncestors` returns distinct nodes, never the node itself, each
   * upstream of it through input links and each with a mode the mode lists
   * admit, in ascending `order` whenever every one of them has an order.
   */
  lemma GetAncestorsSound(g: Graph, id: int, f: Filters, gate: TypeGate)
    requires StoreOk(g) && id in g.nodes
    ensures var r := Collect(g, id, f, gate);
      Ancestry(g, f, id, r) && (Keyed(NodeOrder(g), r) ==> ByOrder(NodeOrder(g), r))
  {
    var found := Crawl(g, f, gate, id, [id], {}, []).found;
    assert Chain(g, [id]);
    CrawlSound(g, f, gate, id, [id], {}, []);
    CollectSorts(g, id, f, gate);
    var r := Collect(g, id, f, gate);
    AncestryPermuted(g, f, id, found, r);
    if !Keyed(NodeOrder(g), found) {
      assert r == found;
    }
  }

  lemma AncestryPermuted(g: Graph, f: Filters, start: int, found: seq<int>, r: seq<int>)
    requires Ancestry(g, f, start, found) && NoDup(r) && forall x :: x in r <==> x in found
    ensures Ancestry(g, f, start, r)
  {
    forall i | 0 <= i < |r| ensures r[i] in g.nodes && ModeAdmitted(f, g.nodes[r[i]].mode) && Upstream(g, start, r[i]) {
      assert r[i] in r;
      var j :| 0 <= j < |found| && found[j] == r[i];
    }
  }

  /** Without filters `getAncestors` returns exactly the nodes upstream of the node, other than the node itself. */
  lemma GetAncestorsComplete(g: Graph, id: int, gate: TypeGate)
    requires StoreOk(g) && id in g.nodes
    ensures var r := Collect(g, id, NoFilters, gate);
      forall x :: x in r <==> x != id && Upstream(g, id, x)
  {
    var w := Crawl(g, NoFilters, gate, id, [id], {}, []);
    var r := Collect(g, id, NoFilters, gate);
    GetAncestorsSound(g, id, NoFilters, gate);
    CrawlClosed(g, gate, id, [id], {}, []);
    CrawlLists(g, NoFilters, gate, id, [id], {}, []);
    CollectSorts(g, id, NoFilters, gate);
    forall x | x != id && Upstream(g, id, x) ensures x in r {
      var p :| Chain(g, p) && p[0] == id && p[|p| - 1] == x;
      ChainInside(g, p, w.visited, |p| - 1);
    }
    forall x | x in r ensures x != id && Upstream(g, id, x) {
      var i :| 0 <= i < |r| && r[i] == x;
    }
  }

  // ---------------------------------------------------------------------------
  // The `typesOnly` option
  // ---------------------------------------------------------------------------

  /**
   * With only a `typesOnly` list, `getAncestors` finds every node that feeds
   * the start through an input whose type is on the list.
   */
  lemma TypesOnlyFollowsListedTypes(g: Graph, id: int, ts: seq<SlotType>, i: int)
    requires StoreOk(g) && id in g.nodes && 0 <= i < |g.nodes[id].inputs|
    requires InputOrigin(g, id, i).Some? && InputOrigin(g, id, i).value != id
    requires g.nodes[id].inputs[i].itype in ts
    ensures InputOrigin(g, id, i).value in GetAncestors(g, id, Filters([], [], [], ts))
  {
    var f := Filters([], [], [], ts);
    var o := InputOrigin(g, id, i).value;
    var pushed := Pushed(g, f, InputType, id, 0, [], {id});
    assert InputAdmitted(f, InputType, g.nodes[id].inputs[i].itype, GetInputNode(g, id, i).value);
    assert o in pushed;
    var none: set<int> := {};
    assert none + {id} == {id} && [id][0] == id && [id][1..] + pushed == pushed;
    assert Crawl(g, f, InputType, id, [id], {}, []) == Crawl(g, f, InputType, id, pushed, {id}, []);
    CrawlCovers(g, f, InputType, id, pushed, {id}, []);
    CrawlLists(g, f, InputType, id, pushed, {id}, []);
    CollectSorts(g, id, f, InputType);
  }

  /** Node 1, in mode `ALWAYS`, feeds node 2 through link 1 into an input of type "number". */
  function TypedPair(): (g: Graph)
    ensures StoreOk(g) && 1 in g.nodes && 2 in g.nodes
  {
    var n1 := BlankNode("").(id := 1, mode := Always, outputs := [Output("out", TStr("number"), Some([1]), Undef)]);
    var n2 := BlankNode("").(id := 2, inputs := [Input("in", TStr("number"), Some(1))]);
    Blank.(nodes := map[1 := n1, 2 := n2], nodeList := [1, 2], links := map[1 := LLink(1, TStr("number"), 1, 0, 2, 0, Undef)],
           lastNodeId := 2, lastLinkId := 1)
  }

  /**
   * As written, `typesOnly: ["number"]` is compared with the mode of node 1
   * (the number 0), so node 1 is not followed and node 2 has no ancestors;
   * compared with the input's type it is found.
   */
  lemma TypesOnlyReadsModeAsWritten()
    ensures var f := Filters([], [], [], [TStr("number")]);
      GetAncestorsAsWritten(TypedPair(), 2, f) == [] && 1 in GetAncestors(TypedPair(), 2, f)
  {
    var g := TypedPair();
    var f := Filters([], [], [], [TStr("number")]);
    assert GetInputNode(g, 2, 0) == Some(g.nodes[1]);
    assert !InputAdmitted(f, OriginMode, TStr("number"), g.nodes[1]);
    assert Pushed(g, f, OriginMode, 2, 0, [], {2}) == [];
    assert Crawl(g, f, OriginMode, 2, [2], {}, []) == Walk({2}, []);
    assert InputOrigin(g, 2, 0) == Some(1);
    TypesOnlyFollowsListedTypes(g, 2, [TStr("number")], 0);
  }
}
