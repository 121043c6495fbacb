/** The device builder canvas: sensor and MCU nodes joined by edges, the
    single-MCU rule, connection direction, validation by an undirected
    breadth-first search from the MCU, and the hierarchical export. */
module DeviceBuilder {
  import opened Seqs
  import opened Strings

  datatype Position = Position(x: real, y: real)

  /** A canvas node; `kind` is the sensor type stored in the node's data. */
  datatype Node = Node(id: string, kind: string, caption: string, position: Position, selected: bool)

  datatype Edge = Edge(id: string, source: string, target: string, selected: bool)

  datatype SensorDef = SensorDef(kind: string, caption: string)

  /** The palette, in its order. */
  const AvailableSensors: seq<SensorDef> := [
    SensorDef("mcu", "MCU"),
    SensorDef("temperature", "Temp"),
    SensorDef("humidity", "Humidity"),
    SensorDef("motion", "Motion"),
    SensorDef("light", "Light"),
    SensorDef("switch", "Relay"),
    SensorDef("co2", "CO2")
  ]

  predicate IsMcu(n: Node) { n.kind == "mcu" }

  function Ids(nodes: seq<Node>): set<string> { set n | n in nodes :: n.id }

  function Endpoints(edges: seq<Edge>): set<string>
  {
    (set e | e in edges :: e.source) + (set e | e in edges :: e.target)
  }

  // ---------------------------------------------------------------------------
  // The graph the validation searches

  /** The neighbour list the validation collects for `x`: for every edge in
      order, its target when `x` is its source, then its source when `x` is
      its target. */
  function AdjList(edges: seq<Edge>, x: string): seq<string>
    decreases |edges|
  {
    if |edges| == 0 then []
    else
      var e := edges[|edges| - 1];
      AdjList(edges[..|edges| - 1], x)
        + (if e.source == x then [e.target] else [])
        + (if e.target == x then [e.source] else [])
  }

  /** The adjacency map holds lists for node ids only; any other id has no neighbours. */
  function Neighbours(nodes: seq<Node>, edges: seq<Edge>, x: string): seq<string>
  {
    if x in Ids(nodes) then AdjList(edges, x) else []
  }

  ghost predicate IsWalk(nodes: seq<Node>, edges: seq<Edge>, p: seq<string>)
  {
    |p| >= 1 && forall k :: 0 <= k < |p| - 1 ==> p[k + 1] in Neighbours(nodes, edges, p[k])
  }

  ghost predicate Reachable(nodes: seq<Node>, edges: seq<Edge>, root: string, x: string)
  {
    exists p :: IsWalk(nodes, edges, p) && p[0] == root && p[|p| - 1] == x
  }

  ghost function Universe(nodes: seq<Node>, edges: seq<Edge>, root: string): set<string>
  {
    Ids(nodes) + Endpoints(edges) + {root}
  }

  /** Every id the search can visit from `root`. */
  ghost function ReachableSet(nodes: seq<Node>, edges: seq<Edge>, root: string): set<string>
  {
    set x | x in Universe(nodes, edges, root) && Reachable(nodes, edges, root, x)
  }

  ghost predicate Closed(nodes: seq<Node>, edges: seq<Edge>, s: set<string>)
  {
    forall x, y :: x in s && y in Neighbours(nodes, edges, x) ==> y in s
  }

  lemma {:induction false} AdjListInEndpoints(edges: seq<Edge>, x: string, y: string)
    requires y in AdjList(edges, x)
    ensures y in Endpoints(edges)
    decreases |edges|
  {
    var init := edges[..|edges| - 1];
    var e := edges[|edges| - 1];
    if y in AdjList(init, x) {
      AdjListInEndpoints(init, x, y);
      assert Endpoints(init) <= Endpoints(edges) by {
        forall d | d in init ensures d in edges { }
      }
    } else {
      assert e in edges;
    }
  }

  lemma {:induction false} AdjListGrows(edges: seq<Edge>, e: Edge, x: string, y: string)
    requires y in AdjList(edges, x)
    ensures y in AdjList(edges + [e], x)
  {
    assert (edges + [e])[..|edges|] == edges;
  }

  /** A walk stays inside a set closed under taking neighbours. */
  lemma {:induction false} ClosedContainsWalk(nodes: seq<Node>, edges: seq<Edge>, s: set<string>, p: seq<string>)
    requires Closed(nodes, edges, s) && IsWalk(nodes, edges, p) && p[0] in s
    ensures p[|p| - 1] in s
    decreases |p|
  {
    if |p| > 1 {
      var q := p[..|p| - 1];
      assert IsWalk(nodes, edges, q) by {
        forall k | 0 <= k < |q| - 1 ensures q[k + 1] in Neighbours(nodes, edges, q[k]) {
          assert q[k] == p[k] && q[k + 1] == p[k + 1];
        }
      }
      ClosedContainsWalk(nodes, edges, s, q);
      assert p[|p| - 1] in Neighbours(nodes, edges, p[|p| - 2]);
    }
  }

  lemma ClosedContainsReachable(nodes: seq<Node>, edges: seq<Edge>, s: set<string>, root: string, x: string)
    requires Closed(nodes, edges, s) && root in s && Reachable(nodes, edges, root, x)
    ensures x in s
  {
    var p :| IsWalk(nodes, edges, p) && p[0] == root && p[|p| - 1] == x;
    ClosedContainsWalk(nodes, edges, s, p);
  }

  lemma WalkExtend(nodes: seq<Node>, edges: seq<Edge>, p: seq<string>, y: string)
    requires IsWalk(nodes, edges, p) && y in Neighbours(nodes, edges, p[|p| - 1])
    ensures IsWalk(nodes, edges, p + [y])
  {
    var q := p + [y];
    forall k | 0 <= k < |q| - 1 ensures q[k + 1] in Neighbours(nodes, edges, q[k]) {
      if k < |p| - 1 {
        assert q[k] == p[k] && q[k + 1] == p[k + 1];
      }
    }
  }

  lemma ReachableInUniverse(nodes: seq<Node>, edges: seq<Edge>, x: string, y: string)
    requires y in Neighbours(nodes, edges, x)
    ensures y in Endpoints(edges)
  {
    AdjListInEndpoints(edges, x, y);
  }

  // ---------------------------------------------------------------------------
  // The search, as the source runs it

  /** The first loop of the adjacency map: an empty list per node id. */
  method EmptyAdjacency(nodes: seq<Node>) returns (adj: map<string, seq<string>>)
    ensures adj.Keys == Ids(nodes)
    ensures forall x :: x in adj ==> adj[x] == []
  {
    adj := map[];
    var i := 0;
    while i < |nodes|
      invariant 0 <= i <= |nodes|
      invariant adj.Keys == Ids(nodes[..i])
      invariant forall x :: x in adj ==> adj[x] == []
    {
      IdsSnoc(nodes[..i], nodes[i]);
      assert nodes[..i + 1] == nodes[..i] + [nodes[i]];
      adj := adj[nodes[i].id := []];
      i := i + 1;
    }
    assert nodes[..|nodes|] == nodes;
  }

  /** One more edge appends its target to its source's list, then its source
      to its target's list. */
  lemma AdjListStep(edges: seq<Edge>, j: nat, x: string)
    requires j < |edges|
    ensures AdjList(edges[..j + 1], x)
         == AdjList(edges[..j], x)
            + (if edges[j].source == x then [edges[j].target] else [])
            + (if edges[j].target == x then [edges[j].source] else [])
  {
    assert edges[..j + 1][..j] == edges[..j];
  }

  /** The map after pushing edge `e`: its target onto its source's list, then
      its source onto its target's list, for the ids that have a list. */
  function Pushed(adj: map<string, seq<string>>, e: Edge): map<string, seq<string>>
  {
    var a := if e.source in adj then adj[e.source := adj[e.source] + [e.target]] else adj;
    if e.target in a then a[e.target := a[e.target] + [e.source]] else a
  }

  lemma PushedStep(edges: seq<Edge>, j: nat, adj: map<string, seq<string>>)
    requires j < |edges|
    requires forall x :: x in adj ==> adj[x] == AdjList(edges[..j], x)
    ensures Pushed(adj, edges[j]).Keys == adj.Keys
    ensures forall x :: x in Pushed(adj, edges[j]) ==> Pushed(adj, edges[j])[x] == AdjList(edges[..j + 1], x)
  {
    forall x | x in adj {
      AdjListStep(edges, j, x);
    }
  }

  /** One edge of the loop: push its target onto its source's list, then its
      source onto its target's list, where the id has a list. */
  method PushEdge(adj0: map<string, seq<string>>, e: Edge) returns (adj: map<string, seq<string>>)
    ensures adj == Pushed(adj0, e)
  {
    adj := adj0;
    if e.source in adj {
      adj := adj[e.source := adj[e.source] + [e.target]];
    }
    if e.target in adj {
      adj := adj[e.target := adj[e.target] + [e.source]];
    }
  }

  /** The adjacency map: a list per node id, then the edges pushed in order. */
  method BuildAdjacency(nodes: seq<Node>, edges: seq<Edge>) returns (adj: map<string, seq<string>>)
    ensures adj.Keys == Ids(nodes)
    ensures forall x :: x in adj ==> adj[x] == AdjList(edges, x)
  {
    adj := EmptyAdjacency(nodes);
    var j := 0;
    while j < |edges|
      invariant 0 <= j <= |edges|
      invariant adj.Keys == Ids(nodes)
      invariant forall x :: x in adj ==> adj[x] == AdjList(edges[..j], x)
    {
      PushedStep(edges, j, adj);
      adj := PushEdge(adj, edges[j]);
      j := j + 1;
    }
    assert edges[..|edges|] == edges;
  }

  ghost predicate PathsTo(nodes: seq<Node>, edges: seq<Edge>, root: string, visited: set<string>,
                         paths: map<string, seq<string>>)
  {
    forall x :: x in visited ==> x in paths && IsWalk(nodes, edges, paths[x])
                                 && paths[x][0] == root && paths[x][|paths[x]| - 1] == x
  }

  /** What the inner loop keeps: it only adds edge endpoints to the visited
      set, and queues each id it adds, with a walk to it from the root. */
  ghost predicate Visiting(nodes: seq<Node>, edges: seq<Edge>, root: string,
                           visited0: set<string>, queue0: seq<string>,
                           visited: set<string>, queue: seq<string>, paths: map<string, seq<string>>)
  {
    visited0 <= visited && visited - visited0 <= Endpoints(edges)
    && (visited == visited0 ==> queue == queue0)
    && (forall x :: x in queue0 ==> x in queue)
    && (forall x :: x in queue ==> x in queue0 || x in visited)
    && (forall x :: x in visited ==> x in visited0 || x in queue)
    && PathsTo(nodes, edges, root, visited, paths)
  }

  /** Visiting one new neighbour of a visited id keeps it. */
  lemma VisitStep(nodes: seq<Node>, edges: seq<Edge>, root: string, curr: string, n: string,
                  visited0: set<string>, queue0: seq<string>,
                  visited: set<string>, queue: seq<string>, paths: map<string, seq<string>>)
    requires Visiting(nodes, edges, root, visited0, queue0, visited, queue, paths)
    requires curr in visited && n in Neighbours(nodes, edges, curr) && n !in visited
    ensures Visiting(nodes, edges, root, visited0, queue0, visited + {n}, queue + [n], paths[n := paths[curr] + [n]])
  {
    ReachableInUniverse(nodes, edges, curr, n);
    WalkExtend(nodes, edges, paths[curr], n);
    var paths1 := paths[n := paths[curr] + [n]];
    forall x | x in visited + {n}
      ensures x in paths1 && IsWalk(nodes, edges, paths1[x]) && paths1[x][0] == root && paths1[x][|paths1[x]| - 1] == x
    {
      if x != n {
        assert paths1[x] == paths[x];
      }
    }
  }

  /** The inner loop of the search: every unvisited neighbour of `curr` is
      marked visited and queued, in order. */
  method VisitNeighbours(nodes: seq<Node>, edges: seq<Edge>, root: string, curr: string, ns: seq<string>,
                         visited0: set<string>, queue0: seq<string>, ghost paths0: map<string, seq<string>>)
    returns (visited: set<string>, queue: seq<string>, ghost paths: map<string, seq<string>>)
    requires ns == Neighbours(nodes, edges, curr) && curr in visited0
    requires PathsTo(nodes, edges, root, visited0, paths0)
    ensures visited0 <= visited && visited - visited0 <= Endpoints(edges)
    ensures forall y :: y in ns ==> y in visited
    ensures visited == visited0 ==> queue == queue0
    ensures forall x :: x in queue0 ==> x in queue
    ensures forall x :: x in queue ==> x in queue0 || x in visited
    ensures forall x :: x in visited ==> x in visited0 || x in queue
    ensures PathsTo(nodes, edges, root, visited, paths)
  {
    visited, queue, paths := visited0, queue0, paths0;
    var i := 0;
    while i < |ns|
      invariant 0 <= i <= |ns|
      invariant Visiting(nodes, edges, root, visited0, queue0, visited, queue, paths)
      invariant forall j :: 0 <= j < i ==> ns[j] in visited
    {
      var n := ns[i];
      if n !in visited {
        VisitStep(nodes, edges, root, curr, n, visited0, queue0, visited, queue, paths);
        paths := paths[n := paths[curr] + [n]];
        visited := visited + {n};
        queue := queue + [n];
      }
      i := i + 1;
    }
  }

  /** When the queue runs dry, the visited set is closed and every id in it
      has a walk from the root: it is the reachable set. */
  lemma SearchDone(nodes: seq<Node>, edges: seq<Edge>, root: string, visited: set<string>, done: set<string>,
                   paths: map<string, seq<string>>)
    requires visited <= Universe(nodes, edges, root) && root in visited
    requires forall x :: x in visited ==> x in done
    requires forall x, y :: x in done && y in Neighbours(nodes, edges, x) ==> y in visited
    requires PathsTo(nodes, edges, root, visited, paths)
    ensures visited == ReachableSet(nodes, edges, root)
  {
    assert Closed(nodes, edges, visited);
    forall x | x in ReachableSet(nodes, edges, root) ensures x in visited {
      ClosedContainsReachable(nodes, edges, visited, root, x);
    }
    forall x | x in visited ensures x in ReachableSet(nodes, edges, root) {
      assert IsWalk(nodes, edges, paths[x]);
    }
  }

  /** What holds between two rounds of the search: everything visited is in
      the universe and has a walk from the root, the queue holds visited ids,
      and every visited id is queued or done, with its neighbours visited
      once it is done. */
  ghost predicate SearchInvariant(nodes: seq<Node>, edges: seq<Edge>, root: string, visited: set<string>,
                                  queue: seq<string>, done: set<string>, paths: map<string, seq<string>>)
  {
    && visited <= Universe(nodes, edges, root) && root in visited
    && (forall x :: x in queue ==> x in visited)
    && (forall x :: x in visited ==> x in done || x in queue)
    && (forall x, y :: x in done && y in Neighbours(nodes, edges, x) ==> y in visited)
    && PathsTo(nodes, edges, root, visited, paths)
  }

  /** One round of the search: take the head of the queue and visit its
      neighbours. Either something new is visited, or the queue shrinks. */
  method SearchRound(nodes: seq<Node>, edges: seq<Edge>, root: string, adj: map<string, seq<string>>,
                     visited0: set<string>, queue0: seq<string>,
                     ghost done0: set<string>, ghost paths0: map<string, seq<string>>)
    returns (visited: set<string>, queue: seq<string>, ghost done: set<string>, ghost paths: map<string, seq<string>>)
    requires adj.Keys == Ids(nodes) && forall x :: x in adj ==> adj[x] == AdjList(edges, x)
    requires |queue0| > 0 && SearchInvariant(nodes, edges, root, visited0, queue0, done0, paths0)
    ensures SearchInvariant(nodes, edges, root, visited, queue, done, paths)
    ensures visited0 <= visited
    ensures visited == visited0 ==> |queue| < |queue0|
  {
    var curr := queue0[0];
    queue := queue0[1..];
    var ns := if curr in adj then adj[curr] else [];
    assert ns == Neighbours(nodes, edges, curr);
    visited, queue, paths := VisitNeighbours(nodes, edges, root, curr, ns, visited0, queue, paths0);
    done := done0 + {curr};
  }

  /** The search starts with the root visited and queued. */
  lemma SearchStart(nodes: seq<Node>, edges: seq<Edge>, root: string)
    ensures SearchInvariant(nodes, edges, root, {root}, [root], {}, map[root := [root]])
  {
    assert IsWalk(nodes, edges, [root]);
  }

  /** Visiting something new brings the unvisited part of the universe down. */
  lemma FewerUnvisited(u: set<string>, before: set<string>, after: set<string>)
    requires before <= after <= u && before != after
    ensures |u - after| < |u - before|
  {
    assert u - after < u - before;
    ProperSubsetCardinality(u - after, u - before);
  }

  /** The breadth-first search from `root` over the adjacency map; the set it
      returns is exactly the set of ids reachable from `root`. */
  method Search(nodes: seq<Node>, edges: seq<Edge>, root: string) returns (visited: set<string>)
    ensures visited == ReachableSet(nodes, edges, root)
  {
    var adj := BuildAdjacency(nodes, edges);
    ghost var u := Universe(nodes, edges, root);
    visited := {root};
    var queue := [root];
    ghost var done: set<string> := {};
    ghost var paths: map<string, seq<string>> := map[root := [root]];
    SearchStart(nodes, edges, root);
    while |queue| > 0
      invariant SearchInvariant(nodes, edges, root, visited, queue, done, paths)
      decreases |u - visited|, |queue|
    {
      ghost var before := visited;
      visited, queue, done, paths := SearchRound(nodes, edges, root, adj, visited, queue, done, paths);
      if visited != before {
        FewerUnvisited(u, before, visited);
      }
    }
    SearchDone(nodes, edges, root, visited, done, paths);
  }

  // ---------------------------------------------------------------------------
  // Validation

  datatype Validation = Valid | Invalid(error: string)

  const CanvasEmpty := "Canvas is empty"
  const MissingMcu := "Missing MCU (Main Controller Unit)"
  const NotConnected := "All components must be connected to the MCU"

  /** The MCU the search starts from: the first node of type mcu. */
  function FindMcu(nodes: seq<Node>): Option<Node> { Find(IsMcu, nodes) }

  /** What the check intends: a non-empty canvas with an MCU from which every
      node can be reached over the edges, taken in either direction. */
  ghost function GraphValidation(nodes: seq<Node>, edges: seq<Edge>): Validation
  {
    if |nodes| == 0 then Invalid(CanvasEmpty)
    else match FindMcu(nodes)
      case None => Invalid(MissingMcu)
      case Some(m) =>
        if forall k :: 0 <= k < |nodes| ==> Reachable(nodes, edges, m.id, nodes[k].id)
        then Valid else Invalid(NotConnected)
  }

  /** What the source's check computes: it compares the number of distinct
      ids the search visited, which may include ids of edge endpoints that
      are no node, with the number of nodes. */
  ghost function ValidationAsWritten(nodes: seq<Node>, edges: seq<Edge>): Validation
  {
    if |nodes| == 0 then Invalid(CanvasEmpty)
    else match FindMcu(nodes)
      case None => Invalid(MissingMcu)
      case Some(m) =>
        if |ReachableSet(nodes, edges, m.id)| == |nodes| then Valid else Invalid(NotConnected)
  }

  method ValidateGraphAsWritten(nodes: seq<Node>, edges: seq<Edge>) returns (r: Validation)
    ensures r == ValidationAsWritten(nodes, edges)
  {
    if |nodes| == 0 {
      return Invalid(CanvasEmpty);
    }
    var mcu := FindMcu(nodes);
    if mcu.None? {
      return Invalid(MissingMcu);
    }
    var visited := Search(nodes, edges, mcu.value.id);
    if |visited| != |nodes| {
      return Invalid(NotConnected);
    }
    return Valid;
  }

  /** The validation with the final comparison made on node ids: every node
      must have been visited. */
  method ValidateGraph(nodes: seq<Node>, edges: seq<Edge>) returns (r: Validation)
    ensures r == GraphValidation(nodes, edges)
  {
    if |nodes| == 0 {
      return Invalid(CanvasEmpty);
    }
    var mcu := FindMcu(nodes);
    if mcu.None? {
      return Invalid(MissingMcu);
    }
    var visited := Search(nodes, edges, mcu.value.id);
    if !(forall k :: 0 <= k < |nodes| ==> nodes[k].id in visited) {
      return Invalid(NotConnected);
    }
    return Valid;
  }

  predicate DistinctIds(nodes: seq<Node>)
  {
    forall i, j :: 0 <= i < j < |nodes| ==> nodes[i].id != nodes[j].id
  }

  /** Node ids are distinct and every edge joins two nodes of the canvas. */
  predicate WellFormed(nodes: seq<Node>, edges: seq<Edge>)
  {
    DistinctIds(nodes) && Endpoints(edges) <= Ids(nodes)
  }

  lemma IdsSnoc(init: seq<Node>, last: Node)
    ensures Ids(init + [last]) == Ids(init) + {last.id}
  {
    forall x | x in Ids(init + [last]) ensures x in Ids(init) + {last.id} {
      var n :| n in init + [last] && n.id == x;
    }
  }

  lemma DistinctIdsInit(nodes: seq<Node>)
    requires |nodes| > 0 && DistinctIds(nodes)
    ensures DistinctIds(nodes[..|nodes| - 1])
    ensures nodes[|nodes| - 1].id !in Ids(nodes[..|nodes| - 1])
  {
    var init := nodes[..|nodes| - 1];
    forall n | n in init ensures n.id != nodes[|nodes| - 1].id {
      var i :| 0 <= i < |init| && init[i] == n;
      assert nodes[i] == n;
    }
  }

  lemma {:induction false} DistinctIdsCount(nodes: seq<Node>)
    requires DistinctIds(nodes)
    ensures |Ids(nodes)| == |nodes|
    decreases |nodes|
  {
    if |nodes| > 0 {
      var init := nodes[..|nodes| - 1];
      var last := nodes[|nodes| - 1];
      DistinctIdsInit(nodes);
      DistinctIdsCount(init);
      assert nodes == init + [last];
      IdsSnoc(init, last);
    }
  }


  /** On a well-formed canvas the search can reach node ids only, so it
      reaches all of them exactly when every node is reachable ... */
  lemma AllReachableSet(nodes: seq<Node>, edges: seq<Edge>, root: string)
    requires WellFormed(nodes, edges) && root in Ids(nodes)
    requires forall k :: 0 <= k < |nodes| ==> Reachable(nodes, edges, root, nodes[k].id)
    ensures ReachableSet(nodes, edges, root) == Ids(nodes)
  {
    assert Universe(nodes, edges, root) == Ids(nodes);
    forall x | x in Ids(nodes) ensures x in ReachableSet(nodes, edges, root) {
      var n :| n in nodes && n.id == x;
      var k :| 0 <= k < |nodes| && nodes[k] == n;
    }
  }

  /** ... and a node that is not reachable leaves the set smaller. */
  lemma UnreachableSetSmaller(nodes: seq<Node>, edges: seq<Edge>, root: string, k: nat)
    requires WellFormed(nodes, edges) && root in Ids(nodes)
    requires k < |nodes| && !Reachable(nodes, edges, root, nodes[k].id)
    ensures |ReachableSet(nodes, edges, root)| < |Ids(nodes)|
  {
    var rs := ReachableSet(nodes, edges, root);
    assert Universe(nodes, edges, root) == Ids(nodes);
    assert nodes[k].id !in rs;
    assert rs < Ids(nodes);
    ProperSubsetCardinality(rs, Ids(nodes));
  }

  /** On a well-formed canvas the source's count comparison means exactly
      that every node is reachable from the MCU. */
  lemma ValidationsAgreeOnWellFormed(nodes: seq<Node>, edges: seq<Edge>)
    requires WellFormed(nodes, edges)
    ensures ValidationAsWritten(nodes, edges) == GraphValidation(nodes, edges)
  {
    var mcu := FindMcu(nodes);
    if |nodes| > 0 && mcu.Some? {
      var root := mcu.value.id;
      assert root in Ids(nodes);
      DistinctIdsCount(nodes);
      if forall k :: 0 <= k < |nodes| ==> Reachable(nodes, edges, root, nodes[k].id) {
        AllReachableSet(nodes, edges, root);
      } else {
        var k :| 0 <= k < |nodes| && !Reachable(nodes, edges, root, nodes[k].id);
        UnreachableSetSmaller(nodes, edges, root, k);
      }
    }
  }

  /** Connecting two more components never makes a valid canvas invalid. */
  lemma AddEdgeKeepsValid(nodes: seq<Node>, edges: seq<Edge>, e: Edge)
    requires GraphValidation(nodes, edges).Valid?
    ensures GraphValidation(nodes, edges + [e]).Valid?
  {
    var root := FindMcu(nodes).value.id;
    forall k | 0 <= k < |nodes| ensures Reachable(nodes, edges + [e], root, nodes[k].id) {
      var p :| IsWalk(nodes, edges, p) && p[0] == root && p[|p| - 1] == nodes[k].id;
      forall i | 0 <= i < |p| - 1 ensures p[i + 1] in Neighbours(nodes, edges + [e], p[i]) {
        assert p[i + 1] in Neighbours(nodes, edges, p[i]);
        AdjListGrows(edges, e, p[i], p[i + 1]);
      }
      assert IsWalk(nodes, edges + [e], p);
    }
  }

  /** A canvas the source's check accepts although a node is cut off: the
      MCU the temperature sensor and the relay were wired to has been
      deleted (the toolbar's delete keeps unselected edges, so both edges
      stay), and a new MCU is wired to the temperature sensor only. */
  const StrayNodes: seq<Node> := [
    Node("temperature-1", "temperature", "Temp", Position(0.0, 0.0), false),
    Node("switch-2", "switch", "Relay", Position(0.0, 0.0), false),
    Node("mcu-3", "mcu", "MCU", Position(0.0, 0.0), false)
  ]
  const StrayEdges: seq<Edge> := [
    Edge("e1", "temperature-1", "mcu-0", false),
    Edge("e2", "switch-2", "mcu-0", false),
    Edge("e3", "temperature-1", "mcu-3", false)
  ]
  /** The ids the search visits on that canvas: the new MCU, the sensor and
      the deleted MCU's id. */
  const StrayVisited: set<string> := {"mcu-3", "temperature-1", "mcu-0"}

  lemma StrayIds()
    ensures Ids(StrayNodes) == {"temperature-1", "switch-2", "mcu-3"}
  {
    assert StrayNodes[0].id == "temperature-1" && StrayNodes[1].id == "switch-2" && StrayNodes[2].id == "mcu-3";
  }

  /** The prefixes of the stray edge list, shortest first. */
  lemma StrayPrefixes()
    ensures StrayEdges[..2][..1] == StrayEdges[..1] && StrayEdges[..1][..0] == []
    ensures StrayEdges[..2][|StrayEdges[..2]| - 1] == Edge("e2", "switch-2", "mcu-0", false)
    ensures StrayEdges[..1][|StrayEdges[..1]| - 1] == Edge("e1", "temperature-1", "mcu-0", false)
    ensures StrayEdges[..|StrayEdges| - 1] == StrayEdges[..2]
  {
  }

  lemma StrayMcuList()
    ensures AdjList(StrayEdges, "mcu-3") == ["temperature-1"]
  {
    StrayPrefixes();
    assert AdjList(StrayEdges[..1], "mcu-3") == [];
    assert AdjList(StrayEdges[..2], "mcu-3") == [];
  }

  lemma StraySensorList()
    ensures AdjList(StrayEdges, "temperature-1") == ["mcu-0", "mcu-3"]
  {
    StrayPrefixes();
    assert AdjList(StrayEdges[..1], "temperature-1") == ["mcu-0"];
    assert AdjList(StrayEdges[..2], "temperature-1") == ["mcu-0"];
  }

  lemma StrayAdjacency()
    ensures Ids(StrayNodes) == {"temperature-1", "switch-2", "mcu-3"}
    ensures Neighbours(StrayNodes, StrayEdges, "mcu-3") == ["temperature-1"]
    ensures Neighbours(StrayNodes, StrayEdges, "temperature-1") == ["mcu-0", "mcu-3"]
    ensures Neighbours(StrayNodes, StrayEdges, "mcu-0") == []
  {
    StrayIds();
    StrayMcuList();
    StraySensorList();
  }

  lemma StrayClosed()
    ensures Closed(StrayNodes, StrayEdges, StrayVisited)
  {
    StrayAdjacency();
  }

  lemma StrayWalks()
    ensures Reachable(StrayNodes, StrayEdges, "mcu-3", "mcu-3")
    ensures Reachable(StrayNodes, StrayEdges, "mcu-3", "temperature-1")
    ensures Reachable(StrayNodes, StrayEdges, "mcu-3", "mcu-0")
  {
    StrayAdjacency();
    var nodes, edges := StrayNodes, StrayEdges;
    assert IsWalk(nodes, edges, ["mcu-3"]);
    assert IsWalk(nodes, edges, ["mcu-3", "temperature-1"]);
    assert IsWalk(nodes, edges, ["mcu-3", "temperature-1", "mcu-0"]);
  }

  lemma StrayUniverse()
    ensures StrayVisited <= Universe(StrayNodes, StrayEdges, "mcu-3")
  {
    assert StrayNodes[0].id == "temperature-1";
    assert "mcu-0" in Endpoints(StrayEdges) by { assert StrayEdges[0] in StrayEdges; }
  }

  lemma StrayReachable()
    ensures ReachableSet(StrayNodes, StrayEdges, "mcu-3") == StrayVisited
  {
    var nodes, edges := StrayNodes, StrayEdges;
    var rs := ReachableSet(nodes, edges, "mcu-3");
    StrayClosed();
    forall x | x in rs ensures x in StrayVisited {
      ClosedContainsReachable(nodes, edges, StrayVisited, "mcu-3", x);
    }
    StrayWalks();
    StrayUniverse();
    forall x | x in StrayVisited ensures x in rs {
    }
  }

  /** The search visits three ids, as many as there are nodes. */
  lemma StrayCountMatches()
    ensures FindMcu(StrayNodes) == Some(StrayNodes[2])
    ensures |ReachableSet(StrayNodes, StrayEdges, "mcu-3")| == |StrayNodes|
  {
    StrayMcu();
    StrayReachable();
    StrayVisitedSize();
  }

  lemma StrayMcu()
    ensures FindMcu(StrayNodes) == Some(StrayNodes[2])
  {
    assert !IsMcu(StrayNodes[0]) && !IsMcu(StrayNodes[1]) && IsMcu(StrayNodes[2]);
    assert FindIndex(IsMcu, StrayNodes) == Some(2);
  }

  lemma StrayVisitedSize()
    ensures |StrayVisited| == 3
  {
    var a, b := {"mcu-3"}, {"mcu-3", "temperature-1"};
    assert "temperature-1" !in a && b == a + {"temperature-1"};
    assert "mcu-0" !in b && StrayVisited == b + {"mcu-0"};
  }

  /** ... but the relay is not among them. */
  lemma StrayRelayCutOff()
    ensures !Reachable(StrayNodes, StrayEdges, "mcu-3", "switch-2")
  {
    StrayReachable();
    StrayAdjacency();
    assert "switch-2" in Universe(StrayNodes, StrayEdges, "mcu-3");
    assert "switch-2" !in StrayVisited;
  }

  /** The source's check accepts the canvas; the relay is not connected. */
  lemma AsWrittenAcceptsDisconnectedCanvas()
    ensures ValidationAsWritten(StrayNodes, StrayEdges) == Valid
    ensures GraphValidation(StrayNodes, StrayEdges) == Invalid(NotConnected)
  {
    StrayCountMatches();
    StrayRelayCutOff();
    assert StrayNodes[1].id == "switch-2";
  }

  /** A canvas holding only an MCU is valid, whatever stray edges it keeps. */
  lemma LoneMcuValid(m: Node, edges: seq<Edge>)
    requires IsMcu(m)
    ensures GraphValidation([m], edges) == Valid
  {
    assert IsWalk([m], edges, [m.id]);
  }

  // ---------------------------------------------------------------------------
  // Adding nodes

  function FindSensor(kind: string): (r: Option<SensorDef>)
    ensures r.Some? ==> r.value in AvailableSensors && r.value.kind == kind
    ensures r.None? ==> forall k :: 0 <= k < |AvailableSensors| ==> AvailableSensors[k].kind != kind
  {
    Find((d: SensorDef) => d.kind == kind, AvailableSensors)
  }

  /** `nodes.some(n => n.data.type === 'mcu')`. */
  predicate HasMcu(nodes: seq<Node>) { exists k :: 0 <= k < |nodes| && IsMcu(nodes[k]) }

  function McuCount(nodes: seq<Node>): nat { |Filter(IsMcu, nodes)| }

  lemma McuCountZero(nodes: seq<Node>)
    ensures McuCount(nodes) == 0 <==> !HasMcu(nodes)
  {
    if HasMcu(nodes) {
      var k :| 0 <= k < |nodes| && IsMcu(nodes[k]);
      assert nodes[k] in Filter(IsMcu, nodes);
    }
    if McuCount(nodes) > 0 {
      var f := Filter(IsMcu, nodes);
      assert f[0] in nodes && IsMcu(f[0]);
      var k :| 0 <= k < |nodes| && nodes[k] == f[0];
    }
  }

  /** The id a new node gets: its type and the current time in milliseconds. */
  function NewNodeId(kind: string, now: nat): string { kind + "-" + NatToString(now) }

  /** The guard all three ways of adding a node share: no second MCU, and
      only types the palette offers. */
  predicate CanAdd(nodes: seq<Node>, kind: string)
  {
    !(kind == "mcu" && HasMcu(nodes)) && FindSensor(kind).Some?
  }

  /** Tapping a palette entry: a second MCU and unknown types are refused,
      anything else is appended with the palette's label. Either way the
      canvas keeps at most one MCU. */
  function HandleAddNode(nodes: seq<Node>, kind: string, now: nat, pos: Position): (r: seq<Node>)
    ensures !CanAdd(nodes, kind) ==> r == nodes
    ensures CanAdd(nodes, kind) ==>
      r == nodes + [Node(NewNodeId(kind, now), kind, FindSensor(kind).value.caption, pos, false)]
    ensures kind == "mcu" && HasMcu(nodes) ==> r == nodes
    ensures McuCount(nodes) <= 1 ==> McuCount(r) <= 1
  {
    if !CanAdd(nodes, kind) then nodes
    else
      var n := Node(NewNodeId(kind, now), kind, FindSensor(kind).value.caption, pos, false);
      FilterAppend(IsMcu, nodes, [n]);
      McuCountZero(nodes);
      nodes + [n]
  }

  /** Dropping a dragged palette entry: the type comes from the drag data or,
      when that is empty, from the type remembered when the drag started. The
      remembered type is cleared only when a node was added. */
  function OnDrop(nodes: seq<Node>, transferType: string, dragged: Option<string>, now: nat, pos: Position)
    : (r: (seq<Node>, Option<string>))
    ensures transferType != "" ==> r.0 == HandleAddNode(nodes, transferType, now, pos)
    ensures transferType == "" && (dragged.None? || dragged.value == "") ==> r == (nodes, dragged)
    ensures r.1 == if |r.0| == |nodes| + 1 then None else dragged
    ensures McuCount(nodes) <= 1 ==> McuCount(r.0) <= 1
  {
    var kind := if transferType != "" then transferType
                else if dragged.Some? then dragged.value else "";
    if kind == "" || !CanAdd(nodes, kind) then (nodes, dragged)
    else (HandleAddNode(nodes, kind, now, pos), None)
  }

  /** Lifting a finger after a touch drag: nothing without a remembered type;
      a tap (which the palette's click handler serves) only forgets the type;
      otherwise the node is added under the same guard and the type is
      forgotten whether or not it was. */
  function TouchEnd(nodes: seq<Node>, dragged: Option<string>, isTap: bool, now: nat, pos: Position)
    : (r: (seq<Node>, Option<string>))
    ensures dragged.None? || dragged.value == "" ==> r == (nodes, dragged)
    ensures dragged.Some? && dragged.value != "" ==> r.1.None?
    ensures isTap ==> r.0 == nodes
    ensures McuCount(nodes) <= 1 ==> McuCount(r.0) <= 1
  {
    if dragged.None? || dragged.value == "" then (nodes, dragged)
    else if isTap then (nodes, None)
    else (HandleAddNode(nodes, dragged.value, now, pos), None)
  }

  // ---------------------------------------------------------------------------
  // Connecting, deleting, clearing

  function FindNode(nodes: seq<Node>, id: string): Option<Node>
  {
    Find((n: Node) => n.id == id, nodes)
  }

  predicate SameEndpoints(e: Edge, source: string, target: string)
  {
    e.source == source && e.target == target
  }

  /** A node with this id is on the canvas and it is the MCU. */
  predicate McuAt(nodes: seq<Node>, id: string)
  {
    FindNode(nodes, id).Some? && IsMcu(FindNode(nodes, id).value)
  }

  /** The edge the flow library's helper creates for a connection. */
  function NewEdge(source: string, target: string): Edge
  {
    Edge("reactflow__edge-" + source + "-" + target, source, target, false)
  }

  /** Whether the flow library's helper takes a connection: both endpoints
      are given and no edge joins the same source to the same target. */
  predicate Accepts(edges: seq<Edge>, source: string, target: string)
  {
    source != "" && target != "" && !exists k :: 0 <= k < |edges| && SameEndpoints(edges[k], source, target)
  }

  /** The edge helper of the flow library: a connection missing an endpoint
      or repeating an existing source/target pair is dropped, any other is
      appended under a derived id. */
  function AddEdge(edges: seq<Edge>, source: string, target: string): (r: seq<Edge>)
    ensures Accepts(edges, source, target) ==> r == edges + [NewEdge(source, target)]
    ensures !Accepts(edges, source, target) ==> r == edges
    ensures (exists k :: 0 <= k < |edges| && SameEndpoints(edges[k], source, target)) ==> r == edges
    ensures source == "" || target == "" ==> r == edges
  {
    if source == "" || target == "" then edges
    else if exists k :: 0 <= k < |edges| && SameEndpoints(edges[k], source, target) then edges
    else edges + [NewEdge(source, target)]
  }

  /** No two edges join the same source to the same target. */
  predicate NoRepeatedConnections(edges: seq<Edge>)
  {
    forall i, j :: 0 <= i < j < |edges| ==> !SameEndpoints(edges[j], edges[i].source, edges[i].target)
  }

  /** The endpoints a new connection gets: dragged from an MCU onto anything
      that is not an MCU (including a point where no node is found), the
      connection is turned round so that edges run from sensor to MCU; any
      other connection keeps the direction it was drawn in. */
  function ConnectionDirection(nodes: seq<Node>, source: string, target: string): (r: (string, string))
    ensures McuAt(nodes, source) && !McuAt(nodes, target) ==> r == (target, source)
    ensures !McuAt(nodes, source) || McuAt(nodes, target) ==> r == (source, target)
    ensures McuAt(nodes, r.0) ==> McuAt(nodes, r.1)
  {
    var s := FindNode(nodes, source);
    var t := FindNode(nodes, target);
    if s.Some? && IsMcu(s.value) && !(t.Some? && IsMcu(t.value)) then (target, source) else (source, target)
  }

  /** Turning a connection round is done once: the direction chosen is kept
      when it is chosen again. */
  lemma DirectionIsStable(nodes: seq<Node>, source: string, target: string)
    ensures var d := ConnectionDirection(nodes, source, target);
      ConnectionDirection(nodes, d.0, d.1) == d
  {
  }

  /** Completing a connection: the flow library's helper is given the
      connection in the direction chosen above, so the edge appended (if
      any) never leads from an MCU to a node that is not an MCU, and no
      connection is recorded twice. */
  function OnConnect(nodes: seq<Node>, edges: seq<Edge>, source: string, target: string): (r: seq<Edge>)
    ensures var d := ConnectionDirection(nodes, source, target);
      Accepts(edges, d.0, d.1) ==> r == edges + [NewEdge(d.0, d.1)]
    ensures var d := ConnectionDirection(nodes, source, target);
      !Accepts(edges, d.0, d.1) ==> r == edges
    ensures |r| == |edges| + 1 && McuAt(nodes, r[|edges|].source) ==> McuAt(nodes, r[|edges|].target)
    ensures NoRepeatedConnections(edges) ==> NoRepeatedConnections(r)
  {
    var d := ConnectionDirection(nodes, source, target);
    var r := AddEdge(edges, d.0, d.1);
    assert r != edges ==> r[|edges|].source == d.0 && r[|edges|].target == d.1;
    r
  }

  /** Between an MCU and a node that is not one, it does not matter which
      end the user drags from: the same edge results. */
  lemma DragDirectionIrrelevant(nodes: seq<Node>, edges: seq<Edge>, a: string, b: string)
    requires McuAt(nodes, a) != McuAt(nodes, b)
    ensures OnConnect(nodes, edges, a, b) == OnConnect(nodes, edges, b, a)
  {
  }

  /** The toolbar's delete: the selected nodes and the selected edges go,
      each list keeping the order of what remains. */
  function DeleteSelected(nodes: seq<Node>, edges: seq<Edge>): (r: (seq<Node>, seq<Edge>))
    ensures forall n :: n in r.0 <==> n in nodes && !n.selected
    ensures forall e :: e in r.1 <==> e in edges && !e.selected
    ensures IsSubsequence(r.0, nodes) && IsSubsequence(r.1, edges)
  {
    var keepNode := (n: Node) => !n.selected;
    var keepEdge := (e: Edge) => !e.selected;
    FilterIsSubsequence(keepNode, nodes);
    FilterIsSubsequence(keepEdge, edges);
    (Filter(keepNode, nodes), Filter(keepEdge, edges))
  }

  /** Clearing asks for confirmation first. */
  function ClearCanvas(confirmed: bool, nodes: seq<Node>, edges: seq<Edge>): (r: (seq<Node>, seq<Edge>))
    ensures confirmed ==> r == ([], [])
    ensures !confirmed ==> r == (nodes, edges)
  {
    if confirmed then ([], []) else (nodes, edges)
  }

  // ---------------------------------------------------------------------------
  // Hierarchical export

  /** An exported node; `children` is absent when the node has none. */
  datatype HNode = HNode(id: string, kind: string, caption: string, position: Position, children: Option<seq<HNode>>)

  /** What is saved: the device name, the time of saving as an ISO 8601
      string, and the hierarchy. */
  datatype Export = Export(name: string, createdAt: string, structure: seq<HNode>)

  function Targets(edges: seq<Edge>): set<string> { set e | e in edges :: e.target }

  /** The nodes no edge points to, in canvas order. */
  function Roots(nodes: seq<Node>, edges: seq<Edge>): seq<Node>
  {
    Filter((n: Node) => n.id !in Targets(edges), nodes)
  }

  function ChildEdges(edges: seq<Edge>, id: string): seq<Edge>
  {
    Filter((e: Edge) => e.source == id, edges)
  }

  /** The recursive builder. The source recurses without a bound and never
      returns on a cycle; here every level uses one unit of `fuel`, and `None`
      stands for the recursion that does not finish. */
  function BuildNode(nodes: seq<Node>, edges: seq<Edge>, node: Node, fuel: nat): Option<HNode>
    decreases fuel, 0
  {
    if fuel == 0 then None
    else match BuildChildren(nodes, edges, ChildEdges(edges, node.id), fuel - 1)
      case None => None
      case Some(cs) => Some(HNode(node.id, node.kind, node.caption, node.position, if |cs| > 0 then Some(cs) else None))
  }

  /** Children in the order of their edges; an edge to an id that is no node
      contributes nothing. */
  function BuildChildren(nodes: seq<Node>, edges: seq<Edge>, ces: seq<Edge>, fuel: nat): Option<seq<HNode>>
    decreases fuel, 1, |ces|
  {
    if |ces| == 0 then Some([])
    else
      var head := match FindNode(nodes, ces[0].target)
        case None => Some([])
        case Some(child) => (match BuildNode(nodes, edges, child, fuel)
                              case None => None
                              case Some(h) => Some([h]));
      var rest := BuildChildren(nodes, edges, ces[1..], fuel);
      if head.None? || rest.None? then None else Some(head.value + rest.value)
  }

  function BuildForest(nodes: seq<Node>, edges: seq<Edge>, ns: seq<Node>, fuel: nat): Option<seq<HNode>>
    decreases |ns|
  {
    if |ns| == 0 then Some([])
    else match (BuildNode(nodes, edges, ns[0], fuel), BuildForest(nodes, edges, ns[1..], fuel))
      case (Some(h), Some(hs)) => Some([h] + hs)
      case _ => None
  }

  /** `roots.map(buildNode)`. */
  function BuildHierarchy(nodes: seq<Node>, edges: seq<Edge>, fuel: nat): Option<seq<HNode>>
  {
    BuildForest(nodes, edges, Roots(nodes, edges), fuel)
  }

  function ChildIds(h: HNode): seq<string>
  {
    match h.children
    case None => []
    case Some(cs) => Map(HNodeId, cs)
  }

  function HNodeId(h: HNode): string { h.id }

  function EdgeTarget(e: Edge): string { e.target }

  function TargetIn(nodes: seq<Node>): Edge -> bool { (e: Edge) => e.target in Ids(nodes) }

  /** The targets of the given edges that are nodes of the canvas, in order. */
  function ExistingTargets(nodes: seq<Node>, ces: seq<Edge>): seq<string>
  {
    Map(EdgeTarget, Filter(TargetIn(nodes), ces))
  }

  lemma ExistingTargetsCons(nodes: seq<Node>, ces: seq<Edge>)
    requires |ces| > 0
    ensures ExistingTargets(nodes, ces)
         == (if ces[0].target in Ids(nodes) then [ces[0].target] else []) + ExistingTargets(nodes, ces[1..])
  {
    assert ces == [ces[0]] + ces[1..];
    FilterAppend(TargetIn(nodes), [ces[0]], ces[1..]);
    assert [ces[0]][1..] == [];
    MapAppend(EdgeTarget, Filter(TargetIn(nodes), [ces[0]]), Filter(TargetIn(nodes), ces[1..]));
  }

  /** The children the first edge contributes: the node it reaches, if any. */
  lemma FirstChildIds(nodes: seq<Node>, edges: seq<Edge>, ces: seq<Edge>, fuel: nat, cs: seq<HNode>, rest: seq<HNode>)
    requires |ces| > 0
    requires BuildChildren(nodes, edges, ces, fuel) == Some(cs)
    requires BuildChildren(nodes, edges, ces[1..], fuel) == Some(rest)
    ensures |rest| <= |cs|
    ensures cs == cs[..|cs| - |rest|] + rest
    ensures Map(HNodeId, cs[..|cs| - |rest|]) == if ces[0].target in Ids(nodes) then [ces[0].target] else []
  {
    FindNodeSome(nodes, ces[0].target);
  }

  lemma FindNodeSome(nodes: seq<Node>, id: string)
    ensures FindNode(nodes, id).Some? <==> id in Ids(nodes)
    ensures FindNode(nodes, id).Some? ==> FindNode(nodes, id).value.id == id
  {
    if id in Ids(nodes) {
      var n :| n in nodes && n.id == id;
      var k :| 0 <= k < |nodes| && nodes[k] == n;
    }
  }

  lemma {:induction false} ChildrenIds(nodes: seq<Node>, edges: seq<Edge>, ces: seq<Edge>, fuel: nat, cs: seq<HNode>)
    requires BuildChildren(nodes, edges, ces, fuel) == Some(cs)
    ensures Map(HNodeId, cs) == ExistingTargets(nodes, ces)
    decreases |ces|
  {
    if |ces| > 0 {
      var rest := BuildChildren(nodes, edges, ces[1..], fuel).value;
      ChildrenIds(nodes, edges, ces[1..], fuel, rest);
      FirstChildIds(nodes, edges, ces, fuel, cs, rest);
      ExistingTargetsCons(nodes, ces);
      MapAppend(HNodeId, cs[..|cs| - |rest|], rest);
    }
  }

  /** An exported node carries the canvas node's id, type, label and
      position; its children are, in edge order, the nodes its outgoing edges
      reach, and the `children` key is there exactly when there are some. */
  lemma NodeShape(nodes: seq<Node>, edges: seq<Edge>, node: Node, fuel: nat)
    requires BuildNode(nodes, edges, node, fuel).Some?
    ensures var h := BuildNode(nodes, edges, node, fuel).value;
      h.id == node.id && h.kind == node.kind && h.caption == node.caption && h.position == node.position
      && ChildIds(h) == ExistingTargets(nodes, ChildEdges(edges, node.id))
      && (h.children.Some? <==> |ExistingTargets(nodes, ChildEdges(edges, node.id))| > 0)
  {
    var cs := BuildChildren(nodes, edges, ChildEdges(edges, node.id), fuel - 1).value;
    ChildrenIds(nodes, edges, ChildEdges(edges, node.id), fuel - 1, cs);
  }

  lemma {:induction false} ForestIds(nodes: seq<Node>, edges: seq<Edge>, ns: seq<Node>, fuel: nat)
    requires BuildForest(nodes, edges, ns, fuel).Some?
    ensures var hs := BuildForest(nodes, edges, ns, fuel).value;
      |hs| == |ns| && forall k :: 0 <= k < |ns| ==> hs[k].id == ns[k].id
    decreases |ns|
  {
    if |ns| > 0 {
      ForestIds(nodes, edges, ns[1..], fuel);
      NodeShape(nodes, edges, ns[0], fuel);
    }
  }

  /** The export lists one tree per node that no edge points to, in canvas order. */
  lemma HierarchyRoots(nodes: seq<Node>, edges: seq<Edge>, fuel: nat)
    requires BuildHierarchy(nodes, edges, fuel).Some?
    ensures var hs := BuildHierarchy(nodes, edges, fuel).value;
      |hs| == |Roots(nodes, edges)| && forall k :: 0 <= k < |hs| ==> hs[k].id == Roots(nodes, edges)[k].id
    ensures forall n :: n in Roots(nodes, edges) <==> n in nodes && forall e :: e in edges ==> e.target != n.id
  {
    ForestIds(nodes, edges, Roots(nodes, edges), fuel);
  }

  /** Edges that lead from a higher to a lower rank. */
  predicate Ranked(edges: seq<Edge>, rank: map<string, nat>)
  {
    forall e :: e in edges ==> e.source in rank && e.target in rank && rank[e.target] < rank[e.source]
  }

  /** With edges ranked, the recursion finishes once the fuel exceeds the rank. */
  lemma {:induction false} BuildNodeFinishes(nodes: seq<Node>, edges: seq<Edge>, rank: map<string, nat>, node: Node, fuel: nat)
    requires Ranked(edges, rank) && node.id in rank && fuel > rank[node.id]
    ensures BuildNode(nodes, edges, node, fuel).Some?
    decreases fuel, 0
  {
    var ces := ChildEdges(edges, node.id);
    forall e | e in ces ensures e.target in rank && rank[e.target] < fuel - 1 {
      assert e in edges && e.source == node.id;
    }
    BuildChildrenFinishes(nodes, edges, rank, ces, fuel - 1);
  }

  lemma {:induction false} BuildChildrenFinishes(nodes: seq<Node>, edges: seq<Edge>, rank: map<string, nat>, ces: seq<Edge>, fuel: nat)
    requires Ranked(edges, rank)
    requires forall e :: e in ces ==> e.target in rank && rank[e.target] < fuel
    ensures BuildChildren(nodes, edges, ces, fuel).Some?
    decreases fuel, 1, |ces|
  {
    if |ces| > 0 {
      assert ces[0] in ces;
      FindNodeSome(nodes, ces[0].target);
      match FindNode(nodes, ces[0].target) {
        case None =>
        case Some(child) => BuildNodeFinishes(nodes, edges, rank, child, fuel);
      }
      BuildChildrenFinishes(nodes, edges, rank, ces[1..], fuel);
    }
  }

  lemma {:induction false} ChildrenNotFinishing(nodes: seq<Node>, edges: seq<Edge>, ces: seq<Edge>, fuel: nat, e: Edge)
    requires e in ces && FindNode(nodes, e.target).Some?
    requires BuildNode(nodes, edges, FindNode(nodes, e.target).value, fuel).None?
    ensures BuildChildren(nodes, edges, ces, fuel).None?
    decreases |ces|
  {
    if ces[0] != e {
      ChildrenNotFinishing(nodes, edges, ces[1..], fuel, e);
    }
  }

  lemma ChildEdgeOf(edges: seq<Edge>, k: nat, id: string)
    requires k < |edges| && edges[k].source == id
    ensures edges[k] in ChildEdges(edges, id)
  {
  }

  /** Two nodes joined by edges both ways, as the user can draw between two
      sensors: the recursion from either never finishes, whatever the fuel,
      as the source overflows its stack and exports nothing. */
  lemma {:induction false} CycleNeverFinishes(nodes: seq<Node>, edges: seq<Edge>, i: nat, j: nat, node: Node, fuel: nat)
    requires i < |edges| && j < |edges|
    requires edges[i].source == edges[j].target && edges[i].target == edges[j].source
    requires edges[i].source in Ids(nodes) && edges[i].target in Ids(nodes)
    requires node.id == edges[i].source || node.id == edges[j].source
    ensures BuildNode(nodes, edges, node, fuel).None?
    decreases fuel
  {
    if fuel > 0 {
      var k := if node.id == edges[i].source then i else j;
      var e := edges[k];
      ChildEdgeOf(edges, k, node.id);
      FindNodeSome(nodes, e.target);
      var child := FindNode(nodes, e.target).value;
      CycleNeverFinishes(nodes, edges, i, j, child, fuel - 1);
      ChildrenNotFinishing(nodes, edges, ChildEdges(edges, node.id), fuel - 1, e);
    }
  }

  /** Every edge turned round: the canvas stores sensor-to-MCU edges and the
      export wants parent-to-child. */
  function ReverseEdges(edges: seq<Edge>): (r: seq<Edge>)
    ensures |r| == |edges|
    ensures forall k :: 0 <= k < |edges| ==> r[k].source == edges[k].target && r[k].target == edges[k].source
  {
    Map((e: Edge) => e.(source := e.target, target := e.source), edges)
  }

  /** After the reversal the roots of the export are the nodes with no
      outgoing edge on the canvas: with sensor-to-MCU edges, the MCU. */
  lemma ExportRoots(nodes: seq<Node>, edges: seq<Edge>)
    ensures forall n :: n in Roots(nodes, ReverseEdges(edges)) <==> n in nodes && forall e :: e in edges ==> e.source != n.id
  {
    var rev := ReverseEdges(edges);
    forall n | n in nodes
      ensures n.id in Targets(rev) <==> exists e :: e in edges && e.source == n.id
    {
      if n.id in Targets(rev) {
        var r :| r in rev && r.target == n.id;
        var k :| 0 <= k < |rev| && rev[k] == r;
        assert edges[k] in edges;
      }
      if exists e :: e in edges && e.source == n.id {
        var e :| e in edges && e.source == n.id;
        var k :| 0 <= k < |edges| && edges[k] == e;
        assert rev[k] in rev;
      }
    }
  }

  /** A canvas the validation accepts: both sensors wired to the MCU through
      the temperature sensor, which the humidity sensor is wired to both ways. */
  const CycleNodes: seq<Node> := [
    Node("mcu-1", "mcu", "MCU", Position(0.0, 0.0), false),
    Node("temperature-2", "temperature", "Temp", Position(0.0, 0.0), false),
    Node("humidity-3", "humidity", "Humidity", Position(0.0, 0.0), false)
  ]
  const CycleEdges: seq<Edge> := [
    Edge("e1", "temperature-2", "mcu-1", false),
    Edge("e2", "temperature-2", "humidity-3", false),
    Edge("e3", "humidity-3", "temperature-2", false)
  ]

  lemma CycleIds()
    ensures Ids(CycleNodes) == {"mcu-1", "temperature-2", "humidity-3"}
  {
  }

  lemma CycleAdjacency()
    ensures "temperature-2" in Neighbours(CycleNodes, CycleEdges, "mcu-1")
    ensures "humidity-3" in Neighbours(CycleNodes, CycleEdges, "temperature-2")
  {
    var edges := CycleEdges;
    CycleIds();
    var e1, e2 := edges[..1], edges[..2];
    assert e2[..1] == e1 && e1[..0] == [];
    assert AdjList(e1, "mcu-1") == ["temperature-2"];
    assert AdjList(e1, "temperature-2") == ["mcu-1"];
    assert AdjList(e2, "temperature-2") == ["mcu-1", "humidity-3"];
  }

  lemma CycleWalks()
    ensures Reachable(CycleNodes, CycleEdges, "mcu-1", "mcu-1")
    ensures Reachable(CycleNodes, CycleEdges, "mcu-1", "temperature-2")
    ensures Reachable(CycleNodes, CycleEdges, "mcu-1", "humidity-3")
  {
    var nodes, edges := CycleNodes, CycleEdges;
    CycleAdjacency();
    assert IsWalk(nodes, edges, ["mcu-1"]);
    assert IsWalk(nodes, edges, ["mcu-1", "temperature-2"]);
    assert IsWalk(nodes, edges, ["mcu-1", "temperature-2", "humidity-3"]);
  }

  lemma CycleCanvasValid()
    ensures GraphValidation(CycleNodes, CycleEdges) == Valid
  {
    var nodes, edges := CycleNodes, CycleEdges;
    assert FindMcu(nodes) == Some(nodes[0]);
    CycleWalks();
    assert nodes[0].id == "mcu-1" && nodes[1].id == "temperature-2" && nodes[2].id == "humidity-3";
    forall k | 0 <= k < |nodes| ensures Reachable(nodes, edges, "mcu-1", nodes[k].id) {
      assert k == 0 || k == 1 || k == 2;
    }
  }

  lemma CycleReversed()
    ensures ReverseEdges(CycleEdges) == [Edge("e1", "mcu-1", "temperature-2", false),
                                         Edge("e2", "humidity-3", "temperature-2", false),
                                         Edge("e3", "temperature-2", "humidity-3", false)]
  {
  }

  lemma CycleRoots()
    ensures Roots(CycleNodes, ReverseEdges(CycleEdges)) == [CycleNodes[0]]
  {
    CycleReversed();
    var rev := ReverseEdges(CycleEdges);
    var nodes := CycleNodes;
    assert rev[0] in rev && rev[1] in rev;
    assert nodes[1].id in Targets(rev) && nodes[2].id in Targets(rev);
    forall e | e in rev ensures e.target != nodes[0].id {
      var k :| 0 <= k < |rev| && rev[k] == e;
    }
    var p := (n: Node) => n.id !in Targets(rev);
    assert p(nodes[0]) && !p(nodes[1]) && !p(nodes[2]);
    assert nodes == [nodes[0]] + [nodes[1]] + [nodes[2]];
    assert Filter(p, [nodes[2]]) == [];
    assert Filter(p, [nodes[1]]) == [];
    assert Filter(p, [nodes[0]]) == [nodes[0]];
    FilterAppend(p, [nodes[0]] + [nodes[1]], [nodes[2]]);
    FilterAppend(p, [nodes[0]], [nodes[1]]);
  }

  /** A node with an edge into such a pair of nodes never finishes either. */
  lemma IntoCycleNeverFinishes(nodes: seq<Node>, edges: seq<Edge>, e: Edge, i: nat, j: nat, node: Node, fuel: nat)
    requires i < |edges| && j < |edges|
    requires e in edges && e.source == node.id && e.target == edges[i].source
    requires edges[i].source == edges[j].target && edges[i].target == edges[j].source
    requires edges[i].source in Ids(nodes) && edges[i].target in Ids(nodes)
    ensures BuildNode(nodes, edges, node, fuel).None?
  {
    if fuel > 0 {
      var ces := ChildEdges(edges, node.id);
      assert e in ces;
      FindNodeSome(nodes, e.target);
      var child := FindNode(nodes, e.target).value;
      CycleNeverFinishes(nodes, edges, i, j, child, fuel - 1);
      ChildrenNotFinishing(nodes, edges, ces, fuel - 1, e);
    }
  }

  lemma CycleMcuNeverFinishes(fuel: nat)
    ensures BuildNode(CycleNodes, ReverseEdges(CycleEdges), CycleNodes[0], fuel).None?
  {
    CycleReversed();
    CycleIds();
    var rev := ReverseEdges(CycleEdges);
    assert rev[0] in rev;
    assert rev[0].source == CycleNodes[0].id && rev[0].target == rev[2].source;
    assert rev[2].source in Ids(CycleNodes) && rev[2].target in Ids(CycleNodes);
    IntoCycleNeverFinishes(CycleNodes, rev, rev[0], 2, 1, CycleNodes[0], fuel);
  }

  lemma CycleWellFormed()
    ensures WellFormed(CycleNodes, CycleEdges)
  {
    CycleIds();
    assert CycleNodes[0].id == "mcu-1" && CycleNodes[1].id == "temperature-2" && CycleNodes[2].id == "humidity-3";
    forall x | x in Endpoints(CycleEdges) ensures x in Ids(CycleNodes) {
      var e :| e in CycleEdges && (x == e.source || x == e.target);
    }
  }

  /** ... and its export never finishes: the source overflows its stack. Both
      checks accept the canvas. */
  lemma CyclicCanvasExportsNothing(fuel: nat)
    ensures ValidationAsWritten(CycleNodes, CycleEdges) == Valid
    ensures GraphValidation(CycleNodes, CycleEdges) == Valid
    ensures BuildHierarchy(CycleNodes, ReverseEdges(CycleEdges), fuel).None?
  {
    CycleCanvasValid();
    CycleWellFormed();
    ValidationsAgreeOnWellFormed(CycleNodes, CycleEdges);
    CycleRoots();
    CycleMcuNeverFinishes(fuel);
    var rev := ReverseEdges(CycleEdges);
    assert BuildHierarchy(CycleNodes, rev, fuel) == BuildForest(CycleNodes, rev, [CycleNodes[0]], fuel);
  }

  /** The hierarchy exported from the stray canvas: the new MCU with the
      temperature sensor under it; the relay is nowhere in it. */
  const StrayHierarchy: seq<HNode> := [
    HNode("mcu-3", "mcu", "MCU", Position(0.0, 0.0),
          Some([HNode("temperature-1", "temperature", "Temp", Position(0.0, 0.0), None)]))
  ]

  lemma StrayRoots()
    ensures Roots(StrayNodes, ReverseEdges(StrayEdges)) == [StrayNodes[2]]
  {
    var rev := ReverseEdges(StrayEdges);
    var nodes := StrayNodes;
    assert rev[0] in rev && rev[1] in rev;
    assert nodes[0].id in Targets(rev) && nodes[1].id in Targets(rev);
    forall e | e in rev ensures e.target != nodes[2].id {
      var k :| 0 <= k < |rev| && rev[k] == e;
    }
    var p := (n: Node) => n.id !in Targets(rev);
    assert !p(nodes[0]) && !p(nodes[1]) && p(nodes[2]);
    assert nodes == [nodes[0]] + [nodes[1]] + [nodes[2]];
    assert Filter(p, [nodes[2]]) == [nodes[2]];
    assert Filter(p, [nodes[1]]) == [];
    assert Filter(p, [nodes[0]]) == [];
    FilterAppend(p, [nodes[0]] + [nodes[1]], [nodes[2]]);
    FilterAppend(p, [nodes[0]], [nodes[1]]);
  }

  lemma StrayChildEdges()
    ensures ChildEdges(ReverseEdges(StrayEdges), "mcu-3") == [ReverseEdges(StrayEdges)[2]]
    ensures ChildEdges(ReverseEdges(StrayEdges), "temperature-1") == []
  {
    var rev := ReverseEdges(StrayEdges);
    assert rev == [rev[0]] + [rev[1]] + [rev[2]];
    assert rev[1..] == [rev[1]] + [rev[2]] && rev[2..] == [rev[2]] && rev[3..] == [];
  }

  lemma StrayLeaf()
    ensures BuildNode(StrayNodes, ReverseEdges(StrayEdges), StrayNodes[0], 3)
         == Some(StrayHierarchy[0].children.value[0])
  {
    StrayChildEdges();
  }

  lemma StrayFindSensor()
    ensures FindNode(StrayNodes, "temperature-1") == Some(StrayNodes[0])
  {
    assert StrayNodes[0].id == "temperature-1";
  }

  lemma StrayChildren()
    ensures BuildChildren(StrayNodes, ReverseEdges(StrayEdges), [ReverseEdges(StrayEdges)[2]], 3)
         == Some(StrayHierarchy[0].children.value)
  {
    var rev := ReverseEdges(StrayEdges);
    var ces := [rev[2]];
    assert ces[0].target == "temperature-1";
    StrayFindSensor();
    StrayLeaf();
    var leaf := StrayHierarchy[0].children.value[0];
    assert ces[1..] == [];
    assert BuildChildren(StrayNodes, rev, [], 3) == Some([]);
    assert StrayHierarchy[0].children.value == [leaf] + [];
  }

  lemma StrayTop()
    ensures BuildNode(StrayNodes, ReverseEdges(StrayEdges), StrayNodes[2], 4) == Some(StrayHierarchy[0])
  {
    StrayChildEdges();
    StrayChildren();
    assert StrayNodes[2].id == "mcu-3";
  }

  lemma StrayForest()
    ensures BuildHierarchy(StrayNodes, ReverseEdges(StrayEdges), 4) == Some(StrayHierarchy)
  {
    StrayRoots();
    StrayTop();
    var rev := ReverseEdges(StrayEdges);
    assert [StrayNodes[2]][1..] == [];
    assert BuildForest(StrayNodes, rev, [], 4) == Some([]);
    assert StrayHierarchy == [StrayHierarchy[0]] + [];
  }

  /** The source's check accepts the stray canvas and its export finishes,
      but the relay is missing from what is saved. */
  lemma StrayCanvasExportDropsRelay()
    ensures ValidationAsWritten(StrayNodes, StrayEdges) == Valid
    ensures BuildHierarchy(StrayNodes, ReverseEdges(StrayEdges), |StrayNodes| + 1) == Some(StrayHierarchy)
  {
    AsWrittenAcceptsDisconnectedCanvas();
    StrayForest();
  }

  /** Saving as the source does: nothing is exported from a canvas its check
      rejects; otherwise the hierarchy of the reversed edges, under the
      device name and the time `createdAt` (`new Date().toISOString()`). The
      depth bound is one more than the number of nodes, which a chain of
      children that ends cannot exceed. */
  method HandleExport(nodes: seq<Node>, edges: seq<Edge>, name: string, createdAt: string)
    returns (r: Option<Export>)
    ensures ValidationAsWritten(nodes, edges).Invalid? ==> r.None?
    ensures ValidationAsWritten(nodes, edges).Valid? ==>
      r == match BuildHierarchy(nodes, ReverseEdges(edges), |nodes| + 1)
           case None => None
           case Some(h) => Some(Export(name, createdAt, h))
  {
    var validation := ValidateGraphAsWritten(nodes, edges);
    if validation.Invalid? {
      return None;
    }
    var h := BuildHierarchy(nodes, ReverseEdges(edges), |nodes| + 1);
    if h.None? {
      return None;
    }
    return Some(Export(name, createdAt, h.value));
  }

  /** Saving with the corrected check: a canvas on which some node is cut
      off from the MCU is refused. */
  method HandleExportCorrected(nodes: seq<Node>, edges: seq<Edge>, name: string, createdAt: string)
    returns (r: Option<Export>)
    ensures GraphValidation(nodes, edges).Invalid? ==> r.None?
    ensures GraphValidation(nodes, edges).Valid? ==>
      r == match BuildHierarchy(nodes, ReverseEdges(edges), |nodes| + 1)
           case None => None
           case Some(h) => Some(Export(name, createdAt, h))
  {
    var validation := ValidateGraph(nodes, edges);
    if validation.Invalid? {
      return None;
    }
    var h := BuildHierarchy(nodes, ReverseEdges(edges), |nodes| + 1);
    if h.None? {
      return None;
    }
    return Some(Export(name, createdAt, h.value));
  }
}
