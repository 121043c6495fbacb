/** Stored device-type definitions and how the review pages turn a stored
    structure back into a graph: one node per entry and one edge from each
    entry to its parent. */
module Structure {
  import opened Seqs
  import opened DeviceBuilder

  /** One component of a stored structure. `position` is `None` when the
      entry has none; `parentId` is `None` when the key is missing or null. */
  datatype Entry = Entry(id: string, kind: string, caption: string, position: Option<Position>, parentId: Option<string>)

  /** A device type as the API lists it. `structure` is `None` when the
      definition has no structure or the structure is not an array. */
  datatype DeviceType = DeviceType(id: int, name: string, approved: bool, structure: Option<seq<Entry>>)

  /** `node.parentId` is truthy: present and not the empty string. */
  predicate HasParent(e: Entry) { e.parentId.Some? && e.parentId.value != "" }

  function EntryNode(e: Entry): Node
  {
    Node(e.id, e.kind, e.caption, match e.position case None => Position(0.0, 0.0) case Some(p) => p, false)
  }

  function ParentOf(e: Entry): string { if e.parentId.Some? then e.parentId.value else "" }

  /** The child-to-parent edge of an entry with a parent. */
  function ParentEdge(e: Entry): Edge
  {
    Edge("e-" + e.id + "-" + ParentOf(e), e.id, ParentOf(e), false)
  }

  /** The graph of a structure: its nodes in entry order, and the
      child-to-parent edges of the entries that have a parent. */
  function StructureNodes(s: seq<Entry>): (r: seq<Node>)
    ensures |r| == |s|
    ensures forall k :: 0 <= k < |s| ==>
      r[k].id == s[k].id && r[k].kind == s[k].kind && r[k].caption == s[k].caption
      && r[k].position == (if s[k].position.Some? then s[k].position.value else Position(0.0, 0.0))
  {
    Map(EntryNode, s)
  }

  function ParentEdges(s: seq<Entry>): seq<Edge>
  {
    Map(ParentEdge, Filter(HasParent, s))
  }

  /** Every edge is the edge of an entry with a parent ... */
  lemma ParentEdgeSource(s: seq<Entry>, k: nat) returns (j: nat)
    requires k < |ParentEdges(s)|
    ensures j < |s| && HasParent(s[j]) && ParentEdges(s)[k] == ParentEdge(s[j])
  {
    var withParent := Filter(HasParent, s);
    assert withParent[k] in s;
    j :| 0 <= j < |s| && s[j] == withParent[k];
  }

  /** ... and every entry with a parent has its edge. */
  lemma ParentEdgeOf(s: seq<Entry>, j: nat)
    requires j < |s| && HasParent(s[j])
    ensures ParentEdge(s[j]) in ParentEdges(s)
  {
    var withParent := Filter(HasParent, s);
    assert s[j] in withParent;
    var k :| 0 <= k < |withParent| && withParent[k] == s[j];
    assert ParentEdges(s)[k] == ParentEdge(s[j]);
  }

  /** `reconstructGraph`: a structure that is not an array gives no graph. */
  function Reconstructed(structure: Option<seq<Entry>>): (seq<Node>, seq<Edge>)
  {
    match structure
    case None => ([], [])
    case Some(s) => (StructureNodes(s), ParentEdges(s))
  }

  lemma ParentEdgesSnoc(s: seq<Entry>, e: Entry)
    ensures ParentEdges(s + [e]) == ParentEdges(s) + (if HasParent(e) then [ParentEdge(e)] else [])
  {
    FilterAppend(HasParent, s, [e]);
    MapAppend(ParentEdge, Filter(HasParent, s), Filter(HasParent, [e]));
  }

  /** One more entry adds its node, and its edge when it has a parent. */
  lemma ReconstructStep(s: seq<Entry>, i: nat)
    requires i < |s|
    ensures StructureNodes(s[..i + 1]) == StructureNodes(s[..i]) + [EntryNode(s[i])]
    ensures ParentEdges(s[..i + 1]) == ParentEdges(s[..i]) + (if HasParent(s[i]) then [ParentEdge(s[i])] else [])
  {
    assert s[..i + 1] == s[..i] + [s[i]];
    MapAppend(EntryNode, s[..i], [s[i]]);
    ParentEdgesSnoc(s[..i], s[i]);
  }

  /** The loop over the entries, pushing a node for each and an edge for
      each entry with a parent. */
  method ReconstructGraph(structure: Option<seq<Entry>>) returns (nodes: seq<Node>, edges: seq<Edge>)
    ensures (nodes, edges) == Reconstructed(structure)
  {
    nodes, edges := [], [];
    if structure.None? {
      return;
    }
    var s := structure.value;
    var i := 0;
    while i < |s|
      invariant 0 <= i <= |s|
      invariant nodes == StructureNodes(s[..i])
      invariant edges == ParentEdges(s[..i])
    {
      ReconstructStep(s, i);
      nodes := nodes + [EntryNode(s[i])];
      if HasParent(s[i]) {
        edges := edges + [ParentEdge(s[i])];
      }
      i := i + 1;
    }
    assert s[..i] == s;
  }

  /** Every edge of a reconstructed graph starts at one of its nodes. */
  lemma EdgesLeaveNodes(s: seq<Entry>)
    ensures forall e :: e in ParentEdges(s) ==> e.source in Ids(StructureNodes(s))
  {
    var ns, es := StructureNodes(s), ParentEdges(s);
    forall e | e in es ensures e.source in Ids(ns) {
      var k :| 0 <= k < |es| && es[k] == e;
      var j := ParentEdgeSource(s, k);
      assert ns[j] in ns;
    }
  }

  /** ... and ends at one when every parent names an entry. */
  lemma EdgesEnterNodes(s: seq<Entry>)
    requires forall j :: 0 <= j < |s| && HasParent(s[j]) ==> exists i :: 0 <= i < |s| && s[i].id == s[j].parentId.value
    ensures forall e :: e in ParentEdges(s) ==> e.target in Ids(StructureNodes(s))
  {
    var ns, es := StructureNodes(s), ParentEdges(s);
    forall e | e in es ensures e.target in Ids(ns) {
      var k :| 0 <= k < |es| && es[k] == e;
      var j := ParentEdgeSource(s, k);
      var i :| 0 <= i < |s| && s[i].id == s[j].parentId.value;
      assert ns[i] in ns;
    }
  }

  /** When every parent names an entry, the reconstructed graph has no
      dangling edge, and both readings of the device-builder validation
      agree on it. */
  lemma ReconstructedWellFormed(s: seq<Entry>)
    requires forall j :: 0 <= j < |s| && HasParent(s[j]) ==> exists i :: 0 <= i < |s| && s[i].id == s[j].parentId.value
    requires forall i, j :: 0 <= i < j < |s| ==> s[i].id != s[j].id
    ensures WellFormed(StructureNodes(s), ParentEdges(s))
    ensures ValidationAsWritten(StructureNodes(s), ParentEdges(s)) == GraphValidation(StructureNodes(s), ParentEdges(s))
  {
    var ns, es := StructureNodes(s), ParentEdges(s);
    EdgesLeaveNodes(s);
    EdgesEnterNodes(s);
    assert Endpoints(es) <= Ids(ns);
    assert DistinctIds(ns);
    ValidationsAgreeOnWellFormed(ns, es);
  }
}
