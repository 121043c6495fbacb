/** The network topology canvas: a gateway in the centre on the left, every
    other device in one column to its right, one edge from the gateway to
    each device, and a selection that survives refreshes. */
module TopologyCanvas {
  import opened Seqs
  import opened Strings
  import opened JsValue
  import opened TopologyBuilderNode

  /** A node handed to the canvas: its id, its React Flow `type` and its data. */
  datatype CanvasNode = CanvasNode(id: string, kind: string, data: NodeData)

  /** A node as laid out. */
  datatype Placed = Placed(id: string, kind: string, data: NodeData, x: int, y: int, selected: bool)

  datatype CanvasEdge = CanvasEdge(id: string, source: string, target: string, animated: bool, stroke: string)

  const Green := "#22c55e"
  const Red := "#ef4444"
  const Grey := "#71717a"

  // ---------------------------------------------------------------------------
  // Choosing the centre

  predicate IsCentreCandidate(n: CanvasNode)
  {
    n.kind == "input" || Contains(ToLower(n.id), "gateway") || n.id == "homeforge-gateway"
  }

  /** The id of the centre node: always the id of some input node. */
  function CentreId(nodes: seq<CanvasNode>): (c: string)
    requires |nodes| > 0
    ensures exists k :: 0 <= k < |nodes| && nodes[k].id == c
  {
    match FindIndex(IsCentreCandidate, nodes)
    case Some(k) => if nodes[k].id != "" then nodes[k].id else nodes[0].id
    case None => nodes[0].id
  }

  /** The centre is the first `input` node or node whose id mentions
      "gateway" in any case; when there is none, or its id is the falsy empty
      string, it is the first node. */
  lemma CentreChoice(nodes: seq<CanvasNode>)
    requires |nodes| > 0
    ensures forall k :: (0 <= k < |nodes| && IsCentreCandidate(nodes[k]) && nodes[k].id != ""
                         && (forall j :: 0 <= j < k ==> !IsCentreCandidate(nodes[j]))) ==> CentreId(nodes) == nodes[k].id
    ensures (forall k :: 0 <= k < |nodes| ==> !IsCentreCandidate(nodes[k])) ==> CentreId(nodes) == nodes[0].id
  {
    var f := FindIndex(IsCentreCandidate, nodes);
    if f.Some? {
      assert forall j :: 0 <= j < |nodes| && IsCentreCandidate(nodes[j]) ==> f.value <= j;
    }
  }

  /** The literal id test adds nothing: that id mentions "gateway". */
  lemma HomeforgeGatewayMentionsGateway()
    ensures Contains(ToLower("homeforge-gateway"), "gateway")
  {
    var s := "homeforge-gateway";
    assert s[10..17] == "gateway" by {
      assert |s[10..17]| == 7;
      assert s[10..17][0] == 'g' && s[10..17][1] == 'a' && s[10..17][2] == 't' && s[10..17][3] == 'e';
      assert s[10..17][4] == 'w' && s[10..17][5] == 'a' && s[10..17][6] == 'y';
    }
    ContainsAt(s, "gateway", 10);
    forall k | 0 <= k < |s| ensures ToLower(s)[k] == s[k] {
      assert !IsUpper(s[k]);
    }
    assert ToLower(s) == s;
  }

  // ---------------------------------------------------------------------------
  // Placing nodes and edges

  /** `startY + index * 180` with `startY = 0 - (n * 180) / 2 + 180 / 2`;
      the division is exact. */
  function SatelliteY(n: nat, i: nat): int
  {
    90 - 90 * n + 180 * i
  }

  /** Neighbouring devices are 180 apart and the column is centred on the
      gateway. */
  lemma SatelliteColumn(n: nat, i: nat)
    requires i < n
    ensures SatelliteY(n, i) + SatelliteY(n, n - 1 - i) == 0
    ensures i + 1 < n ==> SatelliteY(n, i + 1) - SatelliteY(n, i) == 180
  {
  }

  function Satellites(nodes: seq<CanvasNode>, c: string): (r: seq<CanvasNode>)
    ensures forall k :: 0 <= k < |r| ==> r[k].id != c && r[k] in nodes
    ensures forall k :: 0 <= k < |nodes| && nodes[k].id != c ==> nodes[k] in r
  {
    Filter((n: CanvasNode) => n.id != c, nodes)
  }

  /** The devices keep their input order. */
  lemma SatellitesInOrder(nodes: seq<CanvasNode>, c: string)
    ensures IsSubsequence(Satellites(nodes, c), nodes)
  {
    FilterIsSubsequence((n: CanvasNode) => n.id != c, nodes);
  }

  /** The centre becomes a gateway at (0, 0) labelled 'Gateway' unless it
      has a truthy label. */
  function PlaceCentre(n: CanvasNode, selection: set<string>): Placed
  {
    Placed(n.id, "gateway", n.data.(caption := Or(n.data.caption, Str("Gateway"))), 0, 0, n.id in selection)
  }

  function PlaceSatellite(n: CanvasNode, y: int, selection: set<string>): Placed
  {
    Placed(n.id, "device", n.data, 450, y, n.id in selection)
  }

  /** Green for an online device, red for one reporting 'offline', grey otherwise. */
  function Stroke(d: NodeData): (r: string)
    ensures IsOnline(d) ==> r == Green
    ensures !IsOnline(d) && d.status == Str("offline") ==> r == Red
    ensures !IsOnline(d) && d.status != Str("offline") ==> r == Grey
  {
    if IsOnline(d) then Green else if d.status == Str("offline") then Red else Grey
  }

  function SatelliteEdge(c: string, n: CanvasNode): CanvasEdge
  {
    CanvasEdge("edge-" + c + "-" + n.id, c, n.id, IsOnline(n.data), Stroke(n.data))
  }

  /** The spokes from the centre `c` to each device, in order. */
  function Spokes(c: string, sats: seq<CanvasNode>): (r: seq<CanvasEdge>)
    ensures |r| == |sats|
    ensures forall i :: 0 <= i < |sats| ==> r[i] == SatelliteEdge(c, sats[i])
  {
    seq(|sats|, i requires 0 <= i < |sats| => SatelliteEdge(c, sats[i]))
  }

  /** The devices' column, top to bottom. */
  function Column(sats: seq<CanvasNode>, selection: set<string>): (r: seq<Placed>)
    ensures |r| == |sats|
    ensures forall i :: 0 <= i < |sats| ==> r[i] == PlaceSatellite(sats[i], SatelliteY(|sats|, i), selection)
  {
    seq(|sats|, i requires 0 <= i < |sats| => PlaceSatellite(sats[i], SatelliteY(|sats|, i), selection))
  }

  /** The laid-out nodes: the centre (the first node with the centre's id),
      then the column of devices. */
  function LayoutNodes(nodes: seq<CanvasNode>, selection: set<string>): seq<Placed>
    requires |nodes| > 0
  {
    var c := CentreId(nodes);
    var sats := Satellites(nodes, c);
    match Find((n: CanvasNode) => n.id == c, nodes)
    case Some(n) => [PlaceCentre(n, selection)] + Column(sats, selection)
    case None => Column(sats, selection)
  }

  /** One edge from the centre to each device, in order; none when the
      centre's id is the empty string. */
  function LayoutEdges(nodes: seq<CanvasNode>): (r: seq<CanvasEdge>)
    requires |nodes| > 0
    ensures var c := CentreId(nodes); var sats := Satellites(nodes, c);
      (c == "" ==> r == [])
      && (c != "" ==> |r| == |sats| && forall i :: 0 <= i < |sats| ==>
            r[i].source == c && r[i].target == sats[i].id && r[i].id == "edge-" + c + "-" + sats[i].id
            && (r[i].animated <==> IsOnline(sats[i].data)) && r[i].stroke == Stroke(sats[i].data))
  {
    var c := CentreId(nodes);
    if c != "" then Spokes(c, Satellites(nodes, c)) else []
  }

  function Ids(nodes: seq<CanvasNode>): set<string> { set n | n in nodes :: n.id }

  function PlacedIds(nodes: seq<Placed>): set<string> { set n | n in nodes :: n.id }

  function SelectedIds(nodes: seq<Placed>): set<string> { set n | n in nodes && n.selected :: n.id }

  /** The centre is one of the input nodes, so it is always placed. */
  lemma CentrePlaced(nodes: seq<CanvasNode>, selection: set<string>)
    requires |nodes| > 0
    ensures var f := Find((n: CanvasNode) => n.id == CentreId(nodes), nodes);
      f.Some? && f.value in nodes && f.value.id == CentreId(nodes)
      && LayoutNodes(nodes, selection) == [PlaceCentre(f.value, selection)] + Column(Satellites(nodes, CentreId(nodes)), selection)
  {
    var c := CentreId(nodes);
    var k :| 0 <= k < |nodes| && nodes[k].id == c;
  }

  /** The centre comes first, at (0, 0) as the gateway; then every device in
      input order at x = 450 and its place in the column. */
  lemma LayoutShape(nodes: seq<CanvasNode>, selection: set<string>)
    requires |nodes| > 0
    ensures var sats := Satellites(nodes, CentreId(nodes)); var r := LayoutNodes(nodes, selection);
      |r| == |sats| + 1
      && r[0].id == CentreId(nodes) && r[0].kind == "gateway" && r[0].x == 0 && r[0].y == 0
      && (forall i :: 0 <= i < |sats| ==>
            (r[i + 1].id == sats[i].id && r[i + 1].kind == "device" && r[i + 1].x == 450 && r[i + 1].y == SatelliteY(|sats|, i)))
  {
    CentrePlaced(nodes, selection);
    var sats := Satellites(nodes, CentreId(nodes));
    var r := LayoutNodes(nodes, selection);
    var col := Column(sats, selection);
    forall i | 0 <= i < |sats|
      ensures r[i + 1] == PlaceSatellite(sats[i], SatelliteY(|sats|, i), selection)
    {
      assert r[i + 1] == col[i];
    }
  }

  lemma LayoutCoversIds(nodes: seq<CanvasNode>, selection: set<string>)
    requires |nodes| > 0
    ensures Ids(nodes) <= PlacedIds(LayoutNodes(nodes, selection))
  {
    var c := CentreId(nodes);
    var sats := Satellites(nodes, c);
    var r := LayoutNodes(nodes, selection);
    CentrePlaced(nodes, selection);
    forall x | x in Ids(nodes)
      ensures x in PlacedIds(r)
    {
      var n :| n in nodes && n.id == x;
      if x == c {
        assert r[0] in r;
      } else {
        assert n in sats;
        var i :| 0 <= i < |sats| && sats[i] == n;
        assert r[i + 1] in r;
      }
    }
  }

  /** The laid-out centre as one of the input nodes. */
  lemma CentreNode(nodes: seq<CanvasNode>, selection: set<string>) returns (f: CanvasNode)
    requires |nodes| > 0
    ensures f in nodes
    ensures LayoutNodes(nodes, selection) == [PlaceCentre(f, selection)] + Column(Satellites(nodes, CentreId(nodes)), selection)
  {
    CentrePlaced(nodes, selection);
    f := Find((n: CanvasNode) => n.id == CentreId(nodes), nodes).value;
  }

  /** Each node of the column is one of the inputs, selected exactly when
      its id was recorded. */
  lemma ColumnPlacesInputs(nodes: seq<CanvasNode>, sats: seq<CanvasNode>, selection: set<string>)
    requires forall i :: 0 <= i < |sats| ==> sats[i] in nodes
    ensures forall p :: p in Column(sats, selection) ==> p.id in Ids(nodes) && (p.selected <==> p.id in selection)
  {
    var col := Column(sats, selection);
    forall k | 0 <= k < |col|
      ensures col[k].id in Ids(nodes) && (col[k].selected <==> col[k].id in selection)
    {
      assert col[k].id == sats[k].id;
    }
  }

  lemma LayoutPlacesInputs(nodes: seq<CanvasNode>, selection: set<string>)
    requires |nodes| > 0
    ensures forall p :: p in LayoutNodes(nodes, selection) ==> p.id in Ids(nodes) && (p.selected <==> p.id in selection)
  {
    var sats := Satellites(nodes, CentreId(nodes));
    var f := CentreNode(nodes, selection);
    forall i | 0 <= i < |sats| ensures sats[i] in nodes {
      assert sats[i] in sats;
    }
    ColumnPlacesInputs(nodes, sats, selection);
    assert PlaceCentre(f, selection).id in Ids(nodes);
  }

  /** Every input id is laid out, none other, and a node is selected
      exactly when its id was recorded. */
  lemma LayoutKeepsIds(nodes: seq<CanvasNode>, selection: set<string>)
    requires |nodes| > 0
    ensures PlacedIds(LayoutNodes(nodes, selection)) == Ids(nodes)
    ensures SelectedIds(LayoutNodes(nodes, selection)) == selection * Ids(nodes)
  {
    var r := LayoutNodes(nodes, selection);
    LayoutCoversIds(nodes, selection);
    LayoutPlacesInputs(nodes, selection);
    forall x | x in selection * Ids(nodes)
      ensures x in SelectedIds(r)
    {
      var p :| p in r && p.id == x;
    }
  }

  /** The refresh's pass over the devices, pushing each node and, when the
      centre has an id, its edge. */
  method PushDevices(c: string, sats: seq<CanvasNode>, selection: set<string>) returns (column: seq<Placed>, links: seq<CanvasEdge>)
    ensures column == Column(sats, selection)
    ensures links == if c != "" then Spokes(c, sats) else []
  {
    column, links := [], [];
    var i := 0;
    while i < |sats|
      invariant 0 <= i <= |sats|
      invariant column == Column(sats, selection)[..i]
      invariant c != "" ==> links == Spokes(c, sats)[..i]
      invariant c == "" ==> links == []
    {
      assert Column(sats, selection)[..i + 1] == Column(sats, selection)[..i] + [Column(sats, selection)[i]];
      column := column + [PlaceSatellite(sats[i], SatelliteY(|sats|, i), selection)];
      if c != "" {
        assert Spokes(c, sats)[..i + 1] == Spokes(c, sats)[..i] + [Spokes(c, sats)[i]];
        links := links + [SatelliteEdge(c, sats[i])];
      }
      i := i + 1;
    }
    assert Column(sats, selection)[..i] == Column(sats, selection);
    assert Spokes(c, sats)[..i] == Spokes(c, sats);
  }

  /** The refresh's placement: the centre, then the devices and their edges. */
  method Place(initial: seq<CanvasNode>, selection: set<string>) returns (laidOut: seq<Placed>, links: seq<CanvasEdge>)
    requires |initial| > 0
    ensures laidOut == LayoutNodes(initial, selection) && links == LayoutEdges(initial)
  {
    var c := CentreId(initial);
    var centre := Find((n: CanvasNode) => n.id == c, initial);
    var sats := Satellites(initial, c);
    var column;
    column, links := PushDevices(c, sats, selection);
    laidOut := match centre case Some(n) => [PlaceCentre(n, selection)] + column case None => column;
  }

  // ---------------------------------------------------------------------------
  // The canvas

  class Canvas {
    var nodes: seq<Placed>
    var edges: seq<CanvasEdge>
    /** The ids recorded as selected. */
    var selection: set<string>

    constructor ()
      ensures nodes == [] && edges == [] && selection == {}
    {
      nodes, edges, selection := [], [], {};
    }

    /** The selection effect: rebuilt from the current nodes, but only when
        there are any. */
    method RecordSelection()
      modifies this`selection
      ensures |nodes| == 0 ==> selection == old(selection)
      ensures |nodes| > 0 ==> selection == SelectedIds(nodes)
    {
      if |nodes| > 0 {
        var s: set<string> := {};
        var i := 0;
        while i < |nodes|
          invariant 0 <= i <= |nodes|
          invariant s == SelectedIds(nodes[..i])
        {
          assert nodes[..i + 1] == nodes[..i] + [nodes[i]];
          if nodes[i].selected {
            s := s + {nodes[i].id};
          }
          i := i + 1;
        }
        assert nodes[..i] == nodes;
        selection := s;
      }
    }

    /** The user changed the nodes (selection included); the effect follows. */
    method NodesChanged(changed: seq<Placed>)
      modifies this`nodes, this`selection
      ensures nodes == changed
      ensures |changed| == 0 ==> selection == old(selection)
      ensures |changed| > 0 ==> selection == SelectedIds(changed)
    {
      nodes := changed;
      RecordSelection();
    }

    /** New input from the server. An empty input changes nothing; otherwise
        the centre and then each device is placed, with an edge to each
        device, and the selection effect runs on the new nodes, so every
        recorded id that is still present stays selected. */
    method Refresh(initial: seq<CanvasNode>)
      modifies this`nodes, this`edges, this`selection
      ensures |initial| == 0 ==> nodes == old(nodes) && edges == old(edges) && selection == old(selection)
      ensures |initial| > 0 ==> nodes == LayoutNodes(initial, old(selection)) && edges == LayoutEdges(initial)
      ensures |initial| > 0 ==> selection == old(selection) * Ids(initial)
    {
      if |initial| == 0 {
        return;
      }
      var laidOut, links := Place(initial, selection);
      LayoutKeepsIds(initial, selection);
      nodes := laidOut;
      edges := links;
      RecordSelection();
    }
  }
}
