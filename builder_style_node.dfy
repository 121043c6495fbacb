/** The builder-style topology node: a variant of the topology node with a
    shorter rule table, handles shown by selection and connection, and the
    label without the name. Root and online detection are the topology
    node's own. */
module BuilderStyleNode {
  import opened Seqs
  import opened Strings
  import opened JsValue
  import opened TopologyBuilderNode

  /** This variant's rules: the first seven are the topology node's, its
      computer rule also knows "mac", and nothing follows the mobile rule. */
  const VariantRules: seq<Rule> := [
    Rule(["server"], Server),
    Rule(["camera"], Camera),
    Rule(["light", "bulb"], Light),
    Rule(["sensor", "temp", "humid"], Sensor),
    Rule(["switch", "plug", "relay"], Switch),
    Rule(["wifi", "ap", "access point"], Ap),
    Rule(["router", "udm"], Router),
    Rule(["pc", "laptop", "mac", "desktop"], Computer),
    Rule(["phone", "mobile"], Mobile)
  ]

  /** The style for a type and id in this variant. No type gets the tablet,
      printer, IoT, thermostat, humidity, laptop or desktop style. */
  function ResolveVariant(kind: string, id: string): (r: Config)
    ensures r == Gateway <==> GatewayTest(ToLower(kind), ToLower(id))
    ensures r in {Gateway, Server, Camera, Light, Sensor, Switch, Ap, Router, Computer, Mobile, Default}
  {
    var t := ToLower(kind);
    var i := ToLower(id);
    if Contains(t, "gateway") || Contains(i, "gateway") || t == "input" then Gateway
    else if Contains(t, "server") then Server
    else if Contains(t, "camera") then Camera
    else if Contains(t, "light") || Contains(t, "bulb") then Light
    else if Contains(t, "sensor") || Contains(t, "temp") || Contains(t, "humid") then Sensor
    else if Contains(t, "switch") || Contains(t, "plug") || Contains(t, "relay") then Switch
    else if Contains(t, "wifi") || Contains(t, "ap") || Contains(t, "access point") then Ap
    else if Contains(t, "router") || Contains(t, "udm") then Router
    else if Contains(t, "pc") || Contains(t, "laptop") || Contains(t, "mac") || Contains(t, "desktop") then Computer
    else if Contains(t, "phone") || Contains(t, "mobile") then Mobile
    else Default
  }

  lemma VariantRulesInOrder(t: string)
    ensures Matches(t, VariantRules[0]) <==> Contains(t, "server")
    ensures Matches(t, VariantRules[1]) <==> Contains(t, "camera")
    ensures Matches(t, VariantRules[2]) <==> Contains(t, "light") || Contains(t, "bulb")
    ensures Matches(t, VariantRules[3]) <==> Contains(t, "sensor") || Contains(t, "temp") || Contains(t, "humid")
    ensures Matches(t, VariantRules[4]) <==> Contains(t, "switch") || Contains(t, "plug") || Contains(t, "relay")
    ensures Matches(t, VariantRules[5]) <==> Contains(t, "wifi") || Contains(t, "ap") || Contains(t, "access point")
    ensures Matches(t, VariantRules[6]) <==> Contains(t, "router") || Contains(t, "udm")
    ensures Matches(t, VariantRules[7]) <==> Contains(t, "pc") || Contains(t, "laptop") || Contains(t, "mac") || Contains(t, "desktop")
    ensures Matches(t, VariantRules[8]) <==> Contains(t, "phone") || Contains(t, "mobile")
  {
    MatchesOne(t, "server", Server);
    MatchesOne(t, "camera", Camera);
    MatchesTwo(t, "light", "bulb", Light);
    MatchesThree(t, "sensor", "temp", "humid", Sensor);
    MatchesThree(t, "switch", "plug", "relay", Switch);
    MatchesThree(t, "wifi", "ap", "access point", Ap);
    MatchesTwo(t, "router", "udm", Router);
    MatchesFour(t, "pc", "laptop", "mac", "desktop", Computer);
    MatchesTwo(t, "phone", "mobile", Mobile);
  }

  /** The variant's if-chain is the first-match reading of its table. */
  lemma {:induction false} VariantAgreesWithTable(kind: string, id: string)
    requires !GatewayTest(ToLower(kind), ToLower(id))
    ensures ResolveVariant(kind, id) == FirstMatch(ToLower(kind), VariantRules, 0)
  {
    var t := ToLower(kind);
    VariantRulesInOrder(t);
    var rs := VariantRules;
    assert FirstMatch(t, rs, 0) == if Matches(t, rs[0]) then Server else FirstMatch(t, rs, 1);
    if !Matches(t, rs[0]) {
      assert FirstMatch(t, rs, 1) == if Matches(t, rs[1]) then Camera else FirstMatch(t, rs, 2);
      if !Matches(t, rs[1]) {
        assert FirstMatch(t, rs, 2) == if Matches(t, rs[2]) then Light else FirstMatch(t, rs, 3);
        if !Matches(t, rs[2]) {
          assert FirstMatch(t, rs, 3) == if Matches(t, rs[3]) then Sensor else FirstMatch(t, rs, 4);
          if !Matches(t, rs[3]) {
            assert FirstMatch(t, rs, 4) == if Matches(t, rs[4]) then Switch else FirstMatch(t, rs, 5);
            if !Matches(t, rs[4]) {
              assert FirstMatch(t, rs, 5) == if Matches(t, rs[5]) then Ap else FirstMatch(t, rs, 6);
              if !Matches(t, rs[5]) {
                assert FirstMatch(t, rs, 6) == if Matches(t, rs[6]) then Router else FirstMatch(t, rs, 7);
                if !Matches(t, rs[6]) {
                  assert FirstMatch(t, rs, 7) == if Matches(t, rs[7]) then Computer else FirstMatch(t, rs, 8);
                  if !Matches(t, rs[7]) {
                    assert FirstMatch(t, rs, 8) == if Matches(t, rs[8]) then Mobile else FirstMatch(t, rs, 9);
                  }
                }
              }
            }
          }
        }
      }
    }
  }

  /** The two tables agree wherever the topology node's choice is made by
      one of the seven rules they share. */
  lemma VariantAgreesOnSharedRules(kind: string, id: string)
    requires ResolveType(kind, id) in {Gateway, Server, Camera, Light, Sensor, Switch, Ap, Router}
    ensures ResolveVariant(kind, id) == ResolveType(kind, id)
  {
  }

  /** Where the topology node picks the tablet, printer or IoT style this
      variant has no rule: the type falls to the default, or to the
      computer style when it mentions "mac". */
  lemma NoTabletPrinterIotRules(kind: string, id: string)
    requires ResolveType(kind, id) in {Tablet, Printer, Iot}
    ensures ResolveVariant(kind, id) == if Contains(ToLower(kind), "mac") then Computer else Default
  {
  }

  /** A laptop is an access point here as well. */
  lemma LaptopIsAccessPointToo(kind: string, id: string)
    requires Contains(ToLower(kind), "laptop")
    ensures ResolveVariant(kind, id) in {Gateway, Server, Camera, Light, Sensor, Switch, Ap}
  {
    LaptopContainsAp();
    ContainsTrans(ToLower(kind), "laptop", "ap");
  }

  // ---------------------------------------------------------------------------
  // Handles and label

  /** An edge of the canvas, by its endpoints. */
  datatype Link = Link(source: string, target: string)

  /** The top (source) handle shows when the node is selected or sends some
      edge; the bottom (target) handle when it is selected or receives one. */
  function HandlesShown(id: string, selected: bool, edges: seq<Link>): (r: (bool, bool))
    ensures r.0 <==> selected || exists k :: 0 <= k < |edges| && edges[k].source == id
    ensures r.1 <==> selected || exists k :: 0 <= k < |edges| && edges[k].target == id
  {
    (selected || exists e :: e in edges && e.source == id,
     selected || exists e :: e in edges && e.target == id)
  }

  /** Adding an edge never hides a handle. */
  lemma HandlesMonotone(id: string, selected: bool, edges: seq<Link>, e: Link)
    ensures HandlesShown(id, selected, edges).0 ==> HandlesShown(id, selected, edges + [e]).0
    ensures HandlesShown(id, selected, edges).1 ==> HandlesShown(id, selected, edges + [e]).1
  {
    if HandlesShown(id, selected, edges).0 && !selected {
      var k :| 0 <= k < |edges| && edges[k].source == id;
      assert (edges + [e])[k] == edges[k];
    }
    if HandlesShown(id, selected, edges).1 && !selected {
      var k :| 0 <= k < |edges| && edges[k].target == id;
      assert (edges + [e])[k] == edges[k];
    }
  }

  /** `data.label || id`. */
  function VariantLabel(data: NodeData, id: string): (r: Value)
    ensures Truthy(data.caption) ==> r == data.caption
    ensures !Truthy(data.caption) ==> r == Str(id)
  {
    Or(data.caption, Str(id))
  }
}
