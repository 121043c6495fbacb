/** The topology node used by the network canvas: which style a device gets
    from its type, whether it is the root, whether it is online, its handles
    and its label. */
module TopologyBuilderNode {
  import opened Seqs
  import opened Strings
  import opened JsValue

  /** The entries of the style table. */
  datatype Config =
    | Gateway | Server | Camera | Light | Sensor | Switch | Thermostat | Humidity
    | Computer | Mobile | Ap | Router | Laptop | Desktop | Tablet | Printer | Iot | Default

  /** A node's `data` as the node reads it. */
  datatype NodeData = NodeData(deviceType: Value, kind: Value, status: Value, isOnline: Value,
                               name: Value, caption: Value)

  // ---------------------------------------------------------------------------
  // The ordered rules, as a table

  /** A rule applies when the type contains one of its keywords. */
  datatype Rule = Rule(keywords: seq<string>, config: Config)

  predicate Matches(t: string, rule: Rule)
  {
    AnyOccurs(t, rule.keywords)
  }

  predicate AnyOccurs(t: string, words: seq<string>)
    decreases |words|
  {
    |words| > 0 && (Contains(t, words[0]) || AnyOccurs(t, words[1..]))
  }

  /** The configuration of the first rule from index `i` on that applies,
      or the default. */
  function FirstMatch(t: string, rules: seq<Rule>, i: nat): (r: Config)
    requires i <= |rules|
    ensures forall k :: (i <= k < |rules| && Matches(t, rules[k])
                         && (forall j :: i <= j < k ==> !Matches(t, rules[j]))) ==> r == rules[k].config
    ensures (forall k :: i <= k < |rules| ==> !Matches(t, rules[k])) ==> r == Default
    decreases |rules| - i
  {
    if i == |rules| then Default
    else if Matches(t, rules[i]) then rules[i].config
    else FirstMatch(t, rules, i + 1)
  }

  lemma MatchesOne(t: string, a: string, c: Config)
    ensures Matches(t, Rule([a], c)) <==> Contains(t, a)
  {
    assert [a][1..] == [];
    assert !AnyOccurs(t, []);
  }

  lemma MatchesTwo(t: string, a: string, b: string, c: Config)
    ensures Matches(t, Rule([a, b], c)) <==> Contains(t, a) || Contains(t, b)
  {
    assert [a, b][1..] == [b];
    MatchesOne(t, b, c);
  }

  lemma MatchesThree(t: string, a: string, b: string, d: string, c: Config)
    ensures Matches(t, Rule([a, b, d], c)) <==> Contains(t, a) || Contains(t, b) || Contains(t, d)
  {
    assert [a, b, d][1..] == [b, d];
    MatchesTwo(t, b, d, c);
  }

  lemma MatchesFour(t: string, a: string, b: string, d: string, e: string, c: Config)
    ensures Matches(t, Rule([a, b, d, e], c)) <==> Contains(t, a) || Contains(t, b) || Contains(t, d) || Contains(t, e)
  {
    assert [a, b, d, e][1..] == [b, d, e];
    MatchesThree(t, b, d, e, c);
  }

  /** The rules after the gateway test, in the order they are tried. */
  const Rules: seq<Rule> := [
    Rule(["server"], Server),
    Rule(["camera"], Camera),
    Rule(["light", "bulb"], Light),
    Rule(["sensor", "temp", "humid"], Sensor),
    Rule(["switch", "plug", "relay"], Switch),
    Rule(["wifi", "ap", "access point"], Ap),
    Rule(["router", "udm"], Router),
    Rule(["pc", "laptop", "desktop", "computer"], Computer),
    Rule(["phone", "mobile"], Mobile),
    Rule(["tablet"], Tablet),
    Rule(["printer"], Printer),
    Rule(["iot"], Iot)
  ]

  /** The gateway test on the lowercased type and id. */
  predicate GatewayTest(t: string, i: string)
  {
    Contains(t, "gateway") || Contains(i, "gateway") || t == "input"
  }

  // ---------------------------------------------------------------------------
  // resolveType

  /** The style for a type and id, both lowercased: the gateway test first,
      then the rules in order. The thermostat, humidity, laptop and desktop
      entries of the table are never chosen. */
  function ResolveType(kind: string, id: string): (r: Config)
    ensures r == Gateway <==> GatewayTest(ToLower(kind), ToLower(id))
    ensures !r.Thermostat? && !r.Humidity? && !r.Laptop? && !r.Desktop?
  {
    var t := ToLower(kind);
    var i := ToLower(id);
    if Contains(t, "gateway") || Contains(i, "gateway") || t == "input" then Gateway
    else KeywordType(t)
  }

  /** The keyword tests of `resolveType` up to the access point test. */
  function KeywordType(t: string): (r: Config)
    ensures r != Gateway && !r.Thermostat? && !r.Humidity? && !r.Laptop? && !r.Desktop?
  {
    if Contains(t, "server") then Server
    else if Contains(t, "camera") then Camera
    else if Contains(t, "light") || Contains(t, "bulb") then Light
    else if Contains(t, "sensor") || Contains(t, "temp") || Contains(t, "humid") then Sensor
    else if Contains(t, "switch") || Contains(t, "plug") || Contains(t, "relay") then Switch
    else if Contains(t, "wifi") || Contains(t, "ap") || Contains(t, "access point") then Ap
    else LaterKeywordType(t)
  }

  /** The remaining keyword tests, from the router test on. */
  function LaterKeywordType(t: string): (r: Config)
    ensures r != Gateway && !r.Thermostat? && !r.Humidity? && !r.Laptop? && !r.Desktop?
  {
    if Contains(t, "router") || Contains(t, "udm") then Router
    else if Contains(t, "pc") || Contains(t, "laptop") || Contains(t, "desktop") || Contains(t, "computer") then Computer
    else if Contains(t, "phone") || Contains(t, "mobile") then Mobile
    else if Contains(t, "tablet") then Tablet
    else if Contains(t, "printer") then Printer
    else if Contains(t, "iot") then Iot
    else Default
  }

  /** What each rule of the table tests, spelled out. */
  lemma RulesInOrder(t: string)
    ensures Matches(t, Rules[0]) <==> Contains(t, "server")
    ensures Matches(t, Rules[1]) <==> Contains(t, "camera")
    ensures Matches(t, Rules[2]) <==> Contains(t, "light") || Contains(t, "bulb")
    ensures Matches(t, Rules[3]) <==> Contains(t, "sensor") || Contains(t, "temp") || Contains(t, "humid")
    ensures Matches(t, Rules[4]) <==> Contains(t, "switch") || Contains(t, "plug") || Contains(t, "relay")
    ensures Matches(t, Rules[5]) <==> Contains(t, "wifi") || Contains(t, "ap") || Contains(t, "access point")
    ensures Matches(t, Rules[6]) <==> Contains(t, "router") || Contains(t, "udm")
    ensures Matches(t, Rules[7]) <==> Contains(t, "pc") || Contains(t, "laptop") || Contains(t, "desktop") || Contains(t, "computer")
    ensures Matches(t, Rules[8]) <==> Contains(t, "phone") || Contains(t, "mobile")
    ensures Matches(t, Rules[9]) <==> Contains(t, "tablet")
    ensures Matches(t, Rules[10]) <==> Contains(t, "printer")
    ensures Matches(t, Rules[11]) <==> Contains(t, "iot")
  {
    MatchesOne(t, "server", Server);
    MatchesOne(t, "camera", Camera);
    MatchesTwo(t, "light", "bulb", Light);
    MatchesThree(t, "sensor", "temp", "humid", Sensor);
    MatchesThree(t, "switch", "plug", "relay", Switch);
    MatchesThree(t, "wifi", "ap", "access point", Ap);
    MatchesTwo(t, "router", "udm", Router);
    MatchesFour(t, "pc", "laptop", "desktop", "computer", Computer);
    MatchesTwo(t, "phone", "mobile", Mobile);
    MatchesOne(t, "tablet", Tablet);
    MatchesOne(t, "printer", Printer);
    MatchesOne(t, "iot", Iot);
  }

  /** The later keyword tests read the table from its seventh rule on. */
  lemma {:induction false} LaterAgreesWithTable(t: string)
    ensures LaterKeywordType(t) == FirstMatch(t, Rules, 6)
  {
    RulesInOrder(t);
    assert FirstMatch(t, Rules, 6) == if Matches(t, Rules[6]) then Router else FirstMatch(t, Rules, 7);
    if !Matches(t, Rules[6]) {
      assert FirstMatch(t, Rules, 7) == if Matches(t, Rules[7]) then Computer else FirstMatch(t, Rules, 8);
      if !Matches(t, Rules[7]) {
        assert FirstMatch(t, Rules, 8) == if Matches(t, Rules[8]) then Mobile else FirstMatch(t, Rules, 9);
        if !Matches(t, Rules[8]) {
          assert FirstMatch(t, Rules, 9) == if Matches(t, Rules[9]) then Tablet else FirstMatch(t, Rules, 10);
          if !Matches(t, Rules[9]) {
            assert FirstMatch(t, Rules, 10) == if Matches(t, Rules[10]) then Printer else FirstMatch(t, Rules, 11);
            if !Matches(t, Rules[10]) {
              assert FirstMatch(t, Rules, 11) == if Matches(t, Rules[11]) then Iot else FirstMatch(t, Rules, 12);
            }
          }
        }
      }
    }
  }

  /** Past the first three rules, the keyword tests read the table from
      its fourth rule on. */
  lemma {:induction false} KeywordFromFourth(t: string)
    requires !Matches(t, Rules[0]) && !Matches(t, Rules[1]) && !Matches(t, Rules[2])
    ensures KeywordType(t) == FirstMatch(t, Rules, 3)
  {
    RulesInOrder(t);
    LaterAgreesWithTable(t);
    assert FirstMatch(t, Rules, 3) == if Matches(t, Rules[3]) then Sensor else FirstMatch(t, Rules, 4);
    if !Matches(t, Rules[3]) {
      assert FirstMatch(t, Rules, 4) == if Matches(t, Rules[4]) then Switch else FirstMatch(t, Rules, 5);
      if !Matches(t, Rules[4]) {
        assert FirstMatch(t, Rules, 5) == if Matches(t, Rules[5]) then Ap else FirstMatch(t, Rules, 6);
      }
    }
  }

  /** The keyword tests read the whole table, first match first. */
  lemma {:induction false} KeywordAgreesWithTable(t: string)
    ensures KeywordType(t) == FirstMatch(t, Rules, 0)
  {
    RulesInOrder(t);
    assert FirstMatch(t, Rules, 0) == if Matches(t, Rules[0]) then Server else FirstMatch(t, Rules, 1);
    if !Matches(t, Rules[0]) {
      assert FirstMatch(t, Rules, 1) == if Matches(t, Rules[1]) then Camera else FirstMatch(t, Rules, 2);
      if !Matches(t, Rules[1]) {
        assert FirstMatch(t, Rules, 2) == if Matches(t, Rules[2]) then Light else FirstMatch(t, Rules, 3);
        if !Matches(t, Rules[2]) {
          KeywordFromFourth(t);
        }
      }
    }
  }

  /** The if-chain of `resolveType` is the first-match reading of the rule
      table: past the gateway test, the first rule whose keyword occurs wins. */
  lemma ResolveAgreesWithTable(kind: string, id: string)
    requires !GatewayTest(ToLower(kind), ToLower(id))
    ensures ResolveType(kind, id) == FirstMatch(ToLower(kind), Rules, 0)
  {
    KeywordAgreesWithTable(ToLower(kind));
  }

  lemma LaptopContainsAp()
    ensures Contains("laptop", "ap")
  {
    var s := "laptop";
    assert s[1..3] == "ap" by {
      assert |s[1..3]| == 2 && s[1..3][0] == 'a' && s[1..3][1] == 'p';
    }
    ContainsAt(s, "ap", 1);
  }

  /** "laptop" contains "ap", so a laptop is drawn as an access point unless
      an earlier rule applies; the computer rule is never what decides it. */
  lemma LaptopIsAccessPoint(kind: string, id: string)
    requires Contains(ToLower(kind), "laptop")
    ensures ResolveType(kind, id) in {Gateway, Server, Camera, Light, Sensor, Switch, Ap}
  {
    LaptopContainsAp();
    ContainsTrans(ToLower(kind), "laptop", "ap");
  }

  /** Types mentioning humidity or temperature get the sensor style unless
      an earlier rule applies. */
  lemma HumidAndTempAreSensors(kind: string, id: string)
    requires Contains(ToLower(kind), "humid") || Contains(ToLower(kind), "temp")
    ensures ResolveType(kind, id) in {Gateway, Server, Camera, Light, Sensor}
  {
    RulesInOrder(ToLower(kind));
  }

  // ---------------------------------------------------------------------------
  // The node

  /** `data.device_type || data.type` as `resolveType` lowercases it: the
      parameter's default `''` stands in for `undefined` only; any other
      value that is not a string has no `toLowerCase`, so the render throws,
      which is `None` here. */
  function ClassifiedType(data: NodeData): (r: Option<string>)
    ensures r.None? <==> !Or(data.deviceType, data.kind).Str? && !Or(data.deviceType, data.kind).Undefined?
    ensures Or(data.deviceType, data.kind).Str? ==> r == Some(Or(data.deviceType, data.kind).s)
    ensures Or(data.deviceType, data.kind).Undefined? ==> r == Some("")
    ensures Truthy(data.deviceType) && data.deviceType.Str? ==> r == Some(data.deviceType.s)
  {
    match Or(data.deviceType, data.kind)
    case Str(s) => Some(s)
    case Undefined => Some("")
    case _ => None
  }

  /** A node whose device type is missing and whose type is `null` cannot be
      drawn: `null` is passed on, not replaced by the default. */
  lemma NullTypeThrows(data: NodeData)
    requires !Truthy(data.deviceType) && data.kind == Null
    ensures ClassifiedType(data).None?
  {
  }

  /** The root: an `input` node, a string device type mentioning "gateway"
      (case-sensitive), or an id mentioning "gateway" in any case. */
  predicate IsRoot(data: NodeData, id: string)
    ensures data.kind == Str("input") || Contains(ToLower(id), "gateway") ==> IsRoot(data, id)
    ensures !data.deviceType.Str? && data.kind != Str("input") ==> (IsRoot(data, id) <==> Contains(ToLower(id), "gateway"))
  {
    data.kind == Str("input")
    || (data.deviceType.Str? && Contains(data.deviceType.s, "gateway"))
    || Contains(ToLower(id), "gateway")
  }

  /** Online: the status is the string "online" or `is_online` is the
      boolean `true`; another truthy flag such as `1` does not count. */
  predicate IsOnline(data: NodeData)
    ensures IsOnline(data) ==> Truthy(data.status) || Truthy(data.isOnline)
    ensures data.status != Str("online") && data.isOnline.Num? ==> !IsOnline(data)
  {
    data.status == Str("online") || data.isOnline == Bool(true)
  }

  /** The root only sends (a source handle on the right); every other node
      only receives (a target handle on the left). */
  function Handles(data: NodeData, id: string): (r: (bool, bool))
    ensures r.0 <==> IsRoot(data, id)
    ensures r.1 <==> !IsRoot(data, id)
    ensures r.0 != r.1
  {
    (IsRoot(data, id), !IsRoot(data, id))
  }

  /** `data.name || data.label || id`. */
  function Label(data: NodeData, id: string): (r: Value)
    ensures Truthy(data.name) ==> r == data.name
    ensures !Truthy(data.name) && Truthy(data.caption) ==> r == data.caption
    ensures !Truthy(data.name) && !Truthy(data.caption) ==> r == Str(id)
  {
    Or(Or(data.name, data.caption), Str(id))
  }

  /** ASCII lowercasing keeps an occurrence of a lowercase word. */
  lemma ContainsLowered(s: string, w: string)
    requires Contains(s, w) && ToLower(w) == w
    ensures Contains(ToLower(s), w)
  {
    var i := ContainsOffset(s, w);
    assert ToLower(s)[i..i + |w|] == ToLower(s[i..i + |w|]);
    assert s[i..i + |w|] == w;
    ContainsAt(ToLower(s), w, i);
  }

  /** A root that can be drawn is drawn in the gateway style, except an
      `input` node whose truthy device type takes over the classification. A
      root by its type or its device type can always be drawn. */
  lemma RootHasGatewayStyle(data: NodeData, id: string)
    requires IsRoot(data, id)
    requires data.kind == Str("input") && !(data.deviceType.Str? && Contains(data.deviceType.s, "gateway")) ==>
      !Truthy(data.deviceType)
    ensures data.kind == Str("input") || (data.deviceType.Str? && Contains(data.deviceType.s, "gateway")) ==>
      ClassifiedType(data).Some?
    ensures ClassifiedType(data).Some? ==> ResolveType(ClassifiedType(data).value, id) == Gateway
  {
    assert ToLower("gateway") == "gateway";
    assert ToLower("input") == "input";
    if data.deviceType.Str? && Contains(data.deviceType.s, "gateway") {
      ContainsLowered(data.deviceType.s, "gateway");
    }
  }

  /** The two checks disagree on case: a device type "Gateway" gets the
      gateway style, which lowercases the type, but not the root's handle,
      which looks for "gateway" as written. */
  lemma CapitalGatewayStyledButNotRoot()
    ensures var data := NodeData(Str("Gateway"), Str("device"), Undefined, Undefined, Undefined, Undefined);
      ClassifiedType(data) == Some("Gateway") && ResolveType("Gateway", "node-1") == Gateway
      && !IsRoot(data, "node-1") && Handles(data, "node-1") == (false, true)
  {
    assert ToLower("Gateway") == "gateway";
    assert Contains("gateway", "gateway") by { ContainsAt("gateway", "gateway", 0); }
    var t := "Gateway";
    assert !StartsWith(t, "gateway") by { assert t[..7][0] == 'G'; }
    ShorterLacks(t[1..], "gateway");
    ShorterLacks(ToLower("node-1"), "gateway");
  }
}
