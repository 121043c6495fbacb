/** The card composer of the device builder: the list of widgets a device
    card shows, how it is edited, how it is checked before saving and how it
    is stored as a card template. Every edit builds a new widget list from
    the old one. */
module CardComposer {
  import opened Seqs
  import opened Strings
  import opened DeviceBuilder

  datatype WidgetType = Toggle | Slider

  /** A widget on the card. `min`, `max` and `step` are the slider settings;
      `None` stands for a key the widget object does not have. */
  datatype Widget = Widget(id: string, kind: WidgetType, caption: string, mapping: string,
                           min: Option<real>, max: Option<real>, step: Option<real>)

  /** A stored control; `None` stands for a missing or `null` value. */
  datatype Control = Control(widgetType: WidgetType, caption: string, mapping: string,
                             minValue: Option<real>, maxValue: Option<real>, step: Option<real>)

  datatype Template = Template(w: int, h: int, controls: seq<Control>)

  /** The partial updates the widget dialog makes. */
  datatype Update =
    | SetCaption(caption: string)
    | SetMapping(mapping: string)
    | SetMin(min: real)
    | SetMax(max: real)
    | SetStep(step: real)

  function OrDefault(v: Option<real>, d: real): real
  {
    match v
    case None => d
    case Some(x) => x
  }

  /** Sliders carry all three settings and toggles none. */
  predicate WellFormedWidget(w: Widget)
  {
    if w.kind == Slider then w.min.Some? && w.max.Some? && w.step.Some?
    else w.min.None? && w.max.None? && w.step.None?
  }

  predicate WellFormed(ws: seq<Widget>)
  {
    forall k :: 0 <= k < |ws| ==> WellFormedWidget(ws[k])
  }

  predicate WellFormedControl(c: Control)
  {
    if c.widgetType == Slider then c.minValue.Some? && c.maxValue.Some? && c.step.Some?
    else c.minValue.None? && c.maxValue.None? && c.step.None?
  }

  // ---------------------------------------------------------------------------
  // Loading a stored template

  function ConvertControl(c: Control, now: nat, index: nat): Widget
  {
    Widget("widget-" + NatToString(now) + "-" + NatToString(index), c.widgetType, c.caption, c.mapping,
           if c.widgetType == Slider then Some(OrDefault(c.minValue, 0.0)) else None,
           if c.widgetType == Slider then Some(OrDefault(c.maxValue, 100.0)) else None,
           if c.widgetType == Slider then Some(OrDefault(c.step, 1.0)) else None)
  }

  /** One widget per control, in order, with the control's type, label and
      mapping; a slider's missing bounds and step become 0, 100 and 1. */
  function ConvertControlsToWidgets(cs: seq<Control>, now: nat): (r: seq<Widget>)
    ensures |r| == |cs|
    ensures forall k :: 0 <= k < |cs| ==>
      r[k].kind == cs[k].widgetType && r[k].caption == cs[k].caption && r[k].mapping == cs[k].mapping
    ensures forall k :: 0 <= k < |cs| && cs[k].widgetType == Slider ==>
      r[k].min == Some(OrDefault(cs[k].minValue, 0.0)) && r[k].max == Some(OrDefault(cs[k].maxValue, 100.0))
      && r[k].step == Some(OrDefault(cs[k].step, 1.0))
    ensures WellFormed(r)
  {
    seq(|cs|, k requires 0 <= k < |cs| => ConvertControl(cs[k], now, k))
  }

  /** The starting widget list: the template's controls when it has some. */
  function InitialWidgets(controls: Option<seq<Control>>, now: nat): (r: seq<Widget>)
    ensures controls.None? || controls.value == [] ==> r == []
    ensures controls.Some? ==> |r| == |controls.value|
    ensures controls.Some? && controls.value != [] ==> r == ConvertControlsToWidgets(controls.value, now)
  {
    if controls.Some? && |controls.value| > 0 then ConvertControlsToWidgets(controls.value, now) else []
  }

  // ---------------------------------------------------------------------------
  // Editing

  /** Only nodes that are not the MCU can be mapped to a widget. */
  function MappableNodes(nodes: seq<Node>): (r: seq<Node>)
    ensures forall k :: 0 <= k < |r| ==> r[k] in nodes && r[k].kind != "mcu"
    ensures forall k :: 0 <= k < |nodes| && nodes[k].kind != "mcu" ==> nodes[k] in r
    ensures IsSubsequence(r, nodes)
  {
    FilterIsSubsequence((n: Node) => n.kind != "mcu", nodes);
    Filter((n: Node) => n.kind != "mcu", nodes)
  }

  function DefaultCaption(kind: WidgetType): string
  {
    match kind
    case Toggle => "Power"
    case Slider => "Level"
  }

  function NewWidget(kind: WidgetType, now: nat): Widget
  {
    Widget("widget-" + NatToString(now), kind, DefaultCaption(kind), "",
           if kind == Slider then Some(0.0) else None,
           if kind == Slider then Some(100.0) else None,
           if kind == Slider then Some(1.0) else None)
  }

  /** One new widget at the end, unmapped, labelled Power or Level; a new
      slider runs from 0 to 100 in steps of 1. */
  function AddWidget(ws: seq<Widget>, kind: WidgetType, now: nat): (r: seq<Widget>)
    ensures |r| == |ws| + 1 && r[..|ws|] == ws
    ensures r[|ws|].kind == kind && r[|ws|].mapping == ""
    ensures kind == Toggle ==> r[|ws|].caption == "Power"
    ensures kind == Slider ==>
      (r[|ws|].caption == "Level" && r[|ws|].min == Some(0.0) && r[|ws|].max == Some(100.0) && r[|ws|].step == Some(1.0))
    ensures WellFormed(ws) ==> WellFormed(r)
  {
    ws + [NewWidget(kind, now)]
  }

  /** `{...w, ...updates}`. The dialog sets the slider fields only on sliders. */
  function ApplyUpdate(w: Widget, u: Update): Widget
  {
    match u
    case SetCaption(c) => w.(caption := c)
    case SetMapping(m) => w.(mapping := m)
    case SetMin(x) => w.(min := Some(x))
    case SetMax(x) => w.(max := Some(x))
    case SetStep(x) => w.(step := Some(x))
  }

  predicate UpdateFits(w: Widget, u: Update)
  {
    (u.SetMin? || u.SetMax? || u.SetStep?) ==> w.kind == Slider
  }

  /** Only the widgets with the given id change, and only in the updated field. */
  function UpdateWidget(ws: seq<Widget>, id: string, u: Update): (r: seq<Widget>)
    ensures |r| == |ws|
    ensures forall k :: 0 <= k < |ws| && ws[k].id != id ==> r[k] == ws[k]
    ensures forall k :: 0 <= k < |ws| && ws[k].id == id ==> r[k] == ApplyUpdate(ws[k], u)
    ensures WellFormed(ws) && (forall k :: 0 <= k < |ws| && ws[k].id == id ==> UpdateFits(ws[k], u))
            ==> WellFormed(r)
  {
    Map((w: Widget) => if w.id == id then ApplyUpdate(w, u) else w, ws)
  }

  /** The widgets with another id, in order; the selection is cleared when
      it was the removed widget. */
  function RemoveWidget(ws: seq<Widget>, selected: Option<string>, id: string): (r: (seq<Widget>, Option<string>))
    ensures forall k :: 0 <= k < |r.0| ==> r.0[k] in ws && r.0[k].id != id
    ensures forall k :: 0 <= k < |ws| && ws[k].id != id ==> ws[k] in r.0
    ensures IsSubsequence(r.0, ws)
    ensures r.1 == if selected == Some(id) then None else selected
    ensures WellFormed(ws) ==> WellFormed(r.0)
  {
    var keep := (w: Widget) => w.id != id;
    FilterIsSubsequence(keep, ws);
    (Filter(keep, ws), if selected == Some(id) then None else selected)
  }

  // ---------------------------------------------------------------------------
  // Saving

  datatype SaveResult = Rejected(message: string) | Saved(template: Template)

  const UnmappedMessage := "All widgets must be mapped to a variable."
  const MissingPrefix := "You must add widgets for the following output components: "

  function ToControl(w: Widget): Control
  {
    if w.kind == Slider then Control(w.kind, w.caption, w.mapping, w.min, w.max, w.step)
    else Control(w.kind, w.caption, w.mapping, None, None, None)
  }

  /** One control per widget, in order; only sliders carry bounds and step. */
  function ToControls(ws: seq<Widget>): (r: seq<Control>)
    ensures |r| == |ws|
    ensures forall k :: 0 <= k < |ws| ==>
      r[k].widgetType == ws[k].kind && r[k].caption == ws[k].caption && r[k].mapping == ws[k].mapping
    ensures forall k :: 0 <= k < |ws| ==>
      (ws[k].kind == Slider ==> r[k].minValue == ws[k].min && r[k].maxValue == ws[k].max && r[k].step == ws[k].step)
      && (ws[k].kind == Toggle ==> r[k].minValue.None? && r[k].maxValue.None? && r[k].step.None?)
  {
    Map(ToControl, ws)
  }

  function Mappings(ws: seq<Widget>): set<string> { set w | w in ws :: w.mapping }

  /** The output components (switches) no widget is mapped to. */
  function MissingOutputs(nodes: seq<Node>, ws: seq<Widget>): (r: seq<Node>)
    ensures forall k :: 0 <= k < |r| ==> r[k] in nodes && r[k].kind == "switch" && r[k].id !in Mappings(ws)
    ensures forall k :: 0 <= k < |nodes| && nodes[k].kind == "switch" && nodes[k].id !in Mappings(ws) ==> nodes[k] in r
  {
    Filter((n: Node) => n.kind == "switch" && n.id !in Mappings(ws), nodes)
  }

  function Captions(ns: seq<Node>): seq<string> { Map((n: Node) => n.caption, ns) }

  /** Every widget must be mapped and every switch must have a widget;
      the template is two columns wide and one row per widget. */
  function HandleSave(nodes: seq<Node>, ws: seq<Widget>): (r: SaveResult)
    ensures (exists k :: 0 <= k < |ws| && ws[k].mapping == "") ==> r == Rejected(UnmappedMessage)
    ensures r.Saved? <==> (forall k :: 0 <= k < |ws| ==> ws[k].mapping != "")
                          && (forall k :: 0 <= k < |nodes| && nodes[k].kind == "switch" ==>
                                exists j :: 0 <= j < |ws| && ws[j].mapping == nodes[k].id)
    ensures r.Saved? ==> r.template == Template(2, |ws|, ToControls(ws))
  {
    var unmapped := Filter((w: Widget) => w.mapping == "", ws);
    if |unmapped| > 0 then
      assert unmapped[0] in ws;
      Rejected(UnmappedMessage)
    else
      var missing := MissingOutputs(nodes, ws);
      if |missing| > 0 then
        assert missing[0] in nodes;
        Rejected(MissingPrefix + Join(Captions(missing), ", "))
      else
        assert forall k :: 0 <= k < |nodes| && nodes[k].kind == "switch" ==> nodes[k].id in Mappings(ws);
        Saved(Template(2, |ws|, ToControls(ws)))
  }

  // ---------------------------------------------------------------------------
  // Round trips

  /** A well-formed control list survives loading and saving unchanged. */
  lemma ConvertRoundTrip(cs: seq<Control>, now: nat)
    requires forall k :: 0 <= k < |cs| ==> WellFormedControl(cs[k])
    ensures ToControls(ConvertControlsToWidgets(cs, now)) == cs
  {
    var r := ToControls(ConvertControlsToWidgets(cs, now));
    forall k | 0 <= k < |cs| ensures r[k] == cs[k] {
      assert WellFormedControl(cs[k]);
    }
  }

  /** Saving, loading what was saved and saving again stores the same controls. */
  lemma SaveLoadSave(ws: seq<Widget>, now: nat)
    requires WellFormed(ws)
    ensures ToControls(ConvertControlsToWidgets(ToControls(ws), now)) == ToControls(ws)
  {
    var cs := ToControls(ws);
    forall k | 0 <= k < |cs| ensures WellFormedControl(cs[k]) {
      assert WellFormedWidget(ws[k]);
    }
    ConvertRoundTrip(cs, now);
  }

  /** Whether a widget list passes the checks depends only on its mappings. */
  lemma SameMappingsSameVerdict(nodes: seq<Node>, a: seq<Widget>, b: seq<Widget>)
    requires |a| == |b| && forall k :: 0 <= k < |a| ==> a[k].mapping == b[k].mapping
    requires HandleSave(nodes, a).Saved?
    ensures HandleSave(nodes, b).Saved?
  {
    forall k | 0 <= k < |nodes| && nodes[k].kind == "switch"
      ensures exists j :: 0 <= j < |b| && b[j].mapping == nodes[k].id
    {
      var j :| 0 <= j < |a| && a[j].mapping == nodes[k].id;
      assert b[j].mapping == nodes[k].id;
    }
  }

  /** A loaded widget list keeps the saved controls' mappings, so a template
      that passed the checks passes them again after loading. */
  lemma LoadedTemplateSavesAgain(nodes: seq<Node>, ws: seq<Widget>, now: nat)
    requires WellFormed(ws) && HandleSave(nodes, ws).Saved?
    ensures HandleSave(nodes, ConvertControlsToWidgets(ToControls(ws), now))
            == HandleSave(nodes, ws)
  {
    var loaded := ConvertControlsToWidgets(ToControls(ws), now);
    SaveLoadSave(ws, now);
    SameMappingsSameVerdict(nodes, ws, loaded);
  }
}
