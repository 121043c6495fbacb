/** The device-types page: the sensor and action lists typed as
    comma-separated text, and the name guards of its create and update
    handlers. */
module DeviceTypesPage {
  import opened Seqs
  import opened Strings

  /** An entry the parser can produce: non-empty, unpadded, comma-free. */
  predicate IsEntry(x: string) { x != "" && IsTrimmed(x) && ',' !in x }

  /** `text.split(",").map(s => s.trim()).filter(Boolean)`. */
  function ParseList(text: string): (r: seq<string>)
    ensures forall k :: 0 <= k < |r| ==> IsEntry(r[k])
  {
    var pieces := Map(Trim, Split(text, ','));
    assert forall k :: 0 <= k < |pieces| ==> IsTrimmed(pieces[k]) && ',' !in pieces[k] by {
      forall k | 0 <= k < |pieces|
        ensures IsTrimmed(pieces[k]) && ',' !in pieces[k]
      {
        TrimIsTrimmed(Split(text, ',')[k]);
      }
    }
    Filter((x: string) => x != "", pieces)
  }

  /** The text the edit dialog shows for a stored list; a missing list shows
      as the empty string. */
  function ShowList(stored: Option<seq<string>>): (r: string)
    ensures stored.None? ==> r == ""
    ensures stored.Some? ==> r == Join(stored.value, ", ")
  {
    match stored
    case Some(xs) => Join(xs, ", ")
    case None => ""
  }

  /** The pieces between the commas of a list joined with ", ": every entry
      but the first carries the space. */
  function Padded(xs: seq<string>): (r: seq<string>)
    ensures |r| == |xs|
    ensures forall k :: 0 <= k < |xs| ==> r[k] == if k == 0 then xs[k] else " " + xs[k]
  {
    seq(|xs|, k requires 0 <= k < |xs| => if k == 0 then xs[k] else " " + xs[k])
  }

  lemma JoinPaddedHead(a: string, rest: seq<string>)
    ensures Join([" " + a] + rest, ",") == " " + Join([a] + rest, ",")
  {
    if |rest| > 0 {
      assert ([" " + a] + rest)[1..] == rest;
      assert ([a] + rest)[1..] == rest;
    }
  }

  /** Joining with ", " is joining the padded pieces with ",". */
  lemma {:induction false} JoinCommaSpace(xs: seq<string>)
    requires |xs| >= 1
    ensures Join(xs, ", ") == Join(Padded(xs), ",")
    decreases |xs|
  {
    if |xs| > 1 {
      JoinCommaSpace(xs[1..]);
      var p := Padded(xs);
      var q := Padded(xs[1..]);
      assert p[1..] == [" " + xs[1]] + q[1..];
      assert q == [xs[1]] + q[1..];
      JoinPaddedHead(xs[1], q[1..]);
    }
  }

  lemma PadEntry(x: string)
    requires IsEntry(x)
    ensures ',' !in " " + x && Trim(" " + x) == x
  {
    assert " " + x == [' '] + x;
    TrimLeadingSpace(' ', x);
    TrimOfTrimmed(x);
  }

  /** The padded pieces hold no comma and trim back to the entries. */
  lemma PaddedEntries(xs: seq<string>)
    requires forall k :: 0 <= k < |xs| ==> IsEntry(xs[k])
    ensures forall k :: 0 <= k < |xs| ==> ',' !in Padded(xs)[k]
    ensures Map(Trim, Padded(xs)) == xs
  {
    var padded := Padded(xs);
    var trimmed := Map(Trim, padded);
    forall k | 0 <= k < |xs|
      ensures ',' !in padded[k] && trimmed[k] == xs[k]
    {
      if k == 0 {
        TrimOfTrimmed(xs[k]);
      } else {
        PadEntry(xs[k]);
      }
    }
  }

  /** The dialog's text parses back to the stored list, whenever the stored
      entries are ones the parser could have produced. */
  lemma ParseShowRoundTrip(xs: seq<string>)
    requires forall k :: 0 <= k < |xs| ==> IsEntry(xs[k])
    ensures ParseList(ShowList(Some(xs))) == xs
  {
    var nonEmpty := (x: string) => x != "";
    var text := ShowList(Some(xs));
    if |xs| == 0 {
      assert text == "";
      assert Split(text, ',') == [""];
      assert Map(Trim, Split(text, ',')) == [""];
      assert Filter(nonEmpty, [""]) == [];
    } else {
      var padded := Padded(xs);
      JoinCommaSpace(xs);
      assert text == Join(padded, ",");
      PaddedEntries(xs);
      SplitJoin(padded, ',');
      assert Split(text, ',') == padded;
      FilterAll(nonEmpty, xs);
    }
    assert ParseList(text) == Filter(nonEmpty, Map(Trim, Split(text, ',')));
  }

  /** Parsing normalises: the shown form of a parsed list parses to the same
      list. */
  lemma ParseIdempotent(text: string)
    ensures ParseList(ShowList(Some(ParseList(text)))) == ParseList(text)
  {
    ParseShowRoundTrip(ParseList(text));
  }

  // ---------------------------------------------------------------------------
  // Handlers

  /** The form fields as typed. */
  datatype Form = Form(name: string, description: string, sensors: string, actions: string)

  /** What a handler does: refuse with a message, or send the type. The name
      and description are sent as typed; only the lists are parsed. */
  datatype Outcome =
    | Refused(message: string)
    | Create(name: string, description: string, sensors: seq<string>, actions: seq<string>)
    | Update(id: int, name: string, description: string, sensors: seq<string>, actions: seq<string>)

  const NameRequired := "Device type name is required"

  /** The create handler: refused exactly when the name is blank. */
  function AddDeviceType(f: Form): (r: Outcome)
    ensures r.Refused? <==> Blank(f.name)
    ensures r.Refused? ==> r.message == NameRequired
    ensures r.Create? ==> r == Create(f.name, f.description, ParseList(f.sensors), ParseList(f.actions))
  {
    TrimEmptyIffBlank(f.name);
    if Trim(f.name) == "" then Refused(NameRequired)
    else Create(f.name, f.description, ParseList(f.sensors), ParseList(f.actions))
  }

  /** The update handler: refused when there is no type being edited or the
      name is blank; otherwise the edited type's id goes with the form. */
  function EditDeviceType(editing: Option<int>, f: Form): (r: Outcome)
    ensures r.Refused? <==> editing.None? || Blank(f.name)
    ensures r.Refused? ==> r.message == NameRequired
    ensures r.Update? ==> r == Update(editing.value, f.name, f.description, ParseList(f.sensors), ParseList(f.actions))
  {
    TrimEmptyIffBlank(f.name);
    if editing.None? || Trim(f.name) == "" then Refused(NameRequired)
    else Update(editing.value, f.name, f.description, ParseList(f.sensors), ParseList(f.actions))
  }

  /** A stored device type: the lists are optional in its schema. */
  datatype DeviceType = DeviceType(id: int, name: string, description: string,
                                   sensors: Option<seq<string>>, actions: Option<seq<string>>)

  /** Opening the edit dialog: the type becomes the target and its fields
      fill the form. */
  function OpenEditDialog(t: DeviceType): (r: (Option<int>, Form))
    ensures r.0 == Some(t.id)
    ensures r.1 == Form(t.name, t.description, ShowList(t.sensors), ShowList(t.actions))
  {
    (Some(t.id), Form(t.name, t.description, ShowList(t.sensors), ShowList(t.actions)))
  }

  /** Saving a dialog nobody touched sends the type back as stored: a missing
      list comes back empty and a present one unchanged. */
  lemma UntouchedEditKeepsType(t: DeviceType)
    requires !Blank(t.name)
    requires t.sensors.Some? ==> forall k :: 0 <= k < |t.sensors.value| ==> IsEntry(t.sensors.value[k])
    requires t.actions.Some? ==> forall k :: 0 <= k < |t.actions.value| ==> IsEntry(t.actions.value[k])
    ensures var (editing, f) := OpenEditDialog(t);
      EditDeviceType(editing, f)
        == Update(t.id, t.name, t.description,
                  if t.sensors.Some? then t.sensors.value else [],
                  if t.actions.Some? then t.actions.value else [])
  {
    if t.sensors.Some? {
      ParseShowRoundTrip(t.sensors.value);
    } else {
      ParseShowRoundTrip([]);
    }
    if t.actions.Some? {
      ParseShowRoundTrip(t.actions.value);
    } else {
      ParseShowRoundTrip([]);
    }
  }
}
