/** The add-device dialog: the approved types it offers, its three-step
    wizard, the initial device state it derives from a type's structure, and
    the registration it sends. */
module AddDeviceDialog {
  import opened Seqs
  import opened Strings
  import opened JsValue
  import opened Structure

  /** A device's `current_state`: variable name to value. */
  type State = map<string, Value>

  /** Only approved types are offered. */
  function ApprovedTypes(types: seq<DeviceType>): (r: seq<DeviceType>)
    ensures forall k :: 0 <= k < |r| ==> r[k] in types && r[k].approved
    ensures forall k :: 0 <= k < |types| && types[k].approved ==> types[k] in r
    ensures IsSubsequence(r, types)
  {
    FilterIsSubsequence((t: DeviceType) => t.approved, types);
    Filter((t: DeviceType) => t.approved, types)
  }

  // ---------------------------------------------------------------------------
  // Initial state

  /** Relays and motion sensors start off; every other component at 0. */
  function InitialValue(kind: string): (v: Value)
    ensures kind == "switch" || kind == "motion" ==> v == Bool(false)
    ensures kind != "switch" && kind != "motion" ==> v == Num(0.0)
  {
    if kind == "switch" then Bool(false)
    else if kind == "temperature" || kind == "humidity" || kind == "light" then Num(0.0)
    else if kind == "motion" then Bool(false)
    else Num(0.0)
  }

  /** The state after the entries of `s` have been visited in order: the
      MCU is skipped and a later entry overrides an earlier one's id. */
  function InitialState(s: seq<Entry>): State
    decreases |s|
  {
    if |s| == 0 then map[]
    else
      var prev := InitialState(s[..|s| - 1]);
      var e := s[|s| - 1];
      if e.kind != "mcu" then prev[e.id := InitialValue(e.kind)] else prev
  }

  function NonMcuIds(s: seq<Entry>): set<string> { set e | e in s && e.kind != "mcu" :: e.id }

  /** The state's keys are exactly the ids of the components that are not
      the MCU, and every value is `false` or `0`. */
  lemma {:induction false} InitialStateKeys(s: seq<Entry>)
    ensures InitialState(s).Keys == NonMcuIds(s)
    ensures forall x :: x in InitialState(s) ==> InitialState(s)[x] == Bool(false) || InitialState(s)[x] == Num(0.0)
    decreases |s|
  {
    if |s| > 0 {
      var init := s[..|s| - 1];
      InitialStateKeys(init);
      assert s == init + [s[|s| - 1]];
      assert NonMcuIds(s) == NonMcuIds(init) + (if s[|s| - 1].kind != "mcu" then {s[|s| - 1].id} else {});
    }
  }

  /** With distinct ids, each component starts at its type's value. */
  lemma {:induction false} InitialStateValues(s: seq<Entry>, k: nat)
    requires k < |s| && s[k].kind != "mcu"
    requires forall i, j :: 0 <= i < j < |s| ==> s[i].id != s[j].id
    ensures s[k].id in InitialState(s) && InitialState(s)[s[k].id] == InitialValue(s[k].kind)
    decreases |s|
  {
    var init := s[..|s| - 1];
    if k < |s| - 1 {
      InitialStateValues(init, k);
      assert s[|s| - 1].id != s[k].id;
    }
  }

  /** The source's loop over the structure, assigning one key per component. */
  method GenerateInitialState(structure: Option<seq<Entry>>) returns (state: State)
    ensures structure.None? ==> state == map[]
    ensures structure.Some? ==> state == InitialState(structure.value)
  {
    state := map[];
    var s := match structure case None => [] case Some(s) => s;
    var i := 0;
    while i < |s|
      invariant 0 <= i <= |s|
      invariant state == InitialState(s[..i])
    {
      var e := s[i];
      assert s[..i + 1][..i] == s[..i];
      if e.kind != "mcu" {
        if e.kind == "switch" {
          state := state[e.id := Bool(false)];
        } else if e.kind == "temperature" {
          state := state[e.id := Num(0.0)];
        } else if e.kind == "humidity" {
          state := state[e.id := Num(0.0)];
        } else if e.kind == "light" {
          state := state[e.id := Num(0.0)];
        } else if e.kind == "motion" {
          state := state[e.id := Bool(false)];
        } else if e.kind == "co2" {
          state := state[e.id := Num(0.0)];
        } else {
          state := state[e.id := Num(0.0)];
        }
      }
      i := i + 1;
    }
    assert s[..i] == s;
  }

  // ---------------------------------------------------------------------------
  // The wizard

  datatype Form = Form(typeId: string, roomId: string, name: string, ipAddress: string, icon: string)

  const EmptyForm := Form("", "", "", "", "")

  datatype Dialog = Dialog(open: bool, step: int, form: Form)

  const NeedType := "Please select a device type"
  const NeedRoom := "Please select a room"
  const NeedName := "Please enter a device name"

  /** Next: step 1 needs a type and step 2 a room; otherwise the step
      advances by one. The message is the error shown when it does not. */
  function HandleNext(d: Dialog): (r: (Dialog, Option<string>))
    ensures d.step == 1 && d.form.typeId == "" ==> r == (d, Some(NeedType))
    ensures d.step == 2 && d.form.roomId == "" ==> r == (d, Some(NeedRoom))
    ensures !(d.step == 1 && d.form.typeId == "") && !(d.step == 2 && d.form.roomId == "") ==>
      r == (d.(step := d.step + 1), None)
  {
    if d.step == 1 && d.form.typeId == "" then (d, Some(NeedType))
    else if d.step == 2 && d.form.roomId == "" then (d, Some(NeedRoom))
    else (d.(step := d.step + 1), None)
  }

  /** Back goes one step down; its button is disabled on step 1. */
  function HandleBack(d: Dialog): (r: Dialog)
    ensures r.step == d.step - 1 && r.form == d.form && r.open == d.open
  {
    d.(step := d.step - 1)
  }

  predicate BackEnabled(d: Dialog, loading: bool) { d.step != 1 && !loading }

  /** Next shows on steps 1 and 2, and the submit button from step 3. */
  predicate ShowsNext(d: Dialog) { d.step < 3 }

  /** Opening and closing; closing returns to step 1 with an empty form. */
  function SetOpen(d: Dialog, open: bool): (r: Dialog)
    ensures r.open == open
    ensures !open ==> r.step == 1 && r.form == EmptyForm
    ensures open ==> r.step == d.step && r.form == d.form
  {
    if open then d.(open := true) else Dialog(false, 1, EmptyForm)
  }

  /** The wizard stays on steps 1 to 3 when only the buttons it shows are used. */
  predicate StepInRange(d: Dialog) { 1 <= d.step <= 3 }

  lemma ButtonsKeepStepInRange(d: Dialog, loading: bool)
    requires StepInRange(d)
    ensures ShowsNext(d) ==> StepInRange(HandleNext(d).0)
    ensures BackEnabled(d, loading) ==> StepInRange(HandleBack(d))
    ensures StepInRange(SetOpen(d, false)) && StepInRange(SetOpen(d, true))
  {
  }

  // ---------------------------------------------------------------------------
  // Registration

  datatype Registration = Registration(name: string, deviceType: Option<int>, room: Option<int>,
                                       ipAddress: string, icon: string, state: State)

  /** The selected type: the offered type whose id reads as `typeId`. */
  function SelectedType(types: seq<DeviceType>, typeId: string): Option<DeviceType>
  {
    Find((t: DeviceType) => IntToString(t.id) == typeId, types)
  }

  /** No registration without a name; the type and room ids are parsed as
      integers (`None` for NaN) and the state comes from the selected
      type's structure, `{}` when no offered type matches. */
  function HandleSubmit(types: seq<DeviceType>, f: Form): (r: Result)
    ensures f.name == "" <==> r == Refused(NeedName)
    ensures r.Register? ==>
      r.payload.name == f.name && r.payload.deviceType == ParseInt(f.typeId)
      && r.payload.room == ParseInt(f.roomId) && r.payload.ipAddress == f.ipAddress && r.payload.icon == f.icon
    ensures r.Register? && SelectedType(types, f.typeId).None? ==> r.payload.state == map[]
    ensures r.Register? && SelectedType(types, f.typeId).Some? ==>
      r.payload.state == (match SelectedType(types, f.typeId).value.structure
                          case None => map[] case Some(s) => InitialState(s))
  {
    if f.name == "" then Refused(NeedName)
    else
      var state := match SelectedType(types, f.typeId)
        case None => map[]
        case Some(t) => (match t.structure case None => map[] case Some(s) => InitialState(s));
      Register(Registration(f.name, ParseInt(f.typeId), ParseInt(f.roomId), f.ipAddress, f.icon, state))
  }

  datatype Result = Refused(message: string) | Register(payload: Registration)
}
