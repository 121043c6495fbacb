/** The admin debug page's device panel: the device state edited as JSON
    text, the buttons that switch every boolean of the state on or off, and
    the status selector. `JSON.parse` and `JSON.stringify` are parameters:
    `parse` gives `None` where the source's parse throws. */
module DebugPage {
  import opened Seqs
  import opened JsValue

  /** Every boolean-valued entry set to `on`; every other entry kept. */
  function Toggled(entries: seq<(string, Value)>, on: bool): (r: seq<(string, Value)>)
    ensures |r| == |entries|
    ensures forall k :: 0 <= k < |entries| ==> r[k].0 == entries[k].0
    ensures forall k :: 0 <= k < |entries| ==> r[k].1 == if IsBoolean(entries[k].1) then Bool(on) else entries[k].1
  {
    Map((e: (string, Value)) => if IsBoolean(e.1) then (e.0, Bool(on)) else e, entries)
  }

  /** The loop over `Object.keys(updated)`, assigning each boolean key. */
  method SetToggles(entries: seq<(string, Value)>, on: bool) returns (updated: seq<(string, Value)>)
    ensures updated == Toggled(entries, on)
  {
    updated := entries;
    var i := 0;
    while i < |updated|
      invariant 0 <= i <= |updated| == |entries|
      invariant forall k :: 0 <= k < i ==> updated[k] == Toggled(entries, on)[k]
      invariant forall k :: i <= k < |entries| ==> updated[k] == entries[k]
    {
      if IsBoolean(updated[i].1) {
        updated := updated[i := (updated[i].0, Bool(on))];
      }
      i := i + 1;
    }
  }

  /** The keys are kept and nothing but booleans change. */
  lemma ToggledKeepsKeys(entries: seq<(string, Value)>, on: bool)
    ensures Keys(Toggled(entries, on)) == Keys(entries)
  {
  }

  /** Either button pressed twice does what pressing it once does, and "off"
      after "on" is "off" alone. */
  lemma ToggledIdempotent(entries: seq<(string, Value)>, on: bool)
    ensures Toggled(Toggled(entries, on), on) == Toggled(entries, on)
  {
  }

  lemma OffAfterOn(entries: seq<(string, Value)>)
    ensures Toggled(Toggled(entries, true), false) == Toggled(entries, false)
  {
  }

  class DevicePanel {
    var stateJson: string
    var jsonValid: bool
    var status: string
    const deviceStatus: string
    /** The device states sent to the server, oldest first. */
    var sent: seq<Value>

    constructor (text: string, deviceStatus: string)
      ensures stateJson == text && jsonValid && status == deviceStatus && this.deviceStatus == deviceStatus && sent == []
    {
      stateJson := text;
      jsonValid := true;
      status := deviceStatus;
      this.deviceStatus := deviceStatus;
      sent := [];
    }

    /** Editing the text records whether it parses. */
    method HandleJsonChange(value: string, parse: string -> Option<Value>)
      modifies this`stateJson, this`jsonValid
      ensures stateJson == value && jsonValid == parse(value).Some?
    {
      stateJson := value;
      jsonValid := parse(value).Some?;
    }

    /** Saving sends the parsed text, and nothing when it was marked invalid
        or does not parse. */
    method HandleSaveState(parse: string -> Option<Value>)
      modifies this`sent
      ensures !jsonValid || parse(stateJson).None? ==> sent == old(sent)
      ensures jsonValid && parse(stateJson).Some? ==> sent == old(sent) + [parse(stateJson).value]
    {
      if !jsonValid {
        return;
      }
      var parsed := parse(stateJson);
      if parsed.Some? {
        sent := sent + [parsed.value];
      }
    }

    /** `setAllTogglesOn` and `setAllTogglesOff`: the copy `{...current}`
        with every boolean set, shown as text and sent; text that does not
        parse changes nothing. */
    method SetAllToggles(on: bool, parse: string -> Option<Value>, stringify: Value -> string)
      modifies this`stateJson, this`sent
      ensures parse(old(stateJson)).None? ==> stateJson == old(stateJson) && sent == old(sent)
      ensures parse(old(stateJson)).Some? ==>
        var updated := Obj(Toggled(Entries(parse(old(stateJson)).value), on));
        stateJson == stringify(updated) && sent == old(sent) + [updated]
    {
      var current := parse(stateJson);
      if current.None? {
        return;
      }
      var updated := SetToggles(Entries(current.value), on);
      stateJson := stringify(Obj(updated));
      sent := sent + [Obj(updated)];
    }

    method HandleStatusChange(newStatus: string)
      modifies this`status
      ensures status == newStatus
      ensures SaveStatusEnabled(false) <==> newStatus != deviceStatus
    {
      status := newStatus;
    }

    /** Save Status is disabled while the choice equals the device's status
        and while the update is under way, and enabled otherwise. */
    predicate SaveStatusEnabled(busy: bool) reads this
      ensures busy ==> !SaveStatusEnabled(busy)
      ensures status == deviceStatus ==> !SaveStatusEnabled(busy)
      ensures !busy && status != deviceStatus ==> SaveStatusEnabled(busy)
    {
      status != deviceStatus && !busy
    }
  }
}
