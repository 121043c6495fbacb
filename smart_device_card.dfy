/** A device's card on the dashboard: its local copy of the device state,
    the updates it sends, and how each control of the card template is shown.
    Toggles send at once; sliders wait in a single pending slot that a newer
    change replaces, and the timer sends what is in the slot. */
module SmartDeviceCard {
  import opened Seqs
  import opened JsValue

  type State = map<string, Value>

  /** `{...state, [variable]: value}`. */
  function Merge(state: State, variable: string, value: Value): (r: State)
    ensures variable in r && r[variable] == value
    ensures r.Keys == state.Keys + {variable}
    ensures forall k :: k in state && k != variable ==> r[k] == state[k]
  {
    state[variable := value]
  }

  /** `state[key]`: missing keys read as undefined. */
  function Lookup(state: State, key: string): Value
  {
    if key in state then state[key] else Undefined
  }

  class Card {
    var state: State
    const readOnly: bool
    /** The slider update waiting for its timer. */
    var pending: Option<State>
    /** Every state sent to the server, oldest first. */
    var sent: seq<State>

    /** A read-only card never schedules an update. */
    predicate Valid() reads this { readOnly ==> pending.None? }

    constructor (initial: Value, readOnly: bool)
      ensures Valid() && this.readOnly == readOnly
      ensures state == (match initial case Obj(fs) => StateOf(fs) case _ => map[])
      ensures pending.None? && sent == []
    {
      state := match initial case Obj(fs) => StateOf(fs) case _ => map[];
      this.readOnly := readOnly;
      pending := None;
      sent := [];
    }

    /** The local state always takes the new value. A read-only card sends
        nothing. An immediate change cancels the pending update and sends
        the new state; any other change replaces the pending update with it. */
    method HandleStateChange(variable: string, value: Value, immediate: bool)
      requires Valid()
      modifies this`state, this`pending, this`sent
      ensures Valid()
      ensures state == Merge(old(state), variable, value)
      ensures readOnly ==> pending == old(pending) && sent == old(sent)
      ensures !readOnly && immediate ==> pending.None? && sent == old(sent) + [state]
      ensures !readOnly && !immediate ==> pending == Some(state) && sent == old(sent)
    {
      var newState := Merge(state, variable, value);
      state := newState;
      if readOnly {
        return;
      }
      if immediate {
        pending := None;
        sent := sent + [newState];
      } else {
        pending := Some(newState);
      }
    }

    /** The timer fires: the pending update is sent, once. */
    method TimerFires()
      requires Valid()
      modifies this`pending, this`sent
      ensures Valid() && pending.None?
      ensures sent == old(sent) + (if old(pending).Some? then [old(pending).value] else [])
    {
      if pending.Some? {
        sent := sent + [pending.value];
        pending := None;
      }
    }

    /** Unmounting clears the timer: nothing more is sent. */
    method Unmount()
      requires Valid()
      modifies this`pending
      ensures Valid() && pending.None?
    {
      pending := None;
    }
  }

  /** The object entries as a state; a later entry for a key wins, as in `{...obj}`. */
  function StateOf(fields: seq<(string, Value)>): State
    decreases |fields|
  {
    if |fields| == 0 then map[]
    else StateOf(fields[..|fields| - 1])[fields[|fields| - 1].0 := fields[|fields| - 1].1]
  }

  // ---------------------------------------------------------------------------
  // Rendering controls

  /** A control of the card template as the card reads it. */
  datatype CardControl = CardControl(widgetType: string, caption: string, mapping: string,
                                     minValue: Value, maxValue: Value, step: Value)

  datatype View =
    | ToggleView(caption: string, checked: bool)
    | SliderView(caption: string, current: Value, min: Value, max: Value, step: Value)
    | NoView

  /** A toggle is on exactly when its variable is truthy. A slider's bounds
      and step default to 0, 100 and 1, and it shows its minimum while the
      variable is not a number. Other widget types show nothing. */
  function RenderWidget(state: State, c: CardControl): (r: View)
    ensures c.widgetType == "TOGGLE" ==> r == ToggleView(c.caption, Truthy(Lookup(state, c.mapping)))
    ensures c.widgetType == "SLIDER" ==>
      r.SliderView? && r.min == Coalesce(c.minValue, Num(0.0)) && r.max == Coalesce(c.maxValue, Num(100.0))
      && r.step == Coalesce(c.step, Num(1.0))
      && r.current == (if IsNumber(Lookup(state, c.mapping)) then Lookup(state, c.mapping) else r.min)
    ensures c.widgetType != "TOGGLE" && c.widgetType != "SLIDER" ==> r == NoView
  {
    var value := Lookup(state, c.mapping);
    if c.widgetType == "TOGGLE" then ToggleView(c.caption, Truthy(value))
    else if c.widgetType == "SLIDER" then
      var min := Coalesce(c.minValue, Num(0.0));
      SliderView(c.caption, if IsNumber(value) then value else min, min, Coalesce(c.maxValue, Num(100.0)), Coalesce(c.step, Num(1.0)))
    else NoView
  }

  /** Flipping a toggle shows it in the new position at once. */
  lemma ToggleShowsChange(state: State, c: CardControl, checked: bool)
    requires c.widgetType == "TOGGLE"
    ensures RenderWidget(Merge(state, c.mapping, Bool(checked)), c) == ToggleView(c.caption, checked)
  {
  }

  /** Moving a slider shows the new number. */
  lemma SliderShowsChange(state: State, c: CardControl, x: real)
    requires c.widgetType == "SLIDER"
    ensures RenderWidget(Merge(state, c.mapping, Num(x)), c).current == Num(x)
  {
  }
}
