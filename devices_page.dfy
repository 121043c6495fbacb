/** The devices page: devices grouped by room, and the create and edit
    handlers' guards and request bodies. */
module DevicesPage {
  import opened Seqs
  import opened Strings
  import opened JsValue

  /** A device as the list endpoint returns it. A room or room name of
      `null` is `None`. */
  datatype Device = Device(id: nat, name: string, ipAddress: string, status: string,
                           deviceType: nat, customData: Value,
                           room: Option<nat>, roomName: Option<string>)

  const Unassigned := "Unassigned"

  /** `device.room_name || "Unassigned"`: a missing or empty room name is
      unassigned. */
  function RoomKey(d: Device): (r: string)
    ensures d.roomName.Some? && d.roomName.value != "" ==> r == d.roomName.value
    ensures d.roomName.None? || d.roomName.value == "" ==> r == Unassigned
    ensures r != ""
  {
    if d.roomName.Some? && d.roomName.value != "" then d.roomName.value else Unassigned
  }

  /** The devices of one group, in list order. */
  function InRoom(devices: seq<Device>, key: string): (r: seq<Device>)
    ensures |r| <= |devices|
    ensures forall k :: 0 <= k < |r| ==> r[k] in devices && RoomKey(r[k]) == key
    decreases |devices|
  {
    if |devices| == 0 then []
    else
      var last := devices[|devices| - 1];
      InRoom(devices[..|devices| - 1], key) + (if RoomKey(last) == key then [last] else [])
  }

  function RoomKeys(devices: seq<Device>): set<string> { set d | d in devices :: RoomKey(d) }

  lemma RoomKeysSnoc(devices: seq<Device>, d: Device)
    ensures RoomKeys(devices + [d]) == RoomKeys(devices) + {RoomKey(d)}
  {
    forall key | key in RoomKeys(devices + [d]) ensures key in RoomKeys(devices) + {RoomKey(d)} {
      var e :| e in devices + [d] && RoomKey(e) == key;
    }
  }

  /** `grouped` is the grouping of `prefix`: one group per room key that
      occurs, holding that room's devices in order. */
  predicate GroupsOf(prefix: seq<Device>, grouped: map<string, seq<Device>>)
  {
    && grouped.Keys == RoomKeys(prefix)
    && forall key :: key in grouped ==> grouped[key] == InRoom(prefix, key)
  }

  /** Filing the next device keeps the map the grouping of the devices seen:
      `started` has a group for its key, and `filed` has the device appended
      to it. */
  lemma FiledStep(devices: seq<Device>, i: nat, grouped: map<string, seq<Device>>,
                  started: map<string, seq<Device>>, filed: map<string, seq<Device>>)
    requires i < |devices| && GroupsOf(devices[..i], grouped)
    requires started == if RoomKey(devices[i]) !in grouped then grouped[RoomKey(devices[i]) := []] else grouped
    requires filed == started[RoomKey(devices[i]) := started[RoomKey(devices[i])] + [devices[i]]]
    ensures GroupsOf(devices[..i + 1], filed)
  {
    FiledKeys(devices, i, grouped, filed);
    FiledGroups(devices, i, grouped, started, filed);
  }

  lemma FiledKeys(devices: seq<Device>, i: nat, grouped: map<string, seq<Device>>, filed: map<string, seq<Device>>)
    requires i < |devices| && grouped.Keys == RoomKeys(devices[..i])
    requires filed.Keys == grouped.Keys + {RoomKey(devices[i])}
    ensures filed.Keys == RoomKeys(devices[..i + 1])
  {
    assert devices[..i + 1] == devices[..i] + [devices[i]];
    RoomKeysSnoc(devices[..i], devices[i]);
  }

  lemma FiledGroups(devices: seq<Device>, i: nat, grouped: map<string, seq<Device>>,
                    started: map<string, seq<Device>>, filed: map<string, seq<Device>>)
    requires i < |devices| && GroupsOf(devices[..i], grouped)
    requires started == if RoomKey(devices[i]) !in grouped then grouped[RoomKey(devices[i]) := []] else grouped
    requires filed == started[RoomKey(devices[i]) := started[RoomKey(devices[i])] + [devices[i]]]
    ensures forall key :: key in filed ==> filed[key] == InRoom(devices[..i + 1], key)
  {
    var k := RoomKey(devices[i]);
    if k !in grouped {
      InRoomAbsent(devices[..i], k);
    }
    assert started[k] == InRoom(devices[..i], k);
    forall key | key in filed ensures filed[key] == InRoom(devices[..i + 1], key) {
      InRoomStep(devices, i, key);
    }
  }

  lemma InRoomStep(devices: seq<Device>, i: nat, key: string)
    requires i < |devices|
    ensures InRoom(devices[..i + 1], key) == InRoom(devices[..i], key) + (if RoomKey(devices[i]) == key then [devices[i]] else [])
  {
    assert devices[..i + 1][..i] == devices[..i];
  }

  /** The members every object literal inherits from `Object.prototype`.
      Looking one of them up in a fresh `{}` finds a function or an object,
      which is truthy and has no `push`. */
  const InheritedKeys: set<string> := {
    "constructor", "__proto__", "hasOwnProperty", "isPrototypeOf", "propertyIsEnumerable",
    "toString", "toLocaleString", "valueOf",
    "__defineGetter__", "__defineSetter__", "__lookupGetter__", "__lookupSetter__"
  }

  /** `groupDevicesByRoom`: one group per room key that occurs, holding that
      room's devices in list order. The groups live in an object literal, so
      a device whose room key is an inherited member finds that member
      instead of a group, and the `push` on it throws (`None`). */
  method GroupDevicesByRoom(devices: seq<Device>) returns (r: Option<map<string, seq<Device>>>)
    ensures r.None? <==> exists k :: 0 <= k < |devices| && RoomKey(devices[k]) in InheritedKeys
    ensures r.Some? ==> r.value.Keys == RoomKeys(devices)
    ensures r.Some? ==> forall key :: key in r.value ==> r.value[key] == InRoom(devices, key)
  {
    var grouped := map[];
    var i := 0;
    while i < |devices|
      invariant 0 <= i <= |devices|
      invariant GroupsOf(devices[..i], grouped)
      invariant forall k :: 0 <= k < i ==> RoomKey(devices[k]) !in InheritedKeys
    {
      var device := devices[i];
      var roomName := RoomKey(device);
      if roomName in InheritedKeys {
        return None;
      }
      ghost var before := grouped;
      if roomName !in grouped {
        grouped := grouped[roomName := []];
      }
      ghost var started := grouped;
      grouped := grouped[roomName := grouped[roomName] + [device]];
      FiledStep(devices, i, before, started, grouped);
      i := i + 1;
    }
    assert devices[..i] == devices;
    return Some(grouped);
  }

  /** A key that no device has collects nothing. */
  lemma {:induction false} InRoomAbsent(devices: seq<Device>, key: string)
    requires key !in RoomKeys(devices)
    ensures InRoom(devices, key) == []
    decreases |devices|
  {
    if |devices| > 0 {
      var init := devices[..|devices| - 1];
      assert RoomKeys(init) <= RoomKeys(devices);
      InRoomAbsent(init, key);
    }
  }

  /** Every device lands in its own room's group and in no other. */
  lemma ExactlyOneGroup(devices: seq<Device>, i: nat, key: string)
    requires i < |devices|
    ensures devices[i] in InRoom(devices, RoomKey(devices[i]))
    ensures devices[i] in InRoom(devices, key) ==> key == RoomKey(devices[i])
  {
    InRoomIsFilter(devices, RoomKey(devices[i]));
  }

  function InGroup(key: string): Device -> bool { (d: Device) => RoomKey(d) == key }

  /** A group is the list filtered by its room key. */
  lemma {:induction false} InRoomIsFilter(devices: seq<Device>, key: string)
    ensures InRoom(devices, key) == Filter(InGroup(key), devices)
    decreases |devices|
  {
    if |devices| > 0 {
      var init := devices[..|devices| - 1];
      var last := devices[|devices| - 1];
      var tail := if RoomKey(last) == key then [last] else [];
      calc {
        InRoom(devices, key);
        InRoom(init, key) + tail;
        { InRoomIsFilter(init, key); }
        Filter(InGroup(key), init) + tail;
        { FilterSnoc(InGroup(key), init, last); }
        Filter(InGroup(key), init + [last]);
        { assert devices == init + [last]; }
        Filter(InGroup(key), devices);
      }
    }
  }

  /** The sizes of the groups named by `keys`, added up. */
  function GroupSizes(devices: seq<Device>, keys: seq<string>): nat
    decreases |keys|
  {
    if |keys| == 0 then 0 else |InRoom(devices, keys[0])| + GroupSizes(devices, keys[1..])
  }

  /** How many of the distinct `keys` equal `key`: one or none. */
  lemma {:induction false} CountKey(keys: seq<string>, key: string)
    requires forall a, b :: 0 <= a < b < |keys| ==> keys[a] != keys[b]
    ensures key in keys ==> Occurrences(keys, key) == 1
    ensures key !in keys ==> Occurrences(keys, key) == 0
    decreases |keys|
  {
    if |keys| > 0 {
      CountKey(keys[1..], key);
      if keys[0] == key {
        assert key !in keys[1..] by {
          forall b | 0 <= b < |keys[1..]|
            ensures keys[1..][b] != key
          {
            assert keys[1..][b] == keys[b + 1];
          }
        }
      } else {
        assert key in keys ==> key in keys[1..];
      }
    }
  }

  /** How many entries of `keys` are `key`. */
  function Occurrences(keys: seq<string>, key: string): nat
    decreases |keys|
  {
    if |keys| == 0 then 0 else (if keys[0] == key then 1 else 0) + Occurrences(keys[1..], key)
  }

  /** Adding one device grows the sizes by how often its key is listed. */
  lemma {:induction false} GroupSizesSnoc(devices: seq<Device>, d: Device, keys: seq<string>)
    ensures GroupSizes(devices + [d], keys) == GroupSizes(devices, keys) + Occurrences(keys, RoomKey(d))
    decreases |keys|
  {
    if |keys| > 0 {
      assert (devices + [d])[..|devices + [d]| - 1] == devices;
      GroupSizesSnoc(devices, d, keys[1..]);
    }
  }

  /** Grouping loses and duplicates no device: over the distinct room keys,
      the group sizes add up to the number of devices. */
  lemma {:induction false} GroupingKeepsCount(devices: seq<Device>, keys: seq<string>)
    requires forall a, b :: 0 <= a < b < |keys| ==> keys[a] != keys[b]
    requires RoomKeys(devices) <= set k | k in keys
    ensures GroupSizes(devices, keys) == |devices|
    decreases |devices|
  {
    if |devices| == 0 {
      ZeroSizes(keys);
    } else {
      var init := devices[..|devices| - 1];
      var last := devices[|devices| - 1];
      assert devices == init + [last];
      assert RoomKeys(init) <= RoomKeys(devices);
      GroupingKeepsCount(init, keys);
      GroupSizesSnoc(init, last, keys);
      assert RoomKey(last) in RoomKeys(devices);
      CountKey(keys, RoomKey(last));
    }
  }

  lemma {:induction false} ZeroSizes(keys: seq<string>)
    ensures GroupSizes([], keys) == 0
    decreases |keys|
  {
    if |keys| > 0 {
      ZeroSizes(keys[1..]);
    }
  }

  // ---------------------------------------------------------------------------
  // Create and edit

  /** The dialog's fields as typed; the selects hold ids as text, "" when
      nothing is chosen. */
  datatype Form = Form(name: string, ipAddress: string, deviceTypeId: string, roomId: string)

  /** A request body. A type or room of `None` is sent as `null`, which is
      also what `parseInt` failing gives once serialised. */
  datatype DeviceBody = DeviceBody(name: string, ipAddress: string, deviceType: Option<int>,
                                   room: Option<int>, customData: Value)

  datatype Outcome = Refused(message: string) | Create(body: DeviceBody) | Update(id: nat, body: DeviceBody)

  const FieldsRequired := "Name, IP address, and device type are required"

  /** The fields the dialog requires: a name and an IP address that are not
      blank, and a chosen type. */
  predicate Complete(f: Form) { !Blank(f.name) && !Blank(f.ipAddress) && f.deviceTypeId != "" }

  /** `roomId ? parseInt(roomId) : null`. */
  function RoomField(roomId: string): (r: Option<int>)
    ensures roomId == "" ==> r.None?
    ensures roomId != "" ==> r == ParseInt(roomId)
  {
    if roomId != "" then ParseInt(roomId) else None
  }

  /** The body the dialog sends: the name and address as typed, the type
      and room as parsed, and the given custom data. */
  function Body(f: Form, customData: Value): DeviceBody
  {
    DeviceBody(f.name, f.ipAddress, ParseInt(f.deviceTypeId), RoomField(f.roomId), customData)
  }

  /** Both handlers' guard, as the source writes it with `trim`. */
  predicate Accepted(f: Form)
    ensures Accepted(f) <==> Complete(f)
  {
    TrimEmptyIffBlank(f.name);
    TrimEmptyIffBlank(f.ipAddress);
    !(Trim(f.name) == "" || Trim(f.ipAddress) == "" || f.deviceTypeId == "")
  }

  /** `handleAddDevice`: refused unless the form is complete; the body has
      the name and address as typed and empty custom data. */
  function AddDevice(f: Form): (r: Outcome)
    ensures r.Refused? <==> !Complete(f)
    ensures r.Refused? ==> r.message == FieldsRequired
    ensures !r.Update?
    ensures r.Create? ==> r.body == DeviceBody(f.name, f.ipAddress, ParseInt(f.deviceTypeId), RoomField(f.roomId), Obj([]))
  {
    if !Accepted(f) then Refused(FieldsRequired) else Create(Body(f, Obj([])))
  }

  /** `handleEditDevice`: refused also when no device is being edited; the
      body keeps that device's custom data. */
  function EditDevice(editing: Option<Device>, f: Form): (r: Outcome)
    ensures r.Refused? <==> editing.None? || !Complete(f)
    ensures r.Refused? ==> r.message == FieldsRequired
    ensures !r.Create?
    ensures editing.Some? && r.Update? ==> (r.id == editing.value.id
      && r.body == DeviceBody(f.name, f.ipAddress, ParseInt(f.deviceTypeId), RoomField(f.roomId), editing.value.customData))
  {
    if editing.None? || !Accepted(f) then Refused(FieldsRequired)
    else Update(editing.value.id, Body(f, editing.value.customData))
  }

  /** `openEditDialog`: the device's fields fill the form; a room that is
      `null` (or the falsy id 0) shows as no room. */
  function OpenEditDialog(d: Device): (r: Form)
    ensures r.name == d.name && r.ipAddress == d.ipAddress
    ensures r.deviceTypeId == NatToString(d.deviceType)
    ensures d.room.None? || d.room.value == 0 ==> r.roomId == ""
    ensures d.room.Some? && d.room.value != 0 ==> r.roomId == NatToString(d.room.value)
  {
    Form(d.name, d.ipAddress, NatToString(d.deviceType),
         if d.room.Some? && d.room.value != 0 then NatToString(d.room.value) else "")
  }

  /** Saving an untouched edit dialog sends the device back as it was: its
      type, its room (or null), its name, address and custom data. */
  lemma UntouchedEditKeepsDevice(d: Device)
    requires !Blank(d.name) && !Blank(d.ipAddress)
    requires d.room != Some(0)
    ensures EditDevice(Some(d), OpenEditDialog(d))
      == Update(d.id, DeviceBody(d.name, d.ipAddress, Some(d.deviceType),
                                 if d.room.Some? then Some(d.room.value as int) else None, d.customData))
  {
    var f := OpenEditDialog(d);
    assert Complete(f);
    var room: Option<int> := if d.room.Some? then Some(d.room.value as int) else None;
    assert RoomField(f.roomId) == room by {
      if d.room.Some? {
        ParseNatToString(d.room.value);
      }
    }
    assert ParseInt(f.deviceTypeId) == Some(d.deviceType as int) by {
      ParseNatToString(d.deviceType);
    }
    assert Body(f, d.customData) == DeviceBody(d.name, d.ipAddress, Some(d.deviceType), room, d.customData);
  }
}
