/** The register-device page: a three-step form whose step and fields the
    page's handlers change in place. */
module AddDevicePage {
  import opened Seqs
  import opened Strings
  import opened Structure

  datatype Payload = Payload(name: string, deviceType: Option<int>, room: Option<int>, ipAddress: string)

  const NeedType := "Please select a device type"
  const NeedRoom := "Please select a room"
  const NeedName := "Please enter a device name"

  class RegisterForm {
    var step: int
    var typeId: string
    var roomId: string
    var name: string
    var ipAddress: string
    var deviceTypes: seq<DeviceType>

    /** The wizard is on one of its three steps. */
    predicate Valid() reads this { 1 <= step <= 3 }

    constructor ()
      ensures Valid() && step == 1
      ensures typeId == "" && roomId == "" && name == "" && ipAddress == "" && deviceTypes == []
    {
      step := 1;
      typeId, roomId, name, ipAddress := "", "", "", "";
      deviceTypes := [];
    }

    /** Loading keeps the approved types only, in their order. */
    method LoadTypes(types: seq<DeviceType>)
      modifies this`deviceTypes
      ensures forall k :: 0 <= k < |deviceTypes| ==> deviceTypes[k] in types && deviceTypes[k].approved
      ensures forall k :: 0 <= k < |types| && types[k].approved ==> types[k] in deviceTypes
      ensures IsSubsequence(deviceTypes, types)
    {
      FilterIsSubsequence((t: DeviceType) => t.approved, types);
      deviceTypes := Filter((t: DeviceType) => t.approved, types);
    }

    /** `setFormData({...formData, ...})` for the four fields. */
    method SetFields(t: string, r: string, n: string, ip: string)
      modifies this`typeId, this`roomId, this`name, this`ipAddress
      ensures typeId == t && roomId == r && name == n && ipAddress == ip
    {
      typeId, roomId, name, ipAddress := t, r, n, ip;
    }

    /** Back is shown from step 2, Next on steps 1 and 2, submit on step 3. */
    predicate ShowsBack() reads this { step > 1 }
    predicate ShowsNext() reads this { step < 3 }

    /** Step 1 needs a type and step 2 a room; otherwise the step advances. */
    method HandleNext() returns (error: Option<string>)
      requires Valid()
      modifies this`step
      ensures old(step) == 1 && typeId == "" ==> error == Some(NeedType) && step == old(step)
      ensures old(step) == 2 && roomId == "" ==> error == Some(NeedRoom) && step == old(step)
      ensures !(old(step) == 1 && typeId == "") && !(old(step) == 2 && roomId == "") ==>
        error.None? && step == old(step) + 1
      ensures old(ShowsNext()) ==> Valid()
    {
      if step == 1 && typeId == "" {
        return Some(NeedType);
      }
      if step == 2 && roomId == "" {
        return Some(NeedRoom);
      }
      step := step + 1;
      return None;
    }

    method HandleBack()
      requires Valid()
      modifies this`step
      ensures step == old(step) - 1
      ensures old(ShowsBack()) ==> Valid()
    {
      step := step - 1;
    }

    /** No registration without a name; the type and room are parsed as
      integers (`None` for NaN). The form is left as it is. */
    method HandleSubmit() returns (r: Option<Payload>, error: Option<string>)
      ensures name == "" <==> r.None?
      ensures r.None? ==> error == Some(NeedName)
      ensures r.Some? ==> error.None? && r.value == Payload(name, ParseInt(typeId), ParseInt(roomId), ipAddress)
    {
      if name == "" {
        return None, Some(NeedName);
      }
      return Some(Payload(name, ParseInt(typeId), ParseInt(roomId), ipAddress)), None;
    }
  }
}
